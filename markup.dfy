/**
 * A small HTML markup tree, its serialisation to text, and the text facts the
 * renderer's lemmas use. Text and attribute values are written out verbatim:
 * the template engine is created without autoescaping.
 */
module Markup {
  import opened Wrappers

  /** An attribute; a None value is a bare attribute such as `selected`. */
  datatype Attr = Attr(name: string, value: Option<string>)

  /** An element with attributes and children, or a run of text. */
  datatype Node = Elem(tag: string, attrs: seq<Attr>, children: seq<Node>) | Text(text: string)

  /** Elements written without a closing tag. */
  const VoidTags: set<string> := {"input"}

  /** ` name="value"`, or ` name` for a bare attribute. */
  function AttrText(a: Attr): string
  {
    " " + a.name + match a.value
                   case None => ""
                   case Some(v) => "=\"" + v + "\""
  }

  function AttrsText(attrs: seq<Attr>): string
  {
    if attrs == [] then "" else AttrText(attrs[0]) + AttrsText(attrs[1..])
  }

  /** `<tag attrs>`. */
  function OpenTag(tag: string, attrs: seq<Attr>): string
  {
    "<" + tag + AttrsText(attrs) + ">"
  }

  /** `</tag>`. */
  function CloseTag(tag: string): string
  {
    "</" + tag + ">"
  }

  /** The markup of one node: an opening tag, then children and a closing tag unless void. */
  function Serialize(n: Node): string
    decreases n, 1
  {
    match n
    case Text(t) => t
    case Elem(tag, attrs, children) =>
      OpenTag(tag, attrs) + (if tag in VoidTags then "" else SerializeAll(children) + CloseTag(tag))
  }

  /** The markup of a node sequence: each node's markup, in order. */
  function SerializeAll(ns: seq<Node>): string
    decreases ns, 0
  {
    if ns == [] then "" else Serialize(ns[0]) + SerializeAll(ns[1..])
  }

  /** Serialising a concatenation concatenates the serialisations. */
  lemma {:induction false} SerializeAllAppend(a: seq<Node>, b: seq<Node>)
    ensures SerializeAll(a + b) == SerializeAll(a) + SerializeAll(b)
  {
    if a == [] {
      assert a + b == b;
    } else {
      assert (a + b)[1..] == a[1..] + b;
      SerializeAllAppend(a[1..], b);
    }
  }

  /** A non-void element: its opening tag, its children's markup in order, its closing tag. */
  lemma ElementMarkup(tag: string, attrs: seq<Attr>, children: seq<Node>)
    requires tag !in VoidTags
    ensures Serialize(Elem(tag, attrs, children)) == OpenTag(tag, attrs) + SerializeAll(children) + CloseTag(tag)
  {
  }

  /**
   * A container element whose last child is `last`: its opening tag, the
   * other children's markup, `last`'s markup, its closing tag.
   */
  lemma ContainerMarkup(tag: string, attrs: seq<Attr>, kids: seq<Node>, last: Node)
    requires tag !in VoidTags
    ensures Serialize(Elem(tag, attrs, kids + [last])) ==
            OpenTag(tag, attrs) + (SerializeAll(kids) + Serialize(last)) + CloseTag(tag)
  {
    ElementMarkup(tag, attrs, kids + [last]);
    SerializeAllAppend(kids, [last]);
    assert SerializeAll([last]) == Serialize(last) + SerializeAll([]);
  }

  /** A non-void element holding one run of text: opening tag, the text verbatim, closing tag. */
  lemma TextElementMarkup(tag: string, attrs: seq<Attr>, t: string)
    requires tag !in VoidTags
    ensures Serialize(Elem(tag, attrs, [Text(t)])) == OpenTag(tag, attrs) + t + CloseTag(tag)
  {
    ElementMarkup(tag, attrs, [Text(t)]);
    assert SerializeAll([Text(t)]) == t + SerializeAll([]);
  }

  /** `n` is an element carrying an attribute called `name`. */
  predicate HasAttr(n: Node, name: string)
  {
    n.Elem? && exists a :: a in n.attrs && a.name == name
  }

  /** `n` is an element carrying the attribute `name` with `value`. */
  predicate HasAttrValue(n: Node, name: string, value: Option<string>)
  {
    n.Elem? && Attr(name, value) in n.attrs
  }

  /** `part` occurs in `s` starting at position `i`. */
  predicate OccursAt(s: string, part: string, i: int)
  {
    0 <= i <= |s| - |part| && s[i..i + |part|] == part
  }

  /** `part` occurs somewhere in `s`. */
  ghost predicate Contains(s: string, part: string)
  {
    exists i :: OccursAt(s, part, i)
  }

  /** The concatenation of all pieces, in order. */
  function Flatten(pieces: seq<string>): string
  {
    if pieces == [] then "" else pieces[0] + Flatten(pieces[1..])
  }

  /** The concatenation of all groups, each flattened, in order. */
  function FlattenGroups(groups: seq<seq<string>>): string
  {
    Flatten(seq(|groups|, i requires 0 <= i < |groups| => Flatten(groups[i])))
  }

  /** A string occurs in anything written around it. */
  lemma ContainsMiddle(a: string, b: string, c: string)
    ensures Contains(a + b + c, b)
  {
    assert OccursAt(a + b + c, b, |a|);
  }

  /** A string occurs at the start of anything it begins. */
  lemma ContainsPrefix(a: string, b: string)
    ensures Contains(a + b, a)
  {
    assert OccursAt(a + b, a, 0);
  }

  /** Occurrence is transitive. */
  lemma ContainsTransitive(s: string, t: string, u: string)
    requires Contains(s, t) && Contains(t, u)
    ensures Contains(s, u)
  {
    var i :| OccursAt(s, t, i);
    var j :| OccursAt(t, u, j);
    forall k | 0 <= k < |u| ensures s[i + j + k] == u[k] {
      assert s[i + j + k] == s[i..i + |t|][j + k];
    }
    assert s[i + j..i + j + |u|] == u;
    assert OccursAt(s, u, i + j);
  }

  /** Every piece occurs in the flattened text. */
  lemma {:induction false} FlattenContains(pieces: seq<string>, k: nat)
    requires k < |pieces|
    ensures Contains(Flatten(pieces), pieces[k])
  {
    if k == 0 {
      ContainsMiddle("", pieces[0], Flatten(pieces[1..]));
      assert "" + pieces[0] + Flatten(pieces[1..]) == Flatten(pieces);
    } else {
      FlattenContains(pieces[1..], k - 1);
      ContainsMiddle(pieces[0], Flatten(pieces[1..]), "");
      assert pieces[0] + Flatten(pieces[1..]) + "" == Flatten(pieces);
      ContainsTransitive(Flatten(pieces), Flatten(pieces[1..]), pieces[k]);
    }
  }

  /** Every piece of every group occurs in the flattened groups. */
  lemma FlattenGroupsContains(groups: seq<seq<string>>, r: nat, k: nat)
    requires r < |groups| && k < |groups[r]|
    ensures Contains(FlattenGroups(groups), groups[r][k])
  {
    var flat := seq(|groups|, i requires 0 <= i < |groups| => Flatten(groups[i]));
    FlattenContains(flat, r);
    FlattenContains(groups[r], k);
    ContainsTransitive(FlattenGroups(groups), Flatten(groups[r]), groups[r][k]);
  }
}
