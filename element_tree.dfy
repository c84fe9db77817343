/**
 * The parsed XML tree as ElementTree presents it, and the three lookups the
 * form parser uses on it: `find(tag)`, `findall(tag)` and `find("outer/inner")`.
 * Tokenising the text into this tree is done by the XML library and is not
 * modelled; a document either yields a root element or a parse error message.
 */
module ElementTree {
  import opened Wrappers

  /**
   * One element: its tag, its leading text (None when the element has no
   * text, as for `<title></title>`), its attributes and its child elements
   * in document order.
   */
  datatype Element = Element(
    tag: string,
    text: Option<string>,
    attrs: map<string, string>,
    children: seq<Element>)

  /** What the XML library hands back for a document. */
  datatype Document = WellFormed(root: Element) | Malformed(message: string)

  /** `i` is the position of the first element of `cs` tagged `tag`. */
  ghost predicate IsFirst(cs: seq<Element>, tag: string, i: int)
  {
    0 <= i < |cs| && cs[i].tag == tag && forall j :: 0 <= j < i ==> cs[j].tag != tag
  }

  /** Position of the first element of `cs` tagged `tag`, if any. */
  function FirstIndex(cs: seq<Element>, tag: string): (r: Option<nat>)
    ensures r.None? <==> forall j :: 0 <= j < |cs| ==> cs[j].tag != tag
    ensures r.Some? ==> IsFirst(cs, tag, r.value)
  {
    if cs == [] then None
    else if cs[0].tag == tag then Some(0)
    else match FirstIndex(cs[1..], tag)
      case None => None
      case Some(i) => Some(i + 1)
  }

  /** There is at most one first position. */
  lemma FirstIsUnique(cs: seq<Element>, tag: string, i: int, k: int)
    requires IsFirst(cs, tag, i) && IsFirst(cs, tag, k)
    ensures i == k
  {
  }

  /** ElementTree's `e.find(tag)`: the first direct child of `e` tagged `tag`. */
  function Find(e: Element, tag: string): (r: Option<Element>)
    ensures r.None? <==> forall c :: c in e.children ==> c.tag != tag
    ensures forall i :: IsFirst(e.children, tag, i) ==> r == Some(e.children[i])
  {
    match FirstIndex(e.children, tag)
    case None => None
    case Some(k) =>
      assert forall i :: IsFirst(e.children, tag, i) ==> i == k by {
        forall i | IsFirst(e.children, tag, i) ensures i == k {
          FirstIsUnique(e.children, tag, i, k);
        }
      }
      Some(e.children[k])
  }

  /** The elements of `cs` tagged `tag`, in their order in `cs`. */
  function Filter(cs: seq<Element>, tag: string): (r: seq<Element>)
    ensures |r| <= |cs|
    ensures forall x :: x in r ==> x in cs && x.tag == tag
    ensures forall c :: c in cs && c.tag == tag ==> c in r
  {
    if cs == [] then []
    else (if cs[0].tag == tag then [cs[0]] else []) + Filter(cs[1..], tag)
  }

  /** ElementTree's `e.findall(tag)`: every direct child of `e` tagged `tag`, in document order. */
  function FindAll(e: Element, tag: string): seq<Element>
  {
    Filter(e.children, tag)
  }

  /**
   * Filtering a concatenation is concatenating the filtered parts: no element
   * is dropped, merged or moved across another.
   */
  lemma {:induction false} FilterAppend(a: seq<Element>, b: seq<Element>, tag: string)
    ensures Filter(a + b, tag) == Filter(a, tag) + Filter(b, tag)
  {
    if a == [] {
      assert a + b == b;
    } else {
      assert (a + b)[1..] == a[1..] + b;
      FilterAppend(a[1..], b, tag);
    }
  }

  /** The first position, when there is one, holds the first filtered element. */
  lemma {:induction false} FirstIndexHeadsFilter(cs: seq<Element>, tag: string)
    ensures FirstIndex(cs, tag).None? <==> Filter(cs, tag) == []
    ensures FirstIndex(cs, tag).Some? ==> Filter(cs, tag)[0] == cs[FirstIndex(cs, tag).value]
  {
    if cs != [] && cs[0].tag != tag {
      FirstIndexHeadsFilter(cs[1..], tag);
    }
  }

  /** `find(tag)` is the head of `findall(tag)`. */
  lemma FindIsHeadOfFindAll(e: Element, tag: string)
    ensures Find(e, tag) == if FindAll(e, tag) == [] then None else Some(FindAll(e, tag)[0])
  {
    FirstIndexHeadsFilter(e.children, tag);
  }

  /** The first `tag` child of any element of `es`, scanning `es` in order. */
  function FirstChildAmong(es: seq<Element>, tag: string): (r: Option<Element>)
    ensures r.None? <==> forall k :: 0 <= k < |es| ==> Find(es[k], tag).None?
    ensures forall k ::
              (0 <= k < |es| && Find(es[k], tag).Some? && forall j :: 0 <= j < k ==> Find(es[j], tag).None?)
              ==> r == Find(es[k], tag)
  {
    if es == [] then None
    else match Find(es[0], tag)
      case Some(x) => Some(x)
      case None => FirstChildAmong(es[1..], tag)
  }

  /**
   * ElementTree's `e.find("outer/inner")`: the path selects, for each `outer`
   * child in document order, its `inner` children; `find` keeps the first.
   */
  function FindPath(e: Element, outer: string, inner: string): (r: Option<Element>)
  {
    FirstChildAmong(FindAll(e, outer), inner)
  }
}
