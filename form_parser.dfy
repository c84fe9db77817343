/**
 * `parse_xml`: from the root of a parsed form document to the form record
 * (title, description, field records, submit label), each piece with its own
 * default. Texts stay optional: an element that is present but empty carries
 * None into the record, exactly as ElementTree's `.text` does.
 */
module FormParser {
  import opened Wrappers
  import opened ElementTree

  /** One choice of a select or radio field: its `value` attribute and its text. */
  datatype OptionData = OptionData(value: Option<string>, text: Option<string>)

  /** One field record. `kind` is the record's `type` entry and `labelText` its `label` entry. */
  datatype FieldData = FieldData(
    kind: Option<string>,
    name: Option<string>,
    labelText: Option<string>,
    required: bool,
    placeholder: Option<string>,
    minLength: Option<string>,
    checked: bool,
    options: seq<OptionData>)

  /** The form record `parse_xml` returns. */
  datatype FormData = FormData(
    title: Option<string>,
    description: Option<string>,
    fields: seq<FieldData>,
    submitLabel: Option<string>)

  const DefaultTitle: string := "Untitled Form"
  const DefaultSubmitLabel: string := "Submit"
  const DefaultKind: string := "text"

  /** `found.text` when the lookup found an element, otherwise `default`. */
  function TextOr(found: Option<Element>, default: Option<string>): Option<string>
  {
    match found
    case None => default
    case Some(c) => c.text
  }

  /** `e.find(tag).text`, or `default` when `e` has no `tag` child. */
  function ChildText(e: Element, tag: string, default: Option<string>): Option<string>
  {
    TextOr(Find(e, tag), default)
  }

  /** `e.find(tag).text == 'true'`, and False when `e` has no `tag` child. */
  predicate ChildFlag(e: Element, tag: string)
  {
    match Find(e, tag)
    case None => false
    case Some(c) => c.text == Some("true")
  }

  /** The field types whose record collects options. */
  predicate HasChoices(kind: Option<string>)
  {
    kind == Some("select") || kind == Some("radio")
  }

  /** One option record: the `value` attribute (None when missing) and the element text. */
  function OptionOf(o: Element): OptionData
  {
    OptionData(if "value" in o.attrs then Some(o.attrs["value"]) else None, o.text)
  }

  /** The option records of a field: one per child of its `options` element, whatever its tag. */
  function OptionsOf(e: Element, kind: Option<string>): seq<OptionData>
  {
    if HasChoices(kind) then
      match Find(e, "options")
      case None => []
      case Some(os) => seq(|os.children|, i requires 0 <= i < |os.children| => OptionOf(os.children[i]))
    else []
  }

  /** The record built from one `field` element. */
  function FieldOf(e: Element): FieldData
  {
    var kind := ChildText(e, "type", Some(DefaultKind));
    FieldData(
      kind,
      ChildText(e, "name", Some("")),
      ChildText(e, "label", Some("")),
      ChildFlag(e, "required"),
      ChildText(e, "placeholder", None),
      ChildText(e, "minlength", None),
      ChildFlag(e, "checked"),
      OptionsOf(e, kind))
  }

  /** One record per element, in the same order. */
  function FieldsOf(es: seq<Element>): seq<FieldData>
  {
    seq(|es|, i requires 0 <= i < |es| => FieldOf(es[i]))
  }

  /** The form record built from the document root. */
  function FormOf(root: Element): FormData
  {
    FormData(
      ChildText(root, "title", Some(DefaultTitle)),
      ChildText(root, "description", Some("")),
      FieldsOf(FindAll(root, "field")),
      TextOr(FindPath(root, "submit", "label"), Some(DefaultSubmitLabel)))
  }

  /**
   * The body of `parse_xml`'s field loop: the record for one `field`
   * element, its options appended one by one for select and radio fields.
   */
  method ParseField(field: Element) returns (record: FieldData)
    ensures record == FieldOf(field)
  {
    var kind := ChildText(field, "type", Some(DefaultKind));
    var options: seq<OptionData> := [];
    if HasChoices(kind) {
      var found := Find(field, "options");
      if found.Some? {
        var optionElems := found.value.children;
        for m := 0 to |optionElems|
          invariant |options| == m
          invariant forall i :: 0 <= i < m ==> options[i] == OptionOf(optionElems[i])
        {
          options := options + [OptionOf(optionElems[m])];
        }
      }
    }
    assert options == OptionsOf(field, kind);
    record := FieldData(
      kind,
      ChildText(field, "name", Some("")),
      ChildText(field, "label", Some("")),
      ChildFlag(field, "required"),
      ChildText(field, "placeholder", None),
      ChildText(field, "minlength", None),
      ChildFlag(field, "checked"),
      options);
  }

  /**
   * `parse_xml`: a malformed document fails with the library's message and
   * never yields a partial record; a parsed one yields the record built by
   * walking the `field` children in order and appending one record each.
   */
  method ParseXml(doc: Document) returns (r: Result<FormData>)
    ensures doc.Malformed? ==> r == Failure(doc.message)
    ensures doc.WellFormed? ==> r == Success(FormOf(doc.root))
  {
    if doc.Malformed? {
      return Failure(doc.message);
    }
    var root := doc.root;
    var fieldElems := FindAll(root, "field");
    var fields: seq<FieldData> := [];
    for n := 0 to |fieldElems|
      invariant |fields| == n
      invariant forall i :: 0 <= i < n ==> fields[i] == FieldOf(fieldElems[i])
    {
      var record := ParseField(fieldElems[n]);
      fields := fields + [record];
    }
    assert fields == FieldsOf(fieldElems);
    var title := ChildText(root, "title", Some(DefaultTitle));
    var description := ChildText(root, "description", Some(""));
    var submitLabel := TextOr(FindPath(root, "submit", "label"), Some(DefaultSubmitLabel));
    return Success(FormData(title, description, fields, submitLabel));
  }

  /**
   * A text entry is its default exactly when the element is absent; when
   * present it is the first such element's text verbatim, None included.
   */
  lemma ChildTextSpec(e: Element, tag: string, default: Option<string>)
    ensures (forall c :: c in e.children ==> c.tag != tag) ==> ChildText(e, tag, default) == default
    ensures forall i :: IsFirst(e.children, tag, i) ==> ChildText(e, tag, default) == e.children[i].text
  {
  }

  /** A flag is true iff its first element is present and its text is exactly "true". */
  lemma ChildFlagSpec(e: Element, tag: string)
    ensures ChildFlag(e, tag) <==>
            exists i :: IsFirst(e.children, tag, i) && e.children[i].text == Some("true")
  {
    match FirstIndex(e.children, tag)
    case None =>
    case Some(k) =>
      assert IsFirst(e.children, tag, k);
  }

  /** The title, description and submit label, each with its own default. */
  lemma FormHeadingDefaults(root: Element)
    ensures (forall c :: c in root.children ==> c.tag != "title") ==> FormOf(root).title == Some(DefaultTitle)
    ensures forall i :: IsFirst(root.children, "title", i) ==> FormOf(root).title == root.children[i].text
    ensures (forall c :: c in root.children ==> c.tag != "description") ==> FormOf(root).description == Some("")
    ensures forall i :: IsFirst(root.children, "description", i) ==> FormOf(root).description == root.children[i].text
    ensures FindPath(root, "submit", "label").None? ==> FormOf(root).submitLabel == Some(DefaultSubmitLabel)
    ensures FindPath(root, "submit", "label").Some? ==> FormOf(root).submitLabel == FindPath(root, "submit", "label").value.text
  {
    ChildTextSpec(root, "title", Some(DefaultTitle));
    ChildTextSpec(root, "description", Some(""));
  }

  /** With no `submit` child, or no `submit` child holding a `label`, the label is "Submit". */
  lemma SubmitLabelDefault(root: Element)
    ensures (forall c :: c in root.children && c.tag == "submit" ==>
               forall d :: d in c.children ==> d.tag != "label")
            ==> FormOf(root).submitLabel == Some(DefaultSubmitLabel)
  {
    var submits := FindAll(root, "submit");
    if forall c :: c in root.children && c.tag == "submit" ==> forall d :: d in c.children ==> d.tag != "label" {
      forall k | 0 <= k < |submits| ensures Find(submits[k], "label").None? {
        assert submits[k] in submits;
      }
    }
  }

  /**
   * The record has one field entry per `field` child of the root, in document
   * order: appending a child to the root appends exactly its record when it
   * is a `field` and nothing otherwise.
   */
  lemma {:induction false} FieldsFollowDocument(root: Element, c: Element)
    ensures FormOf(root.(children := root.children + [c])).fields ==
            FormOf(root).fields + (if c.tag == "field" then [FieldOf(c)] else [])
  {
    var root' := root.(children := root.children + [c]);
    var a := Filter(root.children, "field");
    var b := Filter([c], "field");
    FilterAppend(root.children, [c], "field");
    assert FindAll(root', "field") == a + b;
    assert b == if c.tag == "field" then [c] else [];
    FieldsOfAppend(a, b);
  }

  /** Records of a concatenation are the concatenated records. */
  lemma FieldsOfAppend(a: seq<Element>, b: seq<Element>)
    ensures FieldsOf(a + b) == FieldsOf(a) + FieldsOf(b)
  {
  }

  /** Field records correspond one to one, in order, to the `field` children. */
  lemma FieldsAreFieldChildren(root: Element)
    ensures |FormOf(root).fields| == |FindAll(root, "field")|
    ensures forall i :: 0 <= i < |FormOf(root).fields| ==>
              FormOf(root).fields[i] == FieldOf(FindAll(root, "field")[i])
    ensures (forall c :: c in root.children ==> c.tag != "field") ==> FormOf(root).fields == []
  {
    var fs := FindAll(root, "field");
    if fs != [] {
      assert fs[0] in fs;
    }
  }

  /**
   * The type is "text" only when the `type` element is absent; otherwise it
   * is that element's text, kept verbatim even when it is no known type.
   */
  lemma KindSpec(e: Element)
    ensures (forall c :: c in e.children ==> c.tag != "type") ==> FieldOf(e).kind == Some(DefaultKind)
    ensures forall i :: IsFirst(e.children, "type", i) ==> FieldOf(e).kind == e.children[i].text
  {
    ChildTextSpec(e, "type", Some(DefaultKind));
  }

  /** `required` and `checked` are true iff the element is present with text exactly "true". */
  lemma FlagsSpec(e: Element)
    ensures FieldOf(e).required <==>
            exists i :: IsFirst(e.children, "required", i) && e.children[i].text == Some("true")
    ensures FieldOf(e).checked <==>
            exists i :: IsFirst(e.children, "checked", i) && e.children[i].text == Some("true")
  {
    ChildFlagSpec(e, "required");
    ChildFlagSpec(e, "checked");
  }

  /**
   * Options are collected only for select and radio fields that have an
   * `options` child; then there is one record per child element of it, in
   * order, whatever the child's tag.
   */
  lemma OptionsSpec(e: Element)
    ensures FieldOf(e).options != [] ==> HasChoices(FieldOf(e).kind) && Find(e, "options").Some?
    ensures HasChoices(FieldOf(e).kind) && Find(e, "options").Some? ==>
              var os := Find(e, "options").value;
              && |FieldOf(e).options| == |os.children|
              && forall i :: 0 <= i < |os.children| ==>
                   FieldOf(e).options[i].text == os.children[i].text &&
                   FieldOf(e).options[i].value == (if "value" in os.children[i].attrs then Some(os.children[i].attrs["value"]) else None)
  {
  }
}
