/**
 * Concrete documents taken through both stages: parsing the tree into the form
 * record, then rendering that record's fields.
 */
module Scenarios {
  import opened Wrappers
  import opened ElementTree
  import opened FormParser
  import opened Markup
  import opened FormRenderer

  /** An element with text and no attributes or children. */
  function Leaf(tag: string, text: string): Element
  {
    Element(tag, Some(text), map[], [])
  }

  /**
   * `<field><type>email</type><name>email</name><label>Email</label>
   * <required>true</required><placeholder>you@example.com</placeholder></field>`
   */
  function EmailField(): Element
  {
    Element("field", None, map[], [
      Leaf("type", "email"), Leaf("name", "email"), Leaf("label", "Email"),
      Leaf("required", "true"), Leaf("placeholder", "you@example.com")])
  }

  /** The record of that field: an email field, required, with the placeholder and no minlength. */
  function EmailRecord(): FieldData
  {
    FieldData(Some("email"), Some("email"), Some("Email"), true, Some("you@example.com"), None, false, [])
  }

  /** The field parses to that record. */
  lemma EmailFieldParses()
    ensures FieldOf(EmailField()) == EmailRecord()
  {
    var field := EmailField();
    assert IsFirst(field.children, "type", 0);
    assert IsFirst(field.children, "name", 1);
    assert IsFirst(field.children, "label", 2);
    assert IsFirst(field.children, "required", 3);
    assert IsFirst(field.children, "placeholder", 4);
    assert Find(field, "minlength").None?;
    assert Find(field, "checked").None?;
  }

  /** `<form>` holding only that field. */
  function EmailForm(): Element
  {
    Element("form", None, map[], [EmailField()])
  }

  /** That form has exactly that one record. */
  lemma EmailFormParses()
    ensures FormOf(EmailForm()).fields == [EmailRecord()]
  {
    assert FindAll(EmailForm(), "field") == [EmailField()];
    FieldsAreFieldChildren(EmailForm());
    EmailFieldParses();
  }

  /** That form has no title and no submit element, so both take their defaults. */
  lemma EmailFormDefaults()
    ensures FormOf(EmailForm()).title == Some(DefaultTitle)
    ensures FormOf(EmailForm()).submitLabel == Some(DefaultSubmitLabel)
  {
    FormHeadingDefaults(EmailForm());
    assert FindAll(EmailForm(), "submit") == [];
  }

  /** That record renders as an email input that is required and carries the placeholder. */
  lemma EmailFieldRenders()
    ensures var f := EmailRecord();
            && Widget(f) == [TextInput(f)]
            && HasAttrValue(TextInput(f), "type", Some("email"))
            && HasAttrValue(TextInput(f), "required", Some("required"))
            && HasAttrValue(TextInput(f), "placeholder", Some("you@example.com"))
            && !HasAttr(TextInput(f), "minlength")
  {
    TextInputSpec(EmailRecord());
  }

  /**
   * A present but empty `<title/>` keeps None in the record (not the
   * default), which the template prints as "None".
   */
  lemma EmptyTitleScenario()
    ensures var form := FormOf(Element("form", None, map[], [Element("title", None, map[], [])]));
            form.title == None && Interp(form.title) == "None" && form.fields == []
  {
    var root := Element("form", None, map[], [Element("title", None, map[], [])]);
    FormHeadingDefaults(root);
    FieldsAreFieldChildren(root);
    assert IsFirst(root.children, "title", 0);
  }

  /**
   * A radio field with options a and b, listed under an `options` element,
   * renders two radio inputs of which only the first is checked.
   */
  lemma RadioScenario()
    ensures var options := Element("options", None, map[], [
                Element("option", Some("A"), map["value" := "a"], []),
                Element("option", Some("B"), map["value" := "b"], [])]);
            var f := FieldOf(Element("field", None, map[], [Leaf("type", "radio"), options]));
            && f.options == [OptionData(Some("a"), Some("A")), OptionData(Some("b"), Some("B"))]
            && HasAttr(RadioGroup(f).children[0].children[0], "checked")
            && !HasAttr(RadioGroup(f).children[1].children[0], "checked")
  {
    var options := Element("options", None, map[], [
      Element("option", Some("A"), map["value" := "a"], []),
      Element("option", Some("B"), map["value" := "b"], [])]);
    var field := Element("field", None, map[], [Leaf("type", "radio"), options]);
    KindSpec(field);
    assert IsFirst(field.children, "type", 0);
    assert IsFirst(field.children, "options", 1);
    OptionsSpec(field);
    var f := FieldOf(field);
    assert |f.options| == 2;
    RadioSpec(f);
  }
}
