/**
 * `generate_html`: the form record and a flat styling map rendered through a
 * fixed template. Each field becomes one `form-group` container holding its
 * label and the widget its type selects; the containers follow the field
 * order and are followed by the submit button, all between a fixed header
 * (which carries the stylesheet) and a fixed footer.
 *
 * The template engine's conventions are written out: a None value prints as
 * "None", `if x` on an optional string is false for None and for "", a
 * missing styling key prints as nothing, and nothing is escaped.
 */
module FormRenderer {
  import opened Wrappers
  import opened FormParser
  import opened Markup

  /** How the template prints an optional string: None prints as "None". */
  function Interp(v: Option<string>): string
  {
    match v
    case Some(s) => s
    case None => "None"
  }

  /** Template truthiness of an optional string: None and "" are false. */
  predicate Truthy(v: Option<string>)
  {
    v.Some? && v.value != ""
  }

  /** `field.placeholder if field.placeholder else ''`. */
  function PlaceholderText(p: Option<string>): string
  {
    if Truthy(p) then p.value else ""
  }

  /** The result of a template lookup: a defined value, or the engine's Undefined. */
  datatype Lookup = Defined(v: Option<string>) | Undefined

  /** `field.selected`: a field record has no `selected` entry, so the lookup is Undefined. */
  function SelectedOf(f: FieldData): Lookup
  {
    Undefined
  }

  /** Template `==` between an option value and a lookup: Undefined equals no string and not None. */
  predicate TemplateEquals(a: Option<string>, b: Lookup)
  {
    b.Defined? && a == b.v
  }

  /** The value of `styling_options.<key>`: missing keys print as nothing. */
  function StyleValue(st: map<string, string>, key: string): string
  {
    if key in st then st[key] else ""
  }

  /** The styling keys the stylesheet uses. */
  const StyleKeys: set<string> := {
    "font", "background_color", "text_color", "title_color", "input_background_color",
    "input_text_color", "button_color", "button_text_color", "button_hover_color"}

  /**
   * The stylesheet, rule by rule, each rule as its fixed text (cut into
   * short pieces) with the styling values spliced in.
   */
  function CssRules(st: map<string, string>): seq<seq<string>>
  {
    [ // body
      [ "body { font-family: '", StyleValue(st, "font"), "'; max-width: 600px; ",
        "margin: 0 auto; padding: 20px; ", "background-color: ", StyleValue(st, "background_color"),
        "; color: ", StyleValue(st, "text_color"), "; }\n" ],
      // h1
      [ "h1 { color: ", StyleValue(st, "title_color"), "; }\n" ],
      // .form-group, label
      [ ".form-group { ", "margin-bottom: 15px; }\n",
        "label { display: block; ", "margin-bottom: 5px; ", "font-weight: bold; }\n" ],
      // text inputs, select, textarea
      [ "input[type=\"text\"], ", "input[type=\"email\"], ", "input[type=\"password\"], ",
        "select, textarea { ", "width: 100%; padding: 8px; ", "border: 1px solid #ddd; ",
        "border-radius: 4px; ", "background-color: ", StyleValue(st, "input_background_color"),
        "; color: ", StyleValue(st, "input_text_color"), "; }\n" ],
      // textarea height, radio and checkbox groups
      [ "textarea { height: 100px; }\n",
        ".radio-group, ", ".checkbox-group { ", "margin-top: 5px; }\n",
        ".radio-option, ", ".checkbox-option { ", "margin-right: 10px; }\n" ],
      // button
      [ "button { ", "background-color: ", StyleValue(st, "button_color"),
        "; color: ", StyleValue(st, "button_text_color"), "; padding: 10px 15px; ",
        "border: none; ", "border-radius: 4px; ", "cursor: pointer; }\n" ],
      // button:hover
      [ "button:hover { ", "background-color: ", StyleValue(st, "button_hover_color"), "; }" ] ]
  }

  /** The stylesheet text. */
  function Stylesheet(st: map<string, string>): string
  {
    FlattenGroups(CssRules(st))
  }

  /**
   * Everything before the `<form>` element, piece by piece: the head with the
   * title and the stylesheet, then the heading and the description.
   */
  function PreludePieces(form: FormData, st: map<string, string>): seq<string>
  {
    [ "<!DOCTYPE html>\n", "<html lang=\"en\">\n<head>\n", "<meta charset=\"UTF-8\">\n",
      "<meta name=\"viewport\" ", "content=\"width=device-width, ", "initial-scale=1.0\">\n",
      "<title>",
      Interp(form.title),
      "</title>\n<style>\n",
      Stylesheet(st),
      "\n</style>\n</head>\n", "<body>\n<h1>",
      Interp(form.title),
      "</h1>\n<p>",
      Interp(form.description),
      "</p>\n" ]
  }

  function Prelude(form: FormData, st: map<string, string>): string
  {
    Flatten(PreludePieces(form, st))
  }

  /** Everything after the `<form>` element. */
  const Closing: string := "\n</body>\n</html>\n"

  /** The field types the template renders text-style inputs for. */
  predicate IsTextLike(kind: Option<string>)
  {
    kind == Some("text") || kind == Some("email") || kind == Some("password")
  }

  /** The field types the template has a widget for. */
  predicate IsKnownKind(kind: Option<string>)
  {
    IsTextLike(kind) || kind == Some("select") || kind == Some("checkbox") ||
    kind == Some("radio") || kind == Some("textarea")
  }

  /** `{% if field.required %}required="required"{% endif %}` */
  function RequiredAttr(required: bool): seq<Attr>
  {
    if required then [Attr("required", Some("required"))] else []
  }

  /** `<label for="name">label</label>` */
  function LabelFor(f: FieldData): Node
  {
    Elem("label", [Attr("for", Some(Interp(f.name)))], [Text(Interp(f.labelText))])
  }

  /** The input of a text, email or password field. */
  function TextInput(f: FieldData): Node
  {
    Elem("input",
      [ Attr("type", Some(Interp(f.kind))),
        Attr("id", Some(Interp(f.name))),
        Attr("name", Some(Interp(f.name))),
        Attr("placeholder", Some(PlaceholderText(f.placeholder))) ] +
      RequiredAttr(f.required) +
      (if Truthy(f.minLength) then [Attr("minlength", Some(f.minLength.value))] else []),
      [])
  }

  /** One `<option>` of a select field; `selected` only when its value equals `field.selected`. */
  function SelectOption(f: FieldData, o: OptionData): Node
  {
    Elem("option",
      [Attr("value", Some(Interp(o.value)))] +
      (if TemplateEquals(o.value, SelectedOf(f)) then [Attr("selected", None)] else []),
      [Text(Interp(o.text))])
  }

  /** The `<select>` of a select field, one option per option record. */
  function Select(f: FieldData): Node
  {
    Elem("select",
      [Attr("id", Some(Interp(f.name))), Attr("name", Some(Interp(f.name)))] + RequiredAttr(f.required),
      seq(|f.options|, i requires 0 <= i < |f.options| => SelectOption(f, f.options[i])))
  }

  /** The input of a checkbox field. */
  function Checkbox(f: FieldData): Node
  {
    Elem("input",
      [Attr("type", Some("checkbox")), Attr("id", Some(Interp(f.name))), Attr("name", Some(Interp(f.name)))] +
      (if f.checked then [Attr("checked", Some("checked"))] else []),
      [])
  }

  /** One radio input; `first` is the template's `loop.first`. */
  function RadioInput(f: FieldData, o: OptionData, first: bool): Node
  {
    Elem("input",
      [Attr("type", Some("radio")), Attr("name", Some(Interp(f.name))), Attr("value", Some(Interp(o.value)))] +
      (if first then [Attr("checked", Some("checked"))] else []),
      [])
  }

  /** One radio choice: its input followed by the option text, inside a label. */
  function RadioChoice(f: FieldData, o: OptionData, first: bool): Node
  {
    Elem("label", [Attr("class", Some("radio-option"))], [RadioInput(f, o, first), Text(" " + Interp(o.text))])
  }

  /** The radio group of a radio field, one choice per option record. */
  function RadioGroup(f: FieldData): Node
  {
    Elem("div", [Attr("class", Some("radio-group"))],
      seq(|f.options|, i requires 0 <= i < |f.options| => RadioChoice(f, f.options[i], i == 0)))
  }

  /** The textarea of a textarea field, always empty. */
  function Textarea(f: FieldData): Node
  {
    Elem("textarea",
      [ Attr("id", Some(Interp(f.name))),
        Attr("name", Some(Interp(f.name))),
        Attr("placeholder", Some(PlaceholderText(f.placeholder))) ],
      [])
  }

  /** The template's dispatch on `field.type`; an unknown type renders no widget. */
  function Widget(f: FieldData): seq<Node>
  {
    if IsTextLike(f.kind) then [TextInput(f)]
    else if f.kind == Some("select") then [Select(f)]
    else if f.kind == Some("checkbox") then [Checkbox(f)]
    else if f.kind == Some("radio") then [RadioGroup(f)]
    else if f.kind == Some("textarea") then [Textarea(f)]
    else []
  }

  /** The container of one field: its label, then its widget. */
  function FieldGroup(f: FieldData): Node
  {
    Elem("div", [Attr("class", Some("form-group"))], [LabelFor(f)] + Widget(f))
  }

  /** The template's field loop: one container per field, in field order. */
  function Groups(fields: seq<FieldData>): (r: seq<Node>)
    ensures |r| == |fields|
    ensures forall i :: 0 <= i < |fields| ==> r[i] == FieldGroup(fields[i])
  {
    if fields == [] then [] else [FieldGroup(fields[0])] + Groups(fields[1..])
  }

  /** `<button type="submit">submit_label</button>` */
  function SubmitButton(caption: Option<string>): Node
  {
    Elem("button", [Attr("type", Some("submit"))], [Text(Interp(caption))])
  }

  /** The `<form>` element: the field containers, then the submit button. */
  function FormNode(form: FormData): Node
  {
    Elem("form", [], Groups(form.fields) + [SubmitButton(form.submitLabel)])
  }

  /** `generate_html`: the whole document. */
  function GenerateHtml(form: FormData, st: map<string, string>): string
  {
    Prelude(form, st) + Serialize(FormNode(form)) + Closing
  }

  /** The tags around the form and the submit button. */
  lemma FixedTags()
    ensures OpenTag("form", []) == "<form>" && CloseTag("form") == "</form>"
    ensures OpenTag("button", [Attr("type", Some("submit"))]) == "<button type=\"submit\">"
    ensures CloseTag("button") == "</button>"
  {
    assert AttrsText([Attr("type", Some("submit"))]) == " type=\"submit\"" + AttrsText([]);
  }

  /**
   * The `<form>` element's markup: the field containers in field order, then
   * the submit button.
   */
  lemma FormMarkup(form: FormData)
    ensures Serialize(FormNode(form)) ==
            "<form>" + (SerializeAll(Groups(form.fields)) + Serialize(SubmitButton(form.submitLabel))) + "</form>"
  {
    ContainerMarkup("form", [], Groups(form.fields), SubmitButton(form.submitLabel));
    FixedTags();
  }

  /** The document is the fixed header, then the `<form>` element, then the fixed footer. */
  lemma HtmlLayout(form: FormData, st: map<string, string>)
    ensures GenerateHtml(form, st) ==
            Prelude(form, st) +
            ("<form>" + (SerializeAll(Groups(form.fields)) + Serialize(SubmitButton(form.submitLabel))) + "</form>") +
            Closing
  {
    FormMarkup(form);
  }

  /** The submit button's markup carries the submit label verbatim. */
  lemma SubmitButtonMarkup(caption: Option<string>)
    ensures Serialize(SubmitButton(caption)) == "<button type=\"submit\">" + Interp(caption) + "</button>"
  {
    assert "button" !in VoidTags;
    TextElementMarkup("button", [Attr("type", Some("submit"))], Interp(caption));
    FixedTags();
  }

  /** Adding a field at the end of the record adds its container at the end of the field markup. */
  lemma GroupsInFieldOrder(fields: seq<FieldData>, f: FieldData)
    ensures SerializeAll(Groups(fields + [f])) == SerializeAll(Groups(fields)) + Serialize(FieldGroup(f))
  {
    assert Groups(fields + [f]) == Groups(fields) + [FieldGroup(f)];
    SerializeAllAppend(Groups(fields), [FieldGroup(f)]);
    assert SerializeAll([FieldGroup(f)]) == Serialize(FieldGroup(f)) + SerializeAll([]);
  }

  /**
   * The form holds one `form-group` container per field, in field order,
   * each starting with a label bound to the field's name, and then exactly
   * one submit button carrying the submit label; with no fields it holds
   * only the button.
   */
  lemma FormLayout(form: FormData)
    ensures var kids := FormNode(form).children;
            && |kids| == |form.fields| + 1
            && kids[|form.fields|] == SubmitButton(form.submitLabel)
            && forall i :: 0 <= i < |form.fields| ==>
                 && kids[i].tag == "div"
                 && HasAttrValue(kids[i], "class", Some("form-group"))
                 && kids[i].children[0] == LabelFor(form.fields[i])
                 && HasAttrValue(kids[i].children[0], "for", Some(Interp(form.fields[i].name)))
    ensures form.fields == [] ==> FormNode(form).children == [SubmitButton(form.submitLabel)]
  {
  }

  /** A field renders no widget exactly when its type is not one the template knows. */
  lemma UnknownKindOnlyLabel(f: FieldData)
    ensures Widget(f) == [] <==> !IsKnownKind(f.kind)
    ensures !IsKnownKind(f.kind) ==> FieldGroup(f).children == [LabelFor(f)]
  {
  }

  /**
   * A text, email or password field renders one input whose type is the
   * field type, with `required` exactly when the field is required,
   * `minlength` exactly when the minlength text is non-empty, and a
   * placeholder attribute always, empty when the placeholder is None or "".
   */
  lemma TextInputSpec(f: FieldData)
    requires IsTextLike(f.kind)
    ensures Widget(f) == [TextInput(f)]
    ensures HasAttrValue(TextInput(f), "type", f.kind)
    ensures HasAttrValue(TextInput(f), "name", Some(Interp(f.name)))
    ensures HasAttr(TextInput(f), "required") <==> f.required
    ensures f.required ==> HasAttrValue(TextInput(f), "required", Some("required"))
    ensures HasAttr(TextInput(f), "minlength") <==> Truthy(f.minLength)
    ensures Truthy(f.minLength) ==> HasAttrValue(TextInput(f), "minlength", f.minLength)
    ensures HasAttr(TextInput(f), "placeholder")
    ensures f.placeholder.None? || f.placeholder == Some("") ==> HasAttrValue(TextInput(f), "placeholder", Some(""))
    ensures Truthy(f.placeholder) ==> HasAttrValue(TextInput(f), "placeholder", f.placeholder)
  {
    var n := TextInput(f);
    assert n.attrs[0] == Attr("type", f.kind);
    assert n.attrs[3] == Attr("placeholder", Some(PlaceholderText(f.placeholder)));
    if f.required {
      assert n.attrs[4] == Attr("required", Some("required"));
    }
    if Truthy(f.minLength) {
      assert n.attrs[|n.attrs| - 1] == Attr("minlength", Some(f.minLength.value));
    }
  }

  /**
   * A select field renders one option per option record, in order, each
   * with the option's value and text; no option is ever marked `selected`,
   * because a parsed field record never carries a `selected` entry.
   */
  lemma SelectSpec(f: FieldData)
    requires f.kind == Some("select")
    ensures Widget(f) == [Select(f)]
    ensures HasAttr(Select(f), "required") <==> f.required
    ensures |Select(f).children| == |f.options|
    ensures forall i :: 0 <= i < |f.options| ==>
              && Select(f).children[i].tag == "option"
              && HasAttrValue(Select(f).children[i], "value", Some(Interp(f.options[i].value)))
              && Select(f).children[i].children == [Text(Interp(f.options[i].text))]
              && !HasAttr(Select(f).children[i], "selected")
  {
    if f.required {
      assert Select(f).attrs[2] == Attr("required", Some("required"));
    }
    forall i | 0 <= i < |f.options|
      ensures HasAttrValue(Select(f).children[i], "value", Some(Interp(f.options[i].value)))
    {
      assert Select(f).children[i].attrs[0] == Attr("value", Some(Interp(f.options[i].value)));
    }
  }

  /** A checkbox field renders one checkbox input, `checked` exactly when the field is checked. */
  lemma CheckboxSpec(f: FieldData)
    requires f.kind == Some("checkbox")
    ensures Widget(f) == [Checkbox(f)]
    ensures HasAttrValue(Checkbox(f), "type", Some("checkbox"))
    ensures HasAttr(Checkbox(f), "checked") <==> f.checked
    ensures f.checked ==> HasAttrValue(Checkbox(f), "checked", Some("checked"))
  {
    assert Checkbox(f).attrs[0] == Attr("type", Some("checkbox"));
    if f.checked {
      assert Checkbox(f).attrs[3] == Attr("checked", Some("checked"));
    }
  }

  /**
   * A radio field renders one radio input per option record, in order, all
   * sharing the field's name; exactly the first one is `checked`, and an
   * empty option list renders no input at all.
   */
  lemma RadioSpec(f: FieldData)
    requires f.kind == Some("radio")
    ensures Widget(f) == [RadioGroup(f)]
    ensures |RadioGroup(f).children| == |f.options|
    ensures f.options == [] ==> RadioGroup(f).children == []
    ensures forall i :: 0 <= i < |f.options| ==>
              var input := RadioGroup(f).children[i].children[0];
              && input.tag == "input"
              && HasAttrValue(input, "type", Some("radio"))
              && HasAttrValue(input, "name", Some(Interp(f.name)))
              && HasAttrValue(input, "value", Some(Interp(f.options[i].value)))
              && (HasAttr(input, "checked") <==> i == 0)
  {
    forall i | 0 <= i < |f.options|
      ensures var input := RadioGroup(f).children[i].children[0];
              && HasAttrValue(input, "type", Some("radio"))
              && HasAttrValue(input, "name", Some(Interp(f.name)))
              && HasAttrValue(input, "value", Some(Interp(f.options[i].value)))
              && (HasAttr(input, "checked") <==> i == 0)
    {
      var input := RadioInput(f, f.options[i], i == 0);
      assert input.attrs[0] == Attr("type", Some("radio"));
      assert input.attrs[1] == Attr("name", Some(Interp(f.name)));
      assert input.attrs[2] == Attr("value", Some(Interp(f.options[i].value)));
      if i == 0 {
        assert input.attrs[3] == Attr("checked", Some("checked"));
      }
    }
  }

  /** A textarea field renders an empty textarea with a placeholder attribute and no `required`. */
  lemma TextareaSpec(f: FieldData)
    requires f.kind == Some("textarea")
    ensures Widget(f) == [Textarea(f)]
    ensures Textarea(f).children == []
    ensures HasAttrValue(Textarea(f), "placeholder", Some(PlaceholderText(f.placeholder)))
    ensures !HasAttr(Textarea(f), "required")
  {
    assert Textarea(f).attrs[2] == Attr("placeholder", Some(PlaceholderText(f.placeholder)));
  }

  /** Every styling value the stylesheet uses appears unchanged in the document. */
  lemma StylingValueAppears(form: FormData, st: map<string, string>, key: string)
    requires key in StyleKeys && key in st
    ensures Contains(GenerateHtml(form, st), st[key])
  {
    StylesheetHasValue(st, key);
    PreludeHasStylesheet(form, st);
    HtmlHasPrelude(form, st);
    ContainsTransitive(Prelude(form, st), Stylesheet(st), st[key]);
    ContainsTransitive(GenerateHtml(form, st), Prelude(form, st), st[key]);
  }

  lemma StylesheetHasValue(st: map<string, string>, key: string)
    requires key in StyleKeys && key in st
    ensures Contains(Stylesheet(st), st[key])
  {
    var rules := CssRules(st);
    var r: nat, k: nat;
    if key == "font" { r, k := 0, 1; }
    else if key == "background_color" { r, k := 0, 5; }
    else if key == "text_color" { r, k := 0, 7; }
    else if key == "title_color" { r, k := 1, 1; }
    else if key == "input_background_color" { r, k := 3, 8; }
    else if key == "input_text_color" { r, k := 3, 10; }
    else if key == "button_color" { r, k := 5, 2; }
    else if key == "button_text_color" { r, k := 5, 4; }
    else { r, k := 6, 2; }
    assert rules[r][k] == st[key];
    FlattenGroupsContains(rules, r, k);
  }

  lemma PreludeHasStylesheet(form: FormData, st: map<string, string>)
    ensures Contains(Prelude(form, st), Stylesheet(st))
  {
    FlattenContains(PreludePieces(form, st), 9);
  }

  lemma HtmlHasPrelude(form: FormData, st: map<string, string>)
    ensures Contains(GenerateHtml(form, st), Prelude(form, st))
  {
    var body := Prelude(form, st) + Serialize(FormNode(form));
    ContainsPrefix(Prelude(form, st), Serialize(FormNode(form)));
    ContainsPrefix(body, Closing);
    ContainsTransitive(body + Closing, body, Prelude(form, st));
  }

  /** The title (twice: in the head and the heading) and the description appear in the document as printed. */
  lemma HeadingAppears(form: FormData, st: map<string, string>)
    ensures Contains(GenerateHtml(form, st), Interp(form.title))
    ensures Contains(GenerateHtml(form, st), Interp(form.description))
  {
    HtmlHasPrelude(form, st);
    FlattenContains(PreludePieces(form, st), 7);
    FlattenContains(PreludePieces(form, st), 14);
    ContainsTransitive(GenerateHtml(form, st), Prelude(form, st), Interp(form.title));
    ContainsTransitive(GenerateHtml(form, st), Prelude(form, st), Interp(form.description));
  }

  /** The submit label appears in the document as printed. */
  lemma SubmitLabelAppears(form: FormData, st: map<string, string>)
    ensures Contains(GenerateHtml(form, st), Interp(form.submitLabel))
  {
    var button := Serialize(SubmitButton(form.submitLabel));
    var formText := Serialize(FormNode(form));
    ButtonHasLabel(form.submitLabel);
    FormHasButton(form);
    ContainsMiddle(Prelude(form, st), formText, Closing);
    ContainsTransitive(formText, button, Interp(form.submitLabel));
    ContainsTransitive(GenerateHtml(form, st), formText, Interp(form.submitLabel));
  }

  lemma ButtonHasLabel(caption: Option<string>)
    ensures Contains(Serialize(SubmitButton(caption)), Interp(caption))
  {
    var attrs := [Attr("type", Some("submit"))];
    assert "button" !in VoidTags;
    TextElementMarkup("button", attrs, Interp(caption));
    ContainsMiddle(OpenTag("button", attrs), Interp(caption), CloseTag("button"));
  }

  lemma FormHasButton(form: FormData)
    ensures Contains(Serialize(FormNode(form)), Serialize(SubmitButton(form.submitLabel)))
  {
    var groups := SerializeAll(Groups(form.fields));
    var button := Serialize(SubmitButton(form.submitLabel));
    assert "form" !in VoidTags;
    ContainerMarkup("form", [], Groups(form.fields), SubmitButton(form.submitLabel));
    assert Serialize(FormNode(form)) == OpenTag("form", []) + groups + button + CloseTag("form");
    ContainsMiddle(OpenTag("form", []) + groups, button, CloseTag("form"));
  }
}
