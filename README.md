# XML form description to HTML form: a Dafny model

`xml_html.py` turns an XML description of a form into a standalone HTML page
in two steps:

- `parse_xml` reads the parsed element tree into a form record. The record has
  a title, a description, a submit label and one field record per `field`
  element. Every entry has its own default.
- `generate_html` renders that record and a flat map of styling options
  through one fixed template. The result is a head with an inline stylesheet,
  a heading, a description paragraph, one container per field and a submit
  button.

The model follows the code in these files:

- `wrappers.dfy`: `Option` and `Result`.
- `element_tree.dfy` (module `ElementTree`): the parsed tree and the three
  ElementTree lookups the parser uses.
  - `Find` is `find(tag)`.
  - `FindAll` is `findall(tag)`.
  - `FindPath` is `find("submit/label")`.
  - An element's text is optional. An empty element has no text, and that
    None is carried into the record.
- `form_parser.dfy` (module `FormParser`): `parse_xml`.
  - `FormOf` and `FieldOf` are the specification functions.
  - `ParseXml` and `ParseField` are methods with loops. They append one field
    record per `field` element and one option record per option element, and
    are proved equal to those functions.
- `markup.dfy` (module `Markup`): a small markup tree and its serialiser.
  - Void elements (`input`) have no closing tag.
  - Text is written verbatim.
  - Also text-occurrence lemmas.
- `form_renderer.dfy` (module `FormRenderer`): `generate_html`.
  - One markup fragment per field type, dispatched as the template's
    `if`/`elif` chain does.
  - A `form-group` container per field, the submit button, and the fixed
    header and footer.
- `scenarios.dfy` (module `Scenarios`): concrete documents taken through
  parsing and rendering.

The template engine's observable conventions are written out:

- None prints as `None`.
- `if x` on an optional string is false for None and for "".
- A styling key missing from the map prints as nothing.
- `field.selected` is always undefined, and an undefined value equals no
  option value.
- Nothing is escaped.

Where a reader might expect otherwise, the model follows the code:

- **No escaping.** The template environment is created without autoescape
  (xml_html.py:153). Labels, placeholders, option texts, the title and the
  description are substituted verbatim.
- **Placeholder always present.** Text-like inputs and textareas always carry
  a `placeholder` attribute. It is empty when the placeholder is None or ""
  (xml_html.py:115, 143).
- **Unknown types are kept.** `type` defaults to "text" only when the element
  is absent. Any other text is kept, and an unknown type renders only the
  label.
- **Empty elements give None, not "".** An empty `<title/>` gives a title of
  None, which the template prints as `None`.
- **`minlength` needs a non-empty text.** The attribute is emitted only when
  the minlength text is present and non-empty. A present but empty element
  emits nothing (xml_html.py:117).

## Model

| member | source | states |
|---|---|---|
| ElementTree.Find | xml_html.py:10-13 | `find(tag)` is None exactly when no direct child has the tag; otherwise it is the first child with that tag |
| ElementTree.FindIsHeadOfFindAll | xml_html.py:16 | `find(tag)` is the head of `findall(tag)`, and None exactly when `findall(tag)` is empty |
| ElementTree.FilterAppend | xml_html.py:16 | `findall` over a concatenation is the concatenation of the parts' results: nothing is dropped, merged or moved |
| ElementTree.FirstChildAmong | xml_html.py:13 | `find("submit/label")` is None exactly when no `submit` child has a `label` child; otherwise it is the `label` of the first `submit` that has one |
| FormParser.ParseXml | xml_html.py:5-39 | a malformed document fails with the parser's message and yields no record; a parsed one yields exactly the form record of its root |
| FormParser.ParseField | xml_html.py:17-35 | the record built for one `field` element, options appended one by one, is the field's record |
| FormParser.ChildTextSpec | xml_html.py:10-23 | an entry takes its default exactly when its element is absent; otherwise it is the first such element's text, None included |
| FormParser.ChildFlagSpec | xml_html.py:21 | a flag is true iff its first element exists and its text is exactly "true" |
| FormParser.FormHeadingDefaults | xml_html.py:10-13 | title, description and submit label are "Untitled Form", "" and "Submit" when their element is absent, and that element's text verbatim (None included) otherwise |
| FormParser.SubmitLabelDefault | xml_html.py:13 | with no `submit` child that holds a `label`, the submit label is "Submit" |
| FormParser.FieldsFollowDocument | xml_html.py:16-37 | appending a child to the root appends exactly its field record if it is a `field` and nothing otherwise: the fields keep document order, with none dropped or merged |
| FormParser.FieldsOfAppend | xml_html.py:16-37 | the records of a concatenation of field elements are the concatenated records |
| FormParser.FieldsAreFieldChildren | xml_html.py:16-37 | one record per `field` child, record i built from the i-th `field` child; no `field` child gives no records |
| FormParser.KindSpec | xml_html.py:18 | the type is "text" when the `type` element is absent, and otherwise its text verbatim, unknown values included |
| FormParser.FlagsSpec | xml_html.py:21-24 | `required` and `checked` are true iff the element is present with text exactly "true" |
| FormParser.OptionsSpec | xml_html.py:25-35 | options are non-empty only for select and radio fields that have an `options` child; then there is one option per child of it, in order, whatever its tag, with the `value` attribute (None when missing) and the text |
| Markup.SerializeAllAppend | xml_html.py:108-146 | the markup of a concatenation of nodes is the concatenated markup |
| Markup.ContainerMarkup | xml_html.py:107-148 | a container's markup is its opening tag, its other children's markup, its last child's markup and its closing tag |
| Markup.TextElementMarkup | xml_html.py:147 | an element holding one run of text writes that text verbatim between its tags |
| FormRenderer.Groups | xml_html.py:108-146 | one container per field, container i built from field i |
| FormRenderer.FormLayout | xml_html.py:107-148 | the form holds one `form-group` container per field, in field order, each starting with a label bound to the field's name, then exactly one submit button with the submit label; with no fields it holds only the button |
| FormRenderer.GroupsInFieldOrder | xml_html.py:108-146 | adding a field at the end adds its container's markup at the end of the field markup |
| FormRenderer.FixedTags | xml_html.py:106-148 | the fixed tags around the form and the submit button |
| FormRenderer.FormMarkup | xml_html.py:106-148 | the form's markup is `<form>`, the field containers' markup, the submit button's markup, `</form>` |
| FormRenderer.HtmlLayout | xml_html.py:43-150 | the document is the fixed header, then the form's markup, then the fixed footer |
| FormRenderer.SubmitButtonMarkup | xml_html.py:147 | the submit button is `<button type="submit">`, the submit label as printed, `</button>` |
| FormRenderer.UnknownKindOnlyLabel | xml_html.py:111-144 | a field renders no widget exactly when its type is not one the template knows; its container then holds only the label |
| FormRenderer.TextInputSpec | xml_html.py:111-117 | a text, email or password field renders one input of the field's type with `required="required"` iff required and `minlength` iff the minlength text is non-empty; the placeholder attribute is always there, empty when the placeholder is None or "" |
| FormRenderer.SelectSpec | xml_html.py:118-123 | a select renders one option per option record, in order, with its value and text; `required` iff required; no option is ever `selected` |
| FormRenderer.CheckboxSpec | xml_html.py:124-128 | a checkbox input carries `checked="checked"` iff the field is checked |
| FormRenderer.RadioSpec | xml_html.py:129-139 | one radio input per option, in order, sharing the field's name and carrying the option's value; exactly the first is checked; no options give no inputs |
| FormRenderer.TextareaSpec | xml_html.py:140-143 | a textarea is empty, has the placeholder attribute (empty when there is none) and never `required` |
| FormRenderer.StylingValueAppears | xml_html.py:50-101 | every styling value the stylesheet uses appears unchanged in the document |
| FormRenderer.StylesheetHasValue | xml_html.py:50-101 | every styling value the stylesheet uses appears unchanged in the stylesheet |
| FormRenderer.PreludeHasStylesheet | xml_html.py:49-102 | the stylesheet appears in the document head |
| FormRenderer.HtmlHasPrelude | xml_html.py:43-106 | the header appears in the document |
| FormRenderer.HeadingAppears | xml_html.py:49-105 | the title and the description appear verbatim in the document as the template prints them |
| FormRenderer.SubmitLabelAppears | xml_html.py:147 | the submit label appears verbatim in the document as the template prints it |
| FormRenderer.ButtonHasLabel | xml_html.py:147 | the submit button's markup holds the submit label |
| FormRenderer.FormHasButton | xml_html.py:106-148 | the form's markup holds the submit button's markup |
| Scenarios.EmailFieldParses | xml_html.py:17-26 | an email field with name, label, `required` and a placeholder parses to the matching record, with no minlength, unchecked, no options |
| Scenarios.EmailFormParses | xml_html.py:16-37 | a form holding only that field has exactly that one record |
| Scenarios.EmailFormDefaults | xml_html.py:10-13 | that form takes the default title and submit label |
| Scenarios.EmailFieldRenders | xml_html.py:111-117 | that record renders as a required email input with the placeholder and no minlength |
| Scenarios.EmptyTitleScenario | xml_html.py:10 | an empty `<title/>` gives a None title, printed as "None" |
| Scenarios.RadioScenario | xml_html.py:28-139 | a radio field with two options parses both in order and checks only the first |

## Left out

- `main` (xml_html.py:164-214) is not part of this model. It is the Streamlit page: sidebar widgets, file upload, preview and download. It is presentation and I/O only.
- Tokenising the XML text (`ET.fromstring`, xml_html.py:7) is a library call. The model takes a `Document` that is either a parsed root or a parse error message. Its exception becomes a `Failure`.
- The Jinja2 engine (xml_html.py:153-161) is not modelled. Only the observable output of the one template is: the printing of None, truthiness, missing styling keys, and an undefined `field.selected`.
- The template's whitespace is not reproduced. That covers its indentation, the line breaks inside tags, and the blank output of `{% %}` blocks. The markup is serialised from a tree with single spaces between attributes. Element nesting, attribute order and values, and text are kept.
- The stylesheet's meaning is not modelled. Its fixed text is kept, cut into short pieces with its whitespace normalised, and the nine styling values are spliced in verbatim.
- Attribute values come from `.get('value')` (xml_html.py:33). The model reads them from a `map`, so duplicate attributes and namespaces are not represented.
