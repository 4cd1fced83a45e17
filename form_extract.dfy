/// The form-state extractor: walks the elements of a parsed note page in
/// document order and records the current value of every form field whose
/// id carries the `FD_` prefix. Parsing the page itself is not modelled:
/// the extractor receives the elements the parser found.
module FormExtract {
  import opened Wrappers
  import opened PyStrings
  import opened Dicts
  import opened HtmlText
  import TemplateMerge

  type FormState = TemplateMerge.FormState

  /** One element of the parsed page: its `id` attribute, tag name, `type`
      and `value` attributes, whether it carries a `checked` attribute, and
      its text (entities already decoded by the parser). */
  datatype Element = Element(
    id: Option<string>,
    name: string,
    typeAttr: Option<string>,
    value: Option<string>,
    checked: bool,
    text: string)

  /** `x and x.startswith('FD_')` on the element's id. */
  predicate IsFieldId(id: Option<string>) {
    id.Some? && StartsWith(id.value, "FD_")
  }

  predicate IsToggleValue(v: string) {
    v == "true" || v == "false"
  }

  /** How an element contributes, by tag name and `type`. */
  datatype Kind = TextArea | TextInput | Toggle | Ignored

  function KindOf(e: Element): Kind {
    var tag := AsciiLower(e.name);
    if tag == "textarea" then TextArea
    else if tag == "input" then
      var inputType := AsciiLower(e.typeAttr.GetOr(""));
      if inputType == "text" then TextInput
      else if inputType == "checkbox" || inputType == "radio" then Toggle
      else Ignored
    else Ignored
  }

  /** Whether element `e` may write form field `k`. */
  predicate WritesField(e: Element, k: string) {
    IsFieldId(e.id) && e.id.value == k && KindOf(e) != Ignored
  }

  /** What one element does to the form state. */
  function ExtractElement(d: FormState, e: Element): (r: FormState)
    requires d.Valid()
    ensures r.Valid()
    ensures forall k :: k in r.vals <==> k in d.vals || WritesField(e, k)
    ensures forall k :: k in d.vals && !WritesField(e, k) ==> r.vals[k] == d.vals[k]
    ensures |r.keys| <= |d.keys| + 1
  {
    if !IsFieldId(e.id) then d
    else
      var id := e.id.value;
      match KindOf(e)
      case TextArea => d.Put(id, RemoveHtmlTags(Some(e.text)))
      case TextInput =>
        if id in d.vals && IsToggleValue(d.vals[id]) then d
        else d.Put(id, e.value.GetOr(""))
      case Toggle => d.Put(id, if e.checked then "true" else "false")
      case Ignored => d
  }

  /** The form state after the given elements, starting from `{}`: every
      key carries the `FD_` prefix, and there are at most as many fields as
      elements. */
  function ExtractAll(elements: seq<Element>): (r: FormState)
    ensures r.Valid()
    ensures forall k :: k in r.vals ==> StartsWith(k, "FD_")
    ensures |r.keys| <= |elements|
  {
    if elements == [] then Empty()
    else ExtractElement(ExtractAll(elements[..|elements| - 1]), elements[|elements| - 1])
  }

  /** `_extract_form_data_bs` over the parsed elements. */
  method ExtractFormData(elements: seq<Element>) returns (formData: FormState)
    ensures formData == ExtractAll(elements)
  {
    formData := Empty();
    var i := 0;
    while i < |elements|
      invariant 0 <= i <= |elements|
      invariant formData == ExtractAll(elements[..i])
    {
      formData := ExtractInto(formData, elements[i]);
      assert elements[..i + 1][..i] == elements[..i];
      i := i + 1;
    }
    assert elements[..i] == elements;
  }

  /** One iteration of the extractor loop: record the element's value
      under its id, by tag name and input type. */
  method ExtractInto(d: FormState, element: Element) returns (formData: FormState)
    requires d.Valid()
    ensures formData == ExtractElement(d, element)
  {
    formData := d;
    if IsFieldId(element.id) {
      var elementId := element.id.value;
      var tagName := AsciiLower(element.name);
      if tagName == "textarea" {
        formData := formData.Put(elementId, RemoveHtmlTags(Some(element.text)));
      } else if tagName == "input" {
        var inputType := AsciiLower(element.typeAttr.GetOr(""));
        if inputType == "text" {
          if !(elementId in formData.vals && IsToggleValue(formData.vals[elementId])) {
            formData := formData.Put(elementId, element.value.GetOr(""));
          }
        } else if inputType == "checkbox" || inputType == "radio" {
          formData := formData.Put(elementId, if element.checked then "true" else "false");
        }
      }
    }
  }

  // ---------------------------------------------------------------------
  // Properties of the extractor

  /** The extracted keys are exactly the `FD_` ids of the textareas and of
      the text, checkbox and radio inputs; in particular every key starts
      with `FD_`. */
  lemma {:induction false} ExtractedKeys(elements: seq<Element>, k: string)
    ensures k in ExtractAll(elements).vals <==> exists i :: 0 <= i < |elements| && WritesField(elements[i], k)
    ensures k in ExtractAll(elements).vals ==> StartsWith(k, "FD_")
  {
    if elements != [] {
      var init := elements[..|elements| - 1];
      ExtractedKeys(init, k);
      if k in ExtractAll(elements).vals && !WritesField(elements[|elements| - 1], k) {
        var i :| 0 <= i < |init| && WritesField(init[i], k);
        assert elements[i] == init[i];
      }
      if exists i :: 0 <= i < |elements| && WritesField(elements[i], k) {
        var i :| 0 <= i < |elements| && WritesField(elements[i], k);
        if i < |init| {
          assert init[i] == elements[i];
        }
      }
    }
  }

  /** Elements from index `p` on that do not write `k` leave it as it was. */
  lemma {:induction false} ExtractFrame(elements: seq<Element>, p: nat, k: string)
    requires p <= |elements| && k in ExtractAll(elements[..p]).vals
    requires forall j :: p <= j < |elements| ==> !WritesField(elements[j], k)
    ensures k in ExtractAll(elements).vals
    ensures ExtractAll(elements).vals[k] == ExtractAll(elements[..p]).vals[k]
  {
    if |elements| == p {
      assert elements[..p] == elements;
    } else {
      var init := elements[..|elements| - 1];
      assert init[..p] == elements[..p];
      ExtractFrame(init, p, k);
    }
  }

  /** A checkbox or radio records exactly "true" or "false", by the presence
      of `checked`; later text inputs with the same id do not overwrite it. */
  lemma {:induction false} ToggleSurvivesTextInputs(elements: seq<Element>, i: nat)
    requires i < |elements| && IsFieldId(elements[i].id) && KindOf(elements[i]) == Toggle
    requires forall j :: i < j < |elements| && WritesField(elements[j], elements[i].id.value) ==> KindOf(elements[j]) == TextInput
    ensures elements[i].id.value in ExtractAll(elements).vals
    ensures ExtractAll(elements).vals[elements[i].id.value] == if elements[i].checked then "true" else "false"
  {
    var k := elements[i].id.value;
    if |elements| == i + 1 {
      assert elements[..i] == elements[..|elements| - 1];
    } else {
      var init := elements[..|elements| - 1];
      assert init[i] == elements[i];
      forall j | i < j < |init| && WritesField(init[j], k)
        ensures KindOf(init[j]) == TextInput
      {
        assert init[j] == elements[j];
      }
      ToggleSurvivesTextInputs(init, i);
      var last := elements[|elements| - 1];
      if WritesField(last, k) {
        TextInputKeepsToggle(ExtractAll(init), last);
      }
    }
  }

  /** A textarea always overwrites: when no later element writes its id, the
      field holds the textarea's cleaned text. */
  lemma TextareaDecides(elements: seq<Element>, i: nat)
    requires i < |elements| && IsFieldId(elements[i].id) && KindOf(elements[i]) == TextArea
    requires forall j :: i < j < |elements| ==> !WritesField(elements[j], elements[i].id.value)
    ensures elements[i].id.value in ExtractAll(elements).vals
    ensures ExtractAll(elements).vals[elements[i].id.value] == RemoveHtmlTags(Some(elements[i].text))
  {
    var upTo := elements[..i + 1];
    assert upTo[..i] == elements[..i] && upTo[i] == elements[i];
    ExtractFrame(elements, i + 1, elements[i].id.value);
  }

  /** A text input never replaces a recorded "true" or "false". */
  lemma TextInputKeepsToggle(d: FormState, e: Element)
    requires d.Valid() && IsFieldId(e.id) && KindOf(e) == TextInput
    requires e.id.value in d.vals && IsToggleValue(d.vals[e.id.value])
    ensures ExtractElement(d, e) == d
  {
  }

  /** Otherwise a text input records its `value` attribute, or "" when it
      has none. */
  lemma TextInputWrites(d: FormState, e: Element)
    requires d.Valid() && IsFieldId(e.id) && KindOf(e) == TextInput
    requires !(e.id.value in d.vals && IsToggleValue(d.vals[e.id.value]))
    ensures e.id.value in ExtractElement(d, e).vals
    ensures ExtractElement(d, e).vals[e.id.value] == e.value.GetOr("")
  {
  }

  /** A text input whose id holds no "true" or "false" when it is reached,
      and whose id no later element writes, decides the field's value. */
  lemma TextInputDecides(elements: seq<Element>, i: nat)
    requires i < |elements| && IsFieldId(elements[i].id) && KindOf(elements[i]) == TextInput
    requires var before := ExtractAll(elements[..i]);
      !(elements[i].id.value in before.vals && IsToggleValue(before.vals[elements[i].id.value]))
    requires forall j :: i < j < |elements| ==> !WritesField(elements[j], elements[i].id.value)
    ensures elements[i].id.value in ExtractAll(elements).vals
    ensures ExtractAll(elements).vals[elements[i].id.value] == elements[i].value.GetOr("")
  {
    var before := ExtractAll(elements[..i]);
    var upTo := elements[..i + 1];
    assert upTo[..i] == elements[..i] && upTo[i] == elements[i];
    assert ExtractAll(upTo) == ExtractElement(before, elements[i]);
    TextInputWrites(before, elements[i]);
    ExtractFrame(elements, i + 1, elements[i].id.value);
  }

  /** Elements of other tags and other input types contribute nothing. */
  lemma IgnoredElementsContributeNothing(d: FormState, e: Element)
    requires d.Valid() && (!IsFieldId(e.id) || KindOf(e) == Ignored)
    ensures ExtractElement(d, e) == d
  {
  }
}
