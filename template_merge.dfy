/// The template merge engine: overlays a caller's note template onto the
/// form state scraped from a note page, using the three static mapping
/// tables of a note type (free text, radio groups, checkboxes).
module TemplateMerge {
  import opened Wrappers
  import opened Dicts

  /** A value of `template_model.model_dump()`. */
  datatype Value =
    | Null                                          // None
    | Bool(b: bool)
    | Str(s: string)
    | Content(text: Option<string>, append: bool)   // a dumped FieldContent
    | Other(truthy: bool)                           // numbers, lists, other dicts

  /** Python truthiness of a dumped value. */
  predicate Truthy(v: Value) {
    match v
    case Null => false
    case Bool(b) => b
    case Str(s) => s != ""
    case Content(_, _) => true   // a non-empty dict
    case Other(t) => t
  }

  /** A key of a radio group's `options` dict: a label, or `True`/`False`. */
  datatype OptionKey = KeyStr(s: string) | KeyBool(b: bool)

  /** The option key a selected value is compared with by `in`. */
  function KeyOf(v: Value): (r: Option<OptionKey>)
    ensures r.Some? <==> v.Bool? || v.Str?
    ensures r.Some? ==> (r.value.KeyBool? <==> v.Bool?)
  {
    match v
    case Bool(b) => Some(KeyBool(b))
    case Str(s) => Some(KeyStr(s))
    case _ => None
  }

  /** One entry of a radio-buttons table: `field_name: {"options": {...}}`. */
  datatype RadioGroup = RadioGroup(field: string, options: map<OptionKey, string>)

  /** The three tables of one note type. Radio groups and checkboxes are
      walked in table order, so they are sequences; the text table is only
      looked up. */
  datatype Mappings = Mappings(
    textfields: map<string, string>,
    radios: seq<RadioGroup>,
    checkboxes: seq<(string, string)>)

  /** Form state: field id to current value. */
  type FormState = Dict<string>

  /** The dumped caller template: semantic field name to value. */
  type Template = Dict<Value>

  /** `model_dict.get(name)` */
  function Lookup(template: Template, name: string): Value {
    template.Get(name, Null)
  }

  predicate IsRadioField(m: Mappings, field: string) {
    exists g :: g in m.radios && g.field == field
  }

  // ---------------------------------------------------------------------
  // Free text (lines 1026-1046)

  /** Whether template field `field` holding `v` makes the text merge write
      form field `k` (provided `k` is present). */
  predicate WritesText(m: Mappings, field: string, v: Value, k: string) {
    && field != "patient_id"
    && !IsRadioField(m, field)
    && v.Content? && v.text.Some? && v.text.value != ""
    && field in m.textfields && m.textfields[field] == k
  }

  /** The text merge of one template field. */
  function MergeTextField(m: Mappings, field: string, v: Value, d: FormState): (r: FormState)
    requires d.Valid()
    ensures r.Valid() && r.keys == d.keys && r.vals.Keys == d.vals.Keys
    ensures forall k :: k in d.vals && !WritesText(m, field, v, k) ==> r.vals[k] == d.vals[k]
  {
    if field == "patient_id" || IsRadioField(m, field) then d
    else if !v.Content? || v.text.None? || v.text.value == "" then d
    else if field !in m.textfields || m.textfields[field] !in d.vals then d
    else
      var id := m.textfields[field];
      if v.append && d.vals[id] != "" then d.Put(id, d.vals[id] + "\n" + v.text.value)
      else d.Put(id, v.text.value)
  }

  /** The text merge of the template fields in order. */
  function MergeTextFields(m: Mappings, fields: seq<(string, Value)>, d: FormState): (r: FormState)
    requires d.Valid()
    ensures r.Valid() && r.keys == d.keys && r.vals.Keys == d.vals.Keys
  {
    if fields == [] then d
    else
      var last := fields[|fields| - 1];
      MergeTextField(m, last.0, last.1, MergeTextFields(m, fields[..|fields| - 1], d))
  }

  // ---------------------------------------------------------------------
  // Radio groups (lines 1049-1070)

  /** The selection for `g` is truthy and is one of the group's option keys. */
  predicate RadioActive(template: Template, g: RadioGroup) {
    var sel := Lookup(template, g.field);
    Truthy(sel) && KeyOf(sel).Some? && KeyOf(sel).value in g.options
  }

  /** The field id of the selected option of an active group. */
  function SelectedId(template: Template, g: RadioGroup): string
    requires RadioActive(template, g)
  {
    g.options[KeyOf(Lookup(template, g.field)).value]
  }

  /** Every present field among `ids` set to the empty string. */
  function ClearOptions(d: FormState, ids: set<string>): (r: FormState)
    requires d.Valid()
    ensures r.Valid() && r.keys == d.keys && r.vals.Keys == d.vals.Keys
    ensures forall k :: k in d.vals ==> r.vals[k] == if k in ids then "" else d.vals[k]
  {
    Dict(d.keys, map k | k in d.vals :: if k in ids then "" else d.vals[k])
  }

  /** The radio merge of one group: clear the whole group, then select. */
  function MergeRadioGroup(template: Template, g: RadioGroup, d: FormState): (r: FormState)
    requires d.Valid()
    ensures r.Valid() && r.keys == d.keys && r.vals.Keys == d.vals.Keys
    ensures forall k :: k in d.vals && !(RadioActive(template, g) && k in g.options.Values) ==> r.vals[k] == d.vals[k]
  {
    if !RadioActive(template, g) then d
    else
      var cleared := ClearOptions(d, g.options.Values);
      var id := SelectedId(template, g);
      if id in cleared.vals then cleared.Put(id, "true") else cleared
  }

  /** The radio merge of the groups in table order. */
  function MergeRadios(template: Template, groups: seq<RadioGroup>, d: FormState): (r: FormState)
    requires d.Valid()
    ensures r.Valid() && r.keys == d.keys && r.vals.Keys == d.vals.Keys
  {
    if groups == [] then d
    else MergeRadioGroup(template, groups[|groups| - 1], MergeRadios(template, groups[..|groups| - 1], d))
  }

  // ---------------------------------------------------------------------
  // Checkboxes (lines 1072-1082)

  /** Whether checkbox entry `e` writes form field `k` (provided it is present). */
  predicate WritesCheckbox(template: Template, e: (string, string), k: string) {
    e.1 == k && !Lookup(template, e.0).Null?
  }

  function MergeCheckbox(template: Template, e: (string, string), d: FormState): (r: FormState)
    requires d.Valid()
    ensures r.Valid() && r.keys == d.keys && r.vals.Keys == d.vals.Keys
    ensures forall k :: k in d.vals && !WritesCheckbox(template, e, k) ==> r.vals[k] == d.vals[k]
  {
    var v := Lookup(template, e.0);
    if !v.Null? && e.1 in d.vals then d.Put(e.1, if Truthy(v) then "true" else "false")
    else d
  }

  function MergeCheckboxes(template: Template, entries: seq<(string, string)>, d: FormState): (r: FormState)
    requires d.Valid()
    ensures r.Valid() && r.keys == d.keys && r.vals.Keys == d.vals.Keys
  {
    if entries == [] then d
    else MergeCheckbox(template, entries[|entries| - 1], MergeCheckboxes(template, entries[..|entries| - 1], d))
  }

  // ---------------------------------------------------------------------
  // The whole merge

  /** `_apply_template_to_dict`: text, then radio groups, then checkboxes.
      The result has exactly the keys of the scraped form, in the same order. */
  function Merge(m: Mappings, template: Template, target: FormState): (r: FormState)
    requires template.Valid() && target.Valid()
    ensures r.Valid() && r.keys == target.keys && r.vals.Keys == target.vals.Keys
  {
    MergeCheckboxes(template, m.checkboxes,
      MergeRadios(template, m.radios,
        MergeTextFields(m, template.Items(), target)))
  }

  /** `_apply_template_to_dict`, step by step as the source runs it: a copy
      of the scraped form, then the three passes over it. */
  method ApplyTemplate(template: Template, target: FormState, m: Mappings) returns (result: FormState)
    requires template.Valid() && target.Valid()
    ensures result == Merge(m, template, target)
    ensures result.keys == target.keys && result.vals.Keys == target.vals.Keys
  {
    result := target;
    result := ApplyTextFields(template, result, m);
    result := ApplyRadioGroups(template, result, m.radios);
    result := ApplyCheckboxes(template, result, m.checkboxes);
  }

  /** The free-text pass (lines 1026-1046). */
  method ApplyTextFields(template: Template, d: FormState, m: Mappings) returns (result: FormState)
    requires template.Valid() && d.Valid()
    ensures result == MergeTextFields(m, template.Items(), d)
  {
    result := d;
    var fields := template.Items();
    var i := 0;
    while i < |fields|
      invariant 0 <= i <= |fields|
      invariant result == MergeTextFields(m, fields[..i], d)
    {
      result := ApplyTextField(m, fields[i].0, fields[i].1, result);
      TextFoldStep(m, fields, i, d);
      i := i + 1;
    }
    assert fields[..i] == fields;
  }

  /** One iteration of the free-text pass: append to or replace the mapped
      field's text. */
  method ApplyTextField(m: Mappings, field: string, content: Value, d: FormState) returns (result: FormState)
    requires d.Valid()
    ensures result == MergeTextField(m, field, content, d)
  {
    result := d;
    if field == "patient_id" || IsRadioField(m, field) {
      // the patient id and the radio fields are not text
    } else if content.Content? && content.text.Some? && content.text.value != "" {
      if field in m.textfields {
        var id := m.textfields[field];
        if id in result.vals {
          if content.append && result.vals[id] != "" {
            result := result.Put(id, result.vals[id] + "\n" + content.text.value);
          } else {
            result := result.Put(id, content.text.value);
          }
        }
      }
    }
  }

  /** The radio pass (lines 1049-1070). */
  method ApplyRadioGroups(template: Template, d: FormState, groups: seq<RadioGroup>) returns (result: FormState)
    requires d.Valid()
    ensures result == MergeRadios(template, groups, d)
  {
    result := d;
    var g := 0;
    while g < |groups|
      invariant 0 <= g <= |groups|
      invariant result == MergeRadios(template, groups[..g], d)
    {
      result := ApplyRadioGroup(template, groups[g], result);
      RadioFoldStep(template, groups, g, d);
      g := g + 1;
    }
    assert groups[..g] == groups;
  }

  /** One iteration of the radio pass: a recognised selection clears the
      group and then selects its option. */
  method ApplyRadioGroup(template: Template, group: RadioGroup, d: FormState) returns (result: FormState)
    requires d.Valid()
    ensures result == MergeRadioGroup(template, group, d)
  {
    result := d;
    var selected := Lookup(template, group.field);
    if Truthy(selected) {
      var key := KeyOf(selected);
      if key.Some? && key.value in group.options {
        result := ClearGroup(result, group.options.Values);
        var selectedId := group.options[key.value];
        if selectedId in result.vals {
          result := result.Put(selectedId, "true");
        }
      }
    }
  }

  /** The inner loop of the radio pass: every option id that is present is
      set to the empty string. */
  method ClearGroup(d: FormState, ids: set<string>) returns (result: FormState)
    requires d.Valid()
    ensures result == ClearOptions(d, ids)
  {
    result := d;
    var pending := ids;
    while pending != {}
      invariant pending <= ids
      invariant result == ClearOptions(d, ids - pending)
      decreases pending
    {
      var id :| id in pending;
      ClearOneMore(d, ids, pending, id);
      if id in result.vals {
        result := result.Put(id, "");
      }
      pending := pending - {id};
    }
    assert ids - pending == ids;
  }

  /** Clearing one more id is one more assignment of the empty string. */
  lemma ClearOneMore(d: FormState, ids: set<string>, pending: set<string>, id: string)
    requires d.Valid() && id in pending && pending <= ids
    ensures id in d.vals ==> ClearOptions(d, ids - pending).Put(id, "") == ClearOptions(d, ids - (pending - {id}))
    ensures id !in d.vals ==> ClearOptions(d, ids - pending) == ClearOptions(d, ids - (pending - {id}))
  {
    var done := ids - pending;
    assert ids - (pending - {id}) == done + {id};
    var a, b := ClearOptions(d, done), ClearOptions(d, done + {id});
    if id in d.vals {
      ClearedValsAgree(d, done, id, a.Put(id, "").vals, b.vals);
    } else {
      ClearedValsAgree(d, done, id, a.vals, b.vals);
    }
  }

  /** Two maps over the form's keys that agree with clearing `done + {id}`
      key by key are equal. */
  lemma ClearedValsAgree(d: FormState, done: set<string>, id: string, x: map<string, string>, y: map<string, string>)
    requires x.Keys == d.vals.Keys && y.Keys == d.vals.Keys
    requires forall k :: k in d.vals ==> x[k] == if k in done || k == id then "" else d.vals[k]
    requires forall k :: k in d.vals ==> y[k] == if k in done + {id} then "" else d.vals[k]
    ensures x == y
  {
    assert forall k :: k in x ==> x[k] == y[k];
  }

  /** The checkbox pass (lines 1072-1082). */
  method ApplyCheckboxes(template: Template, d: FormState, entries: seq<(string, string)>) returns (result: FormState)
    requires d.Valid()
    ensures result == MergeCheckboxes(template, entries, d)
  {
    result := d;
    var c := 0;
    while c < |entries|
      invariant 0 <= c <= |entries|
      invariant result == MergeCheckboxes(template, entries[..c], d)
    {
      result := ApplyCheckbox(template, entries[c], result);
      CheckboxFoldStep(template, entries, c, d);
      c := c + 1;
    }
    assert entries[..c] == entries;
  }

  /** One iteration of the checkbox pass: an explicit value is written as
      "true" or "false". */
  method ApplyCheckbox(template: Template, entry: (string, string), d: FormState) returns (result: FormState)
    requires d.Valid()
    ensures result == MergeCheckbox(template, entry, d)
  {
    result := d;
    var field, id := entry.0, entry.1;
    var value := Lookup(template, field);
    if !value.Null? && id in result.vals {
      if Truthy(value) {
        result := result.Put(id, "true");
      } else {
        result := result.Put(id, "false");
      }
    }
  }

  /** The text fold over one more field is one more text merge. */
  lemma TextFoldStep(m: Mappings, fields: seq<(string, Value)>, i: nat, d: FormState)
    requires d.Valid() && i < |fields|
    ensures MergeTextFields(m, fields[..i + 1], d) == MergeTextField(m, fields[i].0, fields[i].1, MergeTextFields(m, fields[..i], d))
  {
    assert fields[..i + 1][..i] == fields[..i];
  }

  /** The radio fold over one more group is one more group merge. */
  lemma RadioFoldStep(template: Template, groups: seq<RadioGroup>, i: nat, d: FormState)
    requires d.Valid() && i < |groups|
    ensures MergeRadios(template, groups[..i + 1], d) == MergeRadioGroup(template, groups[i], MergeRadios(template, groups[..i], d))
  {
    assert groups[..i + 1][..i] == groups[..i];
  }

  /** The checkbox fold over one more entry is one more checkbox merge. */
  lemma CheckboxFoldStep(template: Template, entries: seq<(string, string)>, i: nat, d: FormState)
    requires d.Valid() && i < |entries|
    ensures MergeCheckboxes(template, entries[..i + 1], d) == MergeCheckbox(template, entries[i], MergeCheckboxes(template, entries[..i], d))
  {
    assert entries[..i + 1][..i] == entries[..i];
  }

  // ---------------------------------------------------------------------
  // Properties of the merge

  /** Text-merge steps from index `p` on that do not write `k` leave it as it was. */
  lemma {:induction false} TextFoldFrame(m: Mappings, fields: seq<(string, Value)>, d: FormState, p: nat, k: string)
    requires d.Valid() && p <= |fields| && k in d.vals
    requires forall i :: p <= i < |fields| ==> !WritesText(m, fields[i].0, fields[i].1, k)
    ensures MergeTextFields(m, fields, d).vals[k] == MergeTextFields(m, fields[..p], d).vals[k]
  {
    if |fields| == p {
      assert fields[..p] == fields;
    } else {
      var init := fields[..|fields| - 1];
      assert init[..p] == fields[..p];
      TextFoldFrame(m, init, d, p, k);
    }
  }

  /** Radio groups from index `p` on that do not write `k` leave it as it was. */
  lemma {:induction false} RadioFoldFrame(template: Template, groups: seq<RadioGroup>, d: FormState, p: nat, k: string)
    requires d.Valid() && p <= |groups| && k in d.vals
    requires forall i :: p <= i < |groups| && RadioActive(template, groups[i]) ==> k !in groups[i].options.Values
    ensures MergeRadios(template, groups, d).vals[k] == MergeRadios(template, groups[..p], d).vals[k]
  {
    if |groups| == p {
      assert groups[..p] == groups;
    } else {
      var init := groups[..|groups| - 1];
      assert init[..p] == groups[..p];
      RadioFoldFrame(template, init, d, p, k);
    }
  }

  /** Checkbox entries from index `p` on that do not write `k` leave it as it was. */
  lemma {:induction false} CheckboxFoldFrame(template: Template, entries: seq<(string, string)>, d: FormState, p: nat, k: string)
    requires d.Valid() && p <= |entries| && k in d.vals
    requires forall i :: p <= i < |entries| ==> !WritesCheckbox(template, entries[i], k)
    ensures MergeCheckboxes(template, entries, d).vals[k] == MergeCheckboxes(template, entries[..p], d).vals[k]
  {
    if |entries| == p {
      assert entries[..p] == entries;
    } else {
      var init := entries[..|entries| - 1];
      assert init[..p] == entries[..p];
      CheckboxFoldFrame(template, init, d, p, k);
    }
  }

  /** A form field that no part of the template writes keeps its scraped
      value: no text content aimed at it, no recognised radio selection
      whose group contains it, no non-null checkbox value aimed at it. */
  lemma MergeFrame(m: Mappings, template: Template, target: FormState, k: string)
    requires template.Valid() && target.Valid() && k in target.vals
    requires forall f :: f in template.vals ==> !WritesText(m, f, template.vals[f], k)
    requires forall g :: g in m.radios && RadioActive(template, g) ==> k !in g.options.Values
    requires forall e :: e in m.checkboxes && e.1 == k ==> Lookup(template, e.0).Null?
    ensures Merge(m, template, target).vals[k] == target.vals[k]
  {
    var afterText := MergeTextFields(m, template.Items(), target);
    TextPassFrame(m, template, target, k);
    var afterRadios := MergeRadios(template, m.radios, afterText);
    RadioPassFrame(template, m.radios, afterText, k);
    CheckboxPassFrame(template, m.checkboxes, afterRadios, k);
  }

  /** The text pass leaves alone a field that no template field aims text at. */
  lemma TextPassFrame(m: Mappings, template: Template, d: FormState, k: string)
    requires template.Valid() && d.Valid() && k in d.vals
    requires forall f :: f in template.vals ==> !WritesText(m, f, template.vals[f], k)
    ensures MergeTextFields(m, template.Items(), d).vals[k] == d.vals[k]
  {
    var items := template.Items();
    TextFoldFrame(m, items, d, 0, k);
    assert items[..0] == [];
  }

  /** The radio pass leaves alone a field in no active group. */
  lemma RadioPassFrame(template: Template, groups: seq<RadioGroup>, d: FormState, k: string)
    requires d.Valid() && k in d.vals
    requires forall g :: g in groups && RadioActive(template, g) ==> k !in g.options.Values
    ensures MergeRadios(template, groups, d).vals[k] == d.vals[k]
  {
    RadioFoldFrame(template, groups, d, 0, k);
    assert groups[..0] == [];
  }

  /** The checkbox pass leaves alone a field that only null checkbox values aim at. */
  lemma CheckboxPassFrame(template: Template, entries: seq<(string, string)>, d: FormState, k: string)
    requires d.Valid() && k in d.vals
    requires forall e :: e in entries && e.1 == k ==> Lookup(template, e.0).Null?
    ensures MergeCheckboxes(template, entries, d).vals[k] == d.vals[k]
  {
    CheckboxFoldFrame(template, entries, d, 0, k);
    assert entries[..0] == [];
  }

  /** A form field named by no table entry keeps its scraped value, whatever
      the template holds. */
  lemma UnmappedFieldUnchanged(m: Mappings, template: Template, target: FormState, k: string)
    requires template.Valid() && target.Valid() && k in target.vals
    requires k !in m.textfields.Values
    requires forall g :: g in m.radios ==> k !in g.options.Values
    requires forall e :: e in m.checkboxes ==> e.1 != k
    ensures Merge(m, template, target).vals[k] == target.vals[k]
  {
    forall f | f in template.vals
      ensures !WritesText(m, f, template.vals[f], k)
    {
      if f in m.textfields {
        assert m.textfields[f] in m.textfields.Values;
      }
    }
    MergeFrame(m, template, target, k);
  }

  /** The text rule: a mapped field present in the form, aimed at by no other
      template field and by no radio or checkbox entry, ends up as the old
      text, a newline and the new text when appending to non-empty text, and
      as the new text otherwise. */
  lemma TextFieldMerged(m: Mappings, template: Template, target: FormState, field: string, text: string, append: bool)
    requires template.Valid() && target.Valid()
    requires field in template.vals && template.vals[field] == Content(Some(text), append) && text != ""
    requires field != "patient_id" && !IsRadioField(m, field)
    requires field in m.textfields && m.textfields[field] in target.vals
    requires forall f :: f in template.vals && f != field ==> !WritesText(m, f, template.vals[f], m.textfields[field])
    requires forall g :: g in m.radios && RadioActive(template, g) ==> m.textfields[field] !in g.options.Values
    requires forall e :: e in m.checkboxes && e.1 == m.textfields[field] ==> Lookup(template, e.0).Null?
    ensures var id := m.textfields[field];
            var was := target.vals[id];
            Merge(m, template, target).vals[id] == if append && was != "" then was + "\n" + text else text
  {
    var id := m.textfields[field];
    var afterText := MergeTextFields(m, template.Items(), target);
    TextPassMerged(m, template, target, field, text, append);
    RadioPassFrame(template, m.radios, afterText, id);
    var afterRadios := MergeRadios(template, m.radios, afterText);
    CheckboxPassFrame(template, m.checkboxes, afterRadios, id);
  }

  /** The radio rule: once a group with a recognised selection has been
      merged, each of its option fields holds "true" if it is the selected
      one and "" otherwise, unless a later active group or a non-null
      checkbox writes it again. */
  lemma RadioSelectionIsExclusive(m: Mappings, template: Template, target: FormState, gi: nat, id: string)
    requires template.Valid() && target.Valid()
    requires gi < |m.radios| && RadioActive(template, m.radios[gi])
    requires id in m.radios[gi].options.Values && id in target.vals
    requires forall j :: gi < j < |m.radios| && RadioActive(template, m.radios[j]) ==> id !in m.radios[j].options.Values
    requires forall e :: e in m.checkboxes && e.1 == id ==> Lookup(template, e.0).Null?
    ensures Merge(m, template, target).vals[id] == if id == SelectedId(template, m.radios[gi]) then "true" else ""
  {
    var afterText := MergeTextFields(m, template.Items(), target);
    RadioPassExclusive(template, m.radios, afterText, gi, id);
    var afterRadios := MergeRadios(template, m.radios, afterText);
    CheckboxPassFrame(template, m.checkboxes, afterRadios, id);
  }

  /** A falsy selection, or one that is not among the group's option keys,
      leaves the form state exactly as it was: no option is cleared. */
  lemma UnrecognisedSelectionIsNoop(template: Template, g: RadioGroup, d: FormState)
    requires d.Valid()
    requires !Truthy(Lookup(template, g.field)) || KeyOf(Lookup(template, g.field)).None?
             || KeyOf(Lookup(template, g.field)).value !in g.options
    ensures MergeRadioGroup(template, g, d) == d
  {
  }

  /** The checkbox rule: checkboxes run last, so a non-null checkbox value is
      what the field holds at the end unless a later checkbox entry aimed at
      the same field has a non-null value too; radio and text writes to that
      field are overridden. */
  lemma CheckboxDecides(m: Mappings, template: Template, target: FormState, ci: nat)
    requires template.Valid() && target.Valid()
    requires ci < |m.checkboxes| && m.checkboxes[ci].1 in target.vals
    requires !Lookup(template, m.checkboxes[ci].0).Null?
    requires forall j :: ci < j < |m.checkboxes| && m.checkboxes[j].1 == m.checkboxes[ci].1 ==> Lookup(template, m.checkboxes[j].0).Null?
    ensures Merge(m, template, target).vals[m.checkboxes[ci].1] ==
            if Truthy(Lookup(template, m.checkboxes[ci].0)) then "true" else "false"
  {
    var afterRadios := MergeRadios(template, m.radios, MergeTextFields(m, template.Items(), target));
    CheckboxPassDecides(template, m.checkboxes, afterRadios, ci);
  }

  /** The checkbox pass alone: the last non-null entry aimed at a field decides it. */
  lemma {:induction false} CheckboxPassDecides(template: Template, entries: seq<(string, string)>, d: FormState, ci: nat)
    requires d.Valid() && ci < |entries| && entries[ci].1 in d.vals
    requires !Lookup(template, entries[ci].0).Null?
    requires forall j :: ci < j < |entries| && entries[j].1 == entries[ci].1 ==> Lookup(template, entries[j].0).Null?
    ensures MergeCheckboxes(template, entries, d).vals[entries[ci].1] ==
            if Truthy(Lookup(template, entries[ci].0)) then "true" else "false"
  {
    var e := entries[ci];
    CheckboxFoldFrame(template, entries, d, ci + 1, e.1);
    CheckboxFoldStep(template, entries, ci, d);
  }

  /** The radio pass alone: a merged active group's fields are "true" for the
      selection and "" for the rest, until a later active group writes them. */
  lemma {:induction false} RadioPassExclusive(template: Template, groups: seq<RadioGroup>, d: FormState, gi: nat, id: string)
    requires d.Valid() && gi < |groups| && RadioActive(template, groups[gi])
    requires id in groups[gi].options.Values && id in d.vals
    requires forall j :: gi < j < |groups| && RadioActive(template, groups[j]) ==> id !in groups[j].options.Values
    ensures MergeRadios(template, groups, d).vals[id] == if id == SelectedId(template, groups[gi]) then "true" else ""
  {
    RadioFoldFrame(template, groups, d, gi + 1, id);
    RadioPrefixSelects(template, groups, d, gi, id);
  }

  /** The radio pass up to and including group `gi`. */
  lemma RadioPrefixSelects(template: Template, groups: seq<RadioGroup>, d: FormState, gi: nat, id: string)
    requires d.Valid() && gi < |groups| && RadioActive(template, groups[gi])
    requires id in groups[gi].options.Values && id in d.vals
    ensures MergeRadios(template, groups[..gi + 1], d).vals[id] == if id == SelectedId(template, groups[gi]) then "true" else ""
  {
    RadioFoldStep(template, groups, gi, d);
    RadioGroupSelects(template, groups[gi], MergeRadios(template, groups[..gi], d), id);
  }

  /** One active group: its selected field becomes "true", its other fields "". */
  lemma RadioGroupSelects(template: Template, g: RadioGroup, d: FormState, id: string)
    requires d.Valid() && RadioActive(template, g) && id in g.options.Values && id in d.vals
    ensures MergeRadioGroup(template, g, d).vals[id] == if id == SelectedId(template, g) then "true" else ""
  {
  }

  /** The text pass alone: the text rule applied to the scraped value. */
  lemma TextPassMerged(m: Mappings, template: Template, d: FormState, field: string, text: string, append: bool)
    requires template.Valid() && d.Valid()
    requires field in template.vals && template.vals[field] == Content(Some(text), append) && text != ""
    requires field != "patient_id" && !IsRadioField(m, field)
    requires field in m.textfields && m.textfields[field] in d.vals
    requires forall f :: f in template.vals && f != field ==> !WritesText(m, f, template.vals[f], m.textfields[field])
    ensures var id := m.textfields[field];
            var was := d.vals[id];
            MergeTextFields(m, template.Items(), d).vals[id] == if append && was != "" then was + "\n" + text else text
  {
    var p :| 0 <= p < |template.keys| && template.keys[p] == field;
    OnlyOneFieldWrites(m, template, field, p, m.textfields[field]);
    TextPassAt(m, template.Items(), d, p, text, append);
  }

  /** The text pass over items of which only the one at `p` writes its
      mapped field. */
  lemma TextPassAt(m: Mappings, items: seq<(string, Value)>, d: FormState, p: nat, text: string, append: bool)
    requires d.Valid() && p < |items| && items[p].1 == Content(Some(text), append) && text != ""
    requires items[p].0 != "patient_id" && !IsRadioField(m, items[p].0)
    requires items[p].0 in m.textfields && m.textfields[items[p].0] in d.vals
    requires forall i :: 0 <= i < |items| && i != p ==> !WritesText(m, items[i].0, items[i].1, m.textfields[items[p].0])
    ensures var id := m.textfields[items[p].0];
            var was := d.vals[id];
            MergeTextFields(m, items, d).vals[id] == if append && was != "" then was + "\n" + text else text
  {
    TextPrefixMerged(m, items, d, p, text, append);
    TextFoldFrame(m, items, d, p + 1, m.textfields[items[p].0]);
  }

  /** The text pass up to and including the one field that writes `id`. */
  lemma TextPrefixMerged(m: Mappings, items: seq<(string, Value)>, d: FormState, p: nat, text: string, append: bool)
    requires d.Valid() && p < |items| && items[p].1 == Content(Some(text), append) && text != ""
    requires items[p].0 != "patient_id" && !IsRadioField(m, items[p].0)
    requires items[p].0 in m.textfields && m.textfields[items[p].0] in d.vals
    requires forall i :: 0 <= i < p ==> !WritesText(m, items[i].0, items[i].1, m.textfields[items[p].0])
    ensures var id := m.textfields[items[p].0];
            var was := d.vals[id];
            MergeTextFields(m, items[..p + 1], d).vals[id] == if append && was != "" then was + "\n" + text else text
  {
    var field := items[p].0;
    var id := m.textfields[field];
    var before := MergeTextFields(m, items[..p], d);
    TextFoldFrame(m, items[..p], d, 0, id);
    assert items[..p][..0] == [];
    TextFoldStep(m, items, p, d);
    TextFieldWrites(m, field, text, append, before);
  }

  /** When only template field `field` (at position `p`) aims text at `id`,
      no other item of the template does. */
  lemma OnlyOneFieldWrites(m: Mappings, template: Template, field: string, p: nat, id: string)
    requires template.Valid() && p < |template.keys| && template.keys[p] == field
    requires forall f :: f in template.vals && f != field ==> !WritesText(m, f, template.vals[f], id)
    ensures template.Items()[p] == (field, template.vals[field])
    ensures forall i :: 0 <= i < |template.Items()| && i != p ==>
              !WritesText(m, template.Items()[i].0, template.Items()[i].1, id)
  {
    var items := template.Items();
    forall i | 0 <= i < |items| && i != p
      ensures !WritesText(m, items[i].0, items[i].1, id)
    {
      assert template.keys[i] != field;
    }
  }

  /** One template field carrying text: the text rule at its mapped field. */
  lemma TextFieldWrites(m: Mappings, field: string, text: string, append: bool, d: FormState)
    requires d.Valid() && text != ""
    requires field != "patient_id" && !IsRadioField(m, field)
    requires field in m.textfields && m.textfields[field] in d.vals
    ensures var id := m.textfields[field];
            var was := d.vals[id];
            MergeTextField(m, field, Content(Some(text), append), d).vals[id] ==
              if append && was != "" then was + "\n" + text else text
  {
  }
}
