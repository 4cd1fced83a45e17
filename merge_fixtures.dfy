/// The merge engine on excerpts of the real mapping tables, where ids are
/// shared between groups and between tables and where option keys are
/// booleans.
module MergeFixtures {
  import opened Wrappers
  import opened Dicts
  import opened TemplateMerge

  // ---------------------------------------------------------------------
  // Two consultation radio groups that name the same two field ids

  const Conjunctiva := RadioGroup("pe_eyes_conjunctiva_color", map[
    KeyStr("Pink palpebral conjunctivae") := "FD_rdoPEEyes_06",
    KeyStr("Slightly pale palpebral conjunctivae") := "FD_rdoPEEyes_08"])

  const Sclera := RadioGroup("pe_eyes_sclera", map[
    KeyStr("No icteric sclera") := "FD_rdoPEEyes_06",
    KeyStr("Icteric sclera") := "FD_rdoPEEyes_08"])

  const EyeTables := Mappings(map[], [Conjunctiva, Sclera], [])

  function EyeForm(): (r: FormState)
    ensures r.Valid()
  {
    Empty().Put("FD_rdoPEEyes_06", "false").Put("FD_rdoPEEyes_08", "false")
  }

  function EyeTemplate(): (r: Template)
    ensures r.Valid()
  {
    Empty().Put("pe_eyes_conjunctiva_color", Str("Pink palpebral conjunctivae"))
           .Put("pe_eyes_sclera", Str("Icteric sclera"))
  }

  /** The sclera group's selection is a recognised option key. */
  lemma ScleraSelected()
    ensures RadioActive(EyeTemplate(), Sclera)
    ensures SelectedId(EyeTemplate(), Sclera) == "FD_rdoPEEyes_08"
    ensures "FD_rdoPEEyes_06" in Sclera.options.Values && "FD_rdoPEEyes_08" in Sclera.options.Values
  {
    assert Lookup(EyeTemplate(), "pe_eyes_sclera") == Str("Icteric sclera");
    assert Sclera.options[KeyStr("No icteric sclera")] == "FD_rdoPEEyes_06";
    assert Sclera.options[KeyStr("Icteric sclera")] == "FD_rdoPEEyes_08";
  }

  /** Selecting pink conjunctivae and icteric sclera leaves only the
      sclera's choice: the later group clears the id the earlier one set. */
  lemma SharedEyeIdsLaterGroupWins()
    ensures Merge(EyeTables, EyeTemplate(), EyeForm()).vals["FD_rdoPEEyes_06"] == ""
    ensures Merge(EyeTables, EyeTemplate(), EyeForm()).vals["FD_rdoPEEyes_08"] == "true"
  {
    ScleraSelected();
    var form := EyeForm();
    assert "FD_rdoPEEyes_06" in form.vals && "FD_rdoPEEyes_08" in form.vals;
    assert EyeTables.radios[1] == Sclera;
    RadioSelectionIsExclusive(EyeTables, EyeTemplate(), form, 1, "FD_rdoPEEyes_06");
    RadioSelectionIsExclusive(EyeTables, EyeTemplate(), form, 1, "FD_rdoPEEyes_08");
  }

  // ---------------------------------------------------------------------
  // A checkbox entry that names a radio option id: the consultation
  // tables drive `FD_rdoROSENMT_H` as the one option of a radio group, the
  // follow-up tables as a checkbox; the two are put in one table set here
  // to show the order of the passes.

  const Hoarseness := RadioGroup("ros_enmt_hoarseness", map[KeyStr("Hoarseness") := "FD_rdoROSENMT_H"])

  const HoarsenessTables := Mappings(map[], [Hoarseness], [("ros_enmt_hoarseness", "FD_rdoROSENMT_H")])

  /** A scraped form holding one field, checked. */
  function CheckedForm(id: string): (r: FormState)
    ensures r.Valid() && r.keys == [id] && r.vals == map[id := "true"]
  {
    Empty().Put(id, "true")
  }

  function HoarsenessTemplate(v: Value): (r: Template)
    ensures r.Valid()
  {
    Empty().Put("ros_enmt_hoarseness", v)
  }

  /** The checkbox pass runs after the radio pass, so an explicit `False`
      writes "false" into the radio option's id. */
  lemma CheckboxOverridesRadioId()
    ensures Merge(HoarsenessTables, HoarsenessTemplate(Bool(false)), CheckedForm("FD_rdoROSENMT_H")).vals["FD_rdoROSENMT_H"] == "false"
  {
    var template := HoarsenessTemplate(Bool(false));
    assert Lookup(template, "ros_enmt_hoarseness") == Bool(false);
    assert HoarsenessTables.checkboxes[0] == ("ros_enmt_hoarseness", "FD_rdoROSENMT_H");
    CheckboxDecides(HoarsenessTables, template, CheckedForm("FD_rdoROSENMT_H"), 0);
  }

  // ---------------------------------------------------------------------
  // Boolean option keys

  const OtherFamilyHistory := RadioGroup("other_family_history", map[
    KeyBool(true) := "FD_rdoFHOtherFamHx",
    KeyBool(false) := ""])

  /** The `False` option of the family-history group is never taken: a
      `False` selection is falsy and leaves the form as it was, so the
      earlier "true" is not cleared. */
  lemma FalseOptionNeverSelected(d: FormState)
    requires d.Valid()
    ensures MergeRadioGroup(Empty<Value>().Put("other_family_history", Bool(false)), OtherFamilyHistory, d) == d
    ensures MergeRadioGroup(Empty<Value>().Put("other_family_history", Bool(false)), OtherFamilyHistory, CheckedForm("FD_rdoFHOtherFamHx"))
         .vals["FD_rdoFHOtherFamHx"] == "true"
  {
    var template := Empty<Value>().Put("other_family_history", Bool(false));
    assert Lookup(template, "other_family_history") == Bool(false);
    UnrecognisedSelectionIsNoop(template, OtherFamilyHistory, d);
    UnrecognisedSelectionIsNoop(template, OtherFamilyHistory, CheckedForm("FD_rdoFHOtherFamHx"));
  }

  /** A `True` selection selects the group's one field id. */
  lemma TrueOptionSelects()
    ensures MergeRadioGroup(Empty<Value>().Put("other_family_history", Bool(true)), OtherFamilyHistory,
      Empty().Put("FD_rdoFHOtherFamHx", "")).vals["FD_rdoFHOtherFamHx"] == "true"
  {
    var template := Empty<Value>().Put("other_family_history", Bool(true));
    assert Lookup(template, "other_family_history") == Bool(true);
    assert OtherFamilyHistory.options[KeyBool(true)] == "FD_rdoFHOtherFamHx";
    RadioGroupSelects(template, OtherFamilyHistory, Empty().Put("FD_rdoFHOtherFamHx", ""), "FD_rdoFHOtherFamHx");
  }
}
