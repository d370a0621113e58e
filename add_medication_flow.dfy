/** The five-step add-medication wizard: step validation, the Next/Back/Close
    transitions, field updates and the save transform that turns the form data
    into the record handed to the pill box. */
module AddMedicationFlow {
  import opened Base
  import opened Text
  import opened MedicationTypes

  const Steps: seq<string> := ["Name", "Form", "Strength", "Color", "Review"]

  /** Index of the last step, where Next saves. */
  const LastStep: nat := |Steps| - 1

  /** The record the wizard opens with and returns to on close. The first
      strength's id is drawn once, when the module is loaded. */
  function InitialFormData(initialStrengthId: string): (d: MedicationFormData)
    ensures d.name == "" && d.form == "" && d.customForm == Some("") && d.color == "blue"
    ensures d.strengths == [StrengthEntry(initialStrengthId, "", "mg")]
  {
    MedicationFormData("", "", Some(""), [StrengthEntry(initialStrengthId, "", "mg")], "blue")
  }

  /** Whether the Next button is enabled on `step`. */
  function CanProceed(step: int, d: MedicationFormData): (r: bool)
    ensures step == LastStep ==> r
    ensures (step < 0 || step > LastStep) ==> !r
  {
    if step == 0 then !IsBlank(d.name)
    else if step == 1 then
      if d.form == "Other" then d.customForm.Some? && !IsBlank(d.customForm.value)
      else d.form != ""
    else if step == 2 then SomeStrengthFilled(d.strengths)
    else if step == 3 then d.color != ""
    else step == 4
  }

  /** What each step's check means character by character: Name needs a
      non-whitespace character; Form needs one in the custom text when the form
      is "Other", else any form; Strength needs a strength value with a
      non-whitespace character; Color a non-empty colour; Review always passes;
      no other index passes. */
  lemma CanProceedMeaning(step: int, d: MedicationFormData)
    ensures step == 0 ==> (CanProceed(step, d) <==> !AllWhitespace(d.name))
    ensures step == 1 && d.form == "Other" ==>
      (CanProceed(step, d) <==> d.customForm.Some? && !AllWhitespace(d.customForm.value))
    ensures step == 1 && d.form != "Other" ==> (CanProceed(step, d) <==> d.form != "")
    ensures step == 2 ==>
      (CanProceed(step, d) <==> exists e | e in d.strengths :: !AllWhitespace(e.value))
    ensures step == 3 ==> (CanProceed(step, d) <==> d.color != "")
    ensures step == 4 ==> CanProceed(step, d)
    ensures (step < 0 || step > 4) ==> !CanProceed(step, d)
  {
    BlankIffAllWhitespace(d.name);
    if d.customForm.Some? {
      BlankIffAllWhitespace(d.customForm.value);
    }
    forall e | e in d.strengths
      ensures IsBlank(e.value) <==> AllWhitespace(e.value)
    {
      BlankIffAllWhitespace(e.value);
    }
  }

  /** One field of the form data with its new value (`updateFormData(key, value)`). */
  datatype FormField =
    | NameField(name: string)
    | FormKindField(form: string)
    | CustomFormField(customForm: string)
    | StrengthsField(strengths: seq<StrengthEntry>)
    | ColorField(color: string)

  /** The step whose screen edits the field. */
  function FieldStep(f: FormField): nat {
    match f
    case NameField(_) => 0
    case FormKindField(_) => 1
    case CustomFormField(_) => 1
    case StrengthsField(_) => 2
    case ColorField(_) => 3
  }

  /** `{ ...prev, [key]: value }`: the named field takes the new value, every
      other field keeps its old one. */
  function UpdateFormData(d: MedicationFormData, f: FormField): (r: MedicationFormData)
    ensures r.name == (if f.NameField? then f.name else d.name)
    ensures r.form == (if f.FormKindField? then f.form else d.form)
    ensures r.customForm == (if f.CustomFormField? then Some(f.customForm) else d.customForm)
    ensures r.strengths == (if f.StrengthsField? then f.strengths else d.strengths)
    ensures r.color == (if f.ColorField? then f.color else d.color)
  {
    match f
    case NameField(v) => d.(name := v)
    case FormKindField(v) => d.(form := v)
    case CustomFormField(v) => d.(customForm := Some(v))
    case StrengthsField(v) => d.(strengths := v)
    case ColorField(v) => d.(color := v)
  }

  /** Editing a field only affects the check of the step that edits it. */
  lemma UpdateKeepsOtherChecks(d: MedicationFormData, f: FormField, step: int)
    requires step != FieldStep(f)
    ensures CanProceed(step, UpdateFormData(d, f)) == CanProceed(step, d)
  {
  }

  /** The save transform: trimmed name, the non-blank strengths as untrimmed
      value-and-unit labels in order, the resolved form, no stock, the colour. */
  function SaveTransform(d: MedicationFormData): (m: MedicationDraft)
    ensures m.name == Trim(d.name)
    ensures m.strengths == StrengthLabels(ValidStrengths(d.strengths))
    ensures m.form == DisplayForm(d.form, d.customForm)
    ensures m.totalStock == 0 && !m.hasLowStock && m.color == Some(d.color)
  {
    MedicationDraft(
      Trim(d.name),
      StrengthLabels(ValidStrengths(d.strengths)),
      DisplayForm(d.form, d.customForm),
      0,
      false,
      Some(d.color))
  }

  /** What a saved record looks like when every step before Review was passed:
      a name with no surrounding whitespace, at least one strength, a form, a
      colour, and empty stock. */
  predicate WellFormedDraft(m: MedicationDraft) {
    && m.name != [] && !IsWhitespace(m.name[0]) && !IsWhitespace(m.name[|m.name| - 1])
    && m.strengths != []
    && m.form != ""
    && m.color.Some? && m.color.value != ""
    && m.totalStock == 0 && !m.hasLowStock
  }

  /** Every step before `n` passes its check on `d`. */
  predicate PassedSteps(n: int, d: MedicationFormData) {
    forall i :: 0 <= i < n ==> CanProceed(i, d)
  }

  /** Every record in `s` is well formed. */
  predicate AllWellFormed(s: seq<MedicationDraft>) {
    forall m | m in s :: WellFormedDraft(m)
  }

  /** Appending a well-formed record keeps the list well formed. */
  lemma AllWellFormedSnoc(s: seq<MedicationDraft>, m: MedicationDraft)
    requires AllWellFormed(s) && WellFormedDraft(m)
    ensures AllWellFormed(s + [m])
  {
    forall x | x in s + [m]
      ensures WellFormedDraft(x)
    {
      if x != m {
        assert x in s;
      }
    }
  }

  lemma SaveKeepsWellFormed(s: seq<MedicationDraft>, d: MedicationFormData)
    requires AllWellFormed(s) && PassedSteps(LastStep, d)
    ensures AllWellFormed(s + [SaveTransform(d)])
  {
    SavePassedStepsWellFormed(d);
    AllWellFormedSnoc(s, SaveTransform(d));
  }

  /** Passing the Name, Form, Strength and Color checks guarantees a well-formed
      saved record. */
  lemma SavePassedStepsWellFormed(d: MedicationFormData)
    requires PassedSteps(LastStep, d)
    ensures WellFormedDraft(SaveTransform(d))
  {
    var m := SaveTransform(d);
    assert LastStep == 4;
    assert CanProceed(0, d);
    assert m.name == Trim(d.name) != [];
    TrimShape(d.name);
    assert CanProceed(2, d);
    SomeStrengthFilledIffValid(d.strengths);
    assert |m.strengths| == |ValidStrengths(d.strengths)| > 0;
    assert CanProceed(1, d);
    if d.form == "Other" {
      assert d.customForm.Some? && d.customForm.value != "" by {
        assert Trim("") == "";
      }
    }
    assert CanProceed(3, d);
  }

  /** A filled entry followed by a blank one filters down to the filled one. */
  lemma FilledThenBlank(filled: StrengthEntry, blank: StrengthEntry)
    requires !IsBlank(filled.value) && IsBlank(blank.value)
    ensures ValidStrengths([filled, blank]) == [filled]
  {
    assert [filled, blank][1..] == [blank];
    assert [blank][1..] == [];
  }

  /** A filled "500" mg strength followed by a blank one saves as the single
      label "500mg". */
  lemma SaveDropsBlankStrengths(d: MedicationFormData)
    requires d.strengths == [StrengthEntry("a", "500", "mg"), StrengthEntry("b", "", "mg")]
    ensures SaveTransform(d).strengths == ["500mg"]
  {
    var filled := StrengthEntry("a", "500", "mg");
    assert !IsBlank("500") by {
      assert !IsWhitespace("500"[0]);
      BlankIffAllWhitespace("500");
    }
    FilledThenBlank(filled, StrengthEntry("b", "", "mg"));
    assert SaveTransform(d).strengths == StrengthLabels([filled]);
    assert StrengthLabels([filled]) == [StrengthLabel(filled)];
    ExampleLabel();
  }

  lemma ExampleLabel()
    ensures StrengthLabel(StrengthEntry("a", "500", "mg")) == "500mg"
  {
  }

  /** The wizard's state: the current step, the form data, whether the dialog is
      open, and the records handed to the save callback so far. */
  class Wizard {
    const initial: MedicationFormData
    var step: int
    var formData: MedicationFormData
    var open: bool
    var saved: seq<MedicationDraft>

    /** The step is one of the five, every step already left forwards passes its
        check, and every saved record is well formed. */
    ghost predicate Valid()
      reads this
    {
      && 0 <= step <= LastStep
      && PassedSteps(step, formData)
      && AllWellFormed(saved)
    }

    constructor (initialStrengthId: string, open: bool)
      ensures Valid()
      ensures initial == InitialFormData(initialStrengthId)
      ensures step == 0 && formData == initial && this.open == open && saved == []
    {
      initial := InitialFormData(initialStrengthId);
      step := 0;
      formData := InitialFormData(initialStrengthId);
      this.open := open;
      saved := [];
    }

    /** Whether the Next (or, on the last step, Save) button is enabled. */
    function NextEnabled(): (r: bool)
      reads this
      ensures r ==> 0 <= step <= LastStep
    {
      CanProceed(step, formData)
    }

    /** An edit made on the screen of the current step. */
    method Edit(f: FormField)
      requires Valid() && FieldStep(f) == step
      modifies this
      ensures Valid()
      ensures formData == UpdateFormData(old(formData), f)
      ensures step == old(step) && open == old(open) && saved == old(saved)
    {
      formData := UpdateFormData(formData, f);
      forall i | 0 <= i < step
        ensures CanProceed(i, formData)
      {
        UpdateKeepsOtherChecks(old(formData), f, i);
      }
    }

    /** A click on Next: nothing when the button is disabled; on the last step
        the save transform is handed on and the wizard closes; otherwise the
        step advances by one. */
    method Next()
      requires Valid()
      modifies this
      ensures Valid()
      ensures !old(CanProceed(step, formData)) ==>
        step == old(step) && formData == old(formData) && open == old(open) && saved == old(saved)
      ensures old(CanProceed(step, formData)) && old(step) < LastStep ==>
        step == old(step) + 1 && formData == old(formData) && open == old(open) && saved == old(saved)
      ensures old(CanProceed(step, formData)) && old(step) == LastStep ==>
        && saved == old(saved) + [SaveTransform(old(formData))]
        && step == 0 && formData == initial && !open
    {
      if !CanProceed(step, formData) {
        return;
      }
      if step == LastStep {
        Save();
      } else {
        step := step + 1;
      }
    }

    /** A click on Back: one step back, nothing on the first step. */
    method Back()
      requires Valid()
      modifies this
      ensures Valid()
      ensures step == if old(step) > 0 then old(step) - 1 else 0
      ensures formData == old(formData) && open == old(open) && saved == old(saved)
    {
      if step > 0 {
        step := step - 1;
      }
    }

    /** Closing the dialog, from any step: back to the first step with the
        initial form data, and the dialog reported closed. */
    method Close()
      requires Valid()
      modifies this
      ensures Valid()
      ensures step == 0 && formData == initial && !open && saved == old(saved)
    {
      step := 0;
      formData := initial;
      open := false;
    }

    /** Hands the save transform of the current data on, then closes. */
    method Save()
      requires Valid() && step == LastStep
      modifies this
      ensures Valid()
      ensures saved == old(saved) + [SaveTransform(old(formData))]
      ensures step == 0 && formData == initial && !open
    {
      SaveKeepsWellFormed(saved, formData);
      var m := SaveTransform(formData);
      saved := saved + [m];
      step := 0;
      formData := initial;
      open := false;
    }
  }
}
