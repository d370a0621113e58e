/** The wizard's data model: strength entries, the form data of the five-step
    flow, the record handed to the pill box on save, the schedule record the
    schedule editor works on, and the vocabularies of the backend's enums. */
module MedicationTypes {
  import opened Base
  import opened Text

  /** One strength option: free-text numeric `value` and a `unit`. */
  datatype StrengthEntry = StrengthEntry(id: string, value: string, unit: string)

  /** The form data of the five-step flow (Name, Form, Strength, Color, Review);
      `customForm` is optional. */
  datatype MedicationFormData = MedicationFormData(
    name: string,
    form: string,
    customForm: Option<string>,
    strengths: seq<StrengthEntry>,
    color: string)

  /** A medication in the pill box. */
  datatype MedicationGroup = MedicationGroup(
    id: string,
    name: string,
    strengths: seq<string>,
    form: string,
    totalStock: int,
    hasLowStock: bool,
    color: Option<string>)

  /** A medication without its id, as the wizard emits it on save. */
  datatype MedicationDraft = MedicationDraft(
    name: string,
    strengths: seq<string>,
    form: string,
    totalStock: int,
    hasLowStock: bool,
    color: Option<string>)

  const MedicationForms: seq<string> := [
    "Tablet", "Capsule", "Extended-Release Tablet", "Liquid", "Drops", "Cream", "Gel",
    "Ointment", "Patch", "Injection", "Inhaler", "Spray", "Powder", "Suppository",
    "Lozenge", "Other"]

  const StrengthUnits: seq<string> := ["mg", "g", "mcg", "mL", "IU", "%"]

  /** Pill colours as (name, label) pairs. */
  const PillColors: seq<(string, string)> := [
    ("blue", "Blue"), ("pink", "Pink"), ("yellow", "Yellow"), ("green", "Green"),
    ("purple", "Purple"), ("red", "Red"), ("orange", "Orange"), ("teal", "Teal")]

  // Vocabularies of the backend's enums.
  datatype IntakeStatus = Taken | Skipped | Missed
  datatype ScheduleType = Everyday | SpecificDays | Cyclical | AsNeeded
  datatype SelectionRule = ExactlyOne | Any
  datatype TimeFrameType = Morning | Afternoon | Evening | Night

  /** The wire name of a time frame, which is also what is shown when the
      time-frame table has no label for it. */
  function TimeFrameTypeName(t: TimeFrameType): (r: string)
    ensures r != ""
  {
    match t
    case Morning => "morning"
    case Afternoon => "afternoon"
    case Evening => "evening"
    case Night => "night"
  }

  datatype TimeMode = Specific | Timeframe

  datatype TimeFrameEntry = TimeFrameEntry(id: string, kind: TimeFrameType)

  /** The schedule being edited: `specificDays`, `cycleOnDays` and `cycleOffDays`
      may be absent; `endDate` is `null` when there is no end date. */
  datatype ScheduleData = ScheduleData(
    kind: ScheduleType,
    specificDays: Option<seq<int>>,
    cycleOnDays: Option<int>,
    cycleOffDays: Option<int>,
    timeMode: TimeMode,
    specificTimes: seq<string>,
    timeFrames: seq<TimeFrameEntry>,
    startDate: string,
    endDate: Option<string>)

  datatype DosingType = Fixed | Flexible

  /** The form data of the extended wizard, which adds dosing, schedule and
      appearance to the five-step flow's fields. */
  datatype ExtendedFormData = ExtendedFormData(
    name: string,
    form: string,
    customForm: Option<string>,
    strengths: seq<StrengthEntry>,
    dosingType: DosingType,
    selectedStrengths: seq<string>,
    fixedQuantity: int,
    schedule: ScheduleData,
    shape: string,
    showLine: bool,
    colorLeft: string,
    colorRight: Option<string>,
    colorBackground: string)

  // ---------------------------------------------------------------------------
  // Shared derivations
  // ---------------------------------------------------------------------------

  /** How a strength is shown and saved: its value followed by its unit, both
      untrimmed. */
  function StrengthLabel(s: StrengthEntry): (r: string)
    ensures r == "" <==> s.value == "" && s.unit == ""
  {
    s.value + s.unit
  }

  /** The labels of a list of strengths, one per entry, in order. */
  function StrengthLabels(entries: seq<StrengthEntry>): (r: seq<string>)
    ensures |r| == |entries|
    ensures forall i :: 0 <= i < |r| ==> r[i] == StrengthLabel(entries[i])
  {
    if entries == [] then [] else [StrengthLabel(entries[0])] + StrengthLabels(entries[1..])
  }

  /** The strengths whose value is not blank once trimmed, in order. */
  function ValidStrengths(strengths: seq<StrengthEntry>): (r: seq<StrengthEntry>)
    ensures |r| <= |strengths|
    ensures forall e :: e in r <==> e in strengths && !IsBlank(e.value)
  {
    if strengths == [] then []
    else if IsBlank(strengths[0].value) then ValidStrengths(strengths[1..])
    else [strengths[0]] + ValidStrengths(strengths[1..])
  }

  /** No two entries share an id, which holds as long as ids are freshly drawn. */
  predicate UniqueIds(strengths: seq<StrengthEntry>) {
    forall i, j :: 0 <= i < j < |strengths| ==> strengths[i].id != strengths[j].id
  }

  /** Filtering distributes over concatenation, so kept entries stay in order. */
  lemma {:induction false} ValidStrengthsAppend(xs: seq<StrengthEntry>, ys: seq<StrengthEntry>)
    ensures ValidStrengths(xs + ys) == ValidStrengths(xs) + ValidStrengths(ys)
  {
    if xs == [] {
      assert xs + ys == ys;
    } else {
      assert (xs + ys)[1..] == xs[1..] + ys;
      ValidStrengthsAppend(xs[1..], ys);
    }
  }

  /** `strengths.some(s => s.value.trim().length > 0)` */
  predicate SomeStrengthFilled(strengths: seq<StrengthEntry>) {
    exists e | e in strengths :: !IsBlank(e.value)
  }

  /** Some strength is filled in exactly when the filtered list is non-empty. */
  lemma SomeStrengthFilledIffValid(strengths: seq<StrengthEntry>)
    ensures SomeStrengthFilled(strengths) <==> ValidStrengths(strengths) != []
  {
    var valid := ValidStrengths(strengths);
    if SomeStrengthFilled(strengths) {
      var e :| e in strengths && !IsBlank(e.value);
      assert e in valid;
    }
    if valid != [] {
      var e := valid[0];
      assert e in valid;
      assert e in strengths && !IsBlank(e.value);
    }
  }

  /** The hex code of a background colour name in the colour table (pairs of
      name and hex): the first entry with that name, or white when there is
      none or its code is empty. */
  function BackgroundHex(colors: seq<(string, string)>, name: string): (r: string)
    ensures r == "#FFFFFF" || exists i | 0 <= i < |colors| :: colors[i].0 == name && colors[i].1 == r
    ensures (forall i | 0 <= i < |colors| :: colors[i].0 != name) ==> r == "#FFFFFF"
    ensures |colors| > 0 && colors[0].0 == name && colors[0].1 != "" ==> r == colors[0].1
    ensures r != ""
  {
    if colors == [] then "#FFFFFF"
    else if colors[0].0 == name then (if colors[0].1 != "" then colors[0].1 else "#FFFFFF")
    else
      var r := BackgroundHex(colors[1..], name);
      assert r != "#FFFFFF" ==> exists i | 0 <= i < |colors| :: colors[i].0 == name && colors[i].1 == r by {
        if r != "#FFFFFF" {
          var i :| 0 <= i < |colors[1..]| && colors[1..][i].0 == name && colors[1..][i].1 == r;
          assert colors[i + 1] == colors[1..][i];
        }
      }
      r
  }

  /** The form shown and saved: the custom text when the form is "Other" and a
      non-empty custom text is present, otherwise the chosen form. */
  function DisplayForm(form: string, customForm: Option<string>): (r: string)
    ensures r == form || (customForm.Some? && r == customForm.value)
    ensures r != form ==> form == "Other" && customForm.Some? && customForm.value != ""
    ensures form == "Other" && customForm.Some? && customForm.value != "" ==> r == customForm.value
  {
    if form == "Other" && customForm.Some? && customForm.value != "" then customForm.value else form
  }
}
