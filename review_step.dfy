/** The review step of the extended wizard: the preview card and the summary
    list with its descriptions of the schedule and of the times. */
module ReviewStep {
  import opened Base
  import opened Text
  import opened MedicationTypes
  import opened TimeFormat

  const DayAbbreviations: seq<string> := ["Sun", "Mon", "Tue", "Wed", "Thu", "Fri", "Sat"]

  /** `days[d]`, which is `undefined` (joined as "") outside 0..6. */
  function DayAbbreviation(d: int): (r: string)
    ensures 0 <= d < 7 ==> r == DayAbbreviations[d] && |r| == 3
    ensures !(0 <= d < 7) ==> r == ""
  {
    if 0 <= d < 7 then DayAbbreviations[d] else ""
  }

  function DayAbbreviationList(days: seq<int>): (r: seq<string>)
    ensures |r| == |days|
    ensures forall i :: 0 <= i < |days| ==> r[i] == DayAbbreviation(days[i])
  {
    if days == [] then [] else [DayAbbreviation(days[0])] + DayAbbreviationList(days[1..])
  }

  /** A number in a template literal; an absent one prints "undefined". */
  function OptionalNumberText(v: Option<int>): (r: string)
    ensures r != ""
    ensures r == "undefined" <==> v.None?
  {
    match v
    case None => "undefined"
    case Some(n) =>
      var t := IntToString(n);
      assert t[0] == '-' || IsDigit(t[0]);
      t
  }

  /** `getScheduleDescription` */
  function ScheduleDescription(s: ScheduleData): (r: string)
    ensures r != ""
  {
    match s.kind
    case Everyday => "Every day"
    case SpecificDays =>
      var joined := match s.specificDays
        case None => ""
        case Some(days) => Join(DayAbbreviationList(days), ", ");
      if joined == "" then "No days selected" else joined
    case Cyclical =>
      OptionalNumberText(s.cycleOnDays) + " days on, " + OptionalNumberText(s.cycleOffDays) + " days off"
    case AsNeeded => "As needed"
  }

  /** The schedule description by type: fixed texts for every day and as
      needed, the two cycle lengths for cyclical schedules, and for specific
      days either their abbreviations joined with ", " in list order or "No
      days selected" when there is no day (or the list is absent). */
  lemma ScheduleDescriptionCases(s: ScheduleData)
    ensures s.kind == Everyday ==> ScheduleDescription(s) == "Every day"
    ensures s.kind == AsNeeded ==> ScheduleDescription(s) == "As needed"
    ensures s.kind == Cyclical && s.cycleOnDays.Some? && s.cycleOffDays.Some? ==>
      ScheduleDescription(s) == IntToString(s.cycleOnDays.value) + " days on, "
        + IntToString(s.cycleOffDays.value) + " days off"
    ensures s.kind == SpecificDays && (s.specificDays.None? || s.specificDays.value == []) ==>
      ScheduleDescription(s) == "No days selected"
    ensures (s.kind == SpecificDays && s.specificDays.Some? && s.specificDays.value != []
        && (forall i :: 0 <= i < |s.specificDays.value| ==> 0 <= s.specificDays.value[i] < 7)) ==>
      ScheduleDescription(s) == Join(DayAbbreviationList(s.specificDays.value), ", ")
  {
    if s.kind == SpecificDays && s.specificDays.Some? && s.specificDays.value != [] {
      var days := s.specificDays.value;
      JoinEmpty(DayAbbreviationList(days), ", ");
      if forall i :: 0 <= i < |days| ==> 0 <= days[i] < 7 {
        assert DayAbbreviationList(days)[0] != "";
      }
    }
  }

  /** Every chosen weekday's abbreviation appears in the description, in the
      order of the list. */
  lemma ScheduleDescriptionListsDays(s: ScheduleData, i: nat)
    requires s.kind == SpecificDays && s.specificDays.Some?
    requires i < |s.specificDays.value|
    requires forall j :: 0 <= j < |s.specificDays.value| ==> 0 <= s.specificDays.value[j] < 7
    ensures var parts := DayAbbreviationList(s.specificDays.value);
      var k := JoinOffset(parts, ", ", i);
      k + 3 <= |ScheduleDescription(s)|
      && ScheduleDescription(s)[k..k + 3] == DayAbbreviations[s.specificDays.value[i]]
  {
    var parts := DayAbbreviationList(s.specificDays.value);
    ScheduleDescriptionCases(s);
    JoinContainsPart(parts, ", ", i);
  }

  /** A time frame's label from the time-frame table (pairs of kind and
      label), or its wire name when the table has no non-empty label for it. */
  function FrameLabel(frames: seq<(TimeFrameType, string)>, kind: TimeFrameType): (r: string)
    ensures r != ""
    ensures (forall i | 0 <= i < |frames| :: frames[i].0 != kind) ==> r == TimeFrameTypeName(kind)
  {
    if frames == [] then TimeFrameTypeName(kind)
    else if frames[0].0 == kind then (if frames[0].1 != "" then frames[0].1 else TimeFrameTypeName(kind))
    else FrameLabel(frames[1..], kind)
  }

  /** A kind listed in the table shows the label of its first entry, or its
      wire name when that label is empty. */
  lemma {:induction false} FrameLabelOfListed(frames: seq<(TimeFrameType, string)>, kind: TimeFrameType, i: nat)
    requires i < |frames| && frames[i].0 == kind
    requires forall j | 0 <= j < i :: frames[j].0 != kind
    ensures FrameLabel(frames, kind) == if frames[i].1 != "" then frames[i].1 else TimeFrameTypeName(kind)
  {
    if i > 0 {
      assert frames[0].0 != kind;
      FrameLabelOfListed(frames[1..], kind, i - 1);
    }
  }

  /** Every time converted to the 12-hour clock, in order. */
  function FormatTimes(times: seq<string>): (r: seq<string>)
    ensures |r| == |times|
  {
    if times == [] then [] else [FormatTime(times[0])] + FormatTimes(times[1..])
  }

  /** Entry `i` of the converted list is the conversion of time `i`. */
  lemma {:induction false} FormatTimesAt(times: seq<string>, i: nat)
    requires i < |times|
    ensures FormatTimes(times)[i] == FormatTime(times[i])
  {
    if i > 0 {
      FormatTimesAt(times[1..], i - 1);
    }
  }

  function FrameLabels(frames: seq<(TimeFrameType, string)>, entries: seq<TimeFrameEntry>): (r: seq<string>)
    ensures |r| == |entries|
    ensures forall i :: 0 <= i < |entries| ==> r[i] == FrameLabel(frames, entries[i].kind)
  {
    if entries == [] then [] else [FrameLabel(frames, entries[0].kind)] + FrameLabels(frames, entries[1..])
  }

  /** `getTimeDescription`, given the time-frame table. */
  function TimeDescription(s: ScheduleData, frames: seq<(TimeFrameType, string)>): (r: string)
    ensures s.kind != AsNeeded && s.timeMode == Specific ==> (r == "" <==> s.specificTimes == [])
    ensures s.kind != AsNeeded && s.timeMode == Timeframe ==> (r == "" <==> s.timeFrames == [])
  {
    JoinEmpty(FormatTimes(s.specificTimes), ", ");
    JoinEmpty(FrameLabels(frames, s.timeFrames), ", ");
    assert s.specificTimes != [] ==> FormatTimes(s.specificTimes)[0] != "" by {
      if s.specificTimes != [] {
        FormatTimesAt(s.specificTimes, 0);
      }
    }
    if s.kind == AsNeeded then "When needed"
    else if s.timeMode == Specific then Join(FormatTimes(s.specificTimes), ", ")
    else Join(FrameLabels(frames, s.timeFrames), ", ")
  }

  /** The Times row is complete for as-needed schedules or when either list
      has an entry. */
  function TimesComplete(s: ScheduleData): (b: bool)
    ensures s.kind == AsNeeded ==> b
    ensures !b <==> s.kind != AsNeeded && |s.specificTimes| + |s.timeFrames| == 0
  {
    s.kind == AsNeeded || |s.specificTimes| > 0 || |s.timeFrames| > 0
  }

  /** In specific-time mode the description has one part per time, each
      converted to the 12-hour clock, in list order. */
  lemma TimeDescriptionListsTimes(s: ScheduleData, frames: seq<(TimeFrameType, string)>, i: nat)
    requires s.kind != AsNeeded && s.timeMode == Specific && i < |s.specificTimes|
    ensures var parts := FormatTimes(s.specificTimes);
      var k := JoinOffset(parts, ", ", i);
      k + |parts[i]| <= |TimeDescription(s, frames)|
      && TimeDescription(s, frames)[k..k + |parts[i]|] == FormatTime(s.specificTimes[i])
  {
    var parts := FormatTimes(s.specificTimes);
    var desc := TimeDescription(s, frames);
    assert desc == Join(parts, ", ");
    JoinContainsPart(parts, ", ", i);
    var k := JoinOffset(parts, ", ", i);
    assert desc[k..k + |parts[i]|] == parts[i];
    FormatTimesAt(s.specificTimes, i);
    assert parts[i] == FormatTime(s.specificTimes[i]);
  }

  /** In time-frame mode the description has one label per frame, in list
      order. */
  lemma TimeDescriptionListsFrames(s: ScheduleData, frames: seq<(TimeFrameType, string)>, i: nat)
    requires s.kind != AsNeeded && s.timeMode == Timeframe && i < |s.timeFrames|
    ensures var parts := FrameLabels(frames, s.timeFrames);
      var k := JoinOffset(parts, ", ", i);
      k + |parts[i]| <= |TimeDescription(s, frames)|
      && TimeDescription(s, frames)[k..k + |parts[i]|] == FrameLabel(frames, s.timeFrames[i].kind)
  {
    var parts := FrameLabels(frames, s.timeFrames);
    var desc := TimeDescription(s, frames);
    assert desc == Join(parts, ", ");
    JoinContainsPart(parts, ", ", i);
    var k := JoinOffset(parts, ", ", i);
    assert desc[k..k + |parts[i]|] == parts[i];
    assert parts[i] == FrameLabel(frames, s.timeFrames[i].kind);
  }

  /** As-needed schedules show "When needed" whatever the times; a non-empty
      description marks the Times row complete, and an incomplete row has an
      empty description. */
  lemma TimesCompleteDescribed(s: ScheduleData, frames: seq<(TimeFrameType, string)>)
    ensures s.kind == AsNeeded ==> TimeDescription(s, frames) == "When needed" && TimesComplete(s)
    ensures TimeDescription(s, frames) != "" ==> TimesComplete(s)
    ensures !TimesComplete(s) ==> TimeDescription(s, frames) == ""
  {
    if s.kind != AsNeeded && TimeDescription(s, frames) != "" {
      if s.timeMode == Specific {
        assert FormatTimes(s.specificTimes) != [];
      } else {
        assert FrameLabels(frames, s.timeFrames) != [];
      }
    }
  }

  /** The flag looks at both lists whatever the mode: in time-frame mode with
      no frame but a leftover specific time the row is marked complete while
      its description is empty. */
  lemma TimesCompleteWithoutDescription(s: ScheduleData, frames: seq<(TimeFrameType, string)>)
    requires s.kind == Everyday && s.timeMode == Timeframe
    requires s.timeFrames == [] && s.specificTimes == ["12:00"]
    ensures TimesComplete(s) && TimeDescription(s, frames) == ""
  {
  }

  /** One row of the summary list. */
  datatype SummaryItem = SummaryItem(title: string, value: string, isComplete: bool)

  /** What an empty row shows. The page means an em dash, but its text is
      stored as the em dash's UTF-8 bytes read back as Windows-1252, so the
      three characters U+00E2, U+20AC and U+201D reach the screen. */
  const EmptyValueMark: string := "\U{00E2}\U{20AC}\U{201D}"

  /** The text a row shows: its value, or the empty-value mark when the value
      is empty. */
  function ShownValue(item: SummaryItem): (r: string)
    ensures r != ""
    ensures item.value != "" ==> r == item.value
    ensures item.value == "" ==> r == EmptyValueMark && |r| == 3
  {
    if item.value == "" then EmptyValueMark else item.value
  }

  /** The strength chips and the Strengths row: value and unit of every
      strength whose trimmed value is not empty, in order. */
  function StrengthChips(strengths: seq<StrengthEntry>): (r: seq<string>)
    ensures r == StrengthLabels(ValidStrengths(strengths))
    ensures |r| <= |strengths|
  {
    StrengthLabels(ValidStrengths(strengths))
  }

  /** The summary list; `formatDate` stands for the date formatting of the
      start and end dates. */
  function Summary(d: ExtendedFormData, frames: seq<(TimeFrameType, string)>, formatDate: string -> string): (r: seq<SummaryItem>)
    ensures |r| == 7 || |r| == 8
    ensures |r| == 8 <==> d.schedule.endDate.Some? && d.schedule.endDate.value != ""
    ensures r[0] == SummaryItem("Name", d.name, d.name != "")
    ensures r[1] == SummaryItem("Form", DisplayForm(d.form, d.customForm), d.form != "")
    ensures r[2] == SummaryItem("Strengths", Join(StrengthChips(d.strengths), ", "), StrengthChips(d.strengths) != [])
    ensures r[3].title == "Dosing" && r[3].isComplete
    ensures r[3].value == if d.dosingType == Fixed then "Fixed dose" else "Flexible dose"
    ensures r[4] == SummaryItem("Schedule", ScheduleDescription(d.schedule), true)
    ensures r[5] == SummaryItem("Times", TimeDescription(d.schedule, frames), TimesComplete(d.schedule))
    ensures r[6].title == "Start date"
    ensures r[6].isComplete <==> d.schedule.startDate != ""
    ensures d.schedule.startDate == "" ==> r[6].value == "Not set"
    ensures d.schedule.startDate != "" ==> r[6].value == formatDate(d.schedule.startDate)
    ensures |r| == 8 ==> r[7] == SummaryItem("End date", formatDate(d.schedule.endDate.value), true)
  {
    var s := d.schedule;
    var chips := StrengthChips(d.strengths);
    var items := [
      SummaryItem("Name", d.name, d.name != ""),
      SummaryItem("Form", DisplayForm(d.form, d.customForm), d.form != ""),
      SummaryItem("Strengths", Join(chips, ", "), |chips| > 0),
      SummaryItem("Dosing", if d.dosingType == Fixed then "Fixed dose" else "Flexible dose", true),
      SummaryItem("Schedule", ScheduleDescription(s), true),
      SummaryItem("Times", TimeDescription(s, frames), TimesComplete(s)),
      SummaryItem("Start date", if s.startDate != "" then formatDate(s.startDate) else "Not set", s.startDate != "")];
    if s.endDate.Some? && s.endDate.value != "" then
      items + [SummaryItem("End date", formatDate(s.endDate.value), true)]
    else items
  }

  /** The Strengths row is complete exactly when some strength has a value
      with a non-whitespace character, which is also when the save transform
      keeps a strength. */
  lemma StrengthsRowComplete(d: ExtendedFormData, frames: seq<(TimeFrameType, string)>, formatDate: string -> string)
    ensures Summary(d, frames, formatDate)[2].isComplete <==> SomeStrengthFilled(d.strengths)
    ensures Summary(d, frames, formatDate)[2].isComplete <==> exists e | e in d.strengths :: !AllWhitespace(e.value)
  {
    SomeStrengthFilledIffValid(d.strengths);
    forall e | e in d.strengths ensures IsBlank(e.value) <==> AllWhitespace(e.value) {
      BlankIffAllWhitespace(e.value);
    }
  }

  /** An incomplete Times row shows the empty-value mark. */
  lemma IncompleteTimesShowDash(d: ExtendedFormData, frames: seq<(TimeFrameType, string)>, formatDate: string -> string)
    requires !TimesComplete(d.schedule)
    ensures ShownValue(Summary(d, frames, formatDate)[5]) == EmptyValueMark
  {
    TimesCompleteDescribed(d.schedule, frames);
  }

  /** The preview card's title: the name, or "Medication Name" when it is empty. */
  function PreviewName(name: string): (r: string)
    ensures r != ""
    ensures name != "" ==> r == name
  {
    if name != "" then name else "Medication Name"
  }
}
