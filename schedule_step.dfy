/** The schedule editor of the extended wizard: single-field updates of the
    schedule record, the specific-times list, the time-frame and weekday
    toggles, the cycle-length inputs and the end-date switch. */
module ScheduleStep {
  import opened Base
  import opened Text
  import opened MedicationTypes

  /** One field of the schedule with its new value (`updateSchedule(key, value)`). */
  datatype ScheduleField =
    | KindField(kind: ScheduleType)
    | SpecificDaysField(specificDays: Option<seq<int>>)
    | CycleOnDaysField(cycleOnDays: Option<int>)
    | CycleOffDaysField(cycleOffDays: Option<int>)
    | TimeModeField(timeMode: TimeMode)
    | SpecificTimesField(specificTimes: seq<string>)
    | TimeFramesField(timeFrames: seq<TimeFrameEntry>)
    | StartDateField(startDate: string)
    | EndDateField(endDate: Option<string>)

  /** `{ ...schedule, [key]: value }`: the named field takes the new value and
      every other field keeps its old one. */
  function UpdateSchedule(s: ScheduleData, f: ScheduleField): (r: ScheduleData)
    ensures r.kind == (if f.KindField? then f.kind else s.kind)
    ensures r.specificDays == (if f.SpecificDaysField? then f.specificDays else s.specificDays)
    ensures r.cycleOnDays == (if f.CycleOnDaysField? then f.cycleOnDays else s.cycleOnDays)
    ensures r.cycleOffDays == (if f.CycleOffDaysField? then f.cycleOffDays else s.cycleOffDays)
    ensures r.timeMode == (if f.TimeModeField? then f.timeMode else s.timeMode)
    ensures r.specificTimes == (if f.SpecificTimesField? then f.specificTimes else s.specificTimes)
    ensures r.timeFrames == (if f.TimeFramesField? then f.timeFrames else s.timeFrames)
    ensures r.startDate == (if f.StartDateField? then f.startDate else s.startDate)
    ensures r.endDate == (if f.EndDateField? then f.endDate else s.endDate)
  {
    match f
    case KindField(v) => s.(kind := v)
    case SpecificDaysField(v) => s.(specificDays := v)
    case CycleOnDaysField(v) => s.(cycleOnDays := v)
    case CycleOffDaysField(v) => s.(cycleOffDays := v)
    case TimeModeField(v) => s.(timeMode := v)
    case SpecificTimesField(v) => s.(specificTimes := v)
    case TimeFramesField(v) => s.(timeFrames := v)
    case StartDateField(v) => s.(startDate := v)
    case EndDateField(v) => s.(endDate := v)
  }

  /** The key a field update writes. */
  function FieldKey(f: ScheduleField): nat {
    match f
    case KindField(_) => 0
    case SpecificDaysField(_) => 1
    case CycleOnDaysField(_) => 2
    case CycleOffDaysField(_) => 3
    case TimeModeField(_) => 4
    case SpecificTimesField(_) => 5
    case TimeFramesField(_) => 6
    case StartDateField(_) => 7
    case EndDateField(_) => 8
  }

  /** Two updates of the same key: the later value wins. Updates of different
      keys commute. Writing a field's current value back changes nothing. */
  lemma UpdateScheduleLaws(s: ScheduleData, f: ScheduleField, g: ScheduleField)
    ensures FieldKey(f) == FieldKey(g) ==> UpdateSchedule(UpdateSchedule(s, f), g) == UpdateSchedule(s, g)
    ensures FieldKey(f) != FieldKey(g) ==>
      UpdateSchedule(UpdateSchedule(s, f), g) == UpdateSchedule(UpdateSchedule(s, g), f)
    ensures UpdateSchedule(s, SpecificTimesField(s.specificTimes)) == s
  {
  }

  // ---------------------------------------------------------------------------
  // Specific times
  // ---------------------------------------------------------------------------

  /** The "Add time" button: one more time, "12:00", at the end. */
  function AddSpecificTime(s: ScheduleData): (r: ScheduleData)
    ensures |r.specificTimes| == |s.specificTimes| + 1
    ensures r.specificTimes[..|s.specificTimes|] == s.specificTimes
    ensures r.specificTimes[|s.specificTimes|] == "12:00"
    ensures r.(specificTimes := s.specificTimes) == s
  {
    UpdateSchedule(s, SpecificTimesField(s.specificTimes + ["12:00"]))
  }

  /** `xs.filter((_, i) => i !== index)`: the entry at `index` dropped, if there
      is one. */
  function RemoveAt<T>(xs: seq<T>, index: int): (r: seq<T>)
    ensures 0 <= index < |xs| ==> |r| == |xs| - 1
    ensures 0 <= index < |xs| ==>
      (forall i :: 0 <= i < |r| ==> r[i] == if i < index then xs[i] else xs[i + 1])
    ensures !(0 <= index < |xs|) ==> r == xs
  {
    if 0 <= index < |xs| then xs[..index] + xs[index + 1..] else xs
  }

  /** The remove button of one time: removes it only when more than one time
      is left, so a non-empty list never becomes empty. */
  function RemoveSpecificTime(s: ScheduleData, index: int): (r: ScheduleData)
    ensures |s.specificTimes| > 1 ==> r == s.(specificTimes := RemoveAt(s.specificTimes, index))
    ensures |s.specificTimes| <= 1 ==> r == s
    ensures |s.specificTimes| >= 1 ==> |r.specificTimes| >= 1
  {
    if |s.specificTimes| > 1 then
      UpdateSchedule(s, SpecificTimesField(RemoveAt(s.specificTimes, index)))
    else s
  }

  /** Editing the time shown at `index`. */
  function UpdateSpecificTime(s: ScheduleData, index: nat, time: string): (r: ScheduleData)
    requires index < |s.specificTimes|
    ensures |r.specificTimes| == |s.specificTimes| && r.specificTimes[index] == time
    ensures forall i :: 0 <= i < |r.specificTimes| && i != index ==>
      r.specificTimes[i] == s.specificTimes[i]
    ensures r.(specificTimes := s.specificTimes) == s
  {
    UpdateSchedule(s, SpecificTimesField(s.specificTimes[index := time]))
  }

  /** The remove button is shown next to each time only when there are at least
      two, which is exactly when removing changes the list. */
  function ShowRemoveTime(s: ScheduleData): (b: bool)
    ensures !b ==> forall index :: RemoveSpecificTime(s, index) == s
  {
    |s.specificTimes| > 1
  }

  lemma ShowRemoveTimeMeaning(s: ScheduleData, index: nat)
    requires index < |s.specificTimes|
    ensures ShowRemoveTime(s) <==> RemoveSpecificTime(s, index) != s
  {
    if ShowRemoveTime(s) {
      assert |RemoveSpecificTime(s, index).specificTimes| < |s.specificTimes|;
    }
  }

  // ---------------------------------------------------------------------------
  // Time frames
  // ---------------------------------------------------------------------------

  /** The time-frame kinds present in a list. */
  function Kinds(frames: seq<TimeFrameEntry>): (r: set<TimeFrameType>)
    ensures forall k :: k in r <==> exists e | e in frames :: e.kind == k
  {
    set e | e in frames :: e.kind
  }

  /** `frames.filter(tf => tf.type !== kind)` */
  function RemoveKind(frames: seq<TimeFrameEntry>, kind: TimeFrameType): (r: seq<TimeFrameEntry>)
    ensures |r| <= |frames|
    ensures forall e :: e in r <==> e in frames && e.kind != kind
  {
    if frames == [] then []
    else if frames[0].kind == kind then RemoveKind(frames[1..], kind)
    else [frames[0]] + RemoveKind(frames[1..], kind)
  }

  /** Filtering distributes over concatenation, so the frames kept stay in
      their order. */
  lemma {:induction false} RemoveKindConcat(xs: seq<TimeFrameEntry>, ys: seq<TimeFrameEntry>, kind: TimeFrameType)
    ensures RemoveKind(xs + ys, kind) == RemoveKind(xs, kind) + RemoveKind(ys, kind)
  {
    if xs == [] {
      assert xs + ys == ys;
    } else {
      assert (xs + ys)[1..] == xs[1..] + ys;
      RemoveKindConcat(xs[1..], ys, kind);
    }
  }

  /** A time-frame button: removes every frame of that kind when one is there,
      else appends one new frame of that kind with a fresh id. */
  function ToggleTimeFrame(s: ScheduleData, kind: TimeFrameType, freshId: string): (r: ScheduleData)
    ensures kind in Kinds(s.timeFrames) ==> r.timeFrames == RemoveKind(s.timeFrames, kind)
    ensures kind !in Kinds(s.timeFrames) ==> r.timeFrames == s.timeFrames + [TimeFrameEntry(freshId, kind)]
    ensures r.(timeFrames := s.timeFrames) == s
  {
    if exists e | e in s.timeFrames :: e.kind == kind then
      UpdateSchedule(s, TimeFramesField(RemoveKind(s.timeFrames, kind)))
    else
      UpdateSchedule(s, TimeFramesField(s.timeFrames + [TimeFrameEntry(freshId, kind)]))
  }

  /** A toggle flips whether the kind is selected and leaves the other kinds
      as they were. */
  lemma ToggleTimeFrameKinds(s: ScheduleData, kind: TimeFrameType, freshId: string)
    ensures var k := Kinds(ToggleTimeFrame(s, kind, freshId).timeFrames);
      (kind in k <==> kind !in Kinds(s.timeFrames))
      && k - {kind} == Kinds(s.timeFrames) - {kind}
  {
    var r := ToggleTimeFrame(s, kind, freshId).timeFrames;
    if kind !in Kinds(s.timeFrames) {
      assert TimeFrameEntry(freshId, kind) in r;
    }
    forall k | k != kind && k in Kinds(s.timeFrames)
      ensures k in Kinds(r)
    {
      var e :| e in s.timeFrames && e.kind == k;
      assert e in r;
    }
  }

  /** Toggling the same kind twice restores the set of selected kinds; when the
      kind was absent the list itself comes back. */
  lemma ToggleTimeFrameTwice(s: ScheduleData, kind: TimeFrameType, id1: string, id2: string)
    ensures Kinds(ToggleTimeFrame(ToggleTimeFrame(s, kind, id1), kind, id2).timeFrames) == Kinds(s.timeFrames)
    ensures kind !in Kinds(s.timeFrames) ==> ToggleTimeFrame(ToggleTimeFrame(s, kind, id1), kind, id2) == s
  {
    var once := ToggleTimeFrame(s, kind, id1);
    ToggleTimeFrameKinds(s, kind, id1);
    ToggleTimeFrameKinds(once, kind, id2);
    if kind !in Kinds(s.timeFrames) {
      RemoveKindAppend(s.timeFrames, kind, TimeFrameEntry(id1, kind));
    }
  }

  /** Removing a kind from a list without it, after appending one frame of that
      kind, gives the list back. */
  lemma {:induction false} RemoveKindAppend(frames: seq<TimeFrameEntry>, kind: TimeFrameType, e: TimeFrameEntry)
    requires kind !in Kinds(frames) && e.kind == kind
    ensures RemoveKind(frames + [e], kind) == frames
  {
    if frames == [] {
      assert frames + [e] == [e];
    } else {
      assert (frames + [e])[1..] == frames[1..] + [e];
      assert frames[0] in frames;
      assert kind !in Kinds(frames[1..]) by {
        forall x | x in frames[1..] ensures x.kind != kind {
          assert x in frames;
        }
      }
      RemoveKindAppend(frames[1..], kind, e);
      assert frames == [frames[0]] + frames[1..];
    }
  }

  // ---------------------------------------------------------------------------
  // Weekdays and Array.prototype.sort
  // ---------------------------------------------------------------------------

  /** The order `sort()` uses without a comparator: elements compared as the
      strings `String(x)`. */
  predicate KeyLeq(a: int, b: int) {
    StringLeq(IntToString(a), IntToString(b))
  }

  /** Adjacent elements in `KeyLeq` order. */
  predicate KeySorted(xs: seq<int>) {
    forall i :: 0 < i < |xs| ==> KeyLeq(xs[i - 1], xs[i])
  }

  /** `x` placed into a sorted list after the elements that are not above it. */
  function InsertByKey(x: int, xs: seq<int>): (r: seq<int>)
    ensures multiset(r) == multiset(xs) + multiset{x}
    ensures |r| == |xs| + 1
    ensures r[0] == x || (xs != [] && r[0] == xs[0])
  {
    if xs == [] || !KeyLeq(xs[0], x) then [x] + xs
    else
      assert xs == [xs[0]] + xs[1..];
      [xs[0]] + InsertByKey(x, xs[1..])
  }

  /** Insertion keeps the list sorted. */
  lemma {:induction false} InsertByKeySorted(x: int, xs: seq<int>)
    requires KeySorted(xs)
    ensures KeySorted(InsertByKey(x, xs))
  {
    if xs != [] && KeyLeq(xs[0], x) {
      InsertByKeySorted(x, xs[1..]);
      var r := InsertByKey(x, xs);
      var tail := InsertByKey(x, xs[1..]);
      assert r == [xs[0]] + tail;
      if |xs| > 1 {
        assert KeyLeq(xs[0], xs[1]);
      }
      assert KeyLeq(r[0], r[1]);
    } else if xs != [] {
      StringLeqTotal(IntToString(xs[0]), IntToString(x));
    }
  }

  /** `xs.sort()` on numbers: insertion sort by `KeyLeq`; as the order is total
      and distinct numbers print differently, it agrees with any stable sort. */
  function SortByKey(xs: seq<int>): (r: seq<int>)
    ensures multiset(r) == multiset(xs)
    ensures |r| == |xs|
  {
    if xs == [] then []
    else
      assert xs == xs[..|xs| - 1] + [xs[|xs| - 1]];
      InsertByKey(xs[|xs| - 1], SortByKey(xs[..|xs| - 1]))
  }

  /** The result of `SortByKey` is sorted in string order. */
  lemma {:induction false} SortByKeySorted(xs: seq<int>)
    ensures KeySorted(SortByKey(xs))
  {
    if xs != [] {
      SortByKeySorted(xs[..|xs| - 1]);
      InsertByKeySorted(xs[|xs| - 1], SortByKey(xs[..|xs| - 1]));
    }
  }

  /** For single digits, string order is numeric order. */
  lemma KeyLeqDigits(a: int, b: int)
    requires 0 <= a <= 9 && 0 <= b <= 9
    ensures KeyLeq(a, b) <==> a <= b
  {
    var ca, cb := DigitChar(a), DigitChar(b);
    assert IntToString(a) == [ca] && IntToString(b) == [cb];
    assert [ca][1..] == [] && [cb][1..] == [];
    assert ca as int == '0' as int + a && cb as int == '0' as int + b;
    assert StringLeq([ca], [cb]) <==> ca <= cb;
  }

  /** Strictly increasing, hence also free of duplicates. */
  predicate Increasing(xs: seq<int>) {
    forall i, j :: 0 <= i < j < |xs| ==> xs[i] < xs[j]
  }

  /** Every entry is a weekday number, Sunday 0 to Saturday 6. */
  predicate AllWeekdays(xs: seq<int>) {
    forall i :: 0 <= i < |xs| ==> 0 <= xs[i] <= 6
  }

  /** A weekday button: an absent list counts as empty; a present day is
      removed, an absent one appended and the list sorted. */
  function ToggleDay(s: ScheduleData, day: int): (r: ScheduleData)
    ensures r.specificDays.Some?
    ensures var current := if s.specificDays.Some? then s.specificDays.value else [];
      && (day in current ==> r.specificDays.value == RemoveAll(current, day))
      && (day !in current ==> r.specificDays.value == SortByKey(current + [day]))
    ensures r.(specificDays := s.specificDays) == s
  {
    var current := if s.specificDays.Some? then s.specificDays.value else [];
    if day in current then UpdateSchedule(s, SpecificDaysField(Some(RemoveAll(current, day))))
    else UpdateSchedule(s, SpecificDaysField(Some(SortByKey(current + [day]))))
  }

  /** Filtering keeps an increasing list increasing. */
  lemma {:induction false} RemoveAllIncreasing(xs: seq<int>, x: int)
    requires Increasing(xs)
    ensures Increasing(RemoveAll(xs, x))
  {
    if xs != [] {
      RemoveAllIncreasing(xs[1..], x);
      var tail := RemoveAll(xs[1..], x);
      if xs[0] != x {
        forall j | 0 <= j < |tail| ensures xs[0] < tail[j] {
          assert tail[j] in tail;
          var k :| 0 <= k < |xs[1..]| && xs[1..][k] == tail[j];
          assert xs[k + 1] == tail[j];
        }
      }
    }
  }

  /** No value occurs twice: entries at different positions differ. */
  predicate Distinct(xs: seq<int>) {
    forall i, j :: 0 <= i < j < |xs| ==> xs[i] != xs[j]
  }

  /** A list whose every value occurs once has no two equal entries. */
  lemma CountsOneDistinct(xs: seq<int>)
    requires forall x | x in multiset(xs) :: multiset(xs)[x] == 1
    ensures Distinct(xs)
  {
    forall i, j | 0 <= i < j < |xs| ensures xs[i] != xs[j] {
      EqualEntriesCountTwice(xs, i, j);
      assert xs[i] in multiset(xs);
    }
  }

  /** Two equal entries at different positions make their value occur at
      least twice. */
  lemma EqualEntriesCountTwice(xs: seq<int>, i: nat, j: nat)
    requires i < j < |xs|
    ensures xs[i] == xs[j] ==> multiset(xs)[xs[i]] >= 2
  {
    assert xs == xs[..j] + xs[j..];
    assert multiset(xs) == multiset(xs[..j]) + multiset(xs[j..]);
    assert xs[..j][i] == xs[i] && xs[j..][0] == xs[j];
    assert xs[i] in multiset(xs[..j]) && xs[j] in multiset(xs[j..]);
  }

  /** A list of weekdays sorted in string order with no repeated entry is
      increasing. */
  lemma {:induction false} SortedDistinctWeekdaysIncreasing(xs: seq<int>)
    requires AllWeekdays(xs) && KeySorted(xs) && Distinct(xs)
    ensures Increasing(xs)
  {
    if |xs| >= 2 {
      var tail := xs[1..];
      assert AllWeekdays(tail) && KeySorted(tail) && Distinct(tail);
      SortedDistinctWeekdaysIncreasing(tail);
      KeyLeqDigits(xs[0], xs[1]);
      assert xs[0] < xs[1];
      forall i, j | 0 <= i < j < |xs| ensures xs[i] < xs[j] {
        if i > 0 {
          assert xs[i] == tail[i - 1] && xs[j] == tail[j - 1];
        } else if j > 1 {
          assert xs[1] == tail[0] && xs[j] == tail[j - 1];
        }
      }
    }
  }

  /** Toggling a weekday keeps an increasing list of weekdays increasing, and it
      flips exactly that day's membership. */
  lemma ToggleDayKeepsIncreasing(s: ScheduleData, day: int)
    requires 0 <= day <= 6
    requires s.specificDays.Some? ==> AllWeekdays(s.specificDays.value) && Increasing(s.specificDays.value)
    ensures var days := ToggleDay(s, day).specificDays.value;
      AllWeekdays(days) && Increasing(days)
    ensures var current := if s.specificDays.Some? then s.specificDays.value else [];
      var days := ToggleDay(s, day).specificDays.value;
      forall d :: d in days <==> (d in current <==> d != day)
  {
    var current := if s.specificDays.Some? then s.specificDays.value else [];
    var days := ToggleDay(s, day).specificDays.value;
    if day in current {
      RemoveAllIncreasing(current, day);
      forall i | 0 <= i < |days| ensures 0 <= days[i] <= 6 {
        assert days[i] in days;
        assert days[i] in current;
      }
    } else {
      var added := current + [day];
      SortByKeySorted(added);
      assert multiset(days) == multiset(added);
      forall i | 0 <= i < |days| ensures 0 <= days[i] <= 6 {
        assert days[i] in multiset(days);
        assert days[i] in added;
      }
      forall x | x in multiset(added) ensures multiset(added)[x] == 1 {
        assert multiset(added) == multiset(current) + multiset{day};
        IncreasingCountsOne(current, x);
      }
      assert multiset(days) == multiset(added);
      CountsOneDistinct(days);
      SortedDistinctWeekdaysIncreasing(days);
      forall d ensures d in days <==> d in added {
        assert d in days <==> d in multiset(days);
      }
    }
  }

  /** In an increasing list every element occurs once. */
  lemma {:induction false} IncreasingCountsOne(xs: seq<int>, x: int)
    requires Increasing(xs)
    ensures multiset(xs)[x] <= 1
  {
    if xs != [] {
      var tail := xs[1..];
      assert xs == [xs[0]] + tail;
      assert Increasing(tail);
      IncreasingCountsOne(tail, x);
      if x == xs[0] {
        assert x !in tail by {
          forall k | 0 <= k < |tail| ensures tail[k] != x {
            assert xs[0] < xs[k + 1];
          }
        }
      }
    }
  }

  // ---------------------------------------------------------------------------
  // Cycle lengths
  // ---------------------------------------------------------------------------

  /** `parseInt(text) || 1`: what the days-on and days-off inputs store; a text
      that is not a number, or reads as 0, becomes 1. */
  function CycleDaysInput(text: string): (r: int)
    ensures r != 0
    ensures ParseInt(text).None? || ParseInt(text) == Some(0) ==> r == 1
    ensures ParseInt(text).Some? && ParseInt(text).value != 0 ==> r == ParseInt(text).value
  {
    match ParseInt(text)
    case None => 1
    case Some(v) => if v == 0 then 1 else v
  }

  /** `schedule.cycleOnDays || 1`: what the input shows; absent or 0 shows 1. */
  function CycleDaysShown(v: Option<int>): (r: int)
    ensures r != 0
    ensures v.Some? && v.value != 0 ==> r == v.value
  {
    if v.None? || v.value == 0 then 1 else v.value
  }

  /** Typing a positive number stores it, and the input then shows what was
      typed. */
  lemma CycleDaysRoundTrip(n: nat)
    requires n > 0
    ensures CycleDaysInput(NatToString(n)) == n
    ensures CycleDaysShown(Some(CycleDaysInput(NatToString(n)))) == n
  {
    ParseIntOfNatToString(n);
  }

  /** Whatever is typed, the stored value is shown as it is. */
  lemma CycleDaysShownStored(text: string)
    ensures CycleDaysShown(Some(CycleDaysInput(text))) == CycleDaysInput(text)
  {
  }

  /** The days-on input. */
  function SetCycleOnDays(s: ScheduleData, text: string): (r: ScheduleData)
    ensures r == s.(cycleOnDays := Some(CycleDaysInput(text)))
  {
    UpdateSchedule(s, CycleOnDaysField(Some(CycleDaysInput(text))))
  }

  /** The days-off input. */
  function SetCycleOffDays(s: ScheduleData, text: string): (r: ScheduleData)
    ensures r == s.(cycleOffDays := Some(CycleDaysInput(text)))
  {
    UpdateSchedule(s, CycleOffDaysField(Some(CycleDaysInput(text))))
  }

  // ---------------------------------------------------------------------------
  // End date
  // ---------------------------------------------------------------------------

  /** The editor's local `showEndDate` flag next to the schedule it edits. */
  class EndDateSection {
    var showEndDate: bool
    var schedule: ScheduleData

    /** A hidden end-date section means there is no end date. */
    ghost predicate Valid()
      reads this
    {
      !showEndDate ==> schedule.endDate.None?
    }

    /** The section starts open exactly when the schedule has an end date. */
    constructor (schedule: ScheduleData)
      ensures Valid()
      ensures this.schedule == schedule && (showEndDate <==> schedule.endDate.Some?)
    {
      this.schedule := schedule;
      showEndDate := schedule.endDate.Some?;
    }

    /** "Set end date" / "No end date": flips the flag; hiding clears the end
        date, showing changes nothing else. */
    method Toggle()
      requires Valid()
      modifies this
      ensures Valid()
      ensures showEndDate == !old(showEndDate)
      ensures old(showEndDate) ==> schedule == UpdateSchedule(old(schedule), EndDateField(None))
      ensures !old(showEndDate) ==> schedule == old(schedule)
    {
      var wasShown := showEndDate;
      showEndDate := !showEndDate;
      if wasShown {
        schedule := UpdateSchedule(schedule, EndDateField(None));
      }
    }

    /** A pick in the end-date calendar, shown only while the section is open;
        the already formatted date, or nothing when the pick is cleared. */
    method PickEndDate(date: Option<string>)
      requires Valid() && showEndDate
      modifies this
      ensures Valid()
      ensures showEndDate && schedule == UpdateSchedule(old(schedule), EndDateField(date))
    {
      schedule := UpdateSchedule(schedule, EndDateField(date));
    }
  }
}
