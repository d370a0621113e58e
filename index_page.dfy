/** The daily checklist page: medicines grouped by time of day, a dosage
    choice per medicine, the Log button that marks every chosen medicine as
    taken, the progress counts, the greeting and the all-done banner. */
module IndexPage {
  import opened Base

  datatype TimeOfDay = Morning | Afternoon | Evening

  /** A medicine on today's list; `selectedDosage` is absent until a dosage
      chip is chosen. */
  datatype Medicine = Medicine(
    id: string,
    name: string,
    dosages: seq<string>,
    selectedDosage: Option<string>,
    isTaken: bool,
    color: Option<string>,
    timeOfDay: TimeOfDay)

  /** `med.selectedDosage` is truthy: present and not the empty string. */
  predicate HasSelection(m: Medicine): (b: bool)
    ensures m.selectedDosage == Some("") ==> !b
    ensures m.selectedDosage.None? ==> !b
  {
    m.selectedDosage.Some? && m.selectedDosage.value != ""
  }

  /** Chosen but not yet logged. */
  predicate IsPending(m: Medicine): (b: bool)
    ensures b <==> LogOne(m) != m
  {
    HasSelection(m) && !m.isTaken
  }

  // ---------------------------------------------------------------------------
  // The two list updates
  // ---------------------------------------------------------------------------

  /** A click on a dosage chip of one medicine: the same dosage again clears
      the choice, any other dosage replaces it. */
  function SelectDosageOf(m: Medicine, dosage: string): (r: Medicine)
    ensures r.selectedDosage == Some(dosage) <==> m.selectedDosage != Some(dosage)
    ensures r.selectedDosage != Some(dosage) ==> r.selectedDosage.None?
    ensures r.(selectedDosage := m.selectedDosage) == m
  {
    if m.selectedDosage == Some(dosage) then m.(selectedDosage := None) else m.(selectedDosage := Some(dosage))
  }

  /** `handleSelectDosage` on the whole list. */
  function SelectDosage(meds: seq<Medicine>, medicineId: string, dosage: string): (r: seq<Medicine>)
    ensures |r| == |meds|
    ensures forall i :: 0 <= i < |meds| && meds[i].id != medicineId ==> r[i] == meds[i]
    ensures forall i :: 0 <= i < |meds| && meds[i].id == medicineId ==> r[i] == SelectDosageOf(meds[i], dosage)
  {
    if meds == [] then []
    else
      [if meds[0].id == medicineId then SelectDosageOf(meds[0], dosage) else meds[0]]
      + SelectDosage(meds[1..], medicineId, dosage)
  }

  /** Every medicine with that id has no choice or has chosen that dosage. */
  predicate NoOtherChoice(meds: seq<Medicine>, medicineId: string, dosage: string) {
    forall i :: 0 <= i < |meds| && meds[i].id == medicineId ==>
      meds[i].selectedDosage.None? || meds[i].selectedDosage == Some(dosage)
  }

  /** Two clicks on the same chip give the list back, as long as the medicine
      had no other dosage chosen; every taken flag and every other medicine
      stays as it was after one click. */
  lemma SelectDosageTwice(meds: seq<Medicine>, medicineId: string, dosage: string)
    requires NoOtherChoice(meds, medicineId, dosage)
    ensures SelectDosage(SelectDosage(meds, medicineId, dosage), medicineId, dosage) == meds
  {
    var once := SelectDosage(meds, medicineId, dosage);
    var twice := SelectDosage(once, medicineId, dosage);
    forall i | 0 <= i < |meds| ensures twice[i] == meds[i] {
      if meds[i].id == medicineId {
        assert once[i] == SelectDosageOf(meds[i], dosage);
      }
    }
  }

  /** One medicine after the Log button. */
  function LogOne(m: Medicine): (r: Medicine)
    ensures r.isTaken <==> m.isTaken || HasSelection(m)
    ensures r.(isTaken := m.isTaken) == m
  {
    if HasSelection(m) && !m.isTaken then m.(isTaken := true) else m
  }

  /** `handleLogTaken`: every pending medicine becomes taken, in place. */
  function LogTaken(meds: seq<Medicine>): (r: seq<Medicine>)
    ensures |r| == |meds|
    ensures forall i :: 0 <= i < |meds| ==> r[i] == LogOne(meds[i])
  {
    if meds == [] then [] else [LogOne(meds[0])] + LogTaken(meds[1..])
  }

  // ---------------------------------------------------------------------------
  // Derived lists and counts
  // ---------------------------------------------------------------------------

  /** `selectedMedicines`: the pending medicines, in order. */
  function Pending(meds: seq<Medicine>): (r: seq<Medicine>)
    ensures |r| <= |meds|
    ensures forall m :: m in r <==> m in meds && IsPending(m)
  {
    if meds == [] then []
    else if IsPending(meds[0]) then [meds[0]] + Pending(meds[1..])
    else Pending(meds[1..])
  }

  /** Filtering distributes over concatenation, so the pending medicines stay
      in list order and the Log button's number is the sum over the parts. */
  lemma {:induction false} PendingAppend(xs: seq<Medicine>, ys: seq<Medicine>)
    ensures Pending(xs + ys) == Pending(xs) + Pending(ys)
    ensures |Pending(xs + ys)| == |Pending(xs)| + |Pending(ys)|
  {
    if xs == [] {
      assert xs + ys == ys;
    } else {
      assert (xs + ys)[1..] == xs[1..] + ys;
      PendingAppend(xs[1..], ys);
    }
  }

  /** `takenCount` */
  function TakenCount(meds: seq<Medicine>): (n: nat)
    ensures n <= |meds|
    ensures n == |meds| <==> forall m | m in meds :: m.isTaken
  {
    if meds == [] then 0
    else
      var rest := TakenCount(meds[1..]);
      assert forall m | m in meds[1..] :: m in meds;
      assert !meds[0].isTaken ==> rest < |meds[1..]| + 1;
      assert (forall m | m in meds :: m.isTaken) <==> meds[0].isTaken && forall m | m in meds[1..] :: m.isTaken by {
        assert meds == [meds[0]] + meds[1..];
      }
      (if meds[0].isTaken then 1 else 0) + rest
  }

  /** The taken count adds up over the parts of a list; with the one-medicine
      case of its contract this fixes it as the number of taken medicines. */
  lemma {:induction false} TakenCountAppend(xs: seq<Medicine>, ys: seq<Medicine>)
    ensures TakenCount(xs + ys) == TakenCount(xs) + TakenCount(ys)
  {
    if xs == [] {
      assert xs + ys == ys;
    } else {
      assert (xs + ys)[1..] == xs[1..] + ys;
      TakenCountAppend(xs[1..], ys);
    }
  }

  /** `getMedicinesByTime` */
  function ByTime(meds: seq<Medicine>, t: TimeOfDay): (r: seq<Medicine>)
    ensures |r| <= |meds|
    ensures forall m :: m in r <==> m in meds && m.timeOfDay == t
  {
    if meds == [] then []
    else if meds[0].timeOfDay == t then [meds[0]] + ByTime(meds[1..], t)
    else ByTime(meds[1..], t)
  }

  /** Filtering distributes over concatenation, so each section lists its
      medicines in list order. */
  lemma {:induction false} ByTimeAppend(xs: seq<Medicine>, ys: seq<Medicine>, t: TimeOfDay)
    ensures ByTime(xs + ys, t) == ByTime(xs, t) + ByTime(ys, t)
  {
    if xs == [] {
      assert xs + ys == ys;
    } else {
      assert (xs + ys)[1..] == xs[1..] + ys;
      ByTimeAppend(xs[1..], ys, t);
    }
  }

  /** `getTakenCountByTime`: the taken medicines of one time of day. */
  function TakenCountByTime(meds: seq<Medicine>, t: TimeOfDay): (n: nat)
    ensures n <= TakenCount(meds)
  {
    if meds == [] then 0
    else (if meds[0].timeOfDay == t && meds[0].isTaken then 1 else 0) + TakenCountByTime(meds[1..], t)
  }

  /** A section's taken count is the taken count of its own list, so it never
      exceeds the section's size. */
  lemma {:induction false} TakenCountByTimeOfSection(meds: seq<Medicine>, t: TimeOfDay)
    ensures TakenCountByTime(meds, t) == TakenCount(ByTime(meds, t))
    ensures TakenCountByTime(meds, t) <= |ByTime(meds, t)|
  {
    if meds != [] {
      TakenCountByTimeOfSection(meds[1..], t);
      if meds[0].timeOfDay == t {
        assert ByTime(meds, t)[1..] == ByTime(meds[1..], t);
      }
    }
  }

  /** The three sections split the list: their sizes add up to the whole and
      their taken counts to the overall taken count. */
  lemma {:induction false} SectionsPartition(meds: seq<Medicine>)
    ensures |ByTime(meds, Morning)| + |ByTime(meds, Afternoon)| + |ByTime(meds, Evening)| == |meds|
    ensures TakenCountByTime(meds, Morning) + TakenCountByTime(meds, Afternoon) + TakenCountByTime(meds, Evening)
      == TakenCount(meds)
  {
    if meds != [] {
      SectionsPartition(meds[1..]);
    }
  }

  /** Choosing a dosage leaves the taken count alone. */
  lemma {:induction false} SelectDosageKeepsTaken(meds: seq<Medicine>, medicineId: string, dosage: string)
    ensures TakenCount(SelectDosage(meds, medicineId, dosage)) == TakenCount(meds)
  {
    if meds != [] {
      SelectDosageKeepsTaken(meds[1..], medicineId, dosage);
      assert SelectDosage(meds, medicineId, dosage)[1..] == SelectDosage(meds[1..], medicineId, dosage);
    }
  }

  /** Logging adds exactly the pending medicines to the taken count, leaves
      nothing pending, and a second press changes nothing. */
  lemma {:induction false} LogTakenEffect(meds: seq<Medicine>)
    ensures TakenCount(LogTaken(meds)) == TakenCount(meds) + |Pending(meds)|
    ensures Pending(LogTaken(meds)) == []
    ensures LogTaken(LogTaken(meds)) == LogTaken(meds)
  {
    if meds != [] {
      LogTakenEffect(meds[1..]);
      assert LogTaken(meds)[1..] == LogTaken(meds[1..]);
    }
  }

  /** The all-done banner shows when the taken count equals the number of
      medicines: exactly when every medicine is taken (also on an empty list). */
  function AllDone(meds: seq<Medicine>): (b: bool)
    ensures b <==> forall m | m in meds :: m.isTaken
    ensures meds == [] ==> b
  {
    TakenCount(meds) == |meds|
  }

  /** The Log button shows while something is pending. */
  function LogButtonVisible(meds: seq<Medicine>): (b: bool)
    ensures b <==> exists m | m in meds :: IsPending(m)
  {
    var p := Pending(meds);
    assert forall m | m in meds && IsPending(m) :: m in p;
    assert |p| > 0 ==> p[0] in p;
    |p| > 0
  }

  /** Once every medicine has a dosage chosen, one press of Log brings up the
      all-done banner. */
  lemma LogAllChosenFinishes(meds: seq<Medicine>)
    requires forall m | m in meds :: HasSelection(m)
    ensures AllDone(LogTaken(meds))
  {
    var r := LogTaken(meds);
    forall m | m in r ensures m.isTaken {
      var i :| 0 <= i < |r| && r[i] == m;
      assert meds[i] in meds;
    }
  }

  /** The greeting for the hour of the day (0..23), taken as a parameter. */
  function Greeting(hour: int): (r: string)
    ensures hour < 12 ==> r == "Good Morning"
    ensures 12 <= hour < 17 ==> r == "Good Afternoon"
    ensures hour >= 17 ==> r == "Good Evening"
  {
    if hour < 12 then "Good Morning" else if hour < 17 then "Good Afternoon" else "Good Evening"
  }

  // ---------------------------------------------------------------------------
  // The page state
  // ---------------------------------------------------------------------------

  class Checklist {
    var medicines: seq<Medicine>
    var selectedDate: int

    constructor (initial: seq<Medicine>, date: int)
      ensures medicines == initial && selectedDate == date
    {
      medicines := initial;
      selectedDate := date;
    }

    /** A click on a dosage chip. */
    method SelectDosageClick(medicineId: string, dosage: string)
      modifies this
      ensures medicines == SelectDosage(old(medicines), medicineId, dosage)
      ensures selectedDate == old(selectedDate)
      ensures TakenCount(medicines) == TakenCount(old(medicines))
    {
      SelectDosageKeepsTaken(medicines, medicineId, dosage);
      medicines := SelectDosage(medicines, medicineId, dosage);
    }

    /** The Log button. */
    method LogTakenClick()
      modifies this
      ensures medicines == LogTaken(old(medicines))
      ensures selectedDate == old(selectedDate)
      ensures TakenCount(medicines) == TakenCount(old(medicines)) + |Pending(old(medicines))|
      ensures Pending(medicines) == []
    {
      LogTakenEffect(medicines);
      medicines := LogTaken(medicines);
    }

    /** A click on a day of the week strip. */
    method SelectDate(date: int)
      modifies this
      ensures selectedDate == date && medicines == old(medicines)
    {
      selectedDate := date;
    }
  }
}
