/** The history screen's filter bar: a medication filter and a time-of-day
    filter, each a list of chosen options toggled one at a time, and the
    Clear button that shows while either list is non-empty. */
module HistoryFilters {
  import opened Base

  /** The time-of-day options, in the order they are listed. */
  const TimeOfDayOptions: seq<string> := ["Morning", "Afternoon", "Evening", "Night"]

  /** The two filter lists the bar receives and reports changes to. */
  datatype Filters = Filters(selectedMedications: seq<string>, selectedTimeOfDay: seq<string>)

  /** A click on a medication option. */
  function ToggleMedication(f: Filters, med: string): (r: Filters)
    ensures r.selectedTimeOfDay == f.selectedTimeOfDay
    ensures med in r.selectedMedications <==> med !in f.selectedMedications
    ensures forall m :: m != med ==> (m in r.selectedMedications <==> m in f.selectedMedications)
    ensures med in f.selectedMedications ==> |r.selectedMedications| < |f.selectedMedications|
    ensures med !in f.selectedMedications ==> r.selectedMedications == f.selectedMedications + [med]
  {
    f.(selectedMedications := Toggle(f.selectedMedications, med))
  }

  /** A click on a time-of-day option. */
  function ToggleTimeOfDay(f: Filters, time: string): (r: Filters)
    ensures r.selectedMedications == f.selectedMedications
    ensures time in r.selectedTimeOfDay <==> time !in f.selectedTimeOfDay
    ensures forall t :: t != time ==> (t in r.selectedTimeOfDay <==> t in f.selectedTimeOfDay)
    ensures time in f.selectedTimeOfDay ==> |r.selectedTimeOfDay| < |f.selectedTimeOfDay|
    ensures time !in f.selectedTimeOfDay ==> r.selectedTimeOfDay == f.selectedTimeOfDay + [time]
  {
    f.(selectedTimeOfDay := Toggle(f.selectedTimeOfDay, time))
  }

  /** `hasActiveFilters`, which also decides whether Clear is shown. */
  function HasActiveFilters(f: Filters): (b: bool)
    ensures b <==> f != Filters([], [])
  {
    |f.selectedMedications| > 0 || |f.selectedTimeOfDay| > 0
  }

  /** Two clicks on an option that was not chosen give the filters back; on
      one that was chosen, the same options stay chosen. */
  lemma ToggleTwice(f: Filters, med: string, time: string)
    ensures med !in f.selectedMedications ==> ToggleMedication(ToggleMedication(f, med), med) == f
    ensures forall m :: m in ToggleMedication(ToggleMedication(f, med), med).selectedMedications <==> m in f.selectedMedications
    ensures time !in f.selectedTimeOfDay ==> ToggleTimeOfDay(ToggleTimeOfDay(f, time), time) == f
    ensures forall t :: t in ToggleTimeOfDay(ToggleTimeOfDay(f, time), time).selectedTimeOfDay <==> t in f.selectedTimeOfDay
  {
    if med in f.selectedMedications {
      ToggleTwicePresent(f.selectedMedications, med);
    } else {
      ToggleTwiceAbsent(f.selectedMedications, med);
    }
    if time in f.selectedTimeOfDay {
      ToggleTwicePresent(f.selectedTimeOfDay, time);
    } else {
      ToggleTwiceAbsent(f.selectedTimeOfDay, time);
    }
  }

  /** The two toggles touch different lists, so they commute. */
  lemma TogglesCommute(f: Filters, med: string, time: string)
    ensures ToggleTimeOfDay(ToggleMedication(f, med), time) == ToggleMedication(ToggleTimeOfDay(f, time), med)
  {
  }

  /** Choosing an option always leaves a filter active; Clear is then shown. */
  lemma ChoosingActivates(f: Filters, med: string, time: string)
    ensures med !in f.selectedMedications ==> HasActiveFilters(ToggleMedication(f, med))
    ensures time !in f.selectedTimeOfDay ==> HasActiveFilters(ToggleTimeOfDay(f, time))
  {
  }
}
