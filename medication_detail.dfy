/** The medication detail page: the stock and dosing wording, the adherence
    percentage with its colour band, and the list of recent intake logs. */
module MedicationDetail {
  import opened Base
  import opened Text
  import opened MedicationTypes

  /** One entry of the intake history. */
  datatype IntakeLog = IntakeLog(id: string, date: string, time: string, status: IntakeStatus)

  /** How many logs say the dose was taken. */
  function TakenLogs(logs: seq<IntakeLog>): (n: nat)
    ensures n <= |logs|
    ensures n == |logs| <==> forall l | l in logs :: l.status == Taken
    ensures n == 0 <==> forall l | l in logs :: l.status != Taken
  {
    if logs == [] then 0
    else
      var rest := TakenLogs(logs[1..]);
      assert logs == [logs[0]] + logs[1..];
      (if logs[0].status == Taken then 1 else 0) + rest
  }

  /** The count adds up over the parts of a list; with the one-log case of
      its contract this fixes it as the number of taken logs. */
  lemma {:induction false} TakenLogsAppend(xs: seq<IntakeLog>, ys: seq<IntakeLog>)
    ensures TakenLogs(xs + ys) == TakenLogs(xs) + TakenLogs(ys)
  {
    if xs == [] {
      assert xs + ys == ys;
    } else {
      assert (xs + ys)[1..] == xs[1..] + ys;
      TakenLogsAppend(xs[1..], ys);
    }
  }

  /** `Math.round(taken / total * 100)` on exact fractions: the nearest whole
      percentage, halves rounded up; no value for an empty log list, where the
      division has none. */
  function AdherenceRate(logs: seq<IntakeLog>): (r: Option<int>)
    ensures r.None? <==> logs == []
    ensures logs != [] ==> r.value == RoundedPercent(TakenLogs(logs), |logs|)
  {
    if logs == [] then None
    else Some(RoundedPercent(TakenLogs(logs), |logs|))
  }

  /** `Math.round(100 * part / whole)` for a whole above zero. */
  function RoundedPercent(part: nat, whole: nat): (r: nat)
    requires whole > 0
    ensures part == 0 ==> r == 0
  {
    (200 * part + whole) / (2 * whole)
  }

  /** A positive multiple of a positive number is at least that number. */
  lemma {:induction false} MultipleAtLeast(k: int, d: int)
    requires k >= 1 && d > 0
    ensures k * d >= d
  {
    if k > 1 {
      MultipleAtLeast(k - 1, d);
      assert k * d == (k - 1) * d + d;
    }
  }

  /** Division by a positive divisor is fixed by its quotient and remainder. */
  lemma DivideExactly(n: int, d: int, q: int, m: int)
    requires d > 0 && 0 <= m < d && n == q * d + m
    ensures n / d == q
  {
    var q' := n / d;
    var m' := n % d;
    assert n == q' * d + m';
    assert (q - q') * d == m' - m;
    assert (q' - q) * d == m - m';
    if q' < q {
      MultipleAtLeast(q - q', d);
    } else if q' > q {
      MultipleAtLeast(q' - q, d);
    }
  }

  /** The rounded percentage is within half a point of `100 * part / whole`,
      a tie going up. */
  lemma RoundedPercentNearest(part: nat, whole: nat)
    requires whole > 0
    ensures 200 * part - whole < 2 * whole * RoundedPercent(part, whole) <= 200 * part + whole
  {
    var d := 2 * whole;
    var n := 200 * part + whole;
    var q := n / d;
    var m := n % d;
    assert n == q * d + m && 0 <= m < d;
    assert q * d == 2 * whole * q;
  }

  /** A part no larger than the whole gives a percentage from 0 to 100. */
  lemma RoundedPercentRange(part: nat, whole: nat)
    requires 0 < whole && part <= whole
    ensures RoundedPercent(part, whole) <= 100
  {
    var q := RoundedPercent(part, whole);
    RoundedPercentNearest(part, whole);
    if q > 100 {
      MultipleAtLeast(q - 100, 2 * whole);
    }
  }

  /** The whole gives 100 and nothing gives 0. */
  lemma RoundedPercentExtremes(whole: nat)
    requires whole > 0
    ensures RoundedPercent(whole, whole) == 100
    ensures RoundedPercent(0, whole) == 0
  {
    DivideExactly(200 * whole + whole, 2 * whole, 100, whole);
    DivideExactly(whole, 2 * whole, 0, whole);
  }

  /** The adherence rate is the nearest percentage of taken doses, between 0
      and 100: 100 when every dose was taken, 0 when none was. */
  lemma AdherenceRateMeaning(logs: seq<IntakeLog>)
    requires logs != []
    ensures var r := AdherenceRate(logs).value;
      && 0 <= r <= 100
      && 200 * TakenLogs(logs) - |logs| < 2 * |logs| * r <= 200 * TakenLogs(logs) + |logs|
      && ((forall l | l in logs :: l.status == Taken) ==> r == 100)
      && ((forall l | l in logs :: l.status != Taken) ==> r == 0)
  {
    RoundedPercentNearest(TakenLogs(logs), |logs|);
    RoundedPercentRange(TakenLogs(logs), |logs|);
    RoundedPercentExtremes(|logs|);
  }

  /** The sample history: four of five doses taken gives 80. */
  lemma AdherenceRateSample(a: IntakeLog, b: IntakeLog, c: IntakeLog, d: IntakeLog, e: IntakeLog)
    requires a.status == Taken && b.status == Taken && c.status == Skipped && d.status == Taken && e.status == Taken
    ensures AdherenceRate([a, b, c, d, e]) == Some(80)
  {
    assert [e][1..] == [];
    assert TakenLogs([e]) == 1;
    assert [d, e][1..] == [e];
    assert TakenLogs([d, e]) == 2;
    assert [c, d, e][1..] == [d, e];
    assert TakenLogs([c, d, e]) == 2;
    assert [b, c, d, e][1..] == [c, d, e];
    assert TakenLogs([b, c, d, e]) == 3;
    assert [a, b, c, d, e][1..] == [b, c, d, e];
    assert TakenLogs([a, b, c, d, e]) == 4;
    DivideExactly(805, 10, 80, 5);
  }

  /** The colour band of the adherence badge. */
  datatype Band = Good | Warning | Destructive

  /** 80 and above is good, 50 and above a warning, anything else (and a
      missing rate, which compares false) destructive. */
  function AdherenceBand(rate: Option<int>): (b: Band)
    ensures b == Good <==> rate.Some? && rate.value >= 80
    ensures b == Warning <==> rate.Some? && 50 <= rate.value < 80
  {
    if rate.Some? && rate.value >= 80 then Good
    else if rate.Some? && rate.value >= 50 then Warning
    else Destructive
  }

  /** The band only improves as more doses are taken out of the same total. */
  lemma AdherenceBandMonotone(r1: int, r2: int)
    requires r1 <= r2
    ensures AdherenceBand(Some(r1)) == Good ==> AdherenceBand(Some(r2)) == Good
    ensures AdherenceBand(Some(r2)) == Destructive ==> AdherenceBand(Some(r1)) == Destructive
  {
  }

  /** `form.toLowerCase().includes("tablet")` */
  predicate IsTabletForm(form: string): (b: bool)
    ensures b ==> |form| >= 6
    ensures form == "Tablet" ==> b
  {
    Contains(ToLower(form), "tablet")
  }

  /** The word after the stock total. */
  function StockUnitWord(form: string): (r: string)
    ensures r == "tablets" <==> IsTabletForm(form)
    ensures r == "units" <==> !IsTabletForm(form)
  {
    if IsTabletForm(form) then "tablets" else "units"
  }

  /** The word after the dose quantity. */
  function DoseUnitWord(form: string): (r: string)
    ensures r == "tablet" <==> IsTabletForm(form)
    ensures r == "dose" <==> !IsTabletForm(form)
  {
    if IsTabletForm(form) then "tablet" else "dose"
  }

  /** Both words agree: the stock word is the plural of the dose word for
      tablets, and "units" goes with "dose" for everything else. */
  lemma UnitWordsAgree(form: string)
    ensures StockUnitWord(form) == DoseUnitWord(form) + "s" <==> IsTabletForm(form)
  {
    if !IsTabletForm(form) {
      assert StockUnitWord(form)[0] != (DoseUnitWord(form) + "s")[0];
    }
  }

  /** Upper-case letters make no difference: a form is a tablet form exactly
      when its lower-cased text is. */
  lemma TabletFormIgnoresCase(form: string)
    ensures IsTabletForm(form) <==> IsTabletForm(ToLower(form))
  {
    var lower := ToLower(form);
    assert ToLower(lower) == lower by {
      forall i | 0 <= i < |lower| ensures ToLower(lower)[i] == lower[i] {
      }
    }
  }

  /** The dosing row's label. */
  function DosingLabel(t: DosingType): (r: string)
    ensures t == Fixed <==> r == "Fixed dose"
    ensures t == Flexible <==> r == "Flexible dosing"
  {
    match t
    case Fixed => "Fixed dose"
    case Flexible => assert |"Flexible dosing"| != |"Fixed dose"|; "Flexible dosing"
  }

  /** The wire name of a schedule type. */
  function ScheduleTypeName(t: ScheduleType): (r: string)
    ensures r != ""
    ensures '_' in r <==> t == SpecificDays || t == AsNeeded
  {
    match t
    case Everyday => "everyday"
    case SpecificDays => "specific_days"
    case Cyclical => "cyclical"
    case AsNeeded => "as_needed"
  }

  /** `s.replace(c, d)` with a one-character pattern: only the first
      occurrence is replaced. */
  function ReplaceFirst(s: string, c: char, d: char): (r: string)
    ensures |r| == |s|
    ensures c !in s ==> r == s
    ensures c in s ==> exists i | 0 <= i < |s| :: s[i] == c && c !in s[..i] && r == s[..i] + [d] + s[i + 1..]
  {
    match IndexOf(s, c)
    case None => s
    case Some(i) => s[..i] + [d] + s[i + 1..]
  }

  /** The schedule-type line: the wire name with its first underscore shown
      as a space. */
  function ScheduleTypeLabel(t: ScheduleType): (r: string)
    ensures |r| == |ScheduleTypeName(t)|
  {
    ReplaceFirst(ScheduleTypeName(t), '_', ' ')
  }

  /** Every wire name has at most one underscore, so every label reads as
      plain words. */
  lemma ScheduleTypeLabels()
    ensures ScheduleTypeLabel(Everyday) == "everyday"
    ensures ScheduleTypeLabel(SpecificDays) == "specific days"
    ensures ScheduleTypeLabel(Cyclical) == "cyclical"
    ensures ScheduleTypeLabel(AsNeeded) == "as needed"
  {
    ReplaceUnderscore("specific", "days");
    ReplaceUnderscore("as", "needed");
    WireNamePieces();
  }

  lemma WireNamePieces()
    ensures "specific" + "_" + "days" == "specific_days" && "specific" + " " + "days" == "specific days"
    ensures "as" + "_" + "needed" == "as_needed" && "as" + " " + "needed" == "as needed"
    ensures '_' !in "everyday" && '_' !in "cyclical"
    ensures '_' !in "specific" && '_' !in "days" && '_' !in "as" && '_' !in "needed"
  {
  }

  /** Two words joined by one underscore come out joined by a space. */
  lemma ReplaceUnderscore(a: string, b: string)
    requires '_' !in a && '_' !in b
    ensures ReplaceFirst(a + "_" + b, '_', ' ') == a + " " + b
  {
    var s := a + "_" + b;
    assert s == a + ['_'] + b;
    IndexOfAfter(a, b, '_');
    assert s[..|a|] == a && s[|a| + 1..] == b;
  }

  /** The log list shows the first five logs, in order: all of them when
      there are at most five, else exactly five. */
  function RecentLogs(logs: seq<IntakeLog>): (r: seq<IntakeLog>)
    ensures |r| == if |logs| <= 5 then |logs| else 5
    ensures r == logs[..|r|]
    ensures |logs| <= 5 ==> r == logs
  {
    if |logs| <= 5 then logs else logs[..5]
  }

  /** A log's label: "Taken" for a taken dose; every other status, a missed
      one included, reads "Skipped". */
  function StatusLabel(s: IntakeStatus): (r: string)
    ensures r == "Taken" <==> s == Taken
    ensures r == "Skipped" <==> s != Taken
  {
    if s == Taken then "Taken" else "Skipped"
  }
}
