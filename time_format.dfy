/** The 24-hour to 12-hour clock conversion shared by the review summary and
    the medication detail page: "HH:mm" becomes "h:mm AM" or "h:mm PM". */
module TimeFormat {
  import opened Base
  import opened Text

  /** `h % 12` with JavaScript's remainder, which takes the sign of `h`. */
  function JsRem12(h: int): (r: int)
    ensures -12 < r < 12
    ensures h >= 0 ==> r == h % 12
    ensures h < 0 ==> r <= 0 && (0 - r) == (0 - h) % 12
  {
    if h >= 0 then h % 12 else 0 - ((0 - h) % 12)
  }

  /** `hour % 12 || 12`: a zero remainder, or `NaN` for an hour that does not
      parse, shows as 12. */
  function DisplayHour(hour: Option<int>): (r: int)
    ensures r != 0
    ensures hour.Some? && hour.value >= 0 ==> 1 <= r <= 12
    ensures hour.None? ==> r == 12
  {
    match hour
    case None => 12
    case Some(h) => if JsRem12(h) == 0 then 12 else JsRem12(h)
  }

  /** `hour >= 12 ? "PM" : "AM"`; `NaN >= 12` is false. */
  function Meridiem(hour: Option<int>): (r: string)
    ensures r == "PM" <==> hour.Some? && hour.value >= 12
    ensures r == "AM" || r == "PM"
  {
    if hour.Some? && hour.value >= 12 then "PM" else "AM"
  }

  /** The two suffixes, written out. */
  lemma SuffixPieces()
    ensures " " + "PM" == " PM" && " " + "AM" == " AM"
  {
  }

  /** `formatTime`: the text before the first ':' read with `parseInt`, and
      the text between the first ':' and the next one (`split(":")[1]`,
      "undefined" when there is no ':'). */
  function FormatTime(t: string): (r: string)
    ensures |r| >= 3
    ensures r[|r| - 3..] == " AM" || r[|r| - 3..] == " PM"
  {
    var hour := ParseInt(FirstField(t, ':'));
    var minutes := match SecondField(t, ':') case None => "undefined" case Some(m) => m;
    var r := IntToString(DisplayHour(hour)) + ":" + minutes + " " + Meridiem(hour);
    assert r[|r| - 3..] == " " + Meridiem(hour);
    SuffixPieces();
    r
  }

  /** On a clock time written as digits, a ':' and minutes, the hour is shown
      as its remainder modulo 12 (12 for 0 and 12), the minutes are copied,
      and the suffix is PM exactly from hour 12 on. */
  lemma FormatClockTime(hours: string, minutes: string)
    requires hours != [] && AllDigits(hours) && ':' !in minutes
    ensures var h := DecimalValue(hours);
      FormatTime(hours + ":" + minutes)
      == NatToString(if h % 12 == 0 then 12 else h % 12) + ":" + minutes + " " + (if h >= 12 then "PM" else "AM")
  {
    assert ':' !in hours by {
      forall i | 0 <= i < |hours| ensures hours[i] != ':' {
        assert IsDigit(hours[i]);
      }
    }
    assert hours + ":" + minutes == hours + [':'] + minutes;
    SplitFields(hours, minutes, ':');
    ParseIntOfDigits(hours);
  }

  /** The hours of a day in 12-hour form with the suffix tell the hour apart:
      no two hours 0..23 share both. */
  lemma ClockHoursDistinct(h1: int, h2: int)
    requires 0 <= h1 < 24 && 0 <= h2 < 24
    requires DisplayHour(Some(h1)) == DisplayHour(Some(h2))
    requires Meridiem(Some(h1)) == Meridiem(Some(h2))
    ensures h1 == h2
  {
  }

  /** Two digits of a number below 100, with a leading zero when needed. */
  function TwoDigits(n: nat): (r: string)
    requires n < 100
    ensures |r| == 2 && AllDigits(r) && DecimalValue(r) == n
  {
    var r := [DigitChar(n / 10), DigitChar(n % 10)];
    assert r[..1] == [DigitChar(n / 10)] && r[..1][..0] == [];
    assert DigitValue(r[0]) == n / 10 && DigitValue(r[1]) == n % 10;
    assert DecimalValue(r[..1]) == n / 10;
    assert DecimalValue(r) == DecimalValue(r[..1]) * 10 + DigitValue(r[1]);
    r
  }

  /** "HH:mm" for every hour and minute of a day: the conversion gives
      "h:mm AM" or "h:mm PM" with the minutes unchanged. Midnight and noon
      show as 12. */
  lemma FormatDayTime(h: nat, m: nat)
    requires h < 24 && m < 60
    ensures FormatTime(TwoDigits(h) + ":" + TwoDigits(m))
      == NatToString(if h % 12 == 0 then 12 else h % 12) + ":" + TwoDigits(m) + (if h >= 12 then " PM" else " AM")
  {
    var mm := TwoDigits(m);
    assert ':' !in mm by {
      assert IsDigit(mm[0]) && IsDigit(mm[1]);
    }
    FormatClockTime(TwoDigits(h), mm);
  }

  /** Midnight: "00:30" shows as "12:30 AM". */
  lemma FormatMidnightExample()
    ensures FormatTime("00:30") == "12:30 AM"
  {
    MidnightPieces();
    MidnightHour();
    FormatClockTime("00", "30");
  }

  /** "00" reads as hour 0, which shows as "12". */
  lemma MidnightHour()
    ensures AllDigits("00") && DecimalValue("00") == 0
    ensures NatToString(12) == "12"
  {
    assert "00"[..1] == "0" && "0"[..0] == "";
    assert NatToString(1) == "1";
  }

  lemma MidnightPieces()
    ensures "00" + ":" + "30" == "00:30" && "12" + ":" + "30" + " " + "AM" == "12:30 AM"
    ensures ':' !in "30" && AllDigits("00")
  {
  }
}
