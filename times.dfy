/** Points in time as Go's `time` package prints and parses them: the
    `String` form ("2006-01-02 15:04:05.999999999 -0700 MST") that the token
    generator writes, and the RFC 3339 form ("2006-01-02T15:04:05Z07:00")
    that the token parser reads. */
module Times {
  import opened Common
  import opened Digits

  /** A wall-clock reading and its offset from UTC in minutes. */
  datatype Time = Time(year: int, month: nat, day: nat, hour: nat, minute: nat,
                       second: nat, nanos: nat, offset: int)

  /** `time.Time{}`: January 1 of year 1, 00:00:00 UTC. */
  const ZeroTime := Time(1, 1, 1, 0, 0, 0, 0, 0)

  /** The largest offset RFC 3339 can write, 23:59. */
  const MaxOffset := 23 * 60 + 59

  predicate IsLeap(year: int) {
    year % 4 == 0 && (year % 100 != 0 || year % 400 == 0)
  }

  /** Go's `daysIn`. */
  function DaysIn(month: int, year: int): nat {
    if month == 2 then (if IsLeap(year) then 29 else 28)
    else if month == 4 || month == 6 || month == 9 || month == 11 then 30
    else 31
  }

  /** A reading `time.Now` can produce and RFC 3339 can write: a four-digit year
      and every field in its range. */
  predicate ValidTime(t: Time) {
    && 0 <= t.year <= 9999
    && 1 <= t.month <= 12
    && 1 <= t.day <= DaysIn(t.month, t.year)
    && t.hour <= 23 && t.minute <= 59 && t.second <= 59
    && t.nanos < 1_000_000_000
    && -MaxOffset <= t.offset <= MaxOffset
  }

  lemma PowersOfTen()
    ensures Pow(10, 2) == 100 && Pow(10, 4) == 10000 && Pow(10, 9) == 1_000_000_000
  {
    assert Pow(10, 1) == 10;
    assert Pow(10, 2) == 100;
    assert Pow(10, 3) == 1000;
    assert Pow(10, 4) == 10000;
    assert Pow(10, 5) == 100000;
    assert Pow(10, 6) == 1000000;
    assert Pow(10, 7) == 10000000;
    assert Pow(10, 8) == 100000000;
  }

  function Dec2(n: nat): (s: string)
    ensures |s| == 2 && AllDigits(10, s)
  {
    Format(10, n, 2)
  }

  /** The number of decimal digits of n. */
  function NumDigits(n: nat): (k: nat)
    ensures k >= 1
  {
    if n < 10 then 1 else 1 + NumDigits(Div(n, 10))
  }

  /** Go's `appendInt(b, year, 4)`: a minus sign for negative years, then at
      least four digits. */
  function YearString(year: int): (s: string)
    ensures |s| >= 4
  {
    var n: nat := if year < 0 then -year else year;
    var width := if NumDigits(n) < 4 then 4 else NumDigits(n);
    (if year < 0 then "-" else "") + Format(10, n, width)
  }

  function TrimTrailingZeros(s: string): (r: string)
    ensures |r| <= |s|
  {
    if s != [] && s[|s| - 1] == '0' then TrimTrailingZeros(s[..|s| - 1]) else s
  }

  /** The `.999999999` element: the nanoseconds without trailing zeros, and
      nothing at all for a whole second. */
  function FractionString(nanos: nat): string {
    var f := TrimTrailingZeros(Format(10, nanos, 9));
    if f == "" then "" else "." + f
  }

  function Abs(x: int): nat {
    if x < 0 then -x else x
  }

  /** The `-0700` element. */
  function NumericOffset(offset: int): string {
    (if offset < 0 then "-" else "+") + Dec2(Div(Abs(offset), 60)) + Dec2(Mod(Abs(offset), 60))
  }

  /** `time.Time.String`, without the zone abbreviation and the monotonic
      clock reading that follow the numeric offset. */
  function TimeString(t: Time): string {
    DateString(t) + AfterDate(t)
  }

  /** What follows the date: ` 15:04:05.999999999 -0700`. */
  function AfterDate(t: Time): (s: string)
    ensures |s| > 0 && s[0] == ' '
  {
    " " + ClockString(t) + FractionString(t.nanos) + " " + NumericOffset(t.offset)
  }

  /** The `2006-01-02` element. */
  function DateString(t: Time): (s: string)
    ensures |s| == |YearString(t.year)| + 6
    ensures s[..|YearString(t.year)|] == YearString(t.year)
  {
    var y := YearString(t.year);
    var s := y + "-" + Dec2(t.month) + "-" + Dec2(t.day);
    assert s[..|y|] == y;
    s
  }

  /** The `15:04:05` element. */
  function ClockString(t: Time): string {
    Dec2(t.hour) + ":" + Dec2(t.minute) + ":" + Dec2(t.second)
  }

  // ---------------------------------------------------------------------
  // RFC 3339 parsing: the fast path of `time.Parse(time.RFC3339, s)`.

  /** Go's local `parseUint`: decimal digits only, within [lo, hi]. */
  function ParseUint(s: string, lo: nat, hi: nat): Option<nat> {
    match Parse(10, s)
    case Some(x) => if lo <= x <= hi then Some(x) else None
    case None => None
  }

  /** The first 19 characters, `2006-01-02T15:04:05`, as a time in UTC. */
  function ParseDateTime(s: string): Option<Time>
    requires |s| == 19
  {
    var year := ParseUint(s[0..4], 0, 9999);
    var month := ParseUint(s[5..7], 1, 12);
    // Go takes the month and year of a failed parse as their lower bounds here.
    var day := ParseUint(s[8..10], 1, DaysIn(month.GetOr(1), year.GetOr(0)));
    var hour := ParseUint(s[11..13], 0, 23);
    var minute := ParseUint(s[14..16], 0, 59);
    var second := ParseUint(s[17..19], 0, 59);
    if year.Some? && month.Some? && day.Some? && hour.Some? && minute.Some? && second.Some?
       && s[4] == '-' && s[7] == '-' && s[10] == 'T' && s[13] == ':' && s[16] == ':'
    then Some(Time(year.value, month.value, day.value, hour.value, minute.value, second.value, 0, 0))
    else None
  }

  /** The end of the run of decimal digits that starts at i. */
  function DigitRunEnd(s: string, i: nat): (j: nat)
    requires i <= |s|
    ensures i <= j <= |s|
    decreases |s| - i
  {
    if i < |s| && IsDecimalDigit(s[i]) then DigitRunEnd(s, i + 1) else i
  }

  /** Go's `parseNanoseconds`: at most nine digits are read, then scaled to nanoseconds. */
  function FractionNanos(digits: string): nat {
    var used := if |digits| > 9 then digits[..9] else digits;
    Mul(Parse(10, used).GetOr(0), Pow(10, 9 - |used|))
  }

  /** An optional fraction `.ddd…`: its nanoseconds and what follows it. */
  function ParseFraction(s: string): (r: (nat, string))
    ensures |r.1| <= |s|
  {
    if |s| >= 2 && s[0] == '.' && IsDecimalDigit(s[1]) then
      var n := DigitRunEnd(s, 2);
      (FractionNanos(s[1..n]), s[n..])
    else (0, s)
  }

  /** The zone, `Z` or `±hh:mm`, as an offset in minutes. */
  function ParseZone(s: string): Option<int> {
    if |s| == 1 && s[0] == 'Z' then Some(0)
    else if |s| != 6 then None
    else
      var hr := ParseUint(s[1..3], 0, 23);
      var mm := ParseUint(s[4..6], 0, 59);
      if hr.Some? && mm.Some? && (s[0] == '-' || s[0] == '+') && s[3] == ':' then
        var off := hr.value * 60 + mm.value;
        Some(if s[0] == '-' then -off else off)
      else None
  }

  /** `time.Parse(time.RFC3339, s)`; `None` stands for its error. */
  function ParseRfc3339(s: string): Option<Time> {
    if |s| < 19 then None
    else
      match ParseDateTime(s[..19])
      case None => None
      case Some(t) =>
        var (nanos, rest) := ParseFraction(s[19..]);
        match ParseZone(rest)
        case None => None
        case Some(offset) => Some(t.(nanos := nanos, offset := offset))
  }

  // ---------------------------------------------------------------------
  // The `String` form is never RFC 3339.

  lemma DecimalDigitOf(s: string, i: nat)
    requires AllDigits(10, s) && i < |s|
    ensures IsDecimalDigit(s[i])
  {
  }

  lemma YearStringShape(year: int)
    ensures var s := YearString(year);
      && (0 <= year <= 9999 ==> |s| == 4)
      && (year > 9999 ==> |s| >= 5 && IsDecimalDigit(s[4]))
      && (year < 0 ==> s[0] == '-')
  {
    var n: nat := if year < 0 then -year else year;
    PowersOfTen();
    if year > 9999 {
      NumDigitsAtLeast(n, 4);
      DecimalDigitOf(Format(10, n, NumDigits(n)), 4);
    } else if year >= 0 {
      NumDigitsAtMost(n, 4);
    }
  }

  lemma DivAtLeast(n: nat, b: nat, m: nat)
    requires b > 0 && n >= Mul(b, m)
    ensures Div(n, b) >= m
  {
    DivMod(n, b);
    if Div(n, b) < m {
      MulStep(Div(n, b), m, b);
    }
  }

  /** A number of at least 10^k has more than k digits. */
  lemma {:induction false} NumDigitsAtLeast(n: nat, k: nat)
    requires n >= Pow(10, k)
    ensures NumDigits(n) >= k + 1
  {
    if k > 0 {
      assert Pow(10, k) >= 10 by { PowAtLeast(k); }
      DivAtLeast(n, 10, Pow(10, k - 1));
      NumDigitsAtLeast(Div(n, 10), k - 1);
    }
  }

  lemma {:induction false} PowAtLeast(k: nat)
    requires k > 0
    ensures Pow(10, k) >= 10
  {
    if k > 1 {
      PowAtLeast(k - 1);
    }
  }

  /** A number below 10^k has at most k digits. */
  lemma {:induction false} NumDigitsAtMost(n: nat, k: nat)
    requires k > 0 && n < Pow(10, k)
    ensures NumDigits(n) <= k
  {
    if n >= 10 {
      assert Pow(10, 1) == 10;
      DivBelow(n, 10, Pow(10, k - 1));
      NumDigitsAtMost(Div(n, 10), k - 1);
    }
  }

  /** Whatever the time, the text `time.Time.String` writes fails to parse as
      RFC 3339: a four-digit year is followed by a space where `T` is required,
      a longer year puts a digit where the first `-` is required, and a negative
      year starts with a sign where a digit is required. */
  lemma StringIsNotRfc3339(t: Time)
    ensures ParseRfc3339(TimeString(t)) == None
  {
    if |TimeString(t)| >= 19 {
      StringHeadRejected(t);
    }
  }

  /** The first 19 characters of the `String` form are no RFC 3339 date and time. */
  lemma StringHeadRejected(t: Time)
    requires |TimeString(t)| >= 19
    ensures ParseDateTime(TimeString(t)[..19]) == None
  {
    var d := DateString(t);
    var y := YearString(t.year);
    YearStringShape(t.year);
    TimeStringStart(t);
    if 0 <= t.year <= 9999 {
      SpaceAfterDate(TimeString(t), d);
    } else if t.year > 9999 {
      assert d[4] == y[4];
      DigitInDate(TimeString(t), d);
    } else {
      assert d[0] == y[0];
      SignInDate(TimeString(t), d);
    }
  }

  /** The `String` form starts with the date and a space. */
  lemma TimeStringStart(t: Time)
    ensures var s, d := TimeString(t), DateString(t);
      |d| < |s| && s[..|d|] == d && s[|d|] == ' '
  {
    var d := DateString(t);
    assert (d + AfterDate(t))[..|d|] == d;
  }

  lemma SpaceAfterDate(s: string, d: string)
    requires |s| >= 19 && |d| == 10 && s[..|d|] == d && s[|d|] == ' '
    ensures ParseDateTime(s[..19]) == None
  {
    DateTimeNeedsT(s[..19]);
  }

  lemma DigitInDate(s: string, d: string)
    requires |s| >= 19 && 5 <= |d| <= |s| && s[..|d|] == d && IsDecimalDigit(d[4])
    ensures ParseDateTime(s[..19]) == None
  {
    assert s[..19][4] == d[4];
    DateTimeNeedsDash(s[..19]);
  }

  lemma SignInDate(s: string, d: string)
    requires |s| >= 19 && 1 <= |d| <= |s| && s[..|d|] == d && d[0] == '-'
    ensures ParseDateTime(s[..19]) == None
  {
    assert s[..19][0] == d[0];
    DateTimeNeedsDigit(s[..19]);
  }

  lemma DateTimeNeedsT(h: string)
    requires |h| == 19 && h[10] != 'T'
    ensures ParseDateTime(h) == None
  {
  }

  lemma DateTimeNeedsDash(h: string)
    requires |h| == 19 && IsDecimalDigit(h[4])
    ensures ParseDateTime(h) == None
  {
  }

  lemma DateTimeNeedsDigit(h: string)
    requires |h| == 19 && h[0] == '-'
    ensures ParseDateTime(h) == None
  {
    assert h[0..4][0] == '-';
    ParseRejectsNonDigit(h[0..4], 0);
  }

  lemma {:induction false} ParseRejectsNonDigit(s: string, i: nat)
    requires i < |s| && !IsDecimalDigit(s[i])
    ensures Parse(10, s) == None
    decreases |s|
  {
    if i < |s| - 1 {
      assert s[..|s| - 1][i] == s[i];
      ParseRejectsNonDigit(s[..|s| - 1], i);
    }
  }

  // ---------------------------------------------------------------------
  // The RFC 3339 writer and its round trip.

  /** The `Z07:00` element: `Z` for UTC, `±hh:mm` otherwise. */
  function ZoneString(offset: int): string {
    if offset == 0 then "Z"
    else (if offset < 0 then "-" else "+") + Dec2(Div(Abs(offset), 60)) + ":" + Dec2(Mod(Abs(offset), 60))
  }

  function DateTimeString(t: Time): (s: string)
    ensures |s| == 19
  {
    Format(10, if t.year < 0 then 0 else t.year, 4) + "-" + Dec2(t.month) + "-" + Dec2(t.day) + "T"
    + Dec2(t.hour) + ":" + Dec2(t.minute) + ":" + Dec2(t.second)
  }

  /** `t.Format("2006-01-02T15:04:05.000000000Z07:00")`: RFC 3339 with all nine
      fraction digits. */
  function FormatRfc3339(t: Time): string {
    DateTimeString(t) + FractionAndZone(t)
  }

  function FractionAndZone(t: Time): string {
    "." + Format(10, t.nanos, 9) + ZoneString(t.offset)
  }

  lemma Dec2RoundTrip(n: nat, lo: nat, hi: nat)
    requires lo <= n <= hi <= 99
    ensures ParseUint(Dec2(n), lo, hi) == Some(n)
  {
    PowersOfTen();
    ParseFormat(10, n, 2);
  }

  lemma DateTimeSlices(y: string, mo: string, d: string, h: string, mi: string, se: string)
    requires |y| == 4 && |mo| == 2 && |d| == 2 && |h| == 2 && |mi| == 2 && |se| == 2
    ensures var s := y + "-" + mo + "-" + d + "T" + h + ":" + mi + ":" + se;
      && s[0..4] == y && s[5..7] == mo && s[8..10] == d
      && s[11..13] == h && s[14..16] == mi && s[17..19] == se
      && s[4] == '-' && s[7] == '-' && s[10] == 'T' && s[13] == ':' && s[16] == ':'
  {
    var s := y + "-" + mo + "-" + d + "T" + h + ":" + mi + ":" + se;
    assert s[0..4] == y by { assert forall i :: 0 <= i < 4 ==> s[i] == y[i]; }
    assert s[5..7] == mo by { assert forall i :: 0 <= i < 2 ==> s[5 + i] == mo[i]; }
    assert s[8..10] == d by { assert forall i :: 0 <= i < 2 ==> s[8 + i] == d[i]; }
    assert s[11..13] == h by { assert forall i :: 0 <= i < 2 ==> s[11 + i] == h[i]; }
    assert s[14..16] == mi by { assert forall i :: 0 <= i < 2 ==> s[14 + i] == mi[i]; }
    assert s[17..19] == se by { assert forall i :: 0 <= i < 2 ==> s[17 + i] == se[i]; }
  }

  lemma DateTimeRoundTrip(t: Time)
    requires ValidTime(t)
    ensures ParseDateTime(DateTimeString(t)) == Some(t.(nanos := 0, offset := 0))
  {
    var y, mo, d := Format(10, t.year, 4), Dec2(t.month), Dec2(t.day);
    var h, mi, se := Dec2(t.hour), Dec2(t.minute), Dec2(t.second);
    assert DateTimeString(t) == y + "-" + mo + "-" + d + "T" + h + ":" + mi + ":" + se;
    DateTimeSlices(y, mo, d, h, mi, se);
    assert ParseUint(y, 0, 9999) == Some(t.year) by {
      PowersOfTen();
      ParseFormat(10, t.year, 4);
    }
    Dec2RoundTrip(t.month, 1, 12);
    Dec2RoundTrip(t.day, 1, DaysIn(t.month, t.year));
    Dec2RoundTrip(t.hour, 0, 23);
    Dec2RoundTrip(t.minute, 0, 59);
    Dec2RoundTrip(t.second, 0, 59);
  }

  lemma {:induction false} DigitRunEndAt(s: string, i: nat, k: nat)
    requires i <= k <= |s|
    requires forall j :: i <= j < k ==> IsDecimalDigit(s[j])
    requires k == |s| || !IsDecimalDigit(s[k])
    ensures DigitRunEnd(s, i) == k
    decreases k - i
  {
    if i < k {
      DigitRunEndAt(s, i + 1, k);
    }
  }

  lemma FractionSlices(f: string, zone: string)
    requires |f| == 9
    ensures var s := "." + f + zone;
      && s[0] == '.' && s[1..10] == f && s[10..] == zone
      && forall j :: 1 <= j < 10 ==> s[j] == f[j - 1]
  {
    var s := "." + f + zone;
    assert s[1..10] == f by { assert forall i :: 0 <= i < 9 ==> s[1 + i] == f[i]; }
    assert s[10..] == zone by { assert forall i :: 0 <= i < |zone| ==> s[10 + i] == zone[i]; }
  }

  lemma FractionRoundTrip(nanos: nat, zone: string)
    requires nanos < 1_000_000_000
    requires zone == [] || !IsDecimalDigit(zone[0])
    ensures ParseFraction("." + Format(10, nanos, 9) + zone) == (nanos, zone)
  {
    var f := Format(10, nanos, 9);
    var s := "." + f + zone;
    FractionSlices(f, zone);
    assert forall j :: 1 <= j < 10 ==> IsDecimalDigit(s[j]) by {
      forall j | 1 <= j < 10 ensures IsDecimalDigit(s[j]) {
        DecimalDigitOf(f, j - 1);
      }
    }
    DigitRunEndAt(s, 2, 10);
    assert FractionNanos(f) == nanos by {
      PowersOfTen();
      ParseFormat(10, nanos, 9);
      assert Pow(10, 0) == 1;
    }
  }

  lemma ZoneRoundTrip(offset: int)
    requires -MaxOffset <= offset <= MaxOffset
    ensures ParseZone(ZoneString(offset)) == Some(offset)
  {
    if offset != 0 {
      var a := Abs(offset);
      var hh, mm := Dec2(Div(a, 60)), Dec2(Mod(a, 60));
      var s := ZoneString(offset);
      assert s == (if offset < 0 then "-" else "+") + hh + ":" + mm;
      assert s[1..3] == hh && s[4..6] == mm;
      DivMod(a, 60);
      DivBelow(a, 60, 24);
      Dec2RoundTrip(Div(a, 60), 0, 23);
      Dec2RoundTrip(Mod(a, 60), 0, 59);
    }
  }

  lemma SplitAt(a: string, b: string)
    ensures (a + b)[..|a|] == a && (a + b)[|a|..] == b
  {
  }

  /** Every valid time survives the RFC 3339 writer followed by the RFC 3339
      parser, fraction and offset included. */
  lemma Rfc3339RoundTrip(t: Time)
    requires ValidTime(t)
    ensures ParseRfc3339(FormatRfc3339(t)) == Some(t)
  {
    var zone := ZoneString(t.offset);
    SplitAt(DateTimeString(t), FractionAndZone(t));
    DateTimeRoundTrip(t);
    FractionRoundTrip(t.nanos, zone);
    ZoneRoundTrip(t.offset);
  }
}
