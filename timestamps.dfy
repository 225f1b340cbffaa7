/**
 * The GitHub timestamp format `%Y-%m-%dT%H:%M:%SZ` (the UTC, no-fraction
 * profile of the date-time production of section 5.6 of RFC 3339), read into
 * a calendar date-time and measured in whole seconds since
 * 1970-01-01T00:00:00Z on the proleptic Gregorian calendar, as Python's
 * `datetime` does.
 */
module Timestamps {
  import opened Wrappers

  datatype DateTime = DateTime(year: int, month: int, day: int, hour: int, minute: int, second: int)

  predicate IsLeapYear(year: int) {
    year % 4 == 0 && (year % 100 != 0 || year % 400 == 0)
  }

  function DaysInMonth(year: int, month: int): (days: int)
    requires 1 <= month <= 12
    ensures 28 <= days <= 31
  {
    if month == 2 then (if IsLeapYear(year) then 29 else 28)
    else if month == 4 || month == 6 || month == 9 || month == 11 then 30
    else 31
  }

  function DaysInYear(year: int): int {
    if IsLeapYear(year) then 366 else 365
  }

  /** The instants `datetime` can hold: years 1 to 9999, seconds 0 to 59. */
  predicate Valid(d: DateTime) {
    && 1 <= d.year <= 9999
    && 1 <= d.month <= 12
    && 1 <= d.day <= DaysInMonth(d.year, d.month)
    && 0 <= d.hour < 24
    && 0 <= d.minute < 60
    && 0 <= d.second < 60
  }

  // ----- Fixed-width decimal fields -----

  predicate IsDigit(c: char) {
    '0' <= c <= '9'
  }

  predicate AllDigits(s: string) {
    forall i :: 0 <= i < |s| ==> IsDigit(s[i])
  }

  function Pow10(n: nat): (p: nat)
    ensures p >= 1
  {
    if n == 0 then 1 else 10 * Pow10(n - 1)
  }

  /** The number a string of decimal digits spells. */
  function DigitsValue(s: string): (value: nat)
    requires AllDigits(s)
    ensures value < Pow10(|s|)
  {
    if s == [] then 0
    else DigitsValue(s[..|s| - 1]) * 10 + (s[|s| - 1] as int - '0' as int)
  }

  /** `n` written with exactly `width` digits, zero-padded on the left. */
  function Pad(n: nat, width: nat): (s: string)
    ensures |s| == width
    ensures AllDigits(s)
  {
    if width == 0 then [] else Pad(n / 10, width - 1) + [('0' as int + n % 10) as char]
  }

  lemma {:induction false} PadValue(n: nat, width: nat)
    requires n < Pow10(width)
    ensures DigitsValue(Pad(n, width)) == n
  {
    if width > 0 {
      PadValue(n / 10, width - 1);
      var s := Pad(n, width);
      assert s[..|s| - 1] == Pad(n / 10, width - 1);
    }
  }

  lemma DivMod10(high: nat, low: nat)
    requires low < 10
    ensures (high * 10 + low) / 10 == high && (high * 10 + low) % 10 == low
  {
  }

  lemma {:induction false} ValuePad(s: string)
    requires AllDigits(s)
    ensures Pad(DigitsValue(s), |s|) == s
  {
    if s != [] {
      var front := s[..|s| - 1];
      ValuePad(front);
      var v := DigitsValue(s);
      var last := s[|s| - 1] as int - '0' as int;
      assert v == DigitsValue(front) * 10 + last && 0 <= last < 10;
      DivMod10(DigitsValue(front), last);
      assert s == front + [s[|s| - 1]];
    }
  }

  // ----- Reading and writing the format -----

  /** The punctuation of `YYYY-MM-DDTHH:MM:SSZ` is in place and the fields are digits. */
  predicate WellShaped(s: string) {
    && |s| == 20
    && s[4] == '-' && s[7] == '-' && s[10] == 'T' && s[13] == ':' && s[16] == ':' && s[19] == 'Z'
    && AllDigits(s[0..4]) && AllDigits(s[5..7]) && AllDigits(s[8..10])
    && AllDigits(s[11..13]) && AllDigits(s[14..16]) && AllDigits(s[17..19])
  }

  /** The fields of a well-shaped string, before any range check. */
  function Fields(s: string): DateTime
    requires WellShaped(s)
  {
    DateTime(DigitsValue(s[0..4]), DigitsValue(s[5..7]), DigitsValue(s[8..10]),
             DigitsValue(s[11..13]), DigitsValue(s[14..16]), DigitsValue(s[17..19]))
  }

  /**
   * `datetime.strptime(s, '%Y-%m-%dT%H:%M:%SZ')` on the fixed-width form:
   * `None` where the call raises `ValueError`.
   */
  function Parse(s: string): (d: Option<DateTime>)
    ensures d.Some? ==> Valid(d.value)
  {
    if WellShaped(s) && Valid(Fields(s)) then Some(Fields(s)) else None
  }

  /** The canonical text of an instant, as GitHub writes it. */
  function Format(d: DateTime): (s: string)
    requires Valid(d)
    ensures WellShaped(s)
  {
    var s := Pad(d.year, 4) + "-" + Pad(d.month, 2) + "-" + Pad(d.day, 2) + "T"
             + Pad(d.hour, 2) + ":" + Pad(d.minute, 2) + ":" + Pad(d.second, 2) + "Z";
    assert s[0..4] == Pad(d.year, 4) && s[5..7] == Pad(d.month, 2) && s[8..10] == Pad(d.day, 2);
    assert s[11..13] == Pad(d.hour, 2) && s[14..16] == Pad(d.minute, 2) && s[17..19] == Pad(d.second, 2);
    s
  }

  /** The six fields of the text of an instant are its padded components. */
  lemma FormatFields(d: DateTime)
    requires Valid(d)
    ensures var s := Format(d);
      && s[0..4] == Pad(d.year, 4) && s[5..7] == Pad(d.month, 2) && s[8..10] == Pad(d.day, 2)
      && s[11..13] == Pad(d.hour, 2) && s[14..16] == Pad(d.minute, 2) && s[17..19] == Pad(d.second, 2)
  {
  }

  /** Every valid instant reads back from its text. */
  lemma FormatThenParse(d: DateTime)
    requires Valid(d)
    ensures Parse(Format(d)) == Some(d)
  {
    FormatFields(d);
    PadValue(d.year, 4);
    PadValue(d.month, 2);
    PadValue(d.day, 2);
    PadValue(d.hour, 2);
    PadValue(d.minute, 2);
    PadValue(d.second, 2);
  }

  /** Every text that parses is the canonical text of what it parses to. */
  lemma ParseThenFormat(s: string)
    requires Parse(s).Some?
    ensures Format(Parse(s).value) == s
  {
    var d := Parse(s).value;
    assert d == Fields(s);
    ValuePad(s[0..4]);
    ValuePad(s[5..7]);
    ValuePad(s[8..10]);
    ValuePad(s[11..13]);
    ValuePad(s[14..16]);
    ValuePad(s[17..19]);
    FormatFields(d);
    SameShapeSameText(s, Format(d));
  }

  /** Two well-shaped strings with the same six fields are the same string. */
  lemma SameShapeSameText(s: string, t: string)
    requires WellShaped(s) && WellShaped(t)
    requires s[0..4] == t[0..4] && s[5..7] == t[5..7] && s[8..10] == t[8..10]
    requires s[11..13] == t[11..13] && s[14..16] == t[14..16] && s[17..19] == t[17..19]
    ensures s == t
  {
    forall i | 0 <= i < 20 ensures s[i] == t[i] {
      if i < 4 { assert s[i] == s[0..4][i] && t[i] == t[0..4][i]; }
      else if 5 <= i < 7 { assert s[i] == s[5..7][i - 5] && t[i] == t[5..7][i - 5]; }
      else if 8 <= i < 10 { assert s[i] == s[8..10][i - 8] && t[i] == t[8..10][i - 8]; }
      else if 11 <= i < 13 { assert s[i] == s[11..13][i - 11] && t[i] == t[11..13][i - 11]; }
      else if 14 <= i < 16 { assert s[i] == s[14..16][i - 14] && t[i] == t[14..16][i - 14]; }
      else if 17 <= i < 19 { assert s[i] == s[17..19][i - 17] && t[i] == t[17..19][i - 17]; }
    }
  }

  // ----- Seconds since the epoch -----

  /** Days in the years before `year`: `datetime`'s `_days_before_year`. */
  function DaysBeforeYear(year: int): int
    requires year >= 1
  {
    var y := year - 1;
    y * 365 + y / 4 - y / 100 + y / 400
  }

  /** Days in the months of `year` before `month`. */
  function DaysBeforeMonth(year: int, month: int): (days: int)
    requires 1 <= month <= 13
    ensures days >= 0
  {
    if month == 1 then 0 else DaysBeforeMonth(year, month - 1) + DaysInMonth(year, month - 1)
  }

  /** The proleptic Gregorian day number, 0001-01-01 being day 1. */
  function Ordinal(d: DateTime): int
    requires Valid(d)
  {
    DaysBeforeYear(d.year) + DaysBeforeMonth(d.year, d.month) + d.day
  }

  /** `Ordinal` of 1970-01-01. */
  const EpochOrdinal := 719163

  const SecondsPerDay := 86400

  function SecondOfDay(d: DateTime): (s: int)
    requires Valid(d)
    ensures 0 <= s < SecondsPerDay
  {
    d.hour * 3600 + d.minute * 60 + d.second
  }

  /** Whole seconds from 1970-01-01T00:00:00Z to `d`. */
  function EpochSeconds(d: DateTime): int
    requires Valid(d)
  {
    (Ordinal(d) - EpochOrdinal) * SecondsPerDay + SecondOfDay(d)
  }

  /** Calendar order: by year, then month, day, hour, minute and second. */
  predicate Before(a: DateTime, b: DateTime) {
    || a.year < b.year
    || (a.year == b.year && a.month < b.month)
    || (a.year == b.year && a.month == b.month && a.day < b.day)
    || (a.year == b.year && a.month == b.month && a.day == b.day && a.hour < b.hour)
    || (a.year == b.year && a.month == b.month && a.day == b.day && a.hour == b.hour && a.minute < b.minute)
    || (a.year == b.year && a.month == b.month && a.day == b.day && a.hour == b.hour && a.minute == b.minute
        && a.second < b.second)
  }

  lemma YearStep(year: int)
    requires year >= 1
    ensures DaysBeforeYear(year + 1) == DaysBeforeYear(year) + DaysInYear(year)
  {
    var y := year - 1;
    assert year / 4 == y / 4 + (if year % 4 == 0 then 1 else 0);
    assert year / 100 == y / 100 + (if year % 100 == 0 then 1 else 0);
    assert year / 400 == y / 400 + (if year % 400 == 0 then 1 else 0);
  }

  lemma {:induction false} YearsMonotone(a: int, b: int)
    requires 1 <= a <= b
    ensures DaysBeforeYear(a) + (b - a) * 365 <= DaysBeforeYear(b)
    decreases b - a
  {
    if a < b {
      YearStep(a);
      YearsMonotone(a + 1, b);
    }
  }

  lemma {:induction false} MonthsMonotone(year: int, a: int, b: int)
    requires 1 <= a <= b <= 13
    ensures DaysBeforeMonth(year, a) + (b - a) * 28 <= DaysBeforeMonth(year, b)
    decreases b - a
  {
    if a < b {
      MonthsMonotone(year, a, b - 1);
    }
  }

  lemma {:induction false} WholeYear(year: int)
    ensures DaysBeforeMonth(year, 13) == DaysInYear(year)
  {
    assert DaysBeforeMonth(year, 2) == 31;
    assert DaysBeforeMonth(year, 3) == 31 + DaysInMonth(year, 2);
    assert DaysBeforeMonth(year, 4) == 62 + DaysInMonth(year, 2);
    assert DaysBeforeMonth(year, 5) == 92 + DaysInMonth(year, 2);
    assert DaysBeforeMonth(year, 6) == 123 + DaysInMonth(year, 2);
    assert DaysBeforeMonth(year, 7) == 153 + DaysInMonth(year, 2);
    assert DaysBeforeMonth(year, 8) == 184 + DaysInMonth(year, 2);
    assert DaysBeforeMonth(year, 9) == 215 + DaysInMonth(year, 2);
    assert DaysBeforeMonth(year, 10) == 245 + DaysInMonth(year, 2);
    assert DaysBeforeMonth(year, 11) == 276 + DaysInMonth(year, 2);
    assert DaysBeforeMonth(year, 12) == 306 + DaysInMonth(year, 2);
  }

  /** A day of a month comes no later than the end of its month, nor of its year. */
  lemma DayWithinYear(d: DateTime)
    requires Valid(d)
    ensures DaysBeforeMonth(d.year, d.month) + d.day <= DaysBeforeMonth(d.year, d.month + 1)
    ensures DaysBeforeMonth(d.year, d.month) + d.day <= DaysInYear(d.year)
  {
    MonthsMonotone(d.year, d.month + 1, 13);
    WholeYear(d.year);
  }

  /** An earlier calendar day has a smaller day number. */
  lemma OrdinalMonotone(a: DateTime, b: DateTime)
    requires Valid(a) && Valid(b)
    requires a.year < b.year || (a.year == b.year && a.month < b.month)
             || (a.year == b.year && a.month == b.month && a.day < b.day)
    ensures Ordinal(a) < Ordinal(b)
  {
    DayWithinYear(a);
    if a.year < b.year {
      YearStep(a.year);
      YearsMonotone(a.year + 1, b.year);
      assert Ordinal(a) <= DaysBeforeYear(a.year + 1) <= DaysBeforeYear(b.year);
    } else if a.month < b.month {
      MonthsMonotone(a.year, a.month + 1, b.month);
    }
  }

  /** Calendar order is the order of the seconds since the epoch. */
  lemma BeforeMeansEarlier(a: DateTime, b: DateTime)
    requires Valid(a) && Valid(b) && Before(a, b)
    ensures EpochSeconds(a) < EpochSeconds(b)
  {
    if Ordinal(a) != Ordinal(b) || a.year != b.year || a.month != b.month || a.day != b.day {
      if a.year < b.year || (a.year == b.year && a.month < b.month)
         || (a.year == b.year && a.month == b.month && a.day < b.day) {
        OrdinalMonotone(a, b);
        var gap := Ordinal(b) - Ordinal(a);
        assert EpochSeconds(b) - EpochSeconds(a) == gap * SecondsPerDay + SecondOfDay(b) - SecondOfDay(a);
        assert gap * SecondsPerDay >= SecondsPerDay;
      }
    }
  }

  /**
   * Seconds since the epoch order instants exactly as the calendar does, in
   * both directions; in particular distinct instants have distinct counts.
   */
  lemma EpochOrder(a: DateTime, b: DateTime)
    requires Valid(a) && Valid(b)
    ensures EpochSeconds(a) < EpochSeconds(b) <==> Before(a, b)
    ensures EpochSeconds(a) == EpochSeconds(b) <==> a == b
  {
    if Before(a, b) {
      BeforeMeansEarlier(a, b);
    } else if a != b {
      assert Before(b, a);
      BeforeMeansEarlier(b, a);
    }
  }

  /** The epoch itself is second 0. */
  lemma EpochIsZero()
    ensures EpochSeconds(DateTime(1970, 1, 1, 0, 0, 0)) == 0
  {
    var y := 1969;
    assert y / 4 == 492 && y / 100 == 19 && y / 400 == 4;
    assert DaysBeforeYear(1970) == 719162;
  }
}
