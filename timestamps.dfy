/** The timestamp arithmetic under the metrics: `datetime.strptime` with the
    fixed format "%Y-%m-%dT%H:%M:%SZ", the difference of two datetimes in
    seconds, and `strftime("%Y-%U")`, the Sunday-based week bucket. */
module Timestamps {
  import opened Outcomes

  /** A naive datetime with whole seconds, as `strptime` builds it from the
      wire format (the trailing "Z" is matched literally, no zone is kept). */
  datatype DateTime = DateTime(year: int, month: int, day: int, hour: int, minute: int, second: int)

  predicate IsLeapYear(y: int) {
    y % 4 == 0 && (y % 100 != 0 || y % 400 == 0)
  }

  function DaysInYear(y: int): int {
    if IsLeapYear(y) then 366 else 365
  }

  function DaysInMonth(y: int, m: int): (n: int)
    requires 1 <= m <= 12
    ensures 28 <= n <= 31
  {
    if m == 2 then (if IsLeapYear(y) then 29 else 28)
    else if m == 4 || m == 6 || m == 9 || m == 11 then 30
    else 31
  }

  /** The range checks of Python's `datetime` constructor (year in
      MINYEAR..MAXYEAR, day within its month, second below 60). */
  predicate Valid(dt: DateTime) {
    && 1 <= dt.year <= 9999
    && 1 <= dt.month <= 12
    && 1 <= dt.day <= DaysInMonth(dt.year, dt.month)
    && 0 <= dt.hour < 24
    && 0 <= dt.minute < 60
    && 0 <= dt.second < 60
  }

  // ---------------------------------------------------------------------
  // The wire format "YYYY-MM-DDTHH:MM:SSZ"
  // ---------------------------------------------------------------------

  predicate IsDigit(c: char) {
    '0' <= c <= '9'
  }

  function DigitValue(c: char): int
    requires IsDigit(c)
  {
    c as int - '0' as int
  }

  function DigitChar(d: int): char
    requires 0 <= d <= 9
  {
    ('0' as int + d) as char
  }

  predicate DigitsAt(s: string, i: nat, n: nat) {
    i + n <= |s| && forall k :: i <= k < i + n ==> IsDigit(s[k])
  }

  /** The value of the two decimal digits at s[i], s[i+1]. */
  function Number2(s: string, i: nat): int
    requires DigitsAt(s, i, 2)
  {
    10 * DigitValue(s[i]) + DigitValue(s[i + 1])
  }

  /** The value of the four decimal digits starting at s[i]. */
  function Number4(s: string, i: nat): int
    requires DigitsAt(s, i, 4)
  {
    100 * Number2(s, i) + Number2(s, i + 2)
  }

  /** Twenty characters, digits everywhere except the separators, in the
      places the format string puts them. */
  predicate HasLayout(s: string) {
    && |s| == 20
    && DigitsAt(s, 0, 4) && s[4] == '-'
    && DigitsAt(s, 5, 2) && s[7] == '-'
    && DigitsAt(s, 8, 2) && s[10] == 'T'
    && DigitsAt(s, 11, 2) && s[13] == ':'
    && DigitsAt(s, 14, 2) && s[16] == ':'
    && DigitsAt(s, 17, 2) && s[19] == 'Z'
  }

  /** n as two zero-padded decimal digits (`%m`, `%d`, `%H`, `%M`, `%S`, `%U`). */
  function Pad2(n: int): (r: string)
    requires 0 <= n < 100
    ensures |r| == 2 && DigitsAt(r, 0, 2)
  {
    [DigitChar(n / 10), DigitChar(n % 10)]
  }

  /** n as four zero-padded decimal digits (`%Y`). */
  function Pad4(n: int): (r: string)
    requires 0 <= n < 10000
    ensures |r| == 4 && DigitsAt(r, 0, 4)
  {
    Pad2(n / 100) + Pad2(n % 100)
  }

  /** The canonical text of a datetime in the wire format. */
  function Format(dt: DateTime): (s: string)
    requires Valid(dt)
    ensures |s| == 20
  {
    Pad4(dt.year) + "-" + Pad2(dt.month) + "-" + Pad2(dt.day) + "T"
      + Pad2(dt.hour) + ":" + Pad2(dt.minute) + ":" + Pad2(dt.second) + "Z"
  }

  /** `datetime.strptime(s, "%Y-%m-%dT%H:%M:%SZ")` on the canonical
      20-character form: `None` stands for the `ValueError` it raises when
      the text does not match or names a day, hour, minute or second that
      does not exist. What it returns is a valid datetime. */
  function Parse(s: string): (r: Option<DateTime>)
    ensures r.Some? ==> Valid(r.value)
  {
    if !HasLayout(s) then None
    else
      var dt := DateTime(Number4(s, 0), Number2(s, 5), Number2(s, 8),
                         Number2(s, 11), Number2(s, 14), Number2(s, 17));
      if Valid(dt) then Some(dt) else None
  }

  lemma Pad2OfNumber(s: string, i: nat)
    requires DigitsAt(s, i, 2)
    ensures 0 <= Number2(s, i) < 100 && Pad2(Number2(s, i)) == s[i..i + 2]
  {
    var n := Number2(s, i);
    assert n / 10 == DigitValue(s[i]) && n % 10 == DigitValue(s[i + 1]);
  }

  lemma Pad4OfNumber(s: string, i: nat)
    requires DigitsAt(s, i, 4)
    ensures 0 <= Number4(s, i) < 10000 && Pad4(Number4(s, i)) == s[i..i + 4]
  {
    Pad2OfNumber(s, i);
    Pad2OfNumber(s, i + 2);
    var n := Number4(s, i);
    assert n / 100 == Number2(s, i) && n % 100 == Number2(s, i + 2);
    assert s[i..i + 4] == s[i..i + 2] + s[i + 2..i + 4];
  }

  /** Round trip: what Parse accepts is exactly the canonical text of what
      it returns. */
  lemma FormatParse(s: string)
    requires Parse(s).Some?
    ensures Format(Parse(s).value) == s
  {
    Pad4OfNumber(s, 0);
    Pad2OfNumber(s, 5);
    Pad2OfNumber(s, 8);
    Pad2OfNumber(s, 11);
    Pad2OfNumber(s, 14);
    Pad2OfNumber(s, 17);
    assert s == s[0..4] + s[4..5] + s[5..7] + s[7..8] + s[8..10] + s[10..11]
              + s[11..13] + s[13..14] + s[14..16] + s[16..17] + s[17..19] + s[19..20];
  }

  lemma NumberOfPad2(n: int)
    requires 0 <= n < 100
    ensures Number2(Pad2(n), 0) == n
  {
  }

  lemma NumberOfPad4(n: int)
    requires 0 <= n < 10000
    ensures Number4(Pad4(n), 0) == n
  {
    NumberOfPad2(n / 100);
    NumberOfPad2(n % 100);
    var p := Pad4(n);
    assert p[2..4] == Pad2(n % 100);
    assert Number2(p, 2) == Number2(p[2..4], 0);
  }

  lemma NumberAt2(s: string, i: nat, n: int)
    requires 0 <= n < 100 && i + 2 <= |s| && s[i..i + 2] == Pad2(n)
    ensures DigitsAt(s, i, 2) && Number2(s, i) == n
  {
    NumberOfPad2(n);
    assert s[i] == Pad2(n)[0] && s[i + 1] == Pad2(n)[1];
  }

  lemma NumberAt4(s: string, i: nat, n: int)
    requires 0 <= n < 10000 && i + 4 <= |s| && s[i..i + 4] == Pad4(n)
    ensures DigitsAt(s, i, 4) && Number4(s, i) == n
  {
    NumberOfPad4(n);
    var p := Pad4(n);
    assert forall k :: 0 <= k < 4 ==> s[i + k] == p[k];
    assert Number2(s, i) == Number2(p, 0);
    assert Number2(s, i + 2) == Number2(p, 2);
  }

  /** Round trip: formatting a valid datetime and parsing the text gives it back. */
  lemma {:induction false} ParseFormat(dt: DateTime)
    requires Valid(dt)
    ensures Parse(Format(dt)) == Some(dt)
  {
    var s := Format(dt);
    NumberAt4(s, 0, dt.year);
    NumberAt2(s, 5, dt.month);
    NumberAt2(s, 8, dt.day);
    NumberAt2(s, 11, dt.hour);
    NumberAt2(s, 14, dt.minute);
    NumberAt2(s, 17, dt.second);
  }

  // ---------------------------------------------------------------------
  // Day numbers and seconds
  // ---------------------------------------------------------------------

  /** Days in the years before year y, counted from 0001-01-01 in the
      proleptic Gregorian calendar. */
  function DaysBeforeYear(y: int): int
    requires 1 <= y
  {
    var p := y - 1;
    365 * p + p / 4 - p / 100 + p / 400
  }

  /** Days in the months of year y before month m. */
  function DaysBeforeMonth(y: int, m: int): int
    requires 1 <= m <= 12
  {
    var common :=
      if m == 1 then 0 else if m == 2 then 31 else if m == 3 then 59
      else if m == 4 then 90 else if m == 5 then 120 else if m == 6 then 151
      else if m == 7 then 181 else if m == 8 then 212 else if m == 9 then 243
      else if m == 10 then 273 else if m == 11 then 304 else 334;
    common + (if m > 2 && IsLeapYear(y) then 1 else 0)
  }

  /** The day number of the date, 0001-01-01 being day 1 (`toordinal()`). */
  function Ordinal(dt: DateTime): (r: int)
    requires Valid(dt)
    ensures DaysBeforeYear(dt.year) < r <= DaysBeforeYear(dt.year) + DaysInYear(dt.year)
  {
    DaysBeforeMonthMonotone(dt.year, dt.month, dt.month);
    DaysBeforeYear(dt.year) + DaysBeforeMonth(dt.year, dt.month) + dt.day
  }

  /** Seconds since 0001-01-01T00:00:00; the difference of two of these is
      `(a - b).total_seconds()` for whole-second datetimes. */
  function Seconds(dt: DateTime): int
    requires Valid(dt)
  {
    (Ordinal(dt) - 1) * 86400 + dt.hour * 3600 + dt.minute * 60 + dt.second
  }

  /** The closed form of DaysBeforeYear counts one year at a time: each year
      adds its own length, 366 exactly in leap years. */
  lemma DaysBeforeYearStep(y: int)
    requires 1 <= y
    ensures DaysBeforeYear(y + 1) == DaysBeforeYear(y) + DaysInYear(y)
  {
    var p := y - 1;
    assert (p + 1) / 4 == p / 4 + (if y % 4 == 0 then 1 else 0);
    assert (p + 1) / 100 == p / 100 + (if y % 100 == 0 then 1 else 0);
    assert (p + 1) / 400 == p / 400 + (if y % 400 == 0 then 1 else 0);
  }

  lemma {:induction false} DaysBeforeYearMonotone(y: int, z: int)
    requires 1 <= y < z
    ensures DaysBeforeYear(y) + DaysInYear(y) <= DaysBeforeYear(z)
    decreases z - y
  {
    DaysBeforeYearStep(y);
    if y + 1 < z {
      DaysBeforeYearMonotone(y + 1, z);
    }
  }

  /** Months fit inside their year, in calendar order. */
  lemma DaysBeforeMonthMonotone(y: int, m: int, n: int)
    requires 1 <= m <= 12 && 1 <= n <= 12
    ensures DaysBeforeMonth(y, m) + DaysInMonth(y, m) <= DaysInYear(y)
    ensures m < n ==> DaysBeforeMonth(y, m) + DaysInMonth(y, m) <= DaysBeforeMonth(y, n)
  {
  }

  /** The month table: January starts the year, each month starts where
      the one before it ends, and December ends the year. */
  lemma DaysBeforeMonthStep(y: int, m: int)
    requires 1 <= m <= 12
    ensures DaysBeforeMonth(y, 1) == 0
    ensures m < 12 ==> DaysBeforeMonth(y, m + 1) == DaysBeforeMonth(y, m) + DaysInMonth(y, m)
    ensures DaysBeforeMonth(y, 12) + DaysInMonth(y, 12) == DaysInYear(y)
  {
  }

  predicate DateBefore(a: DateTime, b: DateTime) {
    || a.year < b.year
    || (a.year == b.year && a.month < b.month)
    || (a.year == b.year && a.month == b.month && a.day < b.day)
  }

  /** Chronological order: lexicographic on (year, month, day, hour, minute, second). */
  predicate Before(a: DateTime, b: DateTime) {
    || DateBefore(a, b)
    || (a.year == b.year && a.month == b.month && a.day == b.day &&
        (|| a.hour < b.hour
         || (a.hour == b.hour && a.minute < b.minute)
         || (a.hour == b.hour && a.minute == b.minute && a.second < b.second)))
  }

  lemma OrdinalMonotone(a: DateTime, b: DateTime)
    requires Valid(a) && Valid(b) && DateBefore(a, b)
    ensures Ordinal(a) < Ordinal(b)
  {
    DaysBeforeMonthMonotone(a.year, a.month, b.month);
    if a.year < b.year {
      DaysBeforeYearMonotone(a.year, b.year);
    }
  }

  /** Seconds orders datetimes chronologically and tells different datetimes
      apart, so a commit-to-merge delta is negative exactly when the commit
      is later than the merge, and zero exactly when they coincide. */
  lemma SecondsOrder(a: DateTime, b: DateTime)
    requires Valid(a) && Valid(b)
    ensures Before(a, b) <==> Seconds(a) < Seconds(b)
    ensures a == b <==> Seconds(a) == Seconds(b)
  {
    if DateBefore(a, b) {
      OrdinalMonotone(a, b);
    }
    if DateBefore(b, a) {
      OrdinalMonotone(b, a);
    }
  }

  // ---------------------------------------------------------------------
  // strftime("%Y-%U")
  // ---------------------------------------------------------------------

  /** `tm_yday`: days since 1 January of the same year. */
  function DayOfYear(dt: DateTime): (r: int)
    requires Valid(dt)
    ensures 0 <= r < DaysInYear(dt.year)
  {
    DaysBeforeMonthMonotone(dt.year, dt.month, dt.month);
    DaysBeforeMonth(dt.year, dt.month) + dt.day - 1
  }

  /** `tm_wday`: 0 for Sunday through 6 for Saturday (day 1 was a Monday). */
  function Weekday(dt: DateTime): (r: int)
    requires Valid(dt)
    ensures 0 <= r < 7
  {
    Ordinal(dt) % 7
  }

  /** `%U`: the week of the year, weeks starting on Sunday, the days before
      the first Sunday of the year in week 0. */
  function WeekOfYear(dt: DateTime): (w: int)
    requires Valid(dt)
    ensures 0 <= w <= 53
  {
    (DayOfYear(dt) + 7 - Weekday(dt)) / 7
  }

  /** The day number of the Sunday on or before dt. */
  function StartOfWeek(dt: DateTime): int
    requires Valid(dt)
  {
    Ordinal(dt) - Weekday(dt)
  }

  lemma DivByWeek(q: int, c: int)
    ensures (7 * q + c) / 7 == q + c / 7
  {
    var r := c % 7;
    assert c == 7 * (c / 7) + r;
    assert 7 * q + c == 7 * (q + c / 7) + r;
  }

  lemma WeekOfYearDecomposed(dt: DateTime)
    requires Valid(dt)
    ensures StartOfWeek(dt) % 7 == 0
    ensures WeekOfYear(dt) == StartOfWeek(dt) / 7 + (6 - DaysBeforeYear(dt.year)) / 7
  {
    var o := Ordinal(dt);
    var q, r := o / 7, o % 7;
    var c := 6 - DaysBeforeYear(dt.year);
    assert o == 7 * q + r;
    assert StartOfWeek(dt) == 7 * q;
    assert DayOfYear(dt) == o - DaysBeforeYear(dt.year) - 1;
    assert DayOfYear(dt) + 7 - Weekday(dt) == 7 * q + c;
    DivByWeek(q, c);
    DivByWeek(q, 0);
  }

  /** Within one year, two datetimes share a `%U` week exactly when they
      share the Sunday that starts their week. */
  lemma WeekOfYearBySunday(a: DateTime, b: DateTime)
    requires Valid(a) && Valid(b) && a.year == b.year
    ensures WeekOfYear(a) == WeekOfYear(b) <==> StartOfWeek(a) == StartOfWeek(b)
  {
    WeekOfYearDecomposed(a);
    WeekOfYearDecomposed(b);
  }

  /** Week 0 holds exactly the days whose Sunday falls in the previous year. */
  lemma WeekZero(dt: DateTime)
    requires Valid(dt)
    ensures WeekOfYear(dt) == 0 <==> StartOfWeek(dt) <= DaysBeforeYear(dt.year)
  {
    WeekOfYearDecomposed(dt);
  }

  /** The bucket key `strftime("%Y-%U")`, e.g. "2024-09". */
  function WeekKey(dt: DateTime): (k: string)
    requires Valid(dt)
    ensures |k| == 7
  {
    Pad4(dt.year) + "-" + Pad2(WeekOfYear(dt))
  }

  /** Two datetimes land in the same bucket exactly when they have the same
      calendar year and the same `%U` week number. */
  lemma WeekKeySameBucket(a: DateTime, b: DateTime)
    requires Valid(a) && Valid(b)
    ensures WeekKey(a) == WeekKey(b) <==> a.year == b.year && WeekOfYear(a) == WeekOfYear(b)
  {
    var ka, kb := WeekKey(a), WeekKey(b);
    NumberAt4(ka, 0, a.year);
    NumberAt4(kb, 0, b.year);
    assert ka[5..7] == Pad2(WeekOfYear(a));
    assert kb[5..7] == Pad2(WeekOfYear(b));
    NumberAt2(ka, 5, WeekOfYear(a));
    NumberAt2(kb, 5, WeekOfYear(b));
  }
}
