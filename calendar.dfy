/** Dates as `datetime.strptime` reads them with the formats `%d/%m/%Y`
    and `%d/%m/%Y %H:%M`, as `strftime("%d/%m/%Y")` writes them, the
    proleptic Gregorian day count behind `date.weekday()`, and `proximo_dia`
    (rpa_hashtag.py:198-206). */
module Calendar {
  import opened Wrappers
  import opened Text

  datatype Date = Date(year: int, month: int, day: int)

  datatype DateTime = DateTime(date: Date, hour: int, minute: int)

  predicate IsLeap(y: int) {
    y % 4 == 0 && (y % 100 != 0 || y % 400 == 0)
  }

  function DaysInMonth(y: int, m: int): (n: int)
    requires 1 <= m <= 12
    ensures 28 <= n <= 31
  {
    if m == 2 then (if IsLeap(y) then 29 else 28)
    else if m == 4 || m == 6 || m == 9 || m == 11 then 30
    else 31
  }

  /** What `datetime(year, month, day)` accepts: years 1 to 9999. */
  predicate ValidDate(d: Date) {
    1 <= d.year <= 9999 && 1 <= d.month <= 12 && 1 <= d.day <= DaysInMonth(d.year, d.month)
  }

  // ---------------------------------------------------------------------
  // Numeric fields of strptime
  // ---------------------------------------------------------------------

  predicate AllDigits(s: string) {
    forall i :: 0 <= i < |s| ==> IsDigit(s[i])
  }

  /** The decimal value of a run of digits. */
  function DigitsValue(s: string): (v: nat)
    requires AllDigits(s)
    decreases |s|
  {
    if s == [] then 0 else 10 * DigitsValue(s[..|s| - 1]) + DigitValue(s[|s| - 1])
  }

  /** A field of one digit, or of two digits whose value lies in `lo..hi`:
      the shape shared by the regexes of `%m` (`1[0-2]|0[1-9]|[1-9]`),
      `%H` (`2[0-3]|[0-1]\d|\d`) and `%M` (`[0-5]\d|\d`). */
  function NumberField(f: string, lo: int, hi: int): (r: Option<int>)
    ensures r.Some? ==> lo <= r.value <= hi
  {
    if 1 <= |f| <= 2 && AllDigits(f) && lo <= DigitsValue(f) <= hi then
      (if |f| == 1 && DigitsValue(f) < lo then None else Some(DigitsValue(f)))
    else None
  }

  /** `%d`: `3[0-1]|[1-2]\d|0[1-9]|[1-9]| [1-9]`, so also a space before a
      single digit. */
  function DayField(f: string): (r: Option<int>)
    ensures r.Some? ==> 1 <= r.value <= 31
  {
    if |f| == 2 && f[0] == ' ' && IsDigit(f[1]) && f[1] != '0' then Some(DigitValue(f[1]))
    else NumberField(f, 1, 31)
  }

  function MonthField(f: string): (r: Option<int>)
    ensures r.Some? ==> 1 <= r.value <= 12
  {
    NumberField(f, 1, 12)
  }

  /** `%Y`: exactly four digits. */
  function YearField(f: string): (r: Option<int>)
    ensures r.Some? ==> 0 <= r.value <= 9999
  {
    if |f| == 4 && AllDigits(f) then DigitsBound(f); Some(DigitsValue(f)) else None
  }

  function Pow10(k: nat): (p: nat)
    ensures p >= 1
  {
    if k == 0 then 1 else 10 * Pow10(k - 1)
  }

  lemma {:induction false} DigitsBound(s: string)
    requires AllDigits(s)
    ensures DigitsValue(s) < Pow10(|s|)
    decreases |s|
  {
    if s != [] {
      DigitsBound(s[..|s| - 1]);
    }
  }

  /** Day, month and year checked together, as the `datetime` constructor does. */
  function MakeDate(d: Option<int>, m: Option<int>, y: Option<int>): (r: Option<Date>)
    ensures r.Some? ==> ValidDate(r.value)
  {
    if d.Some? && m.Some? && y.Some? && ValidDate(Date(y.value, m.value, d.value))
    then Some(Date(y.value, m.value, d.value))
    else None
  }

  /** `datetime.strptime(s, "%d/%m/%Y")`, `None` where it raises ValueError.
      None of the fields can hold a `/`, so the regex match splits `s` at its
      two slashes and matches the whole of it. */
  function ParseDate(s: string): (r: Option<Date>)
    ensures r.Some? ==> ValidDate(r.value)
  {
    var parts := Split(s, '/');
    if |parts| != 3 then None
    else MakeDate(DayField(parts[0]), MonthField(parts[1]), YearField(parts[2]))
  }

  /** The ` %H:%M` end of `"%d/%m/%Y %H:%M"`: the space of the format
      matches one or more whitespace characters. */
  function ParseClock(tail: string): (r: Option<(int, int)>)
    ensures r.Some? ==> 0 <= r.value.0 <= 23 && 0 <= r.value.1 <= 59
  {
    var hm := Split(TrimLeft(tail), ':');
    if tail == [] || !IsSpace(tail[0]) || |hm| != 2 then None
    else
      var h := NumberField(hm[0], 0, 23);
      var m := NumberField(hm[1], 0, 59);
      if h.None? || m.None? then None else Some((h.value, m.value))
  }

  /** `datetime.strptime(s, "%d/%m/%Y %H:%M")`. */
  function ParseDateTime(s: string): (r: Option<DateTime>)
    ensures r.Some? ==> ValidDateTime(r.value)
  {
    var parts := Split(s, '/');
    if |parts| != 3 || |parts[2]| < 4 then None
    else
      var date := MakeDate(DayField(parts[0]), MonthField(parts[1]), YearField(parts[2][..4]));
      var clock := ParseClock(parts[2][4..]);
      if date.None? || clock.None? then None
      else Some(DateTime(date.value, clock.value.0, clock.value.1))
  }

  // ---------------------------------------------------------------------
  // strftime("%d/%m/%Y")
  // ---------------------------------------------------------------------

  function DigitChar(n: int): (c: char)
    requires 0 <= n < 10
    ensures IsDigit(c) && DigitValue(c) == n
  {
    ('0' as int + n) as char
  }

  /** `n` written with exactly `width` digits, zero-padded. */
  function Padded(n: nat, width: nat): (s: string)
    ensures |s| == width && AllDigits(s)
  {
    if width == 0 then [] else Padded(n / 10, width - 1) + [DigitChar(n % 10)]
  }

  function FormatDate(d: Date): string
    requires ValidDate(d)
  {
    Padded(d.day, 2) + "/" + Padded(d.month, 2) + "/" + Padded(d.year, 4)
  }

  predicate ValidDateTime(t: DateTime) {
    ValidDate(t.date) && 0 <= t.hour <= 23 && 0 <= t.minute <= 59
  }

  /** `strftime("%d/%m/%Y %H:%M")`. */
  function FormatDateTime(t: DateTime): string
    requires ValidDateTime(t)
  {
    FormatDate(t.date) + " " + Padded(t.hour, 2) + ":" + Padded(t.minute, 2)
  }

  // ---------------------------------------------------------------------
  // Day arithmetic
  // ---------------------------------------------------------------------

  /** The day after `d` (`d + timedelta(days=1)`). */
  function NextDay(d: Date): Date
    requires ValidDate(d)
  {
    if d.day < DaysInMonth(d.year, d.month) then Date(d.year, d.month, d.day + 1)
    else if d.month < 12 then Date(d.year, d.month + 1, 1)
    else Date(d.year + 1, 1, 1)
  }

  /** The last date `datetime` can represent. */
  const MaxDate := Date(9999, 12, 31)

  function DaysBeforeYear(y: int): int
    requires y >= 1
  {
    var p := y - 1;
    p * 365 + p / 4 - p / 100 + p / 400
  }

  function DaysBeforeMonth(y: int, m: int): (n: int)
    requires 1 <= m <= 12
    ensures 28 * (m - 1) <= n <= 31 * (m - 1)
    decreases m
  {
    if m == 1 then 0 else DaysBeforeMonth(y, m - 1) + DaysInMonth(y, m - 1)
  }

  /** `date.toordinal()`: 1 January of year 1 is day 1. */
  function Ordinal(d: Date): int
    requires ValidDate(d)
  {
    DaysBeforeYear(d.year) + DaysBeforeMonth(d.year, d.month) + d.day
  }

  /** `date.weekday()`: Monday is 0 and Sunday 6. */
  function Weekday(d: Date): (w: int)
    requires ValidDate(d)
    ensures 0 <= w < 7
  {
    (Ordinal(d) + 6) % 7
  }

  /** `proximo_dia(s)`: the next day in the same format; text that does not
      parse is given back unchanged (the ValueError is caught), and the day
      after 31/12/9999 raises OverflowError, which is not caught. */
  function ProximoDia(s: string): Outcome<string> {
    match ParseDate(s)
    case None => Returns(s)
    case Some(d) => if d == MaxDate then Raises else Returns(FormatDate(NextDay(d)))
  }

  // ---------------------------------------------------------------------
  // Facts
  // ---------------------------------------------------------------------

  lemma {:induction false} NextDayValid(d: Date)
    requires ValidDate(d) && d != MaxDate
    ensures ValidDate(NextDay(d))
  {
  }

  /** Going from `n - 1` to `n` raises `n / k` by one exactly when `k`
      divides `n`, for the three divisors of the leap-year rule. */
  lemma {:induction false} LeapDivSteps(n: int)
    ensures n / 4 == (n - 1) / 4 + (if n % 4 == 0 then 1 else 0)
    ensures n / 100 == (n - 1) / 100 + (if n % 100 == 0 then 1 else 0)
    ensures n / 400 == (n - 1) / 400 + (if n % 400 == 0 then 1 else 0)
  {
  }

  lemma {:induction false} DaysBeforeYearNext(y: int)
    requires y >= 1
    ensures DaysBeforeYear(y + 1) == DaysBeforeYear(y) + (if IsLeap(y) then 366 else 365)
  {
    LeapDivSteps(y);
  }

  lemma {:induction false} DaysInYear(y: int)
    ensures DaysBeforeMonth(y, 12) + DaysInMonth(y, 12) == (if IsLeap(y) then 366 else 365)
  {
    var f := if IsLeap(y) then 29 else 28;
    assert DaysBeforeMonth(y, 3) == 31 + f;
    assert DaysBeforeMonth(y, 6) == 123 + f;
    assert DaysBeforeMonth(y, 9) == 215 + f;
    assert DaysBeforeMonth(y, 12) == 306 + f;
  }

  /** The next day is one day later on the day count. */
  lemma {:induction false} OrdinalNextDay(d: Date)
    requires ValidDate(d) && d != MaxDate
    ensures ValidDate(NextDay(d)) && Ordinal(NextDay(d)) == Ordinal(d) + 1
  {
    NextDayValid(d);
    if d.day == DaysInMonth(d.year, d.month) && d.month == 12 {
      DaysBeforeYearNext(d.year);
      DaysInYear(d.year);
    }
  }

  lemma {:induction false} WeekdayNextDay(d: Date)
    requires ValidDate(d) && d != MaxDate
    ensures ValidDate(NextDay(d)) && Weekday(NextDay(d)) == (Weekday(d) + 1) % 7
  {
    OrdinalNextDay(d);
    ModSevenStep(Ordinal(d) + 6);
  }

  /** 14/10/2025 was a Tuesday. */
  lemma {:induction false} WeekdayExample()
    ensures Weekday(Date(2025, 10, 14)) == 1
  {
    assert DaysBeforeMonth(2025, 10) == 273;
  }

  lemma {:induction false} ModSevenStep(x: int)
    ensures (x + 1) % 7 == (x % 7 + 1) % 7
  {
  }

  /** The day count follows calendar order, so distinct dates have distinct
      day counts. */
  lemma {:induction false} OrdinalMonotone(a: Date, b: Date)
    requires ValidDate(a) && ValidDate(b)
    requires a.year < b.year || (a.year == b.year && a.month < b.month)
          || (a.year == b.year && a.month == b.month && a.day < b.day)
    ensures Ordinal(a) < Ordinal(b)
  {
    if a.year < b.year {
      DaysBeforeYearGrows(a.year, b.year);
      DaysBeforeMonthBound(a.year, a.month);
    } else if a.month < b.month {
      DaysBeforeMonthGrows(a.year, a.month, b.month);
    }
  }

  lemma {:induction false} DaysBeforeMonthBound(y: int, m: int)
    requires 1 <= m <= 12
    ensures DaysBeforeMonth(y, m) + DaysInMonth(y, m) <= (if IsLeap(y) then 366 else 365)
    decreases 12 - m
  {
    if m < 12 {
      DaysBeforeMonthBound(y, m + 1);
    } else {
      DaysInYear(y);
    }
  }

  lemma {:induction false} DaysBeforeMonthGrows(y: int, m: int, n: int)
    requires 1 <= m < n <= 12
    ensures DaysBeforeMonth(y, m) + DaysInMonth(y, m) <= DaysBeforeMonth(y, n)
    decreases n - m
  {
    if m + 1 < n {
      DaysBeforeMonthGrows(y, m + 1, n);
    }
  }

  lemma {:induction false} DaysBeforeYearGrows(y: int, z: int)
    requires 1 <= y < z
    ensures DaysBeforeYear(y) + (if IsLeap(y) then 366 else 365) <= DaysBeforeYear(z)
    decreases z - y
  {
    DaysBeforeYearNext(y);
    if y + 1 < z {
      DaysBeforeYearGrows(y + 1, z);
    }
  }

  lemma {:induction false} DigitsValueAppend(s: string, c: char)
    requires AllDigits(s) && IsDigit(c)
    ensures AllDigits(s + [c]) && DigitsValue(s + [c]) == 10 * DigitsValue(s) + DigitValue(c)
  {
    assert (s + [c])[..|s|] == s;
  }

  /** Zero-padding keeps the value of a number that fits the width. */
  lemma {:induction false} PaddedValue(n: nat, width: nat)
    requires n < Pow10(width)
    ensures DigitsValue(Padded(n, width)) == n
    decreases width
  {
    if width > 0 {
      PaddedValue(n / 10, width - 1);
      DigitsValueAppend(Padded(n / 10, width - 1), DigitChar(n % 10));
    }
  }

  lemma {:induction false} TwoDigitField(n: int, lo: int, hi: int)
    requires 0 <= lo <= n <= hi < 100
    ensures NumberField(Padded(n, 2), lo, hi) == Some(n)
  {
    assert Pow10(2) == 100;
    PaddedValue(n, 2);
  }

  lemma {:induction false} FieldsOfPadded(d: Date)
    requires ValidDate(d)
    ensures DayField(Padded(d.day, 2)) == Some(d.day)
    ensures MonthField(Padded(d.month, 2)) == Some(d.month)
    ensures YearField(Padded(d.year, 4)) == Some(d.year)
  {
    TwoDigitField(d.day, 1, 31);
    TwoDigitField(d.month, 1, 12);
    assert Pow10(4) == 10000;
    PaddedValue(d.year, 4);
  }

  /** Reading back what strftime wrote gives the same date. */
  lemma {:induction false} ParseFormatDate(d: Date)
    requires ValidDate(d)
    ensures ParseDate(FormatDate(d)) == Some(d)
  {
    var dd, mm, yy := Padded(d.day, 2), Padded(d.month, 2), Padded(d.year, 4);
    assert '/' !in dd && '/' !in mm && '/' !in yy by {
      assert AllDigits(dd) && AllDigits(mm) && AllDigits(yy);
    }
    SplitThree(dd, mm, yy);
    FieldsOfPadded(d);
  }

  lemma {:induction false} TrimOneSpace(x: string)
    requires x != [] && !IsSpace(x[0])
    ensures TrimLeft(" " + x) == x
  {
    assert (" " + x)[1..] == x;
  }

  lemma {:induction false} SplitHourMinute(hh: string, mi: string)
    requires AllDigits(hh) && AllDigits(mi)
    ensures Split(hh + ":" + mi, ':') == [hh, mi]
  {
    assert ':' !in hh && ':' !in mi;
    SplitAtSep(hh, ':', mi);
    SplitNoSep(mi, ':');
  }

  /** The time after the year: one space, then `HH:MM`. */
  lemma {:induction false} ParseClockOfText(h: int, m: int)
    requires 0 <= h <= 23 && 0 <= m <= 59
    ensures ParseClock(" " + Padded(h, 2) + ":" + Padded(m, 2)) == Some((h, m))
  {
    var hh, mi := Padded(h, 2), Padded(m, 2);
    assert " " + hh + ":" + mi == " " + (hh + ":" + mi);
    TrimOneSpace(hh + ":" + mi);
    SplitHourMinute(hh, mi);
    TwoDigitField(h, 0, 23);
    TwoDigitField(m, 0, 59);
  }

  lemma {:induction false} MakeDateOfText(d: Date)
    requires ValidDate(d)
    ensures MakeDate(DayField(Padded(d.day, 2)), MonthField(Padded(d.month, 2)), YearField(Padded(d.year, 4))) == Some(d)
  {
    FieldsOfPadded(d);
  }

  lemma {:induction false} SplitThree(a: string, b: string, c: string)
    requires '/' !in a && '/' !in b && '/' !in c
    ensures Split(a + "/" + b + "/" + c, '/') == [a, b, c]
  {
    assert a + "/" + b + "/" + c == a + "/" + (b + "/" + c);
    SplitAtSep(a, '/', b + "/" + c);
    SplitAtSep(b, '/', c);
    SplitNoSep(c, '/');
  }

  /** What follows the month in a written date and time. */
  lemma {:induction false} YearAndTime(t: DateTime)
    requires ValidDateTime(t)
    ensures var rest := Padded(t.date.year, 4) + " " + Padded(t.hour, 2) + ":" + Padded(t.minute, 2);
      '/' !in rest && |rest| >= 4 && rest[..4] == Padded(t.date.year, 4)
      && rest[4..] == " " + Padded(t.hour, 2) + ":" + Padded(t.minute, 2)
  {
    var yy, hh, mi := Padded(t.date.year, 4), Padded(t.hour, 2), Padded(t.minute, 2);
    assert AllDigits(yy) && AllDigits(hh) && AllDigits(mi);
    var rest := yy + " " + hh + ":" + mi;
    assert rest == yy + (" " + hh + ":" + mi);
  }

  /** Reading back a written date and time gives the same moment. */
  lemma {:induction false} ParseFormatDateTime(t: DateTime)
    requires ValidDateTime(t)
    ensures ParseDateTime(FormatDateTime(t)) == Some(t)
  {
    var d := t.date;
    var dd, mm := Padded(d.day, 2), Padded(d.month, 2);
    var rest := Padded(d.year, 4) + " " + Padded(t.hour, 2) + ":" + Padded(t.minute, 2);
    YearAndTime(t);
    assert '/' !in dd && '/' !in mm by {
      assert AllDigits(dd) && AllDigits(mm);
    }
    assert FormatDateTime(t) == dd + "/" + mm + "/" + rest;
    SplitThree(dd, mm, rest);
    MakeDateOfText(d);
    ParseClockOfText(t.hour, t.minute);
  }

  /** Text that is not a date comes back unchanged. */
  lemma {:induction false} ProximoDiaInvalid(s: string)
    requires ParseDate(s) == None
    ensures ProximoDia(s) == Returns(s)
  {
  }

  /** For a date before 31/12/9999 the result is the date one day later. */
  lemma {:induction false} ProximoDiaValid(s: string)
    requires ParseDate(s).Some? && ParseDate(s).value != MaxDate
    ensures ProximoDia(s).Returns?
    ensures var d := ParseDate(s).value; var e := ParseDate(ProximoDia(s).value);
      e.Some? && Ordinal(e.value) == Ordinal(d) + 1
  {
    var d := ParseDate(s).value;
    OrdinalNextDay(d);
    ParseFormatDate(NextDay(d));
  }

  /** The last representable date has no next day: the call raises. */
  lemma {:induction false} ProximoDiaOverflow()
    ensures ProximoDia(FormatDate(MaxDate)) == Raises
  {
    ParseFormatDate(MaxDate);
  }
}
