/**
 * The part of Python's `datetime.date` the assistant uses: the proleptic
 * Gregorian calendar over years 1..9999, the constructor's range checks,
 * `replace(year=...)`, adding whole days, comparison, `weekday()`,
 * `strptime(s, "%d.%m.%Y")` and `strftime("%d.%m.%Y")`.
 * Day arithmetic goes through the ordinal (day 1 is 0001-01-01), as
 * `date.toordinal` does.
 */
module Dates {
  import opened Errors
  import opened Text

  datatype Date = Date(year: int, month: int, day: int)

  const MinYear := 1
  const MaxYear := 9999
  const MaxDate := Date(9999, 12, 31)

  predicate IsLeap(y: int) {
    y % 4 == 0 && (y % 100 != 0 || y % 400 == 0)
  }

  function DaysInMonth(y: int, m: int): int
    requires 1 <= m <= 12
  {
    if m == 2 then (if IsLeap(y) then 29 else 28)
    else if m == 4 || m == 6 || m == 9 || m == 11 then 30
    else 31
  }

  function DaysInYear(y: int): int {
    if IsLeap(y) then 366 else 365
  }

  /** A real calendar date that `datetime.date` can hold. */
  predicate Valid(d: Date) {
    && MinYear <= d.year <= MaxYear
    && 1 <= d.month <= 12
    && 1 <= d.day <= DaysInMonth(d.year, d.month)
  }

  /** The constructor `date(y, m, d)`, with its ValueError on a non-date. */
  function MakeDate(y: int, m: int, d: int): (r: Outcome<Date>)
    ensures r.Ok? <==> Valid(Date(y, m, d))
    ensures r.Ok? ==> r.value == Date(y, m, d)
    ensures r.Raised? ==> r.exc.ValueError?
  {
    if !(MinYear <= y <= MaxYear) then Raised(ValueError("year " + NatToString(if y < 0 then -y else y) + " is out of range"))
    else if !(1 <= m <= 12) then Raised(ValueError("month must be in 1..12"))
    else if !(1 <= d <= DaysInMonth(y, m)) then Raised(ValueError("day is out of range for month"))
    else Ok(Date(y, m, d))
  }

  /** `d.replace(year=y)`. */
  function ReplaceYear(d: Date, y: int): Outcome<Date> {
    MakeDate(y, d.month, d.day)
  }

  /** Python's `a < b` on dates: lexicographic on (year, month, day). */
  predicate Before(a: Date, b: Date) {
    a.year < b.year
    || (a.year == b.year && a.month < b.month)
    || (a.year == b.year && a.month == b.month && a.day < b.day)
  }

  // ---------------------------------------------------------------------
  // Ordinals and weekdays
  // ---------------------------------------------------------------------

  function DaysBeforeYear(y: int): int {
    var z := y - 1;
    z * 365 + z / 4 - z / 100 + z / 400
  }

  function DaysBeforeMonth(y: int, m: int): int
    requires 1 <= m <= 12
  {
    [0, 31, 59, 90, 120, 151, 181, 212, 243, 273, 304, 334][m - 1]
    + (if m > 2 && IsLeap(y) then 1 else 0)
  }

  /** `date.toordinal()`: 0001-01-01 is day 1. */
  function Ordinal(d: Date): int
    requires 1 <= d.month <= 12
  {
    DaysBeforeYear(d.year) + DaysBeforeMonth(d.year, d.month) + d.day
  }

  const MaxOrdinal := 3652059

  /** `date.weekday()`: Monday is 0 and Sunday is 6. */
  function Weekday(d: Date): int
    requires 1 <= d.month <= 12
  {
    (Ordinal(d) + 6) % 7
  }

  function NextDay(d: Date): (r: Date)
    requires Valid(d) && d != MaxDate
    ensures Valid(r) && Ordinal(r) == Ordinal(d) + 1
  {
    if d.day < DaysInMonth(d.year, d.month) then Date(d.year, d.month, d.day + 1)
    else if d.month < 12 then
      assert DaysBeforeMonth(d.year, d.month + 1) == DaysBeforeMonth(d.year, d.month) + DaysInMonth(d.year, d.month);
      Date(d.year, d.month + 1, 1)
    else
      DaysBeforeYearStep(d.year);
      Date(d.year + 1, 1, 1)
  }

  /** The date `n` days after `d`, when it is still representable. */
  function Shift(d: Date, n: nat): (r: Date)
    requires Valid(d) && Ordinal(d) + n <= MaxOrdinal
    ensures Valid(r) && Ordinal(r) == Ordinal(d) + n
    decreases n
  {
    if n == 0 then d else Shift(NextDay(d), n - 1)
  }

  /** `d + timedelta(days=n)`, with its OverflowError past 9999-12-31. */
  function AddDays(d: Date, n: nat): (r: Outcome<Date>)
    requires Valid(d)
  {
    if Ordinal(d) + n > MaxOrdinal then Raised(OtherError("OverflowError", "date value out of range"))
    else Ok(Shift(d, n))
  }

  // ---------------------------------------------------------------------
  // Text form: strptime and strftime with "%d.%m.%Y"
  // ---------------------------------------------------------------------

  /** The text before the first '.', and the text after it. */
  function SplitAtDot(s: string): (r: Option<(string, string)>)
    ensures r.None? <==> '.' !in s
    ensures r.Some? ==> '.' !in r.value.0 && s == r.value.0 + "." + r.value.1
  {
    if s == [] then None
    else if s[0] == '.' then Some(([], s[1..]))
    else match SplitAtDot(s[1..])
      case None => None
      case Some((a, b)) => Some(([s[0]] + a, b))
  }

  predicate NonZeroDigit(c: char) { '1' <= c <= '9' }

  function TwoDigitValue(t: string): int
    requires |t| == 2 && IsDigit(t[0]) && IsDigit(t[1])
  {
    DigitValue(t[0]) * 10 + DigitValue(t[1])
  }

  /** Text that `%d` matches: `3[01]|[12]\d|0[1-9]|[1-9]| [1-9]`. */
  predicate DayText(t: string) {
    || (|t| == 1 && NonZeroDigit(t[0]))
    || (|t| == 2 && t[0] == ' ' && NonZeroDigit(t[1]))
    || (|t| == 2 && IsDigit(t[0]) && IsDigit(t[1]) && 1 <= TwoDigitValue(t) <= 31)
  }

  /** Text that `%m` matches: `1[0-2]|0[1-9]|[1-9]`. */
  predicate MonthText(t: string) {
    || (|t| == 1 && NonZeroDigit(t[0]))
    || (|t| == 2 && IsDigit(t[0]) && IsDigit(t[1]) && 1 <= TwoDigitValue(t) <= 12)
  }

  /** Text that `%Y` matches: four digits. */
  predicate YearText(t: string) {
    |t| == 4 && AllDigits(t)
  }

  /** The number a `%d` or `%m` field stands for. */
  function FieldValue(t: string): int
    requires DayText(t) || MonthText(t)
  {
    if |t| == 1 then DigitValue(t[0])
    else if t[0] == ' ' then DigitValue(t[1])
    else TwoDigitValue(t)
  }

  /** `datetime.strptime(s, "%d.%m.%Y").date()`: `None` where it raises ValueError. */
  function ParseDate(s: string): (r: Option<Date>)
    ensures r.Some? ==> Valid(r.value)
  {
    match SplitAtDot(s)
    case None => None
    case Some((dt, rest)) =>
      match SplitAtDot(rest)
      case None => None
      case Some((mt, yt)) =>
        if DayText(dt) && MonthText(mt) && YearText(yt) then
          var d := Date(DecimalValue(yt), FieldValue(mt), FieldValue(dt));
          if Valid(d) then Some(d) else None
        else None
  }

  function Pad2(n: nat): (t: string)
    requires n < 100
    ensures |t| == 2 && IsDigit(t[0]) && IsDigit(t[1]) && TwoDigitValue(t) == n
  {
    [DigitChar(n / 10), DigitChar(n % 10)]
  }

  function Pad4(n: nat): (t: string)
    requires n < 10000
    ensures YearText(t) && DecimalValue(t) == n
  {
    var t := [DigitChar(n / 1000), DigitChar(n / 100 % 10), DigitChar(n / 10 % 10), DigitChar(n % 10)];
    assert DecimalValue(t[..1]) == n / 1000 by {
      assert t[..1][..0] == [];
    }
    assert DecimalValue(t[..2]) == n / 100 by {
      assert t[..2][..1] == t[..1];
    }
    assert DecimalValue(t[..3]) == n / 10 by {
      assert t[..3][..2] == t[..2];
    }
    assert t[..4] == t;
    t
  }

  /** `d.strftime("%d.%m.%Y")`: zero-padded day, month and four-digit year. */
  function FormatDate(d: Date): string
    requires Valid(d)
  {
    Pad2(d.day) + "." + Pad2(d.month) + "." + Pad4(d.year)
  }

  // ---------------------------------------------------------------------
  // Properties
  // ---------------------------------------------------------------------

  lemma DivStep(y: int)
    ensures y / 4 - (y - 1) / 4 == (if y % 4 == 0 then 1 else 0)
    ensures y / 100 - (y - 1) / 100 == (if y % 100 == 0 then 1 else 0)
    ensures y / 400 - (y - 1) / 400 == (if y % 400 == 0 then 1 else 0)
  {
  }

  /** Consecutive years start `DaysInYear` days apart. */
  lemma DaysBeforeYearStep(y: int)
    ensures DaysBeforeYear(y + 1) == DaysBeforeYear(y) + DaysInYear(y)
  {
    DivStep(y);
  }

  lemma {:induction false} DaysBeforeYearMonotone(y1: int, y2: int)
    requires y1 < y2
    ensures DaysBeforeYear(y1) + DaysInYear(y1) <= DaysBeforeYear(y2)
    decreases y2 - y1
  {
    DaysBeforeYearStep(y1);
    if y1 + 1 < y2 {
      DaysBeforeYearMonotone(y1 + 1, y2);
    }
  }

  lemma OrdinalWithinYear(d: Date)
    requires Valid(d)
    ensures DaysBeforeYear(d.year) < Ordinal(d) <= DaysBeforeYear(d.year) + DaysInYear(d.year)
  {
  }

  lemma OrdinalWithinMonth(y: int, m1: int, d1: int, m2: int, d2: int)
    requires Valid(Date(y, m1, d1)) && Valid(Date(y, m2, d2)) && m1 < m2
    ensures Ordinal(Date(y, m1, d1)) < Ordinal(Date(y, m2, d2))
  {
  }

  lemma BeforeImpliesSmallerOrdinal(a: Date, b: Date)
    requires Valid(a) && Valid(b) && Before(a, b)
    ensures Ordinal(a) < Ordinal(b)
  {
    if a.year < b.year {
      OrdinalWithinYear(a);
      OrdinalWithinYear(b);
      DaysBeforeYearMonotone(a.year, b.year);
    } else if a.month < b.month {
      OrdinalWithinMonth(a.year, a.month, a.day, b.month, b.day);
    }
  }

  /**
   * Python compares dates field by field; that order is the order of their
   * day numbers, so "on or before" can be read as a difference in days.
   */
  lemma BeforeIffOrdinal(a: Date, b: Date)
    requires Valid(a) && Valid(b)
    ensures Before(a, b) <==> Ordinal(a) < Ordinal(b)
    ensures a == b <==> Ordinal(a) == Ordinal(b)
  {
    if Before(a, b) {
      BeforeImpliesSmallerOrdinal(a, b);
    } else if Before(b, a) {
      BeforeImpliesSmallerOrdinal(b, a);
    }
  }

  /** Adding days moves the day number by exactly that much, or overflows past 9999-12-31. */
  lemma AddDaysOrdinal(d: Date, n: nat)
    requires Valid(d)
    ensures AddDays(d, n).Ok? <==> Ordinal(d) + n <= Ordinal(MaxDate)
    ensures AddDays(d, n).Ok? ==> Valid(AddDays(d, n).value) && Ordinal(AddDays(d, n).value) == Ordinal(d) + n
  {
    assert Ordinal(MaxDate) == MaxOrdinal;
  }

  /** Consecutive days have consecutive weekdays. */
  lemma WeekdayNext(d: Date)
    requires Valid(d) && d != MaxDate
    ensures Weekday(NextDay(d)) == (Weekday(d) + 1) % 7
  {
    WeekdayAdvance(d, NextDay(d));
  }

  /** Weekdays advance with the day number, modulo seven. */
  lemma WeekdayAdvance(a: Date, b: Date)
    requires 1 <= a.month <= 12 && 1 <= b.month <= 12
    ensures Weekday(b) == (Weekday(a) + (Ordinal(b) - Ordinal(a))) % 7
  {
    var x, k := Ordinal(a) + 6, Ordinal(b) - Ordinal(a);
    var q := x / 7;
    assert x == 7 * q + Weekday(a);
    assert x + k == 7 * q + (Weekday(a) + k);
  }

  lemma FieldValueOfPad2(n: nat, lo: int, hi: int)
    requires 1 <= lo <= n <= hi < 100
    ensures |Pad2(n)| == 2 && TwoDigitValue(Pad2(n)) == n
  {
  }

  /** Formatting a date and parsing the text back gives the same date. */
  lemma ParseFormat(d: Date)
    requires Valid(d)
    ensures ParseDate(FormatDate(d)) == Some(d)
  {
    var dt, mt, yt := Pad2(d.day), Pad2(d.month), Pad4(d.year);
    assert '.' !in dt && '.' !in mt;
    ParseFields(dt, mt, yt);
    assert DayText(dt) && MonthText(mt);
    assert FieldValue(dt) == d.day && FieldValue(mt) == d.month;
  }

  /**
   * The accepted texts exactly: for a day field and a month field without
   * dots, `dt.mt.yt` parses iff the three fields have the `%d`, `%m`, `%Y`
   * shapes and name a real date.
   */
  lemma ParseFields(dt: string, mt: string, yt: string)
    requires '.' !in dt && '.' !in mt
    ensures ParseDate(dt + "." + mt + "." + yt) ==
      (if DayText(dt) && MonthText(mt) && YearText(yt)
          && Valid(Date(DecimalValue(yt), FieldValue(mt), FieldValue(dt)))
       then Some(Date(DecimalValue(yt), FieldValue(mt), FieldValue(dt)))
       else None)
  {
    var s := dt + "." + mt + "." + yt;
    SplitAtDotOf(dt, mt + "." + yt);
    assert s == dt + "." + (mt + "." + yt);
    SplitAtDotOf(mt, yt);
  }

  lemma SplitAtDotOf(a: string, b: string)
    requires '.' !in a
    ensures SplitAtDot(a + "." + b) == Some((a, b))
  {
    var r := SplitAtDot(a + "." + b);
    var (a', b') := r.value;
    SplitUnique(a, b, a', b');
  }

  lemma {:induction false} SplitUnique(a: string, b: string, a': string, b': string)
    requires '.' !in a && '.' !in a' && a + "." + b == a' + "." + b'
    ensures a == a' && b == b'
    decreases |a|
  {
    if |a| < |a'| {
      DotAfter(a, b);
      assert false;
    } else if |a'| < |a| {
      DotAfter(a', b');
      assert false;
    } else {
      assert (a + "." + b)[..|a|] == a;
      assert (a' + "." + b')[..|a|] == a';
      assert (a + "." + b)[|a| + 1..] == b;
      assert (a' + "." + b')[|a| + 1..] == b';
    }
  }

  lemma DotAfter(a: string, b: string)
    ensures (a + "." + b)[|a|] == '.'
  {
  }

  /** Text with fewer than two dots is never a date. */
  lemma ParseNeedsTwoDots(s: string)
    requires '.' !in s || exists a, b :: '.' !in a && '.' !in b && s == a + "." + b
    ensures ParseDate(s) == None
  {
    if '.' in s {
      var a, b :| '.' !in a && '.' !in b && s == a + "." + b;
      SplitAtDotOf(a, b);
    }
  }
}
