/**
 * Calendar dates as Python's `datetime.date` sees them: the proleptic
 * Gregorian calendar over years 1..9999, the constructor's range checks,
 * `toordinal()` (day 1 is 0001-01-01) and `strftime("%Y-%m-%d")`.
 */
module Calendar {
  import opened Wrappers
  import opened Text

  const MinYear: int := 1
  const MaxYear: int := 9999

  datatype Date = Date(year: int, month: int, day: int)

  predicate IsLeap(y: int) {
    y % 4 == 0 && (y % 100 != 0 || y % 400 == 0)
  }

  function DaysInMonth(y: int, m: int): (n: int)
    requires 1 <= m <= 12
    ensures 28 <= n <= 31
  {
    if m == 2 then (if IsLeap(y) then 29 else 28)
    else if m == 4 || m == 6 || m == 9 || m == 11 then 30
    else 31
  }

  function DaysInYear(y: int): int {
    if IsLeap(y) then 366 else 365
  }

  predicate IsValid(d: Date) {
    MinYear <= d.year <= MaxYear && 1 <= d.month <= 12 && 1 <= d.day <= DaysInMonth(d.year, d.month)
  }

  /** A date `datetime.date` can hold. */
  type ValidDate = d: Date | IsValid(d) witness Date(1, 1, 1)

  /** The range of a C `int`, which the constructor's arguments are read into. */
  const CIntMin: int := -0x8000_0000
  const CIntMax: int := 0x7FFF_FFFF

  /** The range of a 64-bit C `long`, through which each argument is read first. */
  const CLongMin: int := -0x8000_0000_0000_0000
  const CLongMax: int := 0x7FFF_FFFF_FFFF_FFFF

  /** The `OverflowError` of reading one argument into a C `int`, if any: beyond a
      C `long` the conversion to `long` fails first, with its own message. */
  function CIntOverflow(n: int): (r: Option<string>)
    ensures r.None? <==> CIntMin <= n <= CIntMax
    ensures (n < CLongMin || n > CLongMax) <==> r == Some("Python int too large to convert to C long")
  {
    if n > CLongMax || n < CLongMin then Some("Python int too large to convert to C long")
    else if n > CIntMax then Some("signed integer is greater than maximum")
    else if n < CIntMin then Some("signed integer is less than minimum")
    else None
  }

  /** `datetime.date(year, month, day)`: each argument is first read into a C
      `int` (an `OverflowError` for the first that does not fit), then the range
      checks run in the constructor's order, with the messages of its `ValueError`. */
  function MakeDate(year: int, month: int, day: int): (r: Result<Date, string>)
    ensures r.Ok? <==> IsValid(Date(year, month, day))
    ensures r.Ok? ==> r.value == Date(year, month, day)
    ensures CIntOverflow(year).Some? ==> r == Err(CIntOverflow(year).value)
    ensures CIntOverflow(year).None? && CIntOverflow(month).Some? ==> r == Err(CIntOverflow(month).value)
    ensures CIntOverflow(year).None? && CIntOverflow(month).None? && CIntOverflow(day).Some? ==>
      r == Err(CIntOverflow(day).value)
  {
    if CIntOverflow(year).Some? then Err(CIntOverflow(year).value)
    else if CIntOverflow(month).Some? then Err(CIntOverflow(month).value)
    else if CIntOverflow(day).Some? then Err(CIntOverflow(day).value)
    else if year < MinYear || year > MaxYear then Err("year " + IntToString(year) + " is out of range")
    else if month < 1 || month > 12 then Err("month must be in 1..12")
    else if day < 1 || day > DaysInMonth(year, month) then Err("day is out of range for month")
    else Ok(Date(year, month, day))
  }

  /** Days in the years before `y`, as in CPython's `_days_before_year`. */
  function DaysBeforeYear(y: int): int {
    var y1 := y - 1;
    y1 * 365 + y1 / 4 - y1 / 100 + y1 / 400
  }

  /** Days in the months of year `y` before month `m`, from CPython's cumulative
      table plus the leap day once February is over. */
  function DaysBeforeMonth(y: int, m: int): nat
    requires 1 <= m <= 12
  {
    [0, 31, 59, 90, 120, 151, 181, 212, 243, 273, 304, 334][m - 1] + (if m > 2 && IsLeap(y) then 1 else 0)
  }

  /** `d.toordinal()`. */
  function ToOrdinal(d: Date): int
    requires IsValid(d)
  {
    DaysBeforeYear(d.year) + DaysBeforeMonth(d.year, d.month) + d.day
  }

  /** `d.strftime("%Y-%m-%d")`. */
  function IsoFormat(d: Date): string
    requires IsValid(d)
  {
    ZeroPad(NatToString(d.year), 4) + "-" + ZeroPad(NatToString(d.month), 2) + "-" + ZeroPad(NatToString(d.day), 2)
  }

  /** `d1` is an earlier calendar day than `d2`. */
  predicate Before(d1: Date, d2: Date) {
    d1.year < d2.year
    || (d1.year == d2.year && (d1.month < d2.month || (d1.month == d2.month && d1.day < d2.day)))
  }

  lemma YearLength(y: int)
    ensures DaysBeforeMonth(y, 12) + DaysInMonth(y, 12) == DaysInYear(y)
  {
  }

  /** The cumulative table agrees with the month lengths. */
  lemma MonthAfterMonth(y: int, m: int)
    requires 1 <= m < 12
    ensures DaysBeforeMonth(y, m + 1) == DaysBeforeMonth(y, m) + DaysInMonth(y, m)
  {
  }

  lemma {:induction false} MonthsBefore(y: int, m1: int, m2: int)
    requires 1 <= m1 < m2 <= 12
    ensures DaysBeforeMonth(y, m1) + DaysInMonth(y, m1) <= DaysBeforeMonth(y, m2)
  {
    MonthAfterMonth(y, m2 - 1);
    if m1 < m2 - 1 {
      MonthsBefore(y, m1, m2 - 1);
    }
  }

  lemma DivStep4(y: int)
    ensures y / 4 - (y - 1) / 4 == if y % 4 == 0 then 1 else 0
  {
  }

  lemma DivStep100(y: int)
    ensures y / 100 - (y - 1) / 100 == if y % 100 == 0 then 1 else 0
  {
  }

  lemma DivStep400(y: int)
    ensures y / 400 - (y - 1) / 400 == if y % 400 == 0 then 1 else 0
  {
  }

  /** A year holds exactly as many days as the leap-year rule says. */
  lemma DaysBeforeNextYear(y: int)
    ensures DaysBeforeYear(y + 1) == DaysBeforeYear(y) + DaysInYear(y)
  {
    DivStep4(y);
    DivStep100(y);
    DivStep400(y);
    CenturiesAreLeapCandidates(y);
    var y1 := y - 1;
    assert DaysBeforeYear(y + 1) - DaysBeforeYear(y) == 365 + (y / 4 - y1 / 4) - (y / 100 - y1 / 100) + (y / 400 - y1 / 400);
  }

  /** Every 400th year is a 100th year, and every 100th year a 4th year. */
  lemma CenturiesAreLeapCandidates(y: int)
    ensures y % 100 == 0 ==> y % 4 == 0
    ensures y % 400 == 0 ==> y % 100 == 0
  {
    if y % 100 == 0 {
      assert y == 4 * (25 * (y / 100));
    }
    if y % 400 == 0 {
      assert y == 100 * (4 * (y / 400));
    }
  }

  lemma {:induction false} YearsBefore(y1: int, y2: int)
    requires y1 < y2
    ensures DaysBeforeYear(y1) + DaysInYear(y1) <= DaysBeforeYear(y2)
    decreases y2 - y1
  {
    DaysBeforeNextYear(y1);
    if y1 + 1 < y2 {
      YearsBefore(y1 + 1, y2);
      assert DaysInYear(y1 + 1) >= 0;
    }
  }

  lemma OrdinalWithinYear(d: Date)
    requires IsValid(d)
    ensures DaysBeforeYear(d.year) < ToOrdinal(d) <= DaysBeforeYear(d.year) + DaysInYear(d.year)
  {
    if d.month < 12 {
      MonthsBefore(d.year, d.month, 12);
    }
    YearLength(d.year);
  }

  lemma {:induction false} OrdinalMonotone(d1: Date, d2: Date)
    requires IsValid(d1) && IsValid(d2) && Before(d1, d2)
    ensures ToOrdinal(d1) < ToOrdinal(d2)
  {
    if d1.year < d2.year {
      OrdinalWithinYear(d1);
      OrdinalWithinYear(d2);
      YearsBefore(d1.year, d2.year);
    } else if d1.month < d2.month {
      MonthsBefore(d1.year, d1.month, d2.month);
    }
  }

  /** Ordinals order dates as the calendar does, and tell distinct dates apart. */
  lemma OrdinalOrder(d1: Date, d2: Date)
    requires IsValid(d1) && IsValid(d2)
    ensures ToOrdinal(d1) < ToOrdinal(d2) <==> Before(d1, d2)
    ensures ToOrdinal(d1) == ToOrdinal(d2) <==> d1 == d2
  {
    if Before(d1, d2) {
      OrdinalMonotone(d1, d2);
    } else if Before(d2, d1) {
      OrdinalMonotone(d2, d1);
    }
  }

  /** The calendar day after `d`. */
  function NextDay(d: Date): Date
    requires IsValid(d)
  {
    if d.day < DaysInMonth(d.year, d.month) then Date(d.year, d.month, d.day + 1)
    else if d.month < 12 then Date(d.year, d.month + 1, 1)
    else Date(d.year + 1, 1, 1)
  }

  /** Consecutive calendar days have consecutive ordinals. */
  lemma OrdinalOfNextDay(d: Date)
    requires IsValid(d) && IsValid(NextDay(d))
    ensures ToOrdinal(NextDay(d)) == ToOrdinal(d) + 1
  {
    if d.day < DaysInMonth(d.year, d.month) {
    } else if d.month < 12 {
      MonthAfterMonth(d.year, d.month);
    } else {
      DaysBeforeNextYear(d.year);
      YearLength(d.year);
    }
  }

  /** The `%Y-%m-%d` rendering is ten characters, and its dash-separated
      fields read back as the year, the month and the day. */
  lemma IsoFormatFields(d: Date)
    requires IsValid(d)
    ensures |IsoFormat(d)| == 10
    ensures Split(IsoFormat(d), '-') == [ZeroPad(NatToString(d.year), 4), ZeroPad(NatToString(d.month), 2), ZeroPad(NatToString(d.day), 2)]
    ensures ParseDecimal(Split(IsoFormat(d), '-')[0]) == Some(d.year)
    ensures ParseDecimal(Split(IsoFormat(d), '-')[1]) == Some(d.month)
    ensures ParseDecimal(Split(IsoFormat(d), '-')[2]) == Some(d.day)
  {
    IsoFormatPieces(d);
    ParsePadded(d.year, 4);
    ParsePadded(d.month, 2);
    ParsePadded(d.day, 2);
  }

  lemma IsoFormatPieces(d: Date)
    requires IsValid(d)
    ensures |IsoFormat(d)| == 10
    ensures Split(IsoFormat(d), '-') == [ZeroPad(NatToString(d.year), 4), ZeroPad(NatToString(d.month), 2), ZeroPad(NatToString(d.day), 2)]
  {
    var y, m, dd := ZeroPad(NatToString(d.year), 4), ZeroPad(NatToString(d.month), 2), ZeroPad(NatToString(d.day), 2);
    NatToStringLength(d.year, 4);
    NatToStringLength(d.month, 2);
    NatToStringLength(d.day, 2);
    DigitsHaveNoDash(y);
    DigitsHaveNoDash(m);
    DigitsHaveNoDash(dd);
    Split3(y, m, dd, '-');
  }

  lemma {:induction false} NatToStringLength(n: nat, width: nat)
    requires width >= 1 && n < Pow10(width)
    ensures |NatToString(n)| <= width
  {
    if n >= 10 {
      assert width >= 2;
      assert n / 10 < Pow10(width - 1);
      NatToStringLength(n / 10, width - 1);
    }
  }

  function Pow10(k: nat): nat {
    if k == 0 then 1 else 10 * Pow10(k - 1)
  }

  lemma DigitsHaveNoDash(s: string)
    requires AllDigits(s)
    ensures '-' !in s
  {
  }
}
