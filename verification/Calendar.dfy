/** The proleptic Gregorian calendar as the snapshot parser computes it, against
    a definition by counting days. */
module Calendar {
  import opened Arithmetic

  datatype Date = Date(year: int, month: int, day: int)

  predicate LeapYear(year: int) {
    year % 4 == 0 && (year % 100 != 0 || year % 400 == 0)
  }

  function MonthDays(year: int, month: int): (n: int)
    requires 1 <= month <= 12
    ensures 28 <= n <= 31
  {
    if month == 2 then (if LeapYear(year) then 29 else 28)
    else if month == 4 || month == 6 || month == 9 || month == 11 then 30
    else 31
  }

  predicate ValidDate(d: Date) {
    1 <= d.month <= 12 && 1 <= d.day <= MonthDays(d.year, d.month)
  }

  /** Division that truncates towards zero. */
  function Truncate(a: int, b: int): int
    requires b > 0
  {
    if a >= 0 then a / b else -(-a / b)
  }

  /** Days since 1970-01-01, by 400-year eras that start in March. */
  function DaysFromCivil(year: int, month: int, day: int): int
    requires 1 <= month <= 12
  {
    var y := if month <= 2 then year - 1 else year;
    var era := Truncate(if y >= 0 then y else y - 399, 400);
    var yearOfEra := y - era * 400;
    var dayOfYear := (153 * (month + (if month > 2 then -3 else 9)) + 2) / 5 + day - 1;
    var dayOfEra := yearOfEra * 365 + yearOfEra / 4 - yearOfEra / 100 + dayOfYear;
    era * 146097 + dayOfEra - 719468
  }

  function Days(d: Date): int
    requires ValidDate(d)
  {
    DaysFromCivil(d.year, d.month, d.day)
  }

  /** The following day. */
  function Next(d: Date): (n: Date)
    requires ValidDate(d)
    ensures ValidDate(n)
  {
    if d.day < MonthDays(d.year, d.month) then d.(day := d.day + 1)
    else if d.month < 12 then Date(d.year, d.month + 1, 1)
    else Date(d.year + 1, 1, 1)
  }

  function Previous(d: Date): (p: Date)
    requires ValidDate(d)
    ensures ValidDate(p) && Next(p) == d
  {
    if d.day > 1 then d.(day := d.day - 1)
    else if d.month > 1 then Date(d.year, d.month - 1, MonthDays(d.year, d.month - 1))
    else Date(d.year - 1, 12, 31)
  }

  predicate Before(a: Date, b: Date) {
    a.year < b.year || (a.year == b.year && (a.month < b.month || (a.month == b.month && a.day < b.day)))
  }

  // --- Counting days --------------------------------------------------------

  /** Days before March 1 of year y, up to a constant. */
  function MarchDays(y: int): int {
    365 * y + y / 4 - y / 100 + y / 400
  }

  /** Days from March 1 to the first of the month. */
  function MonthOffset(month: int): int {
    (153 * (if month > 2 then month - 3 else month + 9) + 2) / 5
  }

  /** The era formula without eras. */
  lemma EraFree(year: int, month: int, day: int)
    requires 1 <= month <= 12
    ensures DaysFromCivil(year, month, day) ==
            MarchDays(if month <= 2 then year - 1 else year) + MonthOffset(month) + day - 719469
  {
    var y := if month <= 2 then year - 1 else year;
    var era := Truncate(if y >= 0 then y else y - 399, 400);
    assert era == y / 400;
    var r := y - era * 400;
    assert y / 4 == 100 * era + r / 4;
    assert y / 100 == 4 * era + r / 100;
  }

  lemma DayWithinMonth(year: int, month: int, day: int)
    requires 1 <= month <= 12
    ensures DaysFromCivil(year, month, day) == DaysFromCivil(year, month, 1) + day - 1
  {
  }

  lemma LeapStep(y: int)
    ensures MarchDays(y + 1) == MarchDays(y) + (if LeapYear(y + 1) then 366 else 365)
  {
    Carry(y, 4);
    Carry(y, 100);
    Carry(y, 400);
    Multiples(y + 1);
  }

  lemma Carry(y: int, k: int)
    requires 1 < k
    ensures (y + 1) / k == y / k + (if (y + 1) % k == 0 then 1 else 0)
  {
    var q, r := y / k, y % k;
    assert y == q * k + r;
    if r + 1 < k {
      QuotientIs(y + 1, k, q, r + 1);
    } else {
      assert (q + 1) * k == q * k + k;
      QuotientIs(y + 1, k, q + 1, 0);
    }
  }

  lemma Multiples(y: int)
    ensures y % 400 == 0 ==> y % 100 == 0
    ensures y % 100 == 0 ==> y % 4 == 0
  {
    if y % 400 == 0 {
      QuotientIs(y, 100, 4 * (y / 400), 0);
    }
    if y % 100 == 0 {
      QuotientIs(y, 4, 25 * (y / 100), 0);
    }
  }

  lemma MonthLength(year: int, month: int)
    requires 1 <= month < 12
    ensures DaysFromCivil(year, month + 1, 1) == DaysFromCivil(year, month, 1) + MonthDays(year, month)
  {
    hide DaysFromCivil, MarchDays, LeapYear;
    EraFree(year, month, 1);
    EraFree(year, month + 1, 1);
    LeapStep(year - 1);
  }

  lemma YearLength(year: int)
    ensures DaysFromCivil(year + 1, 1, 1) == DaysFromCivil(year, 12, 1) + 31
    ensures DaysFromCivil(year + 1, 1, 1) == DaysFromCivil(year, 1, 1) + (if LeapYear(year) then 366 else 365)
  {
    hide DaysFromCivil, MarchDays, LeapYear;
    EraFree(year + 1, 1, 1);
    EraFree(year, 12, 1);
    EraFree(year, 1, 1);
    LeapStep(year - 1);
  }

  lemma EpochIsDayZero()
    ensures DaysFromCivil(1970, 1, 1) == 0
  {
  }

  /** The epoch is day 0, and every day is followed by the day numbered one higher. */
  lemma SuccessorAddsOne(d: Date)
    requires ValidDate(d)
    ensures Days(Next(d)) == Days(d) + 1
    ensures Days(Date(1970, 1, 1)) == 0
  {
    hide DaysFromCivil, LeapYear;
    EpochIsDayZero();
    DayWithinMonth(d.year, d.month, d.day);
    DayWithinMonth(d.year, d.month, d.day + 1);
    if d.day == MonthDays(d.year, d.month) {
      if d.month < 12 {
        MonthLength(d.year, d.month);
      } else {
        YearLength(d.year);
      }
    }
  }

  lemma {:induction false} YearsApart(a: int, b: int)
    requires a <= b
    ensures DaysFromCivil(a, 1, 1) + 365 * (b - a) <= DaysFromCivil(b, 1, 1)
    decreases b - a
  {
    hide DaysFromCivil;
    if a < b {
      YearsApart(a, b - 1);
      YearLength(b - 1);
    }
  }

  lemma {:induction false} MonthsApart(year: int, a: int, b: int)
    requires 1 <= a <= b <= 12
    ensures a < b ==> DaysFromCivil(year, a, 1) + MonthDays(year, a) <= DaysFromCivil(year, b, 1)
    decreases b - a
  {
    if a < b {
      MonthLength(year, b - 1);
      if a < b - 1 {
        MonthsApart(year, a, b - 1);
      }
    }
  }

  /** Day numbers are strictly monotone, so no two dates share one. */
  lemma DaysAreMonotone(a: Date, b: Date)
    requires ValidDate(a) && ValidDate(b)
    ensures Before(a, b) <==> Days(a) < Days(b)
    ensures a == b <==> Days(a) == Days(b)
  {
    if Before(a, b) {
      EarlierIsSmaller(a, b);
    } else if Before(b, a) {
      EarlierIsSmaller(b, a);
    }
  }

  lemma EarlierIsSmaller(a: Date, b: Date)
    requires ValidDate(a) && ValidDate(b) && Before(a, b)
    ensures Days(a) < Days(b)
  {
    hide DaysFromCivil, LeapYear;
    DayWithinMonth(a.year, a.month, a.day);
    DayWithinMonth(b.year, b.month, b.day);
    if a.year < b.year {
      MonthsApart(a.year, a.month, 12);
      YearLength(a.year);
      YearsApart(a.year + 1, b.year);
      MonthsApart(b.year, 1, b.month);
    } else if a.month < b.month {
      MonthsApart(a.year, a.month, b.month);
    }
  }

  /** The date with a given day number, found by stepping day by day. */
  function DateOf(n: int): (d: Date)
    ensures ValidDate(d) && Days(d) == n
    decreases if n < 0 then -n else n
  {
    if n == 0 then Date(1970, 1, 1)
    else if n > 0 then
      SuccessorAddsOne(DateOf(n - 1));
      Next(DateOf(n - 1))
    else
      SuccessorAddsOne(Previous(DateOf(n + 1)));
      Previous(DateOf(n + 1))
  }

  lemma DateOfDays(d: Date)
    requires ValidDate(d)
    ensures DateOf(Days(d)) == d
  {
    DaysAreMonotone(DateOf(Days(d)), d);
  }

  /** The same month and day of two different years are at least 365 days apart. */
  lemma SameDayOfOtherYear(a: Date, b: Date)
    requires ValidDate(a) && ValidDate(b)
    requires a.month == b.month && a.day == b.day && a.year < b.year
    ensures Days(a) + 365 <= Days(b)
  {
    hide DaysFromCivil, LeapYear, MarchDays;
    EraFree(a.year, a.month, a.day);
    EraFree(b.year, b.month, b.day);
    var shift := if a.month <= 2 then 1 else 0;
    YearsOfDays(a.year - shift, b.year - shift);
  }

  lemma {:induction false} YearsOfDays(a: int, b: int)
    requires a <= b
    ensures MarchDays(a) + 365 * (b - a) <= MarchDays(b)
    decreases b - a
  {
    hide MarchDays, LeapYear;
    if a < b {
      YearsOfDays(a, b - 1);
      LeapStep(b - 1);
    }
  }
}
