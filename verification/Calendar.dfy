/** The proleptic Gregorian calendar used by Go's `time` package, given by its successor rule,
    and its closed form.  Day 0 is 1 January of year 1, Go's zero time. */
module Calendar {

  datatype Date = Date(year: int, month: int, day: int)

  predicate IsLeap(y: int) { y % 4 == 0 && (y % 100 != 0 || y % 400 == 0) }

  function DaysInMonth(y: int, m: int): (n: int)
    ensures 28 <= n <= 31
  {
    if m == 2 then (if IsLeap(y) then 29 else 28)
    else if m == 4 || m == 6 || m == 9 || m == 11 then 30
    else 31
  }

  predicate ValidDate(d: Date) { 1 <= d.month <= 12 && 1 <= d.day <= DaysInMonth(d.year, d.month) }

  function Tomorrow(d: Date): (r: Date)
    requires ValidDate(d)
    ensures ValidDate(r) && Before(d, r)
  {
    if d.day < DaysInMonth(d.year, d.month) then Date(d.year, d.month, d.day + 1)
    else if d.month < 12 then Date(d.year, d.month + 1, 1)
    else Date(d.year + 1, 1, 1)
  }

  function Yesterday(d: Date): (r: Date)
    requires ValidDate(d)
    ensures ValidDate(r) && Tomorrow(r) == d
  {
    if d.day > 1 then Date(d.year, d.month, d.day - 1)
    else if d.month > 1 then Date(d.year, d.month - 1, DaysInMonth(d.year, d.month - 1))
    else Date(d.year - 1, 12, 31)
  }

  /** Chronological order of dates. */
  predicate Before(a: Date, b: Date)
  {
    a.year < b.year || (a.year == b.year && (a.month < b.month || (a.month == b.month && a.day < b.day)))
  }

  /** The date of a day number, counted day by day from the epoch. */
  function Civil(n: int): (d: Date)
    ensures ValidDate(d)
    decreases if n < 0 then -n else n
  {
    if n == 0 then Date(1, 1, 1) else if n > 0 then Tomorrow(Civil(n - 1)) else Yesterday(Civil(n + 1))
  }

  lemma CivilNext(n: int)
    ensures Civil(n + 1) == Tomorrow(Civil(n))
  {
  }

  function DaysBeforeYear(y: int): int
  {
    365 * (y - 1) + (y - 1) / 4 - (y - 1) / 100 + (y - 1) / 400
  }

  function DaysBeforeMonth(y: int, m: int): int
    requires 1 <= m <= 12
  {
    [0, 31, 59, 90, 120, 151, 181, 212, 243, 273, 304, 334][m - 1] + (if m > 2 && IsLeap(y) then 1 else 0)
  }

  /** The closed form of `time.Date`: months outside 1..12 carry into the year, days are not range-checked. */
  function DayNumber(y: int, m: int, d: int): int
  {
    var year := y + (m - 1) / 12;
    var month := (m - 1) % 12 + 1;
    DaysBeforeYear(year) + DaysBeforeMonth(year, month) + d - 1
  }

  lemma YearLength(y: int)
    ensures DaysBeforeYear(y + 1) == DaysBeforeYear(y) + (if IsLeap(y) then 366 else 365)
  {
    assert y / 4 == (y - 1) / 4 + (if y % 4 == 0 then 1 else 0);
    assert y / 100 == (y - 1) / 100 + (if y % 100 == 0 then 1 else 0);
    assert y / 400 == (y - 1) / 400 + (if y % 400 == 0 then 1 else 0);
    LeapMultiples(y);
  }

  lemma LeapMultiples(y: int)
    ensures y % 400 == 0 ==> y % 100 == 0
    ensures y % 100 == 0 ==> y % 4 == 0
  {
  }

  lemma MonthLength(y: int, m: int)
    requires 1 <= m < 12
    ensures DaysBeforeMonth(y, m + 1) == DaysBeforeMonth(y, m) + DaysInMonth(y, m)
  {
  }

  lemma DayNumberTomorrow(d: Date)
    requires ValidDate(d)
    ensures var t := Tomorrow(d); DayNumber(t.year, t.month, t.day) == DayNumber(d.year, d.month, d.day) + 1
  {
    WithinYear(d);
    WithinYear(Tomorrow(d));
    if d.day == DaysInMonth(d.year, d.month) {
      if d.month < 12 {
        MonthLength(d.year, d.month);
      } else {
        YearLength(d.year);
        LastMonth(d.year);
      }
    }
  }

  lemma LastMonth(y: int)
    ensures DaysBeforeMonth(y, 12) + 31 == (if IsLeap(y) then 366 else 365) && DaysBeforeMonth(y + 1, 1) == 0
  {
  }

  /** The closed form numbers the days exactly as counting does. */
  lemma {:induction false} DayNumberOfCivil(n: int)
    ensures DayNumber(Civil(n).year, Civil(n).month, Civil(n).day) == n
    decreases if n < 0 then -n else n
  {
    if n > 0 {
      DayNumberOfCivil(n - 1);
      DayNumberTomorrow(Civil(n - 1));
    } else if n < 0 {
      DayNumberOfCivil(n + 1);
      DayNumberTomorrow(Civil(n));
    }
  }

  lemma CivilInjective(m: int, n: int)
    requires Civil(m) == Civil(n)
    ensures m == n
  {
    DayNumberOfCivil(m);
    DayNumberOfCivil(n);
  }

  /** Days of one month are consecutive: the `j`-th day after `n`, while still in `n`'s month. */
  lemma {:induction false} CivilWithinMonth(n: int, j: nat)
    requires Civil(n).day + j <= DaysInMonth(Civil(n).year, Civil(n).month)
    ensures Civil(n + j) == Date(Civil(n).year, Civil(n).month, Civil(n).day + j)
  {
    if j > 0 {
      CivilWithinMonth(n, j - 1);
      assert n + (j - 1) == n + j - 1 && n + j - 1 + 1 == n + j;
      CivilNext(n + j - 1);
    }
  }

  /** The first day of `n`'s month is `day - 1` days earlier. */
  lemma {:induction false} CivilMonthStart(n: int)
    ensures Civil(n - Civil(n).day + 1) == Date(Civil(n).year, Civil(n).month, 1)
    decreases Civil(n).day
  {
    CivilNext(n - 1);
    if Civil(n).day > 1 {
      CivilMonthStart(n - 1);
    }
  }

  /** Every valid date has a day number: dates and day numbers are in bijection. */
  lemma CivilOfDayNumber(d: Date)
    requires ValidDate(d)
    ensures Civil(DayNumber(d.year, d.month, d.day)) == d
  {
    var n := DayNumber(d.year, d.month, d.day);
    DayNumberOfCivil(n);
    if Before(d, Civil(n)) { DayNumberMonotone(d, Civil(n)); }
    if Before(Civil(n), d) { DayNumberMonotone(Civil(n), d); }
  }

  lemma {:induction false} YearsMonotone(y: int, z: int)
    requires y <= z
    ensures DaysBeforeYear(y) + 365 * (z - y) <= DaysBeforeYear(z)
    decreases z - y
  {
    if y < z {
      YearsMonotone(y, z - 1);
      YearLength(z - 1);
    }
  }

  lemma DayNumberMonotone(a: Date, b: Date)
    requires ValidDate(a) && ValidDate(b) && Before(a, b)
    ensures DayNumber(a.year, a.month, a.day) < DayNumber(b.year, b.month, b.day)
  {
    WithinYear(a);
    WithinYear(b);
    if a.year < b.year {
      YearsApart(a.year, b.year);
    } else if a.month < b.month {
      MonthsMonotone(a.year, a.month, b.month);
    }
  }

  lemma YearsApart(y: int, z: int)
    requires y < z
    ensures DaysBeforeYear(y) + (if IsLeap(y) then 366 else 365) <= DaysBeforeYear(z)
  {
    YearsMonotone(y + 1, z);
    YearLength(y);
  }

  lemma WithinYear(d: Date)
    requires ValidDate(d)
    ensures DayNumber(d.year, d.month, d.day) == DaysBeforeYear(d.year) + DaysBeforeMonth(d.year, d.month) + d.day - 1
    ensures 0 <= DaysBeforeMonth(d.year, d.month)
    ensures DaysBeforeMonth(d.year, d.month) + d.day <= (if IsLeap(d.year) then 366 else 365)
  {
  }

  lemma {:induction false} MonthsMonotone(y: int, m: int, n: int)
    requires 1 <= m < n <= 12
    ensures DaysBeforeMonth(y, m) + DaysInMonth(y, m) <= DaysBeforeMonth(y, n)
    decreases n - m
  {
  }
}
