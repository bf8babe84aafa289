/** `pkg/awsglue/glue_timebin.go`: time bins and the walk from one bin to the next.
    A time is a count of nanoseconds since Go's zero time (1 January of year 1, 00:00 UTC). */
module TimeBins {
  import opened Calendar

  type Time = int

  const HOUR: int := 3_600_000_000_000
  const DAY: int := 24 * HOUR

  type GlueTableTimebin = int
  const MONTHLY: GlueTableTimebin := 1
  const DAILY: GlueTableTimebin := 2
  const HOURLY: GlueTableTimebin := 3

  /** `Validate`: the three known bins and nothing else. */
  predicate Validate(tb: GlueTableTimebin) { tb == HOURLY || tb == DAILY || tb == MONTHLY }

  /** `Time.Truncate`, which rounds down also before the zero time. */
  function Truncate(t: Time, d: int): Time
    requires d > 0
  {
    t - t % d
  }

  lemma MulOrder(a: int, b: int, d: int)
    requires d > 0
    ensures a * d < b * d <==> a < b
  {
  }

  /** Division is pinned down by the grid cell. */
  lemma GridCell(t: int, d: int, q: int)
    requires d > 0 && q * d <= t < (q + 1) * d
    ensures t / d == q && t % d == t - q * d
  {
    var p := t / d;
    assert p * d <= t < (p + 1) * d;
    MulOrder(p, q + 1, d);
    MulOrder(q, p + 1, d);
  }

  /** The multiples of `d` around `t`: the one at or before it, the next one, and none between. */
  lemma Grid(t: int, d: int)
    requires d > 0
    ensures t - t % d == (t / d) * d <= t < (t / d + 1) * d == (t / d) * d + d
    ensures ((t / d) * d) % d == 0 == ((t / d + 1) * d) % d
    ensures Truncate(t + d, d) == (t / d + 1) * d
    ensures forall b | (t / d) * d < b < (t / d + 1) * d :: b % d != 0
  {
    GridCell((t / d) * d, d, t / d);
    GridCell((t / d + 1) * d, d, t / d + 1);
    GridCell(t + d, d, t / d + 1);
    forall b | (t / d) * d < b < (t / d + 1) * d
      ensures b % d != 0
    {
      GridCell(b, d, t / d);
    }
  }

  lemma GridAfter(t: int, d: int, k: nat)
    requires d > 0
    ensures t < (t / d + 1 + k) * d
  {
    Grid(t, d);
    MulOrder(t / d + 1 + k, t / d + 1, d);
  }

  lemma Midnight(n: int)
    ensures (n * DAY) % DAY == 0 && DayOf(n * DAY) == n
  {
  }

  function DayOf(t: Time): int { t / DAY }
  function DateOf(t: Time): Date { Civil(DayOf(t)) }
  function HourOf(t: Time): (h: int)
    ensures 0 <= h < 24
  {
    (t % DAY) / HOUR
  }

  /** Where a bin begins: the top of an hour, midnight, or midnight on the first of a month. */
  ghost predicate IsBoundary(tb: GlueTableTimebin, t: Time)
  {
    if tb == HOURLY then t % 3_600_000_000_000 == 0
    else if tb == DAILY then t % 86_400_000_000_000 == 0
    else t % 86_400_000_000_000 == 0 && DateOf(t).day == 1
  }

  /** `n` is the least boundary strictly after `t`. */
  ghost predicate IsNextBoundary(tb: GlueTableTimebin, t: Time, n: Time)
  {
    t < n && IsBoundary(tb, n) && forall b | t < b < n :: !IsBoundary(tb, b)
  }

  /** The bin after `t`'s, in closed form. */
  function NextBin(tb: GlueTableTimebin, t: Time): Time
    requires Validate(tb)
  {
    if tb == HOURLY then (t / HOUR + 1) * HOUR
    else if tb == DAILY then (t / DAY + 1) * DAY
    else (DayOf(t) + DaysInMonth(DateOf(t).year, DateOf(t).month) - DateOf(t).day + 1) * DAY
  }

  /** `Next`: stepping a day at a time until the month changes reaches the closed form,
      in exactly as many steps as the month has days left. */
  method Next(tb: GlueTableTimebin, t: Time) returns (next: Time, ghost steps: nat)
    requires Validate(tb)
    ensures next == NextBin(tb, t)
    ensures IsNextBoundary(tb, t, next)
    ensures tb == MONTHLY ==> steps == DaysInMonth(DateOf(t).year, DateOf(t).month) - DateOf(t).day <= 30
  {
    NextBinIsLeastBoundary(tb, t);
    Grid(t, HOUR);
    Grid(t, DAY);
    steps := 0;
    if tb == HOURLY {
      next := Truncate(t + HOUR, HOUR);
    } else if tb == DAILY {
      next := Truncate(t + DAY, DAY);
    } else {
      var currentMonth := DateOf(t).month;
      ghost var left := DaysInMonth(DateOf(t).year, DateOf(t).month) - DateOf(t).day;
      next := Truncate(t + DAY, DAY);
      DateAfter(t, 0);
      while DateOf(next).month == currentMonth
        invariant next == (DayOf(t) + 1 + steps) * DAY
        invariant steps <= left
        invariant DateOf(next).month == currentMonth <==> steps < left
        decreases left - steps
      {
        next := next + DAY;
        steps := steps + 1;
        assert (DayOf(t) + 1 + (steps - 1)) * DAY + DAY == (DayOf(t) + 1 + steps) * DAY;
        DateAfter(t, steps);
      }
    }
  }

  /** The date `j + 1` days on: still in `t`'s month exactly when the month has more than `j` days left. */
  lemma DateAfter(t: Time, j: nat)
    requires j <= DaysInMonth(DateOf(t).year, DateOf(t).month) - DateOf(t).day
    ensures
      var left := DaysInMonth(DateOf(t).year, DateOf(t).month) - DateOf(t).day;
      var d := Civil(DayOf(t) + 1 + j);
      && DateOf((DayOf(t) + 1 + j) * DAY) == d
      && (j < left ==> d == Date(DateOf(t).year, DateOf(t).month, DateOf(t).day + j + 1))
      && (j == left ==> d.day == 1 && d.month != DateOf(t).month)
  {
    Midnight(DayOf(t) + 1 + j);
    var left := DaysInMonth(DateOf(t).year, DateOf(t).month) - DateOf(t).day;
    if j < left {
      CivilWithinMonth(DayOf(t), j + 1);
    } else {
      CivilWithinMonth(DayOf(t), left);
      CivilNext(DayOf(t) + left);
    }
  }

  /** For every time and every bin, `NextBin` is the least bin boundary strictly after it. */
  lemma NextBinIsLeastBoundary(tb: GlueTableTimebin, t: Time)
    requires Validate(tb)
    ensures IsNextBoundary(tb, t, NextBin(tb, t))
  {
    if tb == MONTHLY {
      NextMonthIsLeastBoundary(t);
    } else {
      Grid(t, HOUR);
      Grid(t, DAY);
    }
  }

  lemma NextMonthIsLeastBoundary(t: Time)
    ensures IsNextBoundary(MONTHLY, t, NextBin(MONTHLY, t))
  {
    var left := DaysInMonth(DateOf(t).year, DateOf(t).month) - DateOf(t).day;
    var next := NextBin(MONTHLY, t);
    assert next == (DayOf(t) + 1 + left) * DAY;
    DateAfter(t, left);
    Midnight(DayOf(t) + 1 + left);
    GridAfter(t, DAY, left);
    assert IsBoundary(MONTHLY, next);
    forall b | t < b < next
      ensures !IsBoundary(MONTHLY, b)
    {
      MidMonth(t, b);
    }
  }

  lemma MidMonth(t: Time, b: Time)
    requires t < b < NextBin(MONTHLY, t)
    ensures !IsBoundary(MONTHLY, b)
  {
    if b % DAY == 0 {
      var left := DaysInMonth(DateOf(t).year, DateOf(t).month) - DateOf(t).day;
      Grid(t, DAY);
      Grid(b, DAY);
      MulOrder(DayOf(t), DayOf(b), DAY);
      MulOrder(DayOf(b), DayOf(t) + 1 + left, DAY);
      DateAfter(t, DayOf(b) - DayOf(t) - 1);
    }
  }

  /** The boundary at which `t`'s bin begins. */
  function BinStart(tb: GlueTableTimebin, t: Time): Time
    requires Validate(tb)
  {
    if tb == HOURLY then t - t % HOUR
    else if tb == DAILY then t - t % DAY
    else (DayOf(t) - DateOf(t).day + 1) * DAY
  }

  /** The calendar fields a bin is named by. */
  predicate SameFields(tb: GlueTableTimebin, t: Time, u: Time)
  {
    && DateOf(t).year == DateOf(u).year && DateOf(t).month == DateOf(u).month
    && (tb >= DAILY ==> DateOf(t).day == DateOf(u).day)
    && (tb >= HOURLY ==> HourOf(t) == HourOf(u))
  }

  /** No boundary separates the two times. */
  ghost predicate SameBin(tb: GlueTableTimebin, t: Time, u: Time)
  {
    forall b | IsBoundary(tb, b) :: b <= t <==> b <= u
  }

  lemma BoundaryIsHour(tb: GlueTableTimebin, b: Time)
    requires IsBoundary(tb, b)
    ensures b % HOUR == 0
  {
    if tb != HOURLY {
      Grid(b, DAY);
      GridCell(b, HOUR, 24 * (b / DAY));
    }
  }

  /** A full hour lies in one bin. */
  lemma HourInOneBin(tb: GlueTableTimebin, t: Time, u: Time)
    requires t % HOUR == 0 && t <= u < t + HOUR
    ensures SameBin(tb, t, u)
  {
    forall b | IsBoundary(tb, b)
      ensures b <= t <==> b <= u
    {
      BoundaryIsHour(tb, b);
      Grid(b, HOUR);
      Grid(t, HOUR);
      MulOrder(t / HOUR, b / HOUR, HOUR);
      MulOrder(b / HOUR, t / HOUR + 1, HOUR);
    }
  }

  lemma BinStartIsLastBoundary(tb: GlueTableTimebin, t: Time)
    requires Validate(tb)
    ensures BinStart(tb, t) <= t < NextBin(tb, t)
    ensures IsBoundary(tb, BinStart(tb, t))
    ensures forall b | BinStart(tb, t) < b < NextBin(tb, t) :: !IsBoundary(tb, b)
  {
    NextBinIsLeastBoundary(tb, t);
    if tb == MONTHLY {
      MonthStart(t);
      NextBinIsLeastBoundary(tb, BinStart(tb, t));
    } else {
      Grid(t, HOUR);
      Grid(t, DAY);
    }
  }

  lemma MonthStart(t: Time)
    ensures
      var start := BinStart(MONTHLY, t);
      && start <= t && start % DAY == 0
      && DateOf(start) == Date(DateOf(t).year, DateOf(t).month, 1)
      && NextBin(MONTHLY, start) == NextBin(MONTHLY, t)
  {
    var first, start := DayOf(t) - DateOf(t).day + 1, BinStart(MONTHLY, t);
    FirstOfMonth(DayOf(t));
    MidnightBefore(t, first, start);
    SameNext(t, start);
  }

  lemma MidnightBefore(t: Time, n: int, start: Time)
    requires n <= DayOf(t) && start == n * DAY
    ensures start <= t && start % DAY == 0 && DayOf(start) == n
  {
    Midnight(n);
    Grid(t, DAY);
    MulOrder(DayOf(t), n, DAY);
  }

  lemma SameNext(t: Time, start: Time)
    requires DateOf(start) == Date(DateOf(t).year, DateOf(t).month, 1)
    requires DayOf(start) == DayOf(t) - DateOf(t).day + 1
    ensures NextBin(MONTHLY, start) == NextBin(MONTHLY, t)
  {
  }

  lemma FirstOfMonth(n: int)
    ensures
      var first := n - Civil(n).day + 1;
      first <= n && Civil(first) == Date(Civil(n).year, Civil(n).month, 1)
  {
    CivilMonthStart(n);
  }

  /** Year and month tell where a month begins. */
  lemma SameMonthStart(t: Time, u: Time)
    requires DateOf(t).year == DateOf(u).year && DateOf(t).month == DateOf(u).month
    ensures BinStart(MONTHLY, t) == BinStart(MONTHLY, u)
  {
    SameMonth(DayOf(t), DayOf(u));
  }

  lemma SameMonth(m: int, n: int)
    requires Civil(m).year == Civil(n).year && Civil(m).month == Civil(n).month
    ensures m - Civil(m).day == n - Civil(n).day
  {
    FirstOfMonth(m);
    FirstOfMonth(n);
    CivilInjective(m - Civil(m).day + 1, n - Civil(n).day + 1);
  }

  lemma SameBinIffSameStart(tb: GlueTableTimebin, t: Time, u: Time)
    requires Validate(tb)
    ensures SameBin(tb, t, u) <==> BinStart(tb, t) == BinStart(tb, u)
  {
    BinStartIsLastBoundary(tb, t);
    BinStartIsLastBoundary(tb, u);
    NextBinIsLeastBoundary(tb, t);
    NextBinIsLeastBoundary(tb, u);
  }

  /** Two times share the calendar fields of their bin exactly when no bin boundary separates them. */
  lemma SameFieldsIffSameBin(tb: GlueTableTimebin, t: Time, u: Time)
    requires Validate(tb)
    ensures SameFields(tb, t, u) <==> SameBin(tb, t, u)
  {
    SameBinIffSameStart(tb, t, u);
    if tb == MONTHLY {
      MonthStart(t);
      MonthStart(u);
      if SameFields(tb, t, u) {
        SameMonthStart(t, u);
      }
    } else {
      DayNumberOfCivil(DayOf(t));
      DayNumberOfCivil(DayOf(u));
      HourStart(t);
      HourStart(u);
    }
  }

  lemma HourStart(t: Time)
    ensures t - t % DAY == DayOf(t) * DAY && DayOf(t - t % DAY) == DayOf(t)
    ensures t - t % HOUR == DayOf(t) * DAY + HourOf(t) * HOUR
    ensures DayOf(t - t % HOUR) == DayOf(t) && HourOf(t - t % HOUR) == HourOf(t)
  {
  }

  /** The times `SyncPartitions` visits: `from`, then bin after bin up to and including `end`. */
  function Walk(tb: GlueTableTimebin, from: Time, end: Time): (bins: seq<Time>)
    requires Validate(tb)
    ensures forall i | 0 <= i < |bins| :: from <= bins[i] <= end
    decreases end - from
  {
    if from > end then []
    else
      NextBinIsLeastBoundary(tb, from);
      [from] + Walk(tb, NextBin(tb, from), end)
  }

  /** The walk visits the bin of every time in its range. */
  lemma {:induction false} WalkCovers(tb: GlueTableTimebin, from: Time, end: Time, u: Time)
    requires Validate(tb) && from <= u <= end
    ensures exists i | 0 <= i < |Walk(tb, from, end)| :: SameBin(tb, Walk(tb, from, end)[i], u)
    decreases end - from
  {
    NextBinIsLeastBoundary(tb, from);
    var next := NextBin(tb, from);
    var rest := Walk(tb, next, end);
    if u < next {
      assert SameBin(tb, Walk(tb, from, end)[0], u);
    } else {
      WalkCovers(tb, next, end, u);
      var i :| 0 <= i < |rest| && SameBin(tb, rest[i], u);
      assert Walk(tb, from, end)[i + 1] == rest[i];
    }
  }

  ghost predicate DistinctBins(tb: GlueTableTimebin, bins: seq<Time>)
  {
    forall i, j | 0 <= i < j < |bins| :: bins[i] < bins[j] && !SameBin(tb, bins[i], bins[j])
  }

  /** No two steps of the walk are in the same bin. */
  lemma {:induction false} WalkDistinctBins(tb: GlueTableTimebin, from: Time, end: Time)
    requires Validate(tb)
    ensures DistinctBins(tb, Walk(tb, from, end))
    decreases end - from
  {
    if from <= end {
      NextBinIsLeastBoundary(tb, from);
      var next := NextBin(tb, from);
      WalkDistinctBins(tb, next, end);
      var rest := Walk(tb, next, end);
      forall j | 0 <= j < |rest|
        ensures from < rest[j] && !SameBin(tb, from, rest[j])
      {
        assert from < next <= rest[j];
      }
    }
  }
}
