/**
  The simulation clock of `Simulation.set_simulation_clock`: the production sale-date range
  cut into `[start, end)` windows of `months_in_batch` calendar months each, counted with
  numpy's average month, the first window then widened one calendar year into the past.
*/
module SimulationClock {
  import opened Wrappers
  import opened Calendar

  /** One batch `[start, end)` of `date_ranges`. */
  datatype Window = Window(start: Date, end: Date)

  /** `series.between(start, end, inclusive="left")` for one value. */
  predicate InWindow(d: Date, w: Window) {
    DayNumber(w.start) <= DayNumber(d) < DayNumber(w.end)
  }

  const SecondsPerDay: int := 86400
  /** `np.timedelta64(1, "M")`: an average Gregorian month, 365.2425 / 12 days. */
  const SecondsPerAverageMonth: int := 2629746

  /** `int(np.ceil(span / np.timedelta64(1, "M")))` for a span of whole days. */
  function TotalMonths(spanDays: int): (t: int)
    requires spanDays >= 0
    ensures t >= 0
    ensures t * SecondsPerAverageMonth >= spanDays * SecondsPerDay
    ensures t > 0 ==> (t - 1) * SecondsPerAverageMonth < spanDays * SecondsPerDay
    ensures t == 0 <==> spanDays == 0
  {
    (spanDays * SecondsPerDay + SecondsPerAverageMonth - 1) / SecondsPerAverageMonth
  }

  /** `len(range(0, stop, step))` for stop >= 0 and a step that is not zero. */
  function RangeLength(stop: int, step: int): (n: nat)
    requires stop >= 0 && step != 0
    ensures step < 0 ==> n == 0
    ensures step > 0 ==> n * step >= stop && (n > 0 ==> (n - 1) * step < stop)
  {
    if step < 0 then 0 else (stop + step - 1) / step
  }

  /** The earliest day in s (`series.min()`). */
  function Earliest(s: seq<Date>): (m: Date)
    requires |s| > 0
    ensures m in s && forall i :: 0 <= i < |s| ==> DayNumber(m) <= DayNumber(s[i])
  {
    if |s| == 1 then s[0]
    else
      var rest := Earliest(s[1..]);
      if DayNumber(s[0]) <= DayNumber(rest) then s[0] else rest
  }

  /** The latest day in s (`series.max()`). */
  function Latest(s: seq<Date>): (m: Date)
    requires |s| > 0
    ensures m in s && forall i :: 0 <= i < |s| ==> DayNumber(s[i]) <= DayNumber(m)
  {
    if |s| == 1 then s[0]
    else
      var rest := Latest(s[1..]);
      if DayNumber(s[0]) >= DayNumber(rest) then s[0] else rest
  }

  function SpanDays(s: seq<Date>): (n: int)
    requires |s| > 0
    ensures n >= 0
  {
    DayNumber(Latest(s)) - DayNumber(Earliest(s))
  }

  /** The list comprehension over `range(0, total_months, months_in_batch)`, before widening. */
  function BatchWindows(lo: Date, total: int, m: int): (w: seq<Window>)
    requires total >= 0 && m != 0
  {
    seq(RangeLength(total, m), k => Window(AddMonths(lo, k * m), AddMonths(lo, k * m + m)))
  }

  /** The exception `set_simulation_clock` raises, if any. */
  datatype ClockError =
    | EmptyProduction   // min and max of an empty column are NaT: int(NaN) raises ValueError
    | ZeroBatchWidth    // range() with step 0 raises ValueError
    | NoWindows         // date_ranges[0] on an empty list raises IndexError

  /** The `date_ranges` that `set_simulation_clock(prod_df, m)` computes from the sale dates. */
  function Clock(sold: seq<Date>, m: int): Result<seq<Window>, ClockError> {
    if |sold| == 0 then Failure(EmptyProduction)
    else if m == 0 then Failure(ZeroBatchWidth)
    else
      var base := BatchWindows(Earliest(sold), TotalMonths(SpanDays(sold)), m);
      if |base| == 0 then Failure(NoWindows)
      else Success(base[0 := Window(AddYears(base[0].start, -1), base[0].end)])
  }

  // ---------------------------------------------------------------- properties

  /** When the clock raises, and which exception. */
  lemma ClockErrors(sold: seq<Date>, m: int)
    ensures Clock(sold, m).Success? <==> |sold| > 0 && m > 0 && SpanDays(sold) > 0
    ensures Clock(sold, m) == Failure(EmptyProduction) <==> |sold| == 0
    ensures Clock(sold, m) == Failure(ZeroBatchWidth) <==> |sold| > 0 && m == 0
    ensures Clock(sold, m) == Failure(NoWindows) <==> |sold| > 0 && m != 0 && (m < 0 || SpanDays(sold) == 0)
  {
    if |sold| > 0 && m != 0 {
      var t := TotalMonths(SpanDays(sold));
      var base := BatchWindows(Earliest(sold), t, m);
      assert |base| == RangeLength(t, m);
      RangeLengthPositive(t, m);
    }
  }

  lemma RangeLengthPositive(stop: int, step: int)
    requires stop >= 0 && step != 0
    ensures RangeLength(stop, step) > 0 <==> step > 0 && stop > 0
  {
  }

  /** The clock yields ceil(total_months / m) windows, total_months = ceil(span / average month). */
  lemma ClockCount(sold: seq<Date>, m: int)
    requires Clock(sold, m).Success?
    ensures var w, t := Clock(sold, m).value, TotalMonths(SpanDays(sold));
      |w| * m >= t && (|w| - 1) * m < t
      && t * SecondsPerAverageMonth >= SpanDays(sold) * SecondsPerDay
      && (t - 1) * SecondsPerAverageMonth < SpanDays(sold) * SecondsPerDay
  {
    var t := TotalMonths(SpanDays(sold));
    var base := BatchWindows(Earliest(sold), t, m);
    assert |Clock(sold, m).value| == |base| == RangeLength(t, m) > 0;
  }

  /** Window i ends m * (i + 1) calendar months after the earliest sale; later windows start m * i months after it. */
  lemma ClockWindow(sold: seq<Date>, m: int, i: int)
    requires Clock(sold, m).Success? && 0 <= i < |Clock(sold, m).value|
    ensures m > 0
    ensures Clock(sold, m).value[i].end == AddMonths(Earliest(sold), (i + 1) * m)
    ensures i > 0 ==> Clock(sold, m).value[i].start == AddMonths(Earliest(sold), i * m)
    ensures i == 0 ==> Clock(sold, m).value[i].start == AddYears(Earliest(sold), -1)
  {
    ClockErrors(sold, m);
    var lo := Earliest(sold);
    var base := BatchWindows(lo, TotalMonths(SpanDays(sold)), m);
    var w := Clock(sold, m).value;
    assert w == base[0 := Window(AddYears(base[0].start, -1), base[0].end)];
    BatchWindowAt(lo, TotalMonths(SpanDays(sold)), m, i);
    if i == 0 {
      AddMonthsZero(lo);
    }
  }

  lemma BatchWindowAt(lo: Date, total: int, m: int, k: int)
    requires total >= 0 && m != 0 && 0 <= k < |BatchWindows(lo, total, m)|
    ensures BatchWindows(lo, total, m)[k] == Window(AddMonths(lo, k * m), AddMonths(lo, (k + 1) * m))
  {
    assert k * m + m == (k + 1) * m;
  }

  /** Every window ends where the next one starts. */
  lemma ClockContiguous(sold: seq<Date>, m: int, i: int)
    requires Clock(sold, m).Success? && 0 <= i < |Clock(sold, m).value| - 1
    ensures Clock(sold, m).value[i].end == Clock(sold, m).value[i + 1].start
  {
    ClockWindow(sold, m, i);
    ClockWindow(sold, m, i + 1);
  }

  /** Every window is non-empty: its start is strictly before its end. */
  lemma ClockWindowNonEmpty(sold: seq<Date>, m: int, i: int)
    requires Clock(sold, m).Success? && 0 <= i < |Clock(sold, m).value|
    ensures DayNumber(Clock(sold, m).value[i].start) < DayNumber(Clock(sold, m).value[i].end)
  {
    ClockWindow(sold, m, i);
    var lo := Earliest(sold);
    var w := Clock(sold, m).value[i];
    if i == 0 {
      AddYearsBackDays(lo);
      AddMonthsIncreasing(lo, 0, m);
      AddMonthsZero(lo);
      assert DayNumber(w.start) < DayNumber(lo) < DayNumber(w.end);
    } else {
      assert i * m < (i + 1) * m;
      AddMonthsIncreasing(lo, i * m, (i + 1) * m);
    }
  }

  lemma MulMonotone(a: int, b: int, m: int)
    requires a <= b && m > 0
    ensures a * m <= b * m
  {
  }

  /** An earlier window ends no later than a later window starts. */
  lemma ClockOrdered(sold: seq<Date>, m: int, i: int, j: int)
    requires Clock(sold, m).Success? && 0 <= i < j < |Clock(sold, m).value|
    ensures DayNumber(Clock(sold, m).value[i].end) <= DayNumber(Clock(sold, m).value[j].start)
  {
    ClockWindow(sold, m, i);
    ClockWindow(sold, m, j);
    MulMonotone(i + 1, j, m);
    AddMonthsMonotone(Earliest(sold), (i + 1) * m, j * m);
  }

  /** The windows do not overlap: a day lies in at most one of them. */
  lemma ClockDisjoint(sold: seq<Date>, m: int, d: Date, i: int, j: int)
    requires Clock(sold, m).Success? && 0 <= i < |Clock(sold, m).value| && 0 <= j < |Clock(sold, m).value|
    requires InWindow(d, Clock(sold, m).value[i]) && InWindow(d, Clock(sold, m).value[j])
    ensures i == j
  {
    if i < j {
      ClockOrdered(sold, m, i, j);
    } else if j < i {
      ClockOrdered(sold, m, j, i);
    }
  }

  /** Each window ends where the next one starts. */
  predicate Contiguous(w: seq<Window>) {
    forall i :: 0 <= i < |w| - 1 ==> w[i].end == w[i + 1].start
  }

  /** Over contiguous windows, every day from the first start up to the end of window k falls in one of windows 0..k. */
  lemma {:induction false} ContiguousCovers(w: seq<Window>, d: Date, k: int)
    requires Contiguous(w) && 0 <= k < |w|
    requires DayNumber(w[0].start) <= DayNumber(d) < DayNumber(w[k].end)
    ensures exists i :: 0 <= i <= k && InWindow(d, w[i])
  {
    if k == 0 {
      assert InWindow(d, w[0]);
    } else if DayNumber(d) < DayNumber(w[k - 1].end) {
      ContiguousCovers(w, d, k - 1);
    } else {
      assert w[k - 1].end == w[k].start;
      assert InWindow(d, w[k]);
    }
  }

  /** Every day from the widened start up to the end of window k falls in one of windows 0..k. */
  lemma ClockCovers(sold: seq<Date>, m: int, d: Date, k: int)
    requires Clock(sold, m).Success? && 0 <= k < |Clock(sold, m).value|
    requires DayNumber(Clock(sold, m).value[0].start) <= DayNumber(d) < DayNumber(Clock(sold, m).value[k].end)
    ensures exists i :: 0 <= i <= k && InWindow(d, Clock(sold, m).value[i])
  {
    var w := Clock(sold, m).value;
    forall i | 0 <= i < |w| - 1 ensures w[i].end == w[i + 1].start {
      ClockContiguous(sold, m, i);
    }
    ContiguousCovers(w, d, k);
  }

  /**
    Only the first window is widened, by exactly one calendar year (365 or 366 days); its end
    and every later window are those of the unwidened comprehension, whose first window
    starts on the earliest sale.
  */
  lemma ClockWidening(sold: seq<Date>, m: int)
    requires Clock(sold, m).Success?
    ensures var w, lo := Clock(sold, m).value, Earliest(sold);
      var base := BatchWindows(lo, TotalMonths(SpanDays(sold)), m);
      |base| == |w| && base[0].start == lo && w[0].end == base[0].end
      && (forall i :: 0 < i < |w| ==> w[i] == base[i])
      && 365 <= DayNumber(lo) - DayNumber(w[0].start) <= 366
  {
    var lo := Earliest(sold);
    AddMonthsZero(lo);
    AddYearsBackDays(lo);
  }

  /** The last window ends at least total_months calendar months after the earliest sale. */
  lemma ClockReach(sold: seq<Date>, m: int)
    requires Clock(sold, m).Success?
    ensures var w := Clock(sold, m).value;
      DayNumber(AddMonths(Earliest(sold), TotalMonths(SpanDays(sold)))) <= DayNumber(w[|w| - 1].end)
  {
    var w := Clock(sold, m).value;
    ClockCount(sold, m);
    ClockWindow(sold, m, |w| - 1);
    AddMonthsMonotone(Earliest(sold), TotalMonths(SpanDays(sold)), |w| * m);
  }

  /** If every sale lies on a single day, the clock raises IndexError instead of giving one window. */
  lemma ClockSingleDay(d: Date, m: int)
    requires m != 0
    ensures Clock([d, d], m) == Failure(NoWindows)
  {
    ClockErrors([d, d], m);
  }

  /**
    The average-month count can fall short of the calendar: sales on 2015-02-01 and 2015-03-03
    span 30 days, less than one average month, so the single window ends on 2015-03-01 and
    the last sale is in no window.
  */
  lemma ClockCanMissLastSale()
    ensures var first, last := CivilDate(2015, 2, 1), CivilDate(2015, 3, 3);
      Clock([first, last], 1).Success?
      && |Clock([first, last], 1).value| == 1
      && Clock([first, last], 1).value[0].end == CivilDate(2015, 3, 1)
      && !InWindow(last, Clock([first, last], 1).value[0])
  {
    var first, last := CivilDate(2015, 2, 1), CivilDate(2015, 3, 3);
    assert DayNumber(last) - DayNumber(first) == 30;
    assert SpanDays([first, last]) == 30;
    assert TotalMonths(30) == 1;
  }
}
