/**
 The cost of an instance so far: hours times rate, capped in every calendar month on its own. Times are
 integral milliseconds, money is real. The laws hold for any division of time into growing periods;
 the program's are the months of UTC.
 */
module InstanceCost {
  import opened Prelude
  import UtcMonths

  const HOUR_MS: int := 60 * 60 * 1000

  // ---- periods

  /** The starts of the periods, in order. */
  ghost predicate Grows(starts: int -> int) {
    forall j, k :: j < k ==> starts(j) < starts(k)
  }

  predicate Later(starts: int -> int, k: int) {
    starts(k) < starts(k + 1)
  }

  lemma {:induction false} StepsGrow(starts: int -> int, j: int, k: int)
    requires j < k && forall i :: Later(starts, i)
    ensures starts(j) < starts(k)
    decreases k - j
  {
    assert Later(starts, k - 1);
    if j < k - 1 {
      StepsGrow(starts, j, k - 1);
    }
  }

  lemma MonthsGrow()
    ensures Grows(UtcMonths.MonthStart)
  {
    forall k ensures Later(UtcMonths.MonthStart, k) {
      UtcMonths.MonthLength(k);
    }
    forall j, k | j < k ensures UtcMonths.MonthStart(j) < UtcMonths.MonthStart(k) {
      StepsGrow(UtcMonths.MonthStart, j, k);
    }
  }

  predicate Within(starts: int -> int, k: int, t: int) {
    starts(k) <= t < starts(k + 1)
  }

  /** The period of an instant, looked for from period k on. */
  function PeriodFrom(starts: int -> int, t: int, k: int): (period: int)
    requires Grows(starts)
    ensures Within(starts, period, t)
    decreases if t < starts(k) then 1 else 0, if t < starts(k) then starts(k) - t else t - starts(k)
  {
    assert starts(k - 1) < starts(k) < starts(k + 1);
    if t < starts(k) then PeriodFrom(starts, t, k - 1)
    else if starts(k + 1) <= t then PeriodFrom(starts, t, k + 1)
    else k
  }

  lemma PeriodIsUnique(starts: int -> int, t: int, j: int, k: int)
    requires Grows(starts) && Within(starts, j, t) && Within(starts, k, t)
    ensures j == k
  {
    assert j + 1 < k ==> starts(j + 1) < starts(k);
    assert k + 1 < j ==> starts(k + 1) < starts(j);
  }

  // ---- charges

  /** What so many milliseconds cost at an hourly rate. */
  function Fee(rate: real): int -> real {
    ms => ms as real / HOUR_MS as real * rate
  }

  predicate AddsUp(fee: int -> real, a: int, b: int) {
    fee(a) + fee(b) == fee(a + b)
  }

  predicate InOrder(fee: int -> real, a: int, b: int) {
    a < b ==> fee(a) < fee(b)
  }

  /** All that matters about a fee. */
  ghost predicate IsFee(fee: int -> real) {
    (forall a, b :: AddsUp(fee, a, b)) && (forall a, b :: InOrder(fee, a, b))
  }

  lemma HourlyIsFee(rate: real)
    requires rate > 0.0
    ensures IsFee(Fee(rate))
  {
    forall a, b ensures AddsUp(Fee(rate), a, b) && InOrder(Fee(rate), a, b) {
      HourlyLaw(rate, a, b);
    }
  }

  lemma HourlyLaw(rate: real, a: int, b: int)
    requires rate > 0.0
    ensures Fee(rate)(a) + Fee(rate)(b) == Fee(rate)(a + b) && (a < b ==> Fee(rate)(a) < Fee(rate)(b))
  {
    var x, y := a as real / HOUR_MS as real, b as real / HOUR_MS as real;
    assert (a + b) as real / HOUR_MS as real == x + y;
    assert (x + y) * rate == x * rate + y * rate;
    if a < b {
      Scale(x, y, rate);
    }
  }

  /** It is hours times rate, in a form without a division. */
  lemma HoursTimesRate(rate: real, ms: int)
    ensures Fee(rate)(ms) * 3_600_000.0 == ms as real * rate
  {
    var hours := ms as real / 3_600_000.0;
    assert hours * rate * 3_600_000.0 == hours * 3_600_000.0 * rate;
  }

  lemma Scale(x: real, y: real, rate: real)
    requires x < y && rate > 0.0
    ensures x * rate < y * rate
  {
  }

  lemma FeeLaw(fee: int -> real, a: int, b: int)
    requires IsFee(fee)
    ensures fee(a) + fee(b) == fee(a + b) && fee(0) == 0.0
    ensures (a <= b ==> fee(a) <= fee(b)) && (a < b ==> fee(a) < fee(b))
  {
    assert AddsUp(fee, a, b) && AddsUp(fee, 0, 0) && InOrder(fee, a, b);
  }

  /** How long the span from `start` to `end` is in period k. */
  function Overlap(starts: int -> int, start: int, end: int, k: int): (ms: int)
    ensures ms >= 0
  {
    Max(0, Min(end, starts(k + 1)) - Max(start, starts(k)))
  }

  function Capped(amount: real, cap: Option<real>): real {
    if cap.Some? && cap.value < amount then cap.value else amount
  }

  /** What a period charges for the span from `start` to `end`. */
  function Charge(starts: int -> int, fee: int -> real, cap: Option<real>, start: int, end: int): int -> real {
    k => Capped(fee(Overlap(starts, start, end, k)), cap)
  }

  function Sum(f: int -> real, lo: int, hi: int): real
    decreases if lo < hi then hi - lo else 0
  {
    if lo >= hi then 0.0 else Sum(f, lo, hi - 1) + f(hi - 1)
  }

  lemma {:induction false} SumJoins(f: int -> real, lo: int, mid: int, hi: int)
    requires lo <= mid <= hi
    ensures Sum(f, lo, hi) == Sum(f, lo, mid) + Sum(f, mid, hi)
    decreases hi - mid
  {
    if mid < hi {
      SumJoins(f, lo, mid, hi - 1);
    }
  }

  lemma {:induction false} SumOfNothing(f: int -> real, lo: int, hi: int)
    requires forall k | lo <= k < hi :: f(k) == 0.0
    ensures Sum(f, lo, hi) == 0.0
    decreases if lo < hi then hi - lo else 0
  {
    if lo < hi {
      SumOfNothing(f, lo, hi - 1);
    }
  }

  lemma {:induction false} SumInOrder(f: int -> real, g: int -> real, lo: int, hi: int)
    requires forall k | lo <= k < hi :: f(k) <= g(k)
    ensures Sum(f, lo, hi) <= Sum(g, lo, hi)
    decreases if lo < hi then hi - lo else 0
  {
    if lo < hi {
      SumInOrder(f, g, lo, hi - 1);
    }
  }

  lemma {:induction false} SumUnder(f: int -> real, lo: int, hi: int, top: real)
    requires lo <= hi && forall k | lo <= k < hi :: f(k) <= top
    ensures Sum(f, lo, hi) <= (hi - lo) as real * top
    decreases hi - lo
  {
    if lo < hi {
      SumUnder(f, lo, hi - 1, top);
      assert (hi - lo) as real * top == (hi - 1 - lo) as real * top + top;
    }
  }

  /** The charges of periods lo up to, not including, hi. */
  function Charges(starts: int -> int, fee: int -> real, cap: Option<real>, start: int, end: int,
                   lo: int, hi: int): real
  {
    Sum(Charge(starts, fee, cap, start, end), lo, hi)
  }

  ghost predicate Pricing(fee: int -> real, cap: Option<real>) {
    IsFee(fee) && (cap.Some? ==> cap.value > 0.0)
  }

  /** Without a cap, the charges of the periods that cover a span are its hours times the fee. */
  lemma {:induction false} UncappedIsElapsed(
      starts: int -> int, fee: int -> real, start: int, end: int, lo: int, hi: int)
    requires Grows(starts) && IsFee(fee) && lo <= hi && starts(lo) <= start && start <= end
    ensures Charges(starts, fee, None, start, end, lo, hi) == fee(Max(0, Min(end, starts(hi)) - start))
    decreases hi - lo
  {
    FeeLaw(fee, 0, 0);
    if lo < hi {
      assert starts(hi - 1) < starts(hi);
      UncappedIsElapsed(starts, fee, start, end, lo, hi - 1);
      FeeLaw(fee, Max(0, Min(end, starts(hi - 1)) - start), Overlap(starts, start, end, hi - 1));
    }
  }

  lemma ChargeLaw(starts: int -> int, fee: int -> real, cap: Option<real>, start: int, end: int, k: int)
    requires Pricing(fee, cap)
    ensures 0.0 <= Charge(starts, fee, cap, start, end)(k) <= Charge(starts, fee, None, start, end)(k)
    ensures cap.Some? ==> Charge(starts, fee, cap, start, end)(k) <= cap.value
    ensures Overlap(starts, start, end, k) == 0 ==> Charge(starts, fee, cap, start, end)(k) == 0.0
  {
    FeeLaw(fee, 0, Overlap(starts, start, end, k));
  }

  lemma ChargeGrows(starts: int -> int, fee: int -> real, cap: Option<real>, start: int, end: int, later: int, k: int)
    requires Pricing(fee, cap) && end <= later
    ensures Charge(starts, fee, cap, start, end)(k) <= Charge(starts, fee, cap, start, later)(k)
  {
    FeeLaw(fee, Overlap(starts, start, end, k), Overlap(starts, start, later, k));
  }

  /** Within one period: two parts never charge less together, and the same when they meet at its start or end. */
  lemma ChargeSplits(starts: int -> int, fee: int -> real, cap: Option<real>, start: int, mid: int, end: int, k: int)
    requires Pricing(fee, cap) && starts(k) < starts(k + 1) && start <= mid <= end
    ensures var parts := Charge(starts, fee, cap, start, mid)(k) + Charge(starts, fee, cap, mid, end)(k);
            && parts >= Charge(starts, fee, cap, start, end)(k)
            && (mid <= starts(k) || starts(k + 1) <= mid ==> parts == Charge(starts, fee, cap, start, end)(k))
  {
    var a, b := Overlap(starts, start, mid, k), Overlap(starts, mid, end, k);
    assert Overlap(starts, start, end, k) == a + b;
    FeeLaw(fee, a, b);
    FeeLaw(fee, 0, a);
    FeeLaw(fee, 0, b);
  }

  /** Billing a span in two parts never costs less, and costs the same when they meet where a period starts. */
  lemma {:induction false} SplitLaw(
      starts: int -> int, fee: int -> real, cap: Option<real>, start: int, mid: int, end: int, lo: int, hi: int)
    requires Grows(starts) && Pricing(fee, cap) && start <= mid <= end
    ensures var parts := Charges(starts, fee, cap, start, mid, lo, hi) + Charges(starts, fee, cap, mid, end, lo, hi);
            && parts >= Charges(starts, fee, cap, start, end, lo, hi)
            && ((exists k :: mid == starts(k)) ==> parts == Charges(starts, fee, cap, start, end, lo, hi))
    decreases if lo < hi then hi - lo else 0
  {
    if lo < hi {
      SplitLaw(starts, fee, cap, start, mid, end, lo, hi - 1);
      assert starts(hi - 1) < starts(hi);
      ChargeSplits(starts, fee, cap, start, mid, end, hi - 1);
      forall k | mid == starts(k) ensures mid <= starts(hi - 1) || starts(hi) <= mid {
        assert k < hi - 1 ==> starts(k) < starts(hi - 1);
        assert hi < k ==> starts(hi) < starts(k);
      }
    }
  }

  // ---- the cost

  /** The charges of the periods touched by a span. */
  function Cost(starts: int -> int, fee: int -> real, cap: Option<real>, start: int, end: int): real
    requires Grows(starts)
  {
    if end <= start then 0.0
    else Charges(starts, fee, cap, start, end, PeriodFrom(starts, start, 0), PeriodFrom(starts, end - 1, 0) + 1)
  }

  /** Periods outside the span charge nothing. */
  lemma NothingOutside(starts: int -> int, fee: int -> real, cap: Option<real>, start: int, end: int, lo: int, hi: int)
    requires Grows(starts) && Pricing(fee, cap) && lo <= hi
    requires starts(hi) <= start || end <= starts(lo) || end <= start
    ensures Charges(starts, fee, cap, start, end, lo, hi) == 0.0
  {
    var charge := Charge(starts, fee, cap, start, end);
    forall k | lo <= k < hi ensures charge(k) == 0.0 {
      assert k + 1 < hi ==> starts(k + 1) < starts(hi);
      assert lo < k ==> starts(lo) < starts(k);
      ChargeLaw(starts, fee, cap, start, end, k);
    }
    SumOfNothing(charge, lo, hi);
  }

  /** The first and the last period touched by a span, among any that cover it. */
  lemma Touched(starts: int -> int, start: int, end: int, lo: int, hi: int)
    requires Grows(starts) && start < end && starts(lo) <= start && end <= starts(hi)
    ensures var first, last := PeriodFrom(starts, start, 0), PeriodFrom(starts, end - 1, 0) + 1;
            lo <= first < last <= hi && starts(first) <= start && end <= starts(last)
  {
    var first, last := PeriodFrom(starts, start, 0), PeriodFrom(starts, end - 1, 0) + 1;
    assert first + 1 < lo ==> starts(first + 1) < starts(lo);
    assert last < first ==> starts(last) < starts(first);
    assert hi < last - 1 ==> starts(hi) < starts(last - 1);
  }

  /** The cost is the charges of any periods that cover the span. */
  lemma CostOverMore(starts: int -> int, fee: int -> real, cap: Option<real>, start: int, end: int, lo: int, hi: int)
    requires Grows(starts) && Pricing(fee, cap) && lo <= hi && starts(lo) <= start && end <= starts(hi)
    ensures Charges(starts, fee, cap, start, end, lo, hi) == Cost(starts, fee, cap, start, end)
  {
    if end <= start {
      NothingOutside(starts, fee, cap, start, end, lo, hi);
    } else {
      Touched(starts, start, end, lo, hi);
      var first, last := PeriodFrom(starts, start, 0), PeriodFrom(starts, end - 1, 0) + 1;
      var charge := Charge(starts, fee, cap, start, end);
      SumJoins(charge, lo, first, hi);
      SumJoins(charge, first, last, hi);
      NothingOutside(starts, fee, cap, start, end, lo, first);
      NothingOutside(starts, fee, cap, start, end, last, hi);
    }
  }

  /** Periods that cover every span between two instants. */
  function Covering(starts: int -> int, a: int, b: int): (r: (int, int))
    requires Grows(starts) && a <= b
    ensures r.0 <= r.1 && starts(r.0) <= a && b <= starts(r.1)
  {
    var lo, hi := PeriodFrom(starts, a, 0), PeriodFrom(starts, b, 0) + 1;
    assert hi < lo ==> starts(hi) < starts(lo);
    (lo, hi)
  }

  /**
   Without a cap the cost is the elapsed hours times the fee; with one it is at most that, and at most
   the cap for every period touched.
   */
  lemma CostBounds(starts: int -> int, fee: int -> real, cap: Option<real>, start: int, end: int)
    requires Grows(starts) && Pricing(fee, cap) && start < end
    ensures Cost(starts, fee, None, start, end) == fee(end - start)
    ensures 0.0 <= Cost(starts, fee, cap, start, end) <= fee(end - start)
    ensures cap.Some? ==>
              Cost(starts, fee, cap, start, end)
              <= (PeriodFrom(starts, end - 1, 0) - PeriodFrom(starts, start, 0) + 1) as real * cap.value
  {
    var first, last := PeriodFrom(starts, start, 0), PeriodFrom(starts, end - 1, 0) + 1;
    Touched(starts, start, end, first, last);
    UncappedIsElapsed(starts, fee, start, end, first, last);
    ChargesBounds(starts, fee, cap, start, end, first, last);
  }

  lemma ChargesBounds(starts: int -> int, fee: int -> real, cap: Option<real>, start: int, end: int, lo: int, hi: int)
    requires Pricing(fee, cap) && lo <= hi
    ensures 0.0 <= Charges(starts, fee, cap, start, end, lo, hi) <= Charges(starts, fee, None, start, end, lo, hi)
    ensures cap.Some? ==> Charges(starts, fee, cap, start, end, lo, hi) <= (hi - lo) as real * cap.value
  {
    var free, capped := Charge(starts, fee, None, start, end), Charge(starts, fee, cap, start, end);
    forall k | lo <= k < hi
      ensures 0.0 <= capped(k) <= free(k) && (cap.Some? ==> capped(k) <= cap.value)
    {
      ChargeLaw(starts, fee, cap, start, end, k);
    }
    SumInOrder(capped, free, lo, hi);
    SumInOrder(k => 0.0, capped, lo, hi);
    SumOfNothing(k => 0.0, lo, hi);
    if cap.Some? {
      SumUnder(capped, lo, hi, cap.value);
    }
  }

  lemma CostIsMonotone(starts: int -> int, fee: int -> real, cap: Option<real>, start: int, end: int, later: int)
    requires Grows(starts) && Pricing(fee, cap) && start <= end <= later
    ensures Cost(starts, fee, cap, start, end) <= Cost(starts, fee, cap, start, later)
  {
    var (lo, hi) := Covering(starts, start, later);
    CostOverMore(starts, fee, cap, start, end, lo, hi);
    CostOverMore(starts, fee, cap, start, later, lo, hi);
    forall k | lo <= k < hi
      ensures Charge(starts, fee, cap, start, end)(k) <= Charge(starts, fee, cap, start, later)(k)
    {
      ChargeGrows(starts, fee, cap, start, end, later, k);
    }
    SumInOrder(Charge(starts, fee, cap, start, end), Charge(starts, fee, cap, start, later), lo, hi);
  }

  /** Billing in two parts never costs less; it costs the same when the parts meet where a period starts. */
  lemma CostSplits(starts: int -> int, fee: int -> real, cap: Option<real>, start: int, mid: int, end: int)
    requires Grows(starts) && Pricing(fee, cap) && start <= mid <= end
    ensures Cost(starts, fee, cap, start, mid) + Cost(starts, fee, cap, mid, end) >= Cost(starts, fee, cap, start, end)
    ensures (exists k :: mid == starts(k)) ==>
              Cost(starts, fee, cap, start, end)
              == Cost(starts, fee, cap, start, mid) + Cost(starts, fee, cap, mid, end)
  {
    var (lo, hi) := Covering(starts, start, end);
    CostOverMore(starts, fee, cap, start, mid, lo, hi);
    CostOverMore(starts, fee, cap, mid, end, lo, hi);
    CostOverMore(starts, fee, cap, start, end, lo, hi);
    SplitLaw(starts, fee, cap, start, mid, end, lo, hi);
  }

  // ---- the bill, segment by segment

  /** What the program takes for the next period, perhaps one further on. */
  ghost predicate Ahead(skip: int -> int) {
    forall k :: k < skip(k)
  }

  function SegmentEnd(starts: int -> int, skip: int -> int, cursor: int, end: int): (next: int)
    requires Grows(starts) && Ahead(skip) && cursor < end
    ensures cursor < next <= end
  {
    var k := PeriodFrom(starts, cursor, 0);
    assert k + 1 < skip(k) ==> starts(k + 1) < starts(skip(k));
    Min(end, starts(skip(k)))
  }

  /** Every segment is capped on its own. */
  function Bill(starts: int -> int, skip: int -> int, fee: int -> real, cap: Option<real>, start: int, end: int): real
    requires Grows(starts) && Ahead(skip)
    decreases end - start
  {
    if end <= start then 0.0
    else
      var next := SegmentEnd(starts, skip, start, end);
      Capped(fee(next - start), cap) + Bill(starts, skip, fee, cap, next, end)
  }

  /** A segment lies in one period, or is not worth a cap. */
  predicate FairSegment(starts: int -> int, fee: int -> real, cap: Option<real>, start: int, end: int)
    requires Grows(starts)
  {
    end <= starts(PeriodFrom(starts, start, 0) + 1) || cap.None? || fee(end - start) <= cap.value
  }

  predicate Fair(starts: int -> int, skip: int -> int, fee: int -> real, cap: Option<real>, start: int, end: int)
    requires Grows(starts) && Ahead(skip)
    decreases end - start
  {
    end <= start
    || (var next := SegmentEnd(starts, skip, start, end);
        FairSegment(starts, fee, cap, start, next) && Fair(starts, skip, fee, cap, next, end))
  }

  lemma OnePeriod(starts: int -> int, fee: int -> real, cap: Option<real>, start: int, end: int, k: int)
    requires Grows(starts) && Pricing(fee, cap) && Within(starts, k, start) && start < end <= starts(k + 1)
    ensures Cost(starts, fee, cap, start, end) == Capped(fee(end - start), cap)
  {
    CostOverMore(starts, fee, cap, start, end, k, k + 1);
    assert Sum(Charge(starts, fee, cap, start, end), k, k) == 0.0;
    assert Overlap(starts, start, end, k) == end - start;
  }

  lemma CapSplits(a: real, b: real, cap: Option<real>)
    requires a > 0.0 && b > 0.0 && (cap.Some? ==> cap.value > 0.0)
    ensures Capped(a + b, cap) <= Capped(a, cap) + Capped(b, cap)
    ensures cap.Some? && cap.value < a + b ==> Capped(a + b, cap) < Capped(a, cap) + Capped(b, cap)
  {
  }

  /** What a span costs that goes on after the period in which it starts. */
  lemma CostAfterPeriod(starts: int -> int, fee: int -> real, cap: Option<real>, start: int, end: int)
    requires Grows(starts) && Pricing(fee, cap) && start < end
    requires starts(PeriodFrom(starts, start, 0) + 1) < end
    ensures var mid := starts(PeriodFrom(starts, start, 0) + 1);
            Cost(starts, fee, cap, start, end) == Capped(fee(mid - start), cap) + Cost(starts, fee, cap, mid, end)
  {
    var k := PeriodFrom(starts, start, 0);
    OnePeriod(starts, fee, cap, start, starts(k + 1), k);
    CostSplits(starts, fee, cap, start, starts(k + 1), end);
  }

  lemma FeeSplits(fee: int -> real, cap: Option<real>, start: int, mid: int, end: int)
    requires Pricing(fee, cap) && start < mid < end
    ensures var parts := Capped(fee(mid - start), cap) + Capped(fee(end - mid), cap);
            && Capped(fee(end - start), cap) <= parts
            && (cap.Some? && cap.value < fee(end - start) ==> Capped(fee(end - start), cap) < parts)
  {
    FeeLaw(fee, mid - start, end - mid);
    FeeLaw(fee, 0, mid - start);
    FeeLaw(fee, 0, end - mid);
    CapSplits(fee(mid - start), fee(end - mid), cap);
  }

  /** Charging a span in one piece never costs more than charging it period by period, and less when the cap binds. */
  lemma {:induction false} PieceLaw(starts: int -> int, fee: int -> real, cap: Option<real>, start: int, end: int)
    requires Grows(starts) && Pricing(fee, cap) && start < end
    ensures Capped(fee(end - start), cap) <= Cost(starts, fee, cap, start, end)
    ensures !FairSegment(starts, fee, cap, start, end) ==>
              Capped(fee(end - start), cap) < Cost(starts, fee, cap, start, end)
    decreases end - start
  {
    var k := PeriodFrom(starts, start, 0);
    var mid := starts(k + 1);
    if end <= mid {
      OnePeriod(starts, fee, cap, start, end, k);
    } else {
      CostAfterPeriod(starts, fee, cap, start, end);
      PieceLaw(starts, fee, cap, mid, end);
      FeeSplits(fee, cap, start, mid, end);
    }
  }

  lemma SegmentLaw(starts: int -> int, fee: int -> real, cap: Option<real>, start: int, end: int)
    requires Grows(starts) && Pricing(fee, cap) && start < end
    ensures Capped(fee(end - start), cap) <= Cost(starts, fee, cap, start, end)
    ensures Capped(fee(end - start), cap) == Cost(starts, fee, cap, start, end)
       <==> FairSegment(starts, fee, cap, start, end)
  {
    PieceLaw(starts, fee, cap, start, end);
    CostBounds(starts, fee, cap, start, end);
    if end <= starts(PeriodFrom(starts, start, 0) + 1) {
      OnePeriod(starts, fee, cap, start, end, PeriodFrom(starts, start, 0));
    }
  }

  lemma CostOfSegment(starts: int -> int, skip: int -> int, fee: int -> real, cap: Option<real>, start: int, end: int)
    requires Grows(starts) && Ahead(skip) && Pricing(fee, cap) && start < end
    ensures var next := SegmentEnd(starts, skip, start, end);
            Cost(starts, fee, cap, start, end)
            == Cost(starts, fee, cap, start, next) + Cost(starts, fee, cap, next, end)
  {
    var next := SegmentEnd(starts, skip, start, end);
    if next < end {
      CostSplits(starts, fee, cap, start, next, end);
    }
  }

  /** What the bill is compared with: it adds up over segments, and a segment bears its law. */
  ghost predicate Comparable(starts: int -> int, skip: int -> int, fee: int -> real, cap: Option<real>,
                             cost: (int, int) -> real)
    requires Grows(starts) && Ahead(skip)
  {
    && (forall a, b | b <= a :: cost(a, b) == 0.0)
    && (forall a, b | a < b ::
          var next := SegmentEnd(starts, skip, a, b);
          cost(a, b) == cost(a, next) + cost(next, b))
    && forall a, b | a < b ::
         && Capped(fee(b - a), cap) <= cost(a, b)
         && (Capped(fee(b - a), cap) == cost(a, b) <==> FairSegment(starts, fee, cap, a, b))
  }

  lemma {:induction false} BillCompares(starts: int -> int, skip: int -> int, fee: int -> real, cap: Option<real>,
                                        cost: (int, int) -> real, start: int, end: int)
    requires Grows(starts) && Ahead(skip) && Comparable(starts, skip, fee, cap, cost)
    ensures Bill(starts, skip, fee, cap, start, end) <= cost(start, end)
    ensures Bill(starts, skip, fee, cap, start, end) == cost(start, end) <==> Fair(starts, skip, fee, cap, start, end)
    decreases end - start
  {
    if start < end {
      var next := SegmentEnd(starts, skip, start, end);
      BillCompares(starts, skip, fee, cap, cost, next, end);
      assert cost(start, end) == cost(start, next) + cost(next, end);
    }
  }

  /** The bill is never more than the cost, and the same exactly when all its segments are fair. */
  lemma BillIsCostExactlyWhenFair(
      starts: int -> int, skip: int -> int, fee: int -> real, cap: Option<real>, start: int, end: int)
    requires Grows(starts) && Ahead(skip) && Pricing(fee, cap)
    ensures Bill(starts, skip, fee, cap, start, end) <= Cost(starts, fee, cap, start, end)
    ensures Bill(starts, skip, fee, cap, start, end) == Cost(starts, fee, cap, start, end)
       <==> Fair(starts, skip, fee, cap, start, end)
  {
    var cost := (a: int, b: int) => Cost(starts, fee, cap, a, b);
    forall a, b | a < b
      ensures cost(a, b) == cost(a, SegmentEnd(starts, skip, a, b)) + cost(SegmentEnd(starts, skip, a, b), b)
    {
      CostOfSegment(starts, skip, fee, cap, a, b);
    }
    forall a, b | a < b
      ensures Capped(fee(b - a), cap) <= cost(a, b)
      ensures Capped(fee(b - a), cap) == cost(a, b) <==> FairSegment(starts, fee, cap, a, b)
    {
      SegmentLaw(starts, fee, cap, a, b);
    }
    BillCompares(starts, skip, fee, cap, cost, start, end);
  }

  // ---- the program

  /** Adds up the capped segments. */
  method AddUp(starts: int -> int, skip: int -> int, fee: int -> real, cap: Option<real>, start: int, end: int)
    returns (total: real)
    requires Grows(starts) && Ahead(skip)
    ensures total == Bill(starts, skip, fee, cap, start, end)
  {
    var cursor := start;
    total := 0.0;
    while cursor < end
      invariant total + Bill(starts, skip, fee, cap, cursor, end) == Bill(starts, skip, fee, cap, start, end)
    {
      var segmentEnd := SegmentEnd(starts, skip, cursor, end);
      var amount := fee(segmentEnd - cursor);
      total := total + Capped(amount, cap);
      cursor := segmentEnd;
    }
  }

  /** The laws of a bill: what it is at most, that it never falls, and what splitting it does. */
  ghost predicate Billed(starts: int -> int, fee: int -> real, cap: Option<real>, start: int, mid: int, end: int)
    requires Grows(starts)
  {
    var whole, first, second :=
      Cost(starts, fee, cap, start, end), Cost(starts, fee, cap, start, mid), Cost(starts, fee, cap, mid, end);
    && Cost(starts, fee, None, start, end) == fee(end - start)
    && 0.0 <= first <= whole <= first + second && whole <= fee(end - start)
    && (cap.Some? ==>
          whole <= (PeriodFrom(starts, end - 1, 0) - PeriodFrom(starts, start, 0) + 1) as real * cap.value)
    && ((exists k :: mid == starts(k)) ==> whole == first + second)
  }

  lemma BillLaw(starts: int -> int, fee: int -> real, cap: Option<real>, start: int, mid: int, end: int)
    requires Grows(starts) && Pricing(fee, cap) && start < mid < end
    ensures Billed(starts, fee, cap, start, mid, end)
  {
    CostBounds(starts, fee, cap, start, end);
    CostBounds(starts, fee, cap, start, mid);
    CostIsMonotone(starts, fee, cap, start, mid, end);
    CostSplits(starts, fee, cap, start, mid, end);
  }

  /** They hold for the hours and the months of UTC. */
  lemma MonthlyBill(rate: real, cap: Option<real>, start: int, mid: int, end: int)
    requires rate > 0.0 && (cap.Some? ==> cap.value > 0.0) && start < mid < end
    ensures Grows(UtcMonths.MonthStart) && Billed(UtcMonths.MonthStart, Fee(rate), cap, start, mid, end)
  {
    MonthsGrow();
    HourlyIsFee(rate);
    BillLaw(UtcMonths.MonthStart, Fee(rate), cap, start, mid, end);
  }

  /** The month that starts at `Date.UTC(year, month, 1)`: the years 0 to 99 stand for 1900 to 1999. */
  function UtcIndex(year: int, month: int): int {
    12 * (if 0 <= year <= 99 then 1900 + year else year) + month
  }

  /** What the program takes for the month after month k. */
  const NEXT_MONTH: int -> int := k => UtcIndex(k / 12, k % 12 + 1)

  /** The first month of the year 100. */
  const YEAR_100: int := 1200

  lemma NextMonthIsAhead()
    ensures Ahead(NEXT_MONTH) && forall k | k < 0 || YEAR_100 <= k :: NEXT_MONTH(k) == k + 1
  {
  }

  /** Before period `lo`, and from period `hi` on, every segment lies in one period if the program takes the next. */
  lemma {:induction false} FairWhereNext(starts: int -> int, skip: int -> int, fee: int -> real, cap: Option<real>,
                                         lo: int, hi: int, start: int, end: int)
    requires Grows(starts) && Ahead(skip) && forall k | k < lo || hi <= k :: skip(k) == k + 1
    requires starts(hi) <= start || end <= starts(lo)
    ensures Fair(starts, skip, fee, cap, start, end)
    decreases end - start
  {
    if start < end {
      var k := PeriodFrom(starts, start, 0);
      assert k + 1 < hi ==> starts(k + 1) < starts(hi);
      assert lo < k ==> starts(lo) < starts(k);
      FairWhereNext(starts, skip, fee, cap, lo, hi, SegmentEnd(starts, skip, start, end), end);
    }
  }

  /** Outside the years 0 to 99 every segment lies in one month. */
  lemma FairOutside(fee: int -> real, cap: Option<real>, start: int, end: int)
    requires Grows(UtcMonths.MonthStart) && Ahead(NEXT_MONTH)
    requires UtcMonths.MonthStart(YEAR_100) <= start || end <= UtcMonths.MonthStart(0)
    ensures Fair(UtcMonths.MonthStart, NEXT_MONTH, fee, cap, start, end)
  {
    NextMonthIsAhead();
    FairWhereNext(UtcMonths.MonthStart, NEXT_MONTH, fee, cap, 0, YEAR_100, start, end);
  }

  /** So the program bills by the month, at the latest from the year 100 on. */
  lemma BilledByTheMonth(rate: real, cap: Option<real>, start: int, end: int)
    requires rate > 0.0 && (cap.Some? ==> cap.value > 0.0)
    ensures Grows(UtcMonths.MonthStart) && Ahead(NEXT_MONTH)
    ensures var bill := Bill(UtcMonths.MonthStart, NEXT_MONTH, Fee(rate), cap, start, end);
            var cost := Cost(UtcMonths.MonthStart, Fee(rate), cap, start, end);
            && bill <= cost
            && (bill == cost <==> Fair(UtcMonths.MonthStart, NEXT_MONTH, Fee(rate), cap, start, end))
            && (UtcMonths.MonthStart(YEAR_100) <= start || end <= UtcMonths.MonthStart(0) ==> bill == cost)
  {
    MonthsGrow();
    NextMonthIsAhead();
    HourlyIsFee(rate);
    BillIsCostExactlyWhenFair(UtcMonths.MonthStart, NEXT_MONTH, Fee(rate), cap, start, end);
    if UtcMonths.MonthStart(YEAR_100) <= start || end <= UtcMonths.MonthStart(0) {
      FairOutside(Fee(rate), cap, start, end);
    }
  }

  /** A span of two months of the years 0 to 99 that is worth more than one cap is billed too low. */
  lemma FirstCenturyIsBilledTooLow(rate: real, cap: real, k: int)
    requires rate > 0.0 && 0 <= k < YEAR_100
    requires 0.0 < cap < Fee(rate)(UtcMonths.MonthStart(k + 2) - UtcMonths.MonthStart(k))
    ensures Grows(UtcMonths.MonthStart) && Ahead(NEXT_MONTH)
    ensures var start, end := UtcMonths.MonthStart(k), UtcMonths.MonthStart(k + 2);
            Bill(UtcMonths.MonthStart, NEXT_MONTH, Fee(rate), Some(cap), start, end)
            < Cost(UtcMonths.MonthStart, Fee(rate), Some(cap), start, end)
  {
    MonthsGrow();
    NextMonthIsAhead();
    HourlyIsFee(rate);
    TwoAtOnce(UtcMonths.MonthStart, NEXT_MONTH, Fee(rate), Some(cap), k);
  }

  lemma TwoAtOnce(starts: int -> int, skip: int -> int, fee: int -> real, cap: Option<real>, k: int)
    requires Grows(starts) && Ahead(skip) && Pricing(fee, cap) && k + 1 < skip(k)
    requires cap.Some? && cap.value < fee(starts(k + 2) - starts(k))
    ensures Bill(starts, skip, fee, cap, starts(k), starts(k + 2)) < Cost(starts, fee, cap, starts(k), starts(k + 2))
  {
    var start, end := starts(k), starts(k + 2);
    assert start < starts(k + 1) < end && (k + 2 < skip(k) ==> end < starts(skip(k)));
    PeriodIsUnique(starts, start, PeriodFrom(starts, start, 0), k);
    assert SegmentEnd(starts, skip, start, end) == end;
    BillIsCostExactlyWhenFair(starts, skip, fee, cap, start, end);
  }

  /** The first segment of a span runs to the start of period `next`. */
  predicate RunsTo(starts: int -> int, skip: int -> int, fee: int -> real, cap: Option<real>,
                   next: int, start: int, end: int)
    requires Grows(starts) && Ahead(skip)
  {
    Bill(starts, skip, fee, cap, start, end)
    == if end <= starts(next) then Capped(fee(end - start), cap)
       else Capped(fee(starts(next) - start), cap) + Bill(starts, skip, fee, cap, starts(next), end)
  }

  lemma FirstSegment(starts: int -> int, skip: int -> int, fee: int -> real, cap: Option<real>,
                     k: int, next: int, start: int, end: int)
    requires Grows(starts) && Ahead(skip) && Within(starts, k, start) && start < end && skip(k) == next
    ensures RunsTo(starts, skip, fee, cap, next, start, end)
  {
    PeriodIsUnique(starts, start, PeriodFrom(starts, start, 0), k);
    assert end <= starts(next) ==> SegmentEnd(starts, skip, start, end) == end;
  }

  lemma FirstCenturySkips(k: int)
    requires 0 <= k < YEAR_100
    ensures NEXT_MONTH(k) == k + 22_801
  {
  }

  /** A segment that starts in the years 0 to 99 runs on for 1900 years, 22800 months, and to the next month. */
  lemma SegmentOfFirstCentury(fee: int -> real, cap: Option<real>, k: int, start: int, end: int)
    requires 0 <= k < YEAR_100 && Within(UtcMonths.MonthStart, k, start) && start < end
    ensures Grows(UtcMonths.MonthStart) && Ahead(NEXT_MONTH)
    ensures RunsTo(UtcMonths.MonthStart, NEXT_MONTH, fee, cap, k + 22_801, start, end)
  {
    MonthsGrow();
    NextMonthIsAhead();
    FirstCenturySkips(k);
    FirstSegment(UtcMonths.MonthStart, NEXT_MONTH, fee, cap, k, k + 22_801, start, end);
  }

  /** Without a cap every segment is fair. */
  lemma {:induction false} FairWithoutCap(starts: int -> int, skip: int -> int, fee: int -> real, start: int, end: int)
    requires Grows(starts) && Ahead(skip)
    ensures Fair(starts, skip, fee, None, start, end)
    decreases end - start
  {
    if start < end {
      FairWithoutCap(starts, skip, fee, SegmentEnd(starts, skip, start, end), end);
    }
  }

  lemma BillWithoutCap(starts: int -> int, skip: int -> int, fee: int -> real, start: int, end: int)
    requires Grows(starts) && Ahead(skip) && IsFee(fee) && start < end
    ensures Bill(starts, skip, fee, None, start, end) == fee(end - start)
  {
    BillIsCostExactlyWhenFair(starts, skip, fee, None, start, end);
    FairWithoutCap(starts, skip, fee, start, end);
    CostBounds(starts, fee, None, start, end);
  }

  lemma HoursWithoutCap(starts: int -> int, skip: int -> int, rate: real, start: int, end: int)
    requires Grows(starts) && Ahead(skip) && rate > 0.0 && start < end
    ensures Bill(starts, skip, Fee(rate), None, start, end) * 3_600_000.0 == (end - start) as real * rate
  {
    HourlyIsFee(rate);
    BillWithoutCap(starts, skip, Fee(rate), start, end);
    HoursTimesRate(rate, end - start);
  }

  /** Whatever the span, without a cap the bill is its hours times the rate. */
  lemma UncappedBill(rate: real, start: int, end: int)
    requires rate > 0.0 && start < end
    ensures Grows(UtcMonths.MonthStart) && Ahead(NEXT_MONTH)
    ensures Bill(UtcMonths.MonthStart, NEXT_MONTH, Fee(rate), None, start, end) * 3_600_000.0
         == (end - start) as real * rate
  {
    MonthsGrow();
    NextMonthIsAhead();
    HoursWithoutCap(UtcMonths.MonthStart, NEXT_MONTH, rate, start, end);
  }

  /** What hours are worth, but not more than the cap. */
  predicate UpToCap(bill: real, worth: real, cap: real) {
    if cap * 3_600_000.0 < worth then bill == cap else bill * 3_600_000.0 == worth
  }

  lemma BillOfPiece(starts: int -> int, skip: int -> int, fee: int -> real, cap: real, k: int, start: int, end: int)
    requires Grows(starts) && Ahead(skip) && starts(k) <= start < end <= starts(k + 1)
    ensures Bill(starts, skip, fee, Some(cap), start, end) == if cap < fee(end - start) then cap else fee(end - start)
  {
    assert k + 1 < skip(k) ==> starts(k + 1) < starts(skip(k));
    FirstSegment(starts, skip, fee, Some(cap), k, skip(k), start, end);
  }

  lemma UpToCapLaw(amount: real, worth: real, cap: real)
    requires amount * 3_600_000.0 == worth
    ensures UpToCap(if cap < amount then cap else amount, worth, cap)
  {
  }

  lemma BillInPeriod(starts: int -> int, skip: int -> int, rate: real, cap: real, k: int, start: int, end: int)
    requires Grows(starts) && Ahead(skip) && starts(k) <= start < end <= starts(k + 1)
    ensures UpToCap(Bill(starts, skip, Fee(rate), Some(cap), start, end), (end - start) as real * rate, cap)
  {
    BillOfPiece(starts, skip, Fee(rate), cap, k, start, end);
    HoursTimesRate(rate, end - start);
    UpToCapLaw(Fee(rate)(end - start), (end - start) as real * rate, cap);
  }

  /** Within one month of UTC the bill is hours times rate, but not more than the cap. */
  lemma BillWithinMonth(rate: real, cap: real, k: int, start: int, end: int)
    requires rate > 0.0 && cap > 0.0
    requires UtcMonths.MonthStart(k) <= start < end <= UtcMonths.MonthStart(k + 1)
    ensures Grows(UtcMonths.MonthStart) && Ahead(NEXT_MONTH)
    ensures var bill := Bill(UtcMonths.MonthStart, NEXT_MONTH, Fee(rate), Some(cap), start, end);
            UpToCap(bill, (end - start) as real * rate, cap)
  {
    MonthsGrow();
    NextMonthIsAhead();
    BillInPeriod(UtcMonths.MonthStart, NEXT_MONTH, rate, cap, k, start, end);
  }

  /** A finite number above zero; what is not a finite number is None. */
  function PositiveNumber(value: Option<real>): (number: Option<real>)
    ensures number.Some? ==> number == value && number.value > 0.0
  {
    if value.Some? && value.value > 0.0 then value else None
  }

  method CumulativeInstanceCost(hourly: Option<real>, monthly: Option<real>, createdAt: Option<int>, now: Option<int>)
    returns (cost: Option<real>)
    ensures Grows(UtcMonths.MonthStart) && Ahead(NEXT_MONTH)
    ensures cost.Some? <==> hourly.Some? && hourly.value > 0.0
    ensures cost.Some? ==>
              cost.value == if createdAt.None? || now.None? then 0.0
                            else Bill(UtcMonths.MonthStart, NEXT_MONTH, Fee(hourly.value), PositiveNumber(monthly),
                                      createdAt.value, now.value)
  {
    MonthsGrow();
    NextMonthIsAhead();
    var rate := PositiveNumber(hourly);
    if rate.None? {
      return None;
    }
    if createdAt.None? || now.None? || now.value <= createdAt.value {
      return Some(0.0);
    }
    var total :=
      AddUp(UtcMonths.MonthStart, NEXT_MONTH, Fee(rate.value), PositiveNumber(monthly), createdAt.value, now.value);
    return Some(total);
  }
}
