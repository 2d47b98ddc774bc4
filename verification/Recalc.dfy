/** `ev_floor` and `periodic_recalc` in exact arithmetic. */
module Recalc {

  const MIN_INTERVAL := 0.0001220703125
  const SHIFT := 18446744073709551616.0 // an unsigned long has 64 bits

  lemma FloorIs(v: real, n: int)
    requires n as real <= v < n as real + 1.0
    ensures v.Floor == n
  {
  }

  /** Splitting off a multiple of `SHIFT` splits the floor. */
  lemma FloorSplits(v: real, n: int)
    ensures (SHIFT * n as real) == (18446744073709551616 * n) as real
    ensures v.Floor == 18446744073709551616 * n + (v - SHIFT * n as real).Floor
  {
    var k := 18446744073709551616 * n;
    assert k as real == SHIFT * n as real;
    FloorIs(v, k + (v - k as real).Floor);
  }

  lemma FloorOfNegative(v: real)
    ensures var f := -((-v).Floor as real); v.Floor as real == f - (if f == v then 0.0 else 1.0)
  {
    var n := (-v).Floor;
    FloorIs(v, if -n as real == v then -n else -n - 1);
  }

  /** Both arguments of the recursion for large numbers are smaller. */
  lemma LargeShrinks(v: real)
    requires v >= SHIFT
    ensures var w := v * (1.0 / SHIFT); var rest := v - SHIFT * w.Floor as real;
      0.0 <= w && 0.0 <= rest && 0 <= w.Floor < v.Floor && 0 <= rest.Floor < v.Floor
  {
    var w := v * (1.0 / SHIFT);
    assert SHIFT * w == v;
    assert w.Floor as real <= w < w.Floor as real + 1.0;
    assert w < v - 1.0;
  }

  /** `ev_floor` is the floor, for negative, small and large arguments alike. (Its test for
      `v == v - 1.` is never true of an exact number.) */
  function EvFloor(v: real): (r: real)
    ensures r == v.Floor as real
    decreases v < 0.0, v.Floor
  {
    if v < 0.0 then
      var f := -EvFloor(-v);
      FloorOfNegative(v);
      f - (if f == v then 0.0 else 1.0)
    else if v >= SHIFT then
      LargeShrinks(v);
      var f := SHIFT * EvFloor(v * (1.0 / SHIFT));
      FloorSplits(v, (v * (1.0 / SHIFT)).Floor);
      f + EvFloor(v - f)
    else
      v.Floor as real // (unsigned long)v
  }

  // ---------- products, kept apart from the linear arithmetic ----------

  function Mul(a: real, b: real): real { a * b }

  lemma MulOrder(a: real, b: real, c: real)
    requires a > 0.0
    ensures b <= c <==> Mul(a, b) <= Mul(a, c)
  {
  }

  lemma MulSub(a: real, b: real, c: real)
    ensures Mul(a, b - c) == Mul(a, b) - Mul(a, c)
    ensures Mul(a, b + c) == Mul(a, b) + Mul(a, c)
    ensures Mul(a, 1.0) == a && Mul(a, 0.0) == 0.0
  {
  }

  lemma MulDiv(a: real, b: real)
    requires b > 0.0
    ensures Mul(b, a / b) == a
  {
  }

  /** The grid point `offset + k * interval`. */
  function Grid(offset: real, interval: real, k: int): real { offset + Mul(interval, k as real) }

  lemma GridIs(offset: real, interval: real, k: int)
    ensures Grid(offset, interval, k) == offset + interval * k as real
  {
  }

  ghost predicate OnGrid(at: real, offset: real, interval: real) {
    exists k :: at == Grid(offset, interval, k)
  }

  /** The interval that the division uses. */
  function Step(interval: real): real { if interval > MIN_INTERVAL then interval else MIN_INTERVAL }

  /** The quotient's floor brackets `now`. */
  lemma Brackets(offset: real, step: real, now: real)
    requires step > 0.0
    ensures var n := ((now - offset) / step).Floor;
      Grid(offset, step, n) <= now < Grid(offset, step, n) + step
  {
    hide Mul;
    var q := (now - offset) / step;
    MulDiv(now - offset, step);
    Between(step, q, q.Floor as real);
  }

  lemma Between(a: real, q: real, n: real)
    requires a > 0.0 && n <= q < n + 1.0
    ensures Mul(a, n) <= Mul(a, q) < Mul(a, n) + a
  {
    hide Mul;
    MulOrder(a, n, q);
    MulOrder(a, n + 1.0, q);
    MulSub(a, n, 1.0);
  }

  /** How many steps of `interval` fit into `d`, plus one; zero when `d` is negative. */
  function StepsLeft(d: real, interval: real): nat
    requires interval > 0.0
  {
    if d < 0.0 then 0 else QuotientSign(d, interval); (d / interval).Floor + 1
  }

  lemma QuotientSign(d: real, interval: real)
    requires d >= 0.0 && interval > 0.0
    ensures d / interval >= 0.0
  {
    hide Mul;
    MulDiv(d, interval);
    MulOrder(interval, 0.0, d / interval);
    MulSub(interval, 0.0, 0.0);
  }

  lemma DistanceShrinks(d: real, interval: real)
    requires d >= 0.0 && interval > 0.0
    ensures StepsLeft(d - interval, interval) < StepsLeft(d, interval)
  {
    hide Mul;
    var q, r := d / interval, (d - interval) / interval;
    QuotientSign(d, interval);
    MulDiv(d, interval);
    MulDiv(d - interval, interval);
    MulSub(interval, q, 1.0);
    MulOrder(interval, r, q - 1.0);
    MulOrder(interval, q - 1.0, r);
  }

  /** The search of `periodic_recalc` from `start` on: the first time after `now`. */
  method StepPast(start: real, interval: real, now: real) returns (at: real, ghost steps: nat)
    requires interval > 0.0 && start <= now
    ensures now < at <= now + interval && at == start + Mul(interval, steps as real)
    ensures start + interval > now ==> steps == 1
  {
    hide StepsLeft, Mul;
    at := start;
    steps := 0;
    MulSub(interval, 0.0, 0.0);
    while at <= now
      invariant at <= now + interval && at == start + Mul(interval, steps as real)
      invariant steps == 0 ==> at == start
      invariant start + interval > now && steps > 0 ==> steps == 1 && at > now
      decreases StepsLeft(now - at, interval)
    {
      // adding a positive interval exactly always moves: nat == at is impossible
      DistanceShrinks(now - at, interval);
      MulSub(interval, steps as real, 1.0);
      at := at + interval;
      steps := steps + 1;
    }
  }

  /** `periodic_recalc`: the next time after `now`, at most an interval away. For intervals of
      at least `MIN_INTERVAL` it is a point of the grid. */
  method PeriodicRecalc(offset: real, interval: real, now: real) returns (at: real, ghost steps: nat)
    requires interval > 0.0
    ensures now < at <= now + interval
    ensures at == Grid(offset, Step(interval), ((now - offset) / Step(interval)).Floor) + Mul(interval, steps as real)
    ensures interval >= MIN_INTERVAL ==> at == Grid(offset, interval, ((now - offset) / interval).Floor + 1)
    ensures OnGrid(at, offset, interval) <==> StartsOnGrid(offset, interval, now)
  {
    var step := if interval > MIN_INTERVAL then interval else MIN_INTERVAL;
    hide Mul, StartsOnGrid, OnGrid;
    var start := offset + step * EvFloor((now - offset) / step);
    assert start == Grid(offset, step, ((now - offset) / step).Floor) by { GridIs(offset, step, ((now - offset) / step).Floor); }
    Brackets(offset, step, now);
    at, steps := StepPast(start, interval, now);
    MulSub(interval, ((now - offset) / interval).Floor as real, 1.0);
    MulSub(interval, 1.0, 0.0);
    GridExactlyWhen(offset, interval, now, at, steps);
  }

  predicate Whole(r: real) { r == r.Floor as real }

  /** The first candidate lies on the grid: what a caller can compute. For intervals of at least
      `MIN_INTERVAL` it always does; for shorter ones it is a multiple of `MIN_INTERVAL`, which must
      be one of `interval`. */
  predicate StartsOnGrid(offset: real, interval: real, now: real)
    requires interval > 0.0
  {
    || interval >= MIN_INTERVAL
    || Whole(Mul(MIN_INTERVAL, ((now - offset) / MIN_INTERVAL).Floor as real) / interval)
  }

  lemma WholeMultiple(d: real, interval: real)
    requires interval > 0.0
    ensures Whole(d / interval) <==> exists m: int {:trigger m as real} :: d == Mul(interval, m as real)
  {
    var q := d / interval;
    MulDiv(d, interval);
    if Whole(q) {
      assert d == Mul(interval, q.Floor as real);
    }
    hide Mul;
    if m: int {:trigger m as real} :| d == Mul(interval, m as real) {
      MulOrder(interval, m as real, q);
      MulOrder(interval, q, m as real);
    }
  }

  /** This is the same as lying on the grid. */
  lemma StartsOnGridIs(offset: real, interval: real, now: real)
    requires interval > 0.0
    ensures StartsOnGrid(offset, interval, now) <==>
      OnGrid(Grid(offset, Step(interval), ((now - offset) / Step(interval)).Floor), offset, interval)
  {
    if interval < MIN_INTERVAL {
      var d := Mul(MIN_INTERVAL, ((now - offset) / MIN_INTERVAL).Floor as real);
      WholeMultiple(d, interval);
      hide Mul, Whole;
      if m: int {:trigger m as real} :| d == Mul(interval, m as real) {
        assert offset + d == Grid(offset, interval, m);
      }
      if k :| offset + d == Grid(offset, interval, k) {
        assert d == Mul(interval, k as real);
      }
    }
  }

  lemma LongIntervalStartsOnGrid(offset: real, interval: real, now: real)
    requires interval >= MIN_INTERVAL
    ensures OnGrid(Grid(offset, Step(interval), ((now - offset) / Step(interval)).Floor), offset, interval)
  {
    assert Step(interval) == interval;
  }

  lemma GridExactlyWhen(offset: real, interval: real, now: real, at: real, steps: nat)
    requires interval > 0.0
    requires at == Grid(offset, Step(interval), ((now - offset) / Step(interval)).Floor) + Mul(interval, steps as real)
    ensures OnGrid(at, offset, interval) <==> StartsOnGrid(offset, interval, now)
  {
    StartsOnGridIs(offset, interval, now);
    hide Mul, StartsOnGrid;
    var start := Grid(offset, Step(interval), ((now - offset) / Step(interval)).Floor);
    if k :| at == Grid(offset, interval, k) {
      MulSub(interval, k as real, steps as real);
      assert (k - steps) as real == k as real - steps as real;
      assert start == Grid(offset, interval, k - steps);
    }
    if m :| start == Grid(offset, interval, m) {
      MulSub(interval, m as real, steps as real);
      assert (m + steps) as real == m as real + steps as real;
      assert at == Grid(offset, interval, m + steps);
    }
  }

  /** With three quarters of `MIN_INTERVAL` as the interval, offset 0 and `now` at
      `MIN_INTERVAL`, the result is off the grid. */
  lemma ShortIntervalLeavesGrid()
    ensures !StartsOnGrid(0.0, 0.75 * MIN_INTERVAL, MIN_INTERVAL)
  {
    assert ((MIN_INTERVAL - 0.0) / MIN_INTERVAL).Floor == 1;
    MulSub(MIN_INTERVAL, 0.0, 0.0);
    var q := MIN_INTERVAL / (0.75 * MIN_INTERVAL);
    assert 1.0 < q < 2.0;
  }

  /** There is exactly one grid point in an interval's length after `now`. */
  lemma GridPointUnique(offset: real, interval: real, now: real, j: int, k: int)
    requires interval > 0.0
    requires now < Grid(offset, interval, j) <= now + interval
    requires now < Grid(offset, interval, k) <= now + interval
    ensures j == k
  {
    hide Mul;
    MulSub(interval, j as real, 1.0);
    MulSub(interval, k as real, 1.0);
    MulOrder(interval, j as real + 1.0, k as real);
    MulOrder(interval, k as real + 1.0, j as real);
  }
}
