/** The closed-loop release arithmetic of one controller pass. Counters are 64-bit
    and saturate exactly as the source's do; `f64` is idealised as `real`. */
module Release {
  import opened Common

  const INTERVAL_SECS: u64 := 10
  const STALE_OPEN_PASS_SECS: u64 := 2 * INTERVAL_SECS
  const EWMA_ALPHA: real := 0.3
  const DDB_NUMBER_MIN_POSITIVE: real := 1e-130
  const MAX_CORRECTION_MULTIPLE: real := 2.0

  type u32 = n: nat | n <= 0xFFFF_FFFF

  datatype ReleaseInputs = ReleaseInputs(
    arrivals: seq<u64>,
    lastArrivalsTotal: u64,
    lastServingCounter: u64,
    servingCounter: u64,
    queueCounter: u64,
    targetRate: u32,
    lastOpenPassAt: u64)

  datatype ReleaseDecision = ReleaseDecision(
    release: u64,
    nextServingCounter: u64,
    previousServingCounter: u64,
    arrivalsTotal: u64,
    noShow: real,
    lastOpenPassAt: u64)

  function ClampUnit(x: real): real { if x < 0.0 then 0.0 else if x > 1.0 then 1.0 else x }

  /** Round half away from zero, for the non-negative values it is given. */
  function Round(x: real): int { (x + 0.5).Floor }

  /** A smoothed rate the store can hold: a rate, and not a positive one below the
      smallest positive number the store accepts. */
  predicate StorableRate(r: real)
  {
    0.0 <= r <= 1.0 && (r == 0.0 || r >= DDB_NUMBER_MIN_POSITIVE)
  }

  /** What a reader may find as the previous rate: absent, or within `[0, 1]`. */
  predicate ReadableRate(prev: Option<real>) { prev.Some? ==> 0.0 <= prev.value <= 1.0 }

  /** The arrival total: the sum of the shards, pinned at the top of the range. */
  function ArrivalsTotal(arrivals: seq<u64>): u64
  {
    if Sum(arrivals) <= U64_MAX then Sum(arrivals) else U64_MAX
  }

  method SumArrivals(arrivals: seq<u64>) returns (total: u64)
    ensures total == ArrivalsTotal(arrivals)
  {
    total := 0;
    for i := 0 to |arrivals|
      invariant total == ArrivalsTotal(arrivals[..i])
    {
      SumSnoc(arrivals, i);
      total := SatAdd(total, arrivals[i]);
    }
    SumAll(arrivals);
  }

  function TargetPerInterval(targetRate: u32): u64 { SatMul(targetRate, INTERVAL_SECS) }

  function BoundedRelease(target: u64, smoothedNoShow: real): u64
  {
    var cap := target as real * MAX_CORRECTION_MULTIPLE;
    var denom := 1.0 - smoothedNoShow;
    var raw := if denom <= 0.0 then cap
               else if target as real / denom <= cap then target as real / denom else cap;
    var rounded := Round(raw);
    if rounded <= 0 then 0 else if rounded >= U64_MAX then U64_MAX else rounded
  }

  function ReleasedLast(inputs: ReleaseInputs): u64
  {
    SatSub(inputs.servingCounter, Max(inputs.lastServingCounter, 1))
  }

  predicate Stale(inputs: ReleaseInputs, now: u64)
  {
    SatSub(now, inputs.lastOpenPassAt) >= STALE_OPEN_PASS_SECS
  }

  predicate Measurable(inputs: ReleaseInputs, now: u64)
  {
    ReleasedLast(inputs) != 0 && !Stale(inputs, now)
  }

  function ObservedNoShow(inputs: ReleaseInputs): real
    requires ReleasedLast(inputs) != 0
  {
    var observed := SatSub(ArrivalsTotal(inputs.arrivals), inputs.lastArrivalsTotal);
    1.0 - ClampUnit(observed as real / ReleasedLast(inputs) as real)
  }

  function Smoothed(inputs: ReleaseInputs, prev: Option<real>, now: u64): real
  {
    if !Measurable(inputs, now) then GetOr(prev, 0.0)
    else ClampUnit(if prev.Some?
                   then EWMA_ALPHA * ObservedNoShow(inputs) + (1.0 - EWMA_ALPHA) * prev.value
                   else ObservedNoShow(inputs))
  }

  function Requested(inputs: ReleaseInputs, prev: Option<real>, now: u64): u64
  {
    var target := TargetPerInterval(inputs.targetRate);
    if Measurable(inputs, now) then BoundedRelease(target, Smoothed(inputs, prev, now)) else target
  }

  function ComputeRelease(inputs: ReleaseInputs, prev: Option<real>, now: u64): ReleaseDecision
  {
    var smoothed := Smoothed(inputs, prev, now);
    var stored := if smoothed > 0.0 && smoothed < DDB_NUMBER_MIN_POSITIVE then 0.0 else smoothed;
    var ceiling := SatAdd(inputs.queueCounter, 1);
    var next := Max(Min(SatAdd(inputs.servingCounter, Requested(inputs, prev, now)), ceiling),
                    inputs.servingCounter);
    ReleaseDecision(SatSub(next, inputs.servingCounter), next, inputs.servingCounter,
                    ArrivalsTotal(inputs.arrivals), stored, now)
  }

  // ---- The correction ------------------------------------------------------

  lemma RoundBetween(x: real, lo: int, hi: int)
    requires lo as real <= x <= hi as real
    ensures lo <= Round(x) <= hi
  {
  }

  lemma RoundMonotone(x: real, y: real)
    requires x <= y
    ensures Round(x) <= Round(y)
  {
  }

  lemma QuotientAtLeast(t: real, d: real)
    requires t >= 0.0 && 0.0 < d <= 1.0
    ensures t / d >= t
  {
    var q := t / d;
    assert q * d == t;
    assert q >= 0.0;
    assert q * d <= q * 1.0;
  }

  /** The correction never drops below the target and never exceeds twice it. */
  lemma CorrectionBounds(target: u64, s: real)
    requires 0.0 <= s <= 1.0
    ensures target <= BoundedRelease(target, s)
    ensures BoundedRelease(target, s) <= 2 * target
  {
    var t := target as real;
    var cap := t * MAX_CORRECTION_MULTIPLE;
    assert cap == (2 * target) as real;
    var denom := 1.0 - s;
    if denom > 0.0 {
      QuotientAtLeast(t, denom);
    }
    var raw := if denom <= 0.0 then cap else if t / denom <= cap then t / denom else cap;
    RoundBetween(raw, target, 2 * target);
  }

  lemma QuotientAntitone(t: real, d: real, e: real)
    requires t >= 0.0 && 0.0 < d <= e
    ensures t / e <= t / d
  {
    var q := t / d;
    assert q * d == t && q >= 0.0;
    assert q * d <= q * e;
    assert t / e <= q by {
      var r := t / e;
      assert r * e == t;
      assert r * e <= q * e;
      CancelFactor(r, q, e);
    }
  }

  lemma CancelFactor(r: real, q: real, e: real)
    requires e > 0.0 && r * e <= q * e
    ensures r <= q
  {
    assert (q - r) * e >= 0.0;
  }

  /** A worse no-show rate never releases fewer people; no absentees release
      exactly the target, and from one absentee in two the cap holds. */
  lemma CorrectionMonotone(target: u64, s: real, r: real)
    requires 0.0 <= s <= r <= 1.0
    ensures BoundedRelease(target, s) <= BoundedRelease(target, r)
    ensures s == 0.0 ==> BoundedRelease(target, s) == target
    ensures s >= 0.5 ==> BoundedRelease(target, s) == Min(2 * target, U64_MAX)
  {
    var t := target as real;
    var cap := t * MAX_CORRECTION_MULTIPLE;
    assert cap == (2 * target) as real;
    var d, e := 1.0 - r, 1.0 - s;
    var rawS := if e <= 0.0 then cap else if t / e <= cap then t / e else cap;
    var rawR := if d <= 0.0 then cap else if t / d <= cap then t / d else cap;
    if d > 0.0 {
      QuotientAntitone(t, d, e);
    }
    RoundMonotone(rawS, rawR);
    if s >= 0.5 && e > 0.0 {
      QuotientAntitone(t, e, 0.5);
      assert t / 0.5 == cap;
    }
  }

  /** One pass moves the cursor forward by at most twice the target, never past
      one beyond the end of the line, and by at least the target unless that
      ceiling (or the top of the range) is in the way. */
  lemma PassBounds(inputs: ReleaseInputs, prev: Option<real>, now: u64)
    requires ReadableRate(prev)
    ensures var d := ComputeRelease(inputs, prev, now);
            var s := inputs.servingCounter;
            var target := TargetPerInterval(inputs.targetRate);
            && s <= d.nextServingCounter <= s + 2 * target
            && d.nextServingCounter <= Max(s, inputs.queueCounter + 1)
            && d.nextServingCounter >= Min(Min(s + target, inputs.queueCounter + 1), U64_MAX)
            && d.release == d.nextServingCounter - s
            && target == 10 * inputs.targetRate
  {
    if Measurable(inputs, now) {
      CorrectionBounds(TargetPerInterval(inputs.targetRate), Smoothed(inputs, prev, now));
    }
  }

  // ---- What a pass computes -------------------------------------------------

  /** A rate is persisted as it is, but for one too small for the store to hold. */
  ghost predicate Persists(stored: real, rate: real)
  {
    stored == if 0.0 < rate < 1e-130 then 0.0 else rate
  }

  /** How many people the cursor passed last, position zero never being anyone. */
  ghost predicate PassedLastTime(inputs: ReleaseInputs, r: nat)
  {
    r == Max(inputs.servingCounter - Max(inputs.lastServingCounter, 1), 0)
  }

  /** The rate is the share of those passed who did not arrive; with a rate stored
      it weighs three parts of that and seven of the stored one. */
  ghost predicate RateIs(rate: real, r: nat, absent: nat, prev: Option<real>)
  {
    && 0.0 <= rate <= 1.0
    && (prev.None? ==> rate * r as real == absent as real)
    && (prev.Some? ==> 10.0 * (rate * r as real) == 3.0 * absent as real + 7.0 * (prev.value * r as real))
  }

  /** The release asked for: the target over the share who do arrive, to the nearest
      whole person, and twice the target from one absentee in two. */
  ghost predicate CorrectedFor(requested: nat, target: nat, rate: real)
  {
    && (rate >= 0.5 ==> requested == 2 * target)
    && (rate <= 0.5 ==>
          (requested as real - 0.5) * (1.0 - rate) <= target as real < (requested as real + 0.5) * (1.0 - rate))
  }

  /** One pass in full. It measures when the cursor passed anyone last time and that
      was less than twenty seconds ago: then the rate is that of the `r` passed, of
      whom all but the arrivals since the stored baseline were absent, and the target
      of ten seconds is corrected for it. Otherwise it keeps the rate and asks for
      the target. What it asked for is cut to the end of the line, and the arrivals
      it read and the time of the pass become the new baseline. */
  lemma PassExactly(inputs: ReleaseInputs, prev: Option<real>, now: u64) returns (rate: real, requested: nat, r: nat)
    requires ReadableRate(prev)
    ensures var d := ComputeRelease(inputs, prev, now); var s, target := inputs.servingCounter, 10 * inputs.targetRate;
            var total := Min(Sum(inputs.arrivals), U64_MAX); var arrived := Max(total - inputs.lastArrivalsTotal, 0);
            && PassedLastTime(inputs, r) && Persists(d.noShow, rate)
            && (if r > 0 && now - inputs.lastOpenPassAt < 20
                then RateIs(rate, r, Max(r - arrived, 0), prev) && CorrectedFor(requested, target, rate)
                else rate == (if prev.Some? then prev.value else 0.0) && requested == target)
            && d.nextServingCounter == Max(s, Min(Min(s + requested, inputs.queueCounter + 1), U64_MAX))
            && d.release == d.nextServingCounter - s && d.previousServingCounter == s
            && d.arrivalsTotal == total && d.lastOpenPassAt == now
  {
    hide BoundedRelease, ObservedNoShow;
    rate, requested, r := Smoothed(inputs, prev, now), Requested(inputs, prev, now), ReleasedLast(inputs);
    if Measurable(inputs, now) {
      var total := ArrivalsTotal(inputs.arrivals);
      MeasuredExactly(inputs, prev, now);
      CorrectionExactly(TargetPerInterval(inputs.targetRate), rate);
    }
  }

  lemma MeasuredExactly(inputs: ReleaseInputs, prev: Option<real>, now: u64)
    requires ReadableRate(prev) && Measurable(inputs, now)
    ensures var arrived := Max(ArrivalsTotal(inputs.arrivals) - inputs.lastArrivalsTotal, 0); var r := ReleasedLast(inputs);
            RateIs(Smoothed(inputs, prev, now), r, Max(r - arrived, 0), prev)
  {
    hide RateIs, ClampUnit, ReleasedLast, ArrivalsTotal;
    var r := ReleasedLast(inputs);
    var observed := SatSub(ArrivalsTotal(inputs.arrivals), inputs.lastArrivalsTotal);
    ShareOfPassed(observed, r);
    Weighed(ObservedNoShow(inputs), prev, r, Max(r as int - observed, 0));
  }

  lemma ShareOfPassed(observed: nat, r: nat)
    requires r > 0
    ensures var share := 1.0 - ClampUnit(observed as real / r as real);
            0.0 <= share <= 1.0 && share * r as real == Max(r - observed, 0) as real
  {
    var o, l := observed as real, r as real;
    var f := o / l;
    assert f * l == o;
    if observed > r {
      FractionAtLeastOne(o, l);
    } else {
      CancelFactor(f, 1.0, l);
      assert (1.0 - f) * l == l - f * l;
    }
  }

  lemma Weighed(share: real, prev: Option<real>, r: nat, absent: nat)
    requires 0.0 <= share <= 1.0 && share * r as real == absent as real && ReadableRate(prev)
    ensures var rate := ClampUnit(if prev.Some? then EWMA_ALPHA * share + (1.0 - EWMA_ALPHA) * prev.value else share);
            RateIs(rate, r, absent, prev)
  {
    if prev.Some? {
      Mixed(share, prev.value, r as real);
    }
  }

  lemma Mixed(share: real, prev: real, l: real)
    requires 0.0 <= share <= 1.0 && 0.0 <= prev <= 1.0
    ensures var rate := EWMA_ALPHA * share + (1.0 - EWMA_ALPHA) * prev;
            0.0 <= rate <= 1.0 && 10.0 * (rate * l) == 3.0 * (share * l) + 7.0 * (prev * l)
  {
  }

  lemma CorrectionExactly(target: u64, rate: real)
    requires 0.0 <= rate <= 1.0 && 2 * target <= U64_MAX
    ensures CorrectedFor(BoundedRelease(target, rate), target, rate)
  {
    hide BoundedRelease;
    CorrectionMonotone(target, rate, rate);
    if rate <= 0.5 {
      LowCorrection(target, rate);
    }
  }

  lemma LowCorrection(target: u64, rate: real)
    requires 0.0 <= rate <= 0.5 && 2 * target <= U64_MAX
    ensures var n := BoundedRelease(target, rate);
            (n as real - 0.5) * (1.0 - rate) <= target as real < (n as real + 0.5) * (1.0 - rate)
  {
    hide BoundedRelease, Round;
    RoundedQuotient(target, rate);
    RoundScaled(BoundedRelease(target, rate), target as real / (1.0 - rate), 1.0 - rate, target as real);
  }

  lemma RoundedQuotient(target: u64, rate: real)
    requires 0.0 <= rate <= 0.5 && 2 * target <= U64_MAX
    ensures BoundedRelease(target, rate) == Round(target as real / (1.0 - rate))
    ensures target as real / (1.0 - rate) * (1.0 - rate) == target as real
  {
    var t, d := target as real, 1.0 - rate;
    TwiceAtMost(t, d);
    QuotientAtLeast(t, d);
    RoundBetween(t / d, target, 2 * target);
  }

  lemma RoundScaled(n: int, x: real, d: real, t: real)
    requires n == Round(x) && d > 0.0 && x * d == t
    ensures (n as real - 0.5) * d <= t < (n as real + 0.5) * d
  {
    Scaled(n as real - 0.5, x, d);
    Scaled(x, n as real + 0.5, d);
  }

  lemma TwiceAtMost(t: real, d: real)
    requires t >= 0.0 && d >= 0.5
    ensures t / d <= 2.0 * t && (t / d) * d == t
  {
    QuotientAntitone(t, 0.5, d);
    assert t / 0.5 == 2.0 * t;
  }

  lemma Scaled(x: real, y: real, d: real)
    requires x <= y && d > 0.0
    ensures x * d <= y * d && (x < y ==> x * d < y * d)
  {
  }

  // ---- The smoothed no-show rate -------------------------------------------

  /** What is persisted is always a rate the store accepts. */
  lemma RateStaysStorable(inputs: ReleaseInputs, prev: Option<real>, now: u64)
    requires ReadableRate(prev)
    ensures StorableRate(ComputeRelease(inputs, prev, now).noShow)
  {
  }

  /** One pass as it was computed, for runs of passes. */
  datatype Pass = Pass(inputs: ReleaseInputs, prev: Option<real>, now: u64)
  {
    function Decision(): ReleaseDecision { ComputeRelease(inputs, prev, now) }
  }

  /** A fresh pass after a release everyone answered. */
  predicate FullArrival(p: Pass)
  {
    && Measurable(p.inputs, p.now)
    && SatSub(ArrivalsTotal(p.inputs.arrivals), p.inputs.lastArrivalsTotal) >= ReleasedLast(p.inputs)
  }

  /** Each pass reads back the rate the previous one persisted. */
  ghost predicate RateChain(start: Option<real>, passes: seq<Pass>)
  {
    && (passes != [] ==> passes[0].prev == start)
    && forall i :: 0 < i < |passes| ==> passes[i].prev == Some(passes[i - 1].Decision().noShow)
  }

  function RatePow(x: real, k: nat): real { if k == 0 then 1.0 else x * RatePow(x, k - 1) }

  lemma {:induction false} RatePowAdd(x: real, j: nat, k: nat)
    ensures RatePow(x, j + k) == RatePow(x, j) * RatePow(x, k)
  {
    if j > 0 {
      RatePowAdd(x, j - 1, k);
      Associate(x, RatePow(x, j - 1), RatePow(x, k));
    }
  }

  lemma Associate(x: real, y: real, z: real)
    ensures (x * y) * z == x * (y * z)
  {
  }

  lemma ProductBelow(a: real, b: real, c: real, d: real)
    requires 0.0 <= a <= b && 0.0 <= c <= d
    ensures a * c <= b * d
  {
    assert a * c <= b * c;
    assert b * c <= b * d;
  }

  lemma PowerStep(j: nat, k: nat, b: real, d: real, e: real)
    requires 0.0 <= RatePow(0.7, j) <= b && 0.0 <= RatePow(0.7, k) <= d && b * d <= e
    ensures 0.0 <= RatePow(0.7, j + k) <= e
  {
    RatePowAdd(0.7, j, k);
    ProductBelow(RatePow(0.7, j), b, RatePow(0.7, k), d);
  }

  lemma PowerOf20()
    ensures 0.0 <= RatePow(0.7, 20) <= 0.000798
  {
    assert RatePow(0.7, 0) == 1.0;
    assert RatePow(0.7, 1) == 0.7;
    PowerStep(1, 1, 0.7, 0.7, 0.49);
    PowerStep(2, 2, 0.49, 0.49, 0.2401);
    PowerStep(4, 1, 0.2401, 0.7, 0.16807);
    PowerStep(5, 5, 0.16807, 0.16807, 0.0282475249);
    PowerStep(10, 10, 0.0282475249, 0.0282475249, 0.000798);
  }

  lemma PowerOf120()
    ensures 0.0 <= RatePow(0.7, 120) <= 2.59e-19
  {
    PowerOf20();
    PowerStep(20, 20, 0.000798, 0.000798, 6.37e-7);
    PowerStep(40, 40, 6.37e-7, 6.37e-7, 4.06e-13);
    PowerStep(80, 40, 4.06e-13, 6.37e-7, 2.59e-19);
  }

  lemma PowerOf360()
    ensures 0.0 <= RatePow(0.7, 120) <= 2.59e-19
    ensures 0.0 <= RatePow(0.7, 360) <= 1.74e-56
  {
    PowerOf120();
    PowerStep(120, 120, 2.59e-19, 2.59e-19, 6.71e-38);
    PowerStep(240, 120, 6.71e-38, 2.59e-19, 1.74e-56);
  }

  /** 0.7^840 is below the smallest positive number the store accepts. */
  lemma SmallPower()
    ensures RatePow(0.7, 840) < DDB_NUMBER_MIN_POSITIVE
  {
    PowerOf360();
    PowerStep(360, 360, 1.74e-56, 1.74e-56, 3.03e-112);
    PowerStep(720, 120, 3.03e-112, 2.59e-19, 9e-131);
  }

  lemma FractionAtLeastOne(o: real, l: real)
    requires o >= l > 0.0
    ensures o / l >= 1.0
  {
    assert (o / l) * l == o;
    CancelFactor(1.0, o / l, l);
  }

  lemma FullArrivalDecays(p: Pass)
    requires FullArrival(p) && ReadableRate(p.prev)
    ensures var r := p.Decision().noShow;
            StorableRate(r) && r <= 0.7 * GetOr(p.prev, 0.0)
  {
    var observed := SatSub(ArrivalsTotal(p.inputs.arrivals), p.inputs.lastArrivalsTotal);
    var o, l := observed as real, ReleasedLast(p.inputs) as real;
    FractionAtLeastOne(o, l);
    assert ObservedNoShow(p.inputs) == 0.0;
  }

  lemma {:induction false} RateAfter(start: Option<real>, passes: seq<Pass>, k: nat)
    requires ReadableRate(start) && RateChain(start, passes)
    requires forall i :: 0 <= i < |passes| ==> FullArrival(passes[i])
    requires 0 < k <= |passes|
    ensures var r := passes[k - 1].Decision().noShow;
            StorableRate(r) && r <= RatePow(0.7, k)
  {
    var p := passes[k - 1];
    if k == 1 {
      FullArrivalDecays(p);
      assert RatePow(0.7, 1) == 0.7;
    } else {
      RateAfter(start, passes, k - 1);
      FullArrivalDecays(p);
    }
  }

  /** From any stored rate, at most 840 consecutive fresh passes with a release
      to measure and everyone arriving bring the rate to exactly zero, where it
      stays for as long as that goes on. */
  lemma {:induction false} RateReachesZero(start: Option<real>, passes: seq<Pass>, k: nat)
    requires ReadableRate(start) && RateChain(start, passes)
    requires forall i :: 0 <= i < |passes| ==> FullArrival(passes[i])
    requires 840 <= k <= |passes|
    ensures passes[k - 1].Decision().noShow == 0.0
  {
    if k == 840 {
      RateAfter(start, passes, 840);
      SmallPower();
    } else {
      RateReachesZero(start, passes, k - 1);
      FullArrivalDecays(passes[k - 1]);
    }
  }

  // ---- Progress over a run of landed passes --------------------------------

  /** A pass computed from cursor `s` that left the cursor at `s'`. */
  ghost predicate Moves(p: Pass, s: nat, s': nat)
  {
    ReadableRate(p.prev) && p.inputs.servingCounter == s && p.Decision().nextServingCounter == s'
  }

  /** Landed passes in order, with the cursor before and after each: each was
      computed from the cursor the previous one left, which is what the
      compare-and-set on the cursor guarantees. */
  ghost predicate CursorChain(cursor: seq<nat>, passes: seq<Pass>)
  {
    && |cursor| == |passes| + 1
    && forall i :: 0 <= i < |passes| ==> Moves(passes[i], cursor[i], cursor[i + 1])
  }

  /** The target rates of the passes, in order. */
  ghost function Rates(passes: seq<Pass>): seq<nat>
  {
    seq(|passes|, i requires 0 <= i < |passes| => passes[i].inputs.targetRate)
  }

  /** What one landed pass does to the cursor, given the end of the line it read. */
  ghost predicate CursorStep(s: nat, s': nat, end: nat, rate: nat)
  {
    && s <= s' <= s + 20 * rate
    && s' >= Min(Min(s + 10 * rate, end + 1), U64_MAX)
  }

  lemma {:induction false} StepsProgress(cursor: seq<nat>, ends: seq<nat>, rates: seq<nat>, p: nat)
    requires |cursor| == |ends| + 1 && |ends| == |rates|
    requires forall i :: 0 <= i < |rates| ==> CursorStep(cursor[i], cursor[i + 1], ends[i], rates[i])
    ensures cursor[0] <= cursor[|rates|] <= cursor[0] + 20 * Sum(rates)
    ensures (forall i :: 0 <= i < |ends| ==> p <= ends[i])
            ==> cursor[|rates|] >= Min(Min(cursor[0] + 10 * Sum(rates), p + 1), U64_MAX)
  {
    if rates != [] {
      var n := |rates| - 1;
      StepsProgress(cursor[..n + 1], ends[..n], rates[..n], p);
      assert CursorStep(cursor[n], cursor[n + 1], ends[n], rates[n]);
      assert forall i :: 0 <= i < n ==> ends[..n][i] == ends[i];
    }
  }

  /** Whatever the arrivals and the smoothed rates, the cursor never moves back,
      moves at most twenty times the summed rates, and has passed every position
      already issued that lies within ten times the summed rates of its start.
      The one position out of reach is the largest 64-bit number: the cursor is
      exclusive and saturates there. */
  lemma CursorProgress(cursor: seq<nat>, passes: seq<Pass>, p: nat)
    requires CursorChain(cursor, passes)
    ensures cursor[0] <= cursor[|passes|] <= cursor[0] + 20 * Sum(Rates(passes))
    ensures (forall i :: 0 <= i < |passes| ==> p <= passes[i].inputs.queueCounter)
            && p < cursor[0] + 10 * Sum(Rates(passes)) && p < U64_MAX
            ==> p < cursor[|passes|]
  {
    var ends: seq<nat> := seq(|passes|, i requires 0 <= i < |passes| => passes[i].inputs.queueCounter);
    forall i | 0 <= i < |passes|
      ensures CursorStep(cursor[i], cursor[i + 1], ends[i], Rates(passes)[i])
    {
      PassMoves(passes[i], cursor[i], cursor[i + 1]);
    }
    StepsProgress(cursor, ends, Rates(passes), p);
  }

  lemma PassMoves(p: Pass, s: nat, s': nat)
    requires Moves(p, s, s')
    ensures CursorStep(s, s', p.inputs.queueCounter, p.inputs.targetRate)
  {
    PassBounds(p.inputs, p.prev, p.now);
  }

  lemma DecidedFrom(p: Pass)
    ensures p.Decision().previousServingCounter == p.inputs.servingCounter
  {
  }
}
