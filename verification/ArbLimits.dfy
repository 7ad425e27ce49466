/** Exactly where the 99% guarantee stops: a bracket whose lowest probe is more than a hundredth above its low end
    can hide a peak between the two. */
module ArbSearchLimits {
  import opened Reals
  import opened Concavity
  import opened Golden
  import opened GoldenSearch
  import opened ArbSearch

  // ----- A search that always turns left -----

  /** From `low` on the score only falls. */
  ghost predicate FallsFrom(s: real -> real, low: real) {
    forall x, y :: low <= x <= y ==> s(y) <= s(x)
  }

  /** Every probe but the low end lies past the lowest, and the inner two are as low as they can be. */
  ghost predicate WalksLeft(lo: real, w: real, low: real, st: Search, k: nat) {
    && st.b.left == lo && st.b.x2 == lo + LeftProbe(k, w) && st.b.x1 == lo + LeftProbe(k + 1, w)
    && (forall p :: p in st.probes ==> p == lo || low <= p)
  }

  /** Each inner probe scores no less than the one above it, so the search turns left. */
  lemma StepWalksLeft(s: real -> real, lo: real, w: real, st: Search, k: nat)
    requires 0.0 < w && k < GOLDEN_MAX_ITERS && FallsFrom(s, lo + LeftProbe(GOLDEN_MAX_ITERS + 1, w))
    requires WalksLeft(lo, w, lo + LeftProbe(GOLDEN_MAX_ITERS + 1, w), st, k)
    ensures WalksLeft(lo, w, lo + LeftProbe(GOLDEN_MAX_ITERS + 1, w), Step(s, st), k + 1)
  {
    ProbeAbove(k + 1, w);
    ProbeAbove(k + 2, w);
    NextBelow(k, w);
    assert LeftProbe(k + 2, w) == Rest(LeftProbe(k, w));
    hide LeftProbe;
    assert s(st.b.x2) <= s(st.b.x1);
    hide FallsFrom;
  }

  lemma NextBelow(k: nat, w: real)
    requires 0.0 < w
    ensures LeftProbe(k + 1, w) <= LeftProbe(k, w)
  {
    hide LeftProbe;
    LeftProbeFalls(k);
    LeftProbeIsLinear(k, w);
    LeftProbeIsLinear(k + 1, w);
    Scale(LeftProbe(k + 1, 1.0), LeftProbe(k, 1.0), w);
  }

  lemma ProbeAbove(k: nat, w: real)
    requires 0.0 < w && k <= GOLDEN_MAX_ITERS + 1
    ensures LeftProbe(GOLDEN_MAX_ITERS + 1, w) <= LeftProbe(k, w)
  {
    hide LeftProbe;
    var last := GOLDEN_MAX_ITERS + 1;
    LeftProbesFall(k, last);
    LeftProbeIsLinear(k, w);
    LeftProbeIsLinear(last, w);
    Scale(LeftProbe(last, 1.0), LeftProbe(k, 1.0), w);
  }

  lemma {:induction false} RefineWalksLeft(s: real -> real, lo: real, w: real, st: Search, k: nat)
    requires 0.0 < w && k <= GOLDEN_MAX_ITERS && |st.probes| == k + 4
    requires FallsFrom(s, lo + LeftProbe(GOLDEN_MAX_ITERS + 1, w))
    requires WalksLeft(lo, w, lo + LeftProbe(GOLDEN_MAX_ITERS + 1, w), st, k)
    ensures forall p :: p in Refine(s, st).probes ==> p == lo || lo + LeftProbe(GOLDEN_MAX_ITERS + 1, w) <= p
    decreases GOLDEN_MAX_ITERS - k
  {
    hide NarrowEnough, LeftProbe, FallsFrom;
    if k < GOLDEN_MAX_ITERS {
      StepWalksLeft(s, lo, w, st, k);
      RefineWalksLeft(s, lo, w, Step(s, st), k + 1);
    }
  }

  /** A score that only falls from the lowest probe on is never sampled between the low end and that probe. */
  lemma SearchSkips(s: real -> real, lo: real, hi: real)
    requires MIN_INPUT <= lo < hi && FallsFrom(s, LowestProbe(lo, hi))
    ensures forall p :: p in GoldenProbes(s, lo, hi) ==> p == lo || LowestProbe(lo, hi) <= p
  {
    hide Refine, FallsFrom;
    var st, w := Begin(lo, hi), hi - lo;
    ProbeAbove(0, w);
    ProbeAbove(1, w);
    assert LeftProbe(0, w) == Part(w) && LeftProbe(1, w) == Rest(w);
    hide LeftProbe;
    RefineWalksLeft(s, lo, w, st, 0);
  }

  // ----- A profit with a hidden peak -----

  /** A profit at price one: its quote, the profit and the input together, starts at nothing and never falls. */
  ghost predicate Payable(f: real -> real, top: real) {
    Concave(f, 0.0, top) && f(0.0) == 0.0 && forall x, y :: 0.0 <= x <= y <= top ==> f(x) + x <= f(y) + y
  }

  /** Rises slowly to its peak and then falls one for one: past the peak the quote is flat. */
  function Tent(peak: real, rise: real): real -> real {
    x => if x <= peak then rise * x else rise * peak - (x - peak)
  }

  lemma TentIsPayable(peak: real, rise: real, top: real)
    requires 0.0 <= rise && 0.0 <= peak
    ensures Payable(Tent(peak, rise), top)
  {
    var f := Tent(peak, rise);
    forall x, y, z | 0.0 <= x < y < z <= top ensures Chord(f, x, y, z) {
      TentChord(peak, rise, x, y, z);
    }
    forall x, y | 0.0 <= x <= y <= top ensures f(x) + x <= f(y) + y {
      TentQuoteRises(peak, rise, x, y);
    }
  }

  lemma TentQuoteRises(peak: real, rise: real, x: real, y: real)
    requires 0.0 <= rise && x <= y
    ensures Tent(peak, rise)(x) + x <= Tent(peak, rise)(y) + y
  {
    NonNegative(rise, y - x);
    if x <= peak { NonNegative(rise, peak - x); }
  }

  lemma TentChord(peak: real, rise: real, x: real, y: real, z: real)
    requires 0.0 <= rise && x < y < z
    ensures Chord(Tent(peak, rise), x, y, z)
  {
    var f := Tent(peak, rise);
    TentBelow(peak, rise, x);
    TentBelow(peak, rise, z);
    if y <= peak {
      BelowLine(x, y, z, f(x), f(z), 0.0, rise);
    } else {
      BelowLine(x, y, z, f(x), f(z), rise * peak + peak, -1.0);
    }
  }

  lemma TentBelow(peak: real, rise: real, x: real)
    requires 0.0 <= rise
    ensures Tent(peak, rise)(x) <= rise * x && Tent(peak, rise)(x) <= rise * peak + peak - x
  {
    if x <= peak { NonNegative(rise, peak - x); } else { NonNegative(rise, x - peak); }
  }

  /** A peak between the low end over 0.99 and the lowest probe, and a rise that leaves nothing at that probe. */
  lemma HiddenPeak(lo: real, low: real) returns (peak: real, rise: real)
    requires 0.0 < lo < 0.99 * low
    ensures lo < 0.99 * peak && peak < low && 0.0 < rise && rise * peak == low - peak
  {
    peak := 0.5 * (lo / 0.99 + low);
    rise := (low - peak) / peak;
  }

  lemma TentValues(lo: real, low: real, peak: real, rise: real, x: real)
    requires 0.0 < lo < 0.99 * peak && peak < low && 0.0 < rise && rise * peak == low - peak
    ensures Tent(peak, rise)(lo) < 0.99 * Tent(peak, rise)(peak) && 0.0 < Tent(peak, rise)(peak)
    ensures low <= x ==> Tent(peak, rise)(x) == low - x
  {
    PositiveProduct(rise, 0.99 * peak - lo);
  }

  lemma TentFalls(lo: real, low: real, peak: real, rise: real)
    requires 0.0 < lo < 0.99 * peak && peak < low && 0.0 < rise && rise * peak == low - peak
    ensures FallsFrom(Tent(peak, rise), low)
  {
    forall x, y | low <= x <= y ensures Tent(peak, rise)(y) <= Tent(peak, rise)(x) {
      TentValues(lo, low, peak, rise, x);
      TentValues(lo, low, peak, rise, y);
    }
  }

  /** On a bracket that is not short there is a profit a pool could pay, nothing at the high end, of which the search
      finds less than 99%. */
  lemma WideBracketCanMiss(lo: real, hi: real, top: real) returns (f: real -> real, t: real)
    requires MIN_INPUT <= lo <= hi && !Short(lo, hi)
    ensures Payable(f, top) && f(hi) <= 0.0
    ensures lo <= t <= hi && 0.0 < f(t) && f(Best(f, GoldenProbes(f, lo, hi))) < 0.99 * f(t)
  {
    hide Payable, GoldenProbes, Best, FallsFrom, Tent;
    LowestProbeSize(hi - lo);
    hide LeftProbe;
    var low := LowestProbe(lo, hi);
    var peak, rise := HiddenPeak(lo, low);
    t, f := peak, Tent(peak, rise);
    TentIsPayable(peak, rise, top);
    TentFalls(lo, low, peak, rise);
    SearchSkips(f, lo, hi);
    BestIsMaximum(f, GoldenProbes(f, lo, hi));
    TentValues(lo, low, peak, rise, hi);
    TentValues(lo, low, peak, rise, Best(f, GoldenProbes(f, lo, hi)));
  }

  // ----- The guarantee, exactly -----

  /** On a concave profit through the origin the search over the bracket finds 99% of what the size would earn. */
  ghost predicate FindsNinetyNine(f: real -> real, lo: real, hi: real, t: real) {
    Concave(f, 0.0, hi) && 0.0 <= f(0.0) && lo <= t <= hi && 0.0 <= f(t) ==>
      f(Best(f, GoldenProbes(f, lo, hi))) >= 0.99 * f(t)
  }

  /** Golden-section search finds 99% of every such profit, at every size, exactly on short brackets, those up to about
      9.515 times their low end; and it is no better on the profits a pool could pay. */
  lemma NinetyNineExactlyWhenShort(lo: real, hi: real)
    requires MIN_INPUT <= lo <= hi
    ensures (forall f: real -> real, t: real :: FindsNinetyNine(f, lo, hi, t)) <==> Short(lo, hi)
    ensures (forall f: real -> real, t: real :: Payable(f, hi) ==> FindsNinetyNine(f, lo, hi, t)) <==> Short(lo, hi)
  {
    hide GoldenProbes, Best, Short;
    if Short(lo, hi) {
      hide Payable;
      forall f: real -> real, t: real ensures FindsNinetyNine(f, lo, hi, t) {
        hide Concave;
        if Concave(f, 0.0, hi) && 0.0 <= f(0.0) && lo <= t <= hi && 0.0 <= f(t) {
          GoldenIsNinetyNine(f, f, 0.0, lo, hi, 0.0, t);
        }
      }
    } else {
      hide Concave;
      var f, t := WideBracketCanMiss(lo, hi, hi);
      assert Payable(f, hi) && !FindsNinetyNine(f, lo, hi, t);
    }
  }

  /** The same for the whole search from a given start, at every size its step cap does not keep it from. */
  ghost predicate SearchFindsNinetyNine(f: real -> real, start: real, min: real, max: real, t: real) {
    && Concave(f, 0.0, Ceiling(min, max)) && 0.0 <= f(0.0) && Floor(min) <= t <= Ceiling(min, max) && 0.0 <= f(t)
    && InReach(f, start, min, max, t) ==>
      f(SearchedSize(f, start, min, max)) >= 0.99 * f(t)
  }

  /** The search finds 99% of every such profit exactly when the bracket from the least input to the start is short:
      a start that earns something is always good enough, and one that does not must be near the least input. Profits a
      pool could pay are enough to tell. */
  lemma SearchIsNinetyNineExactly(start: real, min: real, max: real)
    ensures (forall f: real -> real, t: real :: SearchFindsNinetyNine(f, start, min, max, t)) <==>
            Short(Floor(min), Clamp(start, Floor(min), Ceiling(min, max)))
    ensures (forall f: real -> real, t: real :: Payable(f, Ceiling(min, max)) ==>
             SearchFindsNinetyNine(f, start, min, max, t)) <==>
            Short(Floor(min), Clamp(start, Floor(min), Ceiling(min, max)))
  {
    hide Concave, GoldenProbes, Best, Short, BracketMaximum, Reach;
    var lo, top := Floor(min), Ceiling(min, max);
    var m := Clamp(start, lo, top);
    if Short(lo, m) {
      hide Payable;
      forall f: real -> real, t: real ensures SearchFindsNinetyNine(f, start, min, max, t) {
        if Concave(f, 0.0, top) && 0.0 <= f(0.0) && lo <= t <= top && 0.0 <= f(t) && InReach(f, start, min, max, t) {
          ArbSearchIsNinetyNine(f, f, 0.0, start, min, max, t);
        }
      }
    } else {
      var f, t := DistantStartCanMiss(start, min, max);
      assert Payable(f, top) && !SearchFindsNinetyNine(f, start, min, max, t);
    }
  }

  lemma DistantStartCanMiss(start: real, min: real, max: real) returns (f: real -> real, t: real)
    requires !Short(Floor(min), Clamp(start, Floor(min), Ceiling(min, max)))
    ensures Payable(f, Ceiling(min, max))
    ensures Floor(min) <= t <= Ceiling(min, max) && !BracketMaximum(f, start, min, max).capped
    ensures 0.0 < f(t) && f(SearchedSize(f, start, min, max)) < 0.99 * f(t)
  {
    hide Short;
    f, t := WideBracketCanMiss(Floor(min), Clamp(start, Floor(min), Ceiling(min, max)), Ceiling(min, max));
    hide Payable;
  }

  // ----- The step cap, exactly -----

  /** The same at every size in range, the step cap included. */
  ghost predicate SearchFindsAll(f: real -> real, start: real, min: real, max: real, t: real) {
    && Concave(f, 0.0, Ceiling(min, max)) && 0.0 <= f(0.0) && Floor(min) <= t <= Ceiling(min, max) && 0.0 <= f(t) ==>
      f(SearchedSize(f, start, min, max)) >= 0.99 * f(t)
  }

  /** No profit that rises all the way and no size is out of the search's reach exactly when 25 doublings of the start
      come within a hundredth of the largest size. */
  lemma SearchFindsAllExactly(start: real, min: real, max: real)
    ensures var m := Clamp(start, Floor(min), Ceiling(min, max));
            (forall f: real -> real, t: real :: SearchFindsAll(f, start, min, max, t)) <==>
            Short(Floor(min), m) && 0.99 * Ceiling(min, max) <= 33554432.0 * m
  {
    hide Concave, GoldenProbes, Best, Short, BracketMaximum;
    var lo, top := Floor(min), Ceiling(min, max);
    var m := Clamp(start, lo, top);
    if !Short(lo, m) {
      hide Payable;
      var f, t := DistantStartCanMiss(start, min, max);
      assert Concave(f, 0.0, top) && f(0.0) == 0.0 by { PayableIsConcave(f, top); }
      assert !SearchFindsAll(f, start, min, max, t);
    } else if 33554432.0 * m < 0.99 * top {
      var f := Rising();
      CappedRiseMisses(start, min, max);
      assert !SearchFindsAll(f, start, min, max, top);
    } else {
      forall f: real -> real, t: real ensures SearchFindsAll(f, start, min, max, t) {
        if Concave(f, 0.0, top) && 0.0 <= f(0.0) && lo <= t <= top && 0.0 <= f(t) {
          FindsWithinCap(f, start, min, max, t);
        }
      }
    }
  }

  lemma PayableIsConcave(f: real -> real, top: real)
    requires Payable(f, top)
    ensures Concave(f, 0.0, top) && f(0.0) == 0.0
  {
    hide Concave;
  }

  lemma FindsWithinCap(f: real -> real, start: real, min: real, max: real, t: real)
    requires var top := Ceiling(min, max);
             Concave(f, 0.0, top) && 0.0 <= f(0.0) && Floor(min) <= t <= top && 0.0 <= f(t)
    requires var m := Clamp(start, Floor(min), Ceiling(min, max));
             Short(Floor(min), m) && 0.99 * Ceiling(min, max) <= 33554432.0 * m
    ensures f(SearchedSize(f, start, min, max)) >= 0.99 * f(t)
  {
    hide Concave, GoldenProbes, Best, Short, BracketMaximum;
    var r := BracketMaximum(f, start, min, max);
    if InReach(f, start, min, max, t) {
      assert Observes(f, f, 0.0, 0.0, Ceiling(min, max));
      hide InReach, Observes;
      assert WellStarted(f, start, min, max);
      ArbSearchIsNinetyNine(f, f, 0.0, start, min, max, t);
    } else {
      CappedSizesDouble(f, start, min, max);
      BracketStaysInRange(f, start, min, max);
      ShortStretch(f, Ceiling(min, max), r.hi, t);
      HighEndIsProbed(f, r.lo, r.hi);
      BestIsMaximum(f, GoldenProbes(f, r.lo, r.hi));
    }
  }

  lemma HighEndIsProbed(s: real -> real, lo: real, hi: real)
    requires MIN_INPUT <= lo <= hi
    ensures hi in GoldenProbes(s, lo, hi)
  {
    if lo < hi {
      RefineExtends(s, Begin(lo, hi));
      assert Begin(lo, hi).probes[1] == hi;
      hide Refine;
      assert GoldenProbes(s, lo, hi)[1] == hi;
    }
  }

  lemma {:induction false} RefineExtends(s: real -> real, st: Search)
    ensures st.probes <= Refine(s, st).probes
    decreases TurnsLeft(st)
  {
    hide NarrowEnough;
    if TurnsLeft(st) > 0 && !NarrowEnough(Step(s, st).b) {
      RefineExtends(s, Step(s, st));
    }
  }

  /** A profit of one for every unit of size. */
  function Rising(): real -> real { x => x }

  lemma CappedRiseMisses(start: real, min: real, max: real)
    requires 33554432.0 * Clamp(start, Floor(min), Ceiling(min, max)) < 0.99 * Ceiling(min, max)
    ensures var f, top := Rising(), Ceiling(min, max);
            Concave(f, 0.0, top) && f(0.0) == 0.0 && f(SearchedSize(f, start, min, max)) < 0.99 * f(top)
  {
    var f, top := Rising(), Ceiling(min, max);
    var m := Clamp(start, Floor(min), top);
    RisingIsConcave(top);
    hide Concave, BracketMaximum, GoldenProbes, Best;
    forall i: nat | 0 <= i < 25 ensures f(Doubled(m, i)) < f(Doubled(m, i + 1)) {}
    CappedExactly(f, start, min, max);
    CappedSizesDouble(f, start, min, max);
    BracketStaysInRange(f, start, min, max);
    var r := BracketMaximum(f, start, min, max);
    assert Observes(f, f, 0.0, r.lo, r.hi);
    ConcaveWithin(f, 0.0, top, r.lo, r.hi);
    ChosenInBracket(f, f, 0.0, r.lo, r.hi);
  }

  lemma RisingIsConcave(top: real)
    ensures Concave(Rising(), 0.0, top)
  {
    forall x, y, z | 0.0 <= x < y < z <= top ensures Chord(Rising(), x, y, z) {
      assert (z - x) * y == (z - y) * x + (y - x) * z;
    }
  }
}
