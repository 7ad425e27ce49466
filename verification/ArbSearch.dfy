/** The arbitrageur's size search: a doubling bracket, then golden-section narrowing. */
module ArbSearch {
  import opened Reals
  import opened Concavity
  import opened Golden
  import opened GoldenSearch

  const MIN_INPUT: real := 0.001
  const GOLDEN_MAX_ITERS: nat := 12
  const BRACKET_MAX_STEPS: nat := 24

  // ----- Golden-section search -----

  predicate NarrowEnough(b: Bracket) {
    b.Width() <= 0.01 * Max(Abs(b.Mid()), MIN_INPUT)
  }

  /** Turns left before the iteration cap: a search starts with four probes and adds one a turn. */
  function TurnsLeft(st: Search): int { GOLDEN_MAX_ITERS + 4 - |st.probes| }

  function Refine(s: real -> real, st: Search): (r: Search)
    ensures |st.probes| <= |r.probes|
    decreases TurnsLeft(st)
  {
    if TurnsLeft(st) <= 0 then st
    else
      var next := Step(s, st);
      if NarrowEnough(next.b) then next else Refine(s, next)
  }

  lemma RefineTurn(s: real -> real, st: Search)
    ensures Refine(s, st) ==
      if TurnsLeft(st) <= 0 then st
      else if NarrowEnough(Step(s, st).b) then Step(s, st)
      else Refine(s, Step(s, st))
  {}

  /** Every point the search scores, in order. */
  function GoldenProbes(s: real -> real, lo: real, hi: real): (probes: seq<real>)
    ensures |probes| > 0
  {
    var left, right := Max(Min(lo, hi), 0.0), Max(Max(hi, lo), MIN_INPUT);
    if right <= left then [right]
    else Refine(s, Begin(left, right)).probes
  }

  lemma {:induction false} RefineIsSound(s: real -> real, f: real -> real, eps: real, lo: real, hi: real,
                                         st: Search, k: nat) returns (j: nat)
    requires Concave(f, lo, hi) && Observes(s, f, eps, lo, hi)
    requires Sound(s, f, eps, lo, hi, st, k) && k <= GOLDEN_MAX_ITERS
    requires st.b.Width() <= Shrunk(k, hi - lo)
    ensures Sound(s, f, eps, lo, hi, Refine(s, st), j)
    ensures k <= j <= GOLDEN_MAX_ITERS
    ensures Refine(s, st).b.Width() <= Shrunk(j, hi - lo)
    ensures NarrowEnough(Refine(s, st).b) || j == GOLDEN_MAX_ITERS
    decreases GOLDEN_MAX_ITERS - k
  {
    assert |st.probes| == k + 4;
    hide Concave, Observes, NarrowEnough, Sound;
    j := k;
    if k < GOLDEN_MAX_ITERS {
      StepIsSound(s, f, eps, lo, hi, st, k);
      j := k + 1;
      assert Step(s, st).b.Width() <= Shrunk(k + 1, hi - lo);
      hide Shrunk, Step;
      if !NarrowEnough(Step(s, st).b) {
        j := RefineIsSound(s, f, eps, lo, hi, Step(s, st), k + 1);
      }
    }
  }

  /** A curve through the origin cannot grow by more than a hundredth over such a short stretch. */
  lemma ShortStretch(f: real -> real, hi: real, l: real, t: real)
    requires Concave(f, 0.0, hi) && 0.0 <= f(0.0) && 0.0 <= f(t)
    requires 0.0 < l <= t <= hi && 0.99 * t <= l
    ensures 0.99 * f(t) <= f(l)
  {
    RayFromLeft(f, 0.0, hi, 0.0, l, t);
    NonNegativeBelow(f, hi, l, t);
    ShareRay(l, t, f(l), f(t), 0.99);
  }

  lemma NonNegativeBelow(f: real -> real, top: real, x: real, t: real)
    requires Concave(f, 0.0, top) && 0.0 <= f(0.0) && 0.0 < x <= t <= top && 0.0 <= f(t)
    ensures 0.0 <= f(x)
  {
    RayFromLeft(f, 0.0, top, 0.0, x, t);
    NonNegative(x, f(t));
    Cancel(t, 0.0, f(x));
  }

  // ----- The lowest probe -----

  function Rest(w: real): real { w - Part(w) }

  /** Probes of a search that always drops the right side, as distances from the low end: after `k` turns the inner
      probes are the `k + 1`st and the `k`th. */
  function LeftProbe(k: nat, w: real): real {
    if k == 0 then Part(w) else if k == 1 then Rest(w) else Rest(LeftProbe(k - 2, w))
  }

  /** The lowest size but `lo` that a search over `[lo, hi]` can ever score. */
  function LowestProbe(lo: real, hi: real): real { lo + LeftProbe(GOLDEN_MAX_ITERS + 1, hi - lo) }

  /** The lowest probe is within a hundredth of the low end. */
  predicate Short(lo: real, hi: real) { 0.99 * LowestProbe(lo, hi) <= lo }

  /** The bracket never left the low end, and its probes are the lowest possible, or it is well above it. */
  ghost predicate OnPath(lo: real, w: real, b: Bracket, k: nat) {
    || (b.left == lo && b.x2 == lo + LeftProbe(k, w) && b.x1 == lo + LeftProbe(k + 1, w))
    || lo + 0.6 * b.Width() <= b.left
  }

  lemma NarrowStaysOnPath(s: real -> real, lo: real, w: real, b: Bracket, k: nat)
    requires Placed(b, k) && k < 14 && OnPath(lo, w, b, k)
    ensures OnPath(lo, w, Narrow(s, b), k + 1)
  {
    PlacedBounds(b, k);
    NarrowKeepsPlaced(s, b, k);
    hide Placed;
  }

  lemma {:induction false} RefineStaysOnPath(s: real -> real, lo: real, w: real, st: Search, k: nat) returns (j: nat)
    requires Placed(st.b, k) && k <= GOLDEN_MAX_ITERS && |st.probes| == k + 4 && OnPath(lo, w, st.b, k)
    ensures |Refine(s, st).probes| == j + 4 && OnPath(lo, w, Refine(s, st).b, j)
    decreases GOLDEN_MAX_ITERS - k
  {
    hide Placed, OnPath, NarrowEnough;
    j := k;
    if k < GOLDEN_MAX_ITERS {
      NarrowStaysOnPath(s, lo, w, st.b, k);
      NarrowKeepsPlaced(s, st.b, k);
      j := k + 1;
      if !NarrowEnough(Step(s, st).b) {
        j := RefineStaysOnPath(s, lo, w, Step(s, st), k + 1);
      }
    }
  }

  lemma LeftProbeIsLinear(k: nat, w: real)
    ensures LeftProbe(k, w) == LeftProbe(k, 1.0) * w
  {}

  lemma LeftProbeFalls(k: nat)
    ensures 0.0 < LeftProbe(k + 1, 1.0) <= LeftProbe(k, 1.0)
  {
    if k >= 2 {
      LeftProbeFalls(k - 2);
      LeftProbeFalls(k - 1);
    }
  }

  lemma {:induction false} LeftProbesFall(j: nat, k: nat)
    requires j <= k
    ensures 0.0 < LeftProbe(k, 1.0) <= LeftProbe(j, 1.0)
    decreases k
  {
    LeftProbeFalls(k);
    if j < k {
      LeftProbesFall(j, k - 1);
      LeftProbeFalls(k - 1);
    }
  }

  lemma LowestFigure()
    ensures 0.00118624 <= LeftProbe(13, 1.0) <= 0.00118625
  {
    assert 0.1458980337 <= LeftProbe(3, 1.0) <= 0.1458980338;
    assert 0.0557280900 <= LeftProbe(5, 1.0) <= 0.0557280901;
    assert 0.0212862362 <= LeftProbe(7, 1.0) <= 0.0212862363;
    assert 0.0081306187 <= LeftProbe(9, 1.0) <= 0.0081306188;
    assert 0.0031056200 <= LeftProbe(11, 1.0) <= 0.0031056201;
    assert 0.0011862412 <= LeftProbe(13, 1.0) <= 0.0011862413;
  }

  /** The seventh power of what the golden fraction leaves. */
  lemma LowestProbeSize(w: real)
    requires 0.0 <= w
    ensures 0.00118624 * w <= LeftProbe(GOLDEN_MAX_ITERS + 1, w) <= 0.00118625 * w
  {
    hide LeftProbe;
    LeftProbeIsLinear(13, w);
    LowestFigure();
    FigureTimes(LeftProbe(13, 1.0), w);
  }

  lemma FigureTimes(q: real, w: real)
    requires 0.00118624 <= q <= 0.00118625 && 0.0 <= w
    ensures 0.00118624 * w <= q * w <= 0.00118625 * w
  {}

  /** In figures: a bracket up to 9.515 times its low end is short, and none above 9.516 times is. */
  lemma ShortIsNineAndAHalf(lo: real, hi: real)
    requires 0.0 < lo <= hi
    ensures hi <= 9.515 * lo ==> Short(lo, hi)
    ensures Short(lo, hi) ==> hi <= 9.516 * lo
  {
    LowestProbeSize(hi - lo);
  }

  // ----- What the last bracket leaves -----

  /** The tolerance stop and, on a short bracket, the iteration cap leave gaps this short between neighbours. */
  lemma LastGaps(b: Bracket, k: nat, lo: real, hi: real)
    requires Placed(b, k) && MIN_INPUT <= lo <= b.left && lo < hi
    requires k <= GOLDEN_MAX_ITERS
    requires NarrowEnough(b) ||
             (k == GOLDEN_MAX_ITERS && b.Width() <= Shrunk(k, hi - lo) && Short(lo, hi) && OnPath(lo, hi - lo, b, k))
    ensures 0.99 * b.x1 <= b.left && 0.99 * b.x2 <= b.x1 && 0.99 * b.right <= b.x2
  {
    PlacedBounds(b, k);
    if !NarrowEnough(b) {
      CappedWidth(hi - lo);
      ShortIsNineAndAHalf(lo, hi);
      hide Shrunk, LeftProbe;
      assert b.Width() <= 0.02646 * lo;
    }
  }

  lemma CappedWidth(w: real)
    requires 0.0 <= w
    ensures Shrunk(GOLDEN_MAX_ITERS, w) <= 0.0031057 * w
  {
    ShrunkIsLinear(12, w);
    assert Shrunk(12, 1.0) <= 0.0031057;
    Scale(Shrunk(12, 1.0), 0.0031057, w);
  }

  /** A stretch between two probes, short against a size `o` further up where the curve is not negative: one end is
      within a hundredth, by the ray from the origin or by the ray from `o`. */
  lemma MiddleStretch(f: real -> real, hi: real, a: real, b: real, o: real, t: real)
    requires Concave(f, 0.0, hi) && 0.0 <= f(0.0) && 0.0 <= f(o) && 0.0 <= f(t)
    requires 0.0 < a <= t <= b <= hi && b - a <= 0.0024 * o && 0.0 < o <= hi
    ensures 0.99 * f(t) <= f(a) || 0.99 * f(t) <= f(b)
  {
    if 0.24 * o <= t {
      ShortStretch(f, hi, a, t);
    } else {
      RayFromRight(f, 0.0, hi, t, b, o);
      hide Concave;
      NonNegative(o - b, f(t));
      Cancel(o - t, 0.0, f(b));
      ShareRay(o - b, o - t, f(b), f(t), 0.99);
    }
  }

  /** A size no more than half the high end below it at which the curve is not negative. */
  predicate Anchored(f: real -> real, hi: real, o: real) { 0.0 < o <= hi <= 2.0 * o && 0.0 <= f(o) }

  lemma InsideIsCovered(s: real -> real, f: real -> real, eps: real, lo: real, hi: real, o: real, st: Search, k: nat,
                        t: real)
    requires MIN_INPUT <= lo && k <= GOLDEN_MAX_ITERS && (Short(lo, hi) || Anchored(f, hi, o))
    requires Concave(f, 0.0, hi) && 0.0 <= f(0.0) && Observes(s, f, eps, lo, hi)
    requires Sound(s, f, eps, lo, hi, st, k)
    requires NarrowEnough(st.b) ||
             (k == GOLDEN_MAX_ITERS && st.b.Width() <= Shrunk(k, hi - lo) && OnPath(lo, hi - lo, st.b, k))
    requires st.b.left <= t <= st.b.right && 0.0 <= f(t)
    ensures s(Best(s, st.probes)) >= 0.99 * f(t) - eps
  {
    hide Concave, Placed, Best, NarrowEnough, Shrunk, Discarded, OnPath, LeftProbe, Short;
    var b := st.b;
    PlacedBounds(b, k);
    var l, r := if t < b.x1 then b.left else if t < b.x2 then b.x1 else b.x2,
                if t < b.x1 then b.x1 else if t < b.x2 then b.x2 else b.right;
    if NarrowEnough(b) || Short(lo, hi) {
      LastGaps(b, k, lo, hi);
      ShortStretch(f, hi, l, t);
    } else {
      CappedWidth(hi - lo);
      MiddleStretch(f, hi, l, r, o, t);
    }
    BestIsMaximum(s, st.probes);
    assert l in st.probes && r in st.probes;
  }

  /** Golden-section search is 99% optimal on a bracket whose lowest probe is within a hundredth of its low end, and
      on any bracket up to twice a size at which the profit is not negative. */
  lemma GoldenIsNinetyNine(s: real -> real, f: real -> real, eps: real, lo: real, hi: real, o: real, t: real)
    requires MIN_INPUT <= lo <= t <= hi && (Short(lo, hi) || Anchored(f, hi, o))
    requires Concave(f, 0.0, hi) && 0.0 <= f(0.0) && Observes(s, f, eps, lo, hi)
    requires 0.0 <= f(t)
    ensures s(Best(s, GoldenProbes(s, lo, hi))) >= 0.99 * f(t) - Loss(eps)
  {
    hide Best, NarrowEnough, Shrunk, Placed, Begin, OnPath, Short, Anchored;
    if lo < hi {
      BeginIsSound(s, f, eps, lo, hi);
      BeginWidth(lo, hi);
      BeginOnPath(lo, hi);
      assert Concave(f, lo, hi) by { ConcaveWithin(f, 0.0, hi, lo, hi); }
      hide Concave;
      var j := RefineIsSound(s, f, eps, lo, hi, Begin(lo, hi), 0);
      var i := RefineStaysOnPath(s, lo, hi - lo, Begin(lo, hi), 0);
      var st := Refine(s, Begin(lo, hi));
      assert st.probes == GoldenProbes(s, lo, hi);
      hide Refine, Observes;
      if st.b.left <= t <= st.b.right {
        InsideIsCovered(s, f, eps, lo, hi, o, st, j, t);
      }
    } else {
      BestOfOne(s, hi);
    }
  }

  // ----- The chosen size -----

  /** On an exact concave profit a search that ends within the tolerance chooses a best size, or one that shares the
      last bracket with every best size and so is within the tolerance of each. */
  lemma ChosenIsNearBest(f: real -> real, lo: real, hi: real, t: real)
    requires MIN_INPUT <= lo < hi && Concave(f, lo, hi)
    requires lo <= t <= hi && forall x :: lo <= x <= hi ==> f(x) <= f(t)
    requires NarrowEnough(Refine(f, Begin(lo, hi)).b)
    ensures var x := Best(f, GoldenProbes(f, lo, hi)); var b := Refine(f, Begin(lo, hi)).b;
            || f(x) == f(t)
            || (b.left <= x <= b.right && b.left <= t <= b.right && Abs(x - t) <= 0.01 * Max(Abs(b.Mid()), MIN_INPUT))
  {
    hide Best, Shrunk, Placed, Begin, NarrowEnough, Concave;
    BeginIsSound(f, f, 0.0, lo, hi);
    BeginWidth(lo, hi);
    var j := RefineIsSound(f, f, 0.0, lo, hi, Begin(lo, hi), 0);
    var st := Refine(f, Begin(lo, hi));
    assert st.probes == GoldenProbes(f, lo, hi);
    hide Refine;
    ChosenShares(f, lo, hi, t, st, j);
    hide Sound;
    var x := Best(f, st.probes);
    if f(x) != f(t) {
      WithinTolerance(st.b, x, t);
    }
  }

  lemma WithinTolerance(b: Bracket, x: real, t: real)
    requires NarrowEnough(b) && b.left <= x <= b.right && b.left <= t <= b.right
    ensures Abs(x - t) <= 0.01 * Max(Abs(b.Mid()), MIN_INPUT)
  {}

  /** A chosen size that is not a best one lies in the last bracket, and so does every best size. */
  lemma ChosenShares(f: real -> real, lo: real, hi: real, t: real, st: Search, k: nat)
    requires Concave(f, lo, hi) && lo <= t <= hi && Sound(f, f, 0.0, lo, hi, st, k)
    requires forall x :: lo <= x <= hi ==> f(x) <= f(t)
    ensures var x := Best(f, st.probes);
            f(x) == f(t) || (st.b.left <= x <= st.b.right && st.b.left <= t <= st.b.right)
  {
    hide Concave, Placed;
    BestIsMaximum(f, st.probes);
    hide Best;
    var x := Best(f, st.probes);
    if f(x) < f(t) {
      BeyondIsWorse(f, lo, hi, t, st.b.left, x);
      BeyondIsWorse(f, lo, hi, t, st.b.right, x);
    }
  }

  /** Past a point that is worse than the best, a concave profit keeps falling. */
  lemma BeyondIsWorse(f: real -> real, lo: real, hi: real, t: real, p: real, x: real)
    requires Concave(f, lo, hi) && lo <= t <= hi && lo <= p <= hi && lo <= x <= hi && f(p) < f(t) && f(x) < f(t)
    ensures x < p < t || t < p < x ==> f(x) < f(p)
  {
    if x < p < t {
      assert Chord(f, x, p, t);
      hide Concave;
      ChordFalls(t - x, t - p, f(x), f(p), f(t));
    } else if t < p < x {
      assert Chord(f, t, p, x);
      hide Concave;
      ChordFalls(x - t, p - t, f(x), f(p), f(t));
    }
  }

  lemma ChordFalls(w: real, d: real, fx: real, fp: real, ft: real)
    requires 0.0 < d < w && fp < ft && w * fp >= d * fx + (w - d) * ft
    ensures fx < fp
  {
    if fp <= fx {
      Scale(fp, fx, d);
      PositiveProduct(w - d, ft - fp);
    }
  }

  /** A bracket that doubled always ends within the tolerance. */
  lemma DoubledEndsNarrow(f: real -> real, lo: real, hi: real)
    requires MIN_INPUT <= lo < hi <= 4.0 * lo && Concave(f, lo, hi)
    ensures NarrowEnough(Refine(f, Begin(lo, hi)).b)
  {
    hide Best, Placed, Begin, Discarded, Refine, Shrunk, Concave, NarrowEnough;
    BeginIsSound(f, f, 0.0, lo, hi);
    BeginWidth(lo, hi);
    var j := RefineIsSound(f, f, 0.0, lo, hi, Begin(lo, hi), 0);
    CappedWidth(hi - lo);
    var b := Refine(f, Begin(lo, hi)).b;
    PlacedBounds(b, j);
    if !NarrowEnough(b) {
      FewPercent(b, lo);
    }
  }

  lemma FewPercent(b: Bracket, lo: real)
    requires 0.0 < lo <= b.left < b.right && b.Width() <= 0.0093171 * lo
    ensures NarrowEnough(b)
  {
  }

  lemma BeginOnPath(lo: real, hi: real)
    ensures OnPath(lo, hi - lo, Begin(lo, hi).b, 0)
  {}

  lemma BeginWidth(lo: real, hi: real)
    ensures Begin(lo, hi).b.Width() == Shrunk(0, hi - lo)
  {}

  /** The loop as the simulator runs it: four reused variables, a best-so-far pair, one new probe a turn. */
  method GoldenSectionMax(lo: real, hi: real, s: real -> real)
    returns (bestX: real, bestValue: real, sampled: seq<real>)
    ensures sampled == GoldenProbes(s, lo, hi)
    ensures bestX == Best(s, sampled) && bestValue == s(bestX)
  {
    var left, right := Max(Min(lo, hi), 0.0), Max(Max(hi, lo), MIN_INPUT);
    hide Best, Part, Step, Max, Min, Abs, Refine;
    if right <= left {
      BestOfOne(s, right);
      return right, s(right), [right];
    }
    bestX, bestValue, sampled := left, s(left), [left];
    BestOfOne(s, left);
    var rightValue := s(right);
    BestOfOneMore(s, sampled, right);
    sampled := sampled + [right];
    if rightValue > bestValue {
      bestX, bestValue := right, rightValue;
    }
    var x1, x2 := right - Part(right - left), left + Part(right - left);
    var f1, f2 := s(x1), s(x2);
    BestOfOneMore(s, sampled, x1);
    sampled := sampled + [x1];
    if f1 > bestValue {
      bestX, bestValue := x1, f1;
    }
    BestOfOneMore(s, sampled, x2);
    sampled := sampled + [x2];
    if f2 > bestValue {
      bestX, bestValue := x2, f2;
    }
    ghost var start := Begin(left, right);
    assert sampled == start.probes;
    var i := 0;
    while i < GOLDEN_MAX_ITERS
      invariant 0 <= i <= GOLDEN_MAX_ITERS
      invariant f1 == s(x1) && f2 == s(x2) && |sampled| > 0
      invariant bestX == Best(s, sampled) && bestValue == s(bestX)
      invariant |sampled| == i + 4
      invariant Refine(s, start) == Refine(s, Search(Bracket(left, x1, x2, right), sampled))
    {
      ghost var st := Search(Bracket(left, x1, x2, right), sampled);
      StepTurns(s, left, x1, x2, right, sampled);
      RefineTurn(s, st);
      if f1 < f2 {
        left := x1;
        x1, f1 := x2, f2;
        x2 := left + Part(right - left);
        f2 := s(x2);
        BestOfOneMore(s, sampled, x2);
        sampled := sampled + [x2];
        if f2 > bestValue {
          bestX, bestValue := x2, f2;
        }
      } else {
        right := x2;
        x2, f2 := x1, f1;
        x1 := right - Part(right - left);
        f1 := s(x1);
        BestOfOneMore(s, sampled, x1);
        sampled := sampled + [x1];
        if f1 > bestValue {
          bestX, bestValue := x1, f1;
        }
      }
      assert Step(s, st) == Search(Bracket(left, x1, x2, right), sampled);
      i := i + 1;
      if right - left <= 0.01 * Max(Abs(0.5 * (left + right)), MIN_INPUT) {
        assert NarrowEnough(Bracket(left, x1, x2, right));
        break;
      }
    }
    RefineTurn(s, Search(Bracket(left, x1, x2, right), sampled));
  }

  // ----- Doubling bracket -----

  datatype Bracketing = Bracketing(lo: real, hi: real, probes: seq<real>, doublings: nat, capped: bool)

  /** `lo <= mid < hi` are the last three sizes; every size after the first two is a doubling. */
  function Expand(s: real -> real, lo: real, mid: real, hi: real, max: real, probes: seq<real>): Bracketing
    requires |probes| >= 2
    decreases BRACKET_MAX_STEPS + 2 - |probes|
  {
    var doublings := |probes| - 2;
    if s(hi) <= s(mid) || max <= hi then Bracketing(lo, hi, probes, doublings, false)
    else if doublings >= BRACKET_MAX_STEPS then Bracketing(lo, hi, probes, doublings, true)
    else
      var next := Min(hi * 2.0, max);
      if next <= hi then Bracketing(mid, hi, probes, doublings, false)
      else Expand(s, mid, hi, next, max, probes + [next])
  }

  function Floor(min: real): real { Max(min, MIN_INPUT) }
  function Ceiling(min: real, max: real): real { Max(max, Floor(min)) }

  function BracketMaximum(s: real -> real, start: real, min: real, max: real): Bracketing {
    var lo, top := Floor(min), Ceiling(min, max);
    var mid := Clamp(start, lo, top);
    var hi := Min(mid * 2.0, top);
    if s(mid) <= 0.0 || hi <= mid then Bracketing(lo, mid, [mid], 0, false)
    else Expand(s, lo, mid, hi, top, [mid, hi])
  }

  method FindBracket(start: real, min: real, max: real, s: real -> real)
    returns (lo: real, hi: real, sampled: seq<real>)
    ensures var r := BracketMaximum(s, start, min, max); lo == r.lo && hi == r.hi && sampled == r.probes
  {
    var minInput := Max(min, MIN_INPUT);
    lo := minInput;
    var maxInput := Max(max, minInput);
    var mid := Clamp(start, minInput, maxInput);
    var midValue := s(mid);
    sampled := [mid];
    if midValue <= 0.0 {
      return lo, mid, sampled;
    }
    hi := Min(mid * 2.0, maxInput);
    if hi <= mid {
      return lo, mid, sampled;
    }
    var hiValue := s(hi);
    sampled := sampled + [hi];
    assert sampled == [mid, hi];
    var i := 0;
    while i < BRACKET_MAX_STEPS
      invariant 0 <= i <= BRACKET_MAX_STEPS
      invariant midValue == s(mid) && hiValue == s(hi)
      invariant |sampled| == i + 2
      invariant BracketMaximum(s, start, min, max) == Expand(s, lo, mid, hi, maxInput, sampled)
    {
      if hiValue <= midValue || hi >= maxInput {
        return lo, hi, sampled;
      }
      lo := mid;
      mid := hi;
      midValue := hiValue;
      var nextHi := Min(hi * 2.0, maxInput);
      if nextHi <= hi {
        return lo, hi, sampled;
      }
      hi := nextHi;
      hiValue := s(hi);
      sampled := sampled + [hi];
      i := i + 1;
    }
  }

  /** The three last sizes of a bracket whose sizes have kept improving up to `mid`. */
  ghost predicate Climbing(s: real -> real, min: real, lo: real, mid: real, hi: real, top: real, probes: seq<real>) {
    && 0.0 < min <= lo <= mid < hi == Min(mid * 2.0, top)
    && 0.0 < s(mid)
    && |probes| >= 2 && mid == probes[|probes| - 2] && hi == probes[|probes| - 1]
    && (forall i :: 0 <= i < |probes| - 2 ==> s(probes[i]) < s(probes[i + 1]))
    && (if |probes| == 2 then lo == min else mid == 2.0 * lo && 0.0 < s(lo) < s(mid))
  }

  lemma ClimbOn(s: real -> real, min: real, lo: real, mid: real, hi: real, top: real, probes: seq<real>)
    requires Climbing(s, min, lo, mid, hi, top, probes) && s(mid) < s(hi) && hi < top
    ensures Climbing(s, min, mid, hi, Min(hi * 2.0, top), top, probes + [Min(hi * 2.0, top)])
  {}

  lemma {:induction false} ExpandClimbs(s: real -> real, min: real, lo: real, mid: real, hi: real, top: real,
                                        probes: seq<real>) returns (m: real)
    requires Climbing(s, min, lo, mid, hi, top, probes) && |probes| <= BRACKET_MAX_STEPS + 2
    ensures var r := Expand(s, lo, mid, hi, top, probes);
            && Climbing(s, min, r.lo, m, r.hi, top, r.probes)
            && r.doublings == |r.probes| - 2 <= BRACKET_MAX_STEPS && probes <= r.probes
            && (if r.capped then r.doublings == BRACKET_MAX_STEPS && s(m) < s(r.hi) && r.hi < top
                else s(r.hi) <= s(m) || top <= r.hi)
    decreases BRACKET_MAX_STEPS + 2 - |probes|
  {
    m := mid;
    if |probes| < BRACKET_MAX_STEPS + 2 && s(mid) < s(hi) && hi < top {
      ClimbOn(s, min, lo, mid, hi, top, probes);
      hide Climbing;
      m := ExpandClimbs(s, min, mid, hi, Min(hi * 2.0, top), top, probes + [Min(hi * 2.0, top)]);
    }
  }

  /** How a bracket ended: at the first size, or climbing with `m` as its middle size. */
  ghost predicate Ended(s: real -> real, min: real, top: real, r: Bracketing, m: real) {
    if |r.probes| < 2 then
      && r.doublings == 0 && !r.capped
      && 0.0 < min == r.lo <= m == r.hi <= top && (s(m) <= 0.0 || m == top)
    else
      && Climbing(s, min, r.lo, m, r.hi, top, r.probes)
      && r.doublings == |r.probes| - 2 <= BRACKET_MAX_STEPS && 0.0 < s(r.probes[0])
      && (if r.capped then r.doublings == BRACKET_MAX_STEPS && s(m) < s(r.hi) && r.hi < top
          else s(r.hi) <= s(m) || top <= r.hi)
  }

  lemma BracketEnds(s: real -> real, start: real, min: real, max: real) returns (m: real)
    ensures var r := BracketMaximum(s, start, min, max);
            && Ended(s, Floor(min), Ceiling(min, max), r, m)
            && (|r.probes| < 2 ==> m == Clamp(start, Floor(min), Ceiling(min, max)))
  {
    var lo, top := Floor(min), Ceiling(min, max);
    m := Clamp(start, lo, top);
    var hi := Min(m * 2.0, top);
    if 0.0 < s(m) && m < hi {
      m := ExpandClimbs(s, lo, lo, m, hi, top, [m, hi]);
      hide Expand;
    }
  }

  /** The search range is never left, and a bracket that doubled spans at most a factor of four. */
  lemma BracketStaysInRange(s: real -> real, start: real, min: real, max: real)
    ensures var r := BracketMaximum(s, start, min, max);
            && 0.0 < Floor(min) <= r.lo <= r.hi <= Ceiling(min, max)
            && (if r.doublings > 0 then r.hi <= 4.0 * r.lo && 0.0 < s(r.lo) else r.lo == Floor(min))
  {
    hide BracketMaximum;
    var m := BracketEnds(s, start, min, max);
  }

  /** A bracket stopped by its step cap: each size beat the one before it, and the last is short of the largest. */
  lemma CappedBracketClimbed(s: real -> real, start: real, min: real, max: real)
    requires BracketMaximum(s, start, min, max).capped
    ensures var p := BracketMaximum(s, start, min, max).probes;
            && |p| == BRACKET_MAX_STEPS + 2 && 0.0 < s(p[0]) && p[|p| - 1] < Ceiling(min, max)
            && forall i :: 0 <= i < |p| - 1 ==> s(p[i]) < s(p[i + 1])
  {
    hide BracketMaximum;
    var m := BracketEnds(s, start, min, max);
  }

  // ----- The step cap -----

  /** A size doubled `k` times. */
  function Doubled(m: real, k: nat): (d: real)
    ensures 0.0 < m ==> m <= d
  {
    if k == 0 then m else 2.0 * Doubled(m, k - 1)
  }

  lemma {:induction false} DoubledTwice(m: real, j: nat, k: nat)
    ensures Doubled(m, j + k) == Doubled(Doubled(m, j), k)
  {
    if k > 0 {
      DoubledTwice(m, j, k - 1);
    }
  }

  lemma FiveDoublings(m: real)
    ensures Doubled(m, 5) == 32.0 * m
  {
    assert Doubled(m, 1) == 2.0 * m;
    assert Doubled(m, 3) == 8.0 * m;
  }

  lemma FiveMore(m: real, j: nat, k: nat)
    requires k == j + 5
    ensures Doubled(m, k) == 32.0 * Doubled(m, j)
  {
    DoubledTwice(m, j, 5);
    FiveDoublings(Doubled(m, j));
  }

  lemma CapSizes(m: real)
    ensures Doubled(m, 25) == 33554432.0 * m
    ensures Doubled(m, 25) == 2.0 * Doubled(m, 24) && Doubled(m, 24) == 2.0 * Doubled(m, 23)
  {
    FiveMore(m, 0, 5);
    FiveMore(m, 5, 10);
    FiveMore(m, 10, 15);
    FiveMore(m, 15, 20);
    FiveMore(m, 20, 25);
  }

  /** Every size after the first is twice the one before it, or the largest. */
  ghost predicate Doubling(probes: seq<real>, top: real) {
    forall i :: 0 <= i < |probes| - 1 ==> probes[i + 1] == Min(2.0 * probes[i], top)
  }

  lemma {:induction false} ExpandDoubles(s: real -> real, lo: real, mid: real, hi: real, top: real, probes: seq<real>)
    requires |probes| >= 2 && Doubling(probes, top) && probes[|probes| - 1] == hi
    ensures Doubling(Expand(s, lo, mid, hi, top, probes).probes, top)
    ensures probes <= Expand(s, lo, mid, hi, top, probes).probes
    decreases BRACKET_MAX_STEPS + 2 - |probes|
  {
    var next := Min(hi * 2.0, top);
    if !(s(hi) <= s(mid) || top <= hi) && |probes| - 2 < BRACKET_MAX_STEPS && next > hi {
      ExpandDoubles(s, mid, hi, next, top, probes + [next]);
    }
  }

  lemma BracketDoubles(s: real -> real, start: real, min: real, max: real)
    ensures var p := BracketMaximum(s, start, min, max).probes; var top := Ceiling(min, max);
            |p| > 0 && p[0] == Clamp(start, Floor(min), top) && Doubling(p, top)
  {
    var lo, top := Floor(min), Ceiling(min, max);
    var m := Clamp(start, lo, top);
    var hi := Min(m * 2.0, top);
    if 0.0 < s(m) && m < hi {
      ExpandDoubles(s, lo, m, hi, top, [m, hi]);
      hide Expand;
    }
  }

  /** Sizes that end short of the largest were doubled all the way. */
  lemma {:induction false} DoubledShortOfTop(probes: seq<real>, top: real, k: nat)
    requires Doubling(probes, top) && k < |probes| && 0.0 < probes[0] && probes[|probes| - 1] < top && 0.0 < top
    ensures probes[k] == Doubled(probes[0], k) && (k + 1 < |probes| ==> 2.0 * probes[k] < top)
  {
    if k > 0 {
      DoubledShortOfTop(probes, top, k - 1);
    }
    if k + 1 < |probes| && top <= 2.0 * probes[k] {
      StaysAtTop(probes, top, k + 1);
    }
  }

  lemma {:induction false} StaysAtTop(probes: seq<real>, top: real, k: nat)
    requires Doubling(probes, top) && k < |probes| && probes[k] == top && 0.0 < top
    ensures probes[|probes| - 1] == top
    decreases |probes| - k
  {
    if k + 1 < |probes| {
      StaysAtTop(probes, top, k + 1);
    }
  }

  /** A capped bracket took 26 sizes, each twice the one before it, and ends on the last three: 2^23, 2^24 and 2^25
      times the size it started at. */
  lemma CappedSizesDouble(s: real -> real, start: real, min: real, max: real)
    requires BracketMaximum(s, start, min, max).capped
    ensures var r := BracketMaximum(s, start, min, max); var m := Clamp(start, Floor(min), Ceiling(min, max));
            && |r.probes| == 26 && r.probes[0] == m
            && (forall i :: 0 <= i < 25 ==> r.probes[i + 1] == 2.0 * r.probes[i])
            && r.lo == 8388608.0 * m && r.hi == 33554432.0 * m < Ceiling(min, max)
  {
    hide BracketMaximum;
    var r, top := BracketMaximum(s, start, min, max), Ceiling(min, max);
    var m := BracketEnds(s, start, min, max);
    BracketDoubles(s, start, min, max);
    CapSizes(r.probes[0]);
    forall i | 0 <= i < 25 ensures r.probes[i + 1] == 2.0 * r.probes[i] {
      DoubledShortOfTop(r.probes, top, i);
    }
    DoubledShortOfTop(r.probes, top, 24);
    DoubledShortOfTop(r.probes, top, 25);
  }

  /** Each of the sizes from the `k`th doubling of `m` up to the 25th earns more than the one before it. */
  ghost predicate ClimbsFrom(s: real -> real, m: real, k: nat) {
    forall i: nat :: k <= i < 25 ==> s(Doubled(m, i)) < s(Doubled(m, i + 1))
  }

  lemma {:induction false} ClimbIsCapped(s: real -> real, m: real, lo: real, top: real, probes: seq<real>, k: nat)
    requires 0.0 < m && Doubled(m, 25) < top && ClimbsFrom(s, m, k) && k + 1 <= 25 && |probes| == k + 2
    ensures Expand(s, lo, Doubled(m, k), Doubled(m, k + 1), top, probes).capped
    decreases 25 - k
  {
    DoubledBelow(m, k + 1, 25);
    if k + 1 < 25 {
      DoubledBelow(m, k + 2, 25);
      ClimbIsCapped(s, m, Doubled(m, k), top, probes + [Doubled(m, k + 2)], k + 1);
    }
  }

  lemma {:induction false} DoubledBelow(m: real, k: nat, n: nat)
    requires k <= n && 0.0 < m
    ensures Doubled(m, k) <= Doubled(m, n)
    decreases n
  {
    if k < n {
      DoubledBelow(m, k, n - 1);
    }
  }

  /** The cap fires exactly when the first size earns something, its 25 doublings stay short of the largest size, and
      each of them earns more than the one before it. */
  lemma CappedExactly(s: real -> real, start: real, min: real, max: real)
    ensures var m := Clamp(start, Floor(min), Ceiling(min, max));
            BracketMaximum(s, start, min, max).capped <==>
              0.0 < s(m) && 33554432.0 * m < Ceiling(min, max) && ClimbsFrom(s, m, 0)
  {
    var top := Ceiling(min, max);
    var m := Clamp(start, Floor(min), top);
    if BracketMaximum(s, start, min, max).capped {
      CappedClimbs(s, start, min, max, m);
    } else if 0.0 < s(m) && 33554432.0 * m < top && ClimbsFrom(s, m, 0) {
      CapSizes(m);
      DoubledBelow(m, 1, 25);
      ClimbIsCapped(s, m, Floor(min), top, [m, 2.0 * m], 0);
    }
  }

  lemma CappedClimbs(s: real -> real, start: real, min: real, max: real, m: real)
    requires BracketMaximum(s, start, min, max).capped && m == Clamp(start, Floor(min), Ceiling(min, max))
    ensures 0.0 < s(m) && 33554432.0 * m < Ceiling(min, max) && ClimbsFrom(s, m, 0)
  {
    hide BracketMaximum;
    CappedSizesDouble(s, start, min, max);
    CappedBracketClimbed(s, start, min, max);
    var p := BracketMaximum(s, start, min, max).probes;
    BracketDoubles(s, start, min, max);
    forall i: nat | 0 <= i < 25 ensures s(Doubled(m, i)) < s(Doubled(m, i + 1)) {
      DoubledShortOfTop(p, Ceiling(min, max), i);
      DoubledShortOfTop(p, Ceiling(min, max), i + 1);
    }
  }

  /** The step cap does not keep the search from a size: it did not fire, or the size is at most 2^25 times the first.
      */
  ghost predicate InReach(s: real -> real, start: real, min: real, max: real, t: real) {
    t <= 33554432.0 * Clamp(start, Floor(min), Ceiling(min, max)) || !BracketMaximum(s, start, min, max).capped
  }

  lemma ReachedByBracket(s: real -> real, start: real, min: real, max: real, t: real)
    requires InReach(s, start, min, max, t)
    ensures var r := BracketMaximum(s, start, min, max); !r.capped || t <= r.hi
  {
    hide BracketMaximum;
    if BracketMaximum(s, start, min, max).capped {
      CappedSizesDouble(s, start, min, max);
    }
  }

  lemma BelowIsCovered(s: real -> real, f: real -> real, eps: real, top: real, lo: real, mid: real, t: real)
    requires Concave(f, 0.0, top) && Observes(s, f, eps, 0.0, top)
    requires 0.0 <= t <= lo && mid == 2.0 * lo && 0.0 < lo && mid <= top && s(lo) < s(mid)
    ensures f(t) <= f(lo) + eps
  {
    ExtrapolateLeft(f, 0.0, top, t, lo, mid, eps);
    RiseOver(lo, lo - t, 1.0, f(t) - f(lo), eps);
  }

  lemma AboveIsCovered(s: real -> real, f: real -> real, eps: real, top: real, mid: real, t: real, k: real)
    requires Concave(f, 0.0, top) && Observes(s, f, eps, 0.0, top)
    requires 0.0 < mid && 2.0 * mid <= t <= top && s(2.0 * mid) <= s(mid) && 0.0 <= k && t <= k * mid
    ensures f(t) <= f(2.0 * mid) + k * eps
  {
    ExtrapolateRight(f, 0.0, top, mid, 2.0 * mid, t, eps);
    RiseOver(mid, t - 2.0 * mid, k, f(t) - f(2.0 * mid), eps);
  }

  lemma BeyondLossIsCovered(s: real -> real, f: real -> real, eps: real, top: real, mid: real, t: real, k: real)
    requires Concave(f, 0.0, top) && 0.0 <= f(0.0) && Observes(s, f, eps, 0.0, top)
    requires 0.0 < mid <= t <= top && s(mid) <= 0.0 && t <= k * mid && 0.0 <= k
    ensures f(t) <= f(mid) + k * eps
  {
    RayFromLeft(f, 0.0, top, 0.0, mid, t);
    NonNegative(k, eps);
    if f(mid) <= 0.0 {
      ShrinkingRay(mid, t, f(mid), f(t));
    } else {
      GrowingRay(mid, t, k, f(mid), f(t), eps);
    }
  }

  lemma ShrinkingRay(m: real, t: real, fm: real, ft: real)
    requires 0.0 < m <= t && fm <= 0.0 && m * ft <= t * fm
    ensures ft <= fm
  {
    ScaleDown(m, t, fm);
    Cancel(m, ft, fm);
  }

  lemma GrowingRay(m: real, t: real, k: real, fm: real, ft: real, eps: real)
    requires 0.0 < m && 0.0 <= t <= k * m && 0.0 <= fm <= eps && m * ft <= t * fm
    ensures ft <= k * eps
  {
    Scale(fm, eps, t);
    Scale(t, k * m, eps);
    assert (k * m) * eps == m * (k * eps);
    Cancel(m, ft, k * eps);
  }

  /** How many times the low end of a bracket goes into a size; the price of noise beyond the bracket. */
  function Reach(t: real, lo: real): (k: real)
    requires 0.0 < lo
    ensures k * lo == t && (0.0 <= t ==> 0.0 <= k)
  {
    t / lo
  }

  lemma EndCovers(s: real -> real, f: real -> real, eps: real, min: real, top: real, r: Bracketing, m: real,
                  t: real, k: real) returns (p: real)
    requires Concave(f, 0.0, top) && 0.0 <= f(0.0) && Observes(s, f, eps, 0.0, top)
    requires Ended(s, min, top, r, m) && min <= t <= top && (!r.capped || t <= r.hi)
    requires 0.0 <= k && t <= k * r.lo
    ensures r.lo <= p <= r.hi && f(t) <= f(p) + eps + k * eps
  {
    hide Concave;
    NonNegative(k, eps);
    p := t;
    if t < r.lo {
      p := r.lo;
      BelowIsCovered(s, f, eps, top, r.lo, m, t);
    } else if r.hi < t {
      p := r.hi;
      Scale(r.lo, m, k);
      if |r.probes| < 2 {
        BeyondLossIsCovered(s, f, eps, top, m, t, k);
      } else {
        AboveIsCovered(s, f, eps, top, m, t, k);
      }
    }
  }

  /** The bracket holds a size as good as any in range, up to the noise, unless the step cap cut it off. */
  lemma BracketCovers(s: real -> real, f: real -> real, eps: real, start: real, min: real, max: real, t: real)
    returns (p: real)
    requires var top := Ceiling(min, max);
             Concave(f, 0.0, top) && 0.0 <= f(0.0) && Observes(s, f, eps, 0.0, top) && Floor(min) <= t <= top
    requires var r := BracketMaximum(s, start, min, max); !r.capped || t <= r.hi
    ensures var r := BracketMaximum(s, start, min, max);
            0.0 < r.lo <= p <= r.hi && f(t) <= f(p) + eps + Reach(t, r.lo) * eps
  {
    hide Concave, BracketMaximum, Observes, Climbing, Ended;
    var r := BracketMaximum(s, start, min, max);
    BracketStaysInRange(s, start, min, max);
    var m := BracketEnds(s, start, min, max);
    p := EndCovers(s, f, eps, Floor(min), Ceiling(min, max), r, m, t, Reach(t, r.lo));
  }

  /** The arbitrageur's search: the bracket, then golden-section search inside it. */
  function SearchedSize(s: real -> real, start: real, min: real, max: real): real {
    var r := BracketMaximum(s, start, min, max);
    Best(s, GoldenProbes(s, r.lo, r.hi))
  }

  /** The search starts at a size that earns something, or so near the least input that it need not. */
  predicate WellStarted(s: real -> real, start: real, min: real, max: real) {
    var m := Clamp(start, Floor(min), Ceiling(min, max));
    0.0 < s(m) || Short(Floor(min), m)
  }

  /** From a size that earns something the bracket is anchored or short; from any other only a short one will do. */
  lemma BracketIsFit(s: real -> real, f: real -> real, eps: real, start: real, min: real, max: real) returns (o: real)
    requires WellStarted(s, start, min, max) && Observes(s, f, eps, 0.0, Ceiling(min, max))
    ensures var r := BracketMaximum(s, start, min, max); Short(r.lo, r.hi) || Anchored(f, r.hi, o)
  {
    hide BracketMaximum, Short;
    var r := BracketMaximum(s, start, min, max);
    BracketStaysInRange(s, start, min, max);
    o := BracketEnds(s, start, min, max);
    if |r.probes| >= 2 && r.doublings > 0 {
      ShortIsNineAndAHalf(r.lo, r.hi);
    }
  }

  lemma LowEndIsFit(s: real -> real, f: real -> real, eps: real, start: real, min: real, max: real, t: real)
    requires var top := Ceiling(min, max);
             Concave(f, 0.0, top) && 0.0 <= f(0.0) && Observes(s, f, eps, 0.0, top) && Floor(min) <= t <= top
    requires 0.0 <= f(t)
    ensures 0.0 <= f(BracketMaximum(s, start, min, max).lo)
  {
    hide Concave, BracketMaximum;
    var lo := BracketMaximum(s, start, min, max).lo;
    BracketStaysInRange(s, start, min, max);
    if lo <= t {
      NonNegativeBelow(f, Ceiling(min, max), lo, t);
    }
  }

  /** A search that is well started earns at least 99% of any profit in reach, less the noise. */
  lemma ArbSearchIsNinetyNine(s: real -> real, f: real -> real, eps: real, start: real, min: real, max: real, t: real)
    requires var top := Ceiling(min, max);
             Concave(f, 0.0, top) && 0.0 <= f(0.0) && Observes(s, f, eps, 0.0, top) && Floor(min) <= t <= top
    requires WellStarted(s, start, min, max) && InReach(s, start, min, max, t) && 0.0 <= f(t)
    ensures var r := BracketMaximum(s, start, min, max);
            0.0 < r.lo && s(SearchedSize(s, start, min, max)) >= 0.99 * f(t) - 4.0 * eps - Reach(t, r.lo) * eps
  {
    hide Concave, BracketMaximum, Best, GoldenProbes, Reach, WellStarted, Short, Anchored, InReach;
    ReachedByBracket(s, start, min, max, t);
    var top := Ceiling(min, max);
    var r := BracketMaximum(s, start, min, max);
    BracketStaysInRange(s, start, min, max);
    assert 0.0 <= eps;
    var o := BracketIsFit(s, f, eps, start, min, max);
    var p := BracketCovers(s, f, eps, start, min, max, t);
    LowEndIsFit(s, f, eps, start, min, max, t);
    hide Observes;
    NonNegative(Reach(t, r.lo), eps);
    BestOfBracket(s, f, eps, top, r.lo, r.hi, o, p, t, Reach(t, r.lo) * eps);
  }

  lemma BestOfBracket(s: real -> real, f: real -> real, eps: real, top: real, lo: real, hi: real, o: real,
                      p: real, t: real, loss: real)
    requires MIN_INPUT <= lo <= p <= hi <= top && (Short(lo, hi) || Anchored(f, hi, o))
    requires Concave(f, 0.0, top) && 0.0 <= f(0.0) && Observes(s, f, eps, 0.0, top)
    requires f(t) <= f(p) + eps + loss && 0.0 <= loss && 0.0 <= f(lo)
    ensures s(Best(s, GoldenProbes(s, lo, hi))) >= 0.99 * f(t) - 4.0 * eps - loss
  {
    hide Best, GoldenProbes, Short, Anchored;
    ConcaveWithin(f, 0.0, top, 0.0, hi);
    assert Observes(s, f, eps, lo, hi);
    var v := s(Best(s, GoldenProbes(s, lo, hi)));
    hide Observes, Concave;
    if 0.0 <= f(p) {
      GoldenIsNinetyNine(s, f, eps, lo, hi, o, p);
    } else {
      GoldenIsNinetyNine(s, f, eps, lo, hi, o, lo);
    }
  }

  /** The chosen size lies in the bracket. */
  lemma ChosenInBracket(s: real -> real, f: real -> real, eps: real, lo: real, hi: real)
    requires MIN_INPUT <= lo <= hi && Concave(f, lo, hi) && Observes(s, f, eps, lo, hi)
    ensures lo <= Best(s, GoldenProbes(s, lo, hi)) <= hi
  {
    assert 0.0 <= eps;
    hide Concave, Observes, Shrunk, Placed, Begin;
    BestIsMaximum(s, GoldenProbes(s, lo, hi));
    hide Best;
    if lo < hi {
      BeginIsSound(s, f, eps, lo, hi);
      BeginWidth(lo, hi);
      var j := RefineIsSound(s, f, eps, lo, hi, Begin(lo, hi), 0);
      hide Refine;
    }
  }
}
