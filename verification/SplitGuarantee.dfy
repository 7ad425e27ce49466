/** The router's split search finds at least 95% of the best score. */
module SplitGuarantee {
  import opened Reals
  import opened Concavity
  import opened Golden
  import opened GoldenSearch
  import opened SplitSearch

  /** The score is concave over all shares, not negative at the ends, and seen with error `eps`. */
  ghost predicate Scored(s: real -> real, f: real -> real, eps: real) {
    Concave(f, 0.0, 1.0) && Observes(s, f, eps, 0.0, 1.0) && 0.0 <= f(0.0) && 0.0 <= f(1.0)
  }

  lemma ScoreNotNegative(f: real -> real, x: real)
    requires Concave(f, 0.0, 1.0) && 0.0 <= f(0.0) && 0.0 <= f(1.0) && 0.0 <= x <= 1.0
    ensures 0.0 <= f(x)
  {
    if 0.0 < x < 1.0 {
      assert Chord(f, 0.0, x, 1.0);
      NonNegative(1.0 - x, f(0.0));
      NonNegative(x, f(1.0));
    }
  }

  // ----- A narrow bracket -----

  /** On a bracket a hundredth of the order wide, one end is within 3% of every point inside. */
  lemma NarrowBracketIsGood(f: real -> real, l: real, r: real, t: real)
    requires Concave(f, 0.0, 1.0) && 0.0 <= f(0.0) && 0.0 <= f(1.0)
    requires 0.0 <= l <= t <= r <= 1.0 && r - l <= 0.01
    ensures 0.97 * f(t) <= f(l) || 0.97 * f(t) <= f(r)
  {
    ScoreNotNegative(f, l);
    ScoreNotNegative(f, r);
    if 0.5 <= t {
      RayFromLeft(f, 0.0, 1.0, 0.0, l, t);
      hide Concave;
      ShareRay(l, t, f(l), f(t), 0.97);
    } else {
      RayFromRight(f, 0.0, 1.0, t, r, 1.0);
      hide Concave;
      ShareRay(1.0 - r, 1.0 - t, f(r), f(t), 0.97);
    }
  }

  // ----- Two probes with nearly equal scores -----

  /** A share between a probe and the centre, as multiples `p` and `q` of the gaps on either side: two chord
      bounds pull against each other, and the worst case is a quadratic in `q` that stays below its limit. */
  lemma WorstShare(p: real, q: real)
    requires 0.0 <= p && 0.0 <= q && 0.381966 * p + 0.118033 * q <= 0.5
    ensures p * (1.01 * q - 0.0515) <= 1.0515 * q
  {
    if 0.0515 <= 1.01 * q {
      Scale(p, 1.30902 - 0.309 * q, 1.01 * q - 0.0515);
      PeakOfQuadratic(q);
    } else {
      NonNegative(p, 0.0515 - 1.01 * q);
    }
  }

  lemma PeakOfQuadratic(q: real)
    ensures (1.30902 - 0.309 * q) * (1.01 * q - 0.0515) <= 1.0515 * q
  {
    assert (1.30902 - 0.309 * q) * (1.01 * q - 0.0515) == 1.3380237 * q - 0.31209 * (q * q) - 0.06741453;
    assert 0.0 <= (q - 0.459) * (q - 0.459) == q * q - 0.918 * q + 0.210681;
  }

  lemma SlackShare(p: real, q: real)
    requires 0.0 <= p <= 1.31 && 0.0 <= q <= 1.0001
    ensures p * (q - 0.6) <= 0.6 * q
  {
    if 0.6 <= q {
      NonNegative(1.31 - p, q - 0.6);
    } else {
      NonNegative(p, 0.6 - q);
    }
  }

  ghost predicate AtMostChords(p: real, q: real, ft: real, b: real, g: real) {
    (p + q) * ft <= p * (q * g) + p * (b * (1.0 + q))
  }

  /** The two chord bounds combined: what a share between a probe and the centre can score. */
  lemma CombinedChords(p: real, q: real, ft: real, near: real, far: real, mid: real, b: real, g: real)
    requires 0.0 <= p && 0.0 <= q && near <= far + g && mid <= b
    requires ft <= p * near && ft - mid <= q * (mid - far)
    ensures AtMostChords(p, q, ft, b, g)
  {
    Scale(near, far + g, p);
    Scale(mid, b, 1.0 + q);
    Scale(ft, p * (far + g), q);
    Scale(ft, b * (1.0 + q) - q * far, p);
  }

  ghost predicate Combined(p: real, q: real, b: real, g: real, c: real) {
    p * (q * g) + p * (b * (1.0 + q)) <= (p + q) * c
  }

  /** When the best of the probes and the centre is `b` and the two probes are within `g`, nothing scores above `c`. */
  ghost predicate Limit(b: real, g: real, c: real) {
    && 0.0 <= g && b + 1.62 * g <= c && b <= 0.97 * c
    && forall p, q :: 0.0 < p && 0.0 <= q <= 1.0001 && 0.381966 * p + 0.118033 * q <= 0.5 ==> Combined(p, q, b, g, c)
  }

  lemma WorstScore(p: real, q: real, ft: real, near: real, far: real, mid: real, b: real, g: real, c: real)
    requires 0.0 < p && 0.0 <= q <= 1.0001 && 0.381966 * p + 0.118033 * q <= 0.5
    requires Limit(b, g, c) && near <= far + g && mid <= b
    requires ft <= p * near && ft - mid <= q * (mid - far)
    ensures ft <= c
  {
    assert Combined(p, q, b, g, c);
    hide Limit, Combined;
    UnderLimit(p, q, ft, near, far, mid, b, g, c);
  }

  lemma UnderLimit(p: real, q: real, ft: real, near: real, far: real, mid: real, b: real, g: real, c: real)
    requires 0.0 < p && 0.0 <= q && Combined(p, q, b, g, c) && near <= far + g && mid <= b
    requires ft <= p * near && ft - mid <= q * (mid - far)
    ensures ft <= c
  {
    hide Combined, AtMostChords;
    CombinedChords(p, q, ft, near, far, mid, b, g);
    ChordsUnderLimit(p, q, ft, b, g, c);
  }

  lemma ChordsUnderLimit(p: real, q: real, ft: real, b: real, g: real, c: real)
    requires 0.0 < p + q && AtMostChords(p, q, ft, b, g) && Combined(p, q, b, g, c)
    ensures ft <= c
  {
    Cancel(p + q, ft, c);
  }

  /** A gap of a hundredth and `eta`. */
  lemma HundredthIsLimited(b: real, eta: real)
    requires 0.0 <= b && 0.0 <= eta
    ensures Limit(b, 0.01 * b + eta, 1.0515 * b + 1.62 * eta)
  {
    var g, c := 0.01 * b + eta, 1.0515 * b + 1.62 * eta;
    hide Combined;
    forall p, q | 0.0 < p && 0.0 <= q <= 1.0001 && 0.381966 * p + 0.118033 * q <= 0.5 ensures Combined(p, q, b, g, c) {
      WeighShare(p, q, b, eta, g, 1.0515 * b + 0.6 * eta, c);
    }
  }

  lemma WeighShare(p: real, q: real, b: real, eta: real, g: real, d: real, c: real)
    requires 0.0 < p && 0.0 <= q <= 1.0001 && 0.381966 * p + 0.118033 * q <= 0.5 && 0.0 <= b && 0.0 <= eta
    requires g == 0.01 * b + eta && d == 1.0515 * b + 0.6 * eta && d <= c
    ensures Combined(p, q, b, g, c)
  {
    hide Combined;
    WorstShare(p, q);
    SlackShare(p, q);
    Weigh(p, q, b, eta);
    Raise(p, q, b, g, d, c);
  }

  lemma Raise(p: real, q: real, b: real, g: real, d: real, c: real)
    requires Combined(p, q, b, g, d) && d <= c && 0.0 <= p + q
    ensures Combined(p, q, b, g, c)
  {
    Scale(d, c, p + q);
  }

  lemma Weigh(p: real, q: real, b: real, eta: real)
    requires 0.0 <= b && 0.0 <= eta
    requires p * (1.01 * q - 0.0515) <= 1.0515 * q && p * (q - 0.6) <= 0.6 * q
    ensures Combined(p, q, b, 0.01 * b + eta, 1.0515 * b + 0.6 * eta)
  {
    Scale(p * (1.01 * q - 0.0515), 1.0515 * q, b);
    Scale(p * (q - 0.6), 0.6 * q, eta);
    assert p * (q * (0.01 * b + eta)) + p * (b * (1.0 + q)) ==
           (p * (1.01 * q - 0.0515)) * b + 1.0515 * p * b + (p * (q - 0.6)) * eta + 0.6 * p * eta;
    assert (p + q) * (1.0515 * b + 0.6 * eta) == 1.0515 * p * b + (1.0515 * q) * b + 0.6 * p * eta + (0.6 * q) * eta;
  }

  /** The widest gap that still leaves 95%, but for the last digits. */
  lemma WidestIsLimited(b: real)
    requires 0.0 <= b
    ensures Limit(b, 0.016448 * b, 1.05263 * b)
  {
    var g, c := 0.016448 * b, 1.05263 * b;
    forall p, q | 0.0 < p && 0.0 <= q <= 1.0001 && 0.381966 * p + 0.118033 * q <= 0.5 ensures Combined(p, q, b, g, c) {
      WidestShare(p, q);
      WeighWidest(p, q, b, g, c);
    }
  }

  lemma WidestShare(p: real, q: real)
    requires 0.0 <= p && 0.0 <= q && 0.381966 * p + 0.118033 * q <= 0.5
    ensures p * (1.016448 * q - 0.05263) <= 1.05263 * q
  {
    if 0.05263 <= 1.016448 * q {
      Scale(p, 1.30902 - 0.309 * q, 1.016448 * q - 0.05263);
      PeakOfWidest(q);
    } else {
      NonNegative(p, 0.05263 - 1.016448 * q);
    }
  }

  lemma PeakOfWidest(q: real)
    ensures (1.30902 - 0.309 * q) * (1.016448 * q - 0.05263) <= 1.05263 * q
  {
    assert (1.30902 - 0.309 * q) * (1.016448 * q - 0.05263)
        == 1.34681343096 * q - 0.314082432 * (q * q) - 0.0688937226;
    assert 0.0 <= (q - 0.4683) * (q - 0.4683) == q * q - 0.9366 * q + 0.21930489;
  }

  lemma WeighWidest(p: real, q: real, b: real, g: real, c: real)
    requires 0.0 <= b && g == 0.016448 * b && c == 1.05263 * b && p * (1.016448 * q - 0.05263) <= 1.05263 * q
    ensures Combined(p, q, b, g, c)
  {
    Scale(p * (1.016448 * q - 0.05263), 1.05263 * q, b);
    assert p * (q * g) + p * (b * (1.0 + q)) == (p * (1.016448 * q - 0.05263)) * b + 1.05263 * p * b;
    assert (p + q) * c == 1.05263 * p * b + (1.05263 * q) * b;
  }

  /** The same in distances: `u` from the bracket's end and `v` from its centre, with gaps `a` and `d`. */
  lemma InnerShare(a: real, d: real, w: real, u: real, v: real,
                   ft: real, near: real, far: real, mid: real, b: real, g: real, c: real)
    requires 0.0 < w && 0.381966 * w <= a && 0.118033 * w <= d
    requires u + v == 0.5 * w && 0.0 < u && 0.0 <= v <= 1.0001 * d
    requires Limit(b, g, c) && near <= far + g && mid <= b
    requires a * ft <= u * near && d * (ft - mid) <= v * (mid - far)
    ensures ft <= c
  {
    hide IsRatio, Limit;
    var p := RatioBound(u, a, near, ft);
    var q := RatioBound(v, d, mid - far, ft - mid);
    RatioConstraint(p, q, a, d, u, v, w);
    RatioAtMost(q, d, v);
    WorstScore(p, q, ft, near, far, mid, b, g, c);
  }

  ghost predicate IsRatio(p: real, u: real, a: real) { p * a == u }

  lemma RatioBound(u: real, a: real, y: real, x: real) returns (p: real)
    requires 0.0 < a && 0.0 <= u && a * x <= u * y
    ensures IsRatio(p, u, a) && 0.0 <= p && (0.0 < u ==> 0.0 < p) && x <= p * y
  {
    p := u / a;
    assert p * a == u;
    assert u * y == a * (p * y);
    Cancel(a, x, p * y);
  }

  lemma RatioAtMost(q: real, d: real, v: real)
    requires 0.0 < d && IsRatio(q, v, d) && v <= 1.0001 * d
    ensures q <= 1.0001
  {
    Cancel(d, q, 1.0001);
  }

  lemma RatioConstraint(p: real, q: real, a: real, d: real, u: real, v: real, w: real)
    requires 0.0 < w && 0.0 <= p && 0.0 <= q && 0.381966 * w <= a && 0.118033 * w <= d
    requires IsRatio(p, u, a) && IsRatio(q, v, d) && u + v == 0.5 * w
    ensures 0.381966 * p + 0.118033 * q <= 0.5
  {
    Scale(0.381966 * w, a, p);
    Scale(0.118033 * w, d, q);
    RatioSum(p, q, w, a * p, d * q);
  }

  lemma RatioSum(p: real, q: real, w: real, ap: real, dq: real)
    requires 0.0 < w && (0.381966 * w) * p <= ap && (0.118033 * w) * q <= dq && ap + dq == 0.5 * w
    ensures 0.381966 * p + 0.118033 * q <= 0.5
  {}

  /** When two golden probes score within `g` of each other, nothing in the bracket beats the limit. */
  lemma CloseProbesAreGood(f: real -> real, b: Bracket, k: nat, best: real, g: real, c: real, t: real)
    requires Concave(f, 0.0, 1.0) && 0.0 <= f(0.0) && 0.0 <= f(1.0)
    requires Placed(b, k) && k <= 14 && 0.0 <= b.left && b.right <= 1.0 && b.left <= t <= b.right
    requires f(b.x1) <= best && f(b.x2) <= best && f(b.Mid()) <= best
    requires Limit(best, g, c) && Abs(f(b.x1) - f(b.x2)) <= g
    ensures f(t) <= c
  {
    ProbeSpacing(b, k);
    ScoreNotNegative(f, b.x1);
    ScoreNotNegative(f, b.left);
    ScoreNotNegative(f, b.right);
    if t <= b.x1 {
      hide Placed, Concave;
      OuterLeft(f, b.x1, b.x2, t, g);
    } else if b.x2 <= t {
      hide Placed, Concave;
      OuterRight(f, b.x1, b.x2, t, g);
    } else {
      hide Placed, Concave, Limit;
      CentreIsGood(f, b, k, best, g, c, t);
    }
  }

  lemma OuterLeft(f: real -> real, x1: real, x2: real, t: real, g: real)
    requires Concave(f, 0.0, 1.0) && 0.0 <= t <= x1 < x2 <= 1.0 && x1 - t <= 1.62 * (x2 - x1)
    requires 0.0 <= g && f(x1) - f(x2) <= g
    ensures f(t) <= f(x1) + 1.62 * g
  {
    ExtrapolateLeft(f, 0.0, 1.0, t, x1, x2, g);
    RiseOverGoldenGap(x2 - x1, x1 - t, f(t) - f(x1), g);
  }

  lemma OuterRight(f: real -> real, x1: real, x2: real, t: real, g: real)
    requires Concave(f, 0.0, 1.0) && 0.0 <= x1 < x2 <= t <= 1.0 && t - x2 <= 1.62 * (x2 - x1)
    requires 0.0 <= g && f(x2) - f(x1) <= g
    ensures f(t) <= f(x2) + 1.62 * g
  {
    ExtrapolateRight(f, 0.0, 1.0, x1, x2, t, g);
    RiseOverGoldenGap(x2 - x1, t - x2, f(t) - f(x2), g);
  }

  lemma CentreSpacing(b: Bracket, k: nat)
    requires Placed(b, k) && k <= 14
    ensures 0.0 < b.Width()
    ensures 0.381966 * b.Width() <= b.x1 - b.left && 0.381966 * b.Width() <= b.right - b.x2
    ensures 0.118033 * b.Width() <= b.Mid() - b.x1 <= 0.118034 * b.Width()
    ensures 0.118033 * b.Width() <= b.x2 - b.Mid() <= 0.118034 * b.Width()
  {
    PlacedBounds(b, k);
  }

  lemma CentreIsGood(f: real -> real, b: Bracket, k: nat, best: real, g: real, c: real, t: real)
    requires Concave(f, 0.0, 1.0) && 0.0 <= f(b.left) && 0.0 <= f(b.right)
    requires Placed(b, k) && k <= 14 && 0.0 <= b.left && b.right <= 1.0 && b.x1 <= t <= b.x2
    requires f(b.x1) <= best && f(b.x2) <= best && f(b.Mid()) <= best
    requires Limit(best, g, c) && Abs(f(b.x1) - f(b.x2)) <= g
    ensures f(t) <= c
  {
    CentreSpacing(b, k);
    hide Placed, Concave, Part, Slack, Limit;
    if t <= b.Mid() {
      LeftOfCentre(f, b.left, b.x1, b.Mid(), b.x2, best, g, c, t, b.Width());
    } else {
      RightOfCentre(f, b.x1, b.Mid(), b.x2, b.right, best, g, c, t, b.Width());
    }
  }

  lemma LeftOfCentre(f: real -> real, l: real, x1: real, m: real, x2: real, best: real, g: real, c: real, t: real,
                     w: real)
    requires Concave(f, 0.0, 1.0) && 0.0 <= l < x1 <= t <= m < x2 <= 1.0 && 0.0 <= f(l)
    requires 0.0 < w && m - l == 0.5 * w && 0.381966 * w <= x1 - l
    requires m - x1 <= 0.118034 * w && 0.118033 * w <= x2 - m
    requires Limit(best, g, c) && f(x1) <= f(x2) + g && f(m) <= best
    ensures f(t) <= c
  {
    RayFromLeft(f, 0.0, 1.0, l, x1, t);
    ExtrapolateLeft(f, 0.0, 1.0, t, m, x2, f(m) - f(x2));
    hide Concave, Limit;
    InnerShare(x1 - l, x2 - m, w, t - l, m - t, f(t), f(x1), f(x2), f(m), best, g, c);
  }

  lemma RightOfCentre(f: real -> real, x1: real, m: real, x2: real, r: real, best: real, g: real, c: real, t: real,
                      w: real)
    requires Concave(f, 0.0, 1.0) && 0.0 <= x1 < m <= t <= x2 < r <= 1.0 && 0.0 <= f(r)
    requires 0.0 < w && r - m == 0.5 * w && 0.381966 * w <= r - x2
    requires x2 - m <= 0.118034 * w && 0.118033 * w <= m - x1
    requires Limit(best, g, c) && f(x2) <= f(x1) + g && f(m) <= best
    ensures f(t) <= c
  {
    RayFromRight(f, 0.0, 1.0, t, x2, r);
    ExtrapolateRight(f, 0.0, 1.0, x1, m, t, f(m) - f(x1));
    hide Concave, Limit;
    InnerShare(r - x2, m - x1, w, r - t, t - m, f(t), f(x2), f(x1), f(m), best, g, c);
  }

  // ----- The whole search -----

  lemma {:induction false} SplitRefineIsSound(s: real -> real, f: real -> real, eps: real, total: real,
                                              st: Search, k: nat) returns (j: nat)
    requires Concave(f, 0.0, 1.0) && Observes(s, f, eps, 0.0, 1.0)
    requires Sound(s, f, eps, 0.0, 1.0, st, k) && k <= SPLIT_MAX_ITERS && st.b.Width() <= Shrunk(k, 1.0)
    ensures Sound(s, f, eps, 0.0, 1.0, SplitRefine(s, total, st), j) && j <= SPLIT_MAX_ITERS
    ensures SplitRefine(s, total, st).b.Width() <= Shrunk(j, 1.0)
    ensures SplitStops(s, total, SplitRefine(s, total, st).b) || j == SPLIT_MAX_ITERS
    decreases SPLIT_MAX_ITERS - k
  {
    hide Concave, Observes, SplitStops;
    j := k;
    if k < SPLIT_MAX_ITERS && !SplitStops(s, total, st.b) {
      StepIsSound(s, f, eps, 0.0, 1.0, st, k);
      j := SplitRefineIsSound(s, f, eps, total, Step(s, st), k + 1);
    }
  }

  /** Every stop but the score gap leaves a bracket at most a hundredth of the order wide. */
  lemma StopsAreNarrow(total: real, b: Bracket)
    requires MIN_TRADE_SIZE < total && 0.0 <= b.left < b.right <= 1.0
    requires b.Width() <= 0.001 || AmountSettled(total, b) || b.Width() <= Shrunk(SPLIT_MAX_ITERS, 1.0)
    ensures b.Width() <= 0.01
  {
    if b.Width() <= Shrunk(SPLIT_MAX_ITERS, 1.0) {
      assert Shrunk(14, 1.0) <= 0.01;
    } else if AmountSettled(total, b) {
      AmountIsNarrow(total, b.Width(), b.Mid());
    }
  }

  lemma AmountIsNarrow(total: real, w: real, mid: real)
    requires MIN_TRADE_SIZE < total && 0.0 <= mid <= 1.0 && total * w <= 0.01 * Max(Abs(total * mid), MIN_TRADE_SIZE)
    ensures w <= 0.01
  {
    NonNegative(total, 1.0 - mid);
    NonNegative(total, mid);
    Hundredth(total, w);
  }

  lemma Hundredth(total: real, w: real)
    requires 0.0 < total && total * w <= 0.01 * total
    ensures w <= 0.01
  {}

  /** What the floor of the gap test costs: how much further apart than a hundredth of the larger two scores may be
      when the test still calls them close. */
  ghost predicate FloorCosts(s: real -> real, cost: real) {
    && 0.0 <= cost
    && forall a, b :: 0.0 <= a <= 1.0 && 0.0 <= b <= 1.0 && WithinRelGap(s(a), s(b)) ==>
         Abs(s(a) - s(b)) <= 0.01 * Max(Abs(s(a)), Abs(s(b))) + cost
  }

  /** Of any scores it costs at most a hundredth of the floor. */
  lemma FloorCostsLittle(s: real -> real)
    ensures FloorCosts(s, 0.00000000000001)
  {}

  /** Scores in whole nanos lie a nano apart or not at all, so the floor never decides. */
  lemma FloorIdlesOnNanos(a: real, b: real, m: nat, n: nat)
    requires a == Nanos(m) && b == Nanos(n)
    ensures WithinRelGap(a, b) <==> Abs(a - b) <= 0.01 * Max(Abs(a), Abs(b))
  {}

  function Nanos(n: nat): real { n as real / 1000000000.0 }

  ghost predicate IsNanos(score: real) { exists n: nat :: score == Nanos(n) }

  lemma NanosCostNothing(s: real -> real)
    requires forall a :: 0.0 <= a <= 1.0 ==> IsNanos(s(a))
    ensures FloorCosts(s, 0.0)
  {
    forall a, b | 0.0 <= a <= 1.0 && 0.0 <= b <= 1.0 && WithinRelGap(s(a), s(b))
      ensures Abs(s(a) - s(b)) <= 0.01 * Max(Abs(s(a)), Abs(s(b))) + 0.0
    {
      var m: nat :| s(a) == Nanos(m);
      var n: nat :| s(b) == Nanos(n);
      FloorIdlesOnNanos(s(a), s(b), m, n);
    }
  }

  /** What the score-gap test says about the curve behind the scores. */
  lemma GapOnCurve(s1: real, s2: real, f1: real, f2: real, eps: real, best: real, cost: real)
    requires Abs(s1 - s2) <= 0.01 * Max(Abs(s1), Abs(s2)) + cost && 0.0 <= eps
    requires f1 - eps <= s1 <= f1 && f2 - eps <= s2 <= f2 && 0.0 <= f1 <= best && 0.0 <= f2 <= best
    ensures Abs(f1 - f2) <= 0.01 * best + (1.01 * eps + cost)
  {}

  /** When the gap test fires, the curve at the two probes differs by at most `g`. */
  ghost predicate GapWithin(s: real -> real, f: real -> real, b: Bracket, g: real) {
    WithinRelGap(s(b.x1), s(b.x2)) ==> Abs(f(b.x1) - f(b.x2)) <= g
  }

  lemma InsideIsGood(s: real -> real, f: real -> real, eps: real, total: real, st: Search, k: nat, best: real,
                     g: real, c: real, t: real)
    requires Scored(s, f, eps) && MIN_TRADE_SIZE < total && Limit(best, g, c) && GapWithin(s, f, st.b, g)
    requires Sound(s, f, eps, 0.0, 1.0, st, k) && k <= SPLIT_MAX_ITERS && st.b.left <= t <= st.b.right
    requires SplitStops(s, total, st.b) || st.b.Width() <= Shrunk(SPLIT_MAX_ITERS, 1.0)
    requires (forall p :: p in st.probes ==> s(p) + eps <= best) && s(st.b.Mid()) + eps <= best
    ensures f(t) <= c
  {
    var b := st.b;
    assert best <= 0.97 * c;
    hide Concave, Shrunk, Discarded, Limit;
    PlacedBounds(b, k);
    hide Placed;
    assert f(b.left) <= best && f(b.right) <= best && f(b.x1) <= best && f(b.x2) <= best && f(b.Mid()) <= best;
    ScoreNotNegative(f, b.left);
    ScoreNotNegative(f, b.right);
    if WithinRelGap(s(b.x1), s(b.x2)) {
      CloseProbesAreGood(f, b, k, best, g, c, t);
    } else {
      StopsAreNarrow(total, b);
      NarrowBracketIsGood(f, b.left, b.right, t);
    }
  }

  /** Whichever stop fires, no share is worth more than the limit that goes with the best score and the gap the test
      lets through. */
  lemma SplitBound(s: real -> real, f: real -> real, eps: real, total: real, best: real, g: real, c: real, t: real)
    requires Scored(s, f, eps) && MIN_TRADE_SIZE < total && 0.0 <= t <= 1.0
    requires Limit(best, g, c) && best + 1.62 * eps <= c && GapWithin(s, f, SplitEnd(s, total).b, g)
    requires s(Best(s, SplitProbes(s, total))) + eps <= best
    ensures f(t) <= c
  {
    hide Concave, SplitStops, Sound, Best, Observes, SplitEnd, GapWithin, Limit;
    NoiseNotNegative(s, f, eps);
    ScoreNotNegative(f, t);
    var st := SplitEnd(s, total);
    var j := SplitEndIsSound(s, f, eps, total);
    SplitProbesAre(s, total, st);
    BestOnlyImproves(s, st.probes, (st.b.left + st.b.right) * 0.5);
    if st.b.left <= t <= st.b.right {
      InsideIsGood(s, f, eps, total, st, j, best, g, c, t);
    } else {
      OutsideIsGood(s, f, eps, st, j, best - eps, t);
    }
  }

  /** The last bracket's probes are in range and were scored. */
  lemma LastProbes(s: real -> real, f: real -> real, eps: real, total: real)
    requires Scored(s, f, eps)
    ensures var b := SplitEnd(s, total).b; var best := s(Best(s, SplitProbes(s, total)));
            && 0.0 <= b.x1 <= 1.0 && 0.0 <= b.x2 <= 1.0 && s(b.x1) <= best && s(b.x2) <= best
  {
    hide Concave, SplitStops, Best, Observes, SplitEnd, Placed, Discarded;
    var st := SplitEnd(s, total);
    var j := SplitEndIsSound(s, f, eps, total);
    SplitProbesAre(s, total, st);
    BestOnlyImproves(s, st.probes, (st.b.left + st.b.right) * 0.5);
  }

  /** Whichever stop fires, the best score is at least 95.1% of the score at any share, less three times the
      noise and twice what the floor of the gap test costs. */
  lemma SplitIsNinetyFive(s: real -> real, f: real -> real, eps: real, total: real, cost: real, t: real)
    requires Scored(s, f, eps) && MIN_TRADE_SIZE < total && 0.0 <= t <= 1.0 && FloorCosts(s, cost)
    ensures s(Best(s, SplitProbes(s, total))) >= 0.951 * f(t) - 3.0 * eps - 2.0 * cost
  {
    hide Concave, SplitEnd, Best, SplitProbes, WithinRelGap;
    NoiseNotNegative(s, f, eps);
    LastProbes(s, f, eps, total);
    var b, best := SplitEnd(s, total).b, s(Best(s, SplitProbes(s, total)));
    ScoreNotNegative(f, b.x1);
    ScoreNotNegative(f, b.x2);
    if WithinRelGap(s(b.x1), s(b.x2)) {
      GapOnCurve(s(b.x1), s(b.x2), f(b.x1), f(b.x2), eps, best + eps, cost);
    }
    var eta := 1.01 * eps + cost;
    var g, c := 0.01 * (best + eps) + eta, 1.0515 * (best + eps) + 1.62 * eta;
    assert GapWithin(s, f, b, g);
    HundredthIsLimited(best + eps, eta);
    hide FloorCosts, GapWithin, Observes, Scored, Limit;
    assert Scored(s, f, eps);
    SplitBound(s, f, eps, total, best + eps, g, c, t);
  }

  lemma SplitEndIsSound(s: real -> real, f: real -> real, eps: real, total: real) returns (j: nat)
    requires Concave(f, 0.0, 1.0) && Observes(s, f, eps, 0.0, 1.0)
    ensures Sound(s, f, eps, 0.0, 1.0, SplitEnd(s, total), j) && j <= SPLIT_MAX_ITERS && |SplitEnd(s, total).probes| > 0
    ensures SplitStops(s, total, SplitEnd(s, total).b) || SplitEnd(s, total).b.Width() <= Shrunk(SPLIT_MAX_ITERS, 1.0)
  {
    hide Concave, SplitStops, Shrunk, Placed, Begin, Observes, Discarded;
    NoiseNotNegative(s, f, eps);
    BeginIsSound(s, f, eps, 0.0, 1.0);
    BeginIsWhole();
    j := SplitRefineIsSound(s, f, eps, total, Whole(), 0);
    hide Whole, SplitRefine;
  }

  lemma NoiseNotNegative(s: real -> real, f: real -> real, eps: real)
    requires Observes(s, f, eps, 0.0, 1.0)
    ensures 0.0 <= eps
  {}

  lemma OutsideIsGood(s: real -> real, f: real -> real, eps: real, st: Search, k: nat, best: real, t: real)
    requires Sound(s, f, eps, 0.0, 1.0, st, k) && 0.0 <= t <= 1.0 && (t < st.b.left || st.b.right < t)
    requires s(Best(s, st.probes)) <= best && 0.0 <= f(t) && 0.0 <= eps
    ensures f(t) <= best + 2.62 * eps
  {}

  lemma BeginIsWhole()
    ensures Whole() == Begin(0.0, 1.0) && Whole().b.Width() <= Shrunk(0, 1.0)
  {}

  // ----- The floor of the gap test -----

  /** With exact scores, every share that would score at least two thirds of the floor is beaten or matched to within
      5%. */
  lemma ExactSplitIsNinetyFive(s: real -> real, total: real, t: real)
    requires Scored(s, s, 0.0) && MIN_TRADE_SIZE < total && 0.0 <= t <= 1.0 && 0.00000000000064 <= s(t)
    ensures s(Best(s, SplitProbes(s, total))) >= 0.95 * s(t)
  {
    hide Concave, SplitEnd, Best, SplitProbes;
    LastProbes(s, s, 0.0, total);
    var b, best := SplitEnd(s, total).b, s(Best(s, SplitProbes(s, total)));
    ScoreNotNegative(s, b.x1);
    ScoreNotNegative(s, b.x2);
    var least := Max(best, 0.000000000000608);
    assert GapWithin(s, s, b, 0.016448 * least);
    WidestIsLimited(least);
    hide GapWithin, WithinRelGap, Scored, Limit;
    SplitBound(s, s, 0.0, total, least, 0.016448 * least, 1.05263 * least, t);
  }

  /** A score that rises to its peak between the lower probe and the centre, and falls about two fifths as fast. */
  function Hump(c: real): real -> real {
    x => if x <= 0.4447 then c * x else c * (0.4447 - 0.4021 * (x - 0.4447))
  }

  lemma HumpIsConcave(c: real)
    requires 0.0 <= c
    ensures Concave(Hump(c), 0.0, 1.0)
  {
    forall x, y, z | 0.0 <= x < y < z <= 1.0 ensures Chord(Hump(c), x, y, z) {
      HumpBelow(c, x);
      HumpBelow(c, z);
      if y <= 0.4447 {
        BelowLine(x, y, z, Hump(c)(x), Hump(c)(z), 0.0, c);
      } else {
        BelowLine(x, y, z, Hump(c)(x), Hump(c)(z), 0.62351387 * c, -0.4021 * c);
      }
    }
  }

  lemma HumpBelow(c: real, x: real)
    requires 0.0 <= c
    ensures Hump(c)(x) <= c * x && Hump(c)(x) <= 0.62351387 * c + (-0.4021 * c) * x
  {
    var y := c * x;
    assert c * (0.4447 - 0.4021 * (x - 0.4447)) == 0.62351387 * c - 0.4021 * y;
    assert (-0.4021 * c) * x == -0.4021 * y;
    if x <= 0.4447 {
      Scale(x, 0.4447, c);
      assert y <= 0.4447 * c;
    } else {
      Scale(0.4447, x, c);
      assert 0.4447 * c <= y;
    }
  }

  /** What the first four shares and the centre score. */
  lemma HumpScores(c: real)
    requires 0.0 < c <= 0.0000000000014347
    ensures var s := Hump(c); var x1, x2 := 0.3819660112501052, 0.6180339887498948;
            && s(0.0) == 0.0 && 0.0 < s(1.0) < 0.422465 * c && s(x1) < 0.422465 * c && s(x2) < 0.422465 * c
            && s(0.5) < 0.422465 * c && s(0.4447) == 0.4447 * c && WithinRelGap(s(x1), s(x2))
  {}

  /** At any height up to 0.638e-12 the floor can stop the search at once, and the centre then misses the peak by more
      than 5%. */
  lemma SubFloorScoresCanMiss(total: real, h: real) returns (s: real -> real, t: real)
    requires 0.0 < h <= 0.000000000000638
    ensures Scored(s, s, 0.0) && 0.0 <= t <= 1.0 && s(t) == h
    ensures s(Best(s, SplitProbes(s, total))) < 0.95 * h
  {
    hide Concave, Hump, WithinRelGap, SplitRefine, Best;
    var c := h / 0.4447;
    s, t := Hump(c), 0.4447;
    HumpIsConcave(c);
    HumpScores(c);
    var probes := [0.0, 1.0, 0.3819660112501052, 0.6180339887498948];
    assert Whole() == Search(Bracket(0.0, 0.3819660112501052, 0.6180339887498948, 1.0), probes);
    StopsAtOnce(s, total);
    SplitProbesAre(s, total, Whole());
    hide Whole;
    BestIsMaximum(s, probes + [(0.0 + 1.0) * 0.5]);
  }

  lemma StopsAtOnce(s: real -> real, total: real)
    requires WithinRelGap(s(0.3819660112501052), s(0.6180339887498948))
    ensures SplitEnd(s, total) == Whole()
  {
    hide WithinRelGap, AmountSettled;
  }

  ghost predicate MatchedFrom(s: real -> real, total: real, least: real, t: real) {
    Scored(s, s, 0.0) && 0.0 <= t <= 1.0 && least <= s(t) ==> s(Best(s, SplitProbes(s, total))) >= 0.95 * s(t)
  }

  /** The floor is harmless to scores from 0.64 of its own height up, and not to those from any height up to 0.638 of
      it. */
  lemma FloorMattersBelowItself(total: real, least: real)
    requires MIN_TRADE_SIZE < total && 0.0 < least
    ensures 0.00000000000064 <= least ==> forall s: real -> real, t: real :: MatchedFrom(s, total, least, t)
    ensures least <= 0.000000000000638 ==> exists s: real -> real, t: real :: !MatchedFrom(s, total, least, t)
  {
    hide Scored, SplitProbes, Best;
    if 0.00000000000064 <= least {
      forall s: real -> real, t: real ensures MatchedFrom(s, total, least, t) {
        if Scored(s, s, 0.0) && 0.0 <= t <= 1.0 && least <= s(t) {
          ExactSplitIsNinetyFive(s, total, t);
        }
      }
    } else if least <= 0.000000000000638 {
      var s, t := SubFloorScoresCanMiss(total, least);
      assert !MatchedFrom(s, total, least, t);
    }
  }
}
