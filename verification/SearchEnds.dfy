/** How many points either search scores at most, and how narrow it has become by the end. */
module SearchEnds {
  import opened Reals
  import opened Golden
  import opened GoldenSearch
  import opened ArbSearch
  import opened SplitSearch
  import SplitGuarantee

  lemma TwelveTurns(w: real)
    requires 0.0 <= w
    ensures Shrunk(12, w) <= 0.00311 * w && Shrunk(14, w) <= 0.00119 * w
  {
    assert Shrunk(1, w) <= 0.618034 * w;
    assert Shrunk(3, w) <= 0.23607 * w;
    assert Shrunk(5, w) <= 0.09018 * w;
    assert Shrunk(7, w) <= 0.03445 * w;
    assert Shrunk(9, w) <= 0.01316 * w;
    assert Shrunk(11, w) <= 0.005028 * w;
    assert Shrunk(12, w) <= 0.003108 * w;
  }

  lemma TurnShrinks(s: real -> real, st: Search, k: nat, w: real)
    requires Placed(st.b, k) && k < 14 && st.b.Width() <= Shrunk(k, w) && 0.0 <= st.b.left
    ensures Placed(Step(s, st).b, k + 1) && Step(s, st).b.Width() <= Shrunk(k + 1, w)
    ensures |Step(s, st).probes| == |st.probes| + 1 && st.b.left <= Step(s, st).b.left
    ensures 0.618033 * st.b.Width() <= Step(s, st).b.Width() && Step(s, st).b.right <= st.b.right
    ensures Step(s, st).b.left <= st.b.Mid()
  {
    NarrowKeepsPlaced(s, st.b, k);
    PlacedBounds(st.b, k);
    assert Step(s, st).b.left == st.b.left || Step(s, st).b.left == st.b.x1;
    hide Placed, Narrow;
  }

  /** After at least one turn: within a hundredth of its middle and not much less, or twelve turns in. */
  ghost predicate EndsInTime(r: Search, w: real) {
    && 5 <= |r.probes| <= 16
    && (r.b.Width() <= 0.01 * Max(Abs(0.5 * (r.b.left + r.b.right)), 0.001) ||
        (|r.probes| == 16 && r.b.Width() <= 0.00311 * w))
    && (|r.probes| == 5 || 0.0061 * r.b.left <= r.b.Width())
  }

  lemma {:induction false} RefineEndsInTime(s: real -> real, st: Search, k: nat, w: real)
    requires Placed(st.b, k) && k < 12 && |st.probes| == k + 4 && st.b.Width() <= Shrunk(k, w)
    requires 0.0 <= st.b.left && 0.0 <= w && (k > 0 ==> !NarrowEnough(st.b))
    ensures EndsInTime(Refine(s, st), w)
    decreases 12 - k
  {
    TurnShrinks(s, st, k, w);
    var next := Step(s, st);
    PlacedBounds(st.b, k);
    PlacedBounds(next.b, k + 1);
    hide Placed, Step, Shrunk;
    TwelveTurns(w);
    assert k > 0 ==> 0.01 * st.b.Mid() < st.b.Width();
    if k + 1 < 12 && !NarrowEnough(next.b) {
      RefineEndsInTime(s, next, k + 1, w);
      assert Refine(s, st) == Refine(s, next);
    } else {
      RefineLast(s, st, next);
      TurnIsNotTooNarrow(st.b, next.b, k);
      assert EndsInTime(next, w);
    }
  }

  lemma RefineLast(s: real -> real, st: Search, next: Search)
    requires next == Step(s, st) && TurnsLeft(st) > 0 && (NarrowEnough(next.b) || TurnsLeft(next) <= 0)
    ensures Refine(s, st) == next
  {
    hide Step, NarrowEnough;
  }

  lemma TurnIsNotTooNarrow(b: Bracket, n: Bracket, k: nat)
    requires 0.0 <= b.left <= n.left && n.left <= n.right <= b.right && 0.618033 * b.Width() <= n.Width()
    requires k > 0 ==> 0.01 * b.Mid() < b.Width()
    ensures k > 0 ==> 0.0061 * n.left <= n.Width()
  {}

  /** The arbitrageur's golden-section search scores between five and sixteen sizes. It ends with a bracket within a
      hundredth of its middle, no sooner than it must,
        or after sixteen sizes with 0.311% of the bracket it started on. */
  lemma GoldenEndsInTime(s: real -> real, lo: real, hi: real)
    requires 0.001 <= lo < hi
    ensures GoldenProbes(s, lo, hi) == Refine(s, Begin(lo, hi)).probes && EndsInTime(Refine(s, Begin(lo, hi)), hi - lo)
  {
    BeginFacts(lo, hi);
    BeginWidth(lo, hi);
    hide Refine, EndsInTime;
    RefineEndsInTime(s, Begin(lo, hi), 0, hi - lo);
  }

  // ----- The split -----

  /** The last bracket is a hundredth of the order's amount in its middle, or not much less. */
  ghost predicate NotTooFine(total: real, b: Bracket) { 0.0061 * Max(total * b.left, 0.001) <= total * b.Width() }

  /** Stopped by the size of the order or by the two scores, no sooner than it must, or down to 0.119% of the order. */
  ghost predicate SplitEndsInTime(s: real -> real, total: real, r: Search) {
    && 4 <= |r.probes| <= 18
    && (|| total * r.b.Width() <= 0.01 * Max(Abs(total * r.b.Mid()), 0.001)
        || WithinRelGap(s(r.b.x1), s(r.b.x2))
        || r.b.Width() <= 0.00119)
    && 0.0006 <= r.b.Width() && (|r.probes| == 4 || NotTooFine(total, r.b))
  }

  lemma StaysCoarse(total: real, b: Bracket, n: Bracket)
    requires 0.0 < total && !AmountSettled(total, b) && 0.0 <= n.left <= b.Mid() && 0.618033 * b.Width() <= n.Width()
    ensures NotTooFine(total, n)
  {
    Scale(n.left, b.Mid(), total);
    Scale(0.618033 * b.Width(), n.Width(), total);
    NonNegative(total, n.left);
    CoarseNumbers(total * n.left, total * b.Mid(), total * b.Width(), total * n.Width());
  }

  lemma CoarseNumbers(left: real, mid: real, width: real, next: real)
    requires 0.0 <= left <= mid && 0.01 * Max(Abs(mid), 0.001) < width && 0.618033 * width <= next
    ensures 0.0061 * Max(left, 0.001) <= next
  {}

  /** What a split search has kept up after `k` turns. */
  ghost predicate SplitSoFar(total: real, st: Search, k: nat) {
    && Placed(st.b, k) && k <= 14 && |st.probes| == k + 4 && st.b.Width() <= Shrunk(k, 1.0)
    && 0.0 <= st.b.left && 0.0006 <= st.b.Width() && (k == 0 || NotTooFine(total, st.b))
  }

  lemma StopsInTime(s: real -> real, total: real, st: Search, k: nat)
    requires SplitSoFar(total, st, k) && (k == 14 || SplitStops(s, total, st.b))
    ensures SplitEndsInTime(s, total, st)
  {
    hide WithinRelGap, NotTooFine, Placed;
    if k == 14 {
      TwelveTurns(1.0);
    }
    hide Shrunk;
  }

  lemma GoesOnInTime(s: real -> real, total: real, st: Search, k: nat)
    requires 0.0 < total && SplitSoFar(total, st, k) && k < 14 && !SplitStops(s, total, st.b)
    ensures SplitSoFar(total, Step(s, st), k + 1)
  {
    hide WithinRelGap, NotTooFine, Step, Shrunk, Placed;
    TurnShrinks(s, st, k, 1.0);
    StaysCoarse(total, st.b, Step(s, st).b);
    hide AmountSettled;
  }

  lemma {:induction false} SplitRefineEndsInTime(s: real -> real, total: real, st: Search, k: nat)
    requires 0.0 < total && SplitSoFar(total, st, k)
    ensures SplitEndsInTime(s, total, SplitRefine(s, total, st))
    decreases 14 - k
  {
    assert k <= 14 && |st.probes| == k + 4;
    hide SplitSoFar, SplitStops, SplitEndsInTime, Step;
    if k < 14 && !SplitStops(s, total, st.b) {
      GoesOnInTime(s, total, st, k);
      SplitRefineEndsInTime(s, total, Step(s, st), k + 1);
    } else {
      StopsInTime(s, total, st, k);
    }
  }

  /** The router's split search scores at most nineteen shares, the centre included, and ends by one of its two tests on
      what it quoted or with a bracket of at most 0.119% of the order. */
  lemma SplitEndsNarrow(s: real -> real, total: real)
    requires 0.0 < total
    ensures SplitEndsInTime(s, total, SplitEnd(s, total)) && |SplitProbes(s, total)| <= 19
  {
    WholeFacts();
    hide Whole, SplitRefine, SplitEndsInTime, Placed;
    SplitRefineEndsInTime(s, total, Whole(), 0);
    CentreComesLast(s, total);
  }

  lemma BeginFacts(lo: real, hi: real)
    requires lo < hi
    ensures var st := Begin(lo, hi); Placed(st.b, 0) && st.b.left == lo && st.b.Width() == hi - lo && |st.probes| == 4
  {
    FreshIsPlaced(lo, hi);
  }

  lemma WholeFacts()
    ensures Placed(Whole().b, 0) && Whole().b.left == 0.0 && Whole().b.Width() == 1.0 == Shrunk(0, 1.0)
    ensures |Whole().probes| == 4
  {
    SplitGuarantee.BeginIsWhole();
    hide Whole, Begin, Placed;
    BeginFacts(0.0, 1.0);
  }

  lemma CentreComesLast(s: real -> real, total: real)
    requires SplitEndsInTime(s, total, SplitEnd(s, total))
    ensures |SplitProbes(s, total)| <= 19
  {
    hide SplitEnd, AmountSettled, WithinRelGap;
  }
}
