/** A golden-section search as a state: the bracket and every point probed so far, in order. */
module GoldenSearch {
  import opened Reals
  import opened Concavity
  import opened Golden

  datatype Search = Search(b: Bracket, probes: seq<real>)

  function Begin(lo: real, hi: real): Search {
    var b := Fresh(lo, hi);
    Search(b, [lo, hi, b.x1, b.x2])
  }

  /** One iteration: narrow, and probe the one new point. */
  function Step(s: real -> real, st: Search): Search {
    var n := Narrow(s, st.b);
    Search(n, st.probes + [if s(st.b.x1) < s(st.b.x2) then n.x2 else n.x1])
  }

  /** The four variables of the loop after a turn. */
  lemma StepTurns(s: real -> real, left: real, x1: real, x2: real, right: real, probes: seq<real>)
    ensures Step(s, Search(Bracket(left, x1, x2, right), probes)) ==
      if s(x1) < s(x2) then
        var p := x1 + Part(right - x1); Search(Bracket(x1, x2, p, right), probes + [p])
      else
        var p := x2 - Part(x2 - left); Search(Bracket(left, p, x1, x2), probes + [p])
  {
    hide Part;
  }

  /** The first probe with the highest score: a later probe wins only by a strictly higher one. */
  function Best(s: real -> real, probes: seq<real>): real
    requires |probes| > 0
  {
    var last := probes[|probes| - 1];
    if |probes| == 1 then last
    else
      var x := Best(s, probes[..|probes| - 1]);
      if s(last) > s(x) then last else x
  }

  lemma {:induction false} BestIsMaximum(s: real -> real, probes: seq<real>)
    requires |probes| > 0
    ensures Best(s, probes) in probes
    ensures forall p :: p in probes ==> s(p) <= s(Best(s, probes))
  {
    var last := |probes| - 1;
    if last > 0 {
      BestIsMaximum(s, probes[..last]);
      assert forall p :: p in probes ==> p in probes[..last] || p == probes[last];
    }
  }

  lemma BestOfOne(s: real -> real, x: real)
    ensures Best(s, [x]) == x
  {}

  lemma BestOfOneMore(s: real -> real, probes: seq<real>, x: real)
    requires |probes| > 0
    ensures var b := Best(s, probes); Best(s, probes + [x]) == if s(x) > s(b) then x else b
  {
    assert (probes + [x])[..|probes|] == probes;
  }

  lemma {:induction false} BestIsFirst(s: real -> real, probes: seq<real>) returns (i: nat)
    requires |probes| > 0
    ensures i < |probes| && probes[i] == Best(s, probes)
    ensures forall j :: 0 <= j < i ==> s(probes[j]) < s(probes[i])
    ensures forall j :: i <= j < |probes| ==> s(probes[j]) <= s(probes[i])
  {
    var n := |probes| - 1;
    if n == 0 {
      i := 0;
    } else {
      i := BestIsFirst(s, probes[..n]);
      if s(probes[n]) > s(probes[i]) {
        forall j | 0 <= j < n ensures s(probes[j]) < s(probes[n]) {
          assert probes[..n][j] == probes[j];
        }
        i := n;
      }
    }
  }

  /** How much a discarded point can beat the best probe when scores carry an error of `eps`. */
  function Loss(eps: real): real { 2.62 * eps }

  /** Outside the bracket, no point of `[lo, hi]` beats the best probe by more than the loss. */
  ghost predicate Discarded(s: real -> real, f: real -> real, eps: real, lo: real, hi: real, st: Search)
    requires |st.probes| > 0
  {
    forall t :: lo <= t <= hi && (t < st.b.left || st.b.right < t)
      ==> f(t) <= s(Best(s, st.probes)) + Loss(eps)
  }

  /** What every state of a search over `[lo, hi]` satisfies after `k` iterations. */
  ghost predicate Sound(s: real -> real, f: real -> real, eps: real, lo: real, hi: real, st: Search, k: nat) {
    && Placed(st.b, k)
    && lo <= st.b.left && st.b.right <= hi
    && |st.probes| == k + 4
    && st.b.left in st.probes && st.b.x1 in st.probes && st.b.x2 in st.probes && st.b.right in st.probes
    && (forall p :: p in st.probes ==> lo <= p <= hi)
    && Discarded(s, f, eps, lo, hi, st)
  }

  /** The side a narrowing drops holds nothing better than the probe it is dropped for. */
  lemma DropIsSafe(s: real -> real, f: real -> real, eps: real, lo: real, hi: real, b: Bracket, k: nat, t: real)
    requires Concave(f, lo, hi) && Observes(s, f, eps, lo, hi)
    requires Placed(b, k) && k <= 14 && lo <= b.left && b.right <= hi
    requires if s(b.x1) < s(b.x2) then b.left <= t <= b.x1 else b.x2 <= t <= b.right
    ensures f(t) <= (if s(b.x1) < s(b.x2) then s(b.x1) else s(b.x2)) + Loss(eps)
  {
    hide Placed, Concave;
    ProbeSpacing(b, k);
    if s(b.x1) < s(b.x2) {
      ExtrapolateLeft(f, lo, hi, t, b.x1, b.x2, eps);
      RiseOverGoldenGap(b.x2 - b.x1, b.x1 - t, f(t) - f(b.x1), eps);
    } else {
      ExtrapolateRight(f, lo, hi, b.x1, b.x2, t, eps);
      RiseOverGoldenGap(b.x2 - b.x1, t - b.x2, f(t) - f(b.x2), eps);
    }
  }

  lemma BeginIsSound(s: real -> real, f: real -> real, eps: real, lo: real, hi: real)
    requires lo < hi && 0.0 <= eps
    ensures Sound(s, f, eps, lo, hi, Begin(lo, hi), 0)
  {
    FreshIsPlaced(lo, hi);
    PlacedBounds(Fresh(lo, hi), 0);
    BestIsMaximum(s, Begin(lo, hi).probes);
  }

  lemma BestOnlyImproves(s: real -> real, probes: seq<real>, x: real)
    requires |probes| > 0
    ensures s(Best(s, probes)) <= s(Best(s, probes + [x]))
    ensures forall p :: p in probes + [x] ==> s(p) <= s(Best(s, probes + [x]))
  {
    BestIsMaximum(s, probes);
    BestIsMaximum(s, probes + [x]);
    assert Best(s, probes) in probes + [x];
  }

  lemma StepKeepsDiscarded(s: real -> real, f: real -> real, eps: real, lo: real, hi: real, st: Search, k: nat)
    requires Concave(f, lo, hi) && Observes(s, f, eps, lo, hi)
    requires Sound(s, f, eps, lo, hi, st, k) && k < 14
    ensures Discarded(s, f, eps, lo, hi, Step(s, st))
  {
    hide Concave, Observes, Placed, Best;
    var n := Step(s, st);
    BestOnlyImproves(s, st.probes, n.probes[|st.probes|]);
    forall t | lo <= t <= hi && (t < n.b.left || n.b.right < t)
      ensures f(t) <= s(Best(s, n.probes)) + Loss(eps)
    {
      if st.b.left <= t <= st.b.right {
        DropIsSafe(s, f, eps, lo, hi, st.b, k, t);
      }
    }
  }

  lemma StepIsSound(s: real -> real, f: real -> real, eps: real, lo: real, hi: real, st: Search, k: nat)
    requires Concave(f, lo, hi) && Observes(s, f, eps, lo, hi)
    requires Sound(s, f, eps, lo, hi, st, k) && k < 14
    ensures Sound(s, f, eps, lo, hi, Step(s, st), k + 1)
    ensures 0.618033 * st.b.Width() <= Step(s, st).b.Width() <= 0.618034 * st.b.Width()
    ensures st.b.left <= Step(s, st).b.left && Step(s, st).b.right <= st.b.right
  {
    hide Concave, Observes, Placed, Discarded, Best, Part;
    var n := Step(s, st);
    StepKeepsDiscarded(s, f, eps, lo, hi, st, k);
    NarrowKeepsPlaced(s, st.b, k);
    PlacedBounds(n.b, k + 1);
    assert forall p :: p in st.probes ==> p in n.probes;
    assert forall p :: p in n.probes ==> p in st.probes || p == n.probes[k + 4];
  }
}
