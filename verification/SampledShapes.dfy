/** What the runtime shape check sees: every quote a search was decided by, and nothing it was not. */
module SampledShapes {
  import opened Reals
  import opened Words
  import opened Nano
  import opened PoolModel
  import opened NormalizerPool
  import opened PoolCurve
  import opened Golden
  import opened GoldenSearch
  import opened ArbSearch
  import opened SplitSearch
  import opened ShapeCheck
  import opened Arbitrage
  import opened Arbitrageur
  import opened Routing
  import opened OrderRouter
  import opened ShapeDepth
  import opened ShapeDeep

  // ----- A search is decided by its probes -----

  ghost predicate Agree(s: real -> real, r: real -> real, probes: seq<real>) {
    forall p :: p in probes ==> s(p) == r(p)
  }

  lemma {:induction false} SameBest(s: real -> real, r: real -> real, probes: seq<real>)
    requires |probes| > 0 && Agree(s, r, probes)
    ensures Best(s, probes) == Best(r, probes)
  {
    if |probes| > 1 {
      var init := probes[..|probes| - 1];
      assert forall p :: p in init ==> p in probes;
      SameBest(s, r, init);
      BestIsMaximum(s, init);
    }
  }

  lemma {:induction false} SameExpansion(s: real -> real, r: real -> real, lo: real, mid: real, hi: real, top: real,
                                         probes: seq<real>)
    requires |probes| >= 2 && mid in probes && hi in probes
    requires Agree(s, r, Expand(s, lo, mid, hi, top, probes).probes)
    ensures Expand(r, lo, mid, hi, top, probes) == Expand(s, lo, mid, hi, top, probes)
    ensures probes <= Expand(s, lo, mid, hi, top, probes).probes
    decreases BRACKET_MAX_STEPS + 2 - |probes|
  {
    ExpansionExtends(s, lo, mid, hi, top, probes);
    assert forall p :: p in probes ==> p in Expand(s, lo, mid, hi, top, probes).probes;
    var next := Min(hi * 2.0, top);
    if !(s(hi) <= s(mid) || top <= hi) && |probes| - 2 < BRACKET_MAX_STEPS && next > hi {
      SameExpansion(s, r, mid, hi, next, top, probes + [next]);
    }
  }

  lemma {:induction false} ExpansionExtends(s: real -> real, lo: real, mid: real, hi: real, top: real,
                                            probes: seq<real>)
    requires |probes| >= 2
    ensures probes <= Expand(s, lo, mid, hi, top, probes).probes
    decreases BRACKET_MAX_STEPS + 2 - |probes|
  {
    var next := Min(hi * 2.0, top);
    if !(s(hi) <= s(mid) || top <= hi) && |probes| - 2 < BRACKET_MAX_STEPS && next > hi {
      ExpansionExtends(s, mid, hi, next, top, probes + [next]);
    }
  }

  lemma SameBracket(s: real -> real, r: real -> real, start: real, min: real, max: real)
    requires Agree(s, r, BracketMaximum(s, start, min, max).probes)
    ensures BracketMaximum(r, start, min, max) == BracketMaximum(s, start, min, max)
  {
    var lo, top := Floor(min), Ceiling(min, max);
    var m := Clamp(start, lo, top);
    var hi := Min(m * 2.0, top);
    BracketDoubles(s, start, min, max);
    assert s(m) == r(m);
    if 0.0 < s(m) && m < hi {
      SameExpansion(s, r, lo, m, hi, top, [m, hi]);
      hide Expand;
    }
  }

  /** Both inner probes were scored. */
  ghost predicate Scored2(st: Search) { st.b.x1 in st.probes && st.b.x2 in st.probes }

  lemma StepScores(s: real -> real, st: Search)
    requires Scored2(st)
    ensures Scored2(Step(s, st)) && st.probes <= Step(s, st).probes
  {}

  lemma SameStep(s: real -> real, r: real -> real, st: Search)
    requires Scored2(st) && Agree(s, r, st.probes)
    ensures Step(r, st) == Step(s, st)
  {}

  lemma {:induction false} SameRefinement(s: real -> real, r: real -> real, st: Search)
    requires Scored2(st) && Agree(s, r, Refine(s, st).probes)
    ensures Refine(r, st) == Refine(s, st)
    decreases TurnsLeft(st)
  {
    RefinementExtends(s, st);
    assert forall p :: p in st.probes ==> p in Refine(s, st).probes;
    SameStep(s, r, st);
    StepScores(s, st);
    hide Step, NarrowEnough;
    if TurnsLeft(st) > 0 && !NarrowEnough(Step(s, st).b) {
      assert Refine(s, st) == Refine(s, Step(s, st));
      SameRefinement(s, r, Step(s, st));
    }
  }

  lemma {:induction false} RefinementExtends(s: real -> real, st: Search)
    ensures st.probes <= Refine(s, st).probes
    decreases TurnsLeft(st)
  {
    hide NarrowEnough;
    if TurnsLeft(st) > 0 && !NarrowEnough(Step(s, st).b) {
      RefinementExtends(s, Step(s, st));
    }
  }

  lemma SameGolden(s: real -> real, r: real -> real, lo: real, hi: real)
    requires Agree(s, r, GoldenProbes(s, lo, hi))
    ensures GoldenProbes(r, lo, hi) == GoldenProbes(s, lo, hi)
  {
    var left, right := Max(Min(lo, hi), 0.0), Max(Max(hi, lo), MIN_INPUT);
    if left < right {
      SameRefinement(s, r, Begin(left, right));
      hide Refine;
    }
  }

  /** Two objectives that agree on what the search sampled of one of them get the same samples and the same size:
      nothing the search was decided by escapes the samples. */
  lemma SearchIsDecidedBySamples(s: real -> real, r: real -> real, start: real, min: real)
    requires Agree(s, r, SearchProbes(s, start, min))
    ensures SearchProbes(r, start, min) == SearchProbes(s, start, min)
    ensures SearchedSize(r, start, min, MAX_INPUT_AMOUNT) == SearchedSize(s, start, min, MAX_INPUT_AMOUNT)
    ensures SearchedSize(s, start, min, MAX_INPUT_AMOUNT) in SearchProbes(s, start, min)
  {
    hide BracketMaximum, GoldenProbes, Best;
    var b := BracketMaximum(s, start, min, MAX_INPUT_AMOUNT);
    assert forall p :: p in b.probes ==> p in SearchProbes(s, start, min);
    assert forall p :: p in GoldenProbes(s, b.lo, b.hi) ==> p in SearchProbes(s, start, min);
    SameBracket(s, r, start, min, MAX_INPUT_AMOUNT);
    SameGolden(s, r, b.lo, b.hi);
    SameBest(s, r, GoldenProbes(s, b.lo, b.hi));
    BestIsMaximum(s, GoldenProbes(s, b.lo, b.hi));
  }

  // ----- The same for a split -----

  lemma {:induction false} SameSplitRefinement(s: real -> real, r: real -> real, total: real, st: Search)
    requires Scored2(st) && Agree(s, r, SplitRefine(s, total, st).probes)
    ensures SplitRefine(r, total, st) == SplitRefine(s, total, st)
    decreases SplitTurnsLeft(st)
  {
    RefineKeepsProbes(s, total, st);
    assert forall p :: p in st.probes ==> p in SplitRefine(s, total, st).probes;
    SameStep(s, r, st);
    StepScores(s, st);
    assert SplitStops(s, total, st.b) <==> SplitStops(r, total, st.b);
    hide Step, SplitStops;
    if SplitTurnsLeft(st) > 0 && !SplitStops(s, total, st.b) {
      assert SplitRefine(s, total, st) == SplitRefine(s, total, Step(s, st));
      SameSplitRefinement(s, r, total, Step(s, st));
    }
  }

  lemma SameSplitProbes(s: real -> real, r: real -> real, total: real)
    requires Agree(s, r, SplitProbes(s, total))
    ensures SplitProbes(r, total) == SplitProbes(s, total) &&
            Best(r, SplitProbes(r, total)) == Best(s, SplitProbes(s, total))
  {
    assert Scored2(Whole());
    hide SplitRefine, Best, Whole;
    var st := SplitEnd(s, total);
    SplitProbesAre(s, total, st);
    assert forall p :: p in st.probes ==> p in SplitProbes(s, total);
    SameSplitRefinement(s, r, total, Whole());
    SplitProbesAre(r, total, st);
    SameBest(s, r, SplitProbes(s, total));
  }

  lemma QuoteAt(f: real -> QuotePoint, probes: seq<real>, i: nat)
    requires i < |probes|
    ensures Quotes(f, probes)[i] == f(probes[i]) && probes[i] in probes
  {}

  /** Two ways to quote splits that agree on the shares one of them was asked get the same split. */
  lemma SplitIsDecidedBySamples(f: real -> QuotePoint, g: real -> QuotePoint, total: real)
    requires forall share :: share in SplitProbes(Scores(f), total) ==> f(share) == g(share)
    ensures SplitProbes(Scores(g), total) == SplitProbes(Scores(f), total)
    ensures BestSplit(g, total) == BestSplit(f, total) && Asked(g, total) == Asked(f, total)
  {
    hide SplitProbes, Best;
    var s, r := Scores(f), Scores(g);
    var probes := SplitProbes(s, total);
    forall p | p in probes ensures s(p) == r(p) {
      assert f(p) == g(p);
    }
    SameSplitProbes(s, r, total);
    BestIsMaximum(s, probes);
    forall i | 0 <= i < |probes| ensures Quotes(f, probes)[i] == Quotes(g, probes)[i] {
      QuoteAt(f, probes, i);
      QuoteAt(g, probes, i);
      var share := probes[i];
      assert share in probes;
      assert f(share) == g(share);
      assert Quotes(f, probes)[i] == f(share);
      assert Quotes(g, probes)[i] == g(share);
    }
    assert Quotes(f, probes) == Quotes(g, probes);
  }

  // ----- What the submission is asked -----

  /** The parts of the order the search offered the submission. */
  function Offered(splits: real -> QuotePoint, total: real): seq<real> {
    var probes := SplitProbes(Scores(splits), total);
    seq(|probes|, i requires 0 <= i < |probes| => SubPart(total, Clamp(probes[i], 0.0, 1.0)))
  }

  lemma KeptFromEither(a: seq<(real, real)>, b: seq<(real, real)>, minInput: real)
    requires |a| == |b| && forall i :: 0 <= i < |a| ==> a[i].0 == b[i].0 && (a[i].0 > minInput ==> a[i].1 == b[i].1)
    ensures KeptSet(a, minInput) == KeptSet(b, minInput)
  {
    hide ToNano;
    forall s | s in KeptSet(a, minInput) ensures s in KeptSet(b, minInput) {
      var i :| 0 <= i < |a| && Keeps(a[i], minInput) && s == ToSample(a[i]);
      assert b[i] == a[i] && b[i] in b;
    }
    forall s | s in KeptSet(b, minInput) ensures s in KeptSet(a, minInput) {
      var i :| 0 <= i < |b| && Keeps(b[i], minInput) && s == ToSample(b[i]);
      assert a[i] == b[i] && a[i] in a;
    }
  }

  /** What the router checks of an order is the submission's own quotes for every part it was offered. */
  lemma AskedAreOwnQuotes(v: Venues, total: real, verdict: Verdict)
    ensures Judged(Asked(BuySplits(v, total), total), MIN_TRADE_SIZE, verdict) <==>
            Judged(BuyCurve(v.sub, v.subState, Offered(BuySplits(v, total), total)), MIN_TRADE_SIZE, verdict)
    ensures Judged(Asked(SellSplits(v, total), total), MIN_TRADE_SIZE, verdict) <==>
            Judged(SellCurve(v.sub, v.subState, Offered(SellSplits(v, total), total)), MIN_TRADE_SIZE, verdict)
  {
    hide QuoteBuyX, QuoteSellX, SplitProbes, KeptSet, Merges, Judges, SubPart, NormPart, Clamp;
    KeptFromEither(Asked(BuySplits(v, total), total),
                   BuyCurve(v.sub, v.subState, Offered(BuySplits(v, total), total)), MIN_TRADE_SIZE);
    KeptFromEither(Asked(SellSplits(v, total), total),
                   SellCurve(v.sub, v.subState, Offered(SellSplits(v, total), total)), MIN_TRADE_SIZE);
    hide Asked, BuyCurve, SellCurve, Offered;
  }

  // ----- There is always a verdict -----

  lemma LastInput(samples: set<Sample>) returns (s: Sample)
    requires samples != {}
    ensures s in samples && forall t :: t in samples ==> t.input <= s.input
  {
    s :| s in samples;
    if samples != {s} {
      var rest := samples - {s};
      var t := LastInput(rest);
      assert samples == rest + {s};
      if s.input < t.input {
        s := t;
      }
    }
  }

  lemma {:induction false} MergedExists(samples: set<Sample>) returns (c: seq<Sample>)
    ensures Merges(samples, c)
    decreases |samples|
  {
    hide Merges;
    if samples == {} {
      c := [];
      assert Elements([]) == {};
      NothingMerges([]);
    } else {
      var s := LastInput(samples);
      var rest := samples - {s};
      c := MergedExists(rest);
      AbsorbMerges(rest, c, s);
      assert rest + {s} == samples;
      c := Absorb(c, s);
    }
  }

  lemma {:induction false} FirstDropExists(c: seq<Sample>, n: nat) returns (i: nat)
    requires n < |c| && exists k :: 0 <= k < n && Drops(c, k)
    ensures FirstDrop(c, i)
    decreases n
  {
    if k :| 0 <= k < n - 1 && Drops(c, k) {
      i := FirstDropExists(c, n - 1);
    } else {
      i := n - 1;
    }
  }

  lemma {:induction false} FirstRiseExists(c: seq<Sample>, n: nat) returns (j: nat, i: nat)
    requires !NoRiseBefore(c, n)
    ensures RisesAt(c, j, i) && NoRiseBefore(c, i)
    decreases n
  {
    hide RisesAt;
    if n > 0 && !NoRiseBefore(c, n - 1) {
      j, i := FirstRiseExists(c, n - 1);
    } else {
      j, i :| i < n && RisesAt(c, j, i);
    }
  }

  lemma VerdictExists(points: seq<(real, real)>, minInput: real) returns (v: Verdict)
    ensures Judged(points, minInput, v)
  {
    var c := MergedExists(KeptSet(points, minInput));
    hide Merges, KeptSet, RisesAt, Drops, NoRiseBefore;
    if !NoDrop(c) {
      var i := FirstDropExists(c, |c| - 1);
      v := NotMonotone(i);
    } else if !NoRiseBefore(c, |c|) {
      var j, i := FirstRiseExists(c, |c|);
      v := NotConcave(j, i);
    } else {
      v := Fine;
    }
    assert Judges(c, v);
  }

  lemma FineIfNothingElse(points: seq<(real, real)>, minInput: real)
    ensures Judged(points, minInput, Fine) <==> forall v :: Judged(points, minInput, v) ==> v.Fine?
  {
    hide Judged;
    var v := VerdictExists(points, minInput);
    forall w | Judged(points, minInput, w) && Judged(points, minInput, Fine) ensures w.Fine? {
      VerdictIgnoresOrder(points, points, minInput, w, Fine);
    }
  }

  // ----- The verdict in figures -----

  /** An output falls by more than four nanos to the next sample. */
  ghost predicate FallsAt(c: seq<Sample>, i: nat) { i + 1 < |c| && c[i + 1].output + 4 < c[i].output }

  /** A segment of at least a million nanos. */
  ghost predicate IsWide(c: seq<Sample>, i: nat) { i + 1 < |c| && c[i].input + 1000000 <= c[i + 1].input }

  /** What an output gains on the one before it; a small fall counts for nothing. */
  function Gained(c: seq<Sample>, i: nat): nat
    requires i + 1 < |c|
  {
    if c[i].output <= c[i + 1].output then c[i + 1].output - c[i].output else 0
  }

  /** From one wide segment to the next the slope rises, with four nanos allowed on either. */
  ghost predicate BendsUp(c: seq<Sample>, j: nat, i: nat) {
    && j < i && IsWide(c, j) && IsWide(c, i) && (forall k :: j < k < i ==> !IsWide(c, k))
    && (Gained(c, i) - 4) * (c[j + 1].input - c[j].input) > (Gained(c, j) + 4) * (c[i + 1].input - c[i].input)
  }

  lemma FallsAreDrops(c: seq<Sample>, i: nat)
    requires Apart(c) && i + 1 < |c| && forall k :: 0 <= k < |c| ==> c[k].output + 4 <= U64_MAX
    ensures FallsAt(c, i) <==> Drops(c, i)
  {}

  lemma BendsAreRises(c: seq<Sample>, j: nat, i: nat)
    requires Apart(c) && forall k :: 0 <= k < |c| ==> c[k].output + 4 <= U64_MAX
    ensures BendsUp(c, j, i) <==> RisesAt(c, j, i)
  {
    if BendsUp(c, j, i) || RisesAt(c, j, i) {
      assert forall k :: j <= k <= i ==> (IsWide(c, k) <==> Wide(c, k));
      SteepOrNot(Dy(c, i), Dx(c, j), Dy(c, j), Dx(c, i));
    }
  }

  lemma SteepOrNot(dyi: nat, dxj: nat, dyj: nat, dxi: nat)
    requires dyj + 4 <= U64_MAX
    ensures (dyi - 4) * dxj > (dyj + 4) * dxi <==>
            SaturatingSub(dyi, UNCERTAINTY) * dxj > SaturatingAdd(dyj, UNCERTAINTY) * dxi
  {
    NonNegativeProduct(dyj + 4, dxi);
    if dyi < 4 {
      NonNegativeProduct(4 - dyi, dxj);
      assert (dyi - 4) * dxj == -((4 - dyi) * dxj);
    }
  }

  lemma NonNegativeProduct(a: nat, b: nat)
    ensures 0 <= a * b
  {}

  /** Merged samples short of saturation are reported as not monotone exactly when an output falls by more than four
      nanos, and otherwise as not concave exactly when a slope rises by more than the slack. */
  lemma VerdictInFigures(c: seq<Sample>, v: Verdict)
    requires Apart(c) && Judges(c, v) && forall k :: 0 <= k < |c| ==> c[k].output + 4 <= U64_MAX
    ensures v.NotMonotone? <==> exists i: nat :: FallsAt(c, i)
    ensures v.NotConcave? <==>
              (forall i: nat :: !FallsAt(c, i)) && exists j: nat, i: nat :: BendsUp(c, j, i)
  {
    forall i: nat | i + 1 < |c| ensures FallsAt(c, i) <==> Drops(c, i) {
      FallsAreDrops(c, i);
    }
    forall j: nat, i: nat ensures BendsUp(c, j, i) <==> RisesAt(c, j, i) {
      BendsAreRises(c, j, i);
    }
    RisesInRange(c);
    hide RisesAt, BendsUp, Drops;
  }

  lemma RisesInRange(c: seq<Sample>)
    ensures forall j: nat, i: nat :: RisesAt(c, j, i) ==> i < |c|
    ensures forall i: nat :: FallsAt(c, i) ==> i + 1 < |c|
  {}

  // ----- Who is stopped -----

  /** The submission passes a step exactly when the check finds nothing in what either search sampled. */
  lemma StepPassesExactly(p: Program, st: PoolState, price: real, drawn: real)
    ensures var buys := SearchProbes(BuyProfit(p, st, price), StartY(drawn), MinBuyInputY());
            var sells := SearchProbes(SellProfit(p, st, price), StartX(drawn, price), MinSellInputX(price));
            ShapesPass(p, st, price, drawn) <==>
              (p.name == "submission" ==>
                 && (forall v: Verdict :: Judged(BuyCurve(p, st, buys), MinBuyInputY(), v) ==> v.Fine?)
                 && (forall v: Verdict :: Judged(SellCurve(p, st, sells), MinSellInputX(price), v) ==> v.Fine?))
  {
    hide Judged, SearchProbes, QuoteBuyX, QuoteSellX, StartX, StartY, MinBuyInputY, MinSellInputX, BuyCurve, SellCurve;
    var buys := SearchProbes(BuyProfit(p, st, price), StartY(drawn), MinBuyInputY());
    var sells := SearchProbes(SellProfit(p, st, price), StartX(drawn, price), MinSellInputX(price));
    FineIfNothingElse(BuyCurve(p, st, buys), MinBuyInputY());
    FineIfNothingElse(SellCurve(p, st, sells), MinSellInputX(price));
  }

  /** A constant-product submission, shallow for every size the searches sample, is never stopped in a step. */
  lemma ShallowPoolPassesStep(p: Program, st: PoolState, price: real, drawn: real)
    requires IsNormalizer(p) && Quoting(st)
    requires ToNano(st.x) + UNCERTAINTY <= U64_MAX && ToNano(st.y) + UNCERTAINTY <= U64_MAX
    requires forall y :: y in SearchProbes(BuyProfit(p, st, price), StartY(drawn), MinBuyInputY()) ==>
               Shallow(ToNano(st.y), 10000 - FeeOf(st), 4, ToNano(y))
    requires forall x :: x in SearchProbes(SellProfit(p, st, price), StartX(drawn, price), MinSellInputX(price)) ==>
               Shallow(ToNano(st.x), 10000 - FeeOf(st), 4, ToNano(x))
    ensures ShapesPass(p, st, price, drawn)
  {
    hide Judged, SearchProbes, QuoteBuyX, QuoteSellX, StartX, StartY, MinBuyInputY, MinSellInputX, BuyCurve, SellCurve;
    hide Shallow, IsNormalizer, FeeOf, ToNano, Quoting, BuyProfit, SellProfit;
    var buys := SearchProbes(BuyProfit(p, st, price), StartY(drawn), MinBuyInputY());
    var sells := SearchProbes(SellProfit(p, st, price), StartX(drawn, price), MinSellInputX(price));
    var b := VerdictExists(BuyCurve(p, st, buys), MinBuyInputY());
    ShallowBuysPassTheCheck(p, st, buys, MinBuyInputY(), 4, b);
    var c := VerdictExists(SellCurve(p, st, sells), MinSellInputX(price));
    SellsPassTheCheck(p, st, sells, MinSellInputX(price), 4, c);
  }

  lemma ShallowBelow(a: nat, keep: nat, x: nat, y: nat)
    requires Shallow(a, keep, 4, y) && x <= y
    ensures Shallow(a, keep, 4, x)
  {}

  lemma OfferedAtMostTotal(splits: real -> QuotePoint, total: real, x: real)
    requires 0.0 <= total && x in Offered(splits, total)
    ensures ToNano(x) <= ToNano(total)
  {
    hide SplitProbes;
    var probes := SplitProbes(Scores(splits), total);
    var i :| 0 <= i < |probes| && x == SubPart(total, Clamp(probes[i], 0.0, 1.0));
    NonNegative(total, 1.0 - Clamp(probes[i], 0.0, 1.0));
    NanoGrows(x, total);
  }

  lemma ShallowPoolPassesBuy(v: Venues, total: real)
    requires IsNormalizer(v.sub) && Quoting(v.subState) && 0.0 <= total
    requires ToNano(v.subState.x) + UNCERTAINTY <= U64_MAX && ToNano(v.subState.y) + UNCERTAINTY <= U64_MAX
    requires Shallow(ToNano(v.subState.y), 10000 - FeeOf(v.subState), 4, ToNano(total))
    ensures Judged(Asked(BuySplits(v, total), total), MIN_TRADE_SIZE, Fine)
  {
    var st := v.subState;
    assert FeeOf(st) <= 10000;
    hide Judged, BuyCurve, SellCurve, Shallow, IsNormalizer, FeeOf, ToNano, Quoting, Asked, Offered, BuySplits,
         SellSplits;
    var sizes := Offered(BuySplits(v, total), total);
    forall x | x in sizes ensures Shallow(ToNano(st.y), 10000 - FeeOf(st), 4, ToNano(x)) {
      OfferedAtMostTotal(BuySplits(v, total), total, x);
      ShallowBelow(ToNano(st.y), 10000 - FeeOf(st), ToNano(x), ToNano(total));
    }
    var c := VerdictExists(BuyCurve(v.sub, st, sizes), MIN_TRADE_SIZE);
    ShallowBuysPassTheCheck(v.sub, st, sizes, MIN_TRADE_SIZE, 4, c);
    AskedAreOwnQuotes(v, total, Fine);
  }

  lemma ShallowPoolPassesSell(v: Venues, total: real)
    requires IsNormalizer(v.sub) && Quoting(v.subState) && 0.0 <= total
    requires ToNano(v.subState.x) + UNCERTAINTY <= U64_MAX && ToNano(v.subState.y) + UNCERTAINTY <= U64_MAX
    requires Shallow(ToNano(v.subState.x), 10000 - FeeOf(v.subState), 4, ToNano(total))
    ensures Judged(Asked(SellSplits(v, total), total), MIN_TRADE_SIZE, Fine)
  {
    var st := v.subState;
    assert FeeOf(st) <= 10000;
    hide Judged, BuyCurve, SellCurve, Shallow, IsNormalizer, FeeOf, ToNano, Quoting, Asked, Offered, BuySplits,
         SellSplits;
    var sizes := Offered(SellSplits(v, total), total);
    forall x | x in sizes ensures Shallow(ToNano(st.x), 10000 - FeeOf(st), 4, ToNano(x)) {
      OfferedAtMostTotal(SellSplits(v, total), total, x);
      ShallowBelow(ToNano(st.x), 10000 - FeeOf(st), ToNano(x), ToNano(total));
    }
    var c := VerdictExists(SellCurve(v.sub, st, sizes), MIN_TRADE_SIZE);
    SellsPassTheCheck(v.sub, st, sizes, MIN_TRADE_SIZE, 4, c);
    AskedAreOwnQuotes(v, total, Fine);
  }

  /** And one that is shallow for the whole of an order is never stopped by it, whatever the other pool. */
  lemma ShallowPoolPassesOrder(v: Venues, order: Order, price: real)
    requires 0.0 < price && 0.0 <= order.size && IsNormalizer(v.sub) && Quoting(v.subState)
    requires ToNano(v.subState.x) + UNCERTAINTY <= U64_MAX && ToNano(v.subState.y) + UNCERTAINTY <= U64_MAX
    requires if order.isBuy then Shallow(ToNano(v.subState.y), 10000 - FeeOf(v.subState), 4, ToNano(order.size))
             else Shallow(ToNano(v.subState.x), 10000 - FeeOf(v.subState), 4, ToNano(order.size / price))
    ensures SplitPasses(v, order, price)
  {
    hide Judged, Shallow, IsNormalizer, FeeOf, ToNano, Quoting, Asked, BuySplits, SellSplits;
    if order.isBuy {
      ShallowPoolPassesBuy(v, order.size);
    } else {
      ShallowPoolPassesSell(v, order.size / price);
    }
  }
}
