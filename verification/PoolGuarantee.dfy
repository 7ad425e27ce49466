/** The search guarantees on real pools: quotes that are a concave curve seen with a small error. */
module PoolGuarantee {
  import opened Reals
  import opened Concavity
  import opened Codec
  import opened Nano
  import opened PoolModel
  import opened GoldenSearch
  import opened SplitSearch
  import opened SplitGuarantee
  import opened Routing

  /** Quotes that follow a rising concave curve through the origin, up to `eps` below it. */
  ghost predicate Follows(q: real -> real, f: real -> real, eps: real, top: real) {
    && Observes(q, f, eps, 0.0, top) && Concave(f, 0.0, top) && f(0.0) == 0.0
    && forall x, y :: 0.0 <= x <= y <= top ==> f(x) <= f(y)
  }

  function BuyQuotes(p: Program, st: PoolState): real -> real { y => QuoteBuyX(p, st, y) }
  function SellQuotes(p: Program, st: PoolState): real -> real { x => QuoteSellX(p, st, x) }

  // ----- The curve of a split -----

  /** What a split would pay on the two curves. */
  function SplitCurve(fs: real -> real, fn: real -> real, total: real): real -> real {
    share => fs(SubPart(total, share)) + fn(NormPart(total, share))
  }

  /** The error of a leg: the quote's own, or the whole of a leg too small to be quoted. */
  function LegNoise(f: real -> real, eps: real): real { Max(eps, f(MIN_TRADE_SIZE)) }

  lemma CutOffIsObserved(q: real -> real, f: real -> real, eps: real, top: real, x: real)
    requires Follows(q, f, eps, top) && MIN_TRADE_SIZE <= top && 0.0 <= x <= top
    ensures f(x) - LegNoise(f, eps) <= CutOff(x, q(x)) <= f(x)
    ensures 0.0 <= eps && 0.0 <= f(x)
  {
    hide Concave;
    assert f(0.0) <= f(x);
    if x <= MIN_TRADE_SIZE {
      assert f(x) <= f(MIN_TRADE_SIZE);
    }
  }

  lemma SplitCurveIsConcave(fs: real -> real, fn: real -> real, total: real)
    requires Concave(fs, 0.0, total) && Concave(fn, 0.0, total) && 0.0 < total
    ensures Concave(SplitCurve(fs, fn, total), 0.0, 1.0)
  {
    forall x, y, z | 0.0 <= x < y < z <= 1.0 ensures Chord(SplitCurve(fs, fn, total), x, y, z) {
      SplitChord(fs, fn, total, x, y, z);
    }
  }

  lemma SplitChord(fs: real -> real, fn: real -> real, total: real, x: real, y: real, z: real)
    requires Concave(fs, 0.0, total) && Concave(fn, 0.0, total) && 0.0 < total && 0.0 <= x < y < z <= 1.0
    ensures Chord(SplitCurve(fs, fn, total), x, y, z)
  {
    hide Concave, Weighted;
    SubChord(fs, total, x, y, z);
    NormChord(fn, total, x, y, z);
    hide SubPart, NormPart;
    var sx, sy, sz := fs(SubPart(total, x)), fs(SubPart(total, y)), fs(SubPart(total, z));
    var nx, ny, nz := fn(NormPart(total, x)), fn(NormPart(total, y)), fn(NormPart(total, z));
    AddChords(x, y, z, sx, sy, sz, nx, ny, nz);
  }

  lemma SubChord(f: real -> real, total: real, x: real, y: real, z: real)
    requires Concave(f, 0.0, total) && 0.0 < total && 0.0 <= x < y < z <= 1.0
    ensures Weighted(y - x, z - y, f(SubPart(total, x)), f(SubPart(total, y)), f(SubPart(total, z)))
  {
    hide Concave, Weighted;
    ScaledChord(f, total, x, y, z, y - x, z - y);
  }

  lemma NormChord(f: real -> real, total: real, x: real, y: real, z: real)
    requires Concave(f, 0.0, total) && 0.0 < total && 0.0 <= x < y < z <= 1.0
    ensures Weighted(z - y, y - x, f(NormPart(total, z)), f(NormPart(total, y)), f(NormPart(total, x)))
  {
    hide Concave, Weighted;
    NormIsSubOfRest(total, x);
    NormIsSubOfRest(total, y);
    NormIsSubOfRest(total, z);
    hide SubPart, NormPart;
    ScaledChord(f, total, 1.0 - z, 1.0 - y, 1.0 - x, z - y, y - x);
  }

  lemma NormIsSubOfRest(total: real, share: real)
    ensures NormPart(total, share) == SubPart(total, 1.0 - share)
  {}

  /** A chord whose point divides it in the proportion `p : q`. */
  ghost predicate Weighted(p: real, q: real, fx: real, fy: real, fz: real) {
    (p + q) * fy >= q * fx + p * fz
  }

  lemma AddChords(x: real, y: real, z: real, ax: real, ay: real, az: real, gx: real, gy: real, gz: real)
    requires Weighted(y - x, z - y, ax, ay, az) && Weighted(z - y, y - x, gz, gy, gx)
    ensures (z - x) * (ay + gy) >= (z - y) * (ax + gx) + (y - x) * (az + gz)
  {}

  lemma ScaledChord(f: real -> real, total: real, x: real, y: real, z: real, p: real, q: real)
    requires Concave(f, 0.0, total) && 0.0 < total && 0.0 <= x < y < z <= 1.0 && p == y - x && q == z - y
    ensures Weighted(p, q, f(SubPart(total, x)), f(SubPart(total, y)), f(SubPart(total, z)))
  {
    SharesInOrder(total, x, y, z);
    var a, b, c := SubPart(total, x), SubPart(total, y), SubPart(total, z);
    assert Chord(f, a, b, c);
    hide Concave, Weighted;
    Unscaled(total, x, y, z, a, b, c, p, q, f(a), f(b), f(c));
  }

  lemma SharesInOrder(total: real, x: real, y: real, z: real)
    requires 0.0 < total && 0.0 <= x < y < z <= 1.0
    ensures 0.0 <= SubPart(total, x) < SubPart(total, y) < SubPart(total, z) <= total
  {}

  lemma Unscaled(total: real, x: real, y: real, z: real, a: real, b: real, c: real, p: real, q: real, fx: real,
                 fy: real, fz: real)
    requires 0.0 < total && p == y - x && q == z - y && a == total * x && b == total * y && c == total * z
    requires (c - a) * fy >= (c - b) * fx + (b - a) * fz
    ensures Weighted(p, q, fx, fy, fz)
  {
    assert total * ((p + q) * fy) >= total * (q * fx + p * fz);
    Cancel(total, q * fx + p * fz, (p + q) * fy);
  }

  /** The router's scores are the split curve, seen with the noise of both legs. */
  lemma BuySplitIsScored(v: Venues, total: real, fs: real -> real, es: real, fn: real -> real, en: real)
    requires Follows(BuyQuotes(v.sub, v.subState), fs, es, total) &&
             Follows(BuyQuotes(v.norm, v.normState), fn, en, total)
    requires MIN_TRADE_SIZE < total
    ensures Scored(Scores(BuySplits(v, total)), SplitCurve(fs, fn, total), LegNoise(fs, es) + LegNoise(fn, en))
  {
    var s, qs, qn := Scores(BuySplits(v, total)), BuyQuotes(v.sub, v.subState), BuyQuotes(v.norm, v.normState);
    forall share | 0.0 <= share <= 1.0 ensures IsSplit(s, qs, qn, total, share) {
      BuyScore(v, total, share);
    }
    hide BuySplits, BuyQuotes, Scores, Follows, IsSplit, Scored, LegNoise, SplitCurve;
    SplitIsScored(s, qs, qn, total, fs, es, fn, en);
  }

  lemma SellSplitIsScored(v: Venues, total: real, fs: real -> real, es: real, fn: real -> real, en: real)
    requires Follows(SellQuotes(v.sub, v.subState), fs, es, total) &&
             Follows(SellQuotes(v.norm, v.normState), fn, en, total)
    requires MIN_TRADE_SIZE < total
    ensures Scored(Scores(SellSplits(v, total)), SplitCurve(fs, fn, total), LegNoise(fs, es) + LegNoise(fn, en))
  {
    var s, qs, qn := Scores(SellSplits(v, total)), SellQuotes(v.sub, v.subState), SellQuotes(v.norm, v.normState);
    forall share | 0.0 <= share <= 1.0 ensures IsSplit(s, qs, qn, total, share) {
      SellScore(v, total, share);
    }
    hide SellSplits, SellQuotes, Scores, Follows, IsSplit, Scored, LegNoise, SplitCurve;
    SplitIsScored(s, qs, qn, total, fs, es, fn, en);
  }

  /** A share's score adds two cut-off quotes. */
  ghost predicate IsSplit(s: real -> real, qs: real -> real, qn: real -> real, total: real, share: real) {
    s(share) == CutOff(SubPart(total, share), qs(SubPart(total, share))) +
      CutOff(NormPart(total, share), qn(NormPart(total, share)))
  }

  lemma BuyScore(v: Venues, total: real, share: real)
    requires 0.0 <= share <= 1.0
    ensures IsSplit(Scores(BuySplits(v, total)), BuyQuotes(v.sub, v.subState), BuyQuotes(v.norm, v.normState), total,
                    share)
  {
    hide QuoteBuyX, CutOff;
    assert Clamp(share, 0.0, 1.0) == share;
    hide Clamp, SubPart, NormPart;
    assert BuySplits(v, total)(share) == BuyShares(v, total, share);
    hide BuySplits;
  }

  lemma SellScore(v: Venues, total: real, share: real)
    requires 0.0 <= share <= 1.0
    ensures IsSplit(Scores(SellSplits(v, total)), SellQuotes(v.sub, v.subState), SellQuotes(v.norm, v.normState),
                    total, share)
  {
    hide QuoteSellX, CutOff;
    assert Clamp(share, 0.0, 1.0) == share;
    hide Clamp, SubPart, NormPart;
    assert SellSplits(v, total)(share) == SellShares(v, total, share);
    hide SellSplits;
  }

  /** Either side: a score that adds two cut-off quotes. */
  lemma SplitIsScored(s: real -> real, qs: real -> real, qn: real -> real, total: real,
                      fs: real -> real, es: real, fn: real -> real, en: real)
    requires Follows(qs, fs, es, total) && Follows(qn, fn, en, total) && MIN_TRADE_SIZE < total
    requires forall share :: 0.0 <= share <= 1.0 ==> IsSplit(s, qs, qn, total, share)
    ensures Scored(s, SplitCurve(fs, fn, total), LegNoise(fs, es) + LegNoise(fn, en))
  {
    var f, eps := SplitCurve(fs, fn, total), LegNoise(fs, es) + LegNoise(fn, en);
    SplitCurveIsConcave(fs, fn, total);
    hide Concave, Follows, SplitCurve, LegNoise, IsSplit;
    forall share | 0.0 <= share <= 1.0 ensures f(share) - eps <= s(share) <= f(share) && 0.0 <= f(share) && 0.0 <= eps {
      ShareIsObserved(s, qs, qn, total, fs, es, fn, en, share);
    }
    assert 0.0 <= f(0.0) && 0.0 <= f(1.0);
  }

  lemma ShareIsObserved(s: real -> real, qs: real -> real, qn: real -> real, total: real,
                        fs: real -> real, es: real, fn: real -> real, en: real, share: real)
    requires Follows(qs, fs, es, total) && Follows(qn, fn, en, total) && MIN_TRADE_SIZE < total && 0.0 <= share <= 1.0
    requires IsSplit(s, qs, qn, total, share)
    ensures var f, eps := SplitCurve(fs, fn, total), LegNoise(fs, es) + LegNoise(fn, en);
            f(share) - eps <= s(share) <= f(share) && 0.0 <= f(share) && 0.0 <= eps
  {
    hide Follows, CutOff, LegNoise;
    SharesInRange(total, share);
    hide SubPart, NormPart;
    LegsAreObserved(qs, qn, total, fs, es, fn, en, SubPart(total, share), NormPart(total, share));
  }

  lemma LegsAreObserved(qs: real -> real, qn: real -> real, total: real,
                        fs: real -> real, es: real, fn: real -> real, en: real, a: real, b: real)
    requires Follows(qs, fs, es, total) && Follows(qn, fn, en, total) && MIN_TRADE_SIZE < total
    requires 0.0 <= a <= total && 0.0 <= b <= total
    ensures 0.0 <= fs(a) + fn(b) && 0.0 <= LegNoise(fs, es) + LegNoise(fn, en)
    ensures fs(a) + fn(b) - (LegNoise(fs, es) + LegNoise(fn, en)) <= CutOff(a, qs(a)) + CutOff(b, qn(b))
    ensures CutOff(a, qs(a)) + CutOff(b, qn(b)) <= fs(a) + fn(b)
  {
    hide Follows, CutOff;
    CutOffIsObserved(qs, fs, es, total, a);
    CutOffIsObserved(qn, fn, en, total, b);
    NoiseNotNegative(fs, es);
    NoiseNotNegative(fn, en);
    hide LegNoise;
  }

  lemma NoiseNotNegative(f: real -> real, eps: real)
    requires 0.0 <= eps
    ensures 0.0 <= LegNoise(f, eps)
  {}

  lemma SharesInRange(total: real, share: real)
    requires 0.0 <= total && 0.0 <= share <= 1.0
    ensures 0.0 <= SubPart(total, share) <= total && 0.0 <= NormPart(total, share) <= total
  {
    NonNegative(total, share);
    NonNegative(total, 1.0 - share);
  }

  // ----- What a routed order delivers -----


  lemma BuyQuoteIsNanos(p: Program, st: PoolState, input: real) returns (n: nat)
    ensures CutOff(input, QuoteBuyX(p, st, input)) == Nanos(n)
  {
    n := if input > MIN_TRADE_SIZE && QuoteBuyX(p, st, input) != 0.0
         then p.swap(SwapInstruction(0, ToNano(input), ToNano(st.x), ToNano(st.y), st.storage)) else 0;
    hide SwapInstruction;
  }

  /** The scores of a split are whole nanos, so the floor of the gap test never decides. */
  lemma BuyScoresAreNanos(v: Venues, total: real)
    ensures FloorCosts(Scores(BuySplits(v, total)), 0.0)
  {
    var s := Scores(BuySplits(v, total));
    forall a | 0.0 <= a <= 1.0 ensures IsNanos(s(a)) {
      hide QuoteBuyX, CutOff, Clamp;
      var alpha := Clamp(a, 0.0, 1.0);
      var m := BuyQuoteIsNanos(v.sub, v.subState, SubPart(total, alpha));
      var n := BuyQuoteIsNanos(v.norm, v.normState, NormPart(total, alpha));
      hide SubPart, NormPart;
      assert s(a) == Nanos(m + n);
    }
    hide Scores;
    NanosCostNothing(s);
  }

  /** Whatever share one picks, the routed buy delivers 95% of what that split is worth on the two curves. */
  lemma RoutedBuyIsNinetyFive(v: Venues, total: real, fs: real -> real, es: real, fn: real -> real, en: real,
                              share: real)
    requires BuyLegsPay(v, BestSplit(BuySplits(v, total), total)) && 0.0 <= share <= 1.0
    requires Follows(BuyQuotes(v.sub, v.subState), fs, es, total) &&
             Follows(BuyQuotes(v.norm, v.normState), fn, en, total)
    requires MIN_TRADE_SIZE < total
    ensures var out := BuyOutput(SettleBuy(v, BestSplit(BuySplits(v, total), total)).trades);
            out >= 0.951 * SplitCurve(fs, fn, total)(share) - 3.0 * (LegNoise(fs, es) + LegNoise(fn, en))
  {
    hide Follows, BuyLegsPay, BuyOutput, SettleBuy, LegNoise, SplitProbes, Best, BuySplits, Scored, SplitCurve;
    RoutedBuyDelivers(v, total);
    BuySplitIsScored(v, total, fs, es, fn, en);
    BuyScoresAreNanos(v, total);
    hide FloorCosts;
    var eps := LegNoise(fs, es) + LegNoise(fn, en);
    SplitIsNinetyFive(Scores(BuySplits(v, total)), SplitCurve(fs, fn, total), eps, total, 0.0, share);
  }

  lemma SellQuoteIsNanos(p: Program, st: PoolState, input: real) returns (n: nat)
    ensures CutOff(input, QuoteSellX(p, st, input)) == Nanos(n)
  {
    n := if input > MIN_TRADE_SIZE && QuoteSellX(p, st, input) != 0.0
         then p.swap(SwapInstruction(1, ToNano(input), ToNano(st.x), ToNano(st.y), st.storage)) else 0;
    hide SwapInstruction;
  }

  /** The scores of a split are whole nanos, so the floor of the gap test never decides. */
  lemma SellScoresAreNanos(v: Venues, total: real)
    ensures FloorCosts(Scores(SellSplits(v, total)), 0.0)
  {
    var s := Scores(SellSplits(v, total));
    forall a | 0.0 <= a <= 1.0 ensures IsNanos(s(a)) {
      hide QuoteSellX, CutOff, Clamp;
      var alpha := Clamp(a, 0.0, 1.0);
      var m := SellQuoteIsNanos(v.sub, v.subState, SubPart(total, alpha));
      var n := SellQuoteIsNanos(v.norm, v.normState, NormPart(total, alpha));
      hide SubPart, NormPart;
      assert s(a) == Nanos(m + n);
    }
    hide Scores;
    NanosCostNothing(s);
  }

  /** Whatever share one picks, the routed sell delivers 95% of what that split is worth on the two curves. */
  lemma RoutedSellIsNinetyFive(v: Venues, total: real, fs: real -> real, es: real, fn: real -> real, en: real,
                               share: real)
    requires SellLegsPay(v, BestSplit(SellSplits(v, total), total)) && 0.0 <= share <= 1.0
    requires Follows(SellQuotes(v.sub, v.subState), fs, es, total) &&
             Follows(SellQuotes(v.norm, v.normState), fn, en, total)
    requires MIN_TRADE_SIZE < total
    ensures var out := SellOutput(SettleSell(v, BestSplit(SellSplits(v, total), total)).trades);
            out >= 0.951 * SplitCurve(fs, fn, total)(share) - 3.0 * (LegNoise(fs, es) + LegNoise(fn, en))
  {
    hide Follows, SellLegsPay, SellOutput, SettleSell, LegNoise, SplitProbes, Best, SellSplits, Scored, SplitCurve;
    RoutedSellDelivers(v, total);
    SellSplitIsScored(v, total, fs, es, fn, en);
    SellScoresAreNanos(v, total);
    hide FloorCosts;
    var eps := LegNoise(fs, es) + LegNoise(fn, en);
    SplitIsNinetyFive(Scores(SellSplits(v, total)), SplitCurve(fs, fn, total), eps, total, 0.0, share);
  }
}
