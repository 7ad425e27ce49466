/** Orders of at most two least trades: every split of theirs has a leg too small to be quoted. */
module SmallOrders {
  import opened Reals
  import opened Concavity
  import opened Nano
  import opened PoolModel
  import opened GoldenSearch
  import opened SplitSearch
  import opened Routing
  import opened NormalizerPool
  import opened PoolCurve
  import opened PoolGuarantee
  import opened NormalizerRoutes
  import CurveBand

  // ----- They go whole -----

  lemma SmallScore(s: real -> real, qs: real -> real, qn: real -> real, total: real,
                   fs: real -> real, es: real, fn: real -> real, en: real, share: real)
    requires Follows(qs, fs, es, total) && Follows(qn, fn, en, total) && 0.0 <= share <= 1.0
    requires MIN_TRADE_SIZE < total <= 2.0 * MIN_TRADE_SIZE && IsSplit(s, qs, qn, total, share)
    ensures s(share) <= Max(fs(total), fn(total))
  {
    SharesInRange(total, share);
    var a, b := SubPart(total, share), NormPart(total, share);
    assert a + b == total;
    hide SubPart, NormPart, Follows;
    LegUpTo(qs, fs, es, total, a);
    LegUpTo(qn, fn, en, total, b);
  }

  lemma LegUpTo(q: real -> real, f: real -> real, eps: real, total: real, x: real)
    requires Follows(q, f, eps, total) && MIN_TRADE_SIZE < total && 0.0 <= x <= total
    ensures CutOff(x, q(x)) <= f(total) && (x <= MIN_TRADE_SIZE ==> CutOff(x, q(x)) == 0.0)
  {
    CutOffIsObserved(q, f, eps, total, x);
    assert f(x) <= f(total);
  }

  /** The routed order pays what the better pool would pay for the whole of it, and no more, but for the noise. */
  lemma SmallBuysGoWhole(v: Venues, total: real, fs: real -> real, es: real, fn: real -> real, en: real)
    requires BuyLegsPay(v, BestSplit(BuySplits(v, total), total))
    requires Follows(BuyQuotes(v.sub, v.subState), fs, es, total) &&
             Follows(BuyQuotes(v.norm, v.normState), fn, en, total)
    requires MIN_TRADE_SIZE < total <= 2.0 * MIN_TRADE_SIZE
    ensures var out := BuyOutput(SettleBuy(v, BestSplit(BuySplits(v, total), total)).trades);
            Max(fs(total) - es, fn(total) - en) <= out <= Max(fs(total), fn(total))
  {
    hide BuyLegsPay, BuyOutput, SettleBuy, SplitProbes, Best, QuoteBuyX, CutOff;
    RoutedBuyDelivers(v, total);
    var s := Scores(BuySplits(v, total));
    var share := Clamp(Best(s, SplitProbes(s, total)), 0.0, 1.0);
    BuyScore(v, total, share);
    assert Clamp(share, 0.0, 1.0) == share;
    hide Follows, IsSplit, Clamp;
    SmallScore(s, BuyQuotes(v.sub, v.subState), BuyQuotes(v.norm, v.normState), total, fs, es, fn, en, share);
    WholeIsObserved(BuyQuotes(v.sub, v.subState), fs, es, total);
    WholeIsObserved(BuyQuotes(v.norm, v.normState), fn, en, total);
  }

  lemma SmallSellsGoWhole(v: Venues, total: real, fs: real -> real, es: real, fn: real -> real, en: real)
    requires SellLegsPay(v, BestSplit(SellSplits(v, total), total))
    requires Follows(SellQuotes(v.sub, v.subState), fs, es, total) &&
             Follows(SellQuotes(v.norm, v.normState), fn, en, total)
    requires MIN_TRADE_SIZE < total <= 2.0 * MIN_TRADE_SIZE
    ensures var out := SellOutput(SettleSell(v, BestSplit(SellSplits(v, total), total)).trades);
            Max(fs(total) - es, fn(total) - en) <= out <= Max(fs(total), fn(total))
  {
    hide SellLegsPay, SellOutput, SettleSell, SplitProbes, Best, QuoteSellX, CutOff;
    RoutedSellDelivers(v, total);
    var s := Scores(SellSplits(v, total));
    var share := Clamp(Best(s, SplitProbes(s, total)), 0.0, 1.0);
    SellScore(v, total, share);
    assert Clamp(share, 0.0, 1.0) == share;
    hide Follows, IsSplit, Clamp;
    SmallScore(s, SellQuotes(v.sub, v.subState), SellQuotes(v.norm, v.normState), total, fs, es, fn, en, share);
    WholeIsObserved(SellQuotes(v.sub, v.subState), fs, es, total);
    WholeIsObserved(SellQuotes(v.norm, v.normState), fn, en, total);
  }

  lemma WholeIsObserved(q: real -> real, f: real -> real, eps: real, total: real)
    requires Follows(q, f, eps, total) && 0.0 <= total
    ensures f(total) - eps <= q(total)
  {}

  // ----- What that costs between two pools alike -----

  /** The order's part after the fee is more than about a ninth of the reserve it is traded against. */
  predicate WorthSplitting(rin: real, g: real, total: real) { 451.0 * (g * total) > 49.0 * FromNano(ToNano(rin)) }

  ghost predicate NinetyFive(f: real -> real, total: real, out: real, eps: real) {
    forall share :: 0.0 <= share <= 1.0 ==> out >= 0.951 * SplitCurve(f, f, total)(share) - eps
  }

  lemma TwinCurve(rin: real, rout: real, g: real, total: real, out: real, eps: real)
    requires ToNano(rin) > 0 && ToNano(rout) > 0 && 0.0 < g && 0.0 < total && 0.0 <= eps
    requires var f := FlooredCurve(rin, rout, g); f(total) - eps <= out <= f(total)
    ensures var f := FlooredCurve(rin, rout, g);
            if WorthSplitting(rin, g, total) then out < 0.951 * SplitCurve(f, f, total)(0.5)
            else NinetyFive(f, total, out, eps)
  {
    var a, b, f := FromNano(ToNano(rin)), FromNano(ToNano(rout)), FlooredCurve(rin, rout, g);
    CurveBand.CurveIsConcave(a, b, g, total);
    CurveValues(a, b, g, total, g * total);
    assert f == CurveBand.Curve(a, b, g);
    hide FlooredCurve, CurveBand.Curve, Concave, FromNano, ToNano, SplitCurve, NinetyFive, TwiceOn;
    TwinValues(f, a, b, g * total, total, out, eps);
  }

  /** The curve at the whole order and at half of it, where `n` is what is left of the order after the fee. */
  ghost predicate TwiceOn(f: real -> real, a: real, b: real, n: real, total: real) {
    && 0.0 < a && 0.0 < n && 0.0 < b * n
    && f(total) * (a + n) == b * n && f(0.5 * total) * (a + 0.5 * n) == b * (0.5 * n)
  }

  lemma CurveValues(a: real, b: real, g: real, total: real, n: real)
    requires 0.0 < a && 0.0 < b && 0.0 < g && 0.0 < total && n == g * total
    ensures TwiceOn(CurveBand.Curve(a, b, g), a, b, n, total)
  {
    CurveBand.CurveTimes(a, b, g, total);
    CurveBand.CurveTimes(a, b, g, 0.5 * total);
    hide CurveBand.Curve;
    PositiveProduct(g, total);
    PositiveProduct(b, n);
    assert g * (0.5 * total) == 0.5 * n;
  }

  lemma TwinValues(f: real -> real, a: real, b: real, n: real, total: real, out: real, eps: real)
    requires Concave(f, 0.0, total) && TwiceOn(f, a, b, n, total) && 0.0 < total && 0.0 <= eps
    requires f(total) - eps <= out <= f(total)
    ensures if 451.0 * n > 49.0 * a then out < 0.951 * SplitCurve(f, f, total)(0.5) else NinetyFive(f, total, out, eps)
  {
    hide Concave, SplitCurve, NinetyFive;
    HalfAndHalf(f, total);
    Twins(a, b, n, b * n, f(total), f(0.5 * total));
    if 451.0 * n <= 49.0 * a {
      EveryShare(f, total, out, eps);
    }
  }

  lemma EveryShare(f: real -> real, total: real, out: real, eps: real)
    requires Concave(f, 0.0, total) && 0.0 < total && f(total) - eps <= out
    requires 0.951 * (2.0 * f(0.5 * total)) <= f(total)
    ensures NinetyFive(f, total, out, eps)
  {
    hide Concave, SplitCurve;
    forall share | 0.0 <= share <= 1.0 ensures out >= 0.951 * SplitCurve(f, f, total)(share) - eps {
      HalfIsBest(f, total, share);
    }
  }

  lemma HalfAndHalf(f: real -> real, total: real)
    ensures SplitCurve(f, f, total)(0.5) == 2.0 * f(0.5 * total)
  {
    assert SubPart(total, 0.5) == 0.5 * total && NormPart(total, 0.5) == 0.5 * total;
  }

  lemma Twins(a: real, b: real, n: real, bn: real, whole: real, half: real)
    requires 0.0 < a && 0.0 < n && bn == b * n && 0.0 < bn
    requires whole * (a + n) == bn && half * (a + 0.5 * n) == b * (0.5 * n)
    ensures whole < 0.951 * (2.0 * half) <==> 451.0 * n > 49.0 * a
  {
    var u, v, both := a + n, a + 0.5 * n, 2.0 * half;
    assert both * v == bn;
    Cancelled(v, 0.0, both);
    Cancelled(both, v, 0.951 * u);
    Cancelled(u, whole, 0.951 * both);
  }

  lemma Cancelled(h: real, x: real, y: real)
    requires 0.0 < h
    ensures x * h < y * h <==> x < y
  {
    if x < y {
      PositiveProduct(h, y - x);
    } else {
      Scale(y, x, h);
    }
  }

  lemma HalfIsBest(f: real -> real, total: real, share: real)
    requires Concave(f, 0.0, total) && 0.0 < total && 0.0 <= share <= 1.0
    ensures SplitCurve(f, f, total)(share) <= 2.0 * f(0.5 * total)
  {
    SharesInRange(total, share);
    var x, y, z := SubPart(total, share), 0.5 * total, NormPart(total, share);
    assert x + z == 2.0 * y;
    hide SubPart, NormPart;
    if x < y {
      assert Chord(f, x, y, z);
      hide Concave, Chord;
      Middle(f, x, y, z);
    } else if y < x {
      assert Chord(f, z, y, x);
      hide Concave, Chord;
      Middle(f, z, y, x);
    }
  }

  lemma Middle(f: real -> real, x: real, y: real, z: real)
    requires Chord(f, x, y, z) && x < y && x + z == 2.0 * y
    ensures f(x) + f(z) <= 2.0 * f(y)
  {
    var h := y - x;
    Halfway(h, f(x), f(y), f(z), z - x, z - y);
  }

  lemma Halfway(h: real, fx: real, fy: real, fz: real, w: real, k: real)
    requires 0.0 < h && w == 2.0 * h && k == h && w * fy >= k * fx + h * fz
    ensures fx + fz <= 2.0 * fy
  {
    assert (fx + fz) * h <= (2.0 * fy) * h;
    Cancel(h, fx + fz, 2.0 * fy);
  }

  /** Between two pools alike an order of at most two least trades keeps its 95% exactly when it is small against the
      reserve it is traded against: about a ninth. */
  lemma TwinPoolsAndSmallBuys(v: Venues, total: real)
    requires IsNormalizer(v.sub) && Quoting(v.subState) && IsNormalizer(v.norm) && v.normState == v.subState
    requires FeeOf(v.subState) < 10000 && MIN_TRADE_SIZE < total <= 2.0 * MIN_TRADE_SIZE
    ensures ToNano(v.subState.y) > 0 && 0.0 <= Kept(v.subState)
    ensures var f := FlooredCurve(v.subState.y, v.subState.x, Kept(v.subState));
            var out := BuyOutput(SettleBuy(v, BestSplit(BuySplits(v, total), total)).trades);
            if WorthSplitting(v.subState.y, Kept(v.subState), total)
            then out < 0.951 * SplitCurve(f, f, total)(0.5)
            else NinetyFive(f, total, out, QuoteNoise(v.subState.y, v.subState.x))
  {
    hide IsNormalizer, BuyOutput, SettleBuy, BestSplit, BuyQuotes, QuoteNoise;
    hide SplitCurve, NinetyFive, WorthSplitting;
    var st := v.subState;
    PaysInFull(v, BestSplit(BuySplits(v, total), total));
    BuysFollow(v.sub, st, total);
    BuysFollow(v.norm, st, total);
    hide BuyLegsPay, SellLegsPay, BuySplits, Follows, FlooredCurve;
    var f, eps := FlooredCurve(st.y, st.x, Kept(st)), QuoteNoise(st.y, st.x);
    SmallBuysGoWhole(v, total, f, eps, f, eps);
    TwinCurve(st.y, st.x, Kept(st), total,
              BuyOutput(SettleBuy(v, BestSplit(BuySplits(v, total), total)).trades), eps);
  }

  lemma TwinPoolsAndSmallSells(v: Venues, total: real)
    requires IsNormalizer(v.sub) && Quoting(v.subState) && IsNormalizer(v.norm) && v.normState == v.subState
    requires FeeOf(v.subState) < 10000 && MIN_TRADE_SIZE < total <= 2.0 * MIN_TRADE_SIZE
    ensures ToNano(v.subState.x) > 0 && 0.0 <= Kept(v.subState)
    ensures var f := FlooredCurve(v.subState.x, v.subState.y, Kept(v.subState));
            var out := SellOutput(SettleSell(v, BestSplit(SellSplits(v, total), total)).trades);
            if WorthSplitting(v.subState.x, Kept(v.subState), total)
            then out < 0.951 * SplitCurve(f, f, total)(0.5)
            else NinetyFive(f, total, out, QuoteNoise(v.subState.x, v.subState.y))
  {
    hide IsNormalizer, SellOutput, SettleSell, BestSplit, SellQuotes, QuoteNoise;
    hide SplitCurve, NinetyFive, WorthSplitting;
    var st := v.subState;
    PaysInFull(v, BestSplit(SellSplits(v, total), total));
    SellsFollow(v.sub, st, total);
    SellsFollow(v.norm, st, total);
    hide BuyLegsPay, SellLegsPay, SellSplits, Follows, FlooredCurve;
    var f, eps := FlooredCurve(st.x, st.y, Kept(st)), QuoteNoise(st.x, st.y);
    SmallSellsGoWhole(v, total, f, eps, f, eps);
    TwinCurve(st.x, st.y, Kept(st), total,
              SellOutput(SettleSell(v, BestSplit(SellSplits(v, total), total)).trades), eps);
  }
}
