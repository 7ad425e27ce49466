/** The search guarantees on constant-product pools, with every constant worked out. */
module NormalizerRoutes {
  import opened Reals
  import opened Concavity
  import opened Nano
  import opened PoolModel
  import opened SplitSearch
  import opened Routing
  import opened NormalizerPool
  import opened PoolCurve
  import opened ArbSearch
  import opened Arbitrage
  import opened PoolGuarantee
  import opened ArbGuarantee
  import CurveBand

  lemma ReserveCurveFollows(q: real -> real, rin: real, rout: real, g: real, top: real)
    requires ToNano(rin) > 0 && 0.0 <= g
    requires forall x :: 0.0 <= x <= top ==>
      FlooredCurve(rin, rout, g)(x) - QuoteNoise(rin, rout) <= q(x) <= FlooredCurve(rin, rout, g)(x)
    ensures Follows(q, FlooredCurve(rin, rout, g), QuoteNoise(rin, rout), top)
  {
    var a, b := FromNano(ToNano(rin)), FromNano(ToNano(rout));
    CurveBand.CurveIsConcave(a, b, g, top);
    hide Concave, ToNano, QuoteNoise;
    assert FlooredCurve(rin, rout, g) == CurveBand.Curve(a, b, g);
    forall x, y | 0.0 <= x <= y <= top ensures FlooredCurve(rin, rout, g)(x) <= FlooredCurve(rin, rout, g)(y) {
      CurveBand.CurveRises(a, b, g, x, y);
    }
  }

  /** A normalizer's quotes follow its curve, on every input short of saturation. */
  lemma BuysFollow(p: Program, st: PoolState, top: real)
    requires IsNormalizer(p) && Quoting(st) && top * 1000000000.0 < 18446744073709551616.0
    ensures 0.0 <= Kept(st)
    ensures Follows(BuyQuotes(p, st), FlooredCurve(st.y, st.x, Kept(st)), QuoteNoise(st.y, st.x), top)
  {
    forall x | 0.0 <= x <= top
      ensures var f := FlooredCurve(st.y, st.x, Kept(st));
              f(x) - QuoteNoise(st.y, st.x) <= BuyQuotes(p, st)(x) <= f(x)
    {
      hide QuoteBuyX, IsNormalizer, FlooredCurve, QuoteNoise;
      BuyIsObserved(p, st, x);
    }
    hide BuyQuotes, FlooredCurve, QuoteNoise, Follows, IsNormalizer;
    ReserveCurveFollows(BuyQuotes(p, st), st.y, st.x, Kept(st), top);
  }

  lemma SellsFollow(p: Program, st: PoolState, top: real)
    requires IsNormalizer(p) && Quoting(st) && top * 1000000000.0 < 18446744073709551616.0
    ensures 0.0 <= Kept(st)
    ensures Follows(SellQuotes(p, st), FlooredCurve(st.x, st.y, Kept(st)), QuoteNoise(st.x, st.y), top)
  {
    forall x | 0.0 <= x <= top
      ensures var f := FlooredCurve(st.x, st.y, Kept(st));
              f(x) - QuoteNoise(st.x, st.y) <= SellQuotes(p, st)(x) <= f(x)
    {
      hide QuoteSellX, IsNormalizer, FlooredCurve, QuoteNoise;
      SellIsObserved(p, st, x);
    }
    hide SellQuotes, FlooredCurve, QuoteNoise, Follows, IsNormalizer;
    ReserveCurveFollows(SellQuotes(p, st), st.x, st.y, Kept(st), top);
  }

  /** A leg's noise is what a trade of the least size is worth at the pool's price, and a nano. */
  lemma LegNoiseIsSmall(rin: real, rout: real, g: real)
    requires ToNano(rin) > 0 && 0.0 <= g <= 1.0
    ensures LegNoise(FlooredCurve(rin, rout, g), QuoteNoise(rin, rout)) <= 0.001 * PoolPrice(rin, rout) + 0.000000001
  {
    NoiseOfPrice(rin, rout);
    CurveOfPrice(rin, rout, g, MIN_TRADE_SIZE);
    hide FlooredCurve, QuoteNoise, PoolPrice;
  }

  lemma CurveOfPrice(rin: real, rout: real, g: real, x: real)
    requires ToNano(rin) > 0 && 0.0 <= g <= 1.0 && 0.0 <= x
    ensures FlooredCurve(rin, rout, g)(x) <= x * PoolPrice(rin, rout)
  {
    var a, b := ToNano(rin), ToNano(rout);
    CurveBand.CurveBelowPrice(FromNano(a), FromNano(b), g, x);
    var f := CurveBand.Curve(FromNano(a), FromNano(b), g)(x);
    assert FlooredCurve(rin, rout, g)(x) == f;
    var price := PoolPrice(rin, rout);
    hide ToNano, CurveBand.Curve, FlooredCurve, PoolPrice;
    PriceOfInput(a as real, b as real, f, price, x);
  }

  lemma PriceOfInput(a: real, b: real, f: real, price: real, x: real)
    requires 0.0 < a && price * a == b && f * (a / 1000000000.0) <= (b / 1000000000.0) * x
    ensures f <= x * price
  {
    assert (x * price) * a == b * x;
    assert a * f <= a * (x * price);
    Cancel(a, f, x * price);
  }

  /** An order above the least size, routed between two pools of the normalizer's kind: it delivers at least 95% of
      what any split is worth on the two curves, less three thousandths of a unit at each pool's price and a few
      nanos. */
  lemma NormalizersRouteBuys(v: Venues, total: real, share: real)
    requires IsNormalizer(v.sub) && Quoting(v.subState) && IsNormalizer(v.norm) && Quoting(v.normState)
    requires MIN_TRADE_SIZE < total && total * 1000000000.0 < 18446744073709551616.0 && 0.0 <= share <= 1.0
    ensures 0.0 <= Kept(v.subState) && 0.0 <= Kept(v.normState)
    ensures var fs := FlooredCurve(v.subState.y, v.subState.x, Kept(v.subState));
            var fn := FlooredCurve(v.normState.y, v.normState.x, Kept(v.normState));
            var out := BuyOutput(SettleBuy(v, BestSplit(BuySplits(v, total), total)).trades);
            out >= 0.951 * SplitCurve(fs, fn, total)(share)
                 - 0.003 * (PoolPrice(v.subState.y, v.subState.x) + PoolPrice(v.normState.y, v.normState.x))
                 - 0.00000001
  {
    BuysFollow(v.sub, v.subState, total);
    BuysFollow(v.norm, v.normState, total);
    PaysInFull(v, BestSplit(BuySplits(v, total), total));
    KeptIsShare(v.subState);
    KeptIsShare(v.normState);
    LegNoiseIsSmall(v.subState.y, v.subState.x, Kept(v.subState));
    LegNoiseIsSmall(v.normState.y, v.normState.x, Kept(v.normState));
    hide Follows, BuyLegsPay, SellLegsPay, LegNoise, FlooredCurve, QuoteNoise, SplitCurve, PoolPrice, Kept;
    hide BestSplit, SettleBuy, BuyOutput;
    var s, n := v.subState, v.normState;
    RoutedBuyIsNinetyFive(v, total, FlooredCurve(s.y, s.x, Kept(s)), QuoteNoise(s.y, s.x),
                          FlooredCurve(n.y, n.x, Kept(n)), QuoteNoise(n.y, n.x), share);
  }

  lemma NormalizersRouteSells(v: Venues, total: real, share: real)
    requires IsNormalizer(v.sub) && Quoting(v.subState) && IsNormalizer(v.norm) && Quoting(v.normState)
    requires MIN_TRADE_SIZE < total && total * 1000000000.0 < 18446744073709551616.0 && 0.0 <= share <= 1.0
    ensures 0.0 <= Kept(v.subState) && 0.0 <= Kept(v.normState)
    ensures var fs := FlooredCurve(v.subState.x, v.subState.y, Kept(v.subState));
            var fn := FlooredCurve(v.normState.x, v.normState.y, Kept(v.normState));
            var out := SellOutput(SettleSell(v, BestSplit(SellSplits(v, total), total)).trades);
            out >= 0.951 * SplitCurve(fs, fn, total)(share)
                 - 0.003 * (PoolPrice(v.subState.x, v.subState.y) + PoolPrice(v.normState.x, v.normState.y))
                 - 0.00000001
  {
    SellsFollow(v.sub, v.subState, total);
    SellsFollow(v.norm, v.normState, total);
    PaysInFull(v, BestSplit(SellSplits(v, total), total));
    KeptIsShare(v.subState);
    KeptIsShare(v.normState);
    LegNoiseIsSmall(v.subState.x, v.subState.y, Kept(v.subState));
    LegNoiseIsSmall(v.normState.x, v.normState.y, Kept(v.normState));
    hide Follows, BuyLegsPay, SellLegsPay, LegNoise, FlooredCurve, QuoteNoise, SplitCurve, PoolPrice, Kept;
    hide BestSplit, SettleSell, SellOutput;
    var s, n := v.subState, v.normState;
    RoutedSellIsNinetyFive(v, total, FlooredCurve(s.x, s.y, Kept(s)), QuoteNoise(s.x, s.y),
                           FlooredCurve(n.x, n.y, Kept(n)), QuoteNoise(n.x, n.y), share);
  }

  // ----- Arbitrage against such a pool -----

  /** Four quotes, and one more for each time the low end of the bracket goes into the size, in money. */
  function ProfitNoise(rin: real, rout: real, worth: real, reach: real): real
    requires ToNano(rin) > 0
  {
    (4.0 + reach) * (worth * (1.0 + 2.0 * PoolPrice(rin, rout))) / 1000000000.0
  }

  lemma AimIsProfit(rin: real, rout: real, worth: real, reach: real, profit: real)
    requires ToNano(rin) > 0
    ensures Aim(profit, QuoteNoise(rin, rout) * worth, reach) == 0.99 * profit - ProfitNoise(rin, rout, worth, reach)
    ensures 0.0 <= worth && 0.0 <= reach ==> 0.0 <= ProfitNoise(rin, rout, worth, reach)
  {
    NoiseOfPrice(rin, rout);
    hide PoolPrice, QuoteNoise;
    var n := 1.0 + 2.0 * PoolPrice(rin, rout);
    Regroup(n, worth, reach);
    if 0.0 <= worth && 0.0 <= reach {
      NonNegative(worth, n);
      NonNegative(4.0 + reach, worth * n);
    }
  }

  lemma Regroup(n: real, worth: real, reach: real)
    ensures 4.0 * (n / 1000000000.0 * worth) + reach * (n / 1000000000.0 * worth) ==
            (4.0 + reach) * (worth * n) / 1000000000.0
  {}

  lemma Promised(rin: real, rout: real, worth: real, e: real, reach: real, profit: real, floor: real,
                 plan: Option<Candidate>)
    requires ToNano(rin) > 0 && 0.0 <= worth && 0.0 <= reach && 0.0 <= floor && e == QuoteNoise(rin, rout) * worth
    requires 0.0 <= profit && floor <= Aim(profit, e, reach) ==>
             plan.Some? && Aim(profit, e, reach) <= plan.value.profit
    ensures var promised := 0.99 * profit - ProfitNoise(rin, rout, worth, reach);
            floor <= promised ==> plan.Some? && promised <= plan.value.profit
  {
    AimIsProfit(rin, rout, worth, reach, profit);
    hide Aim, ProfitNoise, QuoteNoise;
  }

  lemma PoolQuotes(st: PoolState)
    requires Quoting(st)
    ensures ToNano(st.x) > 0 && ToNano(st.y) > 0 && 0.0 <= Kept(st)
  {}

  lemma LeastInputs(price: real)
    ensures 0.0 < MinBuyInputY() && 0.0 < MinSellInputX(price)
  {}

  /** Against a constant-product pool the planned trade earns 99% of what any size earns on the pool's curve, less the
      noise, whenever that clears the floor. */
  lemma NormalizerBuyIsNinetyNine(p: Program, st: PoolState, price: real, start: real, floor: real, t: real)
    requires IsNormalizer(p) && Quoting(st) && 0.0 < price && 0.0 <= floor
    requires MinBuyInputY() <= t <= MAX_INPUT_AMOUNT
    requires WellStarted(BuyProfit(p, st, price), start, MinBuyInputY(), MAX_INPUT_AMOUNT)
    requires InReach(BuyProfit(p, st, price), start, MinBuyInputY(), MAX_INPUT_AMOUNT, t)
    ensures 0.0 <= Kept(st)
    ensures var lo := BracketMaximum(BuyProfit(p, st, price), start, MinBuyInputY(), MAX_INPUT_AMOUNT).lo;
            0.0 < lo &&
            var profit := CurveProfit(FlooredCurve(st.y, st.x, Kept(st)), price, 1.0)(t);
            var promised := 0.99 * profit - ProfitNoise(st.y, st.x, price, Reach(t, lo));
            var plan := PlanBuy(p, st, price, start, MinBuyInputY(), floor);
            floor <= promised ==> plan.Some? && promised <= plan.value.profit
  {
    hide BracketMaximum, FlooredCurve, QuoteNoise, ProfitNoise, Follows, IsNormalizer, Quoting, WellStarted, InReach,
         PlanBuy,
         Kept;
    hide BuyProfit, MinBuyInputY, MinSellInputX, CurveProfit, Aim, Reach, ToNano;
    PoolQuotes(st);
    LeastInputs(price);
    BuysFollow(p, st, MAX_INPUT_AMOUNT);
    BracketStaysInRange(BuyProfit(p, st, price), start, MinBuyInputY(), MAX_INPUT_AMOUNT);
    var f, eps := FlooredCurve(st.y, st.x, Kept(st)), QuoteNoise(st.y, st.x);
    var lo := BracketMaximum(BuyProfit(p, st, price), start, MinBuyInputY(), MAX_INPUT_AMOUNT).lo;
    var profit, reach := CurveProfit(f, price, 1.0)(t), Reach(t, lo);
    if 0.0 <= profit {
      PlannedBuyIsNinetyNine(p, st, f, eps, price, start, floor, t);
    }
    Promised(st.y, st.x, price, eps * price, reach, profit, floor, PlanBuy(p, st, price, start, MinBuyInputY(), floor));
  }

  lemma NormalizerSellIsNinetyNine(p: Program, st: PoolState, price: real, start: real, floor: real, t: real)
    requires IsNormalizer(p) && Quoting(st) && 0.0 < price && 0.0 <= floor
    requires MinSellInputX(price) <= t <= MAX_INPUT_AMOUNT
    requires WellStarted(SellProfit(p, st, price), start, MinSellInputX(price), MAX_INPUT_AMOUNT)
    requires InReach(SellProfit(p, st, price), start, MinSellInputX(price), MAX_INPUT_AMOUNT, t)
    ensures 0.0 <= Kept(st)
    ensures var lo := BracketMaximum(SellProfit(p, st, price), start, MinSellInputX(price), MAX_INPUT_AMOUNT).lo;
            0.0 < lo &&
            var profit := CurveProfit(FlooredCurve(st.x, st.y, Kept(st)), 1.0, price)(t);
            var promised := 0.99 * profit - ProfitNoise(st.x, st.y, 1.0, Reach(t, lo));
            var plan := PlanSell(p, st, price, start, MinSellInputX(price), floor);
            floor <= promised ==> plan.Some? && promised <= plan.value.profit
  {
    hide BracketMaximum, FlooredCurve, QuoteNoise, ProfitNoise, Follows, IsNormalizer, Quoting, WellStarted, InReach,
         PlanSell, Kept;
    hide SellProfit, MinBuyInputY, MinSellInputX, CurveProfit, Aim, Reach, ToNano;
    PoolQuotes(st);
    LeastInputs(price);
    SellsFollow(p, st, MAX_INPUT_AMOUNT);
    BracketStaysInRange(SellProfit(p, st, price), start, MinSellInputX(price), MAX_INPUT_AMOUNT);
    var f, eps := FlooredCurve(st.x, st.y, Kept(st)), QuoteNoise(st.x, st.y);
    var lo := BracketMaximum(SellProfit(p, st, price), start, MinSellInputX(price), MAX_INPUT_AMOUNT).lo;
    var profit, reach := CurveProfit(f, 1.0, price)(t), Reach(t, lo);
    if 0.0 <= profit {
      PlannedSellIsNinetyNine(p, st, f, eps, price, start, floor, t);
    }
    Promised(st.x, st.y, 1.0, eps, reach, profit, floor, PlanSell(p, st, price, start, MinSellInputX(price), floor));
  }

  lemma KeptIsShare(st: PoolState)
    requires Configured(st)
    ensures 0.0 <= Kept(st) <= 1.0
  {}

  lemma PaysInFull(v: Venues, q: QuotePoint)
    requires IsNormalizer(v.sub) && Configured(v.subState) && IsNormalizer(v.norm) && Configured(v.normState)
    ensures BuyLegsPay(v, q) && SellLegsPay(v, q)
  {
    hide ExecuteBuyX, ExecuteSellX, QuoteBuyX, QuoteSellX;
    NormalizerNeverRejects(v.sub, v.subState, q.inSub);
    NormalizerNeverRejects(v.norm, v.normState, q.inNorm);
  }
}
