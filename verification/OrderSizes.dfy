/** What an order takes in and pays out: never more than its size, and nothing below the least trade. */
module OrderSizes {
  import opened Reals
  import opened PoolModel
  import opened SplitSearch
  import opened Arbitrage
  import opened Routing
  import opened TradeFlows
  import opened PoolGuarantee
  import opened GoldenSearch

  /** What both pools together gained of either token. */
  function XGained(trades: seq<RoutedTrade>): real { XFlow(trades, true) + XFlow(trades, false) }
  function YGained(trades: seq<RoutedTrade>): real { YFlow(trades, true) + YFlow(trades, false) }

  /** At most one trade with each pool, all on one side, each with more than a thousandth in and something out. */
  ghost predicate OneSided(trades: seq<RoutedTrade>, ammBuysX: bool) {
    && |trades| <= 2 && (|trades| == 2 ==> trades[0].isSubmission && !trades[1].isSubmission)
    && forall t :: t in trades ==>
         && t.ammBuysX == ammBuysX
         && (if ammBuysX then 0.001 < t.amountX && 0.0 < t.amountY else 0.001 < t.amountY && 0.0 < t.amountX)
  }

  // ----- One leg -----

  /** What a leg took of the part of the order it was given. */
  function Took(input: real, out: real): real { if out <= 0.0 then 0.0 else input }

  lemma LegFlows(isSubmission: bool, ammBuysX: bool, input: real, out: real)
    requires 0.0 <= out && (0.0 < out ==> MIN_TRADE_SIZE < input)
    ensures var l := LegTrades(isSubmission, ammBuysX, input, out);
            && XGained(l) == (if ammBuysX then Took(input, out) else -out)
            && YGained(l) == (if ammBuysX then -out else Took(input, out))
            && OneSided(l, ammBuysX) && |l| <= 1 && (l != [] ==> l[0].isSubmission == isSubmission)
            && (HasTrade(l, isSubmission) <==> 0.0 < out) && !HasTrade(l, !isSubmission)
  {
    var t := if ammBuysX then RoutedTrade(isSubmission, true, input, out) else RoutedTrade(isSubmission, false, out,
          input);
    FlowOfOne(t, isSubmission);
    FlowOfOne(t, !isSubmission);
    hide XFlow, YFlow;
    NoTrades(isSubmission);
    assert t in [t];
  }

  lemma LegsFlow(ammBuysX: bool, a: real, outA: real, b: real, outB: real)
    requires 0.0 <= outA && 0.0 <= outB && (0.0 < outA ==> MIN_TRADE_SIZE < a) && (0.0 < outB ==> MIN_TRADE_SIZE < b)
    ensures var trades := LegTrades(true, ammBuysX, a, outA) + LegTrades(false, ammBuysX, b, outB);
            && (if ammBuysX then XGained(trades) else YGained(trades)) == Took(a, outA) + Took(b, outB)
            && (if ammBuysX then YGained(trades) else XGained(trades)) == -(outA + outB)
            && (if ammBuysX then SellOutput(trades) else BuyOutput(trades)) == outA + outB
            && OneSided(trades, ammBuysX)
            && (HasTrade(trades, true) <==> 0.0 < outA) && (HasTrade(trades, false) <==> 0.0 < outB)
  {
    var mine, other := LegTrades(true, ammBuysX, a, outA), LegTrades(false, ammBuysX, b, outB);
    LegFlows(true, ammBuysX, a, outA);
    LegFlows(false, ammBuysX, b, outB);
    LegsOutput(ammBuysX, a, outA, b, outB);
    FlowsAdd(mine, other, true);
    FlowsAdd(mine, other, false);
    hide XFlow, YFlow, BuyOutput, SellOutput, LegTrades;
    assert forall t :: t in mine + other <==> t in mine || t in other;
  }

  // ----- A settled split -----

  lemma BuyLegPaysOrNot(p: Program, st: PoolState, input: real, quoted: real)
    ensures var out := BuyLeg(p, st, input, quoted).1; 0.0 <= out && (0.0 < out ==> MIN_TRADE_SIZE < input)
  {
    BuyReportsReserveChange(p, st, input);
    hide ExecuteBuyX, QuoteBuyX;
  }

  lemma SellLegPaysOrNot(p: Program, st: PoolState, input: real, quoted: real)
    ensures var out := SellLeg(p, st, input, quoted).1; 0.0 <= out && (0.0 < out ==> MIN_TRADE_SIZE < input)
  {
    SellReportsReserveChange(p, st, input);
    hide ExecuteSellX, QuoteSellX;
  }

  /** Both pools together took at most `total` of the one token, all of it when both were traded with, and lost of the
      other what the trades paid out. */
  ghost predicate Settled(trades: seq<RoutedTrade>, ammBuysX: bool, total: real) {
    var taken := if ammBuysX then XGained(trades) else YGained(trades);
    && OneSided(trades, ammBuysX)
    && 0.0 <= taken <= total && (HasTrade(trades, true) && HasTrade(trades, false) ==> taken == total)
    && (if ammBuysX then YGained(trades) == -SellOutput(trades) else XGained(trades) == -BuyOutput(trades))
  }

  lemma BuySettles(v: Venues, q: QuotePoint, total: real)
    requires 0.0 <= q.inSub && 0.0 <= q.inNorm && q.inSub + q.inNorm == total
    ensures Settled(SettleBuy(v, q).trades, false, total)
  {
    BuyLegPaysOrNot(v.sub, v.subState, q.inSub, q.outSub);
    BuyLegPaysOrNot(v.norm, v.normState, q.inNorm, q.outNorm);
    hide BuyLeg, LegTrades, XGained, YGained, OneSided, BuyOutput, SellOutput, HasTrade;
    LegsFlow(false, q.inSub, BuyLeg(v.sub, v.subState, q.inSub, q.outSub).1,
             q.inNorm, BuyLeg(v.norm, v.normState, q.inNorm, q.outNorm).1);
  }

  lemma SellSettles(v: Venues, q: QuotePoint, total: real)
    requires 0.0 <= q.inSub && 0.0 <= q.inNorm && q.inSub + q.inNorm == total
    ensures Settled(SettleSell(v, q).trades, true, total)
  {
    SellLegPaysOrNot(v.sub, v.subState, q.inSub, q.outSub);
    SellLegPaysOrNot(v.norm, v.normState, q.inNorm, q.outNorm);
    hide SellLeg, LegTrades, XGained, YGained, OneSided, BuyOutput, SellOutput, HasTrade;
    LegsFlow(true, q.inSub, SellLeg(v.sub, v.subState, q.inSub, q.outSub).1,
             q.inNorm, SellLeg(v.norm, v.normState, q.inNorm, q.outNorm).1);
  }

  // ----- An order -----

  lemma PartsOfTotal(total: real, alpha: real)
    requires 0.0 <= total && 0.0 <= alpha <= 1.0
    ensures 0.0 <= SubPart(total, alpha) && 0.0 <= NormPart(total, alpha)
    ensures SubPart(total, alpha) + NormPart(total, alpha) == total
  {
    SharesInRange(total, alpha);
  }

  lemma BestParts(v: Venues, total: real)
    requires 0.0 <= total
    ensures var q := BestSplit(BuySplits(v, total), total);
            0.0 <= q.inSub && 0.0 <= q.inNorm && q.inSub + q.inNorm == total
    ensures var q := BestSplit(SellSplits(v, total), total);
            0.0 <= q.inSub && 0.0 <= q.inNorm && q.inSub + q.inNorm == total
  {
    hide QuoteBuyX, QuoteSellX, SplitProbes, Best, SubPart, NormPart, CutOff;
    var buys, sells := Scores(BuySplits(v, total)), Scores(SellSplits(v, total));
    PartsOfTotal(total, Clamp(Best(buys, SplitProbes(buys, total)), 0.0, 1.0));
    PartsOfTotal(total, Clamp(Best(sells, SplitProbes(sells, total)), 0.0, 1.0));
  }

  /** An order takes at most its size: a buy of the Y it is sized in, a sell of the X its size is worth at the price;
      all of it when both pools were traded with; and what it pays out is what the pools lost. */
  lemma OrderTakesItsSize(v: Venues, order: Order, price: real)
    requires 0.0 < price && 0.0 <= order.size
    ensures var trades := RouteOf(v, order, price).trades;
            if order.isBuy then Settled(trades, false, order.size)
            else exists totalX :: totalX * price == order.size && Settled(trades, true, totalX)
  {
    hide SettleBuy, SettleSell, BestSplit, Settled;
    if order.isBuy {
      BestParts(v, order.size);
      BuySettles(v, BestSplit(BuySplits(v, order.size), order.size), order.size);
    } else {
      var totalX := order.size / price;
      assert totalX * price == order.size;
      QuotientNotNegative(totalX, price, order.size);
      BestParts(v, totalX);
      SellSettles(v, BestSplit(SellSplits(v, totalX), totalX), totalX);
    }
  }

  lemma QuotientNotNegative(q: real, price: real, size: real)
    requires 0.0 < price && q * price == size && 0.0 <= size
    ensures 0.0 <= q
  {
    Cancel(price, 0.0, q);
  }
}
