/** The router as it runs: searches the split, checks the submission's shape, and executes both legs. */
module OrderRouter {
  import opened PoolModel
  import opened Amm
  import opened GoldenSearch
  import opened SplitSearch
  import opened ShapeCheck
  import opened Routing

  /** The venues as they stand. */
  function VenuesOf(sub: BpfAmm, norm: BpfAmm): Venues
    reads sub, norm
  {
    Venues(sub.program, sub.State(), norm.program, norm.State())
  }

  /** What the submission was asked passes the shape check, where it is held to one. */
  ghost predicate SplitPasses(v: Venues, order: Order, price: real)
    requires 0.0 < price
  {
    v.sub.name == "submission" ==>
      if order.isBuy then Judged(Asked(BuySplits(v, order.size), order.size), MIN_TRADE_SIZE, Fine)
      else Judged(Asked(SellSplits(v, order.size / price), order.size / price), MIN_TRADE_SIZE, Fine)
  }

  method RouteBuy(totalY: real, sub: BpfAmm, norm: BpfAmm) returns (trades: seq<RoutedTrade>, ok: bool)
    requires sub != norm
    modifies sub, norm
    ensures var v := old(VenuesOf(sub, norm)); var splits := BuySplits(v, totalY);
            && (ok <==> (v.sub.name == "submission" ==> Judged(Asked(splits, totalY), MIN_TRADE_SIZE, Fine)))
            && (!ok ==> VenuesOf(sub, norm) == v)
            && (ok ==> Routed(sub.State(), norm.State(), trades) == SettleBuy(v, BestSplit(splits, totalY)))
  {
    hide Judged, Best, SplitProbes, QuoteBuyX, ExecuteBuyX, BuySplit;
    var splits := BuySplits(VenuesOf(sub, norm), totalY);
    var best, sampled := MaximizeSplit(totalY, splits);
    trades := [];
    ok := ShapeAccepted(sub.program.name, AskedOf(sampled), MIN_TRADE_SIZE);
    if !ok {
      return;
    }
    var ySub, yNorm := best.inSub, best.inNorm;
    if ySub > MIN_TRADE_SIZE && best.outSub > 0.0 {
      var xOut := sub.ExecuteBuyX(ySub);
      if xOut > 0.0 {
        trades := trades + [RoutedTrade(true, false, xOut, ySub)];
      }
    }
    if yNorm > MIN_TRADE_SIZE && best.outNorm > 0.0 {
      var xOut := norm.ExecuteBuyX(yNorm);
      if xOut > 0.0 {
        trades := trades + [RoutedTrade(false, false, xOut, yNorm)];
      }
    }
  }

  method RouteSell(totalX: real, sub: BpfAmm, norm: BpfAmm) returns (trades: seq<RoutedTrade>, ok: bool)
    requires sub != norm
    modifies sub, norm
    ensures var v := old(VenuesOf(sub, norm)); var splits := SellSplits(v, totalX);
            && (ok <==> (v.sub.name == "submission" ==> Judged(Asked(splits, totalX), MIN_TRADE_SIZE, Fine)))
            && (!ok ==> VenuesOf(sub, norm) == v)
            && (ok ==> Routed(sub.State(), norm.State(), trades) == SettleSell(v, BestSplit(splits, totalX)))
  {
    hide Judged, Best, SplitProbes, QuoteSellX, ExecuteSellX, SellSplit;
    var splits := SellSplits(VenuesOf(sub, norm), totalX);
    var best, sampled := MaximizeSplit(totalX, splits);
    trades := [];
    ok := ShapeAccepted(sub.program.name, AskedOf(sampled), MIN_TRADE_SIZE);
    if !ok {
      return;
    }
    var xSub, xNorm := best.inSub, best.inNorm;
    if xSub > MIN_TRADE_SIZE && best.outSub > 0.0 {
      var yOut := sub.ExecuteSellX(xSub);
      if yOut > 0.0 {
        trades := trades + [RoutedTrade(true, true, xSub, yOut)];
      }
    }
    if xNorm > MIN_TRADE_SIZE && best.outNorm > 0.0 {
      var yOut := norm.ExecuteSellX(xNorm);
      if yOut > 0.0 {
        trades := trades + [RoutedTrade(false, true, xNorm, yOut)];
      }
    }
  }

  method RouteOrder(order: Order, sub: BpfAmm, norm: BpfAmm, price: real) returns (trades: seq<RoutedTrade>, ok: bool)
    requires sub != norm && 0.0 < price
    modifies sub, norm
    ensures var v := old(VenuesOf(sub, norm));
            && (ok <==> SplitPasses(v, order, price))
            && (!ok ==> VenuesOf(sub, norm) == v)
            && (ok ==> Routed(sub.State(), norm.State(), trades) == RouteOf(v, order, price))
  {
    hide Judged, BestSplit, SettleBuy, SettleSell, Asked;
    if order.isBuy {
      trades, ok := RouteBuy(order.size, sub, norm);
    } else {
      var totalX := order.size / price;
      trades, ok := RouteSell(totalX, sub, norm);
    }
  }
}
