/** Conservation: every trade an order makes moves exactly what it reports, at the pool it was made with. */
module TradeFlows {
  import opened Reals
  import opened Codec
  import opened PoolModel
  import opened SplitSearch
  import opened Arbitrage
  import opened Routing
  import opened Engine

  // ----- What trades move -----

  /** What a trade adds to its pool's reserves. */
  function XMoved(t: RoutedTrade): real { if t.ammBuysX then t.amountX else -t.amountX }
  function YMoved(t: RoutedTrade): real { if t.ammBuysX then -t.amountY else t.amountY }

  /** What the trades of one of the two pools add to its reserves. */
  function XFlow(trades: seq<RoutedTrade>, isSubmission: bool): real {
    if trades == [] then 0.0
    else
      var t := trades[|trades| - 1];
      XFlow(trades[..|trades| - 1], isSubmission) + (if t.isSubmission == isSubmission then XMoved(t) else 0.0)
  }

  function YFlow(trades: seq<RoutedTrade>, isSubmission: bool): real {
    if trades == [] then 0.0
    else
      var t := trades[|trades| - 1];
      YFlow(trades[..|trades| - 1], isSubmission) + (if t.isSubmission == isSubmission then YMoved(t) else 0.0)
  }

  lemma {:induction false} FlowsAdd(a: seq<RoutedTrade>, b: seq<RoutedTrade>, isSubmission: bool)
    ensures XFlow(a + b, isSubmission) == XFlow(a, isSubmission) + XFlow(b, isSubmission)
    ensures YFlow(a + b, isSubmission) == YFlow(a, isSubmission) + YFlow(b, isSubmission)
    decreases |b|
  {
    if b == [] {
      assert a + b == a;
    } else {
      var n := |b| - 1;
      assert (a + b)[..|a + b| - 1] == a + b[..n];
      FlowsAdd(a, b[..n], isSubmission);
    }
  }

  lemma FlowOfOne(t: RoutedTrade, isSubmission: bool)
    ensures XFlow([t], isSubmission) == if t.isSubmission == isSubmission then XMoved(t) else 0.0
    ensures YFlow([t], isSubmission) == if t.isSubmission == isSubmission then YMoved(t) else 0.0
  {
    assert [t][..0] == [];
  }

  ghost predicate HasTrade(trades: seq<RoutedTrade>, isSubmission: bool) {
    exists t :: t in trades && t.isSubmission == isSubmission
  }

  /** The pool's reserves change by exactly what its own trades moved; without one it is as it was. */
  ghost predicate Moved(st: PoolState, next: PoolState, trades: seq<RoutedTrade>, isSubmission: bool) {
    && next.x == st.x + XFlow(trades, isSubmission) && next.y == st.y + YFlow(trades, isSubmission)
    && next.step == st.step && |next.storage| == |st.storage|
    && (!HasTrade(trades, isSubmission) ==> next == st)
  }

  // ----- One leg -----

  /** The trades of one leg, and nothing of the other pool's. */
  ghost predicate LegMoved(st: PoolState, next: PoolState, trades: seq<RoutedTrade>, isSubmission: bool) {
    && Moved(st, next, trades, isSubmission)
    && XFlow(trades, !isSubmission) == 0.0 && YFlow(trades, !isSubmission) == 0.0 && !HasTrade(trades, !isSubmission)
  }

  lemma BuyLegMoves(p: Program, st: PoolState, input: real, quoted: real, isSubmission: bool)
    ensures var (next, out) := BuyLeg(p, st, input, quoted);
            LegMoved(st, next, LegTrades(isSubmission, false, input, out), isSubmission)
  {
    BuyReportsReserveChange(p, st, input);
    var (next, out) := BuyLeg(p, st, input, quoted);
    hide ExecuteBuyX, QuoteBuyX;
    FlowOfOne(RoutedTrade(isSubmission, false, out, input), isSubmission);
    FlowOfOne(RoutedTrade(isSubmission, false, out, input), !isSubmission);
    assert 0.0 < out ==> RoutedTrade(isSubmission, false, out, input) in LegTrades(isSubmission, false, input, out);
    hide XFlow, YFlow;
    NoTrades(isSubmission);
  }

  lemma NoTrades(isSubmission: bool)
    ensures XFlow([], isSubmission) == 0.0 && YFlow([], isSubmission) == 0.0 && !HasTrade([], isSubmission)
    ensures XFlow([], !isSubmission) == 0.0 && YFlow([], !isSubmission) == 0.0 && !HasTrade([], !isSubmission)
  {}

  lemma SellLegMoves(p: Program, st: PoolState, input: real, quoted: real, isSubmission: bool)
    ensures var (next, out) := SellLeg(p, st, input, quoted);
            LegMoved(st, next, LegTrades(isSubmission, true, input, out), isSubmission)
  {
    SellReportsReserveChange(p, st, input);
    var (next, out) := SellLeg(p, st, input, quoted);
    hide ExecuteSellX, QuoteSellX;
    FlowOfOne(RoutedTrade(isSubmission, true, input, out), isSubmission);
    FlowOfOne(RoutedTrade(isSubmission, true, input, out), !isSubmission);
    assert 0.0 < out ==> RoutedTrade(isSubmission, true, input, out) in LegTrades(isSubmission, true, input, out);
    hide XFlow, YFlow;
    NoTrades(isSubmission);
  }

  /** Two legs side by side: each pool moved by its own. */
  lemma LegsMove(sub: PoolState, nextSub: PoolState, norm: PoolState, nextNorm: PoolState,
                 mine: seq<RoutedTrade>, other: seq<RoutedTrade>)
    requires LegMoved(sub, nextSub, mine, true) && LegMoved(norm, nextNorm, other, false)
    ensures Moved(sub, nextSub, mine + other, true) && Moved(norm, nextNorm, mine + other, false)
  {
    FlowsAdd(mine, other, true);
    FlowsAdd(mine, other, false);
    assert forall t :: t in mine ==> t in mine + other;
    assert forall t :: t in other ==> t in mine + other;
  }

  // ----- One order -----

  /** Both pools, after trades of either. */
  ghost predicate BothMoved(sub: PoolState, norm: PoolState, nextSub: PoolState, nextNorm: PoolState,
                            trades: seq<RoutedTrade>) {
    Moved(sub, nextSub, trades, true) && Moved(norm, nextNorm, trades, false)
  }

  lemma SettlementMoves(v: Venues, q: QuotePoint)
    ensures var r := SettleBuy(v, q); BothMoved(v.subState, v.normState, r.subState, r.normState, r.trades)
    ensures var r := SettleSell(v, q); BothMoved(v.subState, v.normState, r.subState, r.normState, r.trades)
  {
    BuyLegMoves(v.sub, v.subState, q.inSub, q.outSub, true);
    BuyLegMoves(v.norm, v.normState, q.inNorm, q.outNorm, false);
    SellLegMoves(v.sub, v.subState, q.inSub, q.outSub, true);
    SellLegMoves(v.norm, v.normState, q.inNorm, q.outNorm, false);
    hide BuyLeg, SellLeg, LegTrades, LegMoved, Moved;
    var (a, outA) := BuyLeg(v.sub, v.subState, q.inSub, q.outSub);
    var (b, outB) := BuyLeg(v.norm, v.normState, q.inNorm, q.outNorm);
    LegsMove(v.subState, a, v.normState, b, LegTrades(true, false, q.inSub, outA),
             LegTrades(false, false, q.inNorm, outB));
    var (c, outC) := SellLeg(v.sub, v.subState, q.inSub, q.outSub);
    var (d, outD) := SellLeg(v.norm, v.normState, q.inNorm, q.outNorm);
    LegsMove(v.subState, c, v.normState, d, LegTrades(true, true, q.inSub, outC),
             LegTrades(false, true, q.inNorm, outD));
  }

  lemma OrderMoves(v: Venues, order: Order, price: real)
    requires 0.0 < price
    ensures var r := RouteOf(v, order, price); BothMoved(v.subState, v.normState, r.subState, r.normState, r.trades)
  {
    hide SettleBuy, SettleSell, BestSplit, BothMoved;
    if order.isBuy {
      SettlementMoves(v, BestSplit(BuySplits(v, order.size), order.size));
    } else {
      var totalX := order.size / price;
      SettlementMoves(v, BestSplit(SellSplits(v, totalX), totalX));
    }
  }

  // ----- A step's orders -----

  /** Every trade the orders of a step make, in order. */
  ghost function AllTrades(s: Setup, w: World, orders: seq<Order>, price: real): seq<RoutedTrade>
    requires 0.0 < price
  {
    if orders == [] then []
    else
      var n := |orders| - 1;
      var prev := RouteAll(s, w, orders[..n], price);
      AllTrades(s, w, orders[..n], price) + RouteOf(Venues(s.sub, prev.sub, s.norm, prev.norm), orders[n], price).trades
  }

  lemma MovesAdd(st: PoolState, mid: PoolState, next: PoolState, a: seq<RoutedTrade>, b: seq<RoutedTrade>,
                 isSubmission: bool)
    requires Moved(st, mid, a, isSubmission) && Moved(mid, next, b, isSubmission)
    ensures Moved(st, next, a + b, isSubmission)
  {
    FlowsAdd(a, b, isSubmission);
    assert forall t :: t in a ==> t in a + b;
    assert forall t :: t in b ==> t in a + b;
  }

  /** Over all orders of a step either pool moves by exactly its own trades: each order meets the pools as the one
      before it left them. */
  lemma {:induction false} OrdersMove(s: Setup, w: World, orders: seq<Order>, price: real)
    requires 0.0 < price
    ensures var r := RouteAll(s, w, orders, price);
            BothMoved(w.sub, w.norm, r.sub, r.norm, AllTrades(s, w, orders, price))
    decreases |orders|
  {
    hide RouteOf, SubmissionEdge, Moved;
    if orders == [] {
      NothingMoved(w.sub, true);
      NothingMoved(w.norm, false);
    } else {
      var n := |orders| - 1;
      OrdersMove(s, w, orders[..n], price);
      var prev := RouteAll(s, w, orders[..n], price);
      var v := Venues(s.sub, prev.sub, s.norm, prev.norm);
      OrderMoves(v, orders[n], price);
      var r := RouteOf(v, orders[n], price);
      MovesAdd(w.sub, prev.sub, r.subState, AllTrades(s, w, orders[..n], price), r.trades, true);
      MovesAdd(w.norm, prev.norm, r.normState, AllTrades(s, w, orders[..n], price), r.trades, false);
    }
  }

  lemma NothingMoved(st: PoolState, isSubmission: bool)
    ensures Moved(st, st, [], isSubmission)
  {}
}
