/** What the edge of a run means, for any submission program. */
module EngineEdge {
  import opened Codec
  import opened PoolModel
  import opened Arbitrage
  import opened Arbitrageur
  import opened Routing
  import opened Engine
  import opened NormalizerPool

  /** An arbitrage step's edge is the change of the pool's worth, and a trade costs the pool at least the floor. */
  lemma ArbEdgeIsWorth(p: Program, st: PoolState, price: real, drawn: real, floor: real, root: real -> real)
    requires 0.0 < price
    ensures var (next, o) := StepOf(p, st, price, drawn, floor, root);
            && EdgeOf(o) == Worth(next, price) - Worth(st, price)
            && (o.Traded? ==> o.result.edge <= -floor)
            && !o.Aborted?
  {
    hide Chosen, ExecuteCandidate, Honest, Worth;
    ChosenIsHonest(p, st, price, drawn, floor, root);
    var c := Chosen(p, st, price, drawn, floor, root);
    if c.Some? {
      CandidateEdgeIsWorth(p, st, price, floor, c.value);
      var e := ExecuteCandidate(p, st, price, c.value);
      assert StepOf(p, st, price, drawn, floor, root) == (e.0, if e.1.None? then Idle else Traded(e.1.value));
    }
  }

  lemma ChosenIsHonest(p: Program, st: PoolState, price: real, drawn: real, floor: real, root: real -> real)
    requires 0.0 < price
    ensures var c := Chosen(p, st, price, drawn, floor, root); c.Some? ==> Honest(p, st, price, floor, c.value)
  {
    hide PlanBuy, PlanSell, PlanNormalizerBuy, PlanNormalizerSell, StartX, StartY, Honest;
    PlansAreHonest(p, st, price, StartY(drawn), StartX(drawn, price), floor, root);
  }

  lemma CandidateEdgeIsWorth(p: Program, st: PoolState, price: real, floor: real, c: Candidate)
    requires Honest(p, st, price, floor, c)
    ensures var (next, r) := ExecuteCandidate(p, st, price, c);
            && (if r.Some? then r.value.edge else 0.0) == Worth(next, price) - Worth(st, price)
            && (r.Some? ==> r.value.edge <= -floor)
  {
    HonestSettlesAsPlanned(p, st, price, floor, c);
    hide ExecuteCandidate, Honest, Worth;
    var e := ExecuteCandidate(p, st, price, c);
    assert e.1.None? ==> e.0 == st;
    assert e.1.Some? ==> e.1.value.edge == Worth(e.0, price) - Worth(st, price);
  }

  lemma OrderEdgeIsWorth(v: Venues, order: Order, price: real)
    requires 0.0 < price
    ensures var r := RouteOf(v, order, price);
            SubmissionEdge(r.trades, price) == Worth(r.subState, price) - Worth(v.subState, price)
  {
    hide SettleBuy, SettleSell, BestSplit, SubmissionEdge, Worth;
    if order.isBuy {
      SettlementEdgeIsWorth(v, BestSplit(BuySplits(v, order.size), order.size), price);
    } else {
      var totalX := order.size / price;
      SettlementEdgeIsWorth(v, BestSplit(SellSplits(v, totalX), totalX), price);
    }
  }

  lemma {:induction false} OrdersEdgeIsWorth(s: Setup, w: World, orders: seq<Order>, price: real)
    requires 0.0 < price
    ensures var r := RouteAll(s, w, orders, price); r.edge - w.edge == Worth(r.sub, price) - Worth(w.sub, price)
    decreases |orders|
  {
    hide RouteOf, SubmissionEdge, Worth;
    if orders != [] {
      var n := |orders| - 1;
      OrdersEdgeIsWorth(s, w, orders[..n], price);
      var prev := RouteAll(s, w, orders[..n], price);
      OrderEdgeIsWorth(Venues(s.sub, prev.sub, s.norm, prev.norm), orders[n], price);
    }
  }

  /** Within a step everything is marked at one price: the edge gained is the worth gained. */
  lemma StepEdgeIsWorth(s: Setup, w: World, step: u64, input: StepInput)
    requires 0.0 < input.price
    ensures var r := StepWorld(s, w, step, input);
            r.edge - w.edge == Worth(r.sub, input.price) - Worth(w.sub, input.price)
  {
    hide StepOf, RouteAll, EdgeOf;
    ArbEdgeIsWorth(s.sub, w.sub.(step := step), input.price, input.drawnSub, s.floor, s.root);
    OrdersEdgeIsWorth(s, ArbBoth(s, w, step, input), input.orders, input.price);
  }

  /** What merely holding X between steps gained or lost: the X held times each change of price. */
  ghost function HoldingProfit(s: Setup, w: World, inputs: seq<StepInput>): real
    requires Inputs(inputs)
  {
    if |inputs| <= 1 then 0.0
    else
      var n := |inputs| - 1;
      HoldingProfit(s, w, inputs[..n]) + RunWorld(s, w, inputs[..n]).sub.x * (inputs[n].price - inputs[n - 1].price)
  }

  lemma Rework(st: PoolState, next: PoolState, before: real, after: real)
    ensures Worth(next, after) - Worth(st, after) == Worth(next, after) - Worth(st, before) - st.x * (after - before)
  {
    assert st.x * (after - before) == st.x * after - st.x * before;
  }

  /** Edge is mark-to-market profit net of holding profit: the submission's worth at the last price, less its
      worth at the first, less what holding X through the price changes made. */
  lemma {:induction false} EdgeIsMarkToMarket(s: Setup, w: World, inputs: seq<StepInput>)
    requires Inputs(inputs) && inputs != []
    ensures var r := RunWorld(s, w, inputs);
            r.edge - w.edge == Worth(r.sub, inputs[|inputs| - 1].price) - Worth(w.sub, inputs[0].price)
                             - HoldingProfit(s, w, inputs)
    decreases |inputs|
  {
    hide StepWorld, Worth;
    var n := |inputs| - 1;
    var prev := RunWorld(s, w, inputs[..n]);
    var input := inputs[n];
    StepEdgeIsWorth(s, prev, n, input);
    if n > 0 {
      EdgeIsMarkToMarket(s, w, inputs[..n]);
      assert inputs[..n][n - 1] == inputs[n - 1] && inputs[..n][0] == inputs[0];
      Rework(prev.sub, RunWorld(s, w, inputs).sub, inputs[n - 1].price, input.price);
    }
  }

  // ----- The normalizer's fee -----

  lemma NormLegKeepsStorage(p: Program, st: PoolState, input: real, quoted: real)
    requires IsNormalizer(p)
    ensures BuyLeg(p, st, input, quoted).0.storage == st.storage
    ensures SellLeg(p, st, input, quoted).0.storage == st.storage
  {
    hide QuoteBuyX, QuoteSellX, AfterSwapInstruction;
  }

  lemma OrderKeepsFee(v: Venues, order: Order, price: real)
    requires 0.0 < price && IsNormalizer(v.norm)
    ensures RouteOf(v, order, price).normState.storage == v.normState.storage
  {
    hide BestSplit, BuyLeg, SellLeg, IsNormalizer;
    if order.isBuy {
      var q := BestSplit(BuySplits(v, order.size), order.size);
      NormLegKeepsStorage(v.norm, v.normState, q.inNorm, q.outNorm);
    } else {
      var totalX := order.size / price;
      var q := BestSplit(SellSplits(v, totalX), totalX);
      NormLegKeepsStorage(v.norm, v.normState, q.inNorm, q.outNorm);
    }
  }

  lemma ArbKeepsFee(p: Program, st: PoolState, price: real, drawn: real, floor: real, root: real -> real)
    requires IsNormalizer(p)
    ensures StepOf(p, st, price, drawn, floor, root).0.storage == st.storage
  {
    hide Chosen, QuoteBuyX, QuoteSellX, AfterSwapInstruction;
  }

  lemma {:induction false} OrdersKeepFee(s: Setup, w: World, orders: seq<Order>, price: real)
    requires 0.0 < price && IsNormalizer(s.norm)
    ensures RouteAll(s, w, orders, price).norm.storage == w.norm.storage
    decreases |orders|
  {
    hide RouteOf, SubmissionEdge, IsNormalizer;
    if orders != [] {
      var n := |orders| - 1;
      OrdersKeepFee(s, w, orders[..n], price);
      var prev := RouteAll(s, w, orders[..n], price);
      OrderKeepsFee(Venues(s.sub, prev.sub, s.norm, prev.norm), orders[n], price);
    }
  }

  /** In every state a run reaches, the fee the planner reads from the normalizer's storage is the fee it was
      configured with. */
  lemma {:induction false} RunKeepsFee(s: Setup, w: World, inputs: seq<StepInput>)
    requires Inputs(inputs) && IsNormalizer(s.norm)
    ensures RunWorld(s, w, inputs).norm.storage == w.norm.storage
    ensures FeeOf(RunWorld(s, w, inputs).norm) == FeeOf(w.norm)
    decreases |inputs|
  {
    hide StepOf, RouteAll, IsNormalizer;
    if inputs != [] {
      var n := |inputs| - 1;
      RunKeepsFee(s, w, inputs[..n]);
      var prev := RunWorld(s, w, inputs[..n]);
      ArbKeepsFee(s.norm, prev.norm.(step := n), inputs[n].price, inputs[n].drawnNorm, s.floor, s.root);
      OrdersKeepFee(s, ArbBoth(s, prev, n, inputs[n]), inputs[n].orders, inputs[n].price);
    }
  }
}
