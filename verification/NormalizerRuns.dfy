/** The pool named normalizer over a step and over a run: what arbitrage leaves of it, and what it earns. */
module NormalizerRuns {
  import opened Reals
  import opened Codec
  import opened PoolModel
  import opened NormalizerPool
  import opened SplitSearch
  import opened Arbitrage
  import opened Arbitrageur
  import opened Routing
  import opened Engine
  import opened EngineEdge
  import opened TradeFlows
  import opened StepChoice
  import opened ClosedForm
  import opened ClosedFormPlans

  // ----- After the arbitrage of a step -----

  /** At an exact root the two closed-form plans are never both there. */
  lemma PlansExclude(p: Program, st: PoolState, price: real, floor: real, root: real -> real)
    requires 0.0 < price && IsRoot(root)
    ensures PlanNormalizerBuy(p, st, price, floor, root).None? || PlanNormalizerSell(p, st, price, floor, root).None?
  {
    hide IsRoot, QuoteBuyX, QuoteSellX, BuyTargetSquared, SellTargetSquared, MinSellInputX;
    var g, inverse := Gamma(st), Inverse(price);
    assert g <= 1.0;
    hide Gamma, Inverse;
    if 0.0 < g && 0.0 < st.x && 0.0 < st.y {
      BuyTarget(st, price, root);
      SellTarget(st, price, inverse, root);
      hide Target, Market;
      NeverBothOpen(price, inverse, st.x, st.y, g, root(BuyTargetSquared(price, st.x, g, st.y)),
                    root(SellTargetSquared(price, st.x, g, st.y)));
    }
  }

  /** The pools after the arbitrage of a step, and what it made of each: the better of either pool's own plans is
      settled, in the submission from one draw and in the normalizer by closed form. */
  ghost predicate Arbitraged(s: Setup, w: World, step: u64, input: StepInput, a: World, mine: Outcome, other: Outcome)
    requires 0.0 < input.price
  {
    var sub, norm := w.sub.(step := step), w.norm.(step := step);
    && Settles(s.sub, sub, input.price, OwnBuy(s.sub, sub, input.price, input.drawnSub, s.floor, s.root),
               OwnSell(s.sub, sub, input.price, input.drawnSub, s.floor, s.root), a.sub, mine)
    && Settles(s.norm, norm, input.price, PlanNormalizerBuy(s.norm, norm, input.price, s.floor, s.root),
               PlanNormalizerSell(s.norm, norm, input.price, s.floor, s.root), a.norm, other)
    && a.edge == w.edge + (if mine.Traded? then mine.result.edge else 0.0)
    && a.sub.step == step && a.norm.step == step
  }

  lemma StepKeepsStep(p: Program, st: PoolState, price: real, drawn: real, floor: real, root: real -> real)
    ensures StepOf(p, st, price, drawn, floor, root).0.step == st.step
  {
    if 0.0 < price {
      ChosenIsHonest(p, st, price, drawn, floor, root);
      hide Chosen, ExecuteCandidate, Honest;
      var c := Chosen(p, st, price, drawn, floor, root);
      if c.Some? {
        HonestSettlesAsPlanned(p, st, price, floor, c.value);
      }
    }
  }

  lemma ArbSettlesBoth(s: Setup, w: World, step: u64, input: StepInput) returns (mine: Outcome, other: Outcome)
    requires 0.0 < input.price && s.norm.name == "normalizer"
    ensures Arbitraged(s, w, step, input, ArbBoth(s, w, step, input), mine, other)
  {
    var sub, norm := w.sub.(step := step), w.norm.(step := step);
    StepSettlesTheBetter(s.sub, sub, input.price, input.drawnSub, s.floor, s.root);
    StepSettlesTheBetter(s.norm, norm, input.price, input.drawnNorm, s.floor, s.root);
    StepKeepsStep(s.sub, sub, input.price, input.drawnSub, s.floor, s.root);
    StepKeepsStep(s.norm, norm, input.price, input.drawnNorm, s.floor, s.root);
    hide StepOf, Settles, PlanBuy, PlanSell, PlanNormalizerBuy, PlanNormalizerSell, StartX, StartY, MinBuyInputY,
         MinSellInputX;
    mine := StepOf(s.sub, sub, input.price, input.drawnSub, s.floor, s.root).1;
    other := StepOf(s.norm, norm, input.price, input.drawnNorm, s.floor, s.root).1;
  }

  /** A whole step: both pools arbitraged, then moved by exactly the trades of the step's orders, and told its number.
      */
  lemma StepArbitragesThenRoutes(s: Setup, w: World, step: u64, input: StepInput)
    returns (a: World, mine: Outcome, other: Outcome)
    requires 0.0 < input.price && s.norm.name == "normalizer"
    ensures Arbitraged(s, w, step, input, a, mine, other)
    ensures var r := StepWorld(s, w, step, input);
            && BothMoved(a.sub, a.norm, r.sub, r.norm, AllTrades(s, a, input.orders, input.price))
            && r.sub.step == step && r.norm.step == step
            && (input.orders == [] ==> r == a)
  {
    mine, other := ArbSettlesBoth(s, w, step, input);
    a := ArbBoth(s, w, step, input);
    OrdersMove(s, a, input.orders, input.price);
    hide ArbBoth, AllTrades, Settles, XFlow, YFlow;
  }

  /** After a step without orders neither closed-form planner finds anything in the normalizer at the step's price,
      where its trade was clamped by neither end and the fee covers the quotes. */
  lemma NothingLeftAfterStep(s: Setup, w: World, step: u64, input: StepInput, later: real)
    requires 0.0 < input.price && s.norm.name == "normalizer" && IsNormalizer(s.norm) && Sound(w.norm) && IsRoot(s.root)
    requires
      || (IsUnclampedBuy(s.norm, w.norm.(step := step), input.price, s.floor, s.root) &&
          FeeCoversBuy(w.norm, input.price))
      || (IsUnclampedSell(s.norm, w.norm.(step := step), input.price, s.floor, s.root) &&
          FeeCoversSell(w.norm, input.price))
    requires input.orders == []
    ensures var r := StepWorld(s, w, step, input).norm;
            PlanNormalizerBuy(s.norm, r, input.price, later, s.root).None? &&
              PlanNormalizerSell(s.norm, r, input.price, later, s.root).None?
  {
    var st := w.norm.(step := step);
    SoundAtStep(w.norm, step, input.price);
    hide Sound, IsNormalizer, IsRoot, FeeCoversBuy, FeeCoversSell, PlanNormalizerBuy, PlanNormalizerSell, StepWorld;
    hide IsUnclampedBuy, IsUnclampedSell;
    var a, mine, other := StepArbitragesThenRoutes(s, w, step, input);
    NothingLeftAfterArb(s.norm, st, input.price, s.floor, s.root, a.norm, other, later);
  }

  lemma SoundAtStep(st: PoolState, step: u64, price: real)
    requires Sound(st) && 0.0 < price
    ensures var told := st.(step := step);
            && Sound(told) && (FeeCoversBuy(st, price) ==> FeeCoversBuy(told, price))
            && (FeeCoversSell(st, price) ==> FeeCoversSell(told, price))
  {}

  lemma NothingLeftAfterArb(p: Program, st: PoolState, price: real, floor: real, root: real -> real, next: PoolState,
                            o: Outcome, later: real)
    requires 0.0 < price && IsNormalizer(p) && Sound(st) && IsRoot(root)
    requires Settles(p, st, price, PlanNormalizerBuy(p, st, price, floor, root),
                     PlanNormalizerSell(p, st, price, floor, root), next, o)
    requires (IsUnclampedBuy(p, st, price, floor, root) && FeeCoversBuy(st, price)) ||
             (IsUnclampedSell(p, st, price, floor, root) && FeeCoversSell(st, price))
    ensures PlanNormalizerBuy(p, next, price, later, root).None? &&
            PlanNormalizerSell(p, next, price, later, root).None?
  {
    var buy, sell := PlanNormalizerBuy(p, st, price, floor, root), PlanNormalizerSell(p, st, price, floor, root);
    var unclamped := IsUnclampedBuy(p, st, price, floor, root) && FeeCoversBuy(st, price);
    hide Sound, IsNormalizer, IsRoot, FeeCoversBuy, FeeCoversSell, PlanNormalizerBuy, PlanNormalizerSell;
    PlansExclude(p, st, price, floor, root);
    OnlyPlanIsSettled(p, st, price, buy, sell, next, o);
    hide Settles, ExecuteCandidate;
    if unclamped {
      NothingAfterBuy(p, st, price, floor, root, later);
    } else {
      NothingAfterSell(p, st, price, floor, root, later);
    }
  }

  lemma OnlyPlanIsSettled(p: Program, st: PoolState, price: real, buy: Option<Candidate>, sell: Option<Candidate>,
                          next: PoolState, o: Outcome)
    requires Settles(p, st, price, buy, sell, next, o) && (buy.None? || sell.None?)
    ensures buy.Some? ==> next == ExecuteCandidate(p, st, price, buy.value).0
    ensures sell.Some? ==> next == ExecuteCandidate(p, st, price, sell.value).0
  {
    hide ExecuteCandidate;
  }

  /** After a run of any length both pools have been told the number of its last step. */
  lemma RunTellsSteps(s: Setup, w: World, inputs: seq<StepInput>)
    requires Inputs(inputs) && inputs != [] && s.norm.name == "normalizer"
    ensures var r := RunWorld(s, w, inputs); r.sub.step == |inputs| - 1 && r.norm.step == |inputs| - 1
  {
    var n := |inputs| - 1;
    var a, mine, other := StepArbitragesThenRoutes(s, RunWorld(s, w, inputs[..n]), n, inputs[n]);
    hide StepWorld, Arbitraged, BothMoved;
  }

  // ----- What the normalizer earns -----

  /** What a pool gains from its own trades at a price. */
  function PoolEdge(trades: seq<RoutedTrade>, isSubmission: bool, price: real): real {
    YFlow(trades, isSubmission) + XFlow(trades, isSubmission) * price
  }

  /** The edge counted for the submission is that of its own trades. */
  lemma {:induction false} SubmissionEdgeIsPoolEdge(trades: seq<RoutedTrade>, price: real)
    ensures SubmissionEdge(trades, price) == PoolEdge(trades, true, price)
    decreases |trades|
  {
    if trades != [] {
      var n := |trades| - 1;
      SubmissionEdgeIsPoolEdge(trades[..n], price);
      var t := trades[n];
      AddMove(XFlow(trades[..n], true), if t.isSubmission then XMoved(t) else 0.0, price);
    }
  }

  lemma AddMove(x: real, dx: real, price: real)
    ensures (x + dx) * price == x * price + dx * price
  {}

  lemma MovedWorth(st: PoolState, next: PoolState, trades: seq<RoutedTrade>, isSubmission: bool, price: real)
    requires Moved(st, next, trades, isSubmission)
    ensures Worth(next, price) - Worth(st, price) == PoolEdge(trades, isSubmission, price)
  {
    hide XFlow, YFlow;
    AddMove(st.x, XFlow(trades, isSubmission), price);
  }

  /** What the normalizer gains in a step: the edge of the arbitrage against it and that of its trades. */
  ghost function StepGain(s: Setup, w: World, step: u64, input: StepInput): real
    requires 0.0 < input.price
  {
    var o := StepOf(s.norm, w.norm.(step := step), input.price, input.drawnNorm, s.floor, s.root).1;
    EdgeOf(o) + PoolEdge(AllTrades(s, ArbBoth(s, w, step, input), input.orders, input.price), false, input.price)
  }

  /** What it gains over a run. */
  ghost function NormalizerGain(s: Setup, w: World, inputs: seq<StepInput>): real
    requires Inputs(inputs)
  {
    if inputs == [] then 0.0
    else
      var n := |inputs| - 1;
      NormalizerGain(s, w, inputs[..n]) + StepGain(s, RunWorld(s, w, inputs[..n]), n, inputs[n])
  }

  /** What merely holding X between steps gained or lost for the normalizer. */
  ghost function NormalizerHolding(s: Setup, w: World, inputs: seq<StepInput>): real
    requires Inputs(inputs)
  {
    if |inputs| <= 1 then 0.0
    else
      var n := |inputs| - 1;
      NormalizerHolding(s, w, inputs[..n]) +
        RunWorld(s, w, inputs[..n]).norm.x * (inputs[n].price - inputs[n - 1].price)
  }

  lemma NormalizerArbWorth(s: Setup, w: World, step: u64, input: StepInput)
    requires 0.0 < input.price
    ensures var o := StepOf(s.norm, w.norm.(step := step), input.price, input.drawnNorm, s.floor, s.root).1;
            Worth(ArbBoth(s, w, step, input).norm, input.price) - Worth(w.norm, input.price) == EdgeOf(o)
  {
    hide StepOf, EdgeOf;
    ArbEdgeIsWorth(s.norm, w.norm.(step := step), input.price, input.drawnNorm, s.floor, s.root);
  }

  lemma NormalizerStepWorth(s: Setup, w: World, step: u64, input: StepInput)
    requires 0.0 < input.price
    ensures Worth(StepWorld(s, w, step, input).norm, input.price) - Worth(w.norm, input.price) ==
            StepGain(s, w, step, input)
  {
    hide StepOf, ArbBoth, RouteAll, AllTrades, Moved, PoolEdge, Worth, EdgeOf;
    NormalizerArbWorth(s, w, step, input);
    var a := ArbBoth(s, w, step, input);
    OrdersMove(s, a, input.orders, input.price);
    MovedWorth(a.norm, StepWorld(s, w, step, input).norm, AllTrades(s, a, input.orders, input.price), false,
               input.price);
  }

  /** The normalizer too is marked to market: its worth at the last price, less its worth at the first, less what
      holding X through the price changes made, is what its arbitrages and its trades gained. */
  lemma {:induction false} NormalizerIsMarkToMarket(s: Setup, w: World, inputs: seq<StepInput>)
    requires Inputs(inputs) && inputs != []
    ensures var r := RunWorld(s, w, inputs);
            NormalizerGain(s, w, inputs) ==
              Worth(r.norm, inputs[|inputs| - 1].price) - Worth(w.norm, inputs[0].price) -
                NormalizerHolding(s, w, inputs)
    decreases |inputs|
  {
    hide StepWorld, Worth, StepGain;
    var n := |inputs| - 1;
    var prev, input := RunWorld(s, w, inputs[..n]), inputs[n];
    NormalizerStepWorth(s, prev, n, input);
    if n > 0 {
      NormalizerIsMarkToMarket(s, w, inputs[..n]);
      assert inputs[..n][n - 1] == inputs[n - 1] && inputs[..n][0] == inputs[0];
      Rework(prev.norm, RunWorld(s, w, inputs).norm, inputs[n - 1].price, input.price);
    }
  }
}
