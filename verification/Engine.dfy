/** A simulation run: each step moves the price, lets the arbitrageur trade both pools, and routes the orders. */
module Engine {
  import opened Codec
  import opened PoolModel
  import opened Amm
  import opened Arbitrage
  import opened Arbitrageur
  import opened Routing
  import opened OrderRouter

  /** What a step draws at random: the price, the two starting sizes of the arbitrageur, and the orders. */
  datatype StepInput = StepInput(price: real, drawnSub: real, drawnNorm: real, orders: seq<Order>)

  /** What a run is given once and for all. */
  datatype Setup = Setup(sub: Program, norm: Program, floor: real, root: real -> real)

  /** The two pools, and the edge of the submission so far. */
  datatype World = World(sub: PoolState, norm: PoolState, edge: real)

  // ----- The run as a function -----

  function RouteAll(s: Setup, w: World, orders: seq<Order>, price: real): World
    requires 0.0 < price
  {
    if orders == [] then w
    else
      var prev := RouteAll(s, w, orders[..|orders| - 1], price);
      var r := RouteOf(Venues(s.sub, prev.sub, s.norm, prev.norm), orders[|orders| - 1], price);
      World(r.subState, r.normState, prev.edge + SubmissionEdge(r.trades, price))
  }

  function EdgeOf(o: Outcome): real { if o.Traded? then o.result.edge else 0.0 }

  function ArbBoth(s: Setup, w: World, step: u64, input: StepInput): World {
    var (sub, outcome) := StepOf(s.sub, w.sub.(step := step), input.price, input.drawnSub, s.floor, s.root);
    var (norm, _) := StepOf(s.norm, w.norm.(step := step), input.price, input.drawnNorm, s.floor, s.root);
    World(sub, norm, w.edge + EdgeOf(outcome))
  }

  function StepWorld(s: Setup, w: World, step: u64, input: StepInput): World
    requires 0.0 < input.price
  {
    RouteAll(s, ArbBoth(s, w, step, input), input.orders, input.price)
  }

  ghost predicate Inputs(inputs: seq<StepInput>) {
    |inputs| < 0x1_0000_0000 && forall i :: 0 <= i < |inputs| ==> 0.0 < inputs[i].price
  }

  ghost function RunWorld(s: Setup, w: World, inputs: seq<StepInput>): World
    requires Inputs(inputs)
  {
    if inputs == [] then w
    else
      var n := |inputs| - 1;
      StepWorld(s, RunWorld(s, w, inputs[..n]), n, inputs[n])
  }

  // ----- Which runs complete -----

  ghost predicate OrdersPass(s: Setup, w: World, orders: seq<Order>, price: real)
    requires 0.0 < price
  {
    orders == [] ||
    (OrdersPass(s, w, orders[..|orders| - 1], price) &&
     var prev := RouteAll(s, w, orders[..|orders| - 1], price);
     SplitPasses(Venues(s.sub, prev.sub, s.norm, prev.norm), orders[|orders| - 1], price))
  }

  ghost predicate StepPasses(s: Setup, w: World, step: u64, input: StepInput)
    requires 0.0 < input.price
  {
    && (s.sub.name != "normalizer" ==> ShapesPass(s.sub, w.sub.(step := step), input.price, input.drawnSub))
    && (s.norm.name != "normalizer" ==> ShapesPass(s.norm, w.norm.(step := step), input.price, input.drawnNorm))
    && OrdersPass(s, ArbBoth(s, w, step, input), input.orders, input.price)
  }

  ghost predicate RunPasses(s: Setup, w: World, inputs: seq<StepInput>)
    requires Inputs(inputs)
  {
    inputs == [] ||
    (var n := |inputs| - 1;
     RunPasses(s, w, inputs[..n]) && StepPasses(s, RunWorld(s, w, inputs[..n]), n, inputs[n]))
  }

  // ----- The loop as it runs -----

  method RouteOrders(orders: seq<Order>, sub: BpfAmm, norm: BpfAmm, price: real, edge: real, ghost s: Setup)
    returns (submissionEdge: real, ok: bool)
    requires sub != norm && 0.0 < price && s.sub == sub.program && s.norm == norm.program
    modifies sub, norm
    ensures var w := old(World(sub.State(), norm.State(), edge));
            && (ok <==> OrdersPass(s, w, orders, price))
            && (ok ==> World(sub.State(), norm.State(), submissionEdge) == RouteAll(s, w, orders, price))
  {
    hide RouteOf, SplitPasses;
    ghost var w := World(sub.State(), norm.State(), edge);
    submissionEdge := edge;
    var i := 0;
    while i < |orders|
      invariant 0 <= i <= |orders|
      invariant OrdersPass(s, w, orders[..i], price)
      invariant World(sub.State(), norm.State(), submissionEdge) == RouteAll(s, w, orders[..i], price)
    {
      assert orders[..i + 1][..i] == orders[..i];
      var trades, accepted := RouteOrder(orders[i], sub, norm, price);
      if !accepted {
        PrefixPasses(s, w, orders, price, i + 1);
        return edge, false;
      }
      var tradesEdge := AddEdges(trades, price);
      submissionEdge := submissionEdge + tradesEdge;
      i := i + 1;
    }
    assert orders[..i] == orders;
    return submissionEdge, true;
  }

  lemma {:induction false} PrefixPasses(s: Setup, w: World, orders: seq<Order>, price: real, n: nat)
    requires 0.0 < price && n <= |orders| && !OrdersPass(s, w, orders[..n], price)
    ensures !OrdersPass(s, w, orders, price)
    decreases |orders| - n
  {
    if n < |orders| {
      assert orders[..n + 1][..n] == orders[..n];
      PrefixPasses(s, w, orders, price, n + 1);
    } else {
      assert orders[..n] == orders;
    }
  }

  method AddEdges(trades: seq<RoutedTrade>, price: real) returns (edge: real)
    ensures edge == SubmissionEdge(trades, price)
  {
    edge := 0.0;
    var i := 0;
    while i < |trades|
      invariant 0 <= i <= |trades|
      invariant edge == SubmissionEdge(trades[..i], price)
    {
      assert trades[..i + 1][..i] == trades[..i];
      var t := trades[i];
      if t.isSubmission {
        var tradeEdge := if t.ammBuysX then SellEdge(t.amountX, t.amountY, price)
                         else BuyEdge(t.amountY, t.amountX, price);
        edge := edge + tradeEdge;
      }
      i := i + 1;
    }
    assert trades[..i] == trades;
  }

  method RunStep(arb: Arbitrageur, sub: BpfAmm, norm: BpfAmm, step: u64, input: StepInput, edge: real,
                 root: real -> real, ghost s: Setup)
    returns (submissionEdge: real, ok: bool)
    requires sub != norm && 0.0 < input.price
    requires s == Setup(sub.program, norm.program, arb.minArbProfit, root)
    modifies sub, norm
    ensures var w := old(World(sub.State(), norm.State(), edge));
            && (ok <==> StepPasses(s, w, step, input))
            && (ok ==> World(sub.State(), norm.State(), submissionEdge) == StepWorld(s, w, step, input))
  {
    hide StepOf, ShapesPass, RouteAll, OrdersPass;
    submissionEdge := edge;
    sub.SetCurrentStep(step);
    norm.SetCurrentStep(step);
    var outcome := arb.ExecuteArb(sub, input.price, input.drawnSub, root);
    if outcome.Aborted? {
      return submissionEdge, false;
    }
    if outcome.Traded? {
      submissionEdge := submissionEdge + outcome.result.edge;
    }
    var other := arb.ExecuteArb(norm, input.price, input.drawnNorm, root);
    if other.Aborted? {
      return submissionEdge, false;
    }
    submissionEdge, ok := RouteOrders(input.orders, sub, norm, input.price, submissionEdge, s);
  }

  /** The whole run. A completed run ends in the world its inputs determine; one that does not complete was
      stopped by the shape check. */
  method RunSim(arb: Arbitrageur, sub: BpfAmm, norm: BpfAmm, inputs: seq<StepInput>, root: real -> real, ghost s: Setup)
    returns (submissionEdge: real, ok: bool)
    requires sub != norm && Inputs(inputs)
    requires s == Setup(sub.program, norm.program, arb.minArbProfit, root)
    modifies sub, norm
    ensures var w := old(World(sub.State(), norm.State(), 0.0));
            && (ok <==> RunPasses(s, w, inputs))
            && (ok ==> World(sub.State(), norm.State(), submissionEdge) == RunWorld(s, w, inputs))
  {
    hide StepPasses, StepWorld;
    ghost var w := World(sub.State(), norm.State(), 0.0);
    submissionEdge := 0.0;
    var step := 0;
    while step < |inputs|
      invariant 0 <= step <= |inputs| && Inputs(inputs[..step])
      invariant RunPasses(s, w, inputs[..step])
      invariant World(sub.State(), norm.State(), submissionEdge) == RunWorld(s, w, inputs[..step])
    {
      assert inputs[..step + 1][..step] == inputs[..step];
      var accepted;
      submissionEdge, accepted := RunStep(arb, sub, norm, step, inputs[step], submissionEdge, root, s);
      if !accepted {
        PrefixRuns(s, w, inputs, step + 1);
        return submissionEdge, false;
      }
      step := step + 1;
    }
    assert inputs[..step] == inputs;
    return submissionEdge, true;
  }

  lemma {:induction false} PrefixRuns(s: Setup, w: World, inputs: seq<StepInput>, n: nat)
    requires Inputs(inputs) && n <= |inputs| && Inputs(inputs[..n]) && !RunPasses(s, w, inputs[..n])
    ensures !RunPasses(s, w, inputs)
    decreases |inputs| - n
  {
    if n < |inputs| {
      assert inputs[..n + 1][..n] == inputs[..n];
      PrefixRuns(s, w, inputs, n + 1);
    } else {
      assert inputs[..n] == inputs;
    }
  }
}
