/** The product of a constant-product pool's reserves over orders, steps and whole runs. */
module ProductRuns {
  import opened Reals
  import opened Codec
  import opened Nano
  import opened PoolModel
  import opened NormalizerPool
  import opened SplitSearch
  import opened Arbitrage
  import opened Arbitrageur
  import opened Routing
  import opened Engine

  /** A configured pool with positive reserves whose product is at least `k`. */
  ghost predicate Holds(st: PoolState, k: real) {
    Configured(st) && 0.0 < st.x && 0.0 < st.y && k <= st.x * st.y
  }

  /** Both reserves fit a word of nanos. */
  predicate Unsaturated(st: PoolState) {
    st.x * 1000000000.0 < 18446744073709551616.0 && st.y * 1000000000.0 < 18446744073709551616.0
  }

  /** A product of 184468 leaves neither reserve below ten thousand nanos, as long as the other fits a word. */
  lemma ReservesAreWorthTheFee(st: PoolState, k: real)
    requires Holds(st, k) && 184468.0 <= k && Unsaturated(st)
    ensures FeeOf(st) * (ToNano(st.x) + 1) >= 10000 && FeeOf(st) * (ToNano(st.y) + 1) >= 10000
  {
    hide FeeOf, Configured;
    AtLeastTenThousand(st.x, st.y);
    AtLeastTenThousand(st.y, st.x);
    FeeIsWorthANano(st, ToNano(st.x));
    FeeIsWorthANano(st, ToNano(st.y));
  }

  lemma AtLeastTenThousand(x: real, y: real)
    requires 0.0 < x && 0.0 < y && 184468.0 <= x * y && y * 1000000000.0 < 18446744073709551616.0
    ensures ToNano(x) >= 10000
  {
    if x < 0.00001 {
      Scale(x, 0.00001, y);
      assert false;
    }
  }

  // ----- One trade -----

  lemma SameStorage(st: PoolState, next: PoolState)
    requires Configured(st) && next.storage == st.storage
    ensures Configured(next)
  {}

  lemma StillHolds(st: PoolState, next: PoolState, k: real)
    requires Holds(st, k) && next.storage == st.storage && 0.0 < next.x && 0.0 < next.y
    requires st.x * st.y <= next.x * next.y
    ensures Holds(next, k)
  {
    SameStorage(st, next);
  }

  lemma TradesHold(p: Program, st: PoolState, input: real, k: real)
    requires IsNormalizer(p) && Holds(st, k) && 184468.0 <= k && Unsaturated(st)
    ensures Holds(ExecuteBuyX(p, st, input).0, k) && Holds(ExecuteSellX(p, st, input).0, k)
  {
    hide ExecuteBuyX, ExecuteSellX, QuoteBuyX, QuoteSellX, IsNormalizer, ToNano, Configured, FeeOf;
    ReservesAreWorthTheFee(st, k);
    BuyReportsReserveChange(p, st, input);
    SellReportsReserveChange(p, st, input);
    NormalizerNeverRejects(p, st, input);
    assert 0.0 < st.x && 0.0 < st.y && Configured(st);
    BuyKeepsProduct(p, st, input);
    SellKeepsProduct(p, st, input);
    hide Holds, Unsaturated;
    StillHolds(st, ExecuteBuyX(p, st, input).0, k);
    StillHolds(st, ExecuteSellX(p, st, input).0, k);
  }

  lemma LegsHold(p: Program, st: PoolState, input: real, quoted: real, k: real)
    requires IsNormalizer(p) && Holds(st, k) && 184468.0 <= k && Unsaturated(st)
    ensures Holds(BuyLeg(p, st, input, quoted).0, k) && Holds(SellLeg(p, st, input, quoted).0, k)
  {
    TradesHold(p, st, input, k);
    hide Holds, ExecuteBuyX, ExecuteSellX, IsNormalizer, Unsaturated;
  }

  lemma CandidateHolds(p: Program, st: PoolState, price: real, c: Candidate, k: real)
    requires IsNormalizer(p) && Holds(st, k) && 184468.0 <= k && Unsaturated(st)
    ensures Holds(ExecuteCandidate(p, st, price, c).0, k)
  {
    TradesHold(p, st, c.input, k);
    hide Holds, ExecuteBuyX, ExecuteSellX, IsNormalizer, Unsaturated;
  }

  // ----- One order, one step -----

  /** Over an order the product of neither pool falls, where the pool is a constant-product one. */
  lemma OrderHolds(v: Venues, order: Order, price: real, k: real)
    requires 0.0 < price && 184468.0 <= k
    ensures var r := RouteOf(v, order, price);
            IsNormalizer(v.norm) && Holds(v.normState, k) && Unsaturated(v.normState) ==> Holds(r.normState, k)
    ensures var r := RouteOf(v, order, price);
            IsNormalizer(v.sub) && Holds(v.subState, k) && Unsaturated(v.subState) ==> Holds(r.subState, k)
  {
    hide BestSplit, BuyLeg, SellLeg, IsNormalizer, Holds, Unsaturated;
    var totalX := order.size / price;
    var q := if order.isBuy then BestSplit(BuySplits(v, order.size), order.size)
             else BestSplit(SellSplits(v, totalX), totalX);
    if IsNormalizer(v.norm) && Holds(v.normState, k) && Unsaturated(v.normState) {
      LegsHold(v.norm, v.normState, q.inNorm, q.outNorm, k);
    }
    if IsNormalizer(v.sub) && Holds(v.subState, k) && Unsaturated(v.subState) {
      LegsHold(v.sub, v.subState, q.inSub, q.outSub, k);
    }
  }

  /** The normalizer's reserves fit a word before each of the orders. */
  ghost predicate FitsBeforeOrders(s: Setup, w: World, orders: seq<Order>, price: real)
    requires 0.0 < price
  {
    forall n :: 0 <= n < |orders| ==> Unsaturated(RouteAll(s, w, orders[..n], price).norm)
  }

  lemma {:induction false} OrdersHold(s: Setup, w: World, orders: seq<Order>, price: real, k: real)
    requires 0.0 < price && 184468.0 <= k && IsNormalizer(s.norm) && Holds(w.norm, k)
    requires FitsBeforeOrders(s, w, orders, price)
    ensures Holds(RouteAll(s, w, orders, price).norm, k)
    decreases |orders|
  {
    hide RouteOf, SubmissionEdge, IsNormalizer, Holds, Unsaturated;
    if orders != [] {
      var n := |orders| - 1;
      var prev := RouteAll(s, w, orders[..n], price);
      assert FitsBeforeOrders(s, w, orders[..n], price) by {
        forall i | 0 <= i < n ensures Unsaturated(RouteAll(s, w, orders[..n][..i], price).norm) {
          assert orders[..n][..i] == orders[..i];
        }
      }
      OrdersHold(s, w, orders[..n], price, k);
      OrderHolds(Venues(s.sub, prev.sub, s.norm, prev.norm), orders[n], price, k);
    }
  }

  lemma ArbHolds(p: Program, st: PoolState, price: real, drawn: real, floor: real, root: real -> real, k: real)
    requires IsNormalizer(p) && Holds(st, k) && 184468.0 <= k && Unsaturated(st)
    ensures Holds(StepOf(p, st, price, drawn, floor, root).0, k)
  {
    hide Chosen, ExecuteCandidate, IsNormalizer, Holds, Unsaturated;
    if 0.0 < price {
      var c := Chosen(p, st, price, drawn, floor, root);
      if c.Some? {
        CandidateHolds(p, st, price, c.value, k);
      }
    }
  }

  // ----- A run -----

  /** The normalizer's reserves fit a word before the arbitrage of each step and before each order. */
  ghost predicate FitsAlong(s: Setup, w: World, inputs: seq<StepInput>)
    requires Inputs(inputs)
  {
    forall n :: 0 <= n < |inputs| ==>
      var prev := RunWorld(s, w, inputs[..n]);
      Unsaturated(prev.norm) && FitsBeforeOrders(s, ArbBoth(s, prev, n, inputs[n]), inputs[n].orders, inputs[n].price)
  }

  /** Over a whole run the normalizer's product never falls below what it was, from the usual reserves on, as long as no
      reserve outgrows a word. */
  lemma {:induction false} RunHolds(s: Setup, w: World, inputs: seq<StepInput>, k: real)
    requires Inputs(inputs) && IsNormalizer(s.norm) && Holds(w.norm, k) && 184468.0 <= k && FitsAlong(s, w, inputs)
    ensures Holds(RunWorld(s, w, inputs).norm, k)
    decreases |inputs|
  {
    hide StepOf, RouteAll, IsNormalizer, Holds, Unsaturated, FitsBeforeOrders;
    if inputs != [] {
      var n := |inputs| - 1;
      assert FitsAlong(s, w, inputs[..n]) by {
        forall i | 0 <= i < n
          ensures var prev := RunWorld(s, w, inputs[..n][..i]);
                  Unsaturated(prev.norm) &&
                  FitsBeforeOrders(s, ArbBoth(s, prev, i, inputs[..n][i]), inputs[..n][i].orders, inputs[..n][i].price)
        {
          assert inputs[..n][..i] == inputs[..i];
        }
      }
      RunHolds(s, w, inputs[..n], k);
      var prev := RunWorld(s, w, inputs[..n]);
      NextStepHolds(prev.norm, n, k);
      ArbHolds(s.norm, prev.norm.(step := n), inputs[n].price, inputs[n].drawnNorm, s.floor, s.root, k);
      OrdersHold(s, ArbBoth(s, prev, n, inputs[n]), inputs[n].orders, inputs[n].price, k);
    }
  }

  lemma NextStepHolds(st: PoolState, step: u64, k: real)
    requires Holds(st, k)
    ensures Holds(st.(step := step), k) && (Unsaturated(st) ==> Unsaturated(st.(step := step)))
  {}

  lemma RunKeepsProduct(s: Setup, w: World, inputs: seq<StepInput>)
    requires Inputs(inputs) && IsNormalizer(s.norm) && Configured(w.norm) && 0.0 < w.norm.x && 0.0 < w.norm.y
    requires 184468.0 <= w.norm.x * w.norm.y && FitsAlong(s, w, inputs)
    ensures var r := RunWorld(s, w, inputs).norm; w.norm.x * w.norm.y <= r.x * r.y && 0.0 < r.x && 0.0 < r.y
  {
    hide FitsAlong, RunWorld, IsNormalizer, Configured;
    RunHolds(s, w, inputs, w.norm.x * w.norm.y);
  }
}
