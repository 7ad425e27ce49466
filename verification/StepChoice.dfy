/** What a step against one pool takes of what both sides offer. */
module StepChoice {
  import opened Reals
  import opened PoolModel
  import opened ArbSearch
  import opened Arbitrage
  import opened Arbitrageur
  import opened NormalizerPool
  import opened PoolCurve
  import opened Nano
  import opened PoolGuarantee
  import opened ArbGuarantee
  import opened NormalizerRoutes
  import opened ClosedFormPlans
  import opened EngineEdge

  // ----- Either side's plan -----

  /** The pool and the outcome are those of settling the candidate. */
  ghost predicate SettledAs(p: Program, st: PoolState, price: real, c: Candidate, next: PoolState, o: Outcome) {
    var e := ExecuteCandidate(p, st, price, c);
    next == e.0 && o == if e.1.None? then Idle else Traded(e.1.value)
  }

  /** What becomes of a plan on either side: nothing without a plan, and otherwise the one that promises more is
      settled, the buy when they promise the same. */
  ghost predicate Settles(p: Program, st: PoolState, price: real, buy: Option<Candidate>, sell: Option<Candidate>,
                          next: PoolState, o: Outcome) {
    && (buy.None? && sell.None? ==> next == st && o == Idle)
    && (buy.Some? && (sell.None? || sell.value.profit <= buy.value.profit) ==>
          SettledAs(p, st, price, buy.value, next, o))
    && (sell.Some? && (buy.None? || buy.value.profit < sell.value.profit) ==>
          SettledAs(p, st, price, sell.value, next, o))
  }

  /** A step settles the better of the pool's own two plans: by closed form for the pool named normalizer, by search
      from the drawn start for any other. */
  lemma StepSettlesTheBetter(p: Program, st: PoolState, price: real, drawn: real, floor: real, root: real -> real)
    requires 0.0 < price
    ensures var (next, o) := StepOf(p, st, price, drawn, floor, root);
            p.name == "normalizer" ==>
              Settles(p, st, price, PlanNormalizerBuy(p, st, price, floor, root),
                      PlanNormalizerSell(p, st, price, floor, root), next, o)
    ensures var (next, o) := StepOf(p, st, price, drawn, floor, root);
            p.name != "normalizer" ==>
              Settles(p, st, price, PlanBuy(p, st, price, StartY(drawn), MinBuyInputY(), floor),
                      PlanSell(p, st, price, StartX(drawn, price), MinSellInputX(price), floor), next, o)
  {
    hide PlanBuy, PlanSell, PlanNormalizerBuy, PlanNormalizerSell, ExecuteCandidate, StartX, StartY, MinBuyInputY,
         MinSellInputX;
  }

  /** What a plan promised was made: that plan was settled, or a better one. */
  ghost predicate Made(o: Outcome, plan: Option<Candidate>) {
    plan.Some? ==> o.Traded? && plan.value.profit <= -o.result.edge
  }

  /** The pool does not reject the plan. */
  ghost predicate Pays(p: Program, st: PoolState, price: real, plan: Option<Candidate>) {
    plan.Some? ==> ExecuteCandidate(p, st, price, plan.value).1.Some?
  }

  lemma BetterIsMade(p: Program, st: PoolState, price: real, floor: real, buy: Option<Candidate>,
                     sell: Option<Candidate>, next: PoolState, o: Outcome)
    requires Settles(p, st, price, buy, sell, next, o)
    requires buy.Some? ==> Honest(p, st, price, floor, buy.value)
    requires sell.Some? ==> Honest(p, st, price, floor, sell.value)
    ensures o.Traded? ==> Made(o, buy) && Made(o, sell)
    ensures Pays(p, st, price, buy) && Pays(p, st, price, sell) ==> Made(o, buy) && Made(o, sell)
  {
    if buy.Some? {
      HonestSettlesAsPlanned(p, st, price, floor, buy.value);
    }
    if sell.Some? {
      HonestSettlesAsPlanned(p, st, price, floor, sell.value);
    }
    hide Honest, ExecuteCandidate, Worth;
  }

  /** The two plans a step has against a pool. */
  function OwnBuy(p: Program, st: PoolState, price: real, drawn: real, floor: real, root: real -> real)
    : Option<Candidate>
  {
    if p.name == "normalizer" then PlanNormalizerBuy(p, st, price, floor, root)
    else PlanBuy(p, st, price, StartY(drawn), MinBuyInputY(), floor)
  }

  function OwnSell(p: Program, st: PoolState, price: real, drawn: real, floor: real, root: real -> real)
    : Option<Candidate>
    requires 0.0 < price
  {
    if p.name == "normalizer" then PlanNormalizerSell(p, st, price, floor, root)
    else PlanSell(p, st, price, StartX(drawn, price), MinSellInputX(price), floor)
  }

  /** A step that trades makes at least what either plan promised; one whose plans the pool pays always trades, unless
      there is no plan. */
  lemma StepMakesBothPlans(p: Program, st: PoolState, price: real, drawn: real, floor: real, root: real -> real)
    requires 0.0 < price
    ensures var o := StepOf(p, st, price, drawn, floor, root).1;
            var buy, sell := OwnBuy(p, st, price, drawn, floor, root), OwnSell(p, st, price, drawn, floor, root);
            && (buy.None? && sell.None? ==> o == Idle)
            && (o.Traded? ==> Made(o, buy) && Made(o, sell))
            && (Pays(p, st, price, buy) && Pays(p, st, price, sell) ==> Made(o, buy) && Made(o, sell))
  {
    hide PlanBuy, PlanSell, PlanNormalizerBuy, PlanNormalizerSell, StartX, StartY, MinBuyInputY, MinSellInputX, Honest,
         StepOf, Made, Pays, SettledAs;
    PlansAreHonest(p, st, price, StartY(drawn), StartX(drawn, price), floor, root);
    StepSettlesTheBetter(p, st, price, drawn, floor, root);
    var r := StepOf(p, st, price, drawn, floor, root);
    var buy, sell := OwnBuy(p, st, price, drawn, floor, root), OwnSell(p, st, price, drawn, floor, root);
    assert Settles(p, st, price, buy, sell, r.0, r.1);
    BetterIsMade(p, st, price, floor, buy, sell, r.0, r.1);
  }

  // ----- What a step makes of the pool's curves -----

  /** The step traded, and made at least that much. */
  ghost predicate Earned(o: Outcome, profit: real) { o.Traded? && profit <= -o.result.edge }

  lemma MadeIsEarned(o: Outcome, plan: Option<Candidate>, aim: real)
    requires Made(o, plan) && plan.Some? && aim <= plan.value.profit
    ensures Earned(o, aim)
  {}

  /** Against a pool that pays both plans a step makes 99% of any profit on the curve its buys follow, less the noise,
      whenever that clears the floor, whatever the sells are worth. */
  lemma StepMakesBuys(p: Program, st: PoolState, f: real -> real, eps: real, price: real, drawn: real, floor: real,
                      root: real -> real, t: real)
    requires p.name != "normalizer" && 0.0 < price && 0.0 <= floor
    requires Pays(p, st, price, OwnBuy(p, st, price, drawn, floor, root)) &&
             Pays(p, st, price, OwnSell(p, st, price, drawn, floor, root))
    requires Follows(BuyQuotes(p, st), f, eps, MAX_INPUT_AMOUNT)
    requires MinBuyInputY() <= t <= MAX_INPUT_AMOUNT && 0.0 <= CurveProfit(f, price, 1.0)(t)
    requires WellStarted(BuyProfit(p, st, price), StartY(drawn), MinBuyInputY(), MAX_INPUT_AMOUNT)
    requires InReach(BuyProfit(p, st, price), StartY(drawn), MinBuyInputY(), MAX_INPUT_AMOUNT, t)
    ensures var lo := BracketMaximum(BuyProfit(p, st, price), StartY(drawn), MinBuyInputY(), MAX_INPUT_AMOUNT).lo;
            0.0 < lo &&
            var aim := Aim(CurveProfit(f, price, 1.0)(t), eps * price, Reach(t, lo));
            floor <= aim ==> Earned(StepOf(p, st, price, drawn, floor, root).1, aim)
  {
    hide Follows, BracketMaximum, CurveProfit, Aim, Reach, WellStarted, InReach, BuyProfit, PlanBuy, PlanSell, StepOf;
    hide Pays, Made, Earned, StartY, StartX, MinBuyInputY, MinSellInputX, Accept, SearchedSize;
    StepMakesBothPlans(p, st, price, drawn, floor, root);
    PlannedBuyIsNinetyNine(p, st, f, eps, price, StartY(drawn), floor, t);
    var lo := BracketMaximum(BuyProfit(p, st, price), StartY(drawn), MinBuyInputY(), MAX_INPUT_AMOUNT).lo;
    var aim := Aim(CurveProfit(f, price, 1.0)(t), eps * price, Reach(t, lo));
    if floor <= aim {
      MadeIsEarned(StepOf(p, st, price, drawn, floor, root).1, OwnBuy(p, st, price, drawn, floor, root), aim);
    }
  }

  lemma StepMakesSells(p: Program, st: PoolState, f: real -> real, eps: real, price: real, drawn: real, floor: real,
                       root: real -> real, t: real)
    requires p.name != "normalizer" && 0.0 < price && 0.0 <= floor
    requires Pays(p, st, price, OwnBuy(p, st, price, drawn, floor, root)) &&
             Pays(p, st, price, OwnSell(p, st, price, drawn, floor, root))
    requires Follows(SellQuotes(p, st), f, eps, MAX_INPUT_AMOUNT)
    requires MinSellInputX(price) <= t <= MAX_INPUT_AMOUNT && 0.0 <= CurveProfit(f, 1.0, price)(t)
    requires WellStarted(SellProfit(p, st, price), StartX(drawn, price), MinSellInputX(price), MAX_INPUT_AMOUNT)
    requires InReach(SellProfit(p, st, price), StartX(drawn, price), MinSellInputX(price), MAX_INPUT_AMOUNT, t)
    ensures var lo := BracketMaximum(SellProfit(p, st, price), StartX(drawn, price), MinSellInputX(price),
                                     MAX_INPUT_AMOUNT).lo;
            0.0 < lo &&
            var aim := Aim(CurveProfit(f, 1.0, price)(t), eps, Reach(t, lo));
            floor <= aim ==> Earned(StepOf(p, st, price, drawn, floor, root).1, aim)
  {
    hide Follows, BracketMaximum, CurveProfit, Aim, Reach, WellStarted, InReach, SellProfit, PlanBuy, PlanSell, StepOf;
    hide Pays, Made, Earned, StartY, StartX, MinBuyInputY, MinSellInputX, Accept, SearchedSize;
    StepMakesBothPlans(p, st, price, drawn, floor, root);
    PlannedSellIsNinetyNine(p, st, f, eps, price, StartX(drawn, price), floor, t);
    var lo := BracketMaximum(SellProfit(p, st, price), StartX(drawn, price), MinSellInputX(price), MAX_INPUT_AMOUNT).lo;
    var aim := Aim(CurveProfit(f, 1.0, price)(t), eps, Reach(t, lo));
    if floor <= aim {
      MadeIsEarned(StepOf(p, st, price, drawn, floor, root).1, OwnSell(p, st, price, drawn, floor, root), aim);
    }
  }

  lemma NormalizerPaysPlan(p: Program, st: PoolState, price: real, plan: Option<Candidate>)
    requires IsNormalizer(p) && Configured(st)
    requires plan.Some? ==>
      0.0 < if plan.value.side.BuyX? then QuoteBuyX(p, st, plan.value.input) else QuoteSellX(p, st, plan.value.input)
    ensures Pays(p, st, price, plan)
  {
    hide QuoteBuyX, QuoteSellX, IsNormalizer, Configured, ExecuteBuyX, ExecuteSellX;
    if plan.Some? {
      NormalizerNeverRejects(p, st, plan.value.input);
    }
  }

  /** A constant-product pool pays every plan. */
  lemma NormalizerPaysPlans(p: Program, st: PoolState, price: real, drawn: real, floor: real, root: real -> real)
    requires IsNormalizer(p) && Configured(st) && 0.0 < price
    ensures Pays(p, st, price, OwnBuy(p, st, price, drawn, floor, root))
    ensures Pays(p, st, price, OwnSell(p, st, price, drawn, floor, root))
  {
    hide PlanBuy, PlanSell, PlanNormalizerBuy, PlanNormalizerSell, QuoteBuyX, QuoteSellX, IsNormalizer, Configured;
    hide Pays, StartX, StartY, MinBuyInputY, MinSellInputX;
    PlansPay(p, st, price, StartY(drawn), StartX(drawn, price), floor, root);
    NormalizerPaysPlan(p, st, price, OwnBuy(p, st, price, drawn, floor, root));
    NormalizerPaysPlan(p, st, price, OwnSell(p, st, price, drawn, floor, root));
  }

  /** A plan is made only of a size the pool quotes something for. */
  lemma PlansPay(p: Program, st: PoolState, price: real, startY: real, startX: real, floor: real, root: real -> real)
    requires 0.0 < price
    ensures var c := PlanBuy(p, st, price, startY, MinBuyInputY(), floor);
            c.Some? ==> c.value.side == BuyX && 0.0 < QuoteBuyX(p, st, c.value.input)
    ensures var c := PlanSell(p, st, price, startX, MinSellInputX(price), floor);
            c.Some? ==> c.value.side == SellX && 0.0 < QuoteSellX(p, st, c.value.input)
    ensures var c := PlanNormalizerBuy(p, st, price, floor, root);
            c.Some? ==> c.value.side == BuyX && 0.0 < QuoteBuyX(p, st, c.value.input)
    ensures var c := PlanNormalizerSell(p, st, price, floor, root);
            c.Some? ==> c.value.side == SellX && 0.0 < QuoteSellX(p, st, c.value.input)
  {
    hide SearchedSize, QuoteBuyX, QuoteSellX, Gamma, MinSellInputX;
  }

  /** Against a constant-product submission: what a step makes, with the noise worked out. */
  lemma StepBuysOnCurve(p: Program, st: PoolState, price: real, drawn: real, floor: real, root: real -> real, t: real)
    requires IsNormalizer(p) && Quoting(st) && p.name != "normalizer" && 0.0 < price && 0.0 <= floor
    requires MinBuyInputY() <= t <= MAX_INPUT_AMOUNT
    requires WellStarted(BuyProfit(p, st, price), StartY(drawn), MinBuyInputY(), MAX_INPUT_AMOUNT)
    requires InReach(BuyProfit(p, st, price), StartY(drawn), MinBuyInputY(), MAX_INPUT_AMOUNT, t)
    ensures 0.0 <= Kept(st)
    ensures var lo := BracketMaximum(BuyProfit(p, st, price), StartY(drawn), MinBuyInputY(),
                                     MAX_INPUT_AMOUNT).lo;
            0.0 < lo &&
            var made := 0.99 * CurveProfit(FlooredCurve(st.y, st.x, Kept(st)), price, 1.0)(t)
                        - ProfitNoise(st.y, st.x, price, Reach(t, lo));
            floor <= made ==> Earned(StepOf(p, st, price, drawn, floor, root).1, made)
  {
    hide FlooredCurve, ProfitNoise, IsNormalizer, Quoting, BracketMaximum, WellStarted, InReach, PlanBuy, PlanSell,
         Kept;
    hide BuyProfit, SellProfit, MinBuyInputY, MinSellInputX, CurveProfit, Reach, ToNano, StepOf, StartX, StartY, Pays;
    hide Made, Earned, Configured;
    PoolQuotes(st);
    QuotingIsConfigured(st);
    NormalizerPaysPlans(p, st, price, drawn, floor, root);
    StepMakesBothPlans(p, st, price, drawn, floor, root);
    NormalizerBuyIsNinetyNine(p, st, price, StartY(drawn), floor, t);
    var lo := BracketMaximum(BuyProfit(p, st, price), StartY(drawn), MinBuyInputY(), MAX_INPUT_AMOUNT).lo;
    var made := 0.99 * CurveProfit(FlooredCurve(st.y, st.x, Kept(st)), price, 1.0)(t)
                - ProfitNoise(st.y, st.x, price, Reach(t, lo));
    if floor <= made {
      MadeIsEarned(StepOf(p, st, price, drawn, floor, root).1, OwnBuy(p, st, price, drawn, floor, root), made);
    }
  }

  lemma StepSellsOnCurve(p: Program, st: PoolState, price: real, drawn: real, floor: real, root: real -> real, t: real)
    requires IsNormalizer(p) && Quoting(st) && p.name != "normalizer" && 0.0 < price && 0.0 <= floor
    requires MinSellInputX(price) <= t <= MAX_INPUT_AMOUNT
    requires WellStarted(SellProfit(p, st, price), StartX(drawn, price), MinSellInputX(price), MAX_INPUT_AMOUNT)
    requires InReach(SellProfit(p, st, price), StartX(drawn, price), MinSellInputX(price), MAX_INPUT_AMOUNT, t)
    ensures 0.0 <= Kept(st)
    ensures var lo := BracketMaximum(SellProfit(p, st, price), StartX(drawn, price), MinSellInputX(price),
                                     MAX_INPUT_AMOUNT).lo;
            0.0 < lo &&
            var made := 0.99 * CurveProfit(FlooredCurve(st.x, st.y, Kept(st)), 1.0, price)(t)
                        - ProfitNoise(st.x, st.y, 1.0, Reach(t, lo));
            floor <= made ==> Earned(StepOf(p, st, price, drawn, floor, root).1, made)
  {
    hide FlooredCurve, ProfitNoise, IsNormalizer, Quoting, BracketMaximum, WellStarted, InReach, PlanBuy, PlanSell,
         Kept;
    hide BuyProfit, SellProfit, MinBuyInputY, MinSellInputX, CurveProfit, Reach, ToNano, StepOf, StartX, StartY, Pays;
    hide Made, Earned, Configured;
    PoolQuotes(st);
    QuotingIsConfigured(st);
    NormalizerPaysPlans(p, st, price, drawn, floor, root);
    StepMakesBothPlans(p, st, price, drawn, floor, root);
    NormalizerSellIsNinetyNine(p, st, price, StartX(drawn, price), floor, t);
    var lo := BracketMaximum(SellProfit(p, st, price), StartX(drawn, price), MinSellInputX(price), MAX_INPUT_AMOUNT).lo;
    var made := 0.99 * CurveProfit(FlooredCurve(st.x, st.y, Kept(st)), 1.0, price)(t)
                - ProfitNoise(st.x, st.y, 1.0, Reach(t, lo));
    if floor <= made {
      MadeIsEarned(StepOf(p, st, price, drawn, floor, root).1, OwnSell(p, st, price, drawn, floor, root), made);
    }
  }

  lemma QuotingIsConfigured(st: PoolState)
    requires Quoting(st)
    ensures Configured(st)
  {}

  /** Against the pool named normalizer, planned by closed form: no size on either side would have made more than the
      step did, or than the floor where it did nothing, but for what the integer quotes are worth. */
  lemma NormalizerStepIsNearlyOptimal(p: Program, st: PoolState, price: real, drawn: real, floor: real,
                                      root: real -> real, t: real)
    requires IsNormalizer(p) && p.name == "normalizer" && Sound(st) && IsRoot(root) && 0.0 < price && 0.0 <= floor
    requires t <= MAX_INPUT_AMOUNT
    ensures var o := StepOf(p, st, price, drawn, floor, root).1;
            var made := if o.Traded? then -o.result.edge else floor;
            && floor <= made
            && (MinBuyInputY() <= t ==> BuyProfit(p, st, price)(t) <= made + price * ClosedNoise(st.y, st.x))
            && (MinSellInputX(price) <= t ==> SellProfit(p, st, price)(t) <= made + ClosedNoise(st.x, st.y))
  {
    assert Configured(st);
    assert ToNano(st.x) > 0 && ToNano(st.y) > 0;
    hide IsNormalizer, Sound, Configured, IsRoot, ClosedNoise, BuyProfit, SellProfit, StepOf, PlanNormalizerBuy,
         PlanNormalizerSell, MinBuyInputY, MinSellInputX, Pays, ToNano;
    NormalizerPaysPlans(p, st, price, drawn, floor, root);
    StepMakesBothPlans(p, st, price, drawn, floor, root);
    ArbEdgeIsWorth(p, st, price, drawn, floor, root);
    if MinBuyInputY() <= t {
      PlannedBuyIsNearlyOptimal(p, st, price, floor, root, t);
    }
    if MinSellInputX(price) <= t {
      PlannedSellIsNearlyOptimal(p, st, price, floor, root, t);
    }
  }
}
