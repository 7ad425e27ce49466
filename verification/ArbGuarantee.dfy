/** The arbitrageur's plans on pools whose quotes follow a concave curve. */
module ArbGuarantee {
  import opened Reals
  import opened Concavity
  import opened PoolModel
  import opened Golden
  import opened GoldenSearch
  import opened ArbSearch
  import opened Arbitrage
  import opened PoolGuarantee

  // ----- Profit as a concave objective -----

  /** Profit on a curve: the curve valued at `worth` a unit, less `cost` a unit of input. */
  function CurveProfit(f: real -> real, worth: real, cost: real): real -> real {
    x => f(x) * worth - x * cost
  }

  lemma ProfitChord(x: real, y: real, z: real, fx: real, fy: real, fz: real, worth: real, cost: real)
    requires 0.0 <= worth && (z - x) * fy >= (z - y) * fx + (y - x) * fz
    ensures (z - x) * (fy * worth - y * cost) >= (z - y) * (fx * worth - x * cost) + (y - x) * (fz * worth - z * cost)
  {
    Scale((z - y) * fx + (y - x) * fz, (z - x) * fy, worth);
  }

  lemma CurveProfitIsConcave(f: real -> real, worth: real, cost: real, top: real)
    requires Concave(f, 0.0, top) && 0.0 <= worth
    ensures Concave(CurveProfit(f, worth, cost), 0.0, top)
  {
    forall x, y, z | 0.0 <= x < y < z <= top ensures Chord(CurveProfit(f, worth, cost), x, y, z) {
      assert Chord(f, x, y, z);
      ProfitChord(x, y, z, f(x), f(y), f(z), worth, cost);
    }
  }

  lemma ProfitIsObserved(s: real -> real, q: real -> real, f: real -> real, eps: real, worth: real, cost: real,
                         top: real)
    requires Observes(q, f, eps, 0.0, top) && 0.0 <= worth
    requires forall x :: s(x) == q(x) * worth - x * cost
    ensures Observes(s, CurveProfit(f, worth, cost), eps * worth, 0.0, top)
  {
    NonNegative(eps, worth);
    forall x | 0.0 <= x <= top
      ensures CurveProfit(f, worth, cost)(x) - eps * worth <= s(x) <= CurveProfit(f, worth, cost)(x)
    {
      Scale(f(x) - eps, q(x), worth);
      Scale(q(x), f(x), worth);
    }
  }

  lemma CurveProfitAtZero(f: real -> real, worth: real, cost: real)
    requires f(0.0) == 0.0
    ensures CurveProfit(f, worth, cost)(0.0) == 0.0
  {}

  // ----- The planned size -----

  /** What is left of a profit after the search's one per cent and the noise of the quotes. */
  function Aim(profit: real, eps: real, reach: real): real { 0.99 * profit - 4.0 * eps - reach * eps }

  /** From a start of 550 the arbitrageur's search is never cut off by its step cap; from a smaller one it still reaches
      2^25 times the start. */
  lemma StartsInReach(s: real -> real, start: real, min: real, t: real)
    requires MIN_INPUT <= min <= MAX_INPUT_AMOUNT && t <= MAX_INPUT_AMOUNT
    ensures 550.0 <= start ==> !BracketMaximum(s, start, min, MAX_INPUT_AMOUNT).capped
    ensures 550.0 <= start || t <= 33554432.0 * Clamp(start, min, MAX_INPUT_AMOUNT) ==>
              InReach(s, start, min, MAX_INPUT_AMOUNT, t)
  {
    hide BracketMaximum;
    if 550.0 <= start && BracketMaximum(s, start, min, MAX_INPUT_AMOUNT).capped {
      CappedSizesDouble(s, start, min, MAX_INPUT_AMOUNT);
    }
  }

  /** What the search promises of a profit curve, from the least size `min` up to the largest input. */
  lemma SearchPromises(s: real -> real, f: real -> real, eps: real, start: real, min: real, t: real)
    requires MIN_INPUT <= min <= t <= MAX_INPUT_AMOUNT && 0.0 <= f(0.0) && 0.0 <= f(t)
    requires Concave(f, 0.0, MAX_INPUT_AMOUNT) && Observes(s, f, eps, 0.0, MAX_INPUT_AMOUNT)
    requires WellStarted(s, start, min, MAX_INPUT_AMOUNT) && InReach(s, start, min, MAX_INPUT_AMOUNT, t)
    ensures var r := BracketMaximum(s, start, min, MAX_INPUT_AMOUNT);
            var x := SearchedSize(s, start, min, MAX_INPUT_AMOUNT);
            0.0 < r.lo && min <= x && Aim(f(t), eps, Reach(t, r.lo)) <= s(x)
  {
    hide BracketMaximum, Best, GoldenProbes, WellStarted, InReach;
    var r := BracketMaximum(s, start, min, MAX_INPUT_AMOUNT);
    BracketStaysInRange(s, start, min, MAX_INPUT_AMOUNT);
    ArbSearchIsNinetyNine(s, f, eps, start, min, MAX_INPUT_AMOUNT, t);
    ConcaveWithin(f, 0.0, MAX_INPUT_AMOUNT, r.lo, r.hi);
    hide Concave;
    assert Observes(s, f, eps, r.lo, r.hi);
    hide Observes;
    ChosenInBracket(s, f, eps, r.lo, r.hi);
  }

  /** On a pool whose quotes follow a curve, a search from a start that earns something finds a trade that earns 99% of
      any profit there is, less the noise, whenever that still clears the floor. */
  lemma PlannedBuyIsNinetyNine(p: Program, st: PoolState, f: real -> real, eps: real, price: real, start: real,
                               floor: real, t: real)
    requires Follows(BuyQuotes(p, st), f, eps, MAX_INPUT_AMOUNT) && 0.0 < price && 0.0 <= floor
    requires MinBuyInputY() <= t <= MAX_INPUT_AMOUNT && 0.0 <= CurveProfit(f, price, 1.0)(t)
    requires WellStarted(BuyProfit(p, st, price), start, MinBuyInputY(), MAX_INPUT_AMOUNT)
    requires InReach(BuyProfit(p, st, price), start, MinBuyInputY(), MAX_INPUT_AMOUNT, t)
    ensures var lo := BracketMaximum(BuyProfit(p, st, price), start, MinBuyInputY(), MAX_INPUT_AMOUNT).lo;
            0.0 < lo &&
            var aim := Aim(CurveProfit(f, price, 1.0)(t), eps * price, Reach(t, lo));
            var plan := PlanBuy(p, st, price, start, MinBuyInputY(), floor);
            floor <= aim ==> plan.Some? && aim <= plan.value.profit
  {
    hide BracketMaximum, SearchedSize, Concave, WellStarted, InReach, QuoteBuyX, Reach, MinBuyInputY, MinSellInputX;
    var s, g := BuyProfit(p, st, price), CurveProfit(f, price, 1.0);
    var min := MinBuyInputY();
    assert MIN_INPUT <= min by { LeastBuy(); }
    ProfitIsObserved(s, BuyQuotes(p, st), f, eps, price, 1.0, MAX_INPUT_AMOUNT);
    CurveProfitIsConcave(f, price, 1.0, MAX_INPUT_AMOUNT);
    CurveProfitAtZero(f, price, 1.0);
    hide Observes, Follows, CurveProfit, Aim, BuyProfit;
    BuyIsPlanned(p, st, price, start, min, floor);
    hide PlanBuy;
    SearchPromises(s, g, eps * price, start, min, t);
  }

  lemma BuyIsPlanned(p: Program, st: PoolState, price: real, start: real, min: real, floor: real)
    requires 0.0 < price && 0.0 <= floor && 0.0 < min
    ensures var y := SearchedSize(BuyProfit(p, st, price), start, min, MAX_INPUT_AMOUNT);
            min <= y && floor <= BuyProfit(p, st, price)(y) ==>
              PlanBuy(p, st, price, start, min, floor) == Some(Candidate(BuyX, y, BuyProfit(p, st, price)(y)))
  {
    hide SearchedSize, QuoteBuyX;
    var y := SearchedSize(BuyProfit(p, st, price), start, min, MAX_INPUT_AMOUNT);
    if min <= y {
      assert QuoteBuyX(p, st, y) == 0.0 ==> BuyProfit(p, st, price)(y) < 0.0;
    }
  }

  lemma PlannedSellIsNinetyNine(p: Program, st: PoolState, f: real -> real, eps: real, price: real, start: real,
                               floor: real, t: real)
    requires Follows(SellQuotes(p, st), f, eps, MAX_INPUT_AMOUNT) && 0.0 < price && 0.0 <= floor
    requires MinSellInputX(price) <= t <= MAX_INPUT_AMOUNT && 0.0 <= CurveProfit(f, 1.0, price)(t)
    requires WellStarted(SellProfit(p, st, price), start, MinSellInputX(price), MAX_INPUT_AMOUNT)
    requires InReach(SellProfit(p, st, price), start, MinSellInputX(price), MAX_INPUT_AMOUNT, t)
    ensures var lo := BracketMaximum(SellProfit(p, st, price), start, MinSellInputX(price), MAX_INPUT_AMOUNT).lo;
            0.0 < lo &&
            var aim := Aim(CurveProfit(f, 1.0, price)(t), eps, Reach(t, lo));
            var plan := PlanSell(p, st, price, start, MinSellInputX(price), floor);
            floor <= aim ==> plan.Some? && aim <= plan.value.profit
  {
    hide BracketMaximum, SearchedSize, Concave, WellStarted, InReach, QuoteSellX, Reach, MinBuyInputY, MinSellInputX;
    var s, g := SellProfit(p, st, price), CurveProfit(f, 1.0, price);
    var min := MinSellInputX(price);
    SellRangeIsProper(price);
    ProfitIsObserved(s, SellQuotes(p, st), f, eps, 1.0, price, MAX_INPUT_AMOUNT);
    CurveProfitIsConcave(f, 1.0, price, MAX_INPUT_AMOUNT);
    CurveProfitAtZero(f, 1.0, price);
    hide Observes, Follows, CurveProfit, Aim, SellProfit;
    SellIsPlanned(p, st, price, start, min, floor);
    hide PlanSell;
    SearchPromises(s, g, eps, start, min, t);
  }

  lemma SellIsPlanned(p: Program, st: PoolState, price: real, start: real, min: real, floor: real)
    requires 0.0 < price && 0.0 <= floor && 0.0 < min
    ensures var x := SearchedSize(SellProfit(p, st, price), start, min, MAX_INPUT_AMOUNT);
            min <= x && floor <= SellProfit(p, st, price)(x) ==>
              PlanSell(p, st, price, start, min, floor) == Some(Candidate(SellX, x, SellProfit(p, st, price)(x)))
  {
    hide SearchedSize, QuoteSellX;
    var x := SearchedSize(SellProfit(p, st, price), start, min, MAX_INPUT_AMOUNT);
    if min <= x {
      PositiveProduct(x, price);
      assert QuoteSellX(p, st, x) == 0.0 ==> SellProfit(p, st, price)(x) < 0.0;
    }
  }

  lemma LeastBuy()
    ensures MIN_INPUT <= MinBuyInputY()
  {}
}
