/** The arbitrageur as it runs: searches, checks the shape of what it sampled, and trades. */
module Arbitrageur {
  import opened Reals
  import opened PoolModel
  import opened Amm
  import opened ArbSearch
  import opened GoldenSearch
  import opened Arbitrage
  import opened ShapeCheck

  /** A step ends without a trade, with one, or with the run aborted by the shape check. */
  datatype Outcome = Idle | Traded(result: ArbResult) | Aborted

  /** The shape of both sampled curves passes, where the pool is held to it. */
  ghost predicate ShapesPass(p: Program, st: PoolState, price: real, drawn: real) {
    p.name == "submission" ==>
      && Judged(BuyCurve(p, st, SearchProbes(BuyProfit(p, st, price), StartY(drawn), MinBuyInputY())),
                MinBuyInputY(), Fine)
      && Judged(SellCurve(p, st, SearchProbes(SellProfit(p, st, price), StartX(drawn, price), MinSellInputX(price))),
                MinSellInputX(price), Fine)
  }

  /** The candidate of a step, by closed form for the normalizer and by search for any other pool. */
  function Chosen(p: Program, st: PoolState, price: real, drawn: real, floor: real,
                  root: real -> real): Option<Candidate>
    requires 0.0 < price
  {
    if p.name == "normalizer" then
      BestCandidate(PlanNormalizerBuy(p, st, price, floor, root), PlanNormalizerSell(p, st, price, floor, root))
    else
      BestCandidate(PlanBuy(p, st, price, StartY(drawn), MinBuyInputY(), floor),
                    PlanSell(p, st, price, StartX(drawn, price), MinSellInputX(price), floor))
  }

  /** The pool and the outcome after a step whose shapes pass. */
  function StepOf(p: Program, st: PoolState, price: real, drawn: real, floor: real, root: real -> real)
    : (PoolState, Outcome)
  {
    if price <= 0.0 then (st, Idle)
    else
      match Chosen(p, st, price, drawn, floor, root)
      case None => (st, Idle)
      case Some(c) =>
        var (next, r) := ExecuteCandidate(p, st, price, c);
        (next, if r.None? then Idle else Traded(r.value))
  }

  class Arbitrageur {
    const minArbProfit: real

    constructor (minArbProfit: real)
      ensures this.minArbProfit == Max(minArbProfit, 0.0)
    {
      this.minArbProfit := Max(minArbProfit, 0.0);
    }

    method PlanArbBuyX(amm: BpfAmm, price: real, startY: real, minBuyInput: real)
      returns (c: Option<Candidate>, ok: bool)
      ensures var p, st := amm.program, amm.State(); var s := BuyProfit(p, st, price);
              && (ok <==> (p.name == "submission" ==>
                             Judged(BuyCurve(p, st, SearchProbes(s, startY, minBuyInput)), minBuyInput, Fine)))
              && (ok ==> c == PlanBuy(p, st, price, startY, minBuyInput, minArbProfit))
    {
      hide Judged, BracketMaximum, GoldenProbes, Best, QuoteBuyX, QuoteSellX;
      var p, st := amm.program, amm.State();
      var s := BuyProfit(p, st, price);
      var lo, hi, bracketed := FindBracket(startY, minBuyInput, MAX_INPUT_AMOUNT, s);
      var optimalY, _, refined := GoldenSectionMax(lo, hi, s);
      c := None;
      ok := ShapeAccepted(p.name, BuyCurve(p, st, bracketed + refined), minBuyInput);
      BuyIsAccepted(p, st, price, startY, minBuyInput, minArbProfit, optimalY);
      hide BuyProfit, PlanBuy;
      if !ok || optimalY < minBuyInput {
        return;
      }
      var expectedOutputX := amm.QuoteBuyX(optimalY);
      if expectedOutputX <= 0.0 {
        return;
      }
      var arbProfit := expectedOutputX * price - optimalY;
      if arbProfit < minArbProfit {
        return;
      }
      c := Some(Candidate(BuyX, optimalY, arbProfit));
    }

    method PlanArbSellX(amm: BpfAmm, price: real, startX: real, minSellInput: real)
      returns (c: Option<Candidate>, ok: bool)
      ensures var p, st := amm.program, amm.State(); var s := SellProfit(p, st, price);
              && (ok <==> (p.name == "submission" ==>
                             Judged(SellCurve(p, st, SearchProbes(s, startX, minSellInput)), minSellInput, Fine)))
              && (ok ==> c == PlanSell(p, st, price, startX, minSellInput, minArbProfit))
    {
      hide Judged, BracketMaximum, GoldenProbes, Best, QuoteBuyX, QuoteSellX;
      var p, st := amm.program, amm.State();
      var s := SellProfit(p, st, price);
      var lo, hi, bracketed := FindBracket(startX, minSellInput, MAX_INPUT_AMOUNT, s);
      var optimalX, _, refined := GoldenSectionMax(lo, hi, s);
      c := None;
      ok := ShapeAccepted(p.name, SellCurve(p, st, bracketed + refined), minSellInput);
      SellIsAccepted(p, st, price, startX, minSellInput, minArbProfit, optimalX);
      hide SellProfit, PlanSell;
      if !ok || optimalX < minSellInput {
        return;
      }
      var expectedOutputY := amm.QuoteSellX(optimalX);
      if expectedOutputY <= 0.0 {
        return;
      }
      var arbProfit := expectedOutputY - optimalX * price;
      if arbProfit < minArbProfit {
        return;
      }
      c := Some(Candidate(SellX, optimalX, arbProfit));
    }

    method PlanNormalizerBuyX(amm: BpfAmm, price: real, root: real -> real) returns (c: Option<Candidate>)
      ensures c == PlanNormalizerBuy(amm.program, amm.State(), price, minArbProfit, root)
    {
      hide BuyProfit, QuoteBuyX, BuyTargetSquared, Gamma;
      var gamma := Gamma(amm.State());
      if gamma <= 0.0 {
        return None;
      }
      var rx, ry := amm.reserveX, amm.reserveY;
      if rx <= 0.0 || ry <= 0.0 {
        return None;
      }
      var target := root(BuyTargetSquared(price, rx, gamma, ry));
      if target <= ry {
        return None;
      }
      var minBuyInput := MinBuyInputY();
      var inputY := Clamp((target - ry) / gamma, minBuyInput, MAX_INPUT_AMOUNT);
      var expectedOutputX := amm.QuoteBuyX(inputY);
      BuyProfitAt(amm.program, amm.State(), price, inputY);
      if expectedOutputX <= 0.0 {
        return None;
      }
      var arbProfit := expectedOutputX * price - inputY;
      if arbProfit < minArbProfit {
        return None;
      }
      assert arbProfit == BuyProfit(amm.program, amm.State(), price)(inputY);
      return Some(Candidate(BuyX, inputY, arbProfit));
    }

    method PlanNormalizerSellX(amm: BpfAmm, price: real, root: real -> real) returns (c: Option<Candidate>)
      requires 0.0 < price
      ensures c == PlanNormalizerSell(amm.program, amm.State(), price, minArbProfit, root)
    {
      hide SellProfit, MinSellInputX, QuoteSellX, SellTargetSquared, Gamma;
      SellRangeIsProper(price);
      var gamma := Gamma(amm.State());
      if gamma <= 0.0 {
        return None;
      }
      var rx, ry := amm.reserveX, amm.reserveY;
      if rx <= 0.0 || ry <= 0.0 {
        return None;
      }
      var target := root(SellTargetSquared(price, rx, gamma, ry));
      if target <= rx {
        return None;
      }
      var minSellInput := MinSellInputX(price);
      var inputX := Clamp((target - rx) / gamma, minSellInput, MAX_INPUT_AMOUNT);
      var expectedOutputY := amm.QuoteSellX(inputX);
      SellProfitAt(amm.program, amm.State(), price, inputX);
      if expectedOutputY <= 0.0 {
        return None;
      }
      var arbProfit := expectedOutputY - inputX * price;
      if arbProfit < minArbProfit {
        return None;
      }
      assert arbProfit == SellProfit(amm.program, amm.State(), price)(inputX);
      return Some(Candidate(SellX, inputX, arbProfit));
    }

    method ExecuteCandidate(amm: BpfAmm, price: real, candidate: Candidate) returns (r: Option<ArbResult>)
      modifies amm
      ensures (amm.State(), r) == Arbitrage.ExecuteCandidate(amm.program, old(amm.State()), price, candidate)
    {
      hide PoolModel.ExecuteBuyX, PoolModel.ExecuteSellX, BuyEdge, SellEdge;
      match candidate.side
      case BuyX =>
        var outputX := amm.ExecuteBuyX(candidate.input);
        if outputX <= 0.0 {
          return None;
        }
        return Some(ArbResult(false, outputX, candidate.input, BuyEdge(candidate.input, outputX, price)));
      case SellX =>
        var outputY := amm.ExecuteSellX(candidate.input);
        if outputY <= 0.0 {
          return None;
        }
        return Some(ArbResult(true, candidate.input, outputY, SellEdge(candidate.input, outputY, price)));
    }

    /** One step against one pool. `drawn` is the retail-sized start the simulator draws at random. */
    method ExecuteArb(amm: BpfAmm, price: real, drawn: real, root: real -> real) returns (outcome: Outcome)
      modifies amm
      ensures outcome.Aborted? <==>
                old(price > 0.0 && amm.program.name != "normalizer" &&
                    !ShapesPass(amm.program, amm.State(), price, drawn))
      ensures outcome.Aborted? ==> amm.State() == old(amm.State())
      ensures !outcome.Aborted? ==>
                (amm.State(), outcome) == StepOf(amm.program, old(amm.State()), price, drawn, minArbProfit, root)
    {
      hide PlanBuy, PlanSell, PlanNormalizerBuy, PlanNormalizerSell, Arbitrage.ExecuteCandidate, Judged, SearchProbes;
      if price <= 0.0 {
        return Idle;
      }
      var best: Option<Candidate>;
      if amm.program.name == "normalizer" {
        var buy := PlanNormalizerBuyX(amm, price, root);
        var sell := PlanNormalizerSellX(amm, price, root);
        best := BestCandidate(buy, sell);
      } else {
        var minBuyInput, minSellInput := MinBuyInputY(), MinSellInputX(price);
        var buy, buyOk := PlanArbBuyX(amm, price, StartY(drawn), minBuyInput);
        if !buyOk {
          return Aborted;
        }
        var sell, sellOk := PlanArbSellX(amm, price, StartX(drawn, price), minSellInput);
        if !sellOk {
          return Aborted;
        }
        best := BestCandidate(buy, sell);
      }
      if best.None? {
        return Idle;
      }
      var r := ExecuteCandidate(amm, price, best.value);
      outcome := if r.None? then Idle else Traded(r.value);
    }
  }

  lemma BuyIsAccepted(p: Program, st: PoolState, price: real, start: real, min: real, floor: real, y: real)
    requires y == SearchedSize(BuyProfit(p, st, price), start, min, MAX_INPUT_AMOUNT)
    ensures PlanBuy(p, st, price, start, min, floor) ==
              Accept(BuyX, y, QuoteBuyX(p, st, y), QuoteBuyX(p, st, y) * price - y, min, floor)
  {
    BuyProfitAt(p, st, price, y);
    hide SearchedSize, QuoteBuyX, BuyProfit;
  }

  lemma BuyProfitAt(p: Program, st: PoolState, price: real, y: real)
    ensures BuyProfit(p, st, price)(y) == QuoteBuyX(p, st, y) * price - y
  {
    hide QuoteBuyX;
  }

  lemma SellIsAccepted(p: Program, st: PoolState, price: real, start: real, min: real, floor: real, x: real)
    requires x == SearchedSize(SellProfit(p, st, price), start, min, MAX_INPUT_AMOUNT)
    ensures PlanSell(p, st, price, start, min, floor) ==
              Accept(SellX, x, QuoteSellX(p, st, x), QuoteSellX(p, st, x) - x * price, min, floor)
  {
    SellProfitAt(p, st, price, x);
    hide SearchedSize, QuoteSellX, SellProfit;
  }

  lemma SellProfitAt(p: Program, st: PoolState, price: real, x: real)
    ensures SellProfit(p, st, price)(x) == QuoteSellX(p, st, x) - x * price
  {
    hide QuoteSellX;
  }
}
