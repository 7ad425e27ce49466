/** What the arbitrageur plans and settles, as functions of the pool's state. */
module Arbitrage {
  import opened Reals
  import opened PoolModel
  import opened ArbSearch
  import NormalizerPool

  const MIN_ARB_NOTIONAL_Y: real := 0.01
  const MAX_INPUT_AMOUNT: real := 18446744073.709551616 * 0.999999

  datatype Side = BuyX | SellX
  datatype Candidate = Candidate(side: Side, input: real, profit: real)
  datatype ArbResult = ArbResult(ammBuysX: bool, amountX: real, amountY: real, edge: real)

  function MinBuyInputY(): real { Max(MIN_INPUT, MIN_ARB_NOTIONAL_Y) }

  function MinSellInputX(price: real): real {
    Max(MIN_INPUT, MIN_ARB_NOTIONAL_Y / Max(price, 0.000000001))
  }

  /** The least sell is never above the largest input, so the planner's clamp is proper. */
  lemma SellRangeIsProper(price: real)
    ensures 0.0 < MIN_INPUT <= MinSellInputX(price) <= 10000000.0 <= MAX_INPUT_AMOUNT
  {
    var d := Max(price, 0.000000001);
    var q := MIN_ARB_NOTIONAL_Y / d;
    assert q * d == MIN_ARB_NOTIONAL_Y;
    QuotientBelow(q, d);
  }

  lemma QuotientBelow(q: real, d: real)
    requires 0.000000001 <= d && q * d == 0.01
    ensures q <= 10000000.0
  {}

  function StartY(drawn: real): real {
    Min(Max(Max(drawn, MIN_INPUT), MinBuyInputY()), MAX_INPUT_AMOUNT)
  }

  function StartX(drawn: real, price: real): real {
    Min(Max(StartY(drawn) / Max(price, 0.000000001), MinSellInputX(price)), MAX_INPUT_AMOUNT)
  }

  /** The least sell is a thousandth of X or worth a hundredth of Y, whichever is more. */
  lemma LeastSellIsWorth(price: real)
    requires 0.000000001 <= price
    ensures var least := MinSellInputX(price);
            0.001 <= least && 0.01 <= least * price && (least == 0.001 || least * price == 0.01)
  {
    var q := MIN_ARB_NOTIONAL_Y / price;
    assert q * price == 0.01;
    if q < 0.001 {
      Scale(q, 0.001, price);
    }
  }

  /** The search starts at the drawn size, brought into the range of a buy; a sell starts at what that is worth in X, as
      far as the range of a sell allows. */
  lemma StartsAreWorthTheSame(drawn: real, price: real)
    requires 0.000000001 <= price
    ensures 18446725626.9 <= MAX_INPUT_AMOUNT <= 18446725627.0 && StartY(drawn) == Clamp(drawn, 0.01, MAX_INPUT_AMOUNT)
    ensures var least, start := MinSellInputX(price), StartX(drawn, price);
            && least <= start <= MAX_INPUT_AMOUNT
            && (start < MAX_INPUT_AMOUNT ==> StartY(drawn) <= start * price)
            && (least < start ==> start * price <= StartY(drawn))
  {
    SellRangeIsProper(price);
    hide MinSellInputX;
    var q := StartY(drawn) / price;
    assert q * price == StartY(drawn);
    hide StartY;
    var start := StartX(drawn, price);
    if start < MAX_INPUT_AMOUNT {
      Scale(q, start, price);
    }
    if MinSellInputX(price) < start {
      Scale(start, q, price);
    }
  }

  // ----- Objectives -----

  /** Profit in Y of a size, from the pool's quote. */
  function BuyProfit(p: Program, st: PoolState, price: real): real -> real {
    y => QuoteBuyX(p, st, y) * price - y
  }

  function SellProfit(p: Program, st: PoolState, price: real): real -> real {
    x => QuoteSellX(p, st, x) - x * price
  }

  /** The quotes sampled along a search, for the shape check. */
  function BuyCurve(p: Program, st: PoolState, sizes: seq<real>): seq<(real, real)> {
    seq(|sizes|, i requires 0 <= i < |sizes| => (sizes[i], QuoteBuyX(p, st, sizes[i])))
  }

  function SellCurve(p: Program, st: PoolState, sizes: seq<real>): seq<(real, real)> {
    seq(|sizes|, i requires 0 <= i < |sizes| => (sizes[i], QuoteSellX(p, st, sizes[i])))
  }

  function SearchProbes(s: real -> real, start: real, min: real): seq<real> {
    var r := BracketMaximum(s, start, min, MAX_INPUT_AMOUNT);
    r.probes + GoldenProbes(s, r.lo, r.hi)
  }

  // ----- Plans -----

  /** A size becomes a candidate when it is large enough, pays something, and earns at least the floor. */
  function Accept(side: Side, size: real, quoted: real, profit: real, min: real, floor: real): Option<Candidate> {
    if size < min || quoted <= 0.0 || profit < floor then None else Some(Candidate(side, size, profit))
  }

  function PlanBuy(p: Program, st: PoolState, price: real, start: real, min: real, floor: real): Option<Candidate> {
    var s := BuyProfit(p, st, price);
    var y := SearchedSize(s, start, min, MAX_INPUT_AMOUNT);
    Accept(BuyX, y, QuoteBuyX(p, st, y), s(y), min, floor)
  }

  function PlanSell(p: Program, st: PoolState, price: real, start: real, min: real, floor: real): Option<Candidate> {
    var s := SellProfit(p, st, price);
    var x := SearchedSize(s, start, min, MAX_INPUT_AMOUNT);
    Accept(SellX, x, QuoteSellX(p, st, x), s(x), min, floor)
  }

  /** The part of an input a normalizer's fee leaves; negative fees never occur, fees above the whole input may. */
  function Gamma(st: PoolState): real { (10000.0 - NormalizerPool.FeeOf(st) as real) / 10000.0 }

  /** A root of non-negative numbers. */
  ghost predicate IsRoot(root: real -> real) {
    forall v :: 0.0 <= v ==> 0.0 <= root(v) && root(v) * root(v) == v
  }

  /** The square of the reserve the closed form aims for, on either side. */
  function BuyTargetSquared(price: real, rx: real, g: real, ry: real): real { price * rx * g * ry }

  function SellTargetSquared(price: real, rx: real, g: real, ry: real): real
    requires 0.0 < price
  {
    ry * rx * g / price
  }

  function PlanNormalizerBuy(p: Program, st: PoolState, price: real, floor: real,
                             root: real -> real): Option<Candidate> {
    var g := Gamma(st);
    if g <= 0.0 || st.x <= 0.0 || st.y <= 0.0 then None
    else
      var target := root(BuyTargetSquared(price, st.x, g, st.y));
      if target <= st.y then None
      else
        var y := Clamp((target - st.y) / g, MinBuyInputY(), MAX_INPUT_AMOUNT);
        Accept(BuyX, y, QuoteBuyX(p, st, y), BuyProfit(p, st, price)(y), MinBuyInputY(), floor)
  }

  function PlanNormalizerSell(p: Program, st: PoolState, price: real, floor: real,
                              root: real -> real): Option<Candidate>
    requires 0.0 < price
  {
    SellRangeIsProper(price);
    var g := Gamma(st);
    if g <= 0.0 || st.x <= 0.0 || st.y <= 0.0 then None
    else
      var target := root(SellTargetSquared(price, st.x, g, st.y));
      if target <= st.x then None
      else
        var x := Clamp((target - st.x) / g, MinSellInputX(price), MAX_INPUT_AMOUNT);
        Accept(SellX, x, QuoteSellX(p, st, x), SellProfit(p, st, price)(x), MinSellInputX(price), floor)
  }

  /** The sell wins only by a strictly higher profit. */
  function BestCandidate(buy: Option<Candidate>, sell: Option<Candidate>): Option<Candidate> {
    if buy.None? then sell
    else if sell.Some? && sell.value.profit > buy.value.profit then sell
    else buy
  }

  // ----- Settlement -----

  /** What the pool gains at the price: the buyer's Y less the X paid out, or the seller's X less the Y paid out. */
  function BuyEdge(inputY: real, outputX: real, price: real): real { inputY - outputX * price }
  function SellEdge(inputX: real, outputY: real, price: real): real { inputX * price - outputY }

  /** The pool after a candidate, and the trade it made of it; none when the pool rejected it. */
  function ExecuteCandidate(p: Program, st: PoolState, price: real, c: Candidate): (PoolState, Option<ArbResult>) {
    match c.side
    case BuyX =>
      var (next, out) := ExecuteBuyX(p, st, c.input);
      if out <= 0.0 then (next, None)
      else (next, Some(ArbResult(false, out, c.input, BuyEdge(c.input, out, price))))
    case SellX =>
      var (next, out) := ExecuteSellX(p, st, c.input);
      if out <= 0.0 then (next, None)
      else (next, Some(ArbResult(true, c.input, out, SellEdge(c.input, out, price))))
  }

  // ----- What plans and settlement promise -----

  /** A candidate whose profit is what the pool quotes for it, and at least the floor. */
  ghost predicate Honest(p: Program, st: PoolState, price: real, floor: real, c: Candidate) {
    && c.profit >= floor
    && c.profit == if c.side.BuyX? then BuyProfit(p, st, price)(c.input) else SellProfit(p, st, price)(c.input)
  }

  lemma PlansAreHonest(p: Program, st: PoolState, price: real, startY: real, startX: real, floor: real,
                       root: real -> real)
    requires 0.0 < price
    ensures var c := PlanBuy(p, st, price, startY, MinBuyInputY(), floor);
            c.Some? ==> Honest(p, st, price, floor, c.value)
    ensures var c := PlanSell(p, st, price, startX, MinSellInputX(price), floor);
            c.Some? ==> Honest(p, st, price, floor, c.value)
    ensures var c := PlanNormalizerBuy(p, st, price, floor, root); c.Some? ==> Honest(p, st, price, floor, c.value)
    ensures var c := PlanNormalizerSell(p, st, price, floor, root); c.Some? ==> Honest(p, st, price, floor, c.value)
  {
    hide SearchedSize, QuoteBuyX, QuoteSellX, Gamma, MinSellInputX;
  }

  /** The chosen candidate is one of the two, and no other one promises more. */
  lemma BestCandidateWins(buy: Option<Candidate>, sell: Option<Candidate>)
    ensures var c := BestCandidate(buy, sell);
            && (c.None? <==> buy.None? && sell.None?)
            && (c == buy || c == sell)
            && (buy.Some? ==> buy.value.profit <= c.value.profit)
            && (sell.Some? ==> sell.value.profit <= c.value.profit)
  {}

  /** The worth of a pool's reserves at a price. */
  function Worth(st: PoolState, price: real): real { st.y + st.x * price }

  /** An honest candidate settles as planned or not at all: the edge is the planned profit with its sign turned,
      so never above minus the floor, and it is the change of the pool's worth at the price. */
  lemma HonestSettlesAsPlanned(p: Program, st: PoolState, price: real, floor: real, c: Candidate)
    requires Honest(p, st, price, floor, c)
    ensures var (next, r) := ExecuteCandidate(p, st, price, c);
            && (r.None? ==> next == st)
            && (r.Some? ==>
                  && r.value.edge == -c.profit <= -floor
                  && r.value.edge == Worth(next, price) - Worth(st, price)
                  && next.x - st.x == (if r.value.ammBuysX then r.value.amountX else -r.value.amountX)
                  && next.y - st.y == (if r.value.ammBuysX then -r.value.amountY else r.value.amountY))
            && next.step == st.step && |next.storage| == |st.storage|
  {
    BuyReportsReserveChange(p, st, c.input);
    SellReportsReserveChange(p, st, c.input);
    hide ExecuteBuyX, ExecuteSellX, QuoteBuyX, QuoteSellX;
  }
}
