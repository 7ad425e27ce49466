/** How an order is split, quoted and settled, as functions of the two pools' states. */
module Routing {
  import opened Reals
  import opened PoolModel
  import opened GoldenSearch
  import opened SplitSearch
  import opened Arbitrage

  datatype RoutedTrade = RoutedTrade(isSubmission: bool, ammBuysX: bool, amountX: real, amountY: real)

  /** The two pools an order is routed between. */
  datatype Venues = Venues(sub: Program, subState: PoolState, norm: Program, normState: PoolState)

  function CutOff(input: real, quoted: real): real { if input > MIN_TRADE_SIZE then quoted else 0.0 }

  function SubPart(total: real, alpha: real): real { total * alpha }
  function NormPart(total: real, alpha: real): real { total * (1.0 - alpha) }

  function BuySplit(v: Venues, total: real, share: real): QuotePoint {
    BuyShares(v, total, Clamp(share, 0.0, 1.0))
  }

  function BuyShares(v: Venues, total: real, alpha: real): QuotePoint {
    var inSub, inNorm := SubPart(total, alpha), NormPart(total, alpha);
    QuotePoint(inSub, inNorm, CutOff(inSub, QuoteBuyX(v.sub, v.subState, inSub)),
               CutOff(inNorm, QuoteBuyX(v.norm, v.normState, inNorm)))
  }

  function SellSplit(v: Venues, total: real, share: real): QuotePoint {
    SellShares(v, total, Clamp(share, 0.0, 1.0))
  }

  function SellShares(v: Venues, total: real, alpha: real): QuotePoint {
    var inSub, inNorm := SubPart(total, alpha), NormPart(total, alpha);
    QuotePoint(inSub, inNorm, CutOff(inSub, QuoteSellX(v.sub, v.subState, inSub)),
               CutOff(inNorm, QuoteSellX(v.norm, v.normState, inNorm)))
  }

  function BuySplits(v: Venues, total: real): real -> QuotePoint { share => BuySplit(v, total, share) }
  function SellSplits(v: Venues, total: real): real -> QuotePoint { share => SellSplit(v, total, share) }

  /** The split the search settles on, and what the submission was asked along the way. */
  function BestSplit(splits: real -> QuotePoint, total: real): QuotePoint {
    splits(Best(Scores(splits), SplitProbes(Scores(splits), total)))
  }

  function AskedOf(quotes: seq<QuotePoint>): seq<(real, real)> {
    seq(|quotes|, i requires 0 <= i < |quotes| => (quotes[i].inSub, quotes[i].outSub))
  }

  function Asked(splits: real -> QuotePoint, total: real): seq<(real, real)> {
    AskedOf(Quotes(splits, SplitProbes(Scores(splits), total)))
  }

  // ----- Settling a split -----

  function LegTrades(isSubmission: bool, ammBuysX: bool, input: real, out: real): seq<RoutedTrade> {
    if out <= 0.0 then []
    else if ammBuysX then [RoutedTrade(isSubmission, true, input, out)]
    else [RoutedTrade(isSubmission, false, out, input)]
  }

  /** A leg is executed when it is above the least size and was quoted something. */
  function BuyLeg(p: Program, st: PoolState, input: real, quoted: real): (PoolState, real) {
    if input > MIN_TRADE_SIZE && quoted > 0.0 then ExecuteBuyX(p, st, input) else (st, 0.0)
  }

  function SellLeg(p: Program, st: PoolState, input: real, quoted: real): (PoolState, real) {
    if input > MIN_TRADE_SIZE && quoted > 0.0 then ExecuteSellX(p, st, input) else (st, 0.0)
  }

  datatype Routed = Routed(subState: PoolState, normState: PoolState, trades: seq<RoutedTrade>)

  function SettleBuy(v: Venues, q: QuotePoint): Routed {
    var (sub, outSub) := BuyLeg(v.sub, v.subState, q.inSub, q.outSub);
    var (norm, outNorm) := BuyLeg(v.norm, v.normState, q.inNorm, q.outNorm);
    Routed(sub, norm, LegTrades(true, false, q.inSub, outSub) + LegTrades(false, false, q.inNorm, outNorm))
  }

  function SettleSell(v: Venues, q: QuotePoint): Routed {
    var (sub, outSub) := SellLeg(v.sub, v.subState, q.inSub, q.outSub);
    var (norm, outNorm) := SellLeg(v.norm, v.normState, q.inNorm, q.outNorm);
    Routed(sub, norm, LegTrades(true, true, q.inSub, outSub) + LegTrades(false, true, q.inNorm, outNorm))
  }

  /** An order: a size in Y, bought with or sold for; a sell is sized in X at the price. */
  datatype Order = Order(isBuy: bool, size: real)

  function RouteOf(v: Venues, order: Order, price: real): Routed
    requires 0.0 < price
  {
    if order.isBuy then SettleBuy(v, BestSplit(BuySplits(v, order.size), order.size))
    else
      var totalX := order.size / price;
      SettleSell(v, BestSplit(SellSplits(v, totalX), totalX))
  }

  // ----- Edge -----

  /** What the submission gains from its trades at the price. */
  function SubmissionEdge(trades: seq<RoutedTrade>, price: real): real {
    if trades == [] then 0.0
    else
      var rest := SubmissionEdge(trades[..|trades| - 1], price);
      var t := trades[|trades| - 1];
      if !t.isSubmission then rest
      else rest + (if t.ammBuysX then SellEdge(t.amountX, t.amountY, price) else BuyEdge(t.amountY, t.amountX, price))
  }

  /** The edge of at most one submission trade followed by at most one other. */
  lemma EdgeOfLegs(mine: seq<RoutedTrade>, other: seq<RoutedTrade>, price: real)
    requires |mine| <= 1 && |other| <= 1 && (other != [] ==> !other[0].isSubmission)
    ensures SubmissionEdge(mine + other, price) == SubmissionEdge(mine, price)
  {
    if other != [] {
      assert (mine + other)[..|mine|] == mine;
    } else {
      assert mine + other == mine;
    }
  }

  lemma LegEdge(ammBuysX: bool, input: real, out: real, price: real)
    ensures SubmissionEdge(LegTrades(true, ammBuysX, input, out), price)
         == if out <= 0.0 then 0.0 else if ammBuysX then SellEdge(input, out, price) else BuyEdge(input, out, price)
  {}

  /** The edge of a settled split is the change of the submission's worth at the price. */
  lemma SettlementEdgeIsWorth(v: Venues, q: QuotePoint, price: real)
    ensures var r := SettleBuy(v, q);
            SubmissionEdge(r.trades, price) == Worth(r.subState, price) - Worth(v.subState, price)
    ensures var r := SettleSell(v, q);
            SubmissionEdge(r.trades, price) == Worth(r.subState, price) - Worth(v.subState, price)
  {
    BuyEdgeIsWorth(v, q, price);
    SellEdgeIsWorth(v, q, price);
  }

  lemma WorthOfBuy(st: PoolState, next: PoolState, input: real, out: real, price: real)
    requires next.x == st.x - out && next.y == st.y + input
    ensures BuyEdge(input, out, price) == Worth(next, price) - Worth(st, price)
  {
    assert (st.x - out) * price == st.x * price - out * price;
  }

  lemma WorthOfSell(st: PoolState, next: PoolState, input: real, out: real, price: real)
    requires next.x == st.x + input && next.y == st.y - out
    ensures SellEdge(input, out, price) == Worth(next, price) - Worth(st, price)
  {
    assert (st.x + input) * price == st.x * price + input * price;
  }

  lemma BuyLegWorth(p: Program, st: PoolState, input: real, quoted: real, price: real)
    ensures var (next, out) := BuyLeg(p, st, input, quoted);
            && 0.0 <= out
            && (if out == 0.0 then 0.0 else BuyEdge(input, out, price)) == Worth(next, price) - Worth(st, price)
  {
    hide ExecuteBuyX, QuoteBuyX, BuyEdge, Worth;
    BuyReportsReserveChange(p, st, input);
    var (next, out) := BuyLeg(p, st, input, quoted);
    if out != 0.0 {
      WorthOfBuy(st, next, input, out, price);
    }
  }

  lemma SellLegWorth(p: Program, st: PoolState, input: real, quoted: real, price: real)
    ensures var (next, out) := SellLeg(p, st, input, quoted);
            && 0.0 <= out
            && (if out == 0.0 then 0.0 else SellEdge(input, out, price)) == Worth(next, price) - Worth(st, price)
  {
    hide ExecuteSellX, QuoteSellX, SellEdge, Worth;
    SellReportsReserveChange(p, st, input);
    var (next, out) := SellLeg(p, st, input, quoted);
    if out != 0.0 {
      WorthOfSell(st, next, input, out, price);
    }
  }

  lemma BuyEdgeIsWorth(v: Venues, q: QuotePoint, price: real)
    ensures var r := SettleBuy(v, q);
            SubmissionEdge(r.trades, price) == Worth(r.subState, price) - Worth(v.subState, price)
  {
    hide BuyLeg, SubmissionEdge, BuyEdge, Worth;
    var outSub := BuyLeg(v.sub, v.subState, q.inSub, q.outSub).1;
    var outNorm := BuyLeg(v.norm, v.normState, q.inNorm, q.outNorm).1;
    BuyLegWorth(v.sub, v.subState, q.inSub, q.outSub, price);
    LegEdge(false, q.inSub, outSub, price);
    EdgeOfLegs(LegTrades(true, false, q.inSub, outSub), LegTrades(false, false, q.inNorm, outNorm), price);
  }

  lemma SellEdgeIsWorth(v: Venues, q: QuotePoint, price: real)
    ensures var r := SettleSell(v, q);
            SubmissionEdge(r.trades, price) == Worth(r.subState, price) - Worth(v.subState, price)
  {
    hide SellLeg, SubmissionEdge, SellEdge, Worth;
    var outSub := SellLeg(v.sub, v.subState, q.inSub, q.outSub).1;
    var outNorm := SellLeg(v.norm, v.normState, q.inNorm, q.outNorm).1;
    SellLegWorth(v.sub, v.subState, q.inSub, q.outSub, price);
    LegEdge(true, q.inSub, outSub, price);
    EdgeOfLegs(LegTrades(true, true, q.inSub, outSub), LegTrades(false, true, q.inNorm, outNorm), price);
  }

  // ----- What routing delivers -----

  /** What an order's trades pay out. */
  function BuyOutput(trades: seq<RoutedTrade>): real {
    if trades == [] then 0.0 else trades[0].amountX + BuyOutput(trades[1..])
  }

  function SellOutput(trades: seq<RoutedTrade>): real {
    if trades == [] then 0.0 else trades[0].amountY + SellOutput(trades[1..])
  }

  /** Neither pool rejects the leg it is asked to execute: it pays what it quoted. */
  ghost predicate BuyLegsPay(v: Venues, q: QuotePoint) {
    && (q.inSub > MIN_TRADE_SIZE ==> ExecuteBuyX(v.sub, v.subState, q.inSub).1 == QuoteBuyX(v.sub, v.subState, q.inSub))
    && (q.inNorm > MIN_TRADE_SIZE ==>
        ExecuteBuyX(v.norm, v.normState, q.inNorm).1 == QuoteBuyX(v.norm, v.normState, q.inNorm))
  }

  ghost predicate SellLegsPay(v: Venues, q: QuotePoint) {
    && (q.inSub > MIN_TRADE_SIZE ==>
        ExecuteSellX(v.sub, v.subState, q.inSub).1 == QuoteSellX(v.sub, v.subState, q.inSub))
    && (q.inNorm > MIN_TRADE_SIZE ==>
        ExecuteSellX(v.norm, v.normState, q.inNorm).1 == QuoteSellX(v.norm, v.normState, q.inNorm))
  }

  lemma BestBeatsShare(splits: real -> QuotePoint, total: real, share: real)
    requires share == 0.0 || share == 1.0
    ensures QuoteScore(splits(share)) <= QuoteScore(BestSplit(splits, total))
  {
    var s := Scores(splits);
    var probes := SplitProbes(s, total);
    BestIsMaximum(s, probes);
    hide Best;
    EndsAreProbed(s, total);
    assert s(share) <= s(Best(s, probes));
  }

  lemma EndsAreProbed(s: real -> real, total: real)
    ensures 0.0 in SplitProbes(s, total) && 1.0 in SplitProbes(s, total)
  {
    assert Whole().probes[0] == 0.0 && Whole().probes[1] == 1.0;
    hide Whole;
    RefineKeepsProbes(s, total, Whole());
    assert SplitEnd(s, total).probes[0] == 0.0 && SplitEnd(s, total).probes[1] == 1.0;
    assert SplitProbes(s, total)[0] == 0.0 && SplitProbes(s, total)[1] == 1.0;
  }

  lemma {:induction false} RefineKeepsProbes(s: real -> real, total: real, st: Search)
    ensures st.probes <= SplitRefine(s, total, st).probes
    decreases SplitTurnsLeft(st)
  {
    hide SplitStops;
    if SplitTurnsLeft(st) > 0 && !SplitStops(s, total, st.b) {
      RefineKeepsProbes(s, total, Step(s, st));
    }
  }

  lemma LegsOutput(ammBuysX: bool, a: real, outA: real, b: real, outB: real)
    requires 0.0 <= outA && 0.0 <= outB
    ensures var trades := LegTrades(true, ammBuysX, a, outA) + LegTrades(false, ammBuysX, b, outB);
            (if ammBuysX then SellOutput(trades) else BuyOutput(trades)) == outA + outB
  {
    var mine, other := LegTrades(true, ammBuysX, a, outA), LegTrades(false, ammBuysX, b, outB);
    LegOutput(true, ammBuysX, a, outA);
    LegOutput(false, ammBuysX, b, outB);
    if mine != [] {
      assert (mine + other)[1..] == other && mine[1..] == [];
    } else {
      assert mine + other == other;
    }
  }

  lemma LegOutput(isSubmission: bool, ammBuysX: bool, input: real, out: real)
    requires 0.0 <= out
    ensures var trades := LegTrades(isSubmission, ammBuysX, input, out);
            (if ammBuysX then SellOutput(trades) else BuyOutput(trades)) == out
  {
    var trades := LegTrades(isSubmission, ammBuysX, input, out);
    if trades != [] {
      assert trades[1..] == [];
    }
  }

  lemma WholeBuyShares(v: Venues, total: real)
    requires total > MIN_TRADE_SIZE
    ensures QuoteScore(BuySplit(v, total, 0.0)) == QuoteBuyX(v.norm, v.normState, total)
    ensures QuoteScore(BuySplit(v, total, 1.0)) == QuoteBuyX(v.sub, v.subState, total)
  {
    hide QuoteBuyX;
    assert total * 1.0 == total && total * 0.0 == 0.0;
  }

  lemma WholeSellShares(v: Venues, total: real)
    requires total > MIN_TRADE_SIZE
    ensures QuoteScore(SellSplit(v, total, 0.0)) == QuoteSellX(v.norm, v.normState, total)
    ensures QuoteScore(SellSplit(v, total, 1.0)) == QuoteSellX(v.sub, v.subState, total)
  {
    hide QuoteSellX;
    assert total * 1.0 == total && total * 0.0 == 0.0;
  }

  /** When neither pool rejects its leg, a routed buy delivers exactly the best score the search found, and at
      least what either pool would have paid for the whole order. */
  lemma RoutedBuyDelivers(v: Venues, total: real)
    requires BuyLegsPay(v, BestSplit(BuySplits(v, total), total))
    ensures var splits := BuySplits(v, total); var out := BuyOutput(SettleBuy(v, BestSplit(splits, total)).trades);
            && out == QuoteScore(BestSplit(splits, total))
            && (total > MIN_TRADE_SIZE ==> QuoteBuyX(v.sub, v.subState, total) <= out)
            && (total > MIN_TRADE_SIZE ==> QuoteBuyX(v.norm, v.normState, total) <= out)
  {
    hide QuoteBuyX, Best, SettleBuy, BuyOutput, BuySplit, SplitProbes, QuoteScore;
    var splits := BuySplits(v, total);
    BuySettlesInFull(v, total, Best(Scores(splits), SplitProbes(Scores(splits), total)));
    BestBeatsShare(splits, total, 0.0);
    BestBeatsShare(splits, total, 1.0);
    if total > MIN_TRADE_SIZE {
      WholeBuyShares(v, total);
    }
  }

  lemma BuySettlesInFull(v: Venues, total: real, share: real)
    requires BuyLegsPay(v, BuySplit(v, total, share))
    ensures var q := BuySplit(v, total, share); BuyOutput(SettleBuy(v, q).trades) == QuoteScore(q)
  {
    var q := BuySplit(v, total, share);
    hide QuoteBuyX, ExecuteBuyX, BuyLeg, LegTrades, BuyOutput, Clamp;
    BuyLegPays(v.sub, v.subState, q.inSub);
    BuyLegPays(v.norm, v.normState, q.inNorm);
    LegsOutput(false, q.inSub, q.outSub, q.inNorm, q.outNorm);
  }

  lemma BuyLegPays(p: Program, st: PoolState, input: real)
    requires input > MIN_TRADE_SIZE ==> ExecuteBuyX(p, st, input).1 == QuoteBuyX(p, st, input)
    ensures var quoted := CutOff(input, QuoteBuyX(p, st, input)); BuyLeg(p, st, input, quoted).1 == quoted >= 0.0
  {
    hide ExecuteBuyX;
  }

  lemma RoutedSellDelivers(v: Venues, total: real)
    requires SellLegsPay(v, BestSplit(SellSplits(v, total), total))
    ensures var splits := SellSplits(v, total); var out := SellOutput(SettleSell(v, BestSplit(splits, total)).trades);
            && out == QuoteScore(BestSplit(splits, total))
            && (total > MIN_TRADE_SIZE ==> QuoteSellX(v.sub, v.subState, total) <= out)
            && (total > MIN_TRADE_SIZE ==> QuoteSellX(v.norm, v.normState, total) <= out)
  {
    hide QuoteSellX, Best, SettleSell, SellOutput, SellSplit, SplitProbes, QuoteScore;
    var splits := SellSplits(v, total);
    SellSettlesInFull(v, total, Best(Scores(splits), SplitProbes(Scores(splits), total)));
    BestBeatsShare(splits, total, 0.0);
    BestBeatsShare(splits, total, 1.0);
    if total > MIN_TRADE_SIZE {
      WholeSellShares(v, total);
    }
  }

  lemma SellSettlesInFull(v: Venues, total: real, share: real)
    requires SellLegsPay(v, SellSplit(v, total, share))
    ensures var q := SellSplit(v, total, share); SellOutput(SettleSell(v, q).trades) == QuoteScore(q)
  {
    var q := SellSplit(v, total, share);
    hide QuoteSellX, ExecuteSellX, SellLeg, LegTrades, SellOutput, Clamp;
    SellLegPays(v.sub, v.subState, q.inSub);
    SellLegPays(v.norm, v.normState, q.inNorm);
    LegsOutput(true, q.inSub, q.outSub, q.inNorm, q.outNorm);
  }

  lemma SellLegPays(p: Program, st: PoolState, input: real)
    requires input > MIN_TRADE_SIZE ==> ExecuteSellX(p, st, input).1 == QuoteSellX(p, st, input)
    ensures var quoted := CutOff(input, QuoteSellX(p, st, input)); SellLeg(p, st, input, quoted).1 == quoted >= 0.0
  {
    hide ExecuteSellX;
  }
}
