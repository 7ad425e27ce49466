/** A pool on which the planner keeps half of what it could earn: the search's limit, at a real program and state. */
module PlannerLimits {
  import opened Reals
  import opened Codec
  import opened Nano
  import opened PoolModel
  import opened ArbSearch
  import opened GoldenSearch
  import opened ArbSearchLimits
  import opened Arbitrage

  /** Pays two for one in X, up to 0.04 of it: rising, concave and exact in nanos. */
  function CappedSwap(): SwapFn {
    (data: seq<byte>) =>
      if |data| < INSTRUCTION_SIZE then 0
      else
        var s := DecodeInstruction(data);
        if s.side != 0 then 0 else if s.input < 20000000 then 2 * s.input else 40000000
  }

  lemma CappedSwapPays(side: byte, input: u64, rx: u64, ry: u64, storage: seq<byte>)
    ensures CappedSwap()(SwapInstruction(side, input, rx, ry, storage)) ==
            if side != 0 then 0 else if input < 20000000 then 2 * input else 40000000
  {
    DecodeSwapInstruction(side, input, rx, ry, storage);
    hide SwapInstruction, DecodeInstruction;
  }

  ghost predicate IsCapped(p: Program, st: PoolState) {
    p.swap == CappedSwap() && 0.04 <= st.x && MIN_RESERVE < st.y
  }

  lemma CappedQuote(p: Program, st: PoolState, y: real)
    requires IsCapped(p, st) && 0.0 < y
    ensures 0.02 <= y ==> QuoteBuyX(p, st, y) == 0.04
    ensures y == 0.01 ==> QuoteBuyX(p, st, y) == 0.02
  {
    hide CappedSwap, SwapInstruction;
    CappedSwapPays(0, ToNano(y), ToNano(st.x), ToNano(st.y), st.storage);
    if y == 0.01 {
      assert ToNano(y) == 10000000;
    }
  }

  /** From the usual start of 20 the first size loses, so the search runs from 0.01 to 20 and never looks between 0.01,
      where it earns 0.01, and 0.033. At 0.02 it would have earned 0.02. */
  lemma PlannerKeepsHalf(p: Program, st: PoolState, floor: real)
    requires IsCapped(p, st)
    ensures BuyProfit(p, st, 1.0)(0.02) == 0.02
    ensures var plan := PlanBuy(p, st, 1.0, StartY(20.0), MinBuyInputY(), floor);
            plan.Some? ==> plan.value.profit <= 0.01
  {
    hide IsCapped, QuoteBuyX, GoldenProbes, Best, LeftProbe;
    var s := BuyProfit(p, st, 1.0);
    CappedQuote(p, st, 0.02);
    CappedQuote(p, st, 20.0);
    CappedQuote(p, st, 0.01);
    LowestProbeSize(19.99);
    var low := LowestProbe(0.01, 20.0);
    forall x, y | low <= x <= y ensures s(y) <= s(x) {
      CappedQuote(p, st, x);
      CappedQuote(p, st, y);
    }
    assert FallsFrom(s, low);
    SearchSkips(s, 0.01, 20.0);
    BestIsMaximum(s, GoldenProbes(s, 0.01, 20.0));
    hide FallsFrom;
    var best := Best(s, GoldenProbes(s, 0.01, 20.0));
    CappedQuote(p, st, Max(best, 0.01));
    assert best == 0.01 || low <= best;
    assert s(best) <= 0.01;
    assert StartY(20.0) == 20.0 && MinBuyInputY() == 0.01;
    assert BracketMaximum(s, 20.0, 0.01, MAX_INPUT_AMOUNT) == Bracketing(0.01, 20.0, [20.0], 0, false);
    hide BracketMaximum;
    assert SearchedSize(s, 20.0, 0.01, MAX_INPUT_AMOUNT) == best;
  }
}
