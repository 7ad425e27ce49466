/** A pool of two reserves traded through a swap program. */
module PoolModel {
  import opened Codec
  import opened Nano

  const MIN_RESERVE: real := 0.000000000001

  datatype Option<T> = None | Some(value: T)

  /** A swap program maps instruction bytes to an output in nanos. */
  type SwapFn = seq<byte> -> u64

  /** An after-swap hook rewrites the storage it is given, in place: the length stays. */
  type AfterSwapFn = f: (seq<byte>, seq<byte>) -> seq<byte> | forall d, s :: |f(d, s)| == |s|
    witness (d: seq<byte>, s: seq<byte>) => s

  datatype Program = Program(name: string, swap: SwapFn, afterSwap: Option<AfterSwapFn>)

  /** What trading changes: the reserves, the program's storage, the step it is told. */
  datatype PoolState = PoolState(x: real, y: real, storage: seq<byte>, step: u64)

  // ----- The state as a value -----

  function Quoted(p: Program, st: PoolState, side: byte, input: real): real {
    FromNano(p.swap(SwapInstruction(side, ToNano(input), ToNano(st.x), ToNano(st.y), st.storage)))
  }

  predicate Tradable(st: PoolState, input: real) {
    input > 0.0 && st.x > MIN_RESERVE && st.y > MIN_RESERVE
  }

  function QuoteBuyX(p: Program, st: PoolState, inputY: real): (out: real)
    ensures 0.0 <= out
  {
    if !Tradable(st, inputY) then 0.0
    else
      var quoted := Quoted(p, st, 0, inputY);
      if quoted <= 0.0 || quoted > st.x then 0.0 else quoted
  }

  function QuoteSellX(p: Program, st: PoolState, inputX: real): (out: real)
    ensures 0.0 <= out
  {
    if !Tradable(st, inputX) then 0.0
    else
      var quoted := Quoted(p, st, 1, inputX);
      if quoted <= 0.0 || quoted > st.y then 0.0 else quoted
  }

  function AfterTrade(p: Program, st: PoolState, side: byte, input: real, output: real): PoolState {
    match p.afterSwap
    case None => st
    case Some(after) =>
      st.(storage := after(AfterSwapInstruction(side, ToNano(input), ToNano(output), ToNano(st.x), ToNano(st.y),
                                                st.step, st.storage),
                           st.storage))
  }

  function Settle(p: Program, st: PoolState, side: byte, input: real, output: real, x: real, y: real)
    : (PoolState, real)
  {
    if input <= 0.0 || output <= 0.0 || x <= MIN_RESERVE || y <= MIN_RESERVE then (st, 0.0)
    else (AfterTrade(p, st.(x := x, y := y), side, input, output), output)
  }

  /** The state after a buy and what the buyer received; a rejected buy changes nothing and pays nothing. */
  function ExecuteBuyX(p: Program, st: PoolState, inputY: real): (PoolState, real) {
    var out := QuoteBuyX(p, st, inputY);
    if out >= st.x then (st, 0.0) else Settle(p, st, 0, inputY, out, st.x - out, st.y + inputY)
  }

  function ExecuteSellX(p: Program, st: PoolState, inputX: real): (PoolState, real) {
    var out := QuoteSellX(p, st, inputX);
    if out >= st.y then (st, 0.0) else Settle(p, st, 1, inputX, out, st.x + inputX, st.y - out)
  }

  /** A trade moves exactly what it reports, pays exactly its quote, and keeps the storage's size and the step;
      a rejected one leaves the state as it was. */
  lemma BuyReportsReserveChange(p: Program, st: PoolState, inputY: real)
    ensures var (next, out) := ExecuteBuyX(p, st, inputY);
            && (out == 0.0 ==> next == st)
            && (out != 0.0 ==>
                  && out == QuoteBuyX(p, st, inputY) > 0.0 && inputY > 0.0
                  && next.x == st.x - out && next.y == st.y + inputY
                  && next.x > MIN_RESERVE && next.y > MIN_RESERVE)
            && next.step == st.step && |next.storage| == |st.storage|
  {}

  lemma SellReportsReserveChange(p: Program, st: PoolState, inputX: real)
    ensures var (next, out) := ExecuteSellX(p, st, inputX);
            && (out == 0.0 ==> next == st)
            && (out != 0.0 ==>
                  && out == QuoteSellX(p, st, inputX) > 0.0 && inputX > 0.0
                  && next.x == st.x + inputX && next.y == st.y - out
                  && next.x > MIN_RESERVE && next.y > MIN_RESERVE)
            && next.step == st.step && |next.storage| == |st.storage|
  {}
}
