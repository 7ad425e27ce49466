/** What the program and its after-swap hook are told of a trade. */
module TradeCalls {
  import opened Codec
  import opened Nano
  import opened PoolModel

  /** The 1049 bytes of a quote: the side, the input and the reserves in nanos, and the storage. */
  ghost predicate AsksFor(data: seq<byte>, st: PoolState, side: byte, input: real) {
    && |data| == 1049
    && DecodeInstruction(data) == Swap(side, ToNano(input), ToNano(st.x), ToNano(st.y))
    && data[25..] == Padded(st.storage)
  }

  /** The 1066 bytes of the hook: its tag, the side, what went in and what came out, the reserves as the trade left
      them, the step, and the storage as it was. */
  ghost predicate TellsOf(data: seq<byte>, next: PoolState, side: byte, input: real, out: real, step: u64,
                          storage: seq<byte>) {
    && |data| == 1066 && data[0] == 2
    && DecodeAfterSwap(data) == AfterSwap(side, ToNano(input), ToNano(out), ToNano(next.x), ToNano(next.y), step,
                                          Padded(storage))
  }

  /** The storage after a trade: the hook's, called once on those bytes, or without a hook the old one. */
  ghost predicate StorageAfter(p: Program, st: PoolState, next: PoolState, side: byte, input: real, out: real) {
    match p.afterSwap
    case None => next.storage == st.storage
    case Some(after) =>
      exists data :: TellsOf(data, next, side, input, out, st.step, st.storage) &&
        next.storage == after(data, st.storage)
  }

  lemma QuoteData(st: PoolState, side: byte, input: real)
    ensures AsksFor(SwapInstruction(side, ToNano(input), ToNano(st.x), ToNano(st.y), st.storage), st, side, input)
  {
    DecodeSwapInstruction(side, ToNano(input), ToNano(st.x), ToNano(st.y), st.storage);
    hide ToNano, DecodeInstruction;
  }

  /** A quote is the program's answer to those bytes, when it is positive and within the reserve it is paid from; a
      refused one is zero. */
  lemma QuotesAsk(p: Program, st: PoolState, input: real)
    ensures QuoteBuyX(p, st, input) != 0.0 ==> exists data ::
              AsksFor(data, st, 0, input) && QuoteBuyX(p, st, input) == FromNano(p.swap(data)) <= st.x
    ensures QuoteSellX(p, st, input) != 0.0 ==> exists data ::
              AsksFor(data, st, 1, input) && QuoteSellX(p, st, input) == FromNano(p.swap(data)) <= st.y
  {
    QuoteData(st, 0, input);
    QuoteData(st, 1, input);
    hide AsksFor, ToNano, SwapInstruction;
  }

  lemma HookData(st: PoolState, next: PoolState, side: byte, input: real, out: real)
    ensures TellsOf(AfterSwapInstruction(side, ToNano(input), ToNano(out), ToNano(next.x), ToNano(next.y), st.step,
                                         st.storage),
                    next, side, input, out, st.step, st.storage)
  {
    DecodeAfterSwapInstruction(side, ToNano(input), ToNano(out), ToNano(next.x), ToNano(next.y), st.step, st.storage);
    hide ToNano, DecodeAfterSwap;
  }

  /** A buy that went through tells the hook so, and nothing else calls it. */
  lemma BuyTellsHook(p: Program, st: PoolState, input: real)
    ensures var (next, out) := ExecuteBuyX(p, st, input);
            if out == 0.0 then next == st else StorageAfter(p, st, next, 0, input, out)
  {
    var (next, out) := ExecuteBuyX(p, st, input);
    HookData(st, next, 0, input, out);
    hide TellsOf, ToNano, AfterSwapInstruction, QuoteBuyX;
  }

  lemma SellTellsHook(p: Program, st: PoolState, input: real)
    ensures var (next, out) := ExecuteSellX(p, st, input);
            if out == 0.0 then next == st else StorageAfter(p, st, next, 1, input, out)
  {
    var (next, out) := ExecuteSellX(p, st, input);
    HookData(st, next, 1, input, out);
    hide TellsOf, ToNano, AfterSwapInstruction, QuoteSellX;
  }

  /** Those bytes are determined by what they tell. */
  lemma HookDataIsUnique(data: seq<byte>, next: PoolState, side: byte, input: real, out: real, step: u64,
                         storage: seq<byte>)
    requires TellsOf(data, next, side, input, out, step, storage)
    ensures data == AfterSwapInstruction(side, ToNano(input), ToNano(out), ToNano(next.x), ToNano(next.y), step,
                                         storage)
  {
    EncodeDecodedAfterSwap(data);
    hide ToNano, DecodeAfterSwap;
    assert Padded(Padded(storage)) == Padded(storage);
  }

  /** When a buy goes through: a positive answer, short of the X reserve, that leaves more than 1e-12 of it. */
  lemma BuyGoesThrough(p: Program, st: PoolState, input: real)
    ensures var q := QuoteBuyX(p, st, input); var (next, out) := ExecuteBuyX(p, st, input);
            && (q != 0.0 <==> 0.0 < input && st.x > 0.000000000001 && st.y > 0.000000000001 &&
                              0.0 < Quoted(p, st, 0, input) <= st.x)
            && (out != 0.0 <==> q != 0.0 && st.x - q > 0.000000000001)
  {
    hide Quoted;
  }

  lemma SellGoesThrough(p: Program, st: PoolState, input: real)
    ensures var q := QuoteSellX(p, st, input); var (next, out) := ExecuteSellX(p, st, input);
            && (q != 0.0 <==> 0.0 < input && st.x > 0.000000000001 && st.y > 0.000000000001 &&
                              0.0 < Quoted(p, st, 1, input) <= st.y)
            && (out != 0.0 <==> q != 0.0 && st.y - q > 0.000000000001)
  {
    hide Quoted;
  }
}
