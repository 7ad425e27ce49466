/** The normalizer traded as a pool with real reserves: what truncation to nanos can and cannot do. */
module NormalizerPool {
  import opened Codec
  import opened Nano
  import opened PoolModel
  import opened Normalizer
  import ConstantProduct
  import Reals

  /** The native program as a swap function. An overflow, which no fee of at most 10000 basis points causes,
      is given no output here. */
  function NativeFn(): SwapFn {
    (data: seq<byte>) => if NativeSwap(data).Value? then NativeSwap(data).n % U64 else 0
  }

  /** The normalizer keeps its storage: it has no after-swap hook, or one that does nothing. */
  ghost predicate IsNormalizer(p: Program) {
    p.swap == NativeFn() && (p.afterSwap.Some? ==> forall d, s :: p.afterSwap.value(d, s) == s)
  }

  /** The fee a state charges, in basis points. */
  function FeeOf(st: PoolState): nat { FeeWord(st.storage) }

  ghost predicate Configured(st: PoolState) {
    |st.storage| == STORAGE_SIZE && FeeOf(st) <= 10000
  }

  /** The exact integer quote of the curve at a state's fee. */
  function CurveQuote(st: PoolState, side: byte, input: nat, rx: nat, ry: nat): nat
    requires FeeOf(st) <= 10000 && rx > 0 && ry > 0
  {
    if side == 0 then ConstantProduct.Quote(ry, rx, input, 10000 - FeeOf(st), 10000)
    else ConstantProduct.Quote(rx, ry, input, 10000 - FeeOf(st), 10000)
  }

  lemma NativeQuote(st: PoolState, side: byte, input: u64, rx: u64, ry: u64)
    requires Configured(st) && side <= 1 && rx > 0 && ry > 0
    ensures NativeSwap(SwapInstruction(side, input, rx, ry, st.storage)) == Value(CurveQuote(st, side, input, rx, ry))
  {
    var data := SwapInstruction(side, input, rx, ry, st.storage);
    DecodeSwapInstruction(side, input, rx, ry, st.storage);
    assert Padded(st.storage) == st.storage;
    NativeIsExact(data);
    hide SwapInstruction, NativeSwap, FeeWord, Padded, ConstantProduct.Quote;
  }

  lemma CurveQuoteBelowReserve(st: PoolState, side: byte, input: nat, rx: nat, ry: nat)
    requires FeeOf(st) <= 10000 && rx > 0 && ry > 0
    ensures CurveQuote(st, side, input, rx, ry) < if side == 0 then rx else ry
  {
    hide ConstantProduct.Quote, FeeWord;
    ConstantProduct.QuoteBelowReserve(ry, rx, input, 10000 - FeeOf(st), 10000);
    ConstantProduct.QuoteBelowReserve(rx, ry, input, 10000 - FeeOf(st), 10000);
  }

  /** What the curve charges is the fee read from the storage, and its quote is the exact integer one. */
  lemma QuoteIsCurve(st: PoolState, side: byte, input: u64, rx: u64, ry: u64)
    requires Configured(st) && side <= 1 && rx > 0 && ry > 0
    ensures NativeFn()(SwapInstruction(side, input, rx, ry, st.storage)) == CurveQuote(st, side, input, rx, ry)
  {
    hide SwapInstruction, NativeSwap, CurveQuote, FeeWord;
    NativeQuote(st, side, input, rx, ry);
    CurveQuoteBelowReserve(st, side, input, rx, ry);
    NativeFnIs(SwapInstruction(side, input, rx, ry, st.storage), CurveQuote(st, side, input, rx, ry));
  }

  lemma NativeFnIs(data: seq<byte>, n: nat)
    requires NativeSwap(data) == Value(n) && n < U64
    ensures NativeFn()(data) == n
  {
    hide NativeSwap;
  }

  lemma EmptyReserveQuotesZero(st: PoolState, side: byte, input: u64, rx: u64, ry: u64)
    requires Configured(st) && (rx == 0 || ry == 0)
    ensures NativeFn()(SwapInstruction(side, input, rx, ry, st.storage)) == 0
  {
    DecodeSwapInstruction(side, input, rx, ry, st.storage);
    hide SwapInstruction, FeeWord;
  }

  /** The quote stays strictly inside the floored reserve it is paid from. */
  lemma QuoteBelowFloor(st: PoolState, side: byte, input: u64, rx: u64, ry: u64)
    requires Configured(st) && side <= 1
    ensures var o := NativeFn()(SwapInstruction(side, input, rx, ry, st.storage));
            o > 0 ==> o < (if side == 0 then rx else ry)
  {
    if rx > 0 && ry > 0 {
      QuoteIsCurve(st, side, input, rx, ry);
      CurveQuoteBelowReserve(st, side, input, rx, ry);
    } else {
      EmptyReserveQuotesZero(st, side, input, rx, ry);
    }
  }

  /** A positive quote is never rejected: it is settled as quoted, and the fee is still the same afterwards. */
  lemma NormalizerNeverRejects(p: Program, st: PoolState, input: real)
    requires IsNormalizer(p) && Configured(st)
    ensures ExecuteBuyX(p, st, input).1 == QuoteBuyX(p, st, input)
    ensures ExecuteSellX(p, st, input).1 == QuoteSellX(p, st, input)
    ensures ExecuteBuyX(p, st, input).0.storage == st.storage && ExecuteSellX(p, st, input).0.storage == st.storage
  {
    hide NativeFn, Configured, SwapInstruction;
    if Tradable(st, input) {
      QuoteBelowFloor(st, 0, ToNano(input), ToNano(st.x), ToNano(st.y));
      QuoteBelowFloor(st, 1, ToNano(input), ToNano(st.x), ToNano(st.y));
      NanoNeverGains(st.x);
      NanoNeverGains(st.y);
    }
  }

  // ----- Truncation never costs the pool -----

  /** In nanos: real reserves `ra`, `rb` and input `rx` are floored to `a`, `b`, `i` for the quote, and a fee worth
      at least one nano of the floored input reserve makes up for everything the floors give away. */
  lemma FloorsKeepProduct(ra: real, rb: real, rx: real, a: nat, b: nat, i: nat, fee: nat)
    requires 0 < a && a as real <= ra < a as real + 1.0 && b as real <= rb && i as real <= rx && 0.0 <= rx
    requires fee <= 10000 && fee * (a + 1) >= 10000
    ensures var o := ConstantProduct.Quote(a, b, i, 10000 - fee, 10000);
            ra * rb <= (ra + rx) * (rb - o as real)
  {
    hide ConstantProduct.Quote;
    var n, o := FloorFacts(a, b, i, fee);
    RealProduct(ra, rb, rx, a as real, b as real, i as real, n as real, o as real);
  }

  lemma FloorFacts(a: nat, b: nat, i: nat, fee: nat) returns (n: nat, o: nat)
    requires 0 < a && fee <= 10000 && fee * (a + 1) >= 10000
    ensures o == ConstantProduct.Quote(a, b, i, 10000 - fee, 10000)
    ensures o as real * (a as real + n as real) <= b as real * n as real
    ensures n as real * (a as real + 1.0) <= i as real * a as real
  {
    n := ConstantProduct.Net(i, 10000 - fee, 10000);
    o := ConstantProduct.Quote(a, b, i, 10000 - fee, 10000);
    ConstantProduct.DivSandwich(i * (10000 - fee), 10000);
    ConstantProduct.OutputBelowReserve(a, b, n);
    FeeCoversFloor(n, i, a, fee);
    hide ConstantProduct.Quote, ConstantProduct.Net;
    OutputShare(a, b, n, o);
    CastProducts(a, b, n, o, i);
  }

  lemma OutputShare(a: nat, b: nat, n: nat, o: nat)
    requires o <= b && a * b <= (a + n) * (b - o)
    ensures o * (a + n) <= b * n
  {}

  lemma CastProducts(a: nat, b: nat, n: nat, o: nat, i: nat)
    requires o * (a + n) <= b * n && n * (a + 1) <= i * a
    ensures o as real * (a as real + n as real) <= b as real * n as real
    ensures n as real * (a as real + 1.0) <= i as real * a as real
  {
    Reals.Cast(o, a + n);
    Reals.Cast(b, n);
    Reals.Cast(n, a + 1);
    Reals.Cast(i, a);
  }

  lemma FeeCoversFloor(n: nat, i: nat, a: nat, fee: nat)
    requires fee <= 10000 && fee * (a + 1) >= 10000 && n * 10000 <= i * (10000 - fee)
    ensures n * (a + 1) <= i * a
  {}

  lemma RealProduct(ra: real, rb: real, rx: real, a: real, b: real, i: real, n: real, o: real)
    requires 0.0 < a <= ra < a + 1.0 && 0.0 <= b <= rb && 0.0 <= i <= rx && 0.0 <= n && 0.0 <= o
    requires o * (a + n) <= b * n && n * (a + 1.0) <= i * a
    ensures ra * rb <= (ra + rx) * (rb - o)
  {
    InputOutweighs(ra, rx, a, i, n);
    Reals.Scale(b, rb, n);
    OutweighedOutput(o, rb, n, rx, a + n, ra + rx);
  }

  lemma InputOutweighs(ra: real, rx: real, a: real, i: real, n: real)
    requires 0.0 < a && ra <= a + 1.0 && i <= rx && 0.0 <= n && n * (a + 1.0) <= i * a
    ensures n * (ra + rx) <= rx * (a + n)
  {
    Reals.Scale(ra, a + 1.0, n);
    Reals.Scale(i, rx, a);
    assert n * ra <= rx * a;
  }

  lemma OutweighedOutput(o: real, rb: real, n: real, rx: real, net: real, whole: real)
    requires 0.0 < net && 0.0 <= whole && 0.0 <= rb && o * net <= rb * n && n * whole <= rx * net
    ensures o * whole <= rx * rb
  {
    Reals.Scale(o * net, rb * n, whole);
    Reals.Scale(n * whole, rx * net, rb);
    Reals.Cancel(net, o * whole, rx * rb);
  }

  lemma TradeKeepsProduct(rin: real, rout: real, input: real, o: nat, fee: nat)
    requires rin * 1000000000.0 < 18446744073709551616.0 && ToNano(rin) > 0 && 0.0 < input && 0.0 <= rin && 0.0 <= rout
    requires fee <= 10000 && fee * (ToNano(rin) + 1) >= 10000
    requires o == ConstantProduct.Quote(ToNano(rin), ToNano(rout), ToNano(input), 10000 - fee, 10000)
    ensures rin * rout <= (rin + input) * (rout - o as real / 1000000000.0)
  {
    hide ConstantProduct.Quote;
    NanoNeverGains(input);
    NanoNeverGains(rout);
    NanoTruncates(rin);
    hide ToNano;
    FloorsKeepProduct(rin * 1000000000.0, rout * 1000000000.0, input * 1000000000.0,
                      ToNano(rin), ToNano(rout), ToNano(input), fee);
    Unscale(rin, rout, input, o);
  }

  /** A buy from the normalizer never lowers the product of its real reserves, provided the fee on the floored
      input reserve is worth a nano and that reserve fits a word. */
  lemma BuyKeepsProduct(p: Program, st: PoolState, inputY: real)
    requires IsNormalizer(p) && Configured(st)
    requires st.y * 1000000000.0 < 18446744073709551616.0 && FeeOf(st) * (ToNano(st.y) + 1) >= 10000
    ensures var next := ExecuteBuyX(p, st, inputY).0; st.x * st.y <= next.x * next.y
  {
    hide NativeFn, Configured, ConstantProduct.Quote, ToNano, Quoted, FeeOf, IsNormalizer;
    BuyReportsReserveChange(p, st, inputY);
    var out := ExecuteBuyX(p, st, inputY).1;
    if out != 0.0 {
      assert out == Quoted(p, st, 0, inputY) && 0.0 < st.x && 0.0 < st.y;
      hide ExecuteBuyX, QuoteBuyX;
      var o := QuotedNanos(p, st, 0, inputY);
      TradeKeepsProduct(st.y, st.x, inputY, o, FeeOf(st));
    }
  }

  lemma SellKeepsProduct(p: Program, st: PoolState, inputX: real)
    requires IsNormalizer(p) && Configured(st)
    requires st.x * 1000000000.0 < 18446744073709551616.0 && FeeOf(st) * (ToNano(st.x) + 1) >= 10000
    ensures var next := ExecuteSellX(p, st, inputX).0; st.x * st.y <= next.x * next.y
  {
    hide NativeFn, Configured, ConstantProduct.Quote, ToNano, Quoted, FeeOf, IsNormalizer;
    SellReportsReserveChange(p, st, inputX);
    var out := ExecuteSellX(p, st, inputX).1;
    if out != 0.0 {
      assert out == Quoted(p, st, 1, inputX) && 0.0 < st.x && 0.0 < st.y;
      hide ExecuteSellX, QuoteSellX;
      var o := QuotedNanos(p, st, 1, inputX);
      TradeKeepsProduct(st.x, st.y, inputX, o, FeeOf(st));
    }
  }

  /** A positive quote comes from the exact integer curve on the floored reserves, both of them positive. */
  lemma QuotedNanos(p: Program, st: PoolState, side: byte, input: real) returns (o: u64)
    requires IsNormalizer(p) && Configured(st) && side <= 1 && Quoted(p, st, side, input) > 0.0
    ensures FeeOf(st) <= 10000
    ensures ToNano(st.x) > 0 && ToNano(st.y) > 0 && Quoted(p, st, side, input) == FromNano(o)
    ensures o == CurveQuote(st, side, ToNano(input), ToNano(st.x), ToNano(st.y))
  {
    hide NativeFn, ToNano, FeeWord, SwapInstruction;
    var i, x, y := ToNano(input), ToNano(st.x), ToNano(st.y);
    o := p.swap(SwapInstruction(side, i, x, y, st.storage));
    if x == 0 || y == 0 {
      EmptyReserveQuotesZero(st, side, i, x, y);
    } else {
      QuoteIsCurve(st, side, i, x, y);
    }
  }

  lemma Unscale(rin: real, rout: real, input: real, o: nat)
    requires var s := 1000000000.0; (rin * s) * (rout * s) <= (rin * s + input * s) * (rout * s - o as real)
    ensures rin * rout <= (rin + input) * (rout - o as real / 1000000000.0)
  {
    var q := o as real / 1000000000.0;
    assert o as real == q * 1000000000.0;
  }

  /** The fee a state charges is never zero, so ten thousand nanos of input reserve are always enough. */
  lemma FeeIsWorthANano(st: PoolState, reserve: nat)
    requires reserve >= 9999
    ensures FeeOf(st) * (reserve + 1) >= 10000
  {
    assert FeeOf(st) >= 1;
    ConstantProduct.Mul(1, FeeOf(st), reserve + 1);
  }
}
