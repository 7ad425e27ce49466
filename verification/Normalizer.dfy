/** The three constant-product swap programs, from instruction bytes to output, in checked 128-bit arithmetic. */
module Normalizer {
  import opened Words
  import opened Codec
  import opened ConstantProduct

  const DEFAULT_FEE_BPS: nat := 30

  /** The result of checked arithmetic; `Overflow` is where the program would wrap or abort. */
  datatype Checked = Value(n: nat) | Overflow {
    predicate IsFailure() { Overflow? }
    function PropagateFailure(): Checked
      requires Overflow?
    {
      Overflow
    }
    function Extract(): nat
      requires Value?
    {
      n
    }
  }

  const U128: nat := 0x1_0000_0000_0000_0000_0000_0000_0000_0000
  const U64: nat := 0x1_0000_0000_0000_0000

  function Checked128(n: int): Checked {
    if 0 <= n < U128 then Value(n) else Overflow
  }

  /** One side of the curve: `k` is the product of the reserves, `keep` the parts in `den` a fee leaves. */
  function Leg(input: nat, rin: nat, rout: nat, k: nat, keep: int, den: nat): Checked
    requires rin > 0 && den > 0
  {
    var num :- Checked128(keep);
    var scaled :- Checked128(input * num);
    var newIn :- Checked128(rin + scaled / den);
    var sum :- Checked128(k + newIn);
    var top :- Checked128(sum - 1);
    Value(SaturatingSub(rout, top / newIn) % U64)
  }

  function Curve(data: seq<byte>, keep: int, den: nat): Checked
    requires |data| >= INSTRUCTION_SIZE && den > 0
  {
    var s := DecodeInstruction(data);
    if s.rx == 0 || s.ry == 0 then Value(0)
    else
      var k :- Checked128(s.rx * s.ry);
      if s.side == 0 then Leg(s.input, s.ry, s.rx, k, keep, den)
      else if s.side == 1 then Leg(s.input, s.rx, s.ry, k, keep, den)
      else Value(0)
  }

  /** The fee word follows the reserves; zero, or no word at all, stands for 30 basis points. */
  function FeeWord(storage: seq<byte>): nat {
    if |storage| >= 2 then
      var low: nat, high: nat := storage[0], storage[1];
      var raw := low + 256 * high;
      if raw == 0 then DEFAULT_FEE_BPS else raw
    else DEFAULT_FEE_BPS
  }

  function NativeSwap(data: seq<byte>): Checked {
    if |data| < INSTRUCTION_SIZE then Value(0) else Curve(data, 10000 - FeeWord(data[25..]), 10000)
  }

  function OnChainSwap(data: seq<byte>): Checked {
    if |data| < INSTRUCTION_SIZE then Value(0) else Curve(data, 997, 1000)
  }

  /** The starter decodes a whole instruction, storage included, before it computes anything. */
  function StarterSwap(data: seq<byte>): Checked {
    if |data| < SWAP_INSTRUCTION_SIZE then Value(0) else Curve(data, 950, 1000)
  }

  // ----- What the arithmetic computes -----

  /** The output in exact integers: no width, no error. */
  function ExactOutput(s: Swap, num: nat, den: nat): nat
    requires den > 0
  {
    if s.rx == 0 || s.ry == 0 then 0
    else if s.side == 0 then Quote(s.ry, s.rx, s.input, num, den)
    else if s.side == 1 then Quote(s.rx, s.ry, s.input, num, den)
    else 0
  }

  lemma ReservesFit(rin: u64, rout: u64)
    ensures rin * rout <= (U64 - 1) * (U64 - 1) < U128 - 2 * U64 + 2
  {
    ProductFits(rin, rout);
  }

  /** With a fee of at most the whole input no step leaves 128 bits, and the last cast loses nothing. */
  lemma LegIsExact(input: u64, rin: u64, rout: u64, num: nat, den: nat)
    requires rin > 0 && 0 < den <= 10000 && num <= den
    ensures Leg(input, rin, rout, rin * rout, num, den) == Value(Quote(rin, rout, input, num, den))
  {
    ReservesFit(rin, rout);
    NonNegative(rin, rout);
    NetAtMostInput(input, num, den);
    Mul(num, den, input);
    NonNegative(input, num);
    OutputBelowReserve(rin, rout, Net(input, num, den));
  }

  lemma CurveIsExact(data: seq<byte>, num: nat, den: nat)
    requires |data| >= INSTRUCTION_SIZE && 0 < den <= 10000 && num <= den
    ensures Curve(data, num, den) == Value(ExactOutput(DecodeInstruction(data), num, den))
  {
    hide Leg, DecodeInstruction;
    var s := DecodeInstruction(data);
    if s.rx > 0 && s.ry > 0 {
      ReservesFit(s.rx, s.ry);
      NonNegative(s.rx, s.ry);
      LegIsExact(s.input, s.ry, s.rx, num, den);
      LegIsExact(s.input, s.rx, s.ry, num, den);
    }
  }

  /** The side is one of the two and both reserves are there, so the curve is really evaluated. */
  predicate Live(s: Swap) { s.rx > 0 && s.ry > 0 && s.side <= 1 }

  /** The native program is exact when its fee word is at most 10000 basis points; above that it overflows on
      every live instruction. */
  lemma NativeIsExact(data: seq<byte>)
    requires |data| >= INSTRUCTION_SIZE
    ensures var s := DecodeInstruction(data); var fee := FeeWord(data[25..]);
            && (fee <= 10000 ==> NativeSwap(data) == Value(ExactOutput(s, 10000 - fee, 10000)))
            && (fee > 10000 ==> NativeSwap(data) == if Live(s) then Overflow else Value(0))
  {
    var s := DecodeInstruction(data);
    var fee := FeeWord(data[25..]);
    hide DecodeInstruction, FeeWord;
    if fee <= 10000 {
      CurveIsExact(data, 10000 - fee, 10000);
    } else if s.rx > 0 && s.ry > 0 {
      ReservesFit(s.rx, s.ry);
      NonNegative(s.rx, s.ry);
    }
  }

  lemma StarterIsExact(data: seq<byte>)
    requires |data| >= SWAP_INSTRUCTION_SIZE
    ensures StarterSwap(data) == Value(ExactOutput(DecodeInstruction(data), 950, 1000))
  {
    CurveIsExact(data, 950, 1000);
  }

  // ----- The native and the on-chain program -----

  /** A fee in tenths of a percent is the same fee in basis points. */
  lemma SameNet(input: nat, num: nat)
    ensures Net(input, 10 * num, 10000) == Net(input, num, 1000)
  {
    var n, m := Net(input, num, 1000), Net(input, 10 * num, 10000);
    assert input * (10 * num) == 10 * (input * num);
    DivSandwich(input * num, 1000);
    DivSandwich(input * (10 * num), 10000);
    hide Net;
    AtMost(n, m, 10000);
    AtMost(m, n, 10000);
  }

  ghost predicate AgreeWith(storage: seq<byte>) {
    forall side: byte, input: u64, rx: u64, ry: u64 ::
      NativeSwap(SwapInstruction(side, input, rx, ry, storage)) ==
        OnChainSwap(SwapInstruction(side, input, rx, ry, storage))
  }

  lemma ThirtyAgrees(data: seq<byte>)
    requires |data| < INSTRUCTION_SIZE || FeeWord(data[25..]) == 30
    ensures NativeSwap(data) == OnChainSwap(data)
  {
    if |data| >= INSTRUCTION_SIZE {
      var s := DecodeInstruction(data);
      NativeIsExact(data);
      CurveIsExact(data, 997, 1000);
      hide DecodeInstruction, FeeWord, Curve, Net;
      SameNet(s.input, 997);
    }
  }

  /** An instruction on which a different fee shows: ten micro-units into a pool of one nano against a whole unit. */
  lemma OtherFeeDisagrees(storage: seq<byte>)
    requires |storage| == STORAGE_SIZE && FeeWord(storage) != 30
    ensures var data := SwapInstruction(1, 10000, 1, 1000000000, storage); NativeSwap(data) != OnChainSwap(data)
  {
    var data := SwapInstruction(1, 10000, 1, 1000000000, storage);
    DecodeSwapInstruction(1, 10000, 1, 1000000000, storage);
    assert Padded(storage) == storage;
    var fee := FeeWord(storage);
    hide SwapInstruction, FeeWord, NativeSwap, Curve, Quote;
    NativeIsExact(data);
    CurveIsExact(data, 997, 1000);
    if fee <= 10000 {
      ThinQuoteDiffers(fee);
    }
  }

  lemma ThinQuoteDiffers(fee: nat)
    requires fee <= 10000 && fee != 30
    ensures Quote(1, 1000000000, 10000, 10000 - fee, 10000) != Quote(1, 1000000000, 10000, 997, 1000)
  {
    hide Output, Net;
    RoundNet(10000 - fee);
    SameNet(10000, 997);
    RoundNet(9970);
    if fee < 30 {
      ThinPoolTellsApart(9970, 10000 - fee);
    } else {
      ThinPoolTellsApart(10000 - fee, 9970);
    }
  }

  lemma RoundNet(num: nat)
    ensures Net(10000, num, 10000) == num
  {}

  lemma ThinPoolTellsApart(n: nat, m: nat)
    requires n < m <= 10000
    ensures Output(1, 1000000000, n) < Output(1, 1000000000, m)
  {
    var q := 1000000000;
    var o := Output(1, q, n);
    OutputBelowReserve(1, q, n);
    var p := q - o;
    if p < 10003 {
      Mul(p, 10002, 1 + n);
    }
    assert (2 + n) * (p - 1) == (1 + n) * p - (1 + n) + (p - 1);
    Mul(2 + n, 1 + m, p - 1);
    OutputIsLargest(1, q, m, o + 1);
  }

  /** The two programs agree on every instruction carrying a storage exactly when its fee word reads as 30. */
  lemma AgreeExactlyAtThirty(storage: seq<byte>)
    requires |storage| == STORAGE_SIZE
    ensures AgreeWith(storage) <==> FeeWord(storage) == 30
  {
    hide FeeWord, NativeSwap, OnChainSwap;
    if FeeWord(storage) == 30 {
      forall side: byte, input: u64, rx: u64, ry: u64
        ensures NativeSwap(SwapInstruction(side, input, rx, ry, storage)) ==
                OnChainSwap(SwapInstruction(side, input, rx, ry, storage))
      {
        DecodeSwapInstruction(side, input, rx, ry, storage);
        assert Padded(storage) == storage;
        ThirtyAgrees(SwapInstruction(side, input, rx, ry, storage));
      }
    } else {
      OtherFeeDisagrees(storage);
    }
  }
}
