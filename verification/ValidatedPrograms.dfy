/** The repository's own three programs, run by the validator. */
module ValidatedPrograms {
  import opened Codec
  import opened ConstantProduct
  import opened Normalizer
  import opened Validator

  /** The validator's executor of a program: the instruction is encoded at its reserves with zeroed storage. */
  function Executing(swap: seq<byte> -> Checked): Executor {
    (side: byte, input: u64) =>
      match swap(SwapInstruction(side, input, RX, RY, Zeros(STORAGE_SIZE)))
      case Value(n) => Paid(n % U64)
      case Overflow => Failed
  }

  ghost predicate Alike(e: Executor, f: Executor) {
    forall side, input :: e(side, input) == f(side, input)
  }

  /** A program that is exact at some fee, in parts of a thousand or ten thousand, is a member of the family. */
  lemma ExactIsFamily(swap: seq<byte> -> Checked, keep: nat, num: nat, den: nat)
    requires keep <= 10000 && num <= den && ((den == 10000 && num == keep) || (den == 1000 && 10 * num == keep))
    requires forall data: seq<byte> :: |data| == SWAP_INSTRUCTION_SIZE && data[25..] == Zeros(STORAGE_SIZE) ==>
      swap(data) == Value(ExactOutput(DecodeInstruction(data), num, den))
    ensures Alike(Executing(swap), Family(RX, RY, keep))
  {
    forall side: byte, input: u64 ensures Executing(swap)(side, input) == Family(RX, RY, keep)(side, input) {
      hide Executing, Family, ExactOutput;
      var data := ZeroedInstruction(side, input);
      assert swap(data) == Value(ExactOutput(DecodeInstruction(data), num, den));
      hide DecodeInstruction, SwapInstruction;
      AnswersAlike(swap, keep, num, den, side, input);
    }
  }

  lemma ZeroedInstruction(side: byte, input: u64) returns (data: seq<byte>)
    ensures data == SwapInstruction(side, input, RX, RY, Zeros(STORAGE_SIZE))
    ensures |data| == SWAP_INSTRUCTION_SIZE && data[25..] == Zeros(STORAGE_SIZE)
    ensures DecodeInstruction(data) == Swap(side, input, RX, RY)
  {
    data := SwapInstruction(side, input, RX, RY, Zeros(STORAGE_SIZE));
    DecodeSwapInstruction(side, input, RX, RY, Zeros(STORAGE_SIZE));
    assert Padded(Zeros(STORAGE_SIZE)) == Zeros(STORAGE_SIZE);
    hide SwapInstruction, DecodeInstruction;
  }

  lemma AnswersAlike(swap: seq<byte> -> Checked, keep: nat, num: nat, den: nat, side: byte, input: u64)
    requires keep <= 10000 && ((den == 10000 && num == keep) || (den == 1000 && 10 * num == keep))
    requires swap(SwapInstruction(side, input, RX, RY, Zeros(STORAGE_SIZE))) ==
             Value(ExactOutput(Swap(side, input, RX, RY), num, den))
    ensures Executing(swap)(side, input) == Family(RX, RY, keep)(side, input)
  {
    hide SwapInstruction, Zeros, Quote;
    SameQuote(RY, RX, input, keep, num, den);
    SameQuote(RX, RY, input, keep, num, den);
  }

  lemma SameQuote(rin: u64, rout: u64, input: nat, keep: nat, num: nat, den: nat)
    requires rin > 0 && ((den == 10000 && num == keep) || (den == 1000 && 10 * num == keep))
    ensures Quote(rin, rout, input, num, den) == Quote(rin, rout, input, keep, 10000) <= rout
  {
    QuoteBelowReserve(rin, rout, input, keep, 10000);
    if den == 1000 {
      SameNet(input, num);
    }
    hide Net, Output;
  }

  lemma AlikeIsAccepted(e: Executor, f: Executor)
    requires Alike(e, f) && Accepted(f)
    ensures Accepted(e)
  {
    hide TRADE_SIZES;
    forall side | side <= 1 ensures MonotoneOver(e, side, TRADE_SIZES) {
      assert MonotoneOver(f, side, TRADE_SIZES);
    }
    forall i | 0 <= i < |TRADE_SIZES| ensures ConcaveAt(e, 0, TRADE_SIZES[i]) && ConcaveAt(e, 1, TRADE_SIZES[i]) {
      assert ConcaveAt(f, 0, TRADE_SIZES[i]) && ConcaveAt(f, 1, TRADE_SIZES[i]);
    }
  }

  lemma StarterIsFamily()
    ensures Alike(Executing(StarterSwap), Family(RX, RY, 9500))
  {
    forall data: seq<byte> | |data| == SWAP_INSTRUCTION_SIZE && data[25..] == Zeros(STORAGE_SIZE)
      ensures StarterSwap(data) == Value(ExactOutput(DecodeInstruction(data), 950, 1000))
    {
      StarterIsExact(data);
    }
    ExactIsFamily(StarterSwap, 9500, 950, 1000);
  }

  lemma OnChainIsFamily()
    ensures Alike(Executing(OnChainSwap), Family(RX, RY, 9970))
  {
    forall data: seq<byte> | |data| == SWAP_INSTRUCTION_SIZE && data[25..] == Zeros(STORAGE_SIZE)
      ensures OnChainSwap(data) == Value(ExactOutput(DecodeInstruction(data), 997, 1000))
    {
      CurveIsExact(data, 997, 1000);
      hide Curve, ExactOutput, DecodeInstruction;
    }
    ExactIsFamily(OnChainSwap, 9970, 997, 1000);
  }

  lemma NativeIsFamily()
    ensures Alike(Executing(NativeSwap), Family(RX, RY, 9970))
  {
    forall data: seq<byte> | |data| == SWAP_INSTRUCTION_SIZE && data[25..] == Zeros(STORAGE_SIZE)
      ensures NativeSwap(data) == Value(ExactOutput(DecodeInstruction(data), 9970, 10000))
    {
      assert FeeWord(data[25..]) == 30;
      NativeIsExact(data);
      hide NativeSwap, ExactOutput, DecodeInstruction;
    }
    ExactIsFamily(NativeSwap, 9970, 9970, 10000);
  }

  /** The starter and both normalizers pass every behavioural check of the validator. */
  lemma ProgramsAreAccepted()
    ensures Accepted(Executing(StarterSwap)) && Accepted(Executing(OnChainSwap)) && Accepted(Executing(NativeSwap))
  {
    hide Accepted, Alike, Family, Executing;
    FamilyIsAccepted(9500);
    FamilyIsAccepted(9970);
    StarterIsFamily();
    OnChainIsFamily();
    NativeIsFamily();
    AlikeIsAccepted(Executing(StarterSwap), Family(RX, RY, 9500));
    AlikeIsAccepted(Executing(OnChainSwap), Family(RX, RY, 9970));
    AlikeIsAccepted(Executing(NativeSwap), Family(RX, RY, 9970));
  }
}
