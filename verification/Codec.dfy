/** The byte layout of swap and after-swap instructions. */
module Codec {
  type byte = n: nat | n < 256
  type u64 = n: nat | n < 0x1_0000_0000_0000_0000

  const INSTRUCTION_SIZE: nat := 25
  const STORAGE_SIZE: nat := 1024
  const SWAP_INSTRUCTION_SIZE: nat := 1049
  const AFTER_SWAP_SIZE: nat := 1066

  // ----- Little-endian words -----

  function Power256(k: nat): (p: nat)
    ensures p > 0
  {
    if k == 0 then 1 else 256 * Power256(k - 1)
  }

  function ToLe(n: nat, k: nat): (s: seq<byte>)
    ensures |s| == k
  {
    if k == 0 then [] else [n % 256] + ToLe(n / 256, k - 1)
  }

  function FromLe(s: seq<byte>): nat {
    if s == [] then 0 else s[0] + 256 * FromLe(s[1..])
  }

  lemma {:induction false} FromLeOfToLe(n: nat, k: nat)
    requires n < Power256(k)
    ensures FromLe(ToLe(n, k)) == n
  {
    if k > 0 {
      FromLeOfToLe(n / 256, k - 1);
      assert ToLe(n, k)[1..] == ToLe(n / 256, k - 1);
    }
  }

  lemma {:induction false} FromLeBound(s: seq<byte>)
    ensures FromLe(s) < Power256(|s|)
  {
    if s != [] {
      FromLeBound(s[1..]);
    }
  }

  lemma {:induction false} ToLeOfFromLe(s: seq<byte>)
    ensures ToLe(FromLe(s), |s|) == s
  {
    if s != [] {
      ToLeOfFromLe(s[1..]);
      var rest := FromLe(s[1..]);
      assert FromLe(s) % 256 == s[0] && FromLe(s) / 256 == rest;
    }
  }

  function Word(n: u64): (s: seq<byte>)
    ensures |s| == 8
  {
    ToLe(n, 8)
  }

  function ReadWord(data: seq<byte>, at: nat): (n: u64)
    requires at + 8 <= |data|
  {
    FromLeBound(data[at..at + 8]);
    assert Power256(8) == 0x1_0000_0000_0000_0000;
    FromLe(data[at..at + 8])
  }

  lemma ReadWordOfWord(data: seq<byte>, at: nat, n: u64)
    requires at + 8 <= |data| && data[at..at + 8] == Word(n)
    ensures ReadWord(data, at) == n
  {
    assert Power256(8) == 0x1_0000_0000_0000_0000;
    FromLeOfToLe(n, 8);
  }

  // ----- Layouts -----

  function Zeros(n: nat): (s: seq<byte>)
    ensures |s| == n && forall i :: 0 <= i < n ==> s[i] == 0
  {
    seq(n, _ => 0)
  }

  /** A storage cut or padded with zeros to its fixed size. */
  function Padded(storage: seq<byte>): (s: seq<byte>)
    ensures |s| == STORAGE_SIZE
  {
    if |storage| >= STORAGE_SIZE then storage[..STORAGE_SIZE]
    else storage + Zeros(STORAGE_SIZE - |storage|)
  }

  function SwapInstruction(side: byte, input: u64, rx: u64, ry: u64, storage: seq<byte>): (data: seq<byte>)
    ensures |data| == SWAP_INSTRUCTION_SIZE
  {
    [side] + Word(input) + Word(rx) + Word(ry) + Padded(storage)
  }

  function AfterSwapInstruction(side: byte, input: u64, output: u64, rx: u64, ry: u64, step: u64, storage: seq<byte>)
    : (data: seq<byte>)
    ensures |data| == AFTER_SWAP_SIZE
  {
    [2, side] + Word(input) + Word(output) + Word(rx) + Word(ry) + Word(step) + Padded(storage)
  }

  // ----- Encoding in place -----

  /** A buffer written up to the end of `done`, zero from there on. */
  ghost predicate Written(data: array<byte>, done: seq<byte>)
    reads data
  {
    |done| <= data.Length && data[..] == done + Zeros(data.Length - |done|)
  }

  /** Copies `src` over the bytes of the buffer that start at `at`; `done` is what was written before. */
  method CopyFromSlice(data: array<byte>, at: nat, src: seq<byte>, ghost done: seq<byte>)
    requires |done| == at && at + |src| <= data.Length && Written(data, done)
    modifies data
    ensures Written(data, done + src)
  {
    var i := 0;
    while i < |src|
      invariant 0 <= i <= |src|
      invariant Written(data, done + src[..i])
    {
      data[at + i] := src[i];
      i := i + 1;
      assert data[..] == done + src[..i] + Zeros(data.Length - at - i);
    }
    assert src[..|src|] == src;
  }

  lemma WrittenWithPadding(data: array<byte>, done: seq<byte>, storage: seq<byte>, copyLen: nat)
    requires copyLen == (if |storage| < STORAGE_SIZE then |storage| else STORAGE_SIZE)
    requires Written(data, done + storage[..copyLen]) && data.Length == |done| + STORAGE_SIZE
    ensures data[..] == done + Padded(storage)
  {
    assert Padded(storage) == storage[..copyLen] + Zeros(STORAGE_SIZE - copyLen);
  }

  method EncodeSwapInstruction(side: byte, input: u64, rx: u64, ry: u64, storage: seq<byte>) returns (data: array<byte>)
    ensures fresh(data) && data[..] == SwapInstruction(side, input, rx, ry, storage)
  {
    data := new byte[SWAP_INSTRUCTION_SIZE](_ => 0);
    data[0] := side;
    ghost var done: seq<byte> := [side];
    assert Written(data, done);
    hide Word, Written, Padded;
    CopyFromSlice(data, 1, Word(input), done);
    done := done + Word(input);
    CopyFromSlice(data, 9, Word(rx), done);
    done := done + Word(rx);
    CopyFromSlice(data, 17, Word(ry), done);
    done := done + Word(ry);
    var copyLen := if |storage| < STORAGE_SIZE then |storage| else STORAGE_SIZE;
    CopyFromSlice(data, 25, storage[..copyLen], done);
    WrittenWithPadding(data, done, storage, copyLen);
  }

  method EncodeAfterSwap(side: byte, input: u64, output: u64, rx: u64, ry: u64, step: u64, storage: seq<byte>)
    returns (data: array<byte>)
    ensures fresh(data) && data[..] == AfterSwapInstruction(side, input, output, rx, ry, step, storage)
  {
    data := new byte[AFTER_SWAP_SIZE](_ => 0);
    data[0] := 2;
    data[1] := side;
    ghost var done: seq<byte> := [2, side];
    assert Written(data, done);
    hide Word, Written, Padded;
    CopyFromSlice(data, 2, Word(input), done);
    done := done + Word(input);
    CopyFromSlice(data, 10, Word(output), done);
    done := done + Word(output);
    CopyFromSlice(data, 18, Word(rx), done);
    done := done + Word(rx);
    CopyFromSlice(data, 26, Word(ry), done);
    done := done + Word(ry);
    CopyFromSlice(data, 34, Word(step), done);
    done := done + Word(step);
    var copyLen := if |storage| < STORAGE_SIZE then |storage| else STORAGE_SIZE;
    CopyFromSlice(data, 42, storage[..copyLen], done);
    WrittenWithPadding(data, done, storage, copyLen);
  }

  // ----- Decoding -----

  datatype Swap = Swap(side: byte, input: u64, rx: u64, ry: u64)
  datatype AfterSwap = AfterSwap(side: byte, input: u64, output: u64, rx: u64, ry: u64, step: u64, storage: seq<byte>)

  function DecodeInstruction(data: seq<byte>): Swap
    requires |data| >= INSTRUCTION_SIZE
  {
    Swap(data[0], ReadWord(data, 1), ReadWord(data, 9), ReadWord(data, 17))
  }

  function DecodeAfterSwap(data: seq<byte>): AfterSwap
    requires |data| >= 42
  {
    AfterSwap(data[1], ReadWord(data, 2), ReadWord(data, 10), ReadWord(data, 18), ReadWord(data, 26),
              ReadWord(data, 34), data[42..])
  }

  /** Decoding a swap instruction gives back its fields, and its storage bytes follow them. */
  lemma DecodeSwapInstruction(side: byte, input: u64, rx: u64, ry: u64, storage: seq<byte>)
    ensures var data := SwapInstruction(side, input, rx, ry, storage);
            DecodeInstruction(data) == Swap(side, input, rx, ry) && data[25..] == Padded(storage)
  {
    var data := SwapInstruction(side, input, rx, ry, storage);
    hide Padded, Word;
    assert data[1..9] == Word(input) && data[9..17] == Word(rx) && data[17..25] == Word(ry);
    ReadWordOfWord(data, 1, input);
    ReadWordOfWord(data, 9, rx);
    ReadWordOfWord(data, 17, ry);
  }

  lemma DecodeAfterSwapInstruction(side: byte, input: u64, output: u64, rx: u64, ry: u64, step: u64, storage: seq<byte>)
    ensures DecodeAfterSwap(AfterSwapInstruction(side, input, output, rx, ry, step, storage))
         == AfterSwap(side, input, output, rx, ry, step, Padded(storage))
  {
    var data := AfterSwapInstruction(side, input, output, rx, ry, step, storage);
    hide Padded, Word;
    assert data[2..10] == Word(input) && data[10..18] == Word(output) && data[18..26] == Word(rx);
    assert data[26..34] == Word(ry) && data[34..42] == Word(step) && data[42..] == Padded(storage);
    ReadWordOfWord(data, 2, input);
    ReadWordOfWord(data, 10, output);
    ReadWordOfWord(data, 18, rx);
    ReadWordOfWord(data, 26, ry);
    ReadWordOfWord(data, 34, step);
  }

  /** Conversely the encoder is the only way to write those fields: it inverts the decoder. */
  lemma EncodeDecodedInstruction(data: seq<byte>)
    requires |data| == SWAP_INSTRUCTION_SIZE
    ensures var s := DecodeInstruction(data); SwapInstruction(s.side, s.input, s.rx, s.ry, data[25..]) == data
  {
    ToLeOfFromLe(data[1..9]);
    ToLeOfFromLe(data[9..17]);
    ToLeOfFromLe(data[17..25]);
    hide ToLe, FromLe;
    assert data == [data[0]] + data[1..9] + data[9..17] + data[17..25] + data[25..];
  }

  lemma EncodeDecodedAfterSwap(data: seq<byte>)
    requires |data| == AFTER_SWAP_SIZE && data[0] == 2
    ensures var s := DecodeAfterSwap(data);
            AfterSwapInstruction(s.side, s.input, s.output, s.rx, s.ry, s.step, s.storage) == data
  {
    ToLeOfFromLe(data[2..10]);
    ToLeOfFromLe(data[10..18]);
    ToLeOfFromLe(data[18..26]);
    ToLeOfFromLe(data[26..34]);
    ToLeOfFromLe(data[34..42]);
    hide ToLe, FromLe;
    assert Padded(data[42..]) == data[42..];
    assert data == [2, data[1]] + data[2..10] + data[10..18] + data[18..26] + data[26..34] + data[34..42] + data[42..];
  }
}
