/** The behavioural checks a submission must pass: nonzero quotes, monotone outputs, concave outputs. */
module Validator {
  import opened Words
  import opened Codec
  import opened ConstantProduct

  const NANO_SCALE: nat := 1000000000
  const CONCAVITY_DELTA: nat := 1000000

  /** What the executor answers at fixed reserves and zeroed storage: an output, or a failed execution. */
  datatype Answer = Paid(n: u64) | Failed

  type Executor = (byte, u64) -> Answer

  /** The trade sizes of every check, in nanos. */
  const TRADE_SIZES: seq<u64> :=
    [100000000, 500000000, 1000000000, 2000000000, 5000000000,
     10000000000, 20000000000, 50000000000, 100000000000, 200000000000]

  // ----- What the checks promise -----

  ghost predicate MonotoneOver(exec: Executor, side: byte, sizes: seq<u64>) {
    && (forall i :: 0 <= i < |sizes| ==> exec(side, sizes[i]).Paid?)
    && forall i :: 1 <= i < |sizes| && exec(side, sizes[i - 1]).n > 0 ==>
         exec(side, sizes[i - 1]).n < exec(side, sizes[i]).n
  }

  /** Two steps of a fixed size above `input`: the second pays at most one nano more than the first. */
  ghost predicate ConcaveAt(exec: Executor, side: byte, input: u64) {
    var in1 := SaturatingAdd(input, CONCAVITY_DELTA);
    var in2 := SaturatingAdd(in1, CONCAVITY_DELTA);
    in1 > input && in2 > in1 ==>
      && exec(side, input).Paid? && exec(side, in1).Paid? && exec(side, in2).Paid?
      && exec(side, in2).n - exec(side, in1).n <= exec(side, in1).n - exec(side, input).n + 1
  }

  ghost predicate Accepted(exec: Executor) {
    && exec(0, 10 * NANO_SCALE).Paid? && exec(0, 10 * NANO_SCALE).n > 0
    && exec(1, NANO_SCALE).Paid? && exec(1, NANO_SCALE).n > 0
    && MonotoneOver(exec, 0, TRADE_SIZES) && MonotoneOver(exec, 1, TRADE_SIZES)
    && (forall i :: 0 <= i < |TRADE_SIZES| ==> ConcaveAt(exec, 0, TRADE_SIZES[i]))
    && (forall i :: 0 <= i < |TRADE_SIZES| ==> ConcaveAt(exec, 1, TRADE_SIZES[i]))
  }

  // ----- The checks as they run -----

  method CheckMonotone(exec: Executor, side: byte, sizes: seq<u64>) returns (ok: bool)
    ensures ok <==> MonotoneOver(exec, side, sizes)
  {
    var prevOutput := 0;
    var i := 0;
    while i < |sizes|
      invariant 0 <= i <= |sizes|
      invariant MonotoneOver(exec, side, sizes[..i])
      invariant prevOutput == if i == 0 then 0 else exec(side, sizes[i - 1]).n
    {
      var answer := exec(side, sizes[i]);
      if answer.Failed? {
        assert exec(side, sizes[i]).Failed?;
        return false;
      }
      var output := answer.n;
      if output <= prevOutput && prevOutput > 0 {
        assert exec(side, sizes[i]).n <= exec(side, sizes[i - 1]).n;
        return false;
      }
      prevOutput := output;
      i := i + 1;
    }
    assert sizes[..i] == sizes;
    return true;
  }

  method CheckConcave(exec: Executor, side: byte, sizes: seq<u64>) returns (ok: bool)
    ensures ok <==> forall i :: 0 <= i < |sizes| ==> ConcaveAt(exec, side, sizes[i])
  {
    var i := 0;
    while i < |sizes|
      invariant 0 <= i <= |sizes|
      invariant forall j :: 0 <= j < i ==> ConcaveAt(exec, side, sizes[j])
    {
      var in0 := sizes[i];
      var in1 := SaturatingAdd(in0, CONCAVITY_DELTA);
      var in2 := SaturatingAdd(in1, CONCAVITY_DELTA);
      if !(in1 <= in0 || in2 <= in1) {
        var a0, a1, a2 := exec(side, in0), exec(side, in1), exec(side, in2);
        if a0.Failed? || a1.Failed? || a2.Failed? {
          assert !ConcaveAt(exec, side, sizes[i]);
          return false;
        }
        var step1: int, step2: int := a1.n - a0.n, a2.n - a1.n;
        if step2 > step1 + 1 {
          assert !ConcaveAt(exec, side, sizes[i]);
          return false;
        }
      }
      i := i + 1;
    }
    return true;
  }

  method Validate(exec: Executor) returns (ok: bool)
    ensures ok <==> Accepted(exec)
  {
    hide MonotoneOver, ConcaveAt, TRADE_SIZES;
    var buy := exec(0, 10 * NANO_SCALE);
    if buy.Failed? || buy.n == 0 {
      return false;
    }
    var sell := exec(1, NANO_SCALE);
    if sell.Failed? || sell.n == 0 {
      return false;
    }
    ok := CheckMonotone(exec, 0, TRADE_SIZES);
    if ok {
      ok := CheckMonotone(exec, 1, TRADE_SIZES);
    }
    if ok {
      ok := CheckConcave(exec, 0, TRADE_SIZES);
    }
    if ok {
      ok := CheckConcave(exec, 1, TRADE_SIZES);
    }
  }

  // ----- The constant-product family passes -----

  function Pays(rin: u64, rout: u64, input: u64, keep: nat): Answer
    requires rin > 0 && keep <= 10000
  {
    OutputBelowReserve(rin, rout, Net(input, keep, 10000));
    Paid(Quote(rin, rout, input, keep, 10000))
  }

  function FamilyAnswer(rx: u64, ry: u64, keep: nat, side: byte, input: u64): Answer
    requires rx > 0 && ry > 0 && keep <= 10000
  {
    if side == 0 then Pays(ry, rx, input, keep)
    else if side == 1 then Pays(rx, ry, input, keep)
    else Paid(0)
  }

  /** A constant-product program that keeps `keep` basis points of the input, at given reserves. */
  function Family(rx: u64, ry: u64, keep: nat): Executor
    requires rx > 0 && ry > 0 && keep <= 10000
  {
    (side: byte, input: u64) => FamilyAnswer(rx, ry, keep, side, input)
  }

  /** The concavity step is a whole number of fee units, so it always adds the same net input. */
  lemma StepAddsWholeUnits(input: nat, keep: nat)
    requires keep <= 10000
    ensures Net(input + CONCAVITY_DELTA, keep, 10000) == Net(input, keep, 10000) + 100 * keep
  {
    var n := Net(input, keep, 10000);
    assert (input + CONCAVITY_DELTA) * keep == input * keep + (100 * keep) * 10000;
    DivSandwich(input * keep, 10000);
    DivSandwich((input + CONCAVITY_DELTA) * keep, 10000);
  }

  lemma PaysAlmostConcave(rin: u64, rout: u64, in0: nat, in2: nat, keep: nat)
    requires rin > 0 && keep <= 10000 && in2 <= in0 + 2 * CONCAVITY_DELTA
    ensures var o0, o1, o2 := Quote(rin, rout, in0, keep, 10000), Quote(rin, rout, in0 + CONCAVITY_DELTA, keep, 10000),
                              Quote(rin, rout, in2, keep, 10000);
            o2 - o1 <= o1 - o0 + 1
  {
    var n := Net(in0, keep, 10000);
    StepAddsWholeUnits(in0, keep);
    StepAddsWholeUnits(in0 + CONCAVITY_DELTA, keep);
    NetGrows(in2, in0 + 2 * CONCAVITY_DELTA, keep, keep, 10000);
    hide Net, Output;
    StepsAlmostFall(rin, rout, n, 100 * keep);
    OutputGrowsWithNet(rin, rout, Net(in2, keep, 10000), n + 2 * (100 * keep));
  }

  /** The concavity check never rejects a constant-product curve: any reserves, any input, any fee. */
  lemma FamilyIsConcave(rx: u64, ry: u64, keep: nat, side: byte, input: u64)
    requires rx > 0 && ry > 0 && keep <= 10000
    ensures ConcaveAt(Family(rx, ry, keep), side, input)
  {
    hide Quote;
    var in1 := SaturatingAdd(input, CONCAVITY_DELTA);
    var in2 := SaturatingAdd(in1, CONCAVITY_DELTA);
    if in1 > input && in2 > in1 {
      assert in1 == input + CONCAVITY_DELTA;
      PaysAlmostConcave(ry, rx, input, in2, keep);
      PaysAlmostConcave(rx, ry, input, in2, keep);
      var exec := Family(rx, ry, keep);
      assert exec(side, input) == FamilyAnswer(rx, ry, keep, side, input);
      assert exec(side, in1) == FamilyAnswer(rx, ry, keep, side, in1);
      assert exec(side, in2) == FamilyAnswer(rx, ry, keep, side, in2);
    }
  }

  // ----- The family passes the whole validation -----

  /** An extra net input worth more than the pool's own quotient buys at least one more nano. */
  lemma StrictlyMore(rin: nat, rout: nat, n: nat, more: nat)
    requires rin > 0 && n < more
    requires var left := rout - Output(rin, rout, n); left >= 1 && (more - n) * (left - 1) >= rin + n
    ensures Output(rin, rout, n) < Output(rin, rout, more)
  {
    var o := Output(rin, rout, n);
    OutputBelowReserve(rin, rout, n);
    var left := rout - o;
    assert (rin + more) * (left - 1) == (rin + n) * left - (rin + n) + (more - n) * (left - 1);
    OutputIsLargest(rin, rout, more, o + 1);
  }

  /** The net input of a trade size: every size is a whole number of fee units. */
  lemma SizeNet(size: nat, keep: nat)
    requires size % 10000 == 0
    ensures Net(size, keep, 10000) == size / 10000 * keep
  {
    var units := size / 10000;
    assert size * keep == (units * keep) * 10000;
    DivSandwich(size * keep, 10000);
  }

  const RX: u64 := 100000000000
  const RY: u64 := 10000000000000

  /** At the reserves of the validator, doubling a net input of at least ten thousand nanos pays strictly more. */
  lemma DoublingPays(rin: nat, rout: nat, n: nat, more: nat)
    requires (rin == RX && rout == RY) || (rin == RY && rout == RX)
    requires 10000 <= n <= 100000000000 && 2 * n <= more
    ensures Output(rin, rout, n) < Output(rin, rout, more)
  {
    OutputBelowReserve(rin, rout, n);
    var left := rout - Output(rin, rout, n);
    if left < 90000000000 {
      Mul(left, 90000000000, rin + n);
    }
    Mul(10000, more - n, left - 1);
    StrictlyMore(rin, rout, n, more);
  }

  lemma PaysMore(rin: u64, rout: u64, size: u64, bigger: u64, keep: nat)
    requires (rin == RX && rout == RY) || (rin == RY && rout == RX)
    requires 1 <= keep <= 10000 && size % 10000 == 0 && bigger % 10000 == 0
    requires 100000000 <= size <= 100000000000 && 2 * size <= bigger
    ensures Quote(rin, rout, size, keep, 10000) < Quote(rin, rout, bigger, keep, 10000)
  {
    SizeNet(size, keep);
    SizeNet(bigger, keep);
    hide Net, Output;
    ScaledNets(size / 10000, bigger / 10000, keep);
    DoublingPays(rin, rout, size / 10000 * keep, bigger / 10000 * keep);
  }

  lemma ScaledNets(units: nat, more: nat, keep: nat)
    requires 1 <= keep <= 10000 && 10000 <= units <= 10000000 && 2 * units <= more
    ensures 10000 <= units * keep <= 100000000000 && 2 * (units * keep) <= more * keep
  {
    Mul(1, keep, units);
    Mul(keep, 10000, units);
    Mul(2 * units, more, keep);
  }

  lemma PaysSomething(rin: u64, rout: u64, size: u64, keep: nat)
    requires (rin == RX && rout == RY) || (rin == RY && rout == RX)
    requires 1 <= keep <= 10000 && (size == NANO_SCALE || size == 10 * NANO_SCALE)
    ensures 0 < Quote(rin, rout, size, keep, 10000)
  {
    PaysMore(rin, rout, 100000000, size, keep);
  }

  lemma FamilyIsMonotone(keep: nat, side: byte)
    requires 1 <= keep <= 10000 && side <= 1
    ensures MonotoneOver(Family(RX, RY, keep), side, TRADE_SIZES)
  {
    hide Quote;
    var exec := Family(RX, RY, keep);
    forall i | 1 <= i < |TRADE_SIZES| ensures exec(side, TRADE_SIZES[i - 1]).n < exec(side, TRADE_SIZES[i]).n {
      PaysMore(RY, RX, TRADE_SIZES[i - 1], TRADE_SIZES[i], keep);
      PaysMore(RX, RY, TRADE_SIZES[i - 1], TRADE_SIZES[i], keep);
    }
  }

  /** At the validator's reserves every member with a fee below the whole input passes every check. */
  lemma FamilyIsAccepted(keep: nat)
    requires 1 <= keep <= 10000
    ensures Accepted(Family(RX, RY, keep))
  {
    hide Quote, MonotoneOver, ConcaveAt;
    PaysSomething(RY, RX, 10 * NANO_SCALE, keep);
    PaysSomething(RX, RY, NANO_SCALE, keep);
    FamilyIsMonotone(keep, 0);
    FamilyIsMonotone(keep, 1);
    forall i | 0 <= i < |TRADE_SIZES|
      ensures ConcaveAt(Family(RX, RY, keep), 0, TRADE_SIZES[i]) && ConcaveAt(Family(RX, RY, keep), 1, TRADE_SIZES[i])
    {
      FamilyIsConcave(RX, RY, keep, 0, TRADE_SIZES[i]);
      FamilyIsConcave(RX, RY, keep, 1, TRADE_SIZES[i]);
    }
  }
}
