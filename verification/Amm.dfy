/** The pool object: reserves, storage and step change in place, one method a trade. */
module Amm {
  import opened Codec
  import opened Nano
  import opened PoolModel

  class BpfAmm {
    const program: Program
    var reserveX: real
    var reserveY: real
    var storage: seq<byte>
    var currentStep: u64

    function State(): PoolState
      reads this
    {
      PoolState(reserveX, reserveY, storage, currentStep)
    }

    constructor (program: Program, x: real, y: real)
      ensures this.program == program && State() == PoolState(x, y, Zeros(STORAGE_SIZE), 0)
    {
      this.program := program;
      reserveX, reserveY := x, y;
      storage, currentStep := Zeros(STORAGE_SIZE), 0;
    }

    method SetCurrentStep(step: u64)
      modifies this`currentStep
      ensures State() == old(State()).(step := step)
    {
      currentStep := step;
    }

    method SetInitialStorage(bytes: seq<byte>)
      modifies this`storage
      ensures |storage| == |old(storage)|
      ensures forall i :: 0 <= i < |storage| ==> storage[i] == if i < |bytes| then bytes[i] else old(storage)[i]
      ensures State() == old(State()).(storage := storage)
    {
      var n := if |bytes| < |storage| then |bytes| else |storage|;
      storage := bytes[..n] + storage[n..];
    }

    method Reset(x: real, y: real)
      modifies this
      ensures State() == PoolState(x, y, Zeros(|old(storage)|), 0)
    {
      reserveX, reserveY := x, y;
      storage, currentStep := Zeros(|storage|), 0;
    }

    function Call(side: byte, amount: u64, rx: u64, ry: u64): u64
      reads this
    {
      program.swap(SwapInstruction(side, amount, rx, ry, storage))
    }

    method CallAfterSwap(side: byte, input: u64, output: u64, rx: u64, ry: u64)
      modifies this`storage
      ensures |storage| == |old(storage)|
      ensures storage == match program.afterSwap
                         case None => old(storage)
                         case Some(after) => after(AfterSwapInstruction(side, input, output, rx, ry, currentStep,
                               old(storage)),
                                                   old(storage))
    {
      match program.afterSwap {
        case None =>
        case Some(after) =>
          var data := EncodeAfterSwap(side, input, output, rx, ry, currentStep, storage);
          storage := after(data[..], storage);
      }
    }

    /** Quoting reads the pool and changes nothing. */
    method QuoteBuyX(inputY: real) returns (out: real)
      ensures out == PoolModel.QuoteBuyX(program, State(), inputY)
    {
      if inputY <= 0.0 {
        return 0.0;
      }
      if reserveX <= MIN_RESERVE || reserveY <= MIN_RESERVE {
        return 0.0;
      }
      var quoted := FromNano(Call(0, ToNano(inputY), ToNano(reserveX), ToNano(reserveY)));
      if quoted <= 0.0 || quoted > reserveX {
        return 0.0;
      }
      return quoted;
    }

    method QuoteSellX(inputX: real) returns (out: real)
      ensures out == PoolModel.QuoteSellX(program, State(), inputX)
    {
      if inputX <= 0.0 {
        return 0.0;
      }
      if reserveX <= MIN_RESERVE || reserveY <= MIN_RESERVE {
        return 0.0;
      }
      var quoted := FromNano(Call(1, ToNano(inputX), ToNano(reserveX), ToNano(reserveY)));
      if quoted <= 0.0 || quoted > reserveY {
        return 0.0;
      }
      return quoted;
    }

    method ExecuteBuyX(inputY: real) returns (out: real)
      modifies this
      ensures (State(), out) == PoolModel.ExecuteBuyX(program, old(State()), inputY)
    {
      out := QuoteBuyX(inputY);
      if inputY <= 0.0 || out <= 0.0 {
        return 0.0;
      }
      if out >= reserveX {
        return 0.0;
      }
      var newX, newY := reserveX - out, reserveY + inputY;
      if newX <= MIN_RESERVE || newY <= MIN_RESERVE {
        return 0.0;
      }
      reserveX, reserveY := newX, newY;
      CallAfterSwap(0, ToNano(inputY), ToNano(out), ToNano(reserveX), ToNano(reserveY));
    }

    method ExecuteSellX(inputX: real) returns (out: real)
      modifies this
      ensures (State(), out) == PoolModel.ExecuteSellX(program, old(State()), inputX)
    {
      out := QuoteSellX(inputX);
      if inputX <= 0.0 || out <= 0.0 {
        return 0.0;
      }
      if out >= reserveY {
        return 0.0;
      }
      var newX, newY := reserveX + inputX, reserveY - out;
      if newX <= MIN_RESERVE || newY <= MIN_RESERVE {
        return 0.0;
      }
      reserveX, reserveY := newX, newY;
      CallAfterSwap(1, ToNano(inputX), ToNano(out), ToNano(reserveX), ToNano(reserveY));
    }
  }
}
