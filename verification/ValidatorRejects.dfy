/** What the behavioural checks turn away. */
module ValidatorRejects {
  import opened Words
  import opened Codec
  import opened Validator

  /** A tenth, a half, one, two, five, ten, twenty, fifty, a hundred and two hundred units, in nanos. */
  predicate Tested(size: u64) {
    size in {100000000, 500000000, 1000000000, 2000000000, 5000000000,
             10000000000, 20000000000, 50000000000, 100000000000, 200000000000}
  }

  lemma TestedAt(size: u64) returns (i: nat)
    requires Tested(size)
    ensures i < |TRADE_SIZES| && TRADE_SIZES[i] == size
  {
    i := if size == 100000000 then 0 else if size == 500000000 then 1 else if size == 1000000000 then 2
         else if size == 2000000000 then 3 else if size == 5000000000 then 4 else if size == 10000000000 then 5
         else if size == 20000000000 then 6 else if size == 50000000000 then 7 else if size == 100000000000 then 8
         else 9;
  }

  lemma SizesRise(i: nat, j: nat)
    requires i < |TRADE_SIZES| && j < |TRADE_SIZES| && TRADE_SIZES[i] < TRADE_SIZES[j]
    ensures i < j
  {}

  lemma {:induction false} GrowsFrom(exec: Executor, side: byte, sizes: seq<u64>, i: nat, j: nat)
    requires MonotoneOver(exec, side, sizes) && i < j < |sizes| && exec(side, sizes[i]).n > 0
    ensures exec(side, sizes[i]).n < exec(side, sizes[j]).n
    decreases j
  {
    if i + 1 < j {
      GrowsFrom(exec, side, sizes, i, j - 1);
    }
  }

  /** Paying something for a tested size and no more for a larger one is rejected, on either side. */
  lemma FlatIsRejected(exec: Executor, side: byte, size: u64, more: u64)
    requires side <= 1 && Tested(size) && Tested(more) && size < more
    requires exec(side, size).Paid? && exec(side, more).Paid? && 0 < exec(side, size).n
    requires exec(side, more).n <= exec(side, size).n
    ensures !Accepted(exec)
  {
    var i := TestedAt(size);
    var j := TestedAt(more);
    SizesRise(i, j);
    hide Tested, TRADE_SIZES, ConcaveAt;
    if Accepted(exec) {
      GrowsFrom(exec, side, TRADE_SIZES, i, j);
    }
  }

  /** One positive answer for every size is rejected. */
  lemma ConstantIsRejected(exec: Executor, side: byte, n: u64)
    requires side <= 1 && 0 < n && forall size :: exec(side, size) == Paid(n)
    ensures !Accepted(exec)
  {
    FlatIsRejected(exec, side, 100000000, 500000000);
  }

  /** A second step of a million nanos that pays two more than the first is rejected, from any tested size. */
  lemma BulgeIsRejected(exec: Executor, side: byte, size: u64)
    requires side <= 1 && Tested(size)
    requires exec(side, size).Paid? && exec(side, size + 1000000).Paid? && exec(side, size + 2000000).Paid?
    requires exec(side, size + 2000000).n - exec(side, size + 1000000).n
          >= exec(side, size + 1000000).n - exec(side, size).n + 2
    ensures !Accepted(exec)
  {
    var i := TestedAt(size);
    hide TRADE_SIZES, MonotoneOver;
    assert !ConcaveAt(exec, side, TRADE_SIZES[i]);
  }

  /** So is paying nothing, or failing, for ten Y or for one X. */
  lemma SilenceIsRejected(exec: Executor)
    requires var buy, sell := exec(0, 10000000000), exec(1, 1000000000);
             buy.Failed? || sell.Failed? || buy.n == 0 || sell.n == 0
    ensures !Accepted(exec)
  {
    hide MonotoneOver, ConcaveAt, TRADE_SIZES;
  }

  /** And failing on any tested size, or a million or two million nanos above it. */
  lemma FailureIsRejected(exec: Executor, side: byte, size: u64)
    requires side <= 1 && Tested(size)
    requires exec(side, size).Failed? || exec(side, size + 1000000).Failed? || exec(side, size + 2000000).Failed?
    ensures !Accepted(exec)
  {
    var i := TestedAt(size);
    hide TRADE_SIZES;
    assert !ConcaveAt(exec, side, TRADE_SIZES[i]);
  }
}
