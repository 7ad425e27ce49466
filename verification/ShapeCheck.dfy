/** The runtime check that a submission's sampled quotes are monotone and concave. */
module ShapeCheck {
  import opened Words
  import opened Codec
  import opened Nano

  const UNCERTAINTY: nat := 4
  const MERGE_EPS: nat := 4
  const MIN_DX: nat := 1000000

  datatype Sample = Sample(input: u64, output: u64)

  /** Sizes are indices into the merged samples: the pair, or the two segments, that break the shape. */
  datatype Verdict = Fine | NotMonotone(at: nat) | NotConcave(prev: nat, at: nat)

  // ----- Filtering -----

  predicate Keeps(point: (real, real), minInput: real) {
    point.0 > minInput && point.1 >= 0.0 && ToNano(point.0) > ToNano(minInput)
  }

  function ToSample(point: (real, real)): Sample { Sample(ToNano(point.0), ToNano(point.1)) }

  method Filter(points: seq<(real, real)>, minInput: real) returns (samples: seq<Sample>)
    ensures Elements(samples) == KeptSet(points, minInput)
  {
    samples := [];
    var i := 0;
    while i < |points|
      invariant 0 <= i <= |points|
      invariant Elements(samples) == KeptSet(points[..i], minInput)
    {
      assert points[..i + 1] == points[..i] + [points[i]];
      if Keeps(points[i], minInput) {
        ElementsOfOneMore(samples, ToSample(points[i]));
        samples := samples + [ToSample(points[i])];
      }
      i := i + 1;
    }
    assert points[..i] == points;
  }

  ghost function Elements(samples: seq<Sample>): set<Sample> {
    set s | s in samples
  }

  lemma ElementsOfOneMore(samples: seq<Sample>, s: Sample)
    ensures Elements(samples + [s]) == Elements(samples) + {s}
  {}

  /** The samples a check looks at: it depends on which points were sampled, not on their order or number. */
  ghost function KeptSet(points: seq<(real, real)>, minInput: real): set<Sample> {
    set p | p in points && Keeps(p, minInput) :: ToSample(p)
  }

  // ----- Sorting and merging -----

  ghost predicate SortedByInput(samples: seq<Sample>) {
    forall i, j :: 0 <= i < j < |samples| ==> samples[i].input <= samples[j].input
  }

  /** Stable sort by input: equal inputs keep their order. */
  function SortByInput(samples: seq<Sample>): seq<Sample> {
    if samples == [] then []
    else Insert(SortByInput(samples[..|samples| - 1]), samples[|samples| - 1])
  }

  function Insert(sorted: seq<Sample>, s: Sample): seq<Sample> {
    if sorted == [] || sorted[|sorted| - 1].input <= s.input then sorted + [s]
    else Insert(sorted[..|sorted| - 1], s) + [sorted[|sorted| - 1]]
  }

  lemma {:induction false} InsertKeepsSorted(sorted: seq<Sample>, s: Sample)
    requires SortedByInput(sorted)
    ensures SortedByInput(Insert(sorted, s)) && Elements(Insert(sorted, s)) == Elements(sorted) + {s}
  {
    if sorted != [] && sorted[|sorted| - 1].input > s.input {
      var init, last := sorted[..|sorted| - 1], sorted[|sorted| - 1];
      assert sorted == init + [last];
      InsertKeepsSorted(init, s);
      InsertBeforeLast(init, last, s, Insert(init, s));
    } else {
      ElementsOfOneMore(sorted, s);
    }
  }

  lemma InsertBeforeLast(init: seq<Sample>, last: Sample, s: Sample, r: seq<Sample>)
    requires SortedByInput(init + [last]) && s.input <= last.input
    requires SortedByInput(r) && Elements(r) == Elements(init) + {s}
    ensures SortedByInput(r + [last]) && Elements(r + [last]) == Elements(init + [last]) + {s}
  {
    ElementsOfOneMore(r, last);
    ElementsOfOneMore(init, last);
    forall p | p in Elements(init) ensures p.input <= last.input {
      var i :| 0 <= i < |init| && init[i] == p;
      assert (init + [last])[i] == p && (init + [last])[|init|] == last;
    }
    hide SortedByInput;
    SortedWithLast(r, last);
  }

  lemma SortedWithLast(r: seq<Sample>, last: Sample)
    requires SortedByInput(r) && forall p :: p in Elements(r) ==> p.input <= last.input
    ensures SortedByInput(r + [last])
  {
    forall i | 0 <= i < |r| ensures r[i].input <= last.input {
      assert r[i] in Elements(r);
    }
  }

  lemma {:induction false} SortSorts(samples: seq<Sample>)
    ensures SortedByInput(SortByInput(samples)) && Elements(SortByInput(samples)) == Elements(samples)
  {
    if samples != [] {
      var init, last := samples[..|samples| - 1], samples[|samples| - 1];
      assert samples == init + [last];
      SortSorts(init);
      InsertKeepsSorted(SortByInput(init), last);
      ElementsOfOneMore(init, last);
    }
  }

  /** The samples with a given input, in order. */
  ghost function WithInput(samples: seq<Sample>, input: u64): seq<Sample> {
    if samples == [] then []
    else
      var last := samples[|samples| - 1];
      WithInput(samples[..|samples| - 1], input) + if last.input == input then [last] else []
  }

  lemma WithInputOfOneMore(samples: seq<Sample>, s: Sample, input: u64)
    ensures WithInput(samples + [s], input) == WithInput(samples, input) + if s.input == input then [s] else []
  {
    assert (samples + [s])[..|samples|] == samples;
  }

  lemma {:induction false} InsertIsStable(sorted: seq<Sample>, s: Sample, input: u64)
    ensures WithInput(Insert(sorted, s), input) == WithInput(sorted, input) + if s.input == input then [s] else []
    ensures multiset(Insert(sorted, s)) == multiset(sorted) + multiset{s}
  {
    if sorted != [] && sorted[|sorted| - 1].input > s.input {
      var init, last := sorted[..|sorted| - 1], sorted[|sorted| - 1];
      assert sorted == init + [last];
      InsertIsStable(init, s, input);
      WithInputOfOneMore(init, last, input);
      WithInputOfOneMore(Insert(init, s), last, input);
    } else {
      WithInputOfOneMore(sorted, s, input);
    }
  }

  /** Sorting is stable and keeps every sample as often as it was there. */
  lemma {:induction false} SortIsStable(samples: seq<Sample>, input: u64)
    ensures WithInput(SortByInput(samples), input) == WithInput(samples, input)
    ensures multiset(SortByInput(samples)) == multiset(samples)
  {
    if samples != [] {
      var init, last := samples[..|samples| - 1], samples[|samples| - 1];
      assert samples == init + [last];
      SortIsStable(init, input);
      InsertIsStable(SortByInput(init), last, input);
      WithInputOfOneMore(init, last, input);
    }
  }

  /** A sample belongs to the merged sample whose input is at most four nanos below its own. */
  predicate InGroup(m: Sample, s: Sample) {
    m.input <= s.input <= m.input + MERGE_EPS
  }

  ghost predicate Apart(merged: seq<Sample>) {
    forall i, j :: 0 <= i < j < |merged| ==> merged[i].input + MERGE_EPS < merged[j].input
  }

  ghost predicate Covered(merged: seq<Sample>, s: Sample) {
    exists i :: 0 <= i < |merged| && InGroup(merged[i], s) && s.output <= merged[i].output
  }

  ghost predicate Grounded(samples: set<Sample>, m: Sample) {
    && (exists s :: s in samples && s.input == m.input)
    && (exists s :: s in samples && InGroup(m, s) && s.output == m.output)
  }

  /** Merged samples stand for a set: inputs more than four nanos apart, each an input of the set, each output
      the output of a sample of its group, and every sample dominated within its group. */
  ghost predicate Merges(samples: set<Sample>, merged: seq<Sample>) {
    && Apart(merged)
    && (forall s :: s in samples ==> Covered(merged, s))
    && (forall i :: 0 <= i < |merged| ==> Grounded(samples, merged[i]))
  }

  function Absorb(cleaned: seq<Sample>, s: Sample): seq<Sample> {
    var n := |cleaned|;
    if n > 0 && SaturatingSub(s.input, cleaned[n - 1].input) <= MERGE_EPS then
      if s.output > cleaned[n - 1].output then cleaned[n - 1 := Sample(cleaned[n - 1].input, s.output)] else cleaned
    else cleaned + [s]
  }

  lemma AbsorbKeepsCovered(cleaned: seq<Sample>, s: Sample, p: Sample)
    requires Covered(cleaned, p)
    ensures Covered(Absorb(cleaned, s), p)
  {
    var i :| 0 <= i < |cleaned| && InGroup(cleaned[i], p) && p.output <= cleaned[i].output;
    var r := Absorb(cleaned, s);
    assert InGroup(r[i], p) && p.output <= r[i].output;
  }

  lemma AbsorbCovers(cleaned: seq<Sample>, s: Sample)
    requires |cleaned| > 0 ==> cleaned[|cleaned| - 1].input <= s.input
    ensures Covered(Absorb(cleaned, s), s)
  {
    var r := Absorb(cleaned, s);
    var i := |r| - 1;
    assert InGroup(r[i], s) && s.output <= r[i].output;
  }

  lemma AbsorbKeepsApart(cleaned: seq<Sample>, s: Sample)
    requires Apart(cleaned)
    requires |cleaned| > 0 ==> cleaned[|cleaned| - 1].input <= s.input
    ensures Apart(Absorb(cleaned, s))
  {}

  lemma GroundedInMore(samples: set<Sample>, s: Sample, m: Sample)
    requires Grounded(samples, m)
    ensures Grounded(samples + {s}, m)
  {
    var a :| a in samples && a.input == m.input;
    var b :| b in samples && InGroup(m, b) && b.output == m.output;
    assert a in samples + {s} && b in samples + {s};
  }

  lemma AbsorbKeepsGrounded(samples: set<Sample>, cleaned: seq<Sample>, s: Sample, i: nat)
    requires forall j :: 0 <= j < |cleaned| ==> Grounded(samples, cleaned[j])
    requires |cleaned| > 0 ==> cleaned[|cleaned| - 1].input <= s.input
    requires i < |Absorb(cleaned, s)|
    ensures Grounded(samples + {s}, Absorb(cleaned, s)[i])
  {
    var r := Absorb(cleaned, s);
    if i < |cleaned| && r[i] == cleaned[i] {
      GroundedInMore(samples, s, cleaned[i]);
    } else if i < |cleaned| {
      GroundedInMore(samples, s, cleaned[i]);
      var a :| a in samples + {s} && a.input == cleaned[i].input;
      assert a.input == r[i].input && s in samples + {s} && InGroup(r[i], s) && s.output == r[i].output;
    } else {
      assert s in samples + {s} && InGroup(r[i], s);
    }
  }

  lemma LastIsBelow(samples: set<Sample>, cleaned: seq<Sample>, s: Sample)
    requires forall j :: 0 <= j < |cleaned| ==> Grounded(samples, cleaned[j])
    requires forall p :: p in samples ==> p.input <= s.input
    ensures |cleaned| > 0 ==> cleaned[|cleaned| - 1].input <= s.input
  {
    if |cleaned| > 0 {
      var m := cleaned[|cleaned| - 1];
      assert Grounded(samples, m);
      var a :| a in samples && a.input == m.input;
    }
  }

  lemma AbsorbMerges(samples: set<Sample>, cleaned: seq<Sample>, s: Sample)
    requires Merges(samples, cleaned) && forall p :: p in samples ==> p.input <= s.input
    ensures Merges(samples + {s}, Absorb(cleaned, s))
  {
    var r := Absorb(cleaned, s);
    hide Absorb, Covered, Grounded, Apart;
    LastIsBelow(samples, cleaned, s);
    AbsorbKeepsApart(cleaned, s);
    AbsorbCovers(cleaned, s);
    forall p | p in samples ensures Covered(r, p) {
      AbsorbKeepsCovered(cleaned, s, p);
    }
    forall i | 0 <= i < |r| ensures Grounded(samples + {s}, r[i]) {
      AbsorbKeepsGrounded(samples, cleaned, s, i);
    }
  }

  method Merge(sorted: seq<Sample>) returns (cleaned: seq<Sample>)
    requires SortedByInput(sorted)
    ensures Merges(Elements(sorted), cleaned)
  {
    hide Merges, Elements, SortedByInput;
    cleaned := [];
    NothingMerges(sorted[..0]);
    var i := 0;
    while i < |sorted|
      invariant 0 <= i <= |sorted|
      invariant Merges(Elements(sorted[..i]), cleaned)
    {
      var s := sorted[i];
      AbsorbNext(sorted, i, cleaned);
      ghost var before := cleaned;
      var n := |cleaned|;
      if n > 0 && SaturatingSub(s.input, cleaned[n - 1].input) <= MERGE_EPS {
        if s.output > cleaned[n - 1].output {
          cleaned := cleaned[n - 1 := Sample(cleaned[n - 1].input, s.output)];
        }
      } else {
        cleaned := cleaned + [s];
      }
      assert cleaned == Absorb(before, s);
      i := i + 1;
    }
    assert sorted[..i] == sorted;
  }

  lemma NothingMerges(sorted: seq<Sample>)
    requires sorted == []
    ensures Merges(Elements(sorted), [])
  {}

  lemma AbsorbNext(sorted: seq<Sample>, i: nat, cleaned: seq<Sample>)
    requires SortedByInput(sorted) && i < |sorted| && Merges(Elements(sorted[..i]), cleaned)
    ensures Merges(Elements(sorted[..i + 1]), Absorb(cleaned, sorted[i]))
  {
    assert forall p :: p in Elements(sorted[..i]) ==> p.input <= sorted[i].input;
    hide Merges, Absorb;
    AbsorbMerges(Elements(sorted[..i]), cleaned, sorted[i]);
    PrefixElements(sorted, i);
  }

  lemma PrefixElements(samples: seq<Sample>, i: nat)
    requires i < |samples|
    ensures Elements(samples[..i + 1]) == Elements(samples[..i]) + {samples[i]}
  {
    assert samples[..i + 1] == samples[..i] + [samples[i]];
    ElementsOfOneMore(samples[..i], samples[i]);
  }

  // ----- The two passes -----

  /** An adjacent pair whose output falls by more than the uncertainty. */
  predicate Drops(c: seq<Sample>, i: nat)
    requires i + 1 < |c|
  {
    c[i + 1].input > c[i].input && SaturatingAdd(c[i + 1].output, UNCERTAINTY) < c[i].output
  }

  function Dx(c: seq<Sample>, i: nat): int
    requires i + 1 < |c|
  {
    c[i + 1].input - c[i].input
  }

  function Dy(c: seq<Sample>, i: nat): (dy: u64)
    requires i + 1 < |c|
  {
    SaturatingSub(c[i + 1].output, c[i].output)
  }

  predicate Wide(c: seq<Sample>, i: nat)
    requires i + 1 < |c|
  {
    Dx(c, i) >= MIN_DX
  }

  /** The slope of segment `i`, lowered by the uncertainty, exceeds that of segment `j`, raised by it. */
  predicate Rises(c: seq<Sample>, j: nat, i: nat)
    requires j + 1 < |c| && i + 1 < |c|
  {
    SaturatingSub(Dy(c, i), UNCERTAINTY) * Dx(c, j) > SaturatingAdd(Dy(c, j), UNCERTAINTY) * Dx(c, i)
  }

  /** Segments `j` and `i` are wide and every segment between them is narrow. */
  ghost predicate Successive(c: seq<Sample>, j: nat, i: nat)
    requires i + 1 < |c|
  {
    j < i && Wide(c, j) && Wide(c, i) && forall k :: j < k < i ==> !Wide(c, k)
  }

  ghost predicate FirstDrop(c: seq<Sample>, i: nat) {
    i + 1 < |c| && Drops(c, i) && forall k :: 0 <= k < i ==> !Drops(c, k)
  }

  ghost predicate NoDrop(c: seq<Sample>) {
    forall k :: 0 <= k < |c| - 1 ==> !Drops(c, k)
  }

  ghost predicate RisesAt(c: seq<Sample>, j: nat, i: nat) {
    i + 1 < |c| && Successive(c, j, i) && Rises(c, j, i)
  }

  ghost predicate NoRiseBefore(c: seq<Sample>, n: nat) {
    forall j: nat, i: nat :: i < n ==> !RisesAt(c, j, i)
  }

  /** What each verdict means for the merged samples. */
  ghost predicate Judges(c: seq<Sample>, v: Verdict) {
    match v
    case NotMonotone(at) => FirstDrop(c, at)
    case NotConcave(prev, at) => NoDrop(c) && RisesAt(c, prev, at) && NoRiseBefore(c, at)
    case Fine => NoDrop(c) && NoRiseBefore(c, |c|)
  }

  method CheckMerged(cleaned: seq<Sample>) returns (v: Verdict)
    requires Apart(cleaned)
    ensures Judges(cleaned, v)
  {
    var i := 0;
    while i + 1 < |cleaned|
      invariant 0 <= i && (i == 0 || i < |cleaned|)
      invariant forall k :: 0 <= k < i ==> !Drops(cleaned, k)
    {
      var a, b := cleaned[i], cleaned[i + 1];
      if b.input > a.input && SaturatingAdd(b.output, UNCERTAINTY) < a.output {
        assert Drops(cleaned, i);
        return NotMonotone(i);
      }
      i := i + 1;
    }
    v := CheckSlopes(cleaned);
  }

  datatype Segment = NoSegment | Segment(dy: u64, dx: nat, at: nat)

  /** The last wide segment among the first `n`. */
  ghost predicate LastWide(c: seq<Sample>, n: nat, prev: Segment) {
    match prev
    case NoSegment => forall k :: 0 <= k < n && k + 1 < |c| ==> !Wide(c, k)
    case Segment(dy, dx, at) =>
      && at < n && at + 1 < |c| && Wide(c, at) && dy == Dy(c, at) && dx == Dx(c, at)
      && (forall k :: at < k < n && k + 1 < |c| ==> !Wide(c, k))
  }

  lemma SuccessorIsLastWide(c: seq<Sample>, i: nat, prev: Segment, j: nat)
    requires LastWide(c, i, prev) && RisesAt(c, j, i)
    ensures prev.Segment? && prev.at == j
  {}

  lemma NoRiseAt(c: seq<Sample>, i: nat, prev: Segment)
    requires i + 1 < |c| && LastWide(c, i, prev) && NoRiseBefore(c, i)
    requires !Wide(c, i) || prev.NoSegment? || !Rises(c, prev.at, i)
    ensures NoRiseBefore(c, i + 1)
  {
    forall j: nat | RisesAt(c, j, i) ensures false {
      SuccessorIsLastWide(c, i, prev, j);
    }
  }

  lemma RiseAt(c: seq<Sample>, i: nat, prev: Segment)
    requires i + 1 < |c| && LastWide(c, i, prev) && Wide(c, i) && prev.Segment? && Rises(c, prev.at, i)
    ensures RisesAt(c, prev.at, i)
  {}

  method CheckSlopes(cleaned: seq<Sample>) returns (v: Verdict)
    requires Apart(cleaned) && NoDrop(cleaned)
    ensures Judges(cleaned, v)
  {
    hide RisesAt, NoDrop;
    var prevSegment := NoSegment;
    var i := 0;
    while i + 1 < |cleaned|
      invariant 0 <= i && (i == 0 || i < |cleaned|)
      invariant LastWide(cleaned, i, prevSegment) && NoRiseBefore(cleaned, i)
    {
      hide NoRiseBefore;
      var a, b := cleaned[i], cleaned[i + 1];
      var dx := b.input - a.input;
      if dx == 0 || dx < MIN_DX {
        NoRiseAt(cleaned, i, prevSegment);
        i := i + 1;
        continue;
      }
      var dy := SaturatingSub(b.output, a.output);
      if prevSegment.Segment? {
        var prevUpper := SaturatingAdd(prevSegment.dy, UNCERTAINTY);
        var currLower := SaturatingSub(dy, UNCERTAINTY);
        var lhs := prevUpper * dx;
        var rhs := currLower * prevSegment.dx;
        if rhs > lhs {
          RiseAt(cleaned, i, prevSegment);
          return NotConcave(prevSegment.at, i);
        }
      }
      NoRiseAt(cleaned, i, prevSegment);
      prevSegment := Segment(dy, dx, i);
      i := i + 1;
    }
    NoRiseAfterAll(cleaned, i);
    return Fine;
  }

  lemma NoRiseAfterAll(c: seq<Sample>, i: nat)
    requires i + 1 >= |c| && NoRiseBefore(c, i)
    ensures NoRiseBefore(c, |c|)
  {}

  /** The cross products of the slope test fit in 128 bits. */
  lemma CrossProductsFit(c: seq<Sample>, j: nat, i: nat)
    requires Apart(c) && j + 1 < |c| && i + 1 < |c|
    ensures 0 <= SaturatingAdd(Dy(c, j), UNCERTAINTY) * Dx(c, i) < 0x1_0000_0000_0000_0000_0000_0000_0000_0000
    ensures 0 <= SaturatingSub(Dy(c, i), UNCERTAINTY) * Dx(c, j) < 0x1_0000_0000_0000_0000_0000_0000_0000_0000
  {
    ProductFits(SaturatingAdd(Dy(c, j), UNCERTAINTY), Dx(c, i));
    ProductFits(SaturatingSub(Dy(c, i), UNCERTAINTY), Dx(c, j));
  }

  // ----- The whole check -----

  /** A verdict on a set of sampled points: the merged samples of the kept points, judged. */
  ghost predicate Judged(points: seq<(real, real)>, minInput: real, v: Verdict) {
    exists c :: Merges(KeptSet(points, minInput), c) && Judges(c, v)
  }

  method ShapeViolation(points: seq<(real, real)>, minInput: real) returns (v: Verdict)
    ensures Judged(points, minInput, v)
  {
    var samples := Filter(points, minInput);
    SortSorts(samples);
    var cleaned := Merge(SortByInput(samples));
    v := CheckMerged(cleaned);
    assert Merges(KeptSet(points, minInput), cleaned) && Judges(cleaned, v);
  }

  lemma AnchorOf(samples: set<Sample>, r: seq<Sample>, n: nat) returns (s: Sample)
    requires Merges(samples, r) && n < |r|
    ensures s in samples && s.input == r[n].input
  {
    assert Grounded(samples, r[n]);
    s :| s in samples && s.input == r[n].input;
  }

  lemma BestOf(samples: set<Sample>, r: seq<Sample>, n: nat) returns (s: Sample)
    requires Merges(samples, r) && n < |r|
    ensures s in samples && InGroup(r[n], s) && s.output == r[n].output
  {
    assert Grounded(samples, r[n]);
    s :| s in samples && InGroup(r[n], s) && s.output == r[n].output;
  }

  lemma GroupOf(samples: set<Sample>, r: seq<Sample>, s: Sample) returns (i: nat)
    requires Merges(samples, r) && s in samples
    ensures i < |r| && InGroup(r[i], s) && s.output <= r[i].output
  {
    assert Covered(r, s);
    hide Merges;
    i :| 0 <= i < |r| && InGroup(r[i], s) && s.output <= r[i].output;
  }

  lemma OneGroup(samples: set<Sample>, r: seq<Sample>, s: Sample, i: nat, j: nat)
    requires Merges(samples, r) && i < |r| && j < |r| && InGroup(r[i], s) && InGroup(r[j], s)
    ensures i == j
  {}

  lemma NextNotLater(samples: set<Sample>, r: seq<Sample>, q: seq<Sample>, n: nat)
    requires Merges(samples, r) && Merges(samples, q)
    requires n < |r| && n <= |q| && r[..n] == q[..n]
    ensures n < |q| && q[n].input <= r[n].input
  {
    hide Merges;
    var s := AnchorOf(samples, r, n);
    var i := GroupOf(samples, q, s);
    if i < n {
      assert r[i] == r[..n][i] == q[..n][i] == q[i];
      OneGroup(samples, r, s, i, n);
    } else {
      AnchorsRise(samples, q, n, i);
    }
  }

  lemma AnchorsRise(samples: set<Sample>, r: seq<Sample>, i: nat, j: nat)
    requires Merges(samples, r) && i <= j < |r|
    ensures r[i].input <= r[j].input
  {}

  lemma SameGroupSameBest(samples: set<Sample>, r: seq<Sample>, q: seq<Sample>, n: nat)
    requires Merges(samples, r) && Merges(samples, q)
    requires n < |r| && n < |q| && r[n].input == q[n].input
    ensures r[n].output <= q[n].output
  {
    hide Merges;
    var s := BestOf(samples, r, n);
    var i := GroupOf(samples, q, s);
    OneGroup(samples, q, s, i, n);
  }

  lemma NextIsSame(samples: set<Sample>, r: seq<Sample>, q: seq<Sample>, n: nat)
    requires Merges(samples, r) && Merges(samples, q)
    requires n < |r| && n <= |q| && r[..n] == q[..n]
    ensures n < |q| && r[n] == q[n]
  {
    hide Merges;
    NextNotLater(samples, r, q, n);
    NextNotLater(samples, q, r, n);
    SameGroupSameBest(samples, r, q, n);
    SameGroupSameBest(samples, q, r, n);
  }

  /** Merged samples are determined by the set they stand for. */
  lemma {:induction false} MergesIsUnique(samples: set<Sample>, r: seq<Sample>, q: seq<Sample>, n: nat)
    requires Merges(samples, r) && Merges(samples, q) && n <= |r|
    ensures n <= |q| && r[..n] == q[..n]
  {
    hide Merges;
    if n > 0 {
      MergesIsUnique(samples, r, q, n - 1);
      NextIsSame(samples, r, q, n - 1);
      assert r[..n] == r[..n - 1] + [r[n - 1]] && q[..n] == q[..n - 1] + [q[n - 1]];
    }
  }

  lemma VerdictIsUnique(c: seq<Sample>, v: Verdict, w: Verdict)
    requires Judges(c, v) && Judges(c, w)
    ensures v == w
  {
  }

  lemma SamePointsSameSamples(points: seq<(real, real)>, again: seq<(real, real)>, minInput: real)
    requires forall p :: p in points <==> p in again
    ensures KeptSet(points, minInput) == KeptSet(again, minInput)
  {}

  /** The verdict depends only on the set of points sampled, not on their order or repetition, and there is only one. */
  lemma VerdictIgnoresOrder(points: seq<(real, real)>, again: seq<(real, real)>, minInput: real, v: Verdict, w: Verdict)
    requires forall p :: p in points <==> p in again
    ensures Judged(points, minInput, v) <==> Judged(again, minInput, v)
    ensures Judged(points, minInput, v) && Judged(again, minInput, w) ==> v == w
  {
    hide Merges, Judges, KeptSet;
    var samples := KeptSet(points, minInput);
    SamePointsSameSamples(points, again, minInput);
    assert Judged(points, minInput, v) <==> Judged(again, minInput, v);
    hide Judged;
    if Judged(points, minInput, v) && Judged(again, minInput, w) {
      var c := MergedOf(points, minInput, v);
      var d := MergedOf(again, minInput, w);
      MergesIsUnique(samples, c, d, |c|);
      MergesIsUnique(samples, d, c, |d|);
      assert c == c[..|c|] && d == d[..|d|];
      VerdictIsUnique(c, v, w);
    }
  }

  lemma MergedOf(points: seq<(real, real)>, minInput: real, v: Verdict) returns (c: seq<Sample>)
    requires Judged(points, minInput, v)
    ensures Merges(KeptSet(points, minInput), c) && Judges(c, v)
  {
    hide Merges, Judges, KeptSet;
    c :| Merges(KeptSet(points, minInput), c) && Judges(c, v);
  }

  /** Only the pool named as the submission is held to its shape; anything else passes. */
  method ShapeAccepted(name: string, points: seq<(real, real)>, minInput: real) returns (ok: bool)
    ensures ok <==> (name == "submission" ==> Judged(points, minInput, Fine))
  {
    if name != "submission" {
      return true;
    }
    var v := ShapeViolation(points, minInput);
    hide Judged;
    if Judged(points, minInput, Fine) {
      VerdictIgnoresOrder(points, points, minInput, v, Fine);
    }
    return v.Fine?;
  }
}
