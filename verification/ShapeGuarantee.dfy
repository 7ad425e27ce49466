/** Which curves the shape check accepts, and a steep straight line it rejects. */
module ShapeGuarantee {
  import opened Words
  import opened ShapeCheck
  import opened Concavity
  import Reals

  /** The curve takes inputs and outputs in nanos. */
  ghost predicate Rising(f: real -> real, a: real, b: real) {
    forall x, y :: a <= x <= y <= b ==> f(x) <= f(y)
  }

  /** The merged sample lies on the curve or at most the uncertainty below it, and short of saturation. */
  ghost predicate InBand(f: real -> real, a: real, b: real, s: Sample) {
    && a <= s.input as real <= b
    && f(s.input as real) - 4.0 <= s.output as real <= f(s.input as real)
    && s.output + UNCERTAINTY <= U64_MAX
  }

  /** Slopes of a concave curve fall from one segment to any later one. */
  lemma SlopesFall(f: real -> real, lo: real, hi: real, a: real, b: real, c: real, d: real)
    requires Concave(f, lo, hi) && lo <= a < b <= c < d <= hi
    ensures (f(d) - f(c)) * (b - a) <= (f(b) - f(a)) * (d - c)
  {
    if b == c {
      assert Chord(f, a, b, d);
    } else {
      assert Chord(f, a, b, c) && Chord(f, b, c, d);
      ChainSlopes(b - a, c - b, d - c, f(b) - f(a), f(c) - f(b), f(d) - f(c));
    }
  }

  lemma ChainSlopes(p: real, m: real, q: real, u: real, v: real, w: real)
    requires 0.0 < p && 0.0 < m && 0.0 < q && v * p <= u * m && w * m <= v * q
    ensures w * p <= u * q
  {
    Reals.Scale(v * p, u * m, q);
    Reals.Scale(w * m, v * q, p);
    assert m * (w * p) <= m * (u * q);
    Reals.Cancel(m, w * p, u * q);
  }

  lemma BandDoesNotDrop(f: real -> real, a: real, b: real, c: seq<Sample>, i: nat)
    requires Rising(f, a, b) && Apart(c) && i + 1 < |c| && InBand(f, a, b, c[i]) && InBand(f, a, b, c[i + 1])
    ensures !Drops(c, i)
  {}

  /** The slack covers what two samples of the band can be off by together. */
  lemma BandStep(f: real -> real, a: real, b: real, s: Sample, t: Sample)
    requires Rising(f, a, b) && s.input <= t.input && InBand(f, a, b, s) && InBand(f, a, b, t)
    ensures var rise := f(t.input as real) - f(s.input as real); var dy := SaturatingSub(t.output, s.output);
            SaturatingSub(dy, UNCERTAINTY) as real <= rise <= SaturatingAdd(dy, UNCERTAINTY) as real
  {
    assert f(s.input as real) <= f(t.input as real);
  }

  lemma BandSlopes(f: real -> real, a: real, b: real, s1: Sample, s2: Sample, s3: Sample, s4: Sample)
    requires Concave(f, a, b) && Rising(f, a, b) && s1.input < s2.input <= s3.input < s4.input
    requires InBand(f, a, b, s1) && InBand(f, a, b, s2) && InBand(f, a, b, s3) && InBand(f, a, b, s4)
    ensures SaturatingSub(SaturatingSub(s4.output, s3.output), UNCERTAINTY) * (s2.input - s1.input)
         <= SaturatingAdd(SaturatingSub(s2.output, s1.output), UNCERTAINTY) * (s4.input - s3.input)
  {
    var upper := SaturatingAdd(SaturatingSub(s2.output, s1.output), UNCERTAINTY);
    var lower := SaturatingSub(SaturatingSub(s4.output, s3.output), UNCERTAINTY);
    BandStep(f, a, b, s1, s2);
    BandStep(f, a, b, s3, s4);
    assert a <= s1.input as real && s4.input as real <= b;
    hide Concave, Rising, SaturatingAdd, SaturatingSub, InBand;
    CompareSlopes(f, a, b, s1.input, s2.input, s3.input, s4.input, lower, upper);
  }

  lemma CompareSlopes(f: real -> real, lo: real, hi: real, a: nat, b: nat, c: nat, d: nat, lower: nat, upper: nat)
    requires Concave(f, lo, hi) && a < b <= c < d && lo <= a as real && d as real <= hi
    requires lower as real <= f(d as real) - f(c as real) && f(b as real) - f(a as real) <= upper as real
    ensures lower * (b - a) <= upper * (d - c)
  {
    SlopesFall(f, lo, hi, a as real, b as real, c as real, d as real);
    hide Concave;
    CompareProducts(lower, b - a, upper, d - c, f(d as real) - f(c as real), f(b as real) - f(a as real));
  }

  lemma BandDoesNotRise(f: real -> real, a: real, b: real, c: seq<Sample>, j: nat, i: nat)
    requires Concave(f, a, b) && Rising(f, a, b) && Apart(c) && j < i && i + 1 < |c|
    requires InBand(f, a, b, c[j]) && InBand(f, a, b, c[j + 1]) && InBand(f, a, b, c[i]) && InBand(f, a, b, c[i + 1])
    ensures !Rises(c, j, i)
  {
    assert c[j].input < c[j + 1].input <= c[i].input < c[i + 1].input;
    hide Concave, Rising, InBand, Apart, SaturatingAdd, SaturatingSub;
    BandSlopes(f, a, b, c[j], c[j + 1], c[i], c[i + 1]);
  }

  lemma CompareProducts(lower: nat, dxj: int, upper: nat, dxi: int, gain: real, prior: real)
    requires 0 < dxj && 0 < dxi && lower as real <= gain && prior <= upper as real
    requires gain * dxj as real <= prior * dxi as real
    ensures lower * dxj <= upper * dxi
  {
    Reals.Scale(lower as real, gain, dxj as real);
    Reals.Scale(prior, upper as real, dxi as real);
    Reals.Cast(lower, dxj);
    Reals.Cast(upper, dxi);
  }

  /** No false positives: merged samples within the stated uncertainty of a rising concave curve are accepted,
      however narrow segments are skipped. */
  lemma BandIsAccepted(f: real -> real, a: real, b: real, c: seq<Sample>, v: Verdict)
    requires Concave(f, a, b) && Rising(f, a, b) && Apart(c)
    requires forall i :: 0 <= i < |c| ==> InBand(f, a, b, c[i])
    requires Judges(c, v)
    ensures v.Fine?
  {
    hide Concave, Rising, InBand, Apart;
    match v {
      case NotMonotone(i) => BandDoesNotDrop(f, a, b, c, i);
      case NotConcave(j, i) => BandDoesNotRise(f, a, b, c, j, i);
      case Fine =>
    }
  }

  // ----- From the samples themselves -----

  /** Different inputs are more than four nanos apart, so every merged group is a single input. */
  ghost predicate Separate(samples: set<Sample>) {
    forall s, t :: s in samples && t in samples && s.input < t.input ==> s.input + MERGE_EPS < t.input
  }

  lemma SeparateMergesToItself(samples: set<Sample>, c: seq<Sample>, i: nat)
    requires Merges(samples, c) && Separate(samples) && i < |c|
    ensures c[i] in samples
  {
    hide Merges;
    var t := AnchorOf(samples, c, i);
    var s := BestOf(samples, c, i);
    assert s == c[i];
  }

  /** When inputs are equal or more than four nanos apart, merging keeps every sample on its curve, so raw
      samples in the band are accepted. */
  lemma SeparateSamplesAreAccepted(f: real -> real, a: real, b: real, points: seq<(real, real)>, minInput: real,
                                   v: Verdict)
    requires Concave(f, a, b) && Rising(f, a, b) && Judged(points, minInput, v)
    requires Separate(KeptSet(points, minInput)) && forall s :: s in KeptSet(points, minInput) ==> InBand(f, a, b, s)
    ensures v.Fine?
  {
    hide Concave, Rising, InBand, Judges, Judged, KeptSet, Merges, Separate;
    var samples := KeptSet(points, minInput);
    var c := MergedOf(points, minInput, v);
    forall i | 0 <= i < |c| ensures InBand(f, a, b, c[i]) {
      SeparateMergesToItself(samples, c, i);
    }
    MergedApart(samples, c);
    BandIsAccepted(f, a, b, c, v);
  }

  lemma MergedApart(samples: set<Sample>, c: seq<Sample>)
    requires Merges(samples, c)
    ensures Apart(c)
  {}

  /** Four nanos more of input buy at most what the uncertainty leaves beyond `loss`. */
  ghost predicate FlatAt(f: real -> real, loss: real, x: real) {
    f(x + 4.0) + loss <= f(x) + 4.0
  }

  ghost predicate BelowCurve(f: real -> real, a: real, b: real, loss: real, s: Sample) {
    && a <= s.input as real <= b && s.output + UNCERTAINTY <= U64_MAX
    && f(s.input as real) - loss <= s.output as real <= f(s.input as real)
  }

  function Shifted(f: real -> real): real -> real { x => f(x + 4.0) }

  /** On a curve so flat that four nanos of input buy no more than the uncertainty leaves, merging does no harm
      either: raw samples at most `loss` below the curve are accepted, however close their inputs. */
  lemma FlatSamplesAreAccepted(f: real -> real, a: real, b: real, loss: real, points: seq<(real, real)>, minInput: real,
                               v: Verdict)
    requires Concave(f, a, b + 4.0) && Rising(f, a, b + 4.0) && Judged(points, minInput, v)
    requires forall x :: a <= x <= b ==> FlatAt(f, loss, x)
    requires forall s :: s in KeptSet(points, minInput) ==> BelowCurve(f, a, b, loss, s)
    ensures v.Fine?
  {
    hide Judges, Judged, KeptSet, Concave, Rising, FlatAt, BelowCurve, Merges, InBand, Shifted;
    var samples := KeptSet(points, minInput);
    var c := MergedOf(points, minInput, v);
    ShiftedConcave(f, a, b);
    forall i | 0 <= i < |c| ensures InBand(Shifted(f), a, b, c[i]) {
      FlatGroup(f, a, b, loss, samples, c, i);
    }
    MergedApart(samples, c);
    BandIsAccepted(Shifted(f), a, b, c, v);
  }

  lemma ShiftedConcave(f: real -> real, a: real, b: real)
    requires Concave(f, a, b + 4.0) && Rising(f, a, b + 4.0)
    ensures Concave(Shifted(f), a, b) && Rising(Shifted(f), a, b)
  {
    forall x, y, z | a <= x < y < z <= b ensures Chord(Shifted(f), x, y, z) {
      assert Chord(f, x + 4.0, y + 4.0, z + 4.0);
    }
  }

  lemma FlatGroup(f: real -> real, a: real, b: real, loss: real, samples: set<Sample>, c: seq<Sample>, i: nat)
    requires Merges(samples, c) && i < |c| && Rising(f, a, b + 4.0)
    requires forall x :: a <= x <= b ==> FlatAt(f, loss, x)
    requires forall s :: s in samples ==> BelowCurve(f, a, b, loss, s)
    ensures InBand(Shifted(f), a, b, c[i])
  {
    hide Merges;
    var t := AnchorOf(samples, c, i);
    var s := BestOf(samples, c, i);
    assert BelowCurve(f, a, b, loss, t) && BelowCurve(f, a, b, loss, s);
    assert FlatAt(f, loss, t.input as real);
    assert f(s.input as real) <= f(t.input as real + 4.0);
  }

  // ----- Samples in so many points -----

  lemma KeptAre(points: seq<(real, real)>, samples: seq<Sample>, minInput: real)
    requires |points| == |samples|
    requires forall i :: 0 <= i < |points| ==> ToSample(points[i]) == samples[i] && Keeps(points[i], minInput)
    ensures KeptSet(points, minInput) == Elements(samples)
  {
    hide ToSample, Keeps;
    forall s | s in KeptSet(points, minInput) ensures s in Elements(samples) {
      var i :| 0 <= i < |points| && s == ToSample(points[i]);
    }
    forall s | s in Elements(samples) ensures s in KeptSet(points, minInput) {
      var i :| 0 <= i < |samples| && s == samples[i];
      assert points[i] in points;
    }
  }

  /** Samples far enough apart are their own groups. */
  lemma ApartMergesToItself(c: seq<Sample>)
    requires Apart(c)
    ensures Merges(Elements(c), c)
  {
    forall s | s in Elements(c) ensures Covered(c, s) {
      var i :| 0 <= i < |c| && c[i] == s;
      assert InGroup(c[i], s);
    }
    forall i | 0 <= i < |c| ensures Grounded(Elements(c), c[i]) {
      assert c[i] in Elements(c) && InGroup(c[i], c[i]);
    }
    hide Covered, Grounded, Apart, Elements;
  }

  // ----- A straight line the check rejects -----

  /** Four samples of the line that pays a hundred for one, two of them four nanos apart. */
  function SteepPoints(): seq<(real, real)> {
    [(0.002, 0.2), (0.002000004, 0.2000004), (0.003, 0.3), (0.004, 0.4)]
  }

  /** They lie exactly on the line, yet keeping the larger output at the smaller input bends it, and the only
      verdict is a concavity violation. */
  lemma SteepLineIsRejected(v: Verdict)
    ensures forall p :: p in SteepPoints() ==> p.1 == 100.0 * p.0
    ensures Judged(SteepPoints(), 0.001, v) <==> v == NotConcave(0, 1)
  {
    hide KeptSet, Merges, Judges, Judged;
    OnTheLine();
    hide SteepPoints;
    var c := [Sample(2000000, 200000400), Sample(3000000, 300000000), Sample(4000000, 400000000)];
    SteepKept();
    SteepMerged(c);
    SteepJudged(c);
    JudgedBy(SteepPoints(), 0.001, c, NotConcave(0, 1));
    if Judged(SteepPoints(), 0.001, v) {
      VerdictIgnoresOrder(SteepPoints(), SteepPoints(), 0.001, v, NotConcave(0, 1));
    }
  }

  lemma OnTheLine()
    ensures forall p :: p in SteepPoints() ==> p.1 == 100.0 * p.0
  {}

  lemma JudgedBy(points: seq<(real, real)>, minInput: real, c: seq<Sample>, v: Verdict)
    requires Merges(KeptSet(points, minInput), c) && Judges(c, v)
    ensures Judged(points, minInput, v)
  {
    hide KeptSet, Merges, Judges;
  }

  function SteepSamples(): set<Sample> {
    {Sample(2000000, 200000000), Sample(2000004, 200000400), Sample(3000000, 300000000), Sample(4000000, 400000000)}
  }

  lemma SteepKept()
    ensures KeptSet(SteepPoints(), 0.001) == SteepSamples()
  {
    var points, samples := SteepPoints(), SteepSamples();
    assert ToSample(points[0]) == Sample(2000000, 200000000) && ToSample(points[1]) == Sample(2000004, 200000400);
    assert ToSample(points[2]) == Sample(3000000, 300000000) && ToSample(points[3]) == Sample(4000000, 400000000);
    assert Keeps(points[0], 0.001) && Keeps(points[1], 0.001) && Keeps(points[2], 0.001) && Keeps(points[3], 0.001);
    hide ToSample, Keeps;
    assert forall i :: 0 <= i < 4 ==> ToSample(points[i]) in KeptSet(points, 0.001);
    forall s | s in KeptSet(points, 0.001) ensures s in samples {
      var i :| 0 <= i < 4 && s == ToSample(points[i]);
    }
  }

  lemma SteepMerged(c: seq<Sample>)
    requires c == [Sample(2000000, 200000400), Sample(3000000, 300000000), Sample(4000000, 400000000)]
    ensures Merges(SteepSamples(), c)
  {
    var samples := SteepSamples();
    var s0, s1, s2, s3 := Sample(2000000, 200000000), Sample(2000004, 200000400), Sample(3000000, 300000000),
                          Sample(4000000, 400000000);
    assert InGroup(c[0], s0) && InGroup(c[0], s1) && InGroup(c[1], s2) && InGroup(c[2], s3);
    assert Covered(c, s0) && Covered(c, s1) && Covered(c, s2) && Covered(c, s3);
    assert Grounded(samples, c[0]) by { assert s0 in samples && s1 in samples; }
    assert Grounded(samples, c[1]) by { assert s2 in samples; }
    assert Grounded(samples, c[2]) by { assert s3 in samples; }
  }

  lemma SteepJudged(c: seq<Sample>)
    requires c == [Sample(2000000, 200000400), Sample(3000000, 300000000), Sample(4000000, 400000000)]
    ensures Judges(c, NotConcave(0, 1))
  {
    assert Rises(c, 0, 1);
    assert RisesAt(c, 0, 1);
  }
}
