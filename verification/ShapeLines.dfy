/** Exactly which straight lines survive the merging of close samples. */
module ShapeLines {
  import opened Words
  import opened Nano
  import opened ShapeCheck
  import opened ShapeGuarantee
  import opened Concavity
  import Reals

  /** The sample lies at most `loss` nanos below the line of slope `m`, short of saturation. */
  ghost predicate OnLine(m: nat, base: int, loss: nat, s: Sample) {
    base + m * s.input - loss <= s.output <= base + m * s.input && s.output + UNCERTAINTY <= U64_MAX
  }

  /** If every sample that is kept lies on the line, the check finds nothing wrong. */
  ghost predicate LineAccepted(m: nat, base: int, loss: nat, points: seq<(real, real)>, minInput: real, v: Verdict) {
    (forall s :: s in KeptSet(points, minInput) ==> OnLine(m, base, loss, s)) && Judged(points, minInput, v) ==> v.Fine?
  }

  // ----- Flat lines are safe -----

  function Line(m: nat, base: int): real -> real { x => base as real + m as real * x }

  lemma LineIsConcave(m: nat, base: int, a: real, b: real)
    ensures Concave(Line(m, base), a, b) && Rising(Line(m, base), a, b)
  {
    forall x, y, z | a <= x < y < z <= b ensures Chord(Line(m, base), x, y, z) {
      LineChord(m as real, base as real, x, y, z);
    }
    forall x, y | a <= x <= y <= b ensures Line(m, base)(x) <= Line(m, base)(y) {
      Reals.Scale(x, y, m as real);
    }
  }

  lemma LineChord(m: real, base: real, x: real, y: real, z: real)
    ensures (z - x) * (base + m * y) == (z - y) * (base + m * x) + (y - x) * (base + m * z)
  {}

  lemma OnLineIsBelow(m: nat, base: int, loss: nat, s: Sample)
    requires OnLine(m, base, loss, s)
    ensures BelowCurve(Line(m, base), 0.0, U64_MAX as real, loss as real, s)
  {
    Reals.Cast(m, s.input);
  }

  lemma FlatLinesAreAccepted(m: nat, base: int, loss: nat, points: seq<(real, real)>, minInput: real, v: Verdict)
    requires 4 * m + loss <= 4
    ensures LineAccepted(m, base, loss, points, minInput, v)
  {
    hide Judged, KeptSet, OnLine, BelowCurve, Concave, Rising;
    if (forall s :: s in KeptSet(points, minInput) ==> OnLine(m, base, loss, s)) && Judged(points, minInput, v) {
      var f, b, slack := Line(m, base), U64_MAX as real, loss as real;
      LineIsConcave(m, base, 0.0, b + 4.0);
      forall x | 0.0 <= x <= b ensures FlatAt(f, slack, x) {
        assert f(x + 4.0) == f(x) + 4.0 * m as real;
      }
      forall s | s in KeptSet(points, minInput) ensures BelowCurve(f, 0.0, b, slack, s) {
        OnLineIsBelow(m, base, loss, s);
      }
      FlatSamplesAreAccepted(f, 0.0, b, slack, points, minInput, v);
    }
  }

  // ----- Steep lines are not -----

  /** Five samples from input `k` on: two close pairs on the line, and one between them as low as allowed. */
  function LineSamples(m: nat, loss: nat, k: nat): seq<Sample>
    requires k + 2000004 <= U64_MAX && 2000004 * m + loss <= U64_MAX
  {
    [Sample(k, loss), Sample(k + 4, loss + 4 * m), Sample(k + 1000000, 1000000 * m),
     Sample(k + 2000000, loss + 2000000 * m), Sample(k + 2000004, loss + 2000004 * m)]
  }

  function Units(s: Sample): (real, real) { (FromNano(s.input), FromNano(s.output)) }

  function LinePoints(m: nat, loss: nat, k: nat): seq<(real, real)>
    requires k + 2000004 <= U64_MAX && 2000004 * m + loss <= U64_MAX
  {
    var s := LineSamples(m, loss, k);
    [Units(s[0]), Units(s[1]), Units(s[2]), Units(s[3]), Units(s[4])]
  }

  lemma UnitsAreKept(s: Sample, minInput: real)
    requires ToNano(minInput) < s.input && ToNano(minInput) < U64_MAX
    ensures ToSample(Units(s)) == s && Keeps(Units(s), minInput)
  {
    NanoRoundTrip(s.input);
    NanoRoundTrip(s.output);
    if minInput > 0.0 {
      NanoTruncates(minInput);
    }
  }

  lemma LineKept(m: nat, loss: nat, k: nat, minInput: real)
    requires k + 2000004 <= U64_MAX && 2000004 * m + loss <= U64_MAX && ToNano(minInput) < k
    ensures KeptSet(LinePoints(m, loss, k), minInput) == Elements(LineSamples(m, loss, k))
  {
    var points, samples := LinePoints(m, loss, k), LineSamples(m, loss, k);
    forall i | 0 <= i < 5 ensures ToSample(points[i]) == samples[i] && Keeps(points[i], minInput) {
      UnitsAreKept(samples[i], minInput);
    }
    hide ToSample, Keeps, LinePoints, LineSamples;
    assert |points| == 5 && |samples| == 5 by { Five(m, loss, k); }
    KeptAre(points, samples, minInput);
  }

  lemma Five(m: nat, loss: nat, k: nat)
    requires k + 2000004 <= U64_MAX && 2000004 * m + loss <= U64_MAX
    ensures |LinePoints(m, loss, k)| == 5 && |LineSamples(m, loss, k)| == 5
  {}

  /** Merging lifts the two pairs by what four nanos of input buy. */
  function LineMerged(m: nat, loss: nat, k: nat): seq<Sample>
    requires k + 2000004 <= U64_MAX && 2000004 * m + loss <= U64_MAX
  {
    [Sample(k, loss + 4 * m), Sample(k + 1000000, 1000000 * m), Sample(k + 2000000, loss + 2000004 * m)]
  }

  lemma LineMerges(m: nat, loss: nat, k: nat)
    requires k + 2000004 <= U64_MAX && 2000004 * m + loss <= U64_MAX
    ensures Merges(Elements(LineSamples(m, loss, k)), LineMerged(m, loss, k))
  {
    LineCovered(m, loss, k);
    LineGrounded(m, loss, k);
    LineApart(m, loss, k);
    hide Covered, Grounded, Apart, LineSamples, LineMerged, Elements;
  }

  lemma LineApart(m: nat, loss: nat, k: nat)
    requires k + 2000004 <= U64_MAX && 2000004 * m + loss <= U64_MAX
    ensures Apart(LineMerged(m, loss, k))
  {}

  lemma LineCovered(m: nat, loss: nat, k: nat)
    requires k + 2000004 <= U64_MAX && 2000004 * m + loss <= U64_MAX
    ensures forall e :: e in Elements(LineSamples(m, loss, k)) ==> Covered(LineMerged(m, loss, k), e)
  {
    var s, c := LineSamples(m, loss, k), LineMerged(m, loss, k);
    assert InGroup(c[0], s[0]) && InGroup(c[0], s[1]) && InGroup(c[1], s[2]) && InGroup(c[2], s[3]) &&
           InGroup(c[2], s[4]);
    hide InGroup;
    assert Covered(c, s[0]) && Covered(c, s[1]) && Covered(c, s[2]) && Covered(c, s[3]) && Covered(c, s[4]);
  }

  lemma LineGrounded(m: nat, loss: nat, k: nat)
    requires k + 2000004 <= U64_MAX && 2000004 * m + loss <= U64_MAX
    ensures forall i :: 0 <= i < |LineMerged(m, loss, k)| ==>
      Grounded(Elements(LineSamples(m, loss, k)), LineMerged(m, loss, k)[i])
  {
    var s, c := LineSamples(m, loss, k), LineMerged(m, loss, k);
    var samples := Elements(s);
    assert s[0] in samples && s[1] in samples && s[2] in samples && s[3] in samples && s[4] in samples;
    hide Elements;
    assert Grounded(samples, c[0]) && Grounded(samples, c[1]) && Grounded(samples, c[2]);
  }

  /** The two lifts bend the merged line by `8 m + 2 loss`, more than the slack of the slope test once `4 m + loss`
      exceeds the uncertainty, unless the lift is already so large that the first pair drops. */
  lemma LineIsBent(m: nat, loss: nat, k: nat) returns (v: Verdict)
    requires k + 2000004 <= U64_MAX && 2000004 * m + loss + UNCERTAINTY <= U64_MAX && 4 * m + loss > 4
    ensures Judges(LineMerged(m, loss, k), v) && !v.Fine?
    ensures loss <= 4 ==> v == NotConcave(0, 1)
  {
    var c := LineMerged(m, loss, k);
    if Drops(c, 0) {
      v := NotMonotone(0);
    } else {
      v := NotConcave(0, 1);
      assert Rises(c, 0, 1);
      assert RisesAt(c, 0, 1);
    }
  }

  lemma SteepLineIsRefused(m: nat, loss: nat, minInput: real) returns (base: int, points: seq<(real, real)>, v: Verdict)
    requires ToNano(minInput) + 2000005 <= U64_MAX && 2000004 * m + loss + UNCERTAINTY <= U64_MAX && 4 * m + loss > 4
    ensures forall s :: s in KeptSet(points, minInput) ==> OnLine(m, base, loss, s)
    ensures Judged(points, minInput, v) && !v.Fine?
    ensures loss <= 4 ==> v == NotConcave(0, 1)
  {
    hide KeptSet, LinePoints, LineMerged, Judged;
    var k := ToNano(minInput) + 1;
    base, points := loss - m * k, LinePoints(m, loss, k);
    LineKept(m, loss, k, minInput);
    hide LineSamples, OnLine;
    LineSamplesOnLine(m, loss, k, base);
    hide Elements;
    LineMerges(m, loss, k);
    v := LineIsBent(m, loss, k);
    JudgedBy(points, minInput, LineMerged(m, loss, k), v);
  }

  lemma LineSamplesOnLine(m: nat, loss: nat, k: nat, base: int)
    requires k + 2000004 <= U64_MAX && 2000004 * m + loss + UNCERTAINTY <= U64_MAX && base == loss - m * k
    ensures forall s :: s in Elements(LineSamples(m, loss, k)) ==> OnLine(m, base, loss, s)
  {
    var s := LineSamples(m, loss, k);
    OffsetOnLine(m, loss, k, base, 0, 0, s[0]);
    OffsetOnLine(m, loss, k, base, 4, 4 * m, s[1]);
    OffsetOnLine(m, loss, k, base, 1000000, 1000000 * m, s[2]);
    OffsetOnLine(m, loss, k, base, 2000000, 2000000 * m, s[3]);
    OffsetOnLine(m, loss, k, base, 2000004, 2000004 * m, s[4]);
    hide OnLine;
  }

  lemma OffsetOnLine(m: nat, loss: nat, k: nat, base: int, d: nat, rise: nat, s: Sample)
    requires base == loss - m * k && rise == m * d && s.input == k + d
    requires rise <= s.output <= loss + rise && s.output + UNCERTAINTY <= U64_MAX
    ensures OnLine(m, base, loss, s)
  {
    assert m * (k + d) == m * k + rise;
  }

  /** Samples at most `loss` nanos below some line of whole slope `m` are accepted, however close their inputs and
      whichever the line, exactly when `4 m + loss` is within the uncertainty; so samples exactly on a line are
      accepted exactly up to slope one. Two steps of the slope check must fit below saturation. */
  lemma LinesAcceptedExactly(m: nat, loss: nat, minInput: real)
    requires ToNano(minInput) + 2000005 <= U64_MAX && 2000004 * m + loss + UNCERTAINTY <= U64_MAX
    ensures (forall base: int, points: seq<(real, real)>, v: Verdict ::
               LineAccepted(m, base, loss, points, minInput, v))
       <==> 4 * m + loss <= UNCERTAINTY
  {
    if 4 * m + loss <= 4 {
      forall base: int, points: seq<(real, real)>, v: Verdict ensures LineAccepted(m, base, loss, points, minInput, v) {
        FlatLinesAreAccepted(m, base, loss, points, minInput, v);
      }
    } else {
      hide OnLine, KeptSet, Judged;
      var base, points, v := SteepLineIsRefused(m, loss, minInput);
      assert !LineAccepted(m, base, loss, points, minInput, v);
    }
  }
}
