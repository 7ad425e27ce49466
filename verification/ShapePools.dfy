/** Constant-product pools at the runtime shape check. */
module ShapePools {
  import opened Words
  import opened Reals
  import opened Concavity
  import opened Nano
  import opened PoolModel
  import opened NormalizerPool
  import opened PoolCurve
  import opened Arbitrage
  import opened ShapeCheck
  import opened ShapeGuarantee
  import ConstantProduct
  import CurveBand

  /** The part of an input a fee of `keep` out of ten thousand leaves. */
  function Part(keep: nat): real { keep as real / 10000.0 }

  function NanoCurve(a: nat, b: nat, keep: nat): real -> real
    requires 0 < a
  {
    CurveBand.Curve(a as real, b as real, Part(keep))
  }

  /** Four nanos more of input buy at most four nanos at the pool's price. */
  lemma FourNanosMore(rin: real, rout: real, g: real, x: real, y: real)
    requires 0.0 < rin && 0.0 <= rout && 0.0 <= g <= 1.0 && 0.0 <= x && y == x + 4.0
    ensures (CurveBand.Curve(rin, rout, g)(y) - CurveBand.Curve(rin, rout, g)(x)) * rin <= 4.0 * rout
  {
    hide CurveBand.Curve;
    CurveBand.CurveTimes(rin, rout, g, x);
    CurveBand.CurveTimes(rin, rout, g, y);
    CurveBand.CurveRises(rin, rout, g, x, y);
    CurveBand.CurveBelowPrice(rin, rout, g, y);
    NonNegative(g, x);
    var nx, ny, fx, fy := g * x, g * y, CurveBand.Curve(rin, rout, g)(x), CurveBand.Curve(rin, rout, g)(y);
    GrowthOfFour(rin, rout, g, x, y, nx, ny, fx, fy);
  }

  lemma GrowthOfFour(rin: real, rout: real, g: real, x: real, y: real, nx: real, ny: real, fx: real, fy: real)
    requires 0.0 < rin && 0.0 <= rout && 0.0 <= g <= 1.0 && 0.0 <= fy && fx <= fy
    requires y == x + 4.0 && nx == g * x && ny == g * y && 0.0 <= nx
    requires fx * (rin + nx) == rout * nx && fy * (rin + ny) == rout * ny
    ensures (fy - fx) * rin <= 4.0 * rout
  {
    assert ny == nx + 4.0 * g;
    NonNegative(fy - fx, nx);
    NonNegative(g, fy);
    Scale(g, 1.0, rout);
    assert (fy - fx) * (rin + nx) == 4.0 * (g * rout) - 4.0 * (g * fy);
  }

  /** The integer quote of a whole input, as a sample of its curve. */
  lemma QuoteIsBelowCurve(a: nat, b: nat, i: nat, keep: nat, loss: real)
    requires 0 < a && keep <= 10000 && loss * a as real == a as real + 2.0 * b as real
    ensures var o := ConstantProduct.Quote(a, b, i, keep, 10000) as real; var f := NanoCurve(a, b, keep)(i as real);
            f - loss <= o <= f
  {
    hide ConstantProduct.Quote;
    var g, o := Part(keep), ConstantProduct.Quote(a, b, i, keep, 10000) as real;
    CurveBand.QuoteInBand(a, b, i, i as real, keep, g, loss - 1.0);
    CurveBand.CurveTimes(a as real, b as real, g, i as real);
    hide CurveBand.Curve, Part;
    NonNegative(g, i as real);
    Between(a as real + g * i as real, o, loss, NanoCurve(a, b, keep)(i as real));
  }

  lemma Between(u: real, o: real, loss: real, f: real)
    requires 0.0 < u && o * u <= f * u <= (o + loss) * u
    ensures f - loss <= o <= f
  {
    Cancel(u, o, f);
    Cancel(u, f, o + loss);
  }

  /** Any samples of a constant-product curve whose price is at most a half are accepted, however close their inputs. */
  lemma CheapSideIsAccepted(a: nat, b: nat, keep: nat, points: seq<(real, real)>, minInput: real, v: Verdict)
    requires 0 < a && 2 * b <= a && b + UNCERTAINTY <= U64_MAX && keep <= 10000 && Judged(points, minInput, v)
    requires forall s :: s in KeptSet(points, minInput) ==>
             s.output == ConstantProduct.Quote(a, b, s.input, keep, 10000)
    ensures v.Fine?
  {
    hide Judged, KeptSet, ConstantProduct.Quote, NanoCurve, BelowCurve, Concave, Rising, FlatAt;
    var f, top := NanoCurve(a, b, keep), U64_MAX as real;
    var loss := (a as real + 2.0 * b as real) / a as real;
    CurveIsSmooth(a, b, keep, top + 4.0);
    forall x | 0.0 <= x <= top ensures FlatAt(f, loss, x) {
      CurveIsFlat(a, b, keep, loss, x);
    }
    forall s | s in KeptSet(points, minInput) ensures BelowCurve(f, 0.0, top, loss, s) {
      SampleIsBelow(a, b, keep, loss, s);
    }
    FlatSamplesAreAccepted(f, 0.0, top, loss, points, minInput, v);
  }

  lemma CurveIsSmooth(a: nat, b: nat, keep: nat, top: real)
    requires 0 < a && keep <= 10000
    ensures Concave(NanoCurve(a, b, keep), 0.0, top) && Rising(NanoCurve(a, b, keep), 0.0, top)
  {
    var g := Part(keep);
    CurveBand.CurveIsConcave(a as real, b as real, g, top);
    hide Concave;
    forall x, y | 0.0 <= x <= y <= top ensures NanoCurve(a, b, keep)(x) <= NanoCurve(a, b, keep)(y) {
      CurveBand.CurveRises(a as real, b as real, g, x, y);
    }
  }

  lemma CurveIsFlat(a: nat, b: nat, keep: nat, loss: real, x: real)
    requires 0 < a && 2 * b <= a && keep <= 10000 && 0.0 <= x && loss * a as real == a as real + 2.0 * b as real
    ensures FlatAt(NanoCurve(a, b, keep), loss, x)
  {
    var f, r := NanoCurve(a, b, keep), a as real;
    FourNanosMore(r, b as real, Part(keep), x, x + 4.0);
    hide CurveBand.Curve, Part;
    FlatEnough(r, b as real, loss, f(x + 4.0) - f(x));
  }

  lemma FlatEnough(a: real, b: real, loss: real, d: real)
    requires 0.0 < a && 2.0 * b <= a && loss * a == a + 2.0 * b && d * a <= 4.0 * b
    ensures d + loss <= 4.0
  {
    var t := d + loss;
    assert t * a == d * a + loss * a;
    Cancel(a, t, 4.0);
  }

  lemma SampleIsBelow(a: nat, b: nat, keep: nat, loss: real, s: Sample)
    requires 0 < a && keep <= 10000 && b + UNCERTAINTY <= U64_MAX && loss * a as real == a as real + 2.0 * b as real
    requires s.output == ConstantProduct.Quote(a, b, s.input, keep, 10000)
    ensures BelowCurve(NanoCurve(a, b, keep), 0.0, U64_MAX as real, loss, s)
  {
    hide ConstantProduct.Quote, NanoCurve;
    QuoteIsBelowCurve(a, b, s.input, keep, loss);
    ConstantProduct.QuoteBelowReserve(a, b, s.input, keep, 10000);
  }

  /** A constant-product submission is never stopped for the X it sells, once X is worth at least two Y: whatever sizes
      the buy search asks for. */
  lemma BuysPassTheCheck(p: Program, st: PoolState, sizes: seq<real>, minInput: real, v: Verdict)
    requires IsNormalizer(p) && Quoting(st) && 2 * ToNano(st.x) <= ToNano(st.y) && ToNano(st.x) + UNCERTAINTY <= U64_MAX
    requires Judged(BuyCurve(p, st, sizes), minInput, v)
    ensures v.Fine?
  {
    hide Judged, IsNormalizer, ConstantProduct.Quote, FeeOf, KeptSet;
    var a, b, keep := ToNano(st.y), ToNano(st.x), 10000 - FeeOf(st);
    forall s | s in KeptSet(BuyCurve(p, st, sizes), minInput)
      ensures s.output == ConstantProduct.Quote(a, b, s.input, keep, 10000)
    {
      BuySampleIsQuote(p, st, sizes, minInput, s);
    }
    CheapSideIsAccepted(a, b, keep, BuyCurve(p, st, sizes), minInput, v);
  }

  lemma BuySampleIsQuote(p: Program, st: PoolState, sizes: seq<real>, minInput: real, s: Sample)
    requires IsNormalizer(p) && Quoting(st) && s in KeptSet(BuyCurve(p, st, sizes), minInput)
    ensures FeeOf(st) <= 10000
    ensures s.output == ConstantProduct.Quote(ToNano(st.y), ToNano(st.x), s.input, 10000 - FeeOf(st), 10000)
  {
    hide IsNormalizer, ConstantProduct.Quote, FeeOf, QuoteBuyX, ToNano;
    var y := AskedSize(p, st, sizes, minInput, s);
    PositiveNanos(y);
    var o := QuoteIsNanos(p, st, 0, y);
    BuyIsWhole(st, y, o);
  }

  lemma AskedSize(p: Program, st: PoolState, sizes: seq<real>, minInput: real, s: Sample) returns (y: real)
    requires s in KeptSet(BuyCurve(p, st, sizes), minInput)
    ensures y in sizes && ToNano(y) > 0 && s == Sample(ToNano(y), ToNano(QuoteBuyX(p, st, y)))
  {
    hide QuoteBuyX, ToNano;
    var points := BuyCurve(p, st, sizes);
    var q :| q in points && Keeps(q, minInput) && s == ToSample(q);
    var i :| 0 <= i < |points| && points[i] == q;
    y := sizes[i];
  }

  lemma PositiveNanos(y: real)
    requires ToNano(y) > 0
    ensures 0.0 < y
  {}

  lemma BuyIsWhole(st: PoolState, y: real, o: nat)
    requires FeeOf(st) <= 10000 && ToNano(st.x) > 0 && ToNano(st.y) > 0
    requires o == CurveQuote(st, 0, ToNano(y), ToNano(st.x), ToNano(st.y))
    ensures ToNano(o as real / 1000000000.0) == o
  {
    hide FeeOf, ConstantProduct.Quote;
    CurveQuoteBelowReserve(st, 0, ToNano(y), ToNano(st.x), ToNano(st.y));
    NanoRoundTrip(o);
  }

  // ----- A deep pool the check stops -----

  /** Three samples of a pool of a million X and a hundred million Y, more than the merging distance apart. */
  function DeepSamples(): seq<Sample> {
    [Sample(692687310, 69060877105), Sample(693687366, 69160582468), Sample(694687542, 69260299930)]
  }

  /** Selling at a hundred Y for one X, flooring the net input costs a hundred nanos of output at a time; in a pool so
      deep that its curve hardly bends over a step this alone is reported as not concave, at the usual 30 basis
      points. */
  lemma DeepSellsAreStopped()
    ensures forall s :: s in DeepSamples() ==>
      s.output == ConstantProduct.Quote(1000000000000000, 100000000000000000, s.input, 9970, 10000)
    ensures Apart(DeepSamples()) && Judges(DeepSamples(), NotConcave(0, 1))
  {
    DeepQuote(692687310, 690609248, 69060877105);
    DeepQuote(693687366, 691606303, 69160582468);
    DeepQuote(694687542, 692603479, 69260299930);
    hide ConstantProduct.Quote;
    DeepRises();
    hide Judges, Apart;
  }

  lemma DeepRises()
    ensures Apart(DeepSamples()) && Judges(DeepSamples(), NotConcave(0, 1))
  {
    var c := DeepSamples();
    assert Rises(c, 0, 1);
    assert RisesAt(c, 0, 1);
  }

  lemma DeepQuote(i: nat, n: nat, o: nat)
    requires 10000 * n <= i * 9970 < 10000 * (n + 1) && o + 1 <= 100000000000000000
    requires var k := 100000000000000000000000000000000;
             && (1000000000000000 + n) * (100000000000000000 - (o + 1)) < k
             && k <= (1000000000000000 + n) * (100000000000000000 - o)
    ensures ConstantProduct.Quote(1000000000000000, 100000000000000000, i, 9970, 10000) == o
  {
    var rin, rout := 1000000000000000, 100000000000000000;
    assert ConstantProduct.Net(i, 9970, 10000) == n;
    hide ConstantProduct.Net, ConstantProduct.Output;
    ConstantProduct.OutputIsLargest(rin, rout, n, o);
    ConstantProduct.OutputIsLargest(rin, rout, n, o + 1);
  }
}
