/** A constant-product pool's real quotes, as a search sees them: a concave curve seen with a small error. */
module PoolCurve {
  import opened Reals
  import opened Codec
  import opened Nano
  import opened PoolModel
  import opened NormalizerPool
  import opened CurveBand
  import ConstantProduct

  /** The part of an input the state's fee leaves. */
  function Kept(st: PoolState): real { (10000 - FeeOf(st)) as real / 10000.0 }

  /** The curve through two floored reserves. */
  function FlooredCurve(rin: real, rout: real, g: real): real -> real
    requires ToNano(rin) > 0 && 0.0 <= g
  {
    Curve(FromNano(ToNano(rin)), FromNano(ToNano(rout)), g)
  }

  /** One nano for the output, and two nanos of input at the pool's price. */
  function QuoteNoise(rin: real, rout: real): (eps: real)
    requires ToNano(rin) > 0
    ensures 0.0 < eps
  {
    (1.0 + 2.0 * ToNano(rout) as real / ToNano(rin) as real) / 1000000000.0
  }

  /** The price two floored reserves stand for. */
  function PoolPrice(rin: real, rout: real): (price: real)
    requires ToNano(rin) > 0
    ensures 0.0 <= price && price * ToNano(rin) as real == ToNano(rout) as real
  {
    ToNano(rout) as real / ToNano(rin) as real
  }

  lemma NoiseOfPrice(rin: real, rout: real)
    requires ToNano(rin) > 0
    ensures QuoteNoise(rin, rout) == (1.0 + 2.0 * PoolPrice(rin, rout)) / 1000000000.0
  {
    Doubled(ToNano(rin) as real, ToNano(rout) as real);
  }

  lemma Doubled(a: real, b: real)
    requires 0.0 < a
    ensures 2.0 * b / a == 2.0 * (b / a)
  {}

  /** From nanos to units: the band of the integer quote around the curve. */
  lemma BandInUnits(a: nat, b: nat, o: nat, x: real, g: real, e: real, f: real)
    requires 0 < a && 0.0 <= g && 0.0 <= x
    requires o as real * (a as real + g * (x * 1000000000.0)) <= b as real * (g * (x * 1000000000.0))
    requires b as real * (g * (x * 1000000000.0)) <= (o as real + 1.0 + e) * (a as real + g * (x * 1000000000.0))
    requires f * (a as real / 1000000000.0 + g * x) == (b as real / 1000000000.0) * (g * x)
    ensures o as real / 1000000000.0 <= f <= o as real / 1000000000.0 + (1.0 + e) / 1000000000.0
  {
    var s := 1000000000.0;
    NonNegative(g, x);
    ScaledBand(a as real / s, b as real / s, o as real / s, g * x, (1.0 + e) / s, f, s);
  }

  lemma ScaledBand(a: real, b: real, o: real, n: real, e: real, f: real, s: real)
    requires 0.0 < a && 0.0 <= n && 0.0 < s && f * (a + n) == b * n
    requires (o * s) * (a * s + n * s) <= (b * s) * (n * s) <= (o * s + e * s) * (a * s + n * s)
    ensures o <= f <= o + e
  {
  }

  /** Both reserves hold at least a nano, so the pool quotes. */
  ghost predicate Quoting(st: PoolState) {
    Configured(st) && ToNano(st.x) > 0 && ToNano(st.y) > 0
  }

  lemma QuoteIsObserved(rin: real, rout: real, x: real, keep: nat, g: real, o: nat)
    requires ToNano(rin) > 0 && keep <= 10000 && g * 10000.0 == keep as real && 0.0 <= g
    requires 0.0 < x && x * 1000000000.0 < 18446744073709551616.0
    requires o == ConstantProduct.Quote(ToNano(rin), ToNano(rout), ToNano(x), keep, 10000)
    ensures var f := FlooredCurve(rin, rout, g)(x); var q := o as real / 1000000000.0;
            f - QuoteNoise(rin, rout) <= q <= f
  {
    hide ConstantProduct.Quote;
    var a, b, i := ToNano(rin), ToNano(rout), ToNano(x);
    NanoTruncates(x);
    var e := 2.0 * b as real / a as real;
    QuoteInBand(a, b, i, x * 1000000000.0, keep, g, e);
    CurveTimes(FromNano(a), FromNano(b), g, x);
    hide ToNano, Curve;
    BandInUnits(a, b, o, x, g, e, Curve(FromNano(a), FromNano(b), g)(x));
  }

  /** A normalizer's buy quotes are its curve seen with the quote's noise. */
  lemma BuyIsObserved(p: Program, st: PoolState, x: real)
    requires IsNormalizer(p) && Quoting(st) && 0.0 <= x && x * 1000000000.0 < 18446744073709551616.0
    ensures var f := FlooredCurve(st.y, st.x, Kept(st))(x);
            f - QuoteNoise(st.y, st.x) <= QuoteBuyX(p, st, x) <= f
  {
    hide NativeFn;
    if 0.0 < x {
      var o := QuoteIsNanos(p, st, 0, x);
      hide Quoted, IsNormalizer, Configured;
      QuoteIsObserved(st.y, st.x, x, 10000 - FeeOf(st), Kept(st), o);
    }
  }

  lemma SellIsObserved(p: Program, st: PoolState, x: real)
    requires IsNormalizer(p) && Quoting(st) && 0.0 <= x && x * 1000000000.0 < 18446744073709551616.0
    ensures var f := FlooredCurve(st.x, st.y, Kept(st))(x);
            f - QuoteNoise(st.x, st.y) <= QuoteSellX(p, st, x) <= f
  {
    hide NativeFn;
    if 0.0 < x {
      var o := QuoteIsNanos(p, st, 1, x);
      hide Quoted, IsNormalizer, Configured;
      QuoteIsObserved(st.x, st.y, x, 10000 - FeeOf(st), Kept(st), o);
    }
  }

  /** A quote in range is never refused: it is the integer quote in units. */
  lemma QuoteIsNanos(p: Program, st: PoolState, side: byte, x: real) returns (o: nat)
    requires IsNormalizer(p) && Quoting(st) && 0.0 < x && side <= 1
    ensures FeeOf(st) <= 10000
    ensures o == CurveQuote(st, side, ToNano(x), ToNano(st.x), ToNano(st.y))
    ensures o as real / 1000000000.0 == if side == 0 then QuoteBuyX(p, st, x) else QuoteSellX(p, st, x)
  {
    hide NativeFn, SwapInstruction, FeeOf, ConstantProduct.Quote;
    QuoteIsCurve(st, side, ToNano(x), ToNano(st.x), ToNano(st.y));
    QuoteBelowFloor(st, side, ToNano(x), ToNano(st.x), ToNano(st.y));
    NanoNeverGains(st.x);
    NanoNeverGains(st.y);
    o := p.swap(SwapInstruction(side, ToNano(x), ToNano(st.x), ToNano(st.y), st.storage));
  }
}
