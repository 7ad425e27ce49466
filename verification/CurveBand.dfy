/** The integer quote against the concave curve it truncates. */
module CurveBand {
  import opened Reals
  import opened Concavity
  import opened ClosedForm
  import ConstantProduct

  /** The curve of a constant-product pool, zero up to the origin. */
  function Curve(rin: real, rout: real, g: real): real -> real
    requires 0.0 < rin && 0.0 <= g
  {
    x => if x <= 0.0 then 0.0 else Payout(rin, rout, g, x)
  }

  lemma CurveTimes(rin: real, rout: real, g: real, x: real)
    requires 0.0 < rin && 0.0 <= g && 0.0 <= x
    ensures 0.0 < rin + g * x && Curve(rin, rout, g)(x) * (rin + g * x) == rout * (g * x)
  {
    NonNegative(g, x);
  }

  /** What the curve keeps back: `rout - Curve(x)`, in proportion to `1 / (rin + g * x)`. */
  lemma InverseIsConvex(u: real, v: real, w: real, p: real, q: real, ku: real, kv: real, kw: real, a: real)
    requires 0.0 < u <= v <= w && 0.0 <= a && 0.0 <= p && 0.0 <= q
    requires ku * u == a && kv * v == a && kw * w == a
    requires q * (v - u) == p * (w - v)
    ensures (p + q) * kv <= q * ku + p * kw
  {
  }

  lemma KeptBack(rin: real, rout: real, u: real, net: real, f: real)
    requires u == rin + net && f * u == rout * net
    ensures (rout - f) * u == rout * rin
  {}

  lemma CurveChord(rin: real, rout: real, g: real, x: real, y: real, z: real)
    requires 0.0 < rin && 0.0 <= rout && 0.0 <= g && 0.0 <= x < y < z
    ensures Chord(Curve(rin, rout, g), x, y, z)
  {
    var f := Curve(rin, rout, g);
    CurveTimes(rin, rout, g, x);
    CurveTimes(rin, rout, g, y);
    CurveTimes(rin, rout, g, z);
    hide Curve;
    ChordOfValues(rin, rout, g, x, y, z, f(x), f(y), f(z));
  }

  lemma ChordOfValues(rin: real, rout: real, g: real, x: real, y: real, z: real, fx: real, fy: real, fz: real)
    requires 0.0 < rin && 0.0 <= rout && 0.0 <= g && 0.0 <= x < y < z
    requires fx * (rin + g * x) == rout * (g * x) && fy * (rin + g * y) == rout * (g * y)
          && fz * (rin + g * z) == rout * (g * z)
    ensures (z - x) * fy >= (z - y) * fx + (y - x) * fz
  {
    var u, v, w := rin + g * x, rin + g * y, rin + g * z;
    KeptBack(rin, rout, u, g * x, fx);
    KeptBack(rin, rout, v, g * y, fy);
    KeptBack(rin, rout, w, g * z, fz);
    NonNegative(rout, rin);
    NetsInOrder(rin, g, x, y, z, u, v, w);
    InverseIsConvex(u, v, w, y - x, z - y, rout - fx, rout - fy, rout - fz, rout * rin);
    Complement(z - y, y - x, rout, fx, fy, fz);
  }

  lemma NetsInOrder(rin: real, g: real, x: real, y: real, z: real, u: real, v: real, w: real)
    requires 0.0 < rin && 0.0 <= g && 0.0 <= x < y < z && u == rin + g * x && v == rin + g * y && w == rin + g * z
    ensures 0.0 < u <= v <= w && (z - y) * (v - u) == (y - x) * (w - v)
  {
    NonNegative(g, x);
    NonNegative(g, y - x);
    NonNegative(g, z - y);
  }

  lemma Complement(q: real, p: real, rout: real, fx: real, fy: real, fz: real)
    requires (p + q) * (rout - fy) <= q * (rout - fx) + p * (rout - fz)
    ensures (p + q) * fy >= q * fx + p * fz
  {}

  lemma CurveIsConcave(rin: real, rout: real, g: real, top: real)
    requires 0.0 < rin && 0.0 <= rout && 0.0 <= g
    ensures Concave(Curve(rin, rout, g), 0.0, top) && Curve(rin, rout, g)(0.0) == 0.0
  {
    forall x, y, z | 0.0 <= x < y < z <= top ensures Chord(Curve(rin, rout, g), x, y, z) {
      CurveChord(rin, rout, g, x, y, z);
    }
  }

  /** A larger input is paid at least as much. */
  lemma CurveRises(rin: real, rout: real, g: real, x: real, y: real)
    requires 0.0 < rin && 0.0 <= rout && 0.0 <= g && 0.0 <= x <= y
    ensures Curve(rin, rout, g)(x) <= Curve(rin, rout, g)(y)
  {
    var f := Curve(rin, rout, g);
    CurveTimes(rin, rout, g, x);
    CurveTimes(rin, rout, g, y);
    hide Curve;
    KeptBack(rin, rout, rin + g * x, g * x, f(x));
    KeptBack(rin, rout, rin + g * y, g * y, f(y));
    NonNegative(rout, rin);
    NonNegative(g, x);
    Scale(x, y, g);
    KeptBackFalls(rin + g * x, rin + g * y, rout - f(x), rout - f(y), rout * rin);
  }

  lemma KeptBackFalls(u: real, v: real, ku: real, kv: real, a: real)
    requires 0.0 < u <= v && 0.0 <= a && ku * u == a && kv * v == a
    ensures kv <= ku
  {
    Cancel(v, 0.0, kv);
    Scale(u, v, kv);
    Cancel(u, kv, ku);
  }

  /** The curve pays at most the pool's price, whatever the size. */
  lemma CurveBelowPrice(rin: real, rout: real, g: real, x: real)
    requires 0.0 < rin && 0.0 <= rout && 0.0 <= g <= 1.0 && 0.0 <= x
    ensures 0.0 <= Curve(rin, rout, g)(x) && Curve(rin, rout, g)(x) * rin <= rout * x
  {
    CurveTimes(rin, rout, g, x);
    var f := Curve(rin, rout, g)(x);
    hide Curve;
    NonNegative(g, x);
    PriceBound(rin, rout, g * x, f, x, g);
  }

  lemma PriceBound(rin: real, rout: real, net: real, f: real, x: real, g: real)
    requires 0.0 < rin && 0.0 <= rout && 0.0 <= net == g * x && 0.0 <= x && g <= 1.0 && f * (rin + net) == rout * net
    ensures 0.0 <= f && f * rin <= rout * x
  {
    NonNegative(rout, net);
    Cancel(rin + net, 0.0, f);
    NonNegative(f, net);
    Scale(g, 1.0, x);
    Scale(net, x, rout);
  }

  // ----- The integer quote -----

  lemma CastOrder(m: nat, n: nat, p: nat, q: nat)
    requires m * n <= p * q
    ensures m as real * n as real <= p as real * q as real
  {
    Cast(m, n);
    Cast(p, q);
  }

  lemma CastStrict(m: nat, n: nat, p: nat, q: nat)
    requires m * n < p * q
    ensures m as real * n as real < p as real * q as real
  {
    Cast(m, n);
    Cast(p, q);
  }

  /** In nanos: the integer quote of a floored input lies at most `1 + 2 b / a` below the curve through the same
      reserves, and never above it. */
  lemma QuoteInBand(a: nat, b: nat, i: nat, x: real, keep: nat, g: real, e: real)
    requires 0 < a && keep <= 10000 && g * 10000.0 == keep as real
    requires i as real <= x < i as real + 1.0 && e * a as real == 2.0 * b as real
    ensures var o := ConstantProduct.Quote(a, b, i, keep, 10000) as real;
            && 0.0 <= o && 0.0 <= g <= 1.0
            && o * (a as real + g * x) <= b as real * (g * x) <= (o + 1.0 + e) * (a as real + g * x)
  {
    hide ConstantProduct.Quote;
    var n, o := QuoteFacts(a, b, i, keep);
    NetOfReal(n, i, x, keep, g);
    UpperBand(a as real, b as real, n, g * x, o);
    LowerBand(a as real, b as real, n, g * x, o, e);
  }

  lemma WholeFacts(a: nat, b: nat, i: nat, keep: nat) returns (n: nat, o: nat)
    requires 0 < a && keep <= 10000
    ensures o == ConstantProduct.Quote(a, b, i, keep, 10000) <= b
    ensures n * 10000 <= i * keep < (n + 1) * 10000
    ensures o * (a + n) <= b * n <= (o + 1) * (a + n)
  {
    n := ConstantProduct.Net(i, keep, 10000);
    o := ConstantProduct.Quote(a, b, i, keep, 10000);
    ConstantProduct.DivSandwich(i * keep, 10000);
    ConstantProduct.OutputBelowReserve(a, b, n);
    if o < b {
      ConstantProduct.OutputIsLargest(a, b, n, o + 1);
    }
    hide ConstantProduct.Quote, ConstantProduct.Net;
    OutputShares(a, b, n, o);
  }

  lemma QuoteFacts(a: nat, b: nat, i: nat, keep: nat) returns (n: real, o: real)
    requires 0 < a && keep <= 10000
    ensures o == ConstantProduct.Quote(a, b, i, keep, 10000) as real && 0.0 <= o <= b as real && 0.0 <= n
    ensures n * 10000.0 <= i as real * keep as real < (n + 1.0) * 10000.0
    ensures o * (a as real + n) <= b as real * n <= (o + 1.0) * (a as real + n)
  {
    hide ConstantProduct.Quote;
    var net, out := WholeFacts(a, b, i, keep);
    n, o := net as real, out as real;
    CastOrder(net, 10000, i, keep);
    CastStrict(i, keep, net + 1, 10000);
    CastOrder(out, a + net, b, net);
    CastOrder(b, net, out + 1, a + net);
  }

  lemma OutputShares(a: nat, b: nat, n: nat, o: nat)
    requires 0 < a && o <= b && a * b <= (a + n) * (b - o) && (o < b ==> a * b > (a + n) * (b - (o + 1)))
    ensures o * (a + n) <= b * n <= (o + 1) * (a + n)
  {}

  lemma NetOfReal(n: real, i: nat, x: real, keep: nat, g: real)
    requires keep <= 10000 && g * 10000.0 == keep as real && i as real <= x < i as real + 1.0
    requires n * 10000.0 <= i as real * keep as real < (n + 1.0) * 10000.0
    ensures 0.0 <= g <= 1.0 && n <= g * x <= n + 2.0
  {
    Scale(i as real, x, g);
    Scale(x, i as real + 1.0, g);
  }

  lemma UpperBand(a: real, b: real, n: real, net: real, o: real)
    requires 0.0 < a && 0.0 <= o <= b && n <= net && o * (a + n) <= b * n
    ensures o * (a + net) <= b * net
  {
    NonNegative(b - o, net - n);
  }

  lemma LowerBand(a: real, b: real, n: real, net: real, o: real, e: real)
    requires 0.0 < a && 0.0 <= o && 0.0 <= b && 0.0 <= n <= net <= n + 2.0 && b * n <= (o + 1.0) * (a + n)
    requires e * a == 2.0 * b
    ensures b * net <= (o + 1.0 + e) * (a + net)
  {
    assert 0.0 <= e by { Cancel(a, 0.0, e); }
    NonNegative(o + 1.0, net - n);
    NonNegative(e, net);
    NonNegative(b, n + 2.0 - net);
  }
}
