/** How deep a constant-product pool may be before the runtime shape check mistakes its floors for a bend. */
module ShapeDepth {
  import opened Words
  import opened Reals
  import opened Nano
  import opened PoolModel
  import opened NormalizerPool
  import opened PoolCurve
  import opened Arbitrage
  import opened ShapeCheck
  import opened ShapeGuarantee
  import ConstantProduct
  import ShapePools

  // ----- Slopes of a shallow pool -----

  /** From net reserves `a` to `b` and `c` to `d`, over input steps `dxj` and `dxi`, the net steps fall in proportion to
      the far reserves. */
  ghost predicate InStep(a: real, b: real, c: real, d: real, dxj: real, dxi: real) {
    (d - c) * dxj * a <= (b - a) * dxi * d
  }

  /** `r` is `k / u` rounded up. */
  ghost predicate RestNear(k: real, u: real, r: real) { k <= r * u && (r - 1.0) * u <= k }

  /** `u` is the reserve `a` and the part `h` of an input at most `w` above `x`, floored. */
  ghost predicate NetNear(h: real, a: real, w: real, x: real, u: real) { h * x - 1.0 <= u - a <= h * x + w }

  /** Two wide segments of `k / reserve`, from net reserves `a` to `b` and `c` to `d`: when the net steps fall in
      proportion, so do the outputs, and the rounding stays within the slack. */
  lemma SlopeKept(k: real, r1: real, r2: real, r3: real, r4: real, a: real, b: real, c: real, d: real, dxj: real,
                  dxi: real)
    requires 0.0 <= k && 0.0 < a <= b <= c <= d && 0.0 < dxj && 0.0 < dxi
    requires RestNear(k, a, r1) && RestNear(k, b, r2) && RestNear(k, c, r3) && RestNear(k, d, r4)
    requires InStep(a, b, c, d, dxj, dxi)
    ensures (r3 - r4 - 4.0) * dxj <= (r1 - r2 + 4.0) * dxi
  {
    hide Share, InStep, RestNear;
    var ka, kb, kc, kd := Share(k, a), Share(k, b), Share(k, c), Share(k, d);
    ExactSlopes(k, ka, kb, kc, kd, a, b, c, d, dxj, dxi);
    RestBounds(k, a, r1, ka);
    RestBounds(k, b, r2, kb);
    RestBounds(k, c, r3, kc);
    RestBounds(k, d, r4, kd);
    Spread(kc - kd, ka - kb, r3 - r4, r1 - r2, dxj, dxi);
  }

  lemma RestBounds(k: real, u: real, r: real, q: real)
    requires 0.0 < u && q * u == k && RestNear(k, u, r)
    ensures q <= r <= q + 1.0
  {
    Between(u, q, k, r);
    Between(u, r - 1.0, k, q);
  }

  lemma Between(h: real, x: real, k: real, y: real)
    requires 0.0 < h && x * h <= k <= y * h
    ensures x <= y
  {
    Cancel(h, x, y);
  }

  function Share(k: real, n: real): (q: real)
    requires 0.0 < n
    ensures q * n == k
  {
    k / n
  }

  lemma Spread(p: real, q: real, fall: real, rise: real, dxj: real, dxi: real)
    requires 0.0 < dxj && 0.0 < dxi && p * dxj <= q * dxi && fall <= p + 1.0 && q - 1.0 <= rise
    ensures (fall - 4.0) * dxj <= (rise + 4.0) * dxi
  {
    Chain(fall - 4.0, p, q, rise + 4.0, dxj, dxi);
  }

  lemma Chain(x: real, p: real, q: real, y: real, dxj: real, dxi: real)
    requires 0.0 < dxj && 0.0 < dxi && p * dxj <= q * dxi && x <= p && q <= y
    ensures x * dxj <= y * dxi
  {
    Scale(x, p, dxj);
    Scale(q, y, dxi);
  }

  lemma ExactSlopes(k: real, ka: real, kb: real, kc: real, kd: real, a: real, b: real, c: real, d: real, dxj: real,
                    dxi: real)
    requires 0.0 <= k && 0.0 < a <= b <= c <= d && 0.0 < dxj && 0.0 < dxi
    requires ka * a == k && kb * b == k && kc * c == k && kd * d == k
    requires InStep(a, b, c, d, dxj, dxi)
    ensures (kc - kd) * dxj <= (ka - kb) * dxi
  {
    var fall, first := (kc - kd) * c, (ka - kb) * b;
    Falls(k, kc, kd, c, d);
    Falls(k, ka, kb, a, b);
    InProportion(k, ka, kd, a, d, (d - c) * dxj, (b - a) * dxi);
    assert fall * dxj == kd * ((d - c) * dxj);
    assert first * dxi == kb * 0.0 + ka * ((b - a) * dxi);
    FromWider(kc - kd, ka - kb, b, c, dxj, dxi);
  }

  /** `k / m - k / n`, from either end. */
  lemma Falls(k: real, km: real, kn: real, m: real, n: real)
    requires 0.0 <= k && 0.0 < m <= n && km * m == k && kn * n == k
    ensures (km - kn) * m == kn * (n - m) && (km - kn) * n == km * (n - m) && 0.0 <= km - kn && 0.0 <= kn
  {
    Cancel(n, 0.0, kn);
    NonNegative(kn, n - m);
    Cancel(m, 0.0, km - kn);
  }

  lemma InProportion(k: real, ka: real, kd: real, a: real, d: real, p: real, q: real)
    requires 0.0 <= k && 0.0 < a && 0.0 < d && ka * a == k && kd * d == k && p * a <= q * d
    ensures kd * p <= ka * q
  {
    Scale(p * a, q * d, k);
    PositiveProduct(a, d);
    assert (a * d) * (kd * p) == (p * a) * (kd * d);
    assert (a * d) * (ka * q) == (q * d) * (ka * a);
    Cancel(a * d, kd * p, ka * q);
  }

  lemma FromWider(p: real, q: real, b: real, c: real, dxj: real, dxi: real)
    requires 0.0 <= p && 0.0 < b <= c && 0.0 < dxj && p * c * dxj <= q * b * dxi
    ensures p * dxj <= q * dxi
  {
    NonNegative(p, dxj);
    Scale(b, c, p * dxj);
    assert c * (p * dxj) == p * c * dxj;
    assert b * (q * dxi) == q * b * dxi;
    Cancel(b, p * dxj, q * dxi);
  }

  /** The reserve is small against the square of a wide net step. */
  ghost predicate Small(h: real, e: real, a: real) {
    e * a <= (1.0 - 0.01 * e) * (1.0 - 0.005 * e) * (h * h) * 1000000000000.0
  }

  /** Net steps of wide segments fall in proportion when the reserve is small against the square of a step: each net
      step is off by at most `e`, and the pool must bend by more than that. */
  lemma StepsInProportion(h: real, e: real, a: real, b: real, c: real, d: real, u: real, w: real, t: real, dxj: real,
                          dxi: real)
    requires 0.0 < h && 1.0 <= e <= 5.0 && 0.0 < a && 1000000.0 <= dxj && 1000000.0 <= dxi && t == d - a
    requires w == h * dxj && u == h * dxi && 100.0 <= w && 100.0 <= u && w + u - e <= t
    requires d - c <= u + e && w - e <= b - a && Small(h, e, a)
    ensures InStep(a, b, c, d, dxj, dxi)
  {
    hide Small;
    BendEnough(h, e, a, w, u, t, dxj, dxi);
    Bends(u, w, e, a, d, t, dxj, dxi, h);
    InNets(d - c, b - a, u + e, w - e, dxj, dxi, a, d);
  }

  lemma InNets(p: real, q: real, most: real, least: real, dxj: real, dxi: real, a: real, d: real)
    requires 0.0 < a <= d && 0.0 < dxj && 0.0 < dxi && p <= most && least <= q && most * (dxj * a) <= least * (dxi * d)
    ensures p * dxj * a <= q * dxi * d
  {
    var x, y := dxj * a, dxi * d;
    NonNegative(dxj, a);
    NonNegative(dxi, d);
    Scale(p, most, x);
    Scale(least, q, y);
    assert p * dxj * a == p * x && q * dxi * d == q * y;
  }

  lemma WideNet(h: real, dx: real)
    requires 0.0 < h && 1000000.0 <= dx && 100.0 <= h * 1000000.0
    ensures 100.0 <= h * dx
  {
    Scale(1000000.0, dx, h);
  }

  lemma BendEnough(h: real, e: real, a: real, w: real, u: real, t: real, dxj: real, dxi: real)
    requires 0.0 < h && 1.0 <= e <= 5.0 && 0.0 < a && 1000000.0 <= dxj && 1000000.0 <= dxi
    requires w == h * dxj && u == h * dxi && 100.0 <= w && 100.0 <= u && w + u - e <= t
    requires Small(h, e, a)
    ensures e * a * (dxj + dxi) <= (w - e) * dxi * t
  {
    hide Small;
    var f, g, s := 1.0 - 0.01 * e, 1.0 - 0.005 * e, dxj + dxi;
    Shorten(e, w, 100.0, f);
    Shorten(e, w + u, 200.0, g);
    var q, steps, bend := Products(f, g, h, w, u, t, e, dxj, dxi, s);
    var ea := SmallIs(h, e, a, f, g, q);
    BendChain(ea, q, steps, s, bend);
  }

  lemma SmallIs(h: real, e: real, a: real, f: real, g: real, q: real) returns (ea: real)
    requires Small(h, e, a) && f == 1.0 - 0.01 * e && g == 1.0 - 0.005 * e && q == f * g * (h * h)
    ensures ea == e * a && ea <= q * 1000000000000.0
  {
    ea := e * a;
  }

  /** Taking `e` off a length of at least `m` keeps the fraction `1 - e / m`. */
  lemma Shorten(e: real, w: real, m: real, f: real)
    requires 0.0 <= e && 0.0 < m <= w && ((f == 1.0 - 0.01 * e && m == 100.0) || (f == 1.0 - 0.005 * e && m == 200.0))
    ensures f * w <= w - e
  {
    Scale(m, w, e);
  }

  lemma WideSquare(dxj: real, dxi: real)
    requires 1000000.0 <= dxj && 1000000.0 <= dxi
    ensures 1000000000000.0 <= dxj * dxi
  {
    Scale(1000000.0, dxj, dxi);
  }

  lemma BendChain(ea: real, q: real, steps: real, s: real, bend: real)
    requires ea <= q * 1000000000000.0 && q * steps * s <= bend && 0.0 <= q && 0.0 <= s && 1000000000000.0 <= steps
    ensures ea * s <= bend
  {
    Scale(1000000000000.0, steps, q);
    Scale(ea, q * steps, s);
  }

  lemma Products(f: real, g: real, h: real, w: real, u: real, t: real, e: real, dxj: real, dxi: real, s: real)
    returns (q: real, steps: real, bend: real)
    requires 0.0 < f && 0.0 < g && 0.0 < h && 1000000.0 <= dxj && 1000000.0 <= dxi && s == dxj + dxi
    requires w == h * dxj && u == h * dxi && f * w <= w - e && g * (w + u) <= t
    ensures q == f * g * (h * h) && 1000000000000.0 <= steps && bend == (w - e) * dxi * t
    ensures 0.0 <= q && q * steps * s <= bend
  {
    q, steps, bend := f * g * (h * h), dxj * dxi, (w - e) * dxi * t;
    WideSquare(dxj, dxi);
    PositiveProduct(f, g);
    PositiveProduct(h, h);
    PositiveProduct(f * g, h * h);
    PositiveProduct(h, dxj);
    PositiveProduct(f, w);
    PositiveProduct(h, dxi);
    PositiveProduct(g, w + u);
    var x, y := f * w, g * (w + u);
    TwoScales(x, w - e, y, t, dxi);
    SameProduct(f, g, h, w, u, dxj, dxi, s);
  }

  lemma SameProduct(f: real, g: real, h: real, w: real, u: real, dxj: real, dxi: real, s: real)
    requires s == dxj + dxi && w == h * dxj && u == h * dxi
    ensures (f * w) * (g * (w + u)) * dxi == f * g * (h * h) * (dxj * dxi) * s
  {
    assert w + u == h * s;
    var x, y := f * w, g * (w + u);
    assert x * y == f * g * (h * h) * (dxj * s);
  }

  lemma TwoScales(x: real, xx: real, y: real, yy: real, d: real)
    requires 0.0 <= x <= xx && 0.0 <= y <= yy && 0.0 <= d
    ensures x * y * d <= xx * d * yy
  {
    Scale(x, xx, y);
    Scale(y, yy, xx);
    Scale(x * y, xx * yy, d);
    assert xx * yy * d == xx * d * yy;
  }

  lemma Bends(u: real, w: real, e: real, a: real, d: real, t: real, dxj: real, dxi: real, h: real)
    requires d == a + t && u == h * dxi && w == h * dxj && e * a * (dxj + dxi) <= (w - e) * dxi * t
    ensures (u + e) * (dxj * a) <= (w - e) * (dxi * d)
  {
    assert u * dxj == w * dxi;
    assert (u + e) * (dxj * a) == (u * dxj) * a + e * a * dxj;
    assert (w - e) * (dxi * d) == (w * dxi) * a - e * a * dxi + (w - e) * dxi * t;
  }

  // ----- Samples of a shallow pool -----

  /** The sample is the quote of a whole input at most `w` nanos above its own. */
  ghost predicate QuotedAt(a: nat, b: nat, keep: nat, w: nat, s: Sample, x: nat)
    requires 0 < a
  {
    s.input <= x <= s.input + w && s.output == ConstantProduct.Quote(a, b, x, keep, 10000)
  }

  ghost predicate Quoted(a: nat, b: nat, keep: nat, w: nat, s: Sample)
    requires 0 < a
  {
    exists x: nat :: QuotedAt(a, b, keep, w, s, x)
  }

  /** The reserve with the input is small enough for the curve to bend visibly over a wide step: about a thousand units
      at small fees when samples stand for themselves, and a fifth of that when merging moves them by up to four
      nanos. */
  predicate Shallow(a: nat, keep: nat, w: nat, input: nat) {
    (w + 1) * (a + input + w) <= (if w == 0 then 9800 else 9200) * (keep * keep)
  }

  function Part(keep: nat): real { keep as real / 10000.0 }

  /** What a sample says of its net reserve `u` and of what is left of the other reserve, in real numbers. */
  lemma NetFacts(a: nat, b: nat, keep: nat, w: nat, s: Sample, x: nat) returns (u: real, r: real)
    requires 0 < a && keep <= 10000 && QuotedAt(a, b, keep, w, s, x)
    ensures u == (a + ConstantProduct.Net(x, keep, 10000)) as real && r == b as real - s.output as real
    ensures RestNear((a * b) as real, u, r) && NetNear(Part(keep), a as real, w as real, s.input as real, u)
    ensures a as real <= u <= a as real + s.input as real + w as real
  {
    hide ConstantProduct.Net, ConstantProduct.Output, Part;
    var n := ConstantProduct.Net(x, keep, 10000);
    var p, d := ConstantProduct.Remaining(a, b, n);
    u, r := d as real, p as real;
    NetParts(x, keep);
    NetOfSample(n, x, keep, s.input, w);
    RestInReals(a * b, p, d);
  }

  lemma NetParts(x: nat, keep: nat)
    requires keep <= 10000
    ensures var n := ConstantProduct.Net(x, keep, 10000); n <= x && n * 10000 <= x * keep < (n + 1) * 10000
  {
    ConstantProduct.NetAtMostInput(x, keep, 10000);
    ConstantProduct.DivSandwich(x * keep, 10000);
  }

  lemma RestInReals(k: nat, p: nat, d: nat)
    requires k <= p * d && (p > 0 ==> (p - 1) * d < k)
    ensures k as real <= p as real * d as real && (p as real - 1.0) * d as real <= k as real
  {
    Cast(p, d);
    assert (p * d - d) as real == (p as real - 1.0) * d as real;
    assert (p - 1) * d == p * d - d;
  }

  lemma NetOfSample(n: nat, x: nat, keep: nat, input: nat, w: nat)
    requires n * 10000 <= x * keep < (n + 1) * 10000 && keep <= 10000 && input <= x <= input + w
    ensures Part(keep) * input as real - 1.0 <= n as real <= Part(keep) * input as real + w as real
  {
    ConstantProduct.Mul(input, x, keep);
    ConstantProduct.Mul(x, input + w, keep);
    ConstantProduct.Mul(keep, 10000, w);
    Cast(input, keep);
    var p := (input * keep) as real;
    assert Part(keep) * input as real == p / 10000.0;
    assert input * keep < (n + 1) * 10000 && n * 10000 <= input * keep + w * 10000;
  }

  lemma ShallowIsSmall(a: nat, keep: nat, w: nat, input: nat, u: real)
    requires 0 < a && (w == 0 || w == 4) && Shallow(a, keep, w, input) &&
             0.0 < u <= a as real + input as real + w as real
    ensures Small(Part(keep), w as real + 1.0, u) && 100.0 <= Part(keep) * 1000000.0
  {
    if keep == 0 { assert false; }
    var q := (keep * keep) as real;
    Cast(keep, keep);
    assert Part(keep) * Part(keep) * 100000000.0 == q;
    var e := w as real + 1.0;
    Scale(u, a as real + input as real + w as real, e);
    assert e * (a as real + input as real + w as real) == ((w + 1) * (a + input + w)) as real;
  }

  /** Four samples in order, whose first and third segments are wide, keep the slope test. */
  lemma WideSlopesKept(a: nat, b: nat, keep: nat, w: nat, s1: Sample, s2: Sample, s3: Sample, s4: Sample,
                       x1: nat, x2: nat, x3: nat, x4: nat)
    requires 0 < a && keep <= 10000 && (w == 0 || w == 4) && Shallow(a, keep, w, s1.input)
    requires QuotedAt(a, b, keep, w, s1, x1) && QuotedAt(a, b, keep, w, s2, x2)
    requires QuotedAt(a, b, keep, w, s3, x3) && QuotedAt(a, b, keep, w, s4, x4)
    requires s1.input + MIN_DX <= s2.input <= s3.input && s3.input + MIN_DX <= s4.input
    requires x1 <= x2 <= x3 <= x4
    ensures (s4.output - s3.output - 4) * (s2.input - s1.input) <= (s2.output - s1.output + 4) * (s4.input - s3.input)
  {
    hide QuotedAt, Shallow, Part, Small, NetNear, RestNear;
    var u1, r1 := NetFacts(a, b, keep, w, s1, x1);
    var u2, r2 := NetFacts(a, b, keep, w, s2, x2);
    var u3, r3 := NetFacts(a, b, keep, w, s3, x3);
    var u4, r4 := NetFacts(a, b, keep, w, s4, x4);
    NetsInOrder(keep, x1, x2);
    NetsInOrder(keep, x2, x3);
    NetsInOrder(keep, x3, x4);
    ShallowIsSmall(a, keep, w, s1.input, u1);
    ConstantProduct.NonNegative(a, b);
    var k := (a * b) as real;
    hide ConstantProduct.Net;
    var p, x, q, y :=
      RealSlopesKept(k, a as real, Part(keep), w as real,
                     s1.input as real, s2.input as real, s3.input as real, s4.input as real,
                     u1, u2, u3, u4, r1, r2, r3, r4);
    InWholeNumbers(s4.output - s3.output - 4, s2.input - s1.input, s2.output - s1.output + 4, s4.input - s3.input,
                   p, x, q, y);
  }

  lemma RealSlopesKept(k: real, a: real, h: real, w: real, x1: real, x2: real, x3: real, x4: real,
                       u1: real, u2: real, u3: real, u4: real, r1: real, r2: real, r3: real, r4: real)
    returns (p: real, x: real, q: real, y: real)
    requires 0.0 <= k && 0.0 < a <= u1 <= u2 <= u3 <= u4 && 0.0 <= w <= 4.0 && 100.0 <= h * 1000000.0
    requires 1000000.0 <= x2 - x1 && x2 <= x3 && 1000000.0 <= x4 - x3
    requires NetNear(h, a, w, x1, u1) && NetNear(h, a, w, x2, u2) && NetNear(h, a, w, x3, u3) &&
             NetNear(h, a, w, x4, u4)
    requires RestNear(k, u1, r1) && RestNear(k, u2, r2) && RestNear(k, u3, r3) && RestNear(k, u4, r4)
    requires Small(h, w + 1.0, u1)
    ensures p == r3 - r4 - 4.0 && x == x2 - x1 && q == r1 - r2 + 4.0 && y == x4 - x3 && p * x <= q * y
  {
    p, x, q, y := r3 - r4 - 4.0, x2 - x1, r1 - r2 + 4.0, x4 - x3;
    hide Small, InStep, NetNear, RestNear;
    NetsInStep(a, h, w, x1, x2, x3, x4, u1, u2, u3, u4);
    SlopeKept(k, r1, r2, r3, r4, u1, u2, u3, u4, x, y);
  }

  lemma NetsInStep(a: real, h: real, w: real, x1: real, x2: real, x3: real, x4: real, u1: real, u2: real, u3: real,
                   u4: real)
    requires 0.0 < a <= u1 <= u2 <= u3 <= u4 && 0.0 <= w <= 4.0 && 100.0 <= h * 1000000.0
    requires 1000000.0 <= x2 - x1 && x2 <= x3 && 1000000.0 <= x4 - x3
    requires NetNear(h, a, w, x1, u1) && NetNear(h, a, w, x2, u2) && NetNear(h, a, w, x3, u3) &&
             NetNear(h, a, w, x4, u4)
    requires Small(h, w + 1.0, u1)
    ensures InStep(u1, u2, u3, u4, x2 - x1, x4 - x3)
  {
    hide Small, InStep, NetNear;
    var p1, p2 := NetPart(h, a, w, x1, u1), NetPart(h, a, w, x2, u2);
    var p3, p4 := NetPart(h, a, w, x3, u3), NetPart(h, a, w, x4, u4);
    NetSteps(h, x1, x2, x3, x4, p1, p2, p3, p4);
    hide NetPart;
    var dxj, dxi, u, v := x2 - x1, x4 - x3, p4 - p3, p2 - p1;
    WideNet(h, dxj);
    WideNet(h, dxi);
    StepsInProportion(h, w + 1.0, u1, u2, u3, u4, u, v, u4 - u1, dxj, dxi);
  }

  ghost function NetPart(h: real, a: real, w: real, x: real, u: real): (p: real)
    requires NetNear(h, a, w, x, u)
    ensures p == h * x && p - 1.0 <= u - a <= p + w
  {
    h * x
  }

  /** The part `h` of the distances between four inputs. */
  lemma NetSteps(h: real, x1: real, x2: real, x3: real, x4: real, p1: real, p2: real, p3: real, p4: real)
    requires 100.0 <= h * 1000000.0 && x2 <= x3
    requires p1 == h * x1 && p2 == h * x2 && p3 == h * x3 && p4 == h * x4
    ensures 0.0 < h && p2 - p1 == h * (x2 - x1) && p4 - p3 == h * (x4 - x3) && p2 <= p3
  {
    Scale(x2, x3, h);
  }

  lemma NetsInOrder(keep: nat, x: nat, y: nat)
    requires x <= y
    ensures ConstantProduct.Net(x, keep, 10000) <= ConstantProduct.Net(y, keep, 10000)
  {
    ConstantProduct.NetGrows(x, y, keep, keep, 10000);
  }

  lemma InWholeNumbers(p: int, x: int, q: int, y: int, pr: real, xr: real, qr: real, yr: real)
    requires pr == p as real && xr == x as real && qr == q as real && yr == y as real && pr * xr <= qr * yr
    ensures p * x <= q * y
  {
    assert (p * x) as real == pr * xr && (q * y) as real == qr * yr;
  }

  lemma QuotesGrow(a: nat, b: nat, keep: nat, w: nat, s: Sample, t: Sample, x: nat, y: nat)
    requires 0 < a && QuotedAt(a, b, keep, w, s, x) && QuotedAt(a, b, keep, w, t, y) && x <= y
    ensures s.output <= t.output
  {
    ConstantProduct.QuoteGrows(a, b, x, y, keep, keep, 10000);
    hide ConstantProduct.Quote;
  }

  // ----- What the check makes of them -----

  ghost predicate ShallowSamples(a: nat, b: nat, keep: nat, w: nat, c: seq<Sample>)
    requires 0 < a
  {
    forall i :: 0 <= i < |c| ==> Quoted(a, b, keep, w, c[i]) && Shallow(a, keep, w, c[i].input)
  }

  lemma ShallowDoesNotDrop(a: nat, b: nat, keep: nat, w: nat, c: seq<Sample>, i: nat)
    requires 0 < a && w <= 4 && Apart(c) && ShallowSamples(a, b, keep, w, c) && i + 1 < |c|
    ensures !Drops(c, i)
  {
    hide Shallow, QuotedAt;
    var x: nat :| QuotedAt(a, b, keep, w, c[i], x);
    var y: nat :| QuotedAt(a, b, keep, w, c[i + 1], y);
    InputsInOrder(a, b, keep, w, c[i], c[i + 1], x, y);
    QuotesGrow(a, b, keep, w, c[i], c[i + 1], x, y);
  }

  lemma InputsInOrder(a: nat, b: nat, keep: nat, w: nat, s: Sample, t: Sample, x: nat, y: nat)
    requires 0 < a && w <= 4 && QuotedAt(a, b, keep, w, s, x) && QuotedAt(a, b, keep, w, t, y)
    requires s.input + MERGE_EPS < t.input
    ensures x <= y
  {
    hide ConstantProduct.Quote;
  }

  lemma ShallowDoesNotRise(a: nat, b: nat, keep: nat, w: nat, c: seq<Sample>, j: nat, i: nat)
    requires 0 < a && keep <= 10000 && (w == 0 || w == 4) && b + UNCERTAINTY <= U64_MAX && Apart(c)
    requires ShallowSamples(a, b, keep, w, c) && i + 1 < |c| && Successive(c, j, i)
    ensures !Rises(c, j, i)
  {
    hide Shallow, QuotedAt;
    var s1, s2, s3, s4 := c[j], c[j + 1], c[i], c[i + 1];
    var x1: nat :| QuotedAt(a, b, keep, w, s1, x1);
    var x2: nat :| QuotedAt(a, b, keep, w, s2, x2);
    var x3: nat := x2;
    if j + 1 < i {
      x3 :| QuotedAt(a, b, keep, w, s3, x3);
      InputsInOrder(a, b, keep, w, s2, s3, x2, x3);
    }
    var x4: nat :| QuotedAt(a, b, keep, w, s4, x4);
    InputsInOrder(a, b, keep, w, s1, s2, x1, x2);
    InputsInOrder(a, b, keep, w, s3, s4, x3, x4);
    QuotesGrow(a, b, keep, w, s1, s2, x1, x2);
    QuotesGrow(a, b, keep, w, s3, s4, x3, x4);
    OutputInReserve(a, b, keep, w, s2, x2);
    assert s2.input <= s3.input;
    hide Apart, ShallowSamples;
    WideSlopesKept(a, b, keep, w, s1, s2, s3, s4, x1, x2, x3, x4);
    SaturatedSlopes(s4.output - s3.output, s2.input - s1.input, s2.output - s1.output, s4.input - s3.input);
  }

  lemma OutputInReserve(a: nat, b: nat, keep: nat, w: nat, s: Sample, x: nat)
    requires 0 < a && QuotedAt(a, b, keep, w, s, x)
    ensures s.output <= b
  {
    ConstantProduct.QuoteBelowReserve(a, b, x, keep, 10000);
    hide ConstantProduct.Quote;
  }

  lemma SaturatedSlopes(dyi: nat, dxj: nat, dyj: nat, dxi: nat)
    requires (dyi - 4) * dxj <= (dyj + 4) * dxi && dyj + 4 <= U64_MAX
    ensures SaturatingSub(dyi, UNCERTAINTY) * dxj <= SaturatingAdd(dyj, UNCERTAINTY) * dxi
  {
    ConstantProduct.NonNegative(dyj + 4, dxi);
  }

  lemma ShallowMergedIsFine(a: nat, b: nat, keep: nat, w: nat, c: seq<Sample>, v: Verdict)
    requires 0 < a && keep <= 10000 && (w == 0 || w == 4) && b + UNCERTAINTY <= U64_MAX && Apart(c)
    requires ShallowSamples(a, b, keep, w, c) && Judges(c, v)
    ensures v.Fine?
  {
    hide ShallowSamples, Apart, Rises, Drops;
    match v {
      case NotMonotone(i) => ShallowDoesNotDrop(a, b, keep, w, c, i);
      case NotConcave(j, i) => ShallowDoesNotRise(a, b, keep, w, c, j, i);
      case Fine =>
    }
  }

  /** Samples of a constant-product quote at any price, whose inputs are equal or more than four nanos apart, are
      accepted when the input reserve and each input together are at most about a thousand units. */
  lemma SeparateShallowIsAccepted(a: nat, b: nat, keep: nat, points: seq<(real, real)>, minInput: real, v: Verdict)
    requires 0 < a && keep <= 10000 && b + UNCERTAINTY <= U64_MAX && Judged(points, minInput, v)
    requires Separate(KeptSet(points, minInput))
    requires forall s :: s in KeptSet(points, minInput) ==>
      s.output == ConstantProduct.Quote(a, b, s.input, keep, 10000) && Shallow(a, keep, 0, s.input)
    ensures v.Fine?
  {
    hide Judged, Judges, KeptSet, Merges, Separate, Shallow, ConstantProduct.Quote;
    var samples := KeptSet(points, minInput);
    var c := MergedOf(points, minInput, v);
    forall i | 0 <= i < |c| ensures Quoted(a, b, keep, 0, c[i]) && Shallow(a, keep, 0, c[i].input) {
      SeparateMergesToItself(samples, c, i);
      assert QuotedAt(a, b, keep, 0, c[i], c[i].input);
    }
    MergedApart(samples, c);
    ShallowMergedIsFine(a, b, keep, 0, c, v);
  }

  /** However close the inputs, so that merging moves outputs by up to four nanos of input, a fifth of that depth is
      accepted. */
  lemma ShallowIsAccepted(a: nat, b: nat, keep: nat, points: seq<(real, real)>, minInput: real, v: Verdict)
    requires 0 < a && keep <= 10000 && b + UNCERTAINTY <= U64_MAX && Judged(points, minInput, v)
    requires forall s :: s in KeptSet(points, minInput) ==>
      s.output == ConstantProduct.Quote(a, b, s.input, keep, 10000) && Shallow(a, keep, 4, s.input)
    ensures v.Fine?
  {
    hide Judged, Judges, KeptSet, Merges, Shallow, ConstantProduct.Quote;
    var samples := KeptSet(points, minInput);
    var c := MergedOf(points, minInput, v);
    forall i | 0 <= i < |c| ensures Quoted(a, b, keep, 4, c[i]) && Shallow(a, keep, 4, c[i].input) {
      var t := AnchorOf(samples, c, i);
      var s := BestOf(samples, c, i);
      GroupReaches(c[i], t, s);
      assert QuotedAt(a, b, keep, 4, c[i], s.input);
    }
    MergedApart(samples, c);
    ShallowMergedIsFine(a, b, keep, 4, c, v);
  }

  lemma GroupReaches(m: Sample, t: Sample, s: Sample)
    requires InGroup(m, s) && t.input == m.input
    ensures m.input <= s.input <= m.input + 4
  {}
}
