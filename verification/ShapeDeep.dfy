/** Beyond that depth the check does stop constant-product pools; and both results through a pool's own quotes. */
module ShapeDeep {
  import opened Words
  import opened Reals
  import opened Codec
  import opened Nano
  import opened PoolModel
  import opened NormalizerPool
  import opened PoolCurve
  import opened Arbitrage
  import opened ShapeCheck
  import opened ShapeGuarantee
  import opened ShapeDepth
  import ConstantProduct
  import ShapePools

  // ----- Three samples whose floors bend the quote the wrong way -----

  /** At 30 basis points a step of 1000667 from a whole thousand loses almost a nano to the floor, and the step of
      1000333 after it gains that nano back. */
  const FIRST_STEP: nat := 1000667
  const SECOND_STEP: nat := 1000333

  /** So deep, at so high a price, that the curve bends less over the two steps than the floors do. */
  predicate Deep(a: nat, b: nat) {
    1000000000000 <= a && 10036 * (a * a) <= b * (1998 * a - 1992000000000000)
  }

  /** From a price of a hundred on, a little over a thousand units are deep; from ten on, twice as many. */
  lemma DeepAtPrice(a: nat, b: nat)
    ensures 1050000000000 <= a && 100 * a <= b ==> Deep(a, b)
    ensures 2010000000000 <= a && 10 * a <= b ==> Deep(a, b)
  {
    if 1050000000000 <= a && 100 * a <= b {
      DeepEnough(a, b, 100);
    }
    if 2010000000000 <= a && 10 * a <= b {
      DeepEnough(a, b, 10);
    }
  }

  lemma DeepEnough(a: nat, b: nat, price: nat)
    requires 1000000000000 <= a && price * a <= b && 10036 * a <= price * (1998 * a - 1992000000000000)
    ensures Deep(a, b)
  {
    var m := 1998 * a - 1992000000000000;
    ConstantProduct.Mul(10036 * a, price * m, a);
    ConstantProduct.Mul(price * a, b, m);
    assert (price * m) * a == (price * a) * m;
    assert (10036 * a) * a == 10036 * (a * a);
  }

  /** The three inputs, from `thousands` thousand nanos on. */
  function DeepInput(thousands: nat, i: nat): nat
    requires i < 3
  {
    1000 * thousands + (if i == 0 then 0 else if i == 1 then FIRST_STEP else FIRST_STEP + SECOND_STEP)
  }

  function DeepQuote(a: nat, b: nat, thousands: nat, i: nat): nat
    requires 0 < a && i < 3
  {
    ConstantProduct.Quote(a, b, DeepInput(thousands, i), 9970, 10000)
  }

  lemma DeepNets(thousands: nat)
    ensures ConstantProduct.Net(DeepInput(thousands, 0), 9970, 10000) == 997 * thousands
    ensures ConstantProduct.Net(DeepInput(thousands, 1), 9970, 10000) == 997 * thousands + 997664
    ensures ConstantProduct.Net(DeepInput(thousands, 2), 9970, 10000) == 997 * thousands + 1994997
  {}

  /** Over input steps `s1` and `s2` that take the net reserve from `u` to `v` and `w`, the curve `k / reserve` bends
      less than the floors of the net inputs do, rounding and slack included. */
  ghost predicate FlatOverSteps(k: real, u: real, v: real, w: real, s1: real, s2: real) {
    5.0 * (s1 + s2) * Volume(u, v, w) < k * (Gain(u, v, w, s1) - Loss(u, v, w, s2))
  }

  function Volume(u: real, v: real, w: real): real { u * v * w }
  function Gain(u: real, v: real, w: real, s1: real): real { (w - v) * s1 * u }
  function Loss(u: real, v: real, w: real, s2: real): real { (v - u) * s2 * w }

  /** The second step then pays more per input than the first, slack included. */
  lemma FloorsWin(k: real, u: real, v: real, w: real, r1: real, r2: real, r3: real, s1: real, s2: real)
    requires 0.0 < k && 0.0 < u <= v <= w && 0.0 < s1 && 0.0 < s2
    requires RestNear(k, u, r1) && RestNear(k, v, r2) && RestNear(k, w, r3)
    requires FlatOverSteps(k, u, v, w, s1, s2)
    ensures (r2 - r3 - 4.0) * s1 > (r1 - r2 + 4.0) * s2
  {
    hide RestNear, FlatOverSteps, IsShare;
    var ku := RoundedShare(k, u, r1);
    var kv := RoundedShare(k, v, r2);
    var kw := RoundedShare(k, w, r3);
    NetBend(k, u, v, w, ku, kv, kw, s1, s2);
    RoundedSteps(kv - kw, ku - kv, r2 - r3, r1 - r2, s1, s2);
  }

  lemma RoundedSteps(second: real, first: real, y2: real, y1: real, s1: real, s2: real)
    requires 0.0 < s1 && 0.0 < s2 && second - 1.0 <= y2 && y1 <= first + 1.0
    requires (second - 5.0) * s1 > (first + 5.0) * s2
    ensures (y2 - 4.0) * s1 > (y1 + 4.0) * s2
  {
    Scale(second - 5.0, y2 - 4.0, s1);
    Scale(y1 + 4.0, first + 5.0, s2);
  }

  ghost predicate IsShare(k: real, u: real, q: real) { q * u == k }

  lemma RoundedShare(k: real, u: real, r: real) returns (q: real)
    requires 0.0 < u && RestNear(k, u, r)
    ensures IsShare(k, u, q) && q <= r <= q + 1.0
  {
    q := Share(k, u);
    hide Share, RestNear;
    RestBounds(k, u, r, q);
  }

  /** How much `k / reserve` bends over the two steps. */
  lemma NetBend(k: real, u: real, v: real, w: real, ku: real, kv: real, kw: real, s1: real, s2: real)
    requires 0.0 < u <= v <= w && IsShare(k, u, ku) && IsShare(k, v, kv) && IsShare(k, w, kw)
    requires FlatOverSteps(k, u, v, w, s1, s2)
    ensures (kv - kw - 5.0) * s1 > (ku - kv + 5.0) * s2
  {
    var first, second := ku - kv, kv - kw;
    hide Volume, Gain, Loss, IsShare, FallIs;
    FallOver(k, u, v, ku, kv);
    FallOver(k, v, w, kv, kw);
    BendTimes(k, u, v, w, first, second, s1, s2);
    Outweighs(second, first, s1, s2);
  }

  ghost predicate FallIs(k: real, u: real, v: real, fall: real) { fall * (u * v) == k * (v - u) }

  lemma FallOver(k: real, u: real, v: real, ku: real, kv: real)
    requires IsShare(k, u, ku) && IsShare(k, v, kv)
    ensures FallIs(k, u, v, ku - kv)
  {
    assert ku * (u * v) == k * v && kv * (u * v) == k * u;
  }

  lemma BendTimes(k: real, u: real, v: real, w: real, first: real, second: real, s1: real, s2: real)
    requires 0.0 < u <= v <= w && FallIs(k, u, v, first) && FallIs(k, v, w, second)
    requires FlatOverSteps(k, u, v, w, s1, s2)
    ensures 5.0 * (s1 + s2) < second * s1 - first * s2
  {
    var m := Volume(u, v, w);
    GainTimes(k, u, v, w, second, s1);
    LossTimes(k, u, v, w, first, s2);
    VolumeIsPositive(u, v, w);
    hide Volume, Gain, Loss, FallIs;
    LessTimes(5.0 * (s1 + s2), second * s1, first * s2, m, k, Gain(u, v, w, s1), Loss(u, v, w, s2));
  }

  lemma GainTimes(k: real, u: real, v: real, w: real, second: real, s1: real)
    requires FallIs(k, v, w, second)
    ensures second * s1 * Volume(u, v, w) == k * Gain(u, v, w, s1)
  {
    assert second * s1 * (u * v * w) == (second * (v * w)) * (s1 * u);
  }

  lemma LossTimes(k: real, u: real, v: real, w: real, first: real, s2: real)
    requires FallIs(k, u, v, first)
    ensures first * s2 * Volume(u, v, w) == k * Loss(u, v, w, s2)
  {
    assert first * s2 * (u * v * w) == (first * (u * v)) * (s2 * w);
  }

  lemma VolumeIsPositive(u: real, v: real, w: real)
    requires 0.0 < u <= v <= w
    ensures 0.0 < Volume(u, v, w)
  {
    PositiveProduct(u, v);
    PositiveProduct(u * v, w);
  }

  lemma LessTimes(a: real, x: real, y: real, m: real, k: real, gain: real, loss: real)
    requires 0.0 < m && x * m == k * gain && y * m == k * loss && a * m < k * (gain - loss)
    ensures a < x - y
  {
    if x - y <= a {
      Scale(x - y, a, m);
    }
  }

  lemma Outweighs(second: real, first: real, s1: real, s2: real)
    requires 5.0 * (s1 + s2) < second * s1 - first * s2
    ensures (second - 5.0) * s1 > (first + 5.0) * s2
  {}

  /** A deep pool is flat over the steps, at inputs up to a unit. */
  lemma DeepIsFlat(a: nat, b: nat, u: real)
    requires Deep(a, b) && a as real <= u <= a as real + 997000000.0
    ensures FlatOverSteps((a * b) as real, u, u + 997664.0, u + 1994997.0, 1000667.0, 1000333.0)
    ensures 0.0 < (a * b) as real
  {
    var x, y, m := a as real, b as real, 1998.0 * a as real - 1992000000000000.0;
    Cast(a, b);
    var xx := (a * a) as real;
    Cast(a, a);
    assert 10036.0 * xx <= y * m by {
      assert (b * (1998 * a - 1992000000000000)) as real == y * m;
    }
    SquareIsPositive(a);
    assert 1000000000000.0 <= x && u + 1994997.0 <= 1.001 * x;
    var bend := NumbersBend(u, u + 997664.0, u + 1994997.0, 1000667.0, 1000333.0);
    hide IsBend;
    DeepNumbers(x, xx, y, m, u, u + 997664.0, u + 1994997.0, 1000667.0, 1000333.0, bend);
  }

  ghost predicate IsBend(u: real, v: real, w: real, s1: real, s2: real, bend: real) {
    bend == Gain(u, v, w, s1) - Loss(u, v, w, s2)
  }

  lemma NumbersBend(u: real, v: real, w: real, s1: real, s2: real) returns (bend: real)
    requires v - u == 997664.0 && w - u == 1994997.0 && s1 == 1000667.0 && s2 == 1000333.0
    ensures IsBend(u, v, w, s1, s2, bend) && bend > 1998999.0 * u - 1991000000000000000.0
  {
    bend := 997333.0 * 1000667.0 * u - 997664.0 * 1000333.0 * w;
  }

  lemma DeepNumbers(x: real, xx: real, y: real, m: real, u: real, v: real, w: real, s1: real, s2: real, bend: real)
    requires 1000000000000.0 <= x <= u <= v <= w <= 1.001 * x && 0.0 <= y
    requires IsSquare(x, xx) && 0.0 < xx && 10036.0 * xx <= y * m
    requires IsBend(u, v, w, s1, s2, bend) && s1 + s2 == 2001000.0 && 1000.0 * m < bend
    ensures FlatOverSteps(x * y, u, v, w, s1, s2) && 0.0 < x * y
  {
    hide FlatOverSteps, IsSquare, IsCube, IsBend, Volume, Gain, Loss;
    var k, ym, xxx := DepthTimes(x, xx, y, m);
    var cube := CubeOfNets(u, v, w, x, xxx);
    var p := TimesMore(k, m, ym, bend);
    FlatIs(k, u, v, w, cube, bend, p, s1, s2);
  }

  ghost predicate IsSquare(x: real, xx: real) { xx == x * x }

  ghost predicate IsCube(x: real, xxx: real) { xxx == x * x * x }

  lemma CubeOfNets(u: real, v: real, w: real, x: real, xxx: real) returns (m: real)
    requires 0.0 < u <= v <= w <= 1.001 * x && IsCube(x, xxx)
    ensures m == Volume(u, v, w) && m <= 1.003003001 * xxx
  {
    m := Volume(u, v, w);
    var c := 1.001 * x;
    var ccc := c * c * c;
    CubeOfSlightlyMore(x, c, ccc, xxx);
    hide IsCube;
    CubeBound(u, v, w, c, m);
  }

  lemma TimesMore(k: real, m: real, ym: real, t: real) returns (p: real)
    requires 0.0 < k && ym == k * m && 1000.0 * m < t
    ensures p == k * t && 1000.0 * ym < p
  {
    p := k * t;
    PositiveProduct(k, t - 1000.0 * m);
  }

  lemma FlatIs(k: real, u: real, v: real, w: real, cube: real, bend: real, p: real, s1: real, s2: real)
    requires cube == Volume(u, v, w) && IsBend(u, v, w, s1, s2, bend) && p == k * bend
    requires s1 + s2 == 2001000.0 && 10005000.0 * cube < p
    ensures FlatOverSteps(k, u, v, w, s1, s2)
  {
    hide Volume, Gain, Loss;
    assert 5.0 * (s1 + s2) * cube == 10005000.0 * cube;
  }

  lemma PositivePrice(y: real, m: real, n: real)
    requires 0.0 <= y && n == y * m && 0.0 < n
    ensures 0.0 < y
  {
    if m < 0.0 {
      NonNegative(y, -m);
    } else if y <= 0.0 {
      Scale(y, 0.0, m);
    }
  }

  lemma CubeOfSlightlyMore(x: real, c: real, ccc: real, xxx: real)
    requires c == 1.001 * x && ccc == c * c * c && IsCube(x, xxx)
    ensures ccc == 1.003003001 * xxx
  {
    var xx, cc := x * x, c * c;
    assert xxx == xx * x && ccc == cc * c;
    assert cc == 1.002001 * xx;
    SlightlyMore(xx, cc, x, c);
  }

  lemma SlightlyMore(xx: real, cc: real, x: real, c: real)
    requires cc == 1.002001 * xx && c == 1.001 * x
    ensures cc * c == 1.003003001 * (xx * x)
  {}

  lemma ScaledDepth(xx: real, n: real, x: real)
    requires 0.0 <= x && 10036.0 * xx <= n
    ensures 10036.0 * (xx * x) <= n * x
  {
    var t := 10036.0 * xx;
    Scale(t, n, x);
  }

  lemma SquareIsPositive(a: nat)
    requires 0 < a
    ensures 0.0 < (a * a) as real
  {
    assert 0 < a * a;
  }

  lemma CubeOf(x: real, xx: real) returns (xxx: real)
    requires 0.0 < x && IsSquare(x, xx) && 0.0 < xx
    ensures xxx == xx * x && IsCube(x, xxx) && 0.0 < xxx
  {
    xxx := xx * x;
    PositiveProduct(xx, x);
  }

  lemma DepthTimes(x: real, xx: real, y: real, m: real) returns (k: real, ym: real, xxx: real)
    requires 0.0 < x && 0.0 <= y && IsSquare(x, xx) && 0.0 < xx && 10036.0 * xx <= y * m
    ensures k == x * y && ym == k * m && 10036.0 * xxx <= ym && IsCube(x, xxx) && 0.0 < xxx && 0.0 < k
  {
    hide IsSquare, IsCube;
    var n := y * m;
    PositivePrice(y, m, n);
    PositiveProduct(x, y);
    k, ym := x * y, x * y * m;
    xxx := CubeOf(x, xx);
    ScaledDepth(xx, n, x);
    assert ym == n * x;
  }

  lemma CubeBound(u: real, v: real, w: real, c: real, m: real)
    requires 0.0 < u <= v <= w <= c && m == u * v * w
    ensures m <= c * c * c
  {
    var uv, cc := u * v, c * c;
    Scale(u, c, v);
    Scale(v, c, c);
    PositiveProduct(c, c);
    Scale(uv, cc, w);
    Scale(w, c, cc);
  }

  function DeepSample(a: u64, b: u64, thousands: nat, i: nat): (s: Sample)
    requires 0 < a && i < 3 && thousands <= 1000000
    ensures s.input == DeepInput(thousands, i) && s.output == DeepQuote(a, b, thousands, i)
  {
    ConstantProduct.QuoteBelowReserve(a, b, DeepInput(thousands, i), 9970, 10000);
    Sample(DeepInput(thousands, i), DeepQuote(a, b, thousands, i))
  }

  function DeepSamples(a: u64, b: u64, thousands: nat): seq<Sample>
    requires 0 < a && thousands <= 1000000
  {
    [DeepSample(a, b, thousands, 0), DeepSample(a, b, thousands, 1), DeepSample(a, b, thousands, 2)]
  }

  lemma FloorsWinInNanos(a: u64, b: u64, thousands: nat)
    requires Deep(a, b) && thousands <= 1000000
    ensures var o0, o1 := DeepQuote(a, b, thousands, 0), DeepQuote(a, b, thousands, 1);
            var o2 := DeepQuote(a, b, thousands, 2);
            o0 <= o1 <= o2 <= b && (o2 - o1 - 4) * FIRST_STEP > (o1 - o0 + 4) * SECOND_STEP
  {
    var s := DeepSamples(a, b, thousands);
    DeepNets(thousands);
    ConstantProduct.QuoteGrows(a, b, s[0].input, s[1].input, 9970, 9970, 10000);
    ConstantProduct.QuoteGrows(a, b, s[1].input, s[2].input, 9970, 9970, 10000);
    ConstantProduct.QuoteBelowReserve(a, b, s[2].input, 9970, 10000);
    hide ConstantProduct.Quote, ConstantProduct.Net, RestNear, NetNear, Part, Deep;
    var u, r1 := NetFacts(a, b, 9970, 0, s[0], s[0].input);
    var v, r2 := NetFacts(a, b, 9970, 0, s[1], s[1].input);
    var w, r3 := NetFacts(a, b, 9970, 0, s[2], s[2].input);
    DeepIsFlat(a, b, u);
    hide FlatOverSteps;
    FloorsWin((a * b) as real, u, v, w, r1, r2, r3, 1000667.0, 1000333.0);
  }

  lemma DeepIsJudged(a: u64, b: u64, thousands: nat)
    requires Deep(a, b) && thousands <= 1000000
    ensures Apart(DeepSamples(a, b, thousands)) && Judges(DeepSamples(a, b, thousands), NotConcave(0, 1))
  {
    FloorsWinInNanos(a, b, thousands);
    hide DeepQuote, Deep;
    var c := DeepSamples(a, b, thousands);
    assert !Drops(c, 0) && !Drops(c, 1);
    assert Rises(c, 0, 1);
    assert RisesAt(c, 0, 1);
  }

  // ----- What a pool quotes for the sizes it is asked -----

  /** A sell of a whole size pays the integer quote, read back without loss. */
  lemma SoldForQuote(p: Program, st: PoolState, x: real)
    requires IsNormalizer(p) && Quoting(st) && ToNano(x) > 0
    ensures FeeOf(st) <= 10000
    ensures ToNano(QuoteSellX(p, st, x))
         == ConstantProduct.Quote(ToNano(st.x), ToNano(st.y), ToNano(x), 10000 - FeeOf(st), 10000)
  {
    hide IsNormalizer, ConstantProduct.Quote, FeeOf, QuoteSellX;
    ShapePools.PositiveNanos(x);
    hide ToNano;
    var o := QuoteIsNanos(p, st, 1, x);
    SellIsWhole(st, x, o);
  }

  lemma SellIsWhole(st: PoolState, x: real, o: nat)
    requires FeeOf(st) <= 10000 && ToNano(st.x) > 0 && ToNano(st.y) > 0
    requires o == CurveQuote(st, 1, ToNano(x), ToNano(st.x), ToNano(st.y))
    ensures ToNano(o as real / 1000000000.0) == o
  {
    hide FeeOf, ConstantProduct.Quote;
    CurveQuoteBelowReserve(st, 1, ToNano(x), ToNano(st.x), ToNano(st.y));
    NanoRoundTrip(o);
  }

  lemma SoldSize(p: Program, st: PoolState, sizes: seq<real>, minInput: real, s: Sample) returns (x: real)
    requires s in KeptSet(SellCurve(p, st, sizes), minInput)
    ensures x in sizes && ToNano(x) > 0 && s == Sample(ToNano(x), ToNano(QuoteSellX(p, st, x)))
  {
    hide QuoteSellX, ToNano;
    var points := SellCurve(p, st, sizes);
    var q :| q in points && Keeps(q, minInput) && s == ToSample(q);
    var i :| 0 <= i < |points| && points[i] == q;
    x := sizes[i];
  }

  /** No two sizes of different whole nanos are within the merging distance. */
  ghost predicate SeparateSizes(sizes: seq<real>) {
    forall x, y :: x in sizes && y in sizes && ToNano(x) < ToNano(y) ==> ToNano(x) + MERGE_EPS < ToNano(y)
  }

  lemma SoldSamples(p: Program, st: PoolState, sizes: seq<real>, minInput: real, w: nat)
    requires IsNormalizer(p) && Quoting(st)
    requires forall x :: x in sizes ==> Shallow(ToNano(st.x), 10000 - FeeOf(st), w, ToNano(x))
    ensures forall s :: s in KeptSet(SellCurve(p, st, sizes), minInput) ==>
      && s.output == ConstantProduct.Quote(ToNano(st.x), ToNano(st.y), s.input, 10000 - FeeOf(st), 10000)
      && Shallow(ToNano(st.x), 10000 - FeeOf(st), w, s.input)
    ensures SeparateSizes(sizes) ==> Separate(KeptSet(SellCurve(p, st, sizes), minInput))
  {
    hide IsNormalizer, ConstantProduct.Quote, FeeOf, QuoteSellX, ToNano, Shallow, KeptSet, SellCurve;
    var samples := KeptSet(SellCurve(p, st, sizes), minInput);
    forall s | s in samples
      ensures s.output == ConstantProduct.Quote(ToNano(st.x), ToNano(st.y), s.input, 10000 - FeeOf(st), 10000)
      ensures Shallow(ToNano(st.x), 10000 - FeeOf(st), w, s.input)
    {
      var x := SoldSize(p, st, sizes, minInput, s);
      SoldForQuote(p, st, x);
    }
    if SeparateSizes(sizes) {
      forall s, t | s in samples && t in samples && s.input < t.input ensures s.input + MERGE_EPS < t.input {
        var x := SoldSize(p, st, sizes, minInput, s);
        var y := SoldSize(p, st, sizes, minInput, t);
      }
    }
  }

  /** A constant-product submission is never stopped for the X it buys, at any price, while its X and each size together
      are at most about a thousand units, or a fifth of that when sizes are as close as merging takes them. */
  lemma SellsPassTheCheck(p: Program, st: PoolState, sizes: seq<real>, minInput: real, w: nat, v: Verdict)
    requires IsNormalizer(p) && Quoting(st) && ToNano(st.y) + UNCERTAINTY <= U64_MAX
    requires w == 4 || (w == 0 && SeparateSizes(sizes))
    requires forall x :: x in sizes ==> Shallow(ToNano(st.x), 10000 - FeeOf(st), w, ToNano(x))
    requires Judged(SellCurve(p, st, sizes), minInput, v)
    ensures v.Fine?
  {
    hide Judged, IsNormalizer, ConstantProduct.Quote, FeeOf, KeptSet, Shallow, Separate, SeparateSizes, SellCurve,
         ToNano;
    SoldSamples(p, st, sizes, minInput, w);
    var a, b, keep, points := ToNano(st.x), ToNano(st.y), 10000 - FeeOf(st), SellCurve(p, st, sizes);
    if w == 0 {
      SeparateShallowIsAccepted(a, b, keep, points, minInput, v);
    } else {
      ShallowIsAccepted(a, b, keep, points, minInput, v);
    }
  }

  lemma BoughtSamples(p: Program, st: PoolState, sizes: seq<real>, minInput: real, w: nat)
    requires IsNormalizer(p) && Quoting(st)
    requires forall y :: y in sizes ==> Shallow(ToNano(st.y), 10000 - FeeOf(st), w, ToNano(y))
    ensures forall s :: s in KeptSet(BuyCurve(p, st, sizes), minInput) ==>
      && s.output == ConstantProduct.Quote(ToNano(st.y), ToNano(st.x), s.input, 10000 - FeeOf(st), 10000)
      && Shallow(ToNano(st.y), 10000 - FeeOf(st), w, s.input)
    ensures SeparateSizes(sizes) ==> Separate(KeptSet(BuyCurve(p, st, sizes), minInput))
  {
    hide IsNormalizer, ConstantProduct.Quote, FeeOf, QuoteBuyX, ToNano, Shallow, KeptSet, BuyCurve;
    var samples := KeptSet(BuyCurve(p, st, sizes), minInput);
    forall s | s in samples
      ensures s.output == ConstantProduct.Quote(ToNano(st.y), ToNano(st.x), s.input, 10000 - FeeOf(st), 10000)
      ensures Shallow(ToNano(st.y), 10000 - FeeOf(st), w, s.input)
    {
      var y := ShapePools.AskedSize(p, st, sizes, minInput, s);
      ShapePools.BuySampleIsQuote(p, st, sizes, minInput, s);
    }
    if SeparateSizes(sizes) {
      forall s, t | s in samples && t in samples && s.input < t.input ensures s.input + MERGE_EPS < t.input {
        var x := ShapePools.AskedSize(p, st, sizes, minInput, s);
        var y := ShapePools.AskedSize(p, st, sizes, minInput, t);
      }
    }
  }

  /** The same for the X it sells, from the depth of its Y. */
  lemma ShallowBuysPassTheCheck(p: Program, st: PoolState, sizes: seq<real>, minInput: real, w: nat, v: Verdict)
    requires IsNormalizer(p) && Quoting(st) && ToNano(st.x) + UNCERTAINTY <= U64_MAX
    requires w == 4 || (w == 0 && SeparateSizes(sizes))
    requires forall y :: y in sizes ==> Shallow(ToNano(st.y), 10000 - FeeOf(st), w, ToNano(y))
    requires Judged(BuyCurve(p, st, sizes), minInput, v)
    ensures v.Fine?
  {
    hide Judged, IsNormalizer, ConstantProduct.Quote, FeeOf, KeptSet, Shallow, Separate, SeparateSizes, BuyCurve,
         ToNano;
    BoughtSamples(p, st, sizes, minInput, w);
    var a, b, keep, points := ToNano(st.y), ToNano(st.x), 10000 - FeeOf(st), BuyCurve(p, st, sizes);
    if w == 0 {
      SeparateShallowIsAccepted(a, b, keep, points, minInput, v);
    } else {
      ShallowIsAccepted(a, b, keep, points, minInput, v);
    }
  }

  /** A deep pool at 30 basis points is stopped for three sizes of little more than the least it may be asked, and
      nothing but a concavity violation can be the verdict on them. */
  lemma DeepSellsAreRefused(p: Program, st: PoolState, minInput: real) returns (sizes: seq<real>)
    requires IsNormalizer(p) && Quoting(st) && FeeOf(st) == 30 && Deep(ToNano(st.x), ToNano(st.y)) && minInput <= 0.9
    ensures SeparateSizes(sizes) && forall x :: x in sizes ==> minInput < x < 1.0
    ensures forall v :: Judged(SellCurve(p, st, sizes), minInput, v) <==> v == NotConcave(0, 1)
  {
    LeastThousand(minInput);
    assert ToNano(st.x) > 0;
    hide IsNormalizer, FeeOf, ToNano, QuoteSellX, Quoting, Deep, DeepSamples, Judged, Judges, Merges, KeptSet,
         SellCurve;
    var a, b, thousands := ToNano(st.x), ToNano(st.y), ToNano(minInput) / 1000 + 1;
    sizes := DeepSizes(thousands);
    var points, c := SellCurve(p, st, sizes), DeepSamples(a, b, thousands);
    DeepIsJudged(a, b, thousands);
    DeepKept(p, st, minInput, thousands);
    ApartMergesToItself(c);
    hide Apart;
    JudgedBy(points, minInput, c, NotConcave(0, 1));
    forall v | Judged(points, minInput, v) ensures v == NotConcave(0, 1) {
      VerdictIgnoresOrder(points, points, minInput, v, NotConcave(0, 1));
    }
  }

  function DeepSizes(thousands: nat): seq<real>
    requires thousands <= 1000000
  {
    [FromNano(DeepInput(thousands, 0)), FromNano(DeepInput(thousands, 1)), FromNano(DeepInput(thousands, 2))]
  }

  lemma LeastThousand(minInput: real)
    requires minInput <= 0.9
    ensures ToNano(minInput) <= 900000000 && minInput * 1000000000.0 < ToNano(minInput) as real + 1.0
  {}

  lemma DeepKept(p: Program, st: PoolState, minInput: real, thousands: nat)
    requires IsNormalizer(p) && Quoting(st) && FeeOf(st) == 30 && minInput <= 0.9 && thousands <= 1000000
    requires thousands == ToNano(minInput) / 1000 + 1
    ensures KeptSet(SellCurve(p, st, DeepSizes(thousands)), minInput)
         == Elements(DeepSamples(ToNano(st.x), ToNano(st.y), thousands))
    ensures SeparateSizes(DeepSizes(thousands)) && forall x :: x in DeepSizes(thousands) ==> minInput < x < 1.0
  {
    hide IsNormalizer, FeeOf, QuoteSellX, DeepInput, DeepQuote, KeptSet, Keeps, ToSample, ToNano, FromNano;
    var sizes := DeepSizes(thousands);
    var points, c := SellCurve(p, st, sizes), DeepSamples(ToNano(st.x), ToNano(st.y), thousands);
    DeepPoint(p, st, minInput, thousands, 0);
    DeepPoint(p, st, minInput, thousands, 1);
    DeepPoint(p, st, minInput, thousands, 2);
    InputsApart(thousands);
    KeptAre(points, c, minInput);
  }

  lemma InputsApart(thousands: nat)
    ensures DeepInput(thousands, 0) + MERGE_EPS < DeepInput(thousands, 1)
    ensures DeepInput(thousands, 1) + MERGE_EPS < DeepInput(thousands, 2)
  {}

  lemma DeepPoint(p: Program, st: PoolState, minInput: real, thousands: nat, i: nat)
    requires IsNormalizer(p) && Quoting(st) && FeeOf(st) == 30 && minInput <= 0.9 && thousands <= 1000000 && i < 3
    requires thousands == ToNano(minInput) / 1000 + 1
    ensures var x := FromNano(DeepInput(thousands, i));
            && ToNano(x) == DeepInput(thousands, i) && minInput < x < 1.0
            && Keeps((x, QuoteSellX(p, st, x)), minInput)
            && ToSample((x, QuoteSellX(p, st, x))) == DeepSample(ToNano(st.x), ToNano(st.y), thousands, i)
  {
    hide IsNormalizer, FeeOf, QuoteSellX, ConstantProduct.Quote;
    var n := DeepInput(thousands, i);
    var x := FromNano(n);
    NanoRoundTrip(n);
    PastLeast(minInput, n);
    hide ToNano, FromNano;
    SoldForQuote(p, st, x);
  }

  lemma PastLeast(minInput: real, n: nat)
    requires minInput <= 0.9 && ToNano(minInput) < n < 1000000000
    ensures minInput < FromNano(n) < 1.0
  {
    LeastThousand(minInput);
  }
}
