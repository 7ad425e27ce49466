/** The closed-form planner on a real pool: how good its trade is, and what is left to trade after it. */
module ClosedFormPlans {
  import opened Reals
  import opened Nano
  import opened PoolModel
  import opened NormalizerPool
  import opened Arbitrage
  import opened ClosedForm
  import PoolCurve
  import CurveBand

  const NANO: real := 0.000000001

  // ----- The integer quote against the curve of the real reserves -----

  /** At most this much below the curve of the real reserves, and at most that much above it. */
  function QuoteShort(rin: real, rout: real): real
    requires ToNano(rin) > 0
  {
    (2.0 + 2.0 * PoolCurve.PoolPrice(rin, rout)) * NANO
  }

  function QuoteOver(rin: real, rout: real): real
    requires ToNano(rin) > 0
  {
    PoolCurve.PoolPrice(rin, rout) * NANO
  }

  /** Reserves short of saturation, each of at least a nano, and a fee. */
  ghost predicate Sound(st: PoolState) {
    PoolCurve.Quoting(st) && st.x * 1000000000.0 < 18446744073709551616.0 &&
      st.y * 1000000000.0 < 18446744073709551616.0
  }

  lemma FloorShift(rin: real, rout: real, a: real, b: real, n: real, d: real, r: real, whole: real, floored: real)
    requires 0.0 < a <= rin <= a + d && 0.0 <= b <= rout <= b + d && 0.0 <= n && 0.0 < d && r * a == b
    requires whole * (rin + n) == rout * n && floored * (a + n) == b * n && 0.0 <= floored
    ensures whole - d <= floored <= whole + r * d
  {
    ShiftAbove(rin, rout, a, b, n, d, r, whole, floored);
    ShiftBelow(rin, rout, a, b, n, d, whole, floored);
  }

  lemma ShiftAbove(rin: real, rout: real, a: real, b: real, n: real, d: real, r: real, whole: real, floored: real)
    requires 0.0 < a <= rin <= a + d && 0.0 <= b <= rout && 0.0 <= n && 0.0 < d && r * a == b
    requires whole * (rin + n) == rout * n && floored * (a + n) == b * n && 0.0 <= floored
    ensures floored <= whole + r * d
  {
    Cancel(a, 0.0, r);
    PaysAtPrice(a, b, n, r, floored);
    Scale(b, rout, n);
    var u, v, q := rin + n, a + n, r * d;
    Scale(u, v + d, floored);
    assert (v + d) * floored == floored * v + floored * d;
    Scale(floored, r * n, d);
    assert (r * n) * d == n * q;
    NonNegative(r, d);
    Scale(n, u, q);
    CancelSum(u, floored, whole, q);
  }

  lemma CancelSum(u: real, x: real, y: real, z: real)
    requires 0.0 < u && x * u <= y * u + z * u
    ensures x <= y + z
  {
    assert u * (y + z) == y * u + z * u;
    Cancel(u, x, y + z);
  }

  lemma PaysAtPrice(a: real, b: real, n: real, r: real, floored: real)
    requires 0.0 < a && 0.0 <= n && 0.0 <= floored && r * a == b && floored * (a + n) == b * n
    ensures floored <= r * n
  {
    NonNegative(floored, n);
    assert b * n == a * (r * n);
    Cancel(a, floored, r * n);
  }

  lemma ShiftBelow(rin: real, rout: real, a: real, b: real, n: real, d: real, whole: real, floored: real)
    requires 0.0 < a <= rin && 0.0 <= rout <= b + d && 0.0 <= n && 0.0 < d
    requires whole * (rin + n) == rout * n && floored * (a + n) == b * n
    ensures whole - d <= floored
  {
    NonNegative(rout, n);
    Cancel(rin + n, 0.0, whole);
    Scale(a + n, rin + n, whole);
    Scale(rout, b + d, n);
    assert (b + d) * n == b * n + d * n;
    Scale(n, a + n, d);
    CancelSum(a + n, whole, floored, d);
  }

  /** On either side: `quoted` is what the floored curve pays, up to the quote's noise. */
  lemma QuoteNearCurve(rin: real, rout: real, g: real, x: real, quoted: real)
    requires 0.0 < rin && 0.0 < rout && rin * 1000000000.0 < 18446744073709551616.0 &&
             rout * 1000000000.0 < 18446744073709551616.0
    requires ToNano(rin) > 0 && 0.0 <= g && 0.0 <= x
    requires var f := PoolCurve.FlooredCurve(rin, rout, g)(x); f - PoolCurve.QuoteNoise(rin, rout) <= quoted <= f
    ensures Payout(rin, rout, g, x) - QuoteShort(rin, rout) <= quoted <= Payout(rin, rout, g, x) + QuoteOver(rin, rout)
  {
    var a, b := FromNano(ToNano(rin)), FromNano(ToNano(rout));
    NanoTruncates(rin);
    NanoTruncates(rout);
    PayoutTimes(rin, rout, g, x);
    CurveBand.CurveTimes(a, b, g, x);
    CurveBand.CurveTimes(rin, rout, g, x);
    var f, r := CurveBand.Curve(a, b, g)(x), PoolCurve.PoolPrice(rin, rout);
    assert PoolCurve.FlooredCurve(rin, rout, g)(x) == f;
    PoolCurve.NoiseOfPrice(rin, rout);
    PriceInUnits(rin, rout);
    CurvePays(a, b, g, x);
    hide Payout, ToNano, CurveBand.Curve, PoolCurve.FlooredCurve, PoolCurve.QuoteNoise, PoolCurve.PoolPrice;
    NonNegative(g, x);
    FloorShift(rin, rout, a, b, g * x, NANO, r, Payout(rin, rout, g, x), f);
  }

  lemma CurvePays(a: real, b: real, g: real, x: real)
    requires 0.0 < a && 0.0 <= b && 0.0 <= g && 0.0 <= x
    ensures 0.0 <= CurveBand.Curve(a, b, g)(x)
  {
    CurveBand.CurveRises(a, b, g, 0.0, x);
    CurveBand.CurveIsConcave(a, b, g, x);
    hide CurveBand.Curve;
  }

  lemma PriceInUnits(rin: real, rout: real)
    requires ToNano(rin) > 0
    ensures PoolCurve.PoolPrice(rin, rout) * FromNano(ToNano(rin)) == FromNano(ToNano(rout))
  {
    hide ToNano;
    var n, m, r := ToNano(rin) as real, ToNano(rout) as real, PoolCurve.PoolPrice(rin, rout);
    hide PoolCurve.PoolPrice;
    assert r * (n / 1000000000.0) == (r * n) / 1000000000.0;
  }

  lemma BuyNearCurve(p: Program, st: PoolState, y: real)
    requires IsNormalizer(p) && Sound(st) && 0.0 <= y <= MAX_INPUT_AMOUNT
    ensures 0.0 < st.y && 0.0 < st.x && 0.0 <= Gamma(st) <= 1.0
    ensures var f := Payout(st.y, st.x, Gamma(st), y);
            f - QuoteShort(st.y, st.x) <= QuoteBuyX(p, st, y) <= f + QuoteOver(st.y, st.x)
  {
    assert Gamma(st) == PoolCurve.Kept(st) && 0.0 <= Gamma(st) <= 1.0;
    assert 0.0 < st.x && 0.0 < st.y;
    hide Payout, QuoteShort, QuoteOver, QuoteBuyX, Gamma, ToNano, PoolCurve.Kept, PoolCurve.FlooredCurve,
         PoolCurve.QuoteNoise;
    PoolCurve.BuyIsObserved(p, st, y);
    QuoteNearCurve(st.y, st.x, Gamma(st), y, QuoteBuyX(p, st, y));
  }

  lemma SellNearCurve(p: Program, st: PoolState, x: real)
    requires IsNormalizer(p) && Sound(st) && 0.0 <= x <= MAX_INPUT_AMOUNT
    ensures 0.0 < st.y && 0.0 < st.x && 0.0 <= Gamma(st) <= 1.0
    ensures var f := Payout(st.x, st.y, Gamma(st), x);
            f - QuoteShort(st.x, st.y) <= QuoteSellX(p, st, x) <= f + QuoteOver(st.x, st.y)
  {
    assert Gamma(st) == PoolCurve.Kept(st) && 0.0 <= Gamma(st) <= 1.0;
    assert 0.0 < st.x && 0.0 < st.y;
    hide Payout, QuoteShort, QuoteOver, QuoteSellX, Gamma, ToNano, PoolCurve.Kept, PoolCurve.FlooredCurve,
         PoolCurve.QuoteNoise;
    PoolCurve.SellIsObserved(p, st, x);
    QuoteNearCurve(st.x, st.y, Gamma(st), x, QuoteSellX(p, st, x));
  }

  // ----- How good the plan is -----

  /** What the integer quotes can cost the closed form, in units of output: the planned size may be quoted short of the
      curve and the best one above it. */
  function ClosedNoise(rin: real, rout: real): real
    requires ToNano(rin) > 0
  {
    QuoteShort(rin, rout) + QuoteOver(rin, rout)
  }

  lemma BuyTarget(st: PoolState, price: real, root: real -> real)
    requires IsRoot(root) && 0.0 < price && 0.0 < st.x && 0.0 < st.y && 0.0 < Gamma(st) <= 1.0
    ensures Market(price, st.y, st.x, Gamma(st))
    ensures Target(price, st.y, st.x, Gamma(st), root(BuyTargetSquared(price, st.x, Gamma(st), st.y)))
  {
    var g := Gamma(st);
    hide Gamma;
    NonNegative(price, st.x);
    NonNegative(price * st.x, g);
    NonNegative(price * st.x * g, st.y);
  }

  lemma SellTarget(st: PoolState, price: real, inverse: real, root: real -> real)
    requires IsRoot(root) && 0.0 < price && price * inverse == 1.0 && 0.0 < st.x && 0.0 < st.y && 0.0 < Gamma(st) <= 1.0
    ensures Market(inverse, st.x, st.y, Gamma(st))
    ensures Target(inverse, st.x, st.y, Gamma(st), root(SellTargetSquared(price, st.x, Gamma(st), st.y)))
  {
    var g := Gamma(st);
    hide Gamma;
    InverseIsPositive(price, inverse);
    NonNegative(st.y, st.x);
    NonNegative(st.y * st.x, g);
    Inverted(price, inverse, st.y * st.x * g, SellTargetSquared(price, st.x, g, st.y));
    NonNegative(inverse, st.y * st.x * g);
    assert inverse * (st.y * st.x * g) == inverse * st.y * g * st.x;
  }

  lemma InverseIsPositive(price: real, inverse: real)
    requires 0.0 < price && price * inverse == 1.0
    ensures 0.0 < inverse
  {}

  lemma Inverted(price: real, inverse: real, v: real, q: real)
    requires 0.0 < price && price * inverse == 1.0 && q == v / price
    ensures q == inverse * v
  {
    assert q * price == v;
  }

  /** The profit of one quote against that of the planned one. */
  lemma NearlyAsGood(price: real, size: real, planned: real, f: real, fp: real, q: real, qp: real, under: real,
                     over: real)
    requires 0.0 <= price && price * f - size <= price * fp - planned
    requires q <= f + over && fp - under <= qp
    ensures q * price - size <= qp * price - planned + price * (under + over)
  {
    Scale(q, f + over, price);
    Scale(fp - under, qp, price);
  }

  lemma NothingBeats(price: real, size: real, f: real, q: real, under: real, over: real)
    requires 0.0 <= price && price * f - size <= 0.0 && q <= f + over && 0.0 <= under
    ensures q * price - size <= price * (under + over)
  {
    Scale(q, f + over, price);
    NonNegative(price, under);
  }

  /** With the target at or below the reserve, or the whole input taken as fee, no size earns more than the noise. */
  lemma ClosedBuyEarnsNothing(p: Program, st: PoolState, price: real, root: real -> real, y: real)
    requires IsNormalizer(p) && Sound(st) && IsRoot(root) && 0.0 < price && 0.0 <= y <= MAX_INPUT_AMOUNT
    requires Gamma(st) <= 0.0 || root(BuyTargetSquared(price, st.x, Gamma(st), st.y)) <= st.y
    ensures QuoteBuyX(p, st, y) * price - y <= price * ClosedNoise(st.y, st.x)
  {
    hide IsNormalizer, ToNano, QuoteBuyX, QuoteShort, QuoteOver, Payout, IsRoot, BuyTargetSquared;
    BuyNearCurve(p, st, y);
    NoiseIsPositive(st.y, st.x);
    var g := Gamma(st);
    hide Gamma, Sound;
    if g <= 0.0 {
      PayoutOfNothing(st.y, st.x, g, y);
    } else {
      BuyTarget(st, price, root);
      NothingToEarn(price, st.y, st.x, g, root(BuyTargetSquared(price, st.x, g, st.y)), y);
      hide Target;
    }
    NothingBeats(price, y, Payout(st.y, st.x, g, y), QuoteBuyX(p, st, y), QuoteShort(st.y, st.x),
                 QuoteOver(st.y, st.x));
  }

  /** No size earns more than the planned one, but for the noise. */
  lemma PlannedBuyEarnsMost(p: Program, st: PoolState, price: real, root: real -> real, y: real, yp: real)
    requires IsNormalizer(p) && Sound(st) && IsRoot(root) && 0.0 < price && MinBuyInputY() <= y <= MAX_INPUT_AMOUNT
    requires 0.0 < Gamma(st)
    requires yp == Planned(st.y, Gamma(st), root(BuyTargetSquared(price, st.x, Gamma(st), st.y)), MinBuyInputY(),
                           MAX_INPUT_AMOUNT)
    ensures QuoteBuyX(p, st, y) * price - y <= QuoteBuyX(p, st, yp) * price - yp + price * ClosedNoise(st.y, st.x)
  {
    hide IsNormalizer, ToNano, QuoteBuyX, QuoteShort, QuoteOver, Payout, IsRoot, BuyTargetSquared, Planned, Gamma;
    BuyNearCurve(p, st, y);
    BuyNearCurve(p, st, yp);
    var g := Gamma(st);
    hide Sound;
    BuyTarget(st, price, root);
    PlannedIsOptimal(price, st.y, st.x, g, root(BuyTargetSquared(price, st.x, g, st.y)), MinBuyInputY(),
                     MAX_INPUT_AMOUNT, y);
    hide Target;
    NearlyAsGood(price, y, yp, Payout(st.y, st.x, g, y), Payout(st.y, st.x, g, yp), QuoteBuyX(p, st, y),
                 QuoteBuyX(p, st, yp),
                 QuoteShort(st.y, st.x), QuoteOver(st.y, st.x));
  }

  /** No size the planner could have chosen earns more than its plan promises, or than the floor where it has none, by
      more than what the integer quotes are worth. */
  lemma PlannedBuyIsNearlyOptimal(p: Program, st: PoolState, price: real, floor: real, root: real -> real, y: real)
    requires IsNormalizer(p) && Sound(st) && IsRoot(root) && 0.0 < price && 0.0 <= floor
    requires MinBuyInputY() <= y <= MAX_INPUT_AMOUNT
    ensures var plan := PlanNormalizerBuy(p, st, price, floor, root);
            BuyProfit(p, st, price)(y) <= (if plan.Some? then plan.value.profit else floor) +
              price * ClosedNoise(st.y, st.x)
  {
    hide QuoteBuyX, ClosedNoise, IsRoot, BuyTargetSquared, Planned, Gamma, ToNano, IsNormalizer;
    assert 0.0 < st.x && 0.0 < st.y by { BuyNearCurve(p, st, y); }
    var g := Gamma(st);
    assert BuyProfit(p, st, price)(y) == QuoteBuyX(p, st, y) * price - y;
    hide BuyProfit, Sound;
    if g <= 0.0 || root(BuyTargetSquared(price, st.x, g, st.y)) <= st.y {
      ClosedBuyEarnsNothing(p, st, price, root, y);
    } else {
      var yp := Planned(st.y, g, root(BuyTargetSquared(price, st.x, g, st.y)), MinBuyInputY(), MAX_INPUT_AMOUNT);
      PlannedBuyEarnsMost(p, st, price, root, y, yp);
      BuyPlanIs(p, st, price, floor, root, yp);
      hide PlanNormalizerBuy;
      PositivePayment(QuoteBuyX(p, st, yp), price, yp);
    }
  }

  lemma PositivePayment(quoted: real, price: real, size: real)
    requires 0.0 < size
    ensures quoted == 0.0 ==> quoted * price - size <= 0.0
  {}

  lemma NoiseIsPositive(rin: real, rout: real)
    requires ToNano(rin) > 0
    ensures 0.0 <= QuoteShort(rin, rout) && 0.0 <= QuoteOver(rin, rout)
  {
    hide PoolCurve.PoolPrice;
  }

  lemma PayoutOfNothing(rin: real, rout: real, g: real, x: real)
    requires 0.0 < rin && g == 0.0 && 0.0 <= x
    ensures Payout(rin, rout, g, x) == 0.0
  {}

  lemma BuyPlanIs(p: Program, st: PoolState, price: real, floor: real, root: real -> real, y: real)
    requires 0.0 < Gamma(st) && 0.0 < st.x && 0.0 < st.y && root(BuyTargetSquared(price, st.x, Gamma(st), st.y)) > st.y
    requires y == Planned(st.y, Gamma(st), root(BuyTargetSquared(price, st.x, Gamma(st), st.y)), MinBuyInputY(),
                          MAX_INPUT_AMOUNT)
    ensures PlanNormalizerBuy(p, st, price, floor, root) ==
            Accept(BuyX, y, QuoteBuyX(p, st, y), QuoteBuyX(p, st, y) * price - y, MinBuyInputY(), floor)
  {
    hide QuoteBuyX, Gamma, BuyTargetSquared, Accept;
    assert BuyProfit(p, st, price)(y) == QuoteBuyX(p, st, y) * price - y;
    hide BuyProfit;
  }

  lemma ClosedSellEarnsNothing(p: Program, st: PoolState, price: real, root: real -> real, x: real)
    requires IsNormalizer(p) && Sound(st) && IsRoot(root) && 0.0 < price && 0.0 <= x <= MAX_INPUT_AMOUNT
    requires Gamma(st) <= 0.0 || root(SellTargetSquared(price, st.x, Gamma(st), st.y)) <= st.x
    ensures QuoteSellX(p, st, x) - x * price <= ClosedNoise(st.x, st.y)
  {
    hide IsNormalizer, ToNano, QuoteSellX, QuoteShort, QuoteOver, Payout, IsRoot, SellTargetSquared;
    SellNearCurve(p, st, x);
    NoiseIsPositive(st.x, st.y);
    var g, inverse := Gamma(st), 1.0 / price;
    hide Gamma, Sound;
    if g <= 0.0 {
      PayoutOfNothing(st.x, st.y, g, x);
      NonNegative(x, price);
    } else {
      SellTarget(st, price, inverse, root);
      NothingToEarn(inverse, st.x, st.y, g, root(SellTargetSquared(price, st.x, g, st.y)), x);
      hide Target;
      InY(price, inverse, x, Payout(st.x, st.y, g, x), 0.0, 0.0);
    }
  }

  lemma PlannedSellEarnsMost(p: Program, st: PoolState, price: real, root: real -> real, x: real, xp: real)
    requires IsNormalizer(p) && Sound(st) && IsRoot(root) && 0.0 < price &&
             MinSellInputX(price) <= x <= MAX_INPUT_AMOUNT
    requires 0.0 < Gamma(st)
    requires xp == Planned(st.x, Gamma(st), root(SellTargetSquared(price, st.x, Gamma(st), st.y)),
                           MinSellInputX(price), MAX_INPUT_AMOUNT)
    ensures QuoteSellX(p, st, x) - x * price <= QuoteSellX(p, st, xp) - xp * price + ClosedNoise(st.x, st.y)
  {
    hide IsNormalizer, ToNano, QuoteSellX, QuoteShort, QuoteOver, Payout, IsRoot, SellTargetSquared, Planned, Gamma;
    hide MinSellInputX;
    SellRangeIsProper(price);
    SellNearCurve(p, st, x);
    SellNearCurve(p, st, xp);
    var g, inverse := Gamma(st), 1.0 / price;
    hide Sound;
    SellTarget(st, price, inverse, root);
    PlannedIsOptimal(inverse, st.x, st.y, g, root(SellTargetSquared(price, st.x, g, st.y)), MinSellInputX(price),
                     MAX_INPUT_AMOUNT, x);
    hide Target;
    InY(price, inverse, x, Payout(st.x, st.y, g, x), xp, Payout(st.x, st.y, g, xp));
  }

  /** The same for a sell; its curve pays in Y, which is what profit is counted in. */
  lemma PlannedSellIsNearlyOptimal(p: Program, st: PoolState, price: real, floor: real, root: real -> real, x: real)
    requires IsNormalizer(p) && Sound(st) && IsRoot(root) && 0.0 < price && 0.0 <= floor
    requires MinSellInputX(price) <= x <= MAX_INPUT_AMOUNT
    ensures var plan := PlanNormalizerSell(p, st, price, floor, root);
            SellProfit(p, st, price)(x) <= (if plan.Some? then plan.value.profit else floor) + ClosedNoise(st.x, st.y)
  {
    hide QuoteSellX, ClosedNoise, IsRoot, SellTargetSquared, Planned, Gamma, ToNano, IsNormalizer, MinSellInputX;
    SellRangeIsProper(price);
    assert 0.0 < st.x && 0.0 < st.y by { SellNearCurve(p, st, x); }
    var g := Gamma(st);
    assert SellProfit(p, st, price)(x) == QuoteSellX(p, st, x) - x * price;
    hide SellProfit, Sound;
    if g <= 0.0 || root(SellTargetSquared(price, st.x, g, st.y)) <= st.x {
      ClosedSellEarnsNothing(p, st, price, root, x);
    } else {
      var xp := Planned(st.x, g, root(SellTargetSquared(price, st.x, g, st.y)), MinSellInputX(price), MAX_INPUT_AMOUNT);
      PlannedSellEarnsMost(p, st, price, root, x, xp);
      SellPlanIs(p, st, price, floor, root, xp);
      hide PlanNormalizerSell;
      NonNegative(xp, price);
    }
  }

  /** Profit in X at the inverse price, turned into Y. */
  lemma InY(price: real, inverse: real, x: real, f: real, xp: real, fp: real)
    requires 0.0 < price && price * inverse == 1.0 && inverse * f - x <= inverse * fp - xp
    ensures f - x * price <= fp - xp * price
  {
    Scale(inverse * f - x, inverse * fp - xp, price);
    assert (inverse * f - x) * price == (price * inverse) * f - x * price;
    assert (inverse * fp - xp) * price == (price * inverse) * fp - xp * price;
  }

  lemma SellPlanIs(p: Program, st: PoolState, price: real, floor: real, root: real -> real, x: real)
    requires 0.0 < price && MinSellInputX(price) <= MAX_INPUT_AMOUNT
    requires 0.0 < Gamma(st) && 0.0 < st.x && 0.0 < st.y && root(SellTargetSquared(price, st.x, Gamma(st), st.y)) > st.x
    requires x == Planned(st.x, Gamma(st), root(SellTargetSquared(price, st.x, Gamma(st), st.y)),
                          MinSellInputX(price), MAX_INPUT_AMOUNT)
    ensures PlanNormalizerSell(p, st, price, floor, root) ==
            Accept(SellX, x, QuoteSellX(p, st, x), QuoteSellX(p, st, x) - x * price, MinSellInputX(price), floor)
  {
    hide QuoteSellX, Gamma, SellTargetSquared, Accept, MinSellInputX;
    assert SellProfit(p, st, price)(x) == QuoteSellX(p, st, x) - x * price;
    hide SellProfit;
  }

  // ----- What is left to trade -----

  /** The plan is the size aimed for, clamped by neither end of the range. */
  ghost predicate IsUnclampedBuy(p: Program, st: PoolState, price: real, floor: real, root: real -> real) {
    var plan := PlanNormalizerBuy(p, st, price, floor, root);
    plan.Some? && Gamma(st) * plan.value.input == root(BuyTargetSquared(price, st.x, Gamma(st), st.y)) - st.y
  }

  /** The fee on the least size covers what a quote can fall short of the curve by, and the fee on the reserve what it
      can exceed it by. */
  ghost predicate FeeCoversQuotes(price: real, g: real, under: real, over: real, min: real, rin: real) {
    FeeCoversShort(price * g, 1.0 - g, under, min) && FeeCoversExcess(price * g, 1.0 - g, over, rin + g * rin)
  }

  /** Known before the trade: the fee, the price and the reserves. */
  ghost predicate FeeCoversBuy(st: PoolState, price: real)
    requires ToNano(st.y) > 0
  {
    FeeCoversQuotes(price, Gamma(st), QuoteShort(st.y, st.x), QuoteOver(st.y, st.x), MinBuyInputY(), st.y)
  }

  /** After an unclamped closed-form buy neither planner finds a trade at the same price, whatever the floor. */
  lemma NothingAfterBuy(p: Program, st: PoolState, price: real, floor: real, root: real -> real, later: real)
    requires IsNormalizer(p) && Sound(st) && IsRoot(root) && 0.0 < price
    requires IsUnclampedBuy(p, st, price, floor, root) && FeeCoversBuy(st, price)
    ensures var next := ExecuteCandidate(p, st, price, PlanNormalizerBuy(p, st, price, floor, root).value).0;
            PlanNormalizerBuy(p, next, price, later, root).None? &&
              PlanNormalizerSell(p, next, price, later, root).None?
  {
    hide ToNano, IsNormalizer, IsRoot, BuyTargetSquared, SellTargetSquared, FeeCoversBuy, QuoteBuyX, Gamma;
    var y := PlannedBuyFacts(p, st, price, floor, root);
    var c := PlanNormalizerBuy(p, st, price, floor, root).value;
    hide PlanNormalizerBuy, PlanNormalizerSell;
    BuyMoves(p, st, price, c);
    hide ExecuteCandidate, ExecuteBuyX;
    SettledBuy(p, st, y);
    BuyClosesBoth(p, st, ExecuteBuyX(p, st, y).0, price, root, y);
    ClosedPlansNothing(p, ExecuteBuyX(p, st, y).0, price, later, root);
  }

  lemma BuyMoves(p: Program, st: PoolState, price: real, c: Candidate)
    requires c.side.BuyX?
    ensures ExecuteCandidate(p, st, price, c).0 == ExecuteBuyX(p, st, c.input).0
  {
    hide ExecuteBuyX;
  }

  /** Both targets lie at or below their reserves. */
  ghost predicate BothClosed(st: PoolState, price: real, root: real -> real)
    requires 0.0 < price
  {
    && root(BuyTargetSquared(price, st.x, Gamma(st), st.y)) <= st.y
    && root(SellTargetSquared(price, st.x, Gamma(st), st.y)) <= st.x
  }

  lemma ClosedPlansNothing(p: Program, st: PoolState, price: real, floor: real, root: real -> real)
    requires 0.0 < price && BothClosed(st, price, root)
    ensures PlanNormalizerBuy(p, st, price, floor, root).None? && PlanNormalizerSell(p, st, price, floor, root).None?
  {
    hide QuoteBuyX, QuoteSellX, BuyTargetSquared, SellTargetSquared, Gamma, MinSellInputX;
  }

  lemma PlannedBuyFacts(p: Program, st: PoolState, price: real, floor: real, root: real -> real) returns (y: real)
    requires PlanNormalizerBuy(p, st, price, floor, root).Some?
    ensures PlanNormalizerBuy(p, st, price, floor, root).value.input == y
    ensures PlanNormalizerBuy(p, st, price, floor, root).value.side == BuyX
    ensures MinBuyInputY() <= y <= MAX_INPUT_AMOUNT && 0.0 < QuoteBuyX(p, st, y) && 0.0 < Gamma(st)
    ensures root(BuyTargetSquared(price, st.x, Gamma(st), st.y)) > st.y
  {
    hide QuoteBuyX, BuyTargetSquared, Gamma;
    y := PlanNormalizerBuy(p, st, price, floor, root).value.input;
  }

  lemma SettledBuy(p: Program, st: PoolState, y: real)
    requires IsNormalizer(p) && Configured(st) && 0.0 < QuoteBuyX(p, st, y)
    ensures var next := ExecuteBuyX(p, st, y).0;
            && next.x == st.x - QuoteBuyX(p, st, y) > 0.0 && next.y == st.y + y && Gamma(next) == Gamma(st)
  {
    hide QuoteBuyX, ExecuteBuyX, IsNormalizer, Configured;
    NormalizerNeverRejects(p, st, y);
    BuyReportsReserveChange(p, st, y);
  }

  lemma BuyClosesBoth(p: Program, st: PoolState, next: PoolState, price: real, root: real -> real, y: real)
    requires IsNormalizer(p) && Sound(st) && IsRoot(root) && 0.0 < price && FeeCoversBuy(st, price) && 0.0 < Gamma(st)
    requires MinBuyInputY() <= y <= MAX_INPUT_AMOUNT && root(BuyTargetSquared(price, st.x, Gamma(st), st.y)) > st.y
    requires Gamma(st) * y == root(BuyTargetSquared(price, st.x, Gamma(st), st.y)) - st.y
    requires next.x == st.x - QuoteBuyX(p, st, y) > 0.0 && next.y == st.y + y && Gamma(next) == Gamma(st)
    ensures BothClosed(next, price, root)
  {
    hide IsNormalizer, QuoteBuyX, IsRoot, BuyTargetSquared, SellTargetSquared, Payout, Gamma, ToNano;
    hide FeeCoversShort, FeeCoversExcess, FeeCoversBuy, Sound, Target, Market, MinBuyInputY, MAX_INPUT_AMOUNT;
    var g, t, inverse := Gamma(st), root(BuyTargetSquared(price, st.x, Gamma(st), st.y)), Inverse(price);
    var slip := BuySlipIsCovered(p, st, price, y, t);
    hide SlipCovered;
    BuyTarget(st, price, root);
    BuyTarget(next, price, root);
    SellTarget(next, price, inverse, root);
    ClosedAfter(price, inverse, st.y, st.x, g, t, y, QuoteBuyX(p, st, y), slip, next.y, next.x,
                root(BuyTargetSquared(price, next.x, g, next.y)), root(SellTargetSquared(price, next.x, g, next.y)));
  }

  /** The two targets after a trade that paid `out`, in plain numbers. */
  lemma ClosedAfter(price: real, inverse: real, rin: real, rout: real, g: real, t: real, best: real, out: real,
                    slip: real,
                    rin2: real, rout2: real, again: real, back: real)
    requires Market(price, rin, rout, g) && price * inverse == 1.0 && 0.0 < inverse
    requires Target(price, rin, rout, g, t) && t > rin && g * best == t - rin && 0.0 <= best
    requires rin2 == rin + best && rout2 == rout - out > 0.0
    requires Target(price, rin2, rout2, g, again) && Target(inverse, rout2, rin2, g, back)
    requires slip == Payout(rin, rout, g, best) - out && SlipCovered(price, g, slip, best, rin, t)
    ensures again <= rin2 && back <= rout2
  {
    hide Payout, Target;
    assert rout - Payout(rin, rout, g, best) + slip == rout2;
    AfterTheTrade(price, inverse, rin, rout, g, t, best, slip, again, back);
  }

  /** The fee covers what the quote fell short of the curve, or exceeded it by. */
  ghost predicate SlipCovered(price: real, g: real, slip: real, input: real, rin: real, t: real) {
    FeeCoversShort(price * g, 1.0 - g, slip, input) && FeeCoversExcess(price * g, 1.0 - g, -slip, t + g * rin)
  }

  lemma BuySlipIsCovered(p: Program, st: PoolState, price: real, y: real, t: real) returns (slip: real)
    requires IsNormalizer(p) && Sound(st) && 0.0 < price && FeeCoversBuy(st, price)
    requires MinBuyInputY() <= y <= MAX_INPUT_AMOUNT && st.y <= t
    ensures 0.0 < st.y && 0.0 < st.x && 0.0 <= Gamma(st) <= 1.0 && 0.0 < y
    ensures slip == Payout(st.y, st.x, Gamma(st), y) - QuoteBuyX(p, st, y) &&
            SlipCovered(price, Gamma(st), slip, y, st.y, t)
  {
    hide IsNormalizer, QuoteBuyX, Payout, Gamma, QuoteShort, QuoteOver, FeeCoversQuotes, SlipCovered;
    BuyNearCurve(p, st, y);
    slip := Payout(st.y, st.x, Gamma(st), y) - QuoteBuyX(p, st, y);
    hide Sound;
    FeeCoversSlip(price, Gamma(st), slip, QuoteShort(st.y, st.x), QuoteOver(st.y, st.x), MinBuyInputY(), y, st.y, t);
  }

  function Inverse(price: real): (inverse: real)
    requires 0.0 < price
    ensures 0.0 < inverse && price * inverse == 1.0
  {
    1.0 / price
  }

  lemma FeeCoversSlip(price: real, g: real, slip: real, under: real, over: real, min: real, input: real, rin: real,
                      t: real)
    requires 0.0 < price && 0.0 <= g <= 1.0 && FeeCoversQuotes(price, g, under, over, min, rin)
    requires -over <= slip <= under && min <= input && rin <= t
    ensures SlipCovered(price, g, slip, input, rin, t)
  {
    NonNegative(price, g);
    CoversLess(price * g, 1.0 - g, slip, under, min, input);
    CoversExcess(price * g, 1.0 - g, -slip, over, rin + g * rin, t + g * rin);
    hide FeeCoversShort, FeeCoversExcess;
  }

  lemma CoversLess(worth: real, fee: real, short: real, most: real, least: real, input: real)
    requires 0.0 <= worth && 0.0 <= fee && short <= most && least <= input && FeeCoversShort(worth, fee, most, least)
    ensures FeeCoversShort(worth, fee, short, input)
  {
    Scale(short, most, worth);
    Scale(least, input, fee);
  }

  lemma CoversExcess(worth: real, fee: real, excess: real, most: real, least: real, reserves: real)
    requires 0.0 <= worth && 0.0 <= fee && excess <= most && least <= reserves &&
             FeeCoversExcess(worth, fee, most, least)
    ensures FeeCoversExcess(worth, fee, excess, reserves)
  {
    Scale(excess, most, worth);
    Scale(least, reserves, fee);
  }

  // ----- The same after a sell -----

  ghost predicate IsUnclampedSell(p: Program, st: PoolState, price: real, floor: real, root: real -> real)
    requires 0.0 < price
  {
    var plan := PlanNormalizerSell(p, st, price, floor, root);
    plan.Some? && Gamma(st) * plan.value.input == root(SellTargetSquared(price, st.x, Gamma(st), st.y)) - st.x
  }

  ghost predicate FeeCoversSell(st: PoolState, price: real)
    requires ToNano(st.x) > 0 && 0.0 < price
  {
    FeeCoversQuotes(Inverse(price), Gamma(st), QuoteShort(st.x, st.y), QuoteOver(st.x, st.y), MinSellInputX(price),
                    st.x)
  }

  /** After an unclamped closed-form sell neither planner finds a trade at the same price, whatever the floor. */
  lemma NothingAfterSell(p: Program, st: PoolState, price: real, floor: real, root: real -> real, later: real)
    requires IsNormalizer(p) && Sound(st) && IsRoot(root) && 0.0 < price
    requires IsUnclampedSell(p, st, price, floor, root) && FeeCoversSell(st, price)
    ensures var next := ExecuteCandidate(p, st, price, PlanNormalizerSell(p, st, price, floor, root).value).0;
            PlanNormalizerBuy(p, next, price, later, root).None? &&
              PlanNormalizerSell(p, next, price, later, root).None?
  {
    hide ToNano, IsNormalizer, IsRoot, BuyTargetSquared, SellTargetSquared, FeeCoversSell, QuoteSellX, Gamma,
         MinSellInputX;
    var x := PlannedSellFacts(p, st, price, floor, root);
    var c := PlanNormalizerSell(p, st, price, floor, root).value;
    hide PlanNormalizerBuy, PlanNormalizerSell;
    SellMoves(p, st, price, c);
    hide ExecuteCandidate, ExecuteSellX;
    SettledSell(p, st, x);
    SellClosesBoth(p, st, ExecuteSellX(p, st, x).0, price, root, x);
    ClosedPlansNothing(p, ExecuteSellX(p, st, x).0, price, later, root);
  }

  lemma SellMoves(p: Program, st: PoolState, price: real, c: Candidate)
    requires c.side.SellX?
    ensures ExecuteCandidate(p, st, price, c).0 == ExecuteSellX(p, st, c.input).0
  {
    hide ExecuteSellX;
  }

  lemma PlannedSellFacts(p: Program, st: PoolState, price: real, floor: real, root: real -> real) returns (x: real)
    requires 0.0 < price && PlanNormalizerSell(p, st, price, floor, root).Some?
    ensures PlanNormalizerSell(p, st, price, floor, root).value.input == x
    ensures PlanNormalizerSell(p, st, price, floor, root).value.side == SellX
    ensures MinSellInputX(price) <= x <= MAX_INPUT_AMOUNT && 0.0 < QuoteSellX(p, st, x) && 0.0 < Gamma(st)
    ensures root(SellTargetSquared(price, st.x, Gamma(st), st.y)) > st.x
  {
    hide QuoteSellX, SellTargetSquared, Gamma, MinSellInputX;
    SellRangeIsProper(price);
    x := PlanNormalizerSell(p, st, price, floor, root).value.input;
  }

  lemma SettledSell(p: Program, st: PoolState, x: real)
    requires IsNormalizer(p) && Configured(st) && 0.0 < QuoteSellX(p, st, x)
    ensures var next := ExecuteSellX(p, st, x).0;
            && next.y == st.y - QuoteSellX(p, st, x) > 0.0 && next.x == st.x + x && Gamma(next) == Gamma(st)
  {
    hide QuoteSellX, ExecuteSellX, IsNormalizer, Configured;
    NormalizerNeverRejects(p, st, x);
    SellReportsReserveChange(p, st, x);
  }

  lemma SellClosesBoth(p: Program, st: PoolState, next: PoolState, price: real, root: real -> real, x: real)
    requires IsNormalizer(p) && Sound(st) && IsRoot(root) && 0.0 < price && FeeCoversSell(st, price) && 0.0 < Gamma(st)
    requires MinSellInputX(price) <= x <= MAX_INPUT_AMOUNT &&
             root(SellTargetSquared(price, st.x, Gamma(st), st.y)) > st.x
    requires Gamma(st) * x == root(SellTargetSquared(price, st.x, Gamma(st), st.y)) - st.x
    requires next.y == st.y - QuoteSellX(p, st, x) > 0.0 && next.x == st.x + x && Gamma(next) == Gamma(st)
    ensures BothClosed(next, price, root)
  {
    hide IsNormalizer, QuoteSellX, IsRoot, BuyTargetSquared, SellTargetSquared, Payout, Gamma, ToNano, FeeCoversSell;
    hide Sound, Target, Market, MinSellInputX, MAX_INPUT_AMOUNT, Inverse;
    var g, t, inverse := Gamma(st), root(SellTargetSquared(price, st.x, Gamma(st), st.y)), Inverse(price);
    var slip := SellSlipIsCovered(p, st, price, x, t);
    hide SlipCovered;
    SellTarget(st, price, inverse, root);
    SellTarget(next, price, inverse, root);
    BuyTarget(next, price, root);
    ClosedAfter(inverse, price, st.x, st.y, g, t, x, QuoteSellX(p, st, x), slip, next.x, next.y,
                root(SellTargetSquared(price, next.x, g, next.y)), root(BuyTargetSquared(price, next.x, g, next.y)));
  }

  lemma SellSlipIsCovered(p: Program, st: PoolState, price: real, x: real, t: real) returns (slip: real)
    requires IsNormalizer(p) && Sound(st) && 0.0 < price && FeeCoversSell(st, price)
    requires MinSellInputX(price) <= x <= MAX_INPUT_AMOUNT && st.x <= t
    ensures 0.0 < st.y && 0.0 < st.x && 0.0 <= Gamma(st) <= 1.0 && 0.0 < x
    ensures slip == Payout(st.x, st.y, Gamma(st), x) - QuoteSellX(p, st, x)
    ensures SlipCovered(Inverse(price), Gamma(st), slip, x, st.x, t)
  {
    SellRangeIsProper(price);
    hide IsNormalizer, QuoteSellX, Payout, Gamma, QuoteShort, QuoteOver, FeeCoversQuotes, SlipCovered, MinSellInputX,
         Inverse;
    SellNearCurve(p, st, x);
    slip := Payout(st.x, st.y, Gamma(st), x) - QuoteSellX(p, st, x);
    hide Sound;
    FeeCoversSlip(Inverse(price), Gamma(st), slip, QuoteShort(st.x, st.y), QuoteOver(st.x, st.y),
                  MinSellInputX(price), x, st.x, t);
  }
}
