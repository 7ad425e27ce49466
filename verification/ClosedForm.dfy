/** The closed-form trade against a constant-product pool with a fee, on the curve in real numbers. */
module ClosedForm {
  import opened Reals

  /** What the curve pays for `input` when the fee leaves the part `g` of it. */
  function Payout(rin: real, rout: real, g: real, input: real): (out: real)
    requires 0.0 < rin && 0.0 <= g && 0.0 <= input
  {
    NonNegative(g, input);
    rout * (g * input) / (rin + g * input)
  }

  /** The value of the payout at `price`, less the input. */
  function Profit(price: real, rin: real, rout: real, g: real, input: real): real
    requires 0.0 < rin && 0.0 <= g && 0.0 <= input
  {
    price * Payout(rin, rout, g, input) - input
  }

  /** The input reserve, net of fee, that the trade aims for: the root of price times both reserves times `g`. */
  ghost predicate Target(price: real, rin: real, rout: real, g: real, t: real) {
    0.0 <= t && t * t == price * rout * g * rin
  }

  ghost predicate Market(price: real, rin: real, rout: real, g: real) {
    0.0 < price && 0.0 < rin && 0.0 < rout && 0.0 < g <= 1.0
  }

  /** What the trade costs as a function of the net input reserve `u`, up to a constant. */
  function Cost(t: real, u: real): real
    requires 0.0 < u
  {
    t * t / u + u
  }

  lemma PayoutTimes(rin: real, rout: real, g: real, input: real)
    requires 0.0 < rin && 0.0 <= g && 0.0 <= input
    ensures 0.0 < rin + g * input && Payout(rin, rout, g, input) * (rin + g * input) == rout * (g * input)
  {
    NonNegative(g, input);
  }

  /** Profit is a constant less the cost. */
  lemma ProfitIsCost(price: real, rin: real, rout: real, g: real, t: real, input: real)
    requires Market(price, rin, rout, g) && Target(price, rin, rout, g, t) && 0.0 <= input
    ensures 0.0 < rin + g * input
    ensures g * Profit(price, rin, rout, g, input) == g * price * rout + rin - Cost(t, rin + g * input)
  {
    PayoutTimes(rin, rout, g, input);
    var u := rin + g * input;
    var out := Payout(rin, rout, g, input);
    hide Payout;
    CostTerm(price, rin, rout, g, t, input, u, out, t * t / u);
  }

  lemma CostTerm(price: real, rin: real, rout: real, g: real, t: real, input: real, u: real, out: real, c: real)
    requires 0.0 < u == rin + g * input && out * u == rout * (g * input) && c * u == t * t == price * rout * g * rin
    ensures g * (price * out - input) == g * price * rout + rin - (c + u)
  {
    var lhs := g * price * out;
    var rhs := g * price * rout - c;
    assert lhs * u == (g * price) * (rout * (g * input));
    assert rhs * u == (g * price * rout) * u - price * rout * g * rin;
    assert lhs * u == rhs * u;
    assert lhs == rhs;
  }

  /** The cost is least at the target and grows away from it on either side. */
  lemma CostGrowsAbove(t: real, u: real, v: real)
    requires 0.0 < u <= v && 0.0 <= t <= u
    ensures Cost(t, u) <= Cost(t, v)
  {
    CostGap(t, u, v, t * t / u, t * t / v);
  }

  lemma CostGap(t: real, u: real, v: real, cu: real, cv: real)
    requires 0.0 < u <= v && 0.0 <= t <= u && cu * u == t * t && cv * v == t * t
    ensures cu + u <= cv + v
  {
    var w := u * v;
    assert cu * w == (cu * u) * v && cv * w == (cv * v) * u;
    SquareBelow(t, u, v);
    Scale(t * t, w, v - u);
    Cancel(w, cu - cv, v - u);
  }

  lemma SquareBelow(t: real, u: real, v: real)
    requires 0.0 <= t <= u <= v
    ensures t * t <= u * v
  {
    NonNegative(u - t, t);
    NonNegative(v - t, u);
  }

  lemma CostGrowsBelow(t: real, v: real, u: real)
    requires 0.0 < v <= u <= t
    ensures Cost(t, u) <= Cost(t, v)
  {
    CostGapBelow(t, v, u, t * t / v, t * t / u);
  }

  lemma CostGapBelow(t: real, v: real, u: real, cv: real, cu: real)
    requires 0.0 < v <= u <= t && cu * u == t * t && cv * v == t * t
    ensures cu + u <= cv + v
  {
    var w := v * u;
    assert cu * w == (cu * u) * v && cv * w == (cv * v) * u;
    SquareBelow(v, u, t);
    assert w <= t * t by { Scale(v, t, u); Scale(u, t, t); }
    Scale(w, t * t, u - v);
    Cancel(w, u - v, cv - cu);
  }

  /** The planned input, clamped to the admissible range as the planner does. */
  function Planned(rin: real, g: real, t: real, min: real, max: real): (input: real)
    requires 0.0 < g && min <= max
    ensures min <= input <= max
  {
    Clamp((t - rin) / g, min, max)
  }

  lemma CheaperEarnsMore(price: real, rin: real, rout: real, g: real, t: real, a: real, b: real)
    requires Market(price, rin, rout, g) && Target(price, rin, rout, g, t) && 0.0 <= a && 0.0 <= b
    requires 0.0 < rin + g * a && 0.0 < rin + g * b && Cost(t, rin + g * a) <= Cost(t, rin + g * b)
    ensures Profit(price, rin, rout, g, b) <= Profit(price, rin, rout, g, a)
  {
    hide Profit, Cost, Target;
    ProfitIsCost(price, rin, rout, g, t, a);
    ProfitIsCost(price, rin, rout, g, t, b);
    LessCost(g, Profit(price, rin, rout, g, a), Profit(price, rin, rout, g, b),
             Cost(t, rin + g * a), Cost(t, rin + g * b), g * price * rout + rin);
  }

  lemma LessCost(g: real, pa: real, pb: real, ca: real, cb: real, k: real)
    requires 0.0 < g && g * pa == k - ca && g * pb == k - cb && ca <= cb
    ensures pb <= pa
  {
    Cancel(g, pb, pa);
  }

  /** The planned size earns at least as much as any other admissible one. */
  lemma PlannedIsOptimal(price: real, rin: real, rout: real, g: real, t: real, min: real, max: real, input: real)
    requires Market(price, rin, rout, g) && Target(price, rin, rout, g, t)
    requires 0.0 <= min <= input <= max
    ensures Profit(price, rin, rout, g, input) <= Profit(price, rin, rout, g, Planned(rin, g, t, min, max))
  {
    hide Cost, Profit, Planned;
    var p := Planned(rin, g, t, min, max);
    Net(rin, g, input);
    Net(rin, g, p);
    PlannedIsCheapest(rin, g, t, min, max, input, p);
    CheaperEarnsMore(price, rin, rout, g, t, p, input);
  }

  lemma PlannedIsCheapest(rin: real, g: real, t: real, min: real, max: real, input: real, p: real)
    requires 0.0 < rin && 0.0 < g && 0.0 <= t && 0.0 <= min <= input <= max && p == Planned(rin, g, t, min, max)
    requires 0.0 < rin + g * input && 0.0 < rin + g * p
    ensures Cost(t, rin + g * p) <= Cost(t, rin + g * input)
  {
    hide Cost, Planned;
    var u, v := rin + g * p, rin + g * input;
    NetOrder(rin, g, t, min, max, input, p, u, v);
    if input < p {
      CostGrowsBelow(t, v, u);
    } else if p < input {
      CostGrowsAbove(t, u, v);
    }
  }

  lemma NetOrder(rin: real, g: real, t: real, min: real, max: real, input: real, p: real, u: real, v: real)
    requires 0.0 < g && min <= input <= max && p == Planned(rin, g, t, min, max)
    requires u == rin + g * p && v == rin + g * input
    ensures input < p ==> v <= u <= t
    ensures p < input ==> t <= u <= v
  {
    var best := (t - rin) / g;
    assert g * best == t - rin;
    if input < p {
      NonNegative(g, p - input);
      NonNegative(g, best - p);
    } else if p < input {
      NonNegative(g, input - p);
      NonNegative(g, p - best);
    }
  }

  lemma Net(rin: real, g: real, input: real)
    requires 0.0 < rin && 0.0 < g && 0.0 <= input
    ensures 0.0 < rin + g * input
  {
    NonNegative(g, input);
  }

  // ----- When a trade is open -----

  /** A target lies above the input reserve exactly when the price, after the fee, beats the pool's. */
  lemma OpenIff(price: real, rin: real, rout: real, g: real, t: real)
    requires Market(price, rin, rout, g) && Target(price, rin, rout, g, t)
    ensures t > rin <==> price * rout * g > rin
  {
    RootAbove(t, price * rout * g, rin);
  }

  lemma RootAbove(t: real, m: real, r: real)
    requires 0.0 <= t && 0.0 < r && t * t == m * r
    ensures t > r <==> m > r
  {
    assert (t - r) * (t + r) == r * (m - r);
    if t > r {
      PositiveFactor(r, m - r);
    } else {
      NonNegative(r - t, t + r);
      Cancel(r, m, r);
    }
  }

  lemma NothingToEarn(price: real, rin: real, rout: real, g: real, t: real, input: real)
    requires Market(price, rin, rout, g) && Target(price, rin, rout, g, t) && t <= rin && 0.0 <= input
    ensures Profit(price, rin, rout, g, input) <= 0.0
  {
    assert Profit(price, rin, rout, g, 0.0) == 0.0;
    hide Profit, Cost;
    NonNegative(g, input);
    CostGrowsAbove(t, rin, rin + g * input);
    CheaperEarnsMore(price, rin, rout, g, t, 0.0, input);
  }

  lemma SomethingToEarn(price: real, rin: real, rout: real, g: real, t: real, best: real)
    requires Market(price, rin, rout, g) && Target(price, rin, rout, g, t) && t > rin && g * best == t - rin
    ensures 0.0 < best && 0.0 < Profit(price, rin, rout, g, best)
  {
    PositiveFactor(g, best);
    assert Profit(price, rin, rout, g, 0.0) == 0.0;
    ProfitIsCost(price, rin, rout, g, t, 0.0);
    ProfitIsCost(price, rin, rout, g, t, best);
    StrictlyCheaper(t, rin);
    CostAtTarget(t);
    hide Profit, Cost;
    PositiveFactor(g, Profit(price, rin, rout, g, best));
  }

  lemma PositiveFactor(g: real, x: real)
    requires 0.0 < g && 0.0 < g * x
    ensures 0.0 < x
  {}

  lemma CostAtTarget(t: real)
    requires 0.0 < t
    ensures Cost(t, t) == t + t
  {}

  lemma StrictlyCheaper(t: real, u: real)
    requires 0.0 < u < t
    ensures t + t < Cost(t, u)
  {
    AboveSum(u, t - u, t - u, t * t / u);
  }

  lemma AboveSum(u: real, d: real, e: real, c: real)
    requires 0.0 < u && 0.0 < d && 0.0 < e && c * u == (u + d) * (u + e)
    ensures u + d + e < c
  {
    PositiveProduct(d, e);
    assert (c - u - d - e) * u == d * e;
    if c - u - d - e <= 0.0 {
      Scale(c - u - d - e, 0.0, u);
    }
  }

  /** With the target at or below the reserve no size earns anything; above it, the size aimed for does. */
  lemma ProfitableIff(price: real, rin: real, rout: real, g: real, t: real)
    requires Market(price, rin, rout, g) && Target(price, rin, rout, g, t)
    ensures (exists input :: 0.0 <= input && 0.0 < Profit(price, rin, rout, g, input)) <==> t > rin
  {
    hide Profit, Target;
    if t > rin {
      SomethingToEarn(price, rin, rout, g, t, (t - rin) / g);
    } else {
      forall input | 0.0 <= input ensures Profit(price, rin, rout, g, input) <= 0.0 {
        NothingToEarn(price, rin, rout, g, t, input);
      }
    }
  }

  // ----- The two sides of the book -----

  /** Buying takes Y in and X out at `price`; selling takes X in and Y out at the inverse price. The two targets
      are never above their reserves together. */
  lemma NeverBothOpen(price: real, inverse: real, rx: real, ry: real, g: real, tBuy: real, tSell: real)
    requires Market(price, ry, rx, g) && price * inverse == 1.0 && 0.0 < inverse
    requires Target(price, ry, rx, g, tBuy) && Target(inverse, rx, ry, g, tSell)
    ensures tBuy <= ry || tSell <= rx
  {
    OpenIff(price, ry, rx, g, tBuy);
    OpenIff(inverse, rx, ry, g, tSell);
    hide Target;
    OneSideOpen(price, inverse, rx, ry, g, price * rx * g, inverse * ry * g);
  }

  lemma OneSideOpen(price: real, inverse: real, rx: real, ry: real, g: real, buy: real, sell: real)
    requires 0.0 < price && 0.0 < inverse && 0.0 < rx && 0.0 < ry && 0.0 < g <= 1.0 && price * inverse == 1.0
    requires buy == price * rx * g && sell == inverse * ry * g
    ensures buy <= ry || sell <= rx
  {
    if ry < buy {
      NonNegative(inverse, g);
      Scale(ry, buy, inverse * g);
      assert buy * (inverse * g) == (price * inverse) * (rx * (g * g));
      AtMostOne(g);
      Scale(g * g, 1.0, rx);
    }
  }

  lemma AtMostOne(g: real)
    requires 0.0 <= g <= 1.0
    ensures g * g <= 1.0
  {
    NonNegative(g, 1.0 - g);
  }

  /** What the pool pays short of the curve, valued at the price after the fee, is worth no more than the fee on the
      input. */
  predicate FeeCoversShort(worth: real, fee: real, short: real, input: real) { worth * short <= input * fee }

  /** What it pays beyond the curve is worth no more than the fee on the target and the net reserve. */
  predicate FeeCoversExcess(worth: real, fee: real, excess: real, reserves: real) { worth * excess <= fee * reserves }

  /** After the trade aimed for, the pool paying `slip` less than the curve, or more where it is negative: the same side
      is closed exactly when the slip is worth no more than the fee on the input, and the opposite side exactly when
      what the pool paid beyond the curve is worth no more than the fee on the target and the reserve. */
  lemma AfterTheTrade(price: real, inverse: real, rin: real, rout: real, g: real, t: real, best: real, slip: real,
                      again: real, back: real)
    requires Market(price, rin, rout, g) && price * inverse == 1.0 && 0.0 < inverse
    requires Target(price, rin, rout, g, t) && t > rin && g * best == t - rin && 0.0 <= best
    requires var rout2 := rout - Payout(rin, rout, g, best) + slip;
             0.0 < rout2 && Target(price, rin + best, rout2, g, again) && Target(inverse, rout2, rin + best, g, back)
    ensures again <= rin + best <==> FeeCoversShort(price * g, 1.0 - g, slip, best)
    ensures back <= rout - Payout(rin, rout, g, best) + slip <==>
            FeeCoversExcess(price * g, 1.0 - g, -slip, t + g * rin)
  {
    PayoutTimes(rin, rout, g, best);
    var left := rout - Payout(rin, rout, g, best);
    hide Payout;
    TimesTarget(rin, rout, g, t, best, Payout(rin, rout, g, best), left);
    LeftAfter(price, rin, rout, g, t, left);
    hide FeeCoversShort, FeeCoversExcess;
    var rout2, rin2 := left + slip, rin + best;
    OpenIff(price, rin2, rout2, g, again);
    OpenIff(inverse, rout2, rin2, g, back);
    SameSide(price, rin, g, t, best, left, slip, rin2, rout2);
    OtherSide(price, inverse, rin, g, t, best, left, slip, rin2, rout2);
  }

  lemma TimesTarget(rin: real, rout: real, g: real, t: real, best: real, out: real, left: real)
    requires g * best == t - rin && out * (rin + g * best) == rout * (g * best) && left == rout - out
    ensures (rout - left) * t == rout * (t - rin)
  {}

  /** What the curve leaves of the output reserve brings the pool's price, after the fee, to the target. */
  lemma LeftAfter(price: real, rin: real, rout: real, g: real, t: real, left: real)
    requires Market(price, rin, rout, g) && Target(price, rin, rout, g, t) && t > rin
    requires (rout - left) * t == rout * (t - rin)
    ensures 0.0 < left && price * left * g == t
  {
    assert left * t == rout * rin;
    NonNegative(rout, rin);
    PositiveProduct(rout, rin);
    PositiveFactor(t, left);
    assert (price * left * g) * t == t * t;
    Cancel(t, price * left * g, t);
    Cancel(t, t, price * left * g);
  }

  lemma SameSide(price: real, rin: real, g: real, t: real, best: real, left: real, slip: real, rin2: real, rout2: real)
    requires price * left * g == t && g * best == t - rin && rin2 == rin + best && rout2 == left + slip
    ensures price * rout2 * g > rin2 <==> !FeeCoversShort(price * g, 1.0 - g, slip, best)
  {
    assert price * rout2 * g == t + price * g * slip;
    assert best * (1.0 - g) == best - (t - rin);
  }

  lemma OtherSide(price: real, inverse: real, rin: real, g: real, t: real, best: real, left: real, slip: real,
                  rin2: real, rout2: real)
    requires 0.0 < price && price * inverse == 1.0 && 0.0 < g
    requires price * left * g == t && g * best == t - rin && rin2 == rin + best && rout2 == left + slip
    ensures inverse * rin2 * g > rout2 <==> !FeeCoversExcess(price * g, 1.0 - g, -slip, t + g * rin)
  {
    var d, w := inverse * rin2 * g, price * g;
    assert w * d == (price * inverse) * (g * (rin2 * g));
    assert rin2 * g == t - (1.0 - g) * rin;
    assert w * rout2 == t + price * g * slip;
    assert w * d - w * rout2 == -(price * g * slip) - (1.0 - g) * (t + g * rin);
    PositiveProduct(price, g);
    Ordered(w, rout2, d);
  }

  lemma Ordered(w: real, a: real, b: real)
    requires 0.0 < w
    ensures w * b - w * a > 0.0 <==> b > a
  {
    if b > a { PositiveProduct(w, b - a); } else { Scale(b, a, w); }
  }
}
