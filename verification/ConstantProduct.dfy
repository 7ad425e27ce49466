/** The integer constant-product curve: floor of the fee, then ceiling of the quotient. */
module ConstantProduct {
  import opened Words

  lemma Mul(a: int, b: int, w: int)
    requires a <= b && 0 <= w
    ensures a * w <= b * w
  {}

  lemma NonNegative(a: int, b: int)
    requires 0 <= a && 0 <= b
    ensures 0 <= a * b
  {}

  /** What is left of an input after a fee that keeps `num` parts in `den`. */
  function Net(input: nat, num: nat, den: nat): nat
    requires den > 0
  {
    input * num / den
  }

  function CeilDiv(k: nat, d: nat): nat
    requires d > 0
  {
    (k + d - 1) / d
  }

  /** What a pool with reserves `rin` and `rout` pays for `net`. */
  function Output(rin: nat, rout: nat, net: nat): nat
    requires rin > 0
  {
    SaturatingSub(rout, CeilDiv(rin * rout, rin + net))
  }

  /** What a pool pays for an input, fee included. */
  function Quote(rin: nat, rout: nat, input: nat, num: nat, den: nat): nat
    requires rin > 0 && den > 0
  {
    Output(rin, rout, Net(input, num, den))
  }

  lemma DivSandwich(k: nat, d: nat)
    requires d > 0
    ensures k / d * d <= k < (k / d + 1) * d
  {}

  lemma AtMost(x: int, y: int, d: int)
    requires d > 0 && x * d < (y + 1) * d
    ensures x <= y
  {}

  lemma CeilDivIsLeast(k: nat, d: nat, c: nat)
    requires d > 0
    ensures CeilDiv(k, d) <= c <==> k <= c * d
  {
    DivSandwich(k + d - 1, d);
    var q := CeilDiv(k, d);
    assert q * d <= k + d - 1 < (q + 1) * d;
    if q <= c {
      Mul(q, c, d);
    }
    if k <= c * d {
      AtMost(q, c, d);
    }
  }

  /** The output is the largest one that keeps the product of the reserves, the input counted net of fee;
      the subtraction never saturates. */
  lemma OutputIsLargest(rin: nat, rout: nat, net: nat, o: nat)
    requires rin > 0 && o <= rout
    ensures o <= Output(rin, rout, net) <==> rin * rout <= (rin + net) * (rout - o)
    ensures CeilDiv(rin * rout, rin + net) <= rout
  {
    NonNegative(rin, rout);
    CeilDivIsLeast(rin * rout, rin + net, rout);
    CeilDivIsLeast(rin * rout, rin + net, rout - o);
    Mul(rin, rin + net, rout);
  }

  lemma OutputBelowReserve(rin: nat, rout: nat, net: nat)
    requires rin > 0
    ensures Output(rin, rout, net) <= rout
    ensures rout > 0 ==> Output(rin, rout, net) < rout
    ensures rin * rout <= (rin + net) * (rout - Output(rin, rout, net))
  {
    OutputIsLargest(rin, rout, net, Output(rin, rout, net));
    OutputIsLargest(rin, rout, net, rout);
  }

  lemma QuoteBelowReserve(rin: nat, rout: nat, input: nat, num: nat, den: nat)
    requires rin > 0 && den > 0
    ensures Quote(rin, rout, input, num, den) <= rout
    ensures rout > 0 ==> Quote(rin, rout, input, num, den) < rout
  {
    hide Output, Net;
    OutputBelowReserve(rin, rout, Net(input, num, den));
  }

  lemma OutputGrowsWithNet(rin: nat, rout: nat, net: nat, more: nat)
    requires rin > 0 && net <= more
    ensures Output(rin, rout, net) <= Output(rin, rout, more)
  {
    var o := Output(rin, rout, net);
    OutputBelowReserve(rin, rout, net);
    Mul(rin + net, rin + more, rout - o);
    OutputIsLargest(rin, rout, more, o);
  }

  lemma DivGrows(x: nat, y: nat, d: nat)
    requires d > 0 && x <= y
    ensures x / d <= y / d
  {
    DivSandwich(x, d);
    DivSandwich(y, d);
    AtMost(x / d, y / d, d);
  }

  lemma NetGrows(input: nat, more: nat, num: nat, better: nat, den: nat)
    requires den > 0 && input <= more && num <= better
    ensures Net(input, num, den) <= Net(more, better, den)
  {
    Mul(input, more, num);
    Mul(num, better, more);
    DivGrows(input * num, more * better, den);
  }

  lemma NetAtMostInput(input: nat, num: nat, den: nat)
    requires 0 < den && num <= den
    ensures Net(input, num, den) <= input
  {
    Mul(num, den, input);
    DivSandwich(input * num, den);
    AtMost(Net(input, num, den), input, den);
  }

  lemma NetOfSum(a: nat, b: nat, num: nat, den: nat)
    requires 0 < den
    ensures Net(a, num, den) + Net(b, num, den) <= Net(a + b, num, den)
  {
    assert (a + b) * num == a * num + b * num;
    DivOfSum(a * num, b * num, den);
  }

  lemma DivOfSum(x: nat, y: nat, d: nat)
    requires d > 0
    ensures x / d + y / d <= (x + y) / d
  {
    DivSandwich(x, d);
    DivSandwich(y, d);
    DivSandwich(x + y, d);
    AtMost(x / d + y / d, (x + y) / d, d);
  }

  /** The quote is monotone in the input and in the part of it the fee leaves. */
  lemma QuoteGrows(rin: nat, rout: nat, input: nat, more: nat, num: nat, better: nat, den: nat)
    requires rin > 0 && den > 0 && input <= more && num <= better
    ensures Quote(rin, rout, input, num, den) <= Quote(rin, rout, more, better, den)
  {
    NetGrows(input, more, num, better, den);
    OutputGrowsWithNet(rin, rout, Net(input, num, den), Net(more, better, den));
  }

  // ----- Splitting a trade -----

  /** The output of same-side trades one after the other, the full input joining the reserve each time. */
  function Sequential(rin: nat, rout: nat, inputs: seq<nat>, num: nat, den: nat): nat
    requires rin > 0 && den > 0
    decreases |inputs|
  {
    if inputs == [] then 0
    else
      var o := Quote(rin, rout, inputs[0], num, den);
      o + Sequential(rin + inputs[0], SaturatingSub(rout, o), inputs[1..], num, den)
  }

  function Sum(inputs: seq<nat>): nat {
    if inputs == [] then 0 else inputs[0] + Sum(inputs[1..])
  }

  lemma TwoTradesAtMostOne(rin: nat, rout: nat, a: nat, b: nat, num: nat, den: nat)
    requires rin > 0 && 0 < den && num <= den
    ensures var o := Quote(rin, rout, a, num, den);
            o <= rout && o + Quote(rin + a, rout - o, b, num, den) <= Quote(rin, rout, a + b, num, den)
  {
    var na, nb, n := Net(a, num, den), Net(b, num, den), Net(a + b, num, den);
    var q1 := rout - Output(rin, rout, na);
    OutputBelowReserve(rin, rout, na);
    OutputBelowReserve(rin + a, q1, nb);
    var q2 := q1 - Output(rin + a, q1, nb);
    NetAtMostInput(a, num, den);
    NetOfSum(a, b, num, den);
    TwoSteps(rin, rout, q1, q2, a, na, nb);
    Mul(rin + na + nb, rin + n, q2);
    OutputIsLargest(rin, rout, n, rout - q2);
  }

  lemma TwoSteps(r: nat, q: nat, q1: nat, q2: nat, a: nat, na: nat, nb: nat)
    requires na <= a && q2 <= q1
    requires r * q <= (r + na) * q1 && (r + a) * q1 <= (r + a + nb) * q2
    ensures r * q <= (r + na + nb) * q2
  {
    Mul(q2, q1, a - na);
    assert (a - na) * q1 == (r + a) * q1 - (r + na) * q1;
    assert (a - na) * q2 == (r + a + nb) * q2 - (r + na + nb) * q2;
  }

  /** Splitting a trade never helps: any sequence of same-side trades pays at most one trade of their sum. */
  lemma {:induction false} SplittingNeverHelps(rin: nat, rout: nat, inputs: seq<nat>, num: nat, den: nat)
    requires rin > 0 && 0 < den && num <= den
    ensures Sequential(rin, rout, inputs, num, den) <= Quote(rin, rout, Sum(inputs), num, den)
    decreases |inputs|
  {
    if inputs != [] {
      var a := inputs[0];
      var o := Quote(rin, rout, a, num, den);
      TwoTradesAtMostOne(rin, rout, a, Sum(inputs[1..]), num, den);
      SplittingNeverHelps(rin + a, rout - o, inputs[1..], num, den);
    }
  }

  // ----- Runs of trades -----

  datatype Reserves = Reserves(x: nat, y: nat)
  datatype Trade = BuyX(inputY: nat) | SellX(inputX: nat)

  /** One trade in the all-integer pool: the input joins one reserve, the output leaves the other. */
  function Settle(p: Reserves, t: Trade, num: nat, den: nat): Reserves
    requires p.x > 0 && p.y > 0 && den > 0
  {
    match t
    case BuyX(i) => Reserves(SaturatingSub(p.x, Quote(p.y, p.x, i, num, den)), p.y + i)
    case SellX(i) => Reserves(p.x + i, SaturatingSub(p.y, Quote(p.x, p.y, i, num, den)))
  }

  lemma TradeKeepsProduct(rin: nat, rout: nat, input: nat, num: nat, den: nat)
    requires rin > 0 && rout > 0 && 0 < den && num <= den
    ensures var o := Quote(rin, rout, input, num, den);
            o < rout && rin * rout <= (rin + input) * (rout - o)
  {
    var o := Quote(rin, rout, input, num, den);
    OutputBelowReserve(rin, rout, Net(input, num, den));
    NetAtMostInput(input, num, den);
    Mul(rin + Net(input, num, den), rin + input, rout - o);
  }

  lemma SettleKeepsProduct(p: Reserves, t: Trade, num: nat, den: nat)
    requires p.x > 0 && p.y > 0 && 0 < den && num <= den
    ensures var q := Settle(p, t, num, den); q.x > 0 && q.y > 0 && p.x * p.y <= q.x * q.y
  {
    match t
    case BuyX(i) => TradeKeepsProduct(p.y, p.x, i, num, den);
    case SellX(i) => TradeKeepsProduct(p.x, p.y, i, num, den);
  }

  /** The states of a run, the first one included. */
  ghost predicate IsRun(states: seq<Reserves>, trades: seq<Trade>, num: nat, den: nat)
    requires den > 0
  {
    && |states| == |trades| + 1
    && states[0].x > 0 && states[0].y > 0
    && forall i :: 0 <= i < |trades| ==>
         states[i].x > 0 && states[i].y > 0 && states[i + 1] == Settle(states[i], trades[i], num, den)
  }

  lemma {:induction false} ProductNeverFalls(states: seq<Reserves>, trades: seq<Trade>, num: nat, den: nat, j: nat)
    requires 0 < den && num <= den && IsRun(states, trades, num, den) && j <= |trades|
    ensures states[j].x > 0 && states[j].y > 0 && states[0].x * states[0].y <= states[j].x * states[j].y
  {
    if j > 0 {
      ProductNeverFalls(states, trades, num, den, j - 1);
      SettleKeepsProduct(states[j - 1], trades[j - 1], num, den);
    }
  }

  /** A run that ends with no more X than it started with ends with no less Y, and the other way round. */
  lemma NothingForNothing(states: seq<Reserves>, trades: seq<Trade>, num: nat, den: nat)
    requires 0 < den && num <= den && IsRun(states, trades, num, den)
    ensures var s, e := states[0], states[|trades|];
            && (e.x <= s.x ==> s.y <= e.y)
            && (e.y <= s.y ==> s.x <= e.x)
  {
    ProductNeverFalls(states, trades, num, den, |trades|);
    var s, e := states[0], states[|trades|];
    if e.x <= s.x && e.y < s.y {
      Mul(e.x, s.x, e.y);
      Mul(e.y + 1, s.y, s.x);
    } else if e.y <= s.y && e.x < s.x {
      Mul(e.y, s.y, e.x);
      Mul(e.x + 1, s.x, s.y);
    }
  }

  // ----- Discrete concavity -----

  /** Over two equal steps of net input the second pays at most one nano more than the first. */
  lemma StepsAlmostFall(rin: nat, rout: nat, n: nat, step: nat)
    requires rin > 0
    ensures var o0, o1, o2 := Output(rin, rout, n), Output(rin, rout, n + step), Output(rin, rout, n + 2 * step);
            o2 - o1 <= o1 - o0 + 1
  {
    var p0, u := Remaining(rin, rout, n);
    var p1, d := Remaining(rin, rout, n + step);
    var p2, v := Remaining(rin, rout, n + 2 * step);
    hide Output;
    if p1 > 0 {
      NonNegative(rin, rout);
      Harmonic(rin * rout, u, d, v, p0, p1 - 1, p2);
    }
  }

  /** What an output leaves in the pool is the least quotient covering the product. */
  lemma Remaining(rin: nat, rout: nat, net: nat) returns (p: nat, d: nat)
    requires rin > 0
    ensures p == rout - Output(rin, rout, net) && d == rin + net
    ensures rin * rout <= p * d && (p > 0 ==> (p - 1) * d < rin * rout)
  {
    d := rin + net;
    OutputBelowReserve(rin, rout, net);
    p := rout - Output(rin, rout, net);
    if p > 0 {
      OutputIsLargest(rin, rout, net, rout - (p - 1));
    }
  }

  /** Two quotients at equal distance around `d` add up to more than twice anything below the one at `d`. */
  lemma Harmonic(k: nat, u: nat, d: nat, v: nat, p0: nat, below: nat, p2: nat)
    requires 0 < d && u + v == 2 * d && k <= p0 * u && k <= p2 * v && below * d < k
    ensures 2 * below < p0 + p2
  {
    CrossMultiply(k, p0, u, v);
    CrossMultiply(k, p2, v, u);
    SquareIsMost(u, d, v);
    AddHalves(k, u, d, v, p0, p2, u * v);
    CancelSquare(2 * k, p0 + p2, d);
    if p0 + p2 <= 2 * below {
      Mul(p0 + p2, 2 * below, d);
    }
  }

  lemma AddHalves(k: nat, u: nat, d: nat, v: nat, p0: nat, p2: nat, m: nat)
    requires u + v == 2 * d && k * v <= p0 * m && k * u <= p2 * m && m <= d * d
    ensures (2 * k) * d <= (p0 + p2) * (d * d)
  {
    Mul(m, d * d, p0 + p2);
    assert k * u + k * v == (2 * k) * d by { assert k * (u + v) == k * (2 * d); }
  }

  lemma SquareIsMost(u: nat, d: nat, v: nat)
    requires u + v == 2 * d
    ensures u * v <= d * d
  {
    var s := d - u;
    assert u * v == d * d - s * s;
    assert 0 <= s * s;
  }

  lemma CrossMultiply(k: nat, p: nat, u: nat, v: nat)
    requires k <= p * u
    ensures k * v <= p * (u * v)
  {
    Mul(k, p * u, v);
    assert (p * u) * v == p * (u * v);
  }

  lemma CancelSquare(k: nat, p: nat, d: nat)
    requires d > 0 && k * d <= p * (d * d)
    ensures k <= p * d
  {
    assert p * (d * d) == (p * d) * d;
    if p * d < k {
      Mul(p * d + 1, k, d);
    }
  }

  /** The one nano is needed: flooring can make a second step pay one more than the first. */
  lemma StepsCanRise()
    ensures Output(1, 4, 3) - Output(1, 4, 2) == Output(1, 4, 2) - Output(1, 4, 1) + 1
  {}
}
