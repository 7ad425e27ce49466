/** The router's search for the share of an order that goes to the submission pool. */
module SplitSearch {
  import opened Reals
  import opened Golden
  import opened GoldenSearch

  const MIN_TRADE_SIZE: real := 0.001
  const SPLIT_MAX_ITERS: nat := 14

  datatype QuotePoint = QuotePoint(inSub: real, inNorm: real, outSub: real, outNorm: real)

  function QuoteScore(q: QuotePoint): real { q.outSub + q.outNorm }

  function Scores(evaluate: real -> QuotePoint): real -> real {
    alpha => QuoteScore(evaluate(alpha))
  }

  /** The two scores differ by at most a hundredth of the larger, with a floor for scores near zero. */
  predicate WithinRelGap(a: real, b: real) {
    Abs(a - b) <= 0.01 * Max(Max(Abs(a), Abs(b)), 0.000000000001)
  }

  predicate AmountSettled(total: real, b: Bracket) {
    total * b.Width() <= 0.01 * Max(Abs(total * b.Mid()), MIN_TRADE_SIZE)
  }

  predicate SplitStops(s: real -> real, total: real, b: Bracket) {
    b.Width() <= 0.001 || AmountSettled(total, b) || WithinRelGap(s(b.x1), s(b.x2))
  }

  function SplitTurnsLeft(st: Search): int { SPLIT_MAX_ITERS + 4 - |st.probes| }

  function SplitRefine(s: real -> real, total: real, st: Search): (r: Search)
    ensures |st.probes| <= |r.probes|
    decreases SplitTurnsLeft(st)
  {
    if SplitTurnsLeft(st) <= 0 || SplitStops(s, total, st.b) then st
    else SplitRefine(s, total, Step(s, st))
  }

  /** The search over every share of the order. */
  function Whole(): Search { Begin(0.0, 1.0) }

  function SplitEnd(s: real -> real, total: real): Search {
    SplitRefine(s, total, Whole())
  }

  /** Every share the search scores, in order; the centre of the last bracket comes last. */
  function SplitProbes(s: real -> real, total: real): (probes: seq<real>)
    ensures |probes| > 0
  {
    var st := SplitEnd(s, total);
    st.probes + [(st.b.left + st.b.right) * 0.5]
  }

  function BestQuote(a: QuotePoint, b: QuotePoint): QuotePoint {
    if QuoteScore(b) > QuoteScore(a) then b else a
  }

  function Quotes(evaluate: real -> QuotePoint, probes: seq<real>): seq<QuotePoint> {
    seq(|probes|, i requires 0 <= i < |probes| => evaluate(probes[i]))
  }

  lemma QuotesOfOneMore(evaluate: real -> QuotePoint, probes: seq<real>, x: real)
    ensures Quotes(evaluate, probes + [x]) == Quotes(evaluate, probes) + [evaluate(x)]
  {}

  /** One turn of the loop, in its own variables. */
  lemma SplitTurn(evaluate: real -> QuotePoint, total: real, left: real, x1: real, x2: real, right: real,
                  probes: seq<real>)
    ensures SplitRefine(Scores(evaluate), total, Search(Bracket(left, x1, x2, right), probes)) ==
      if || |probes| >= SPLIT_MAX_ITERS + 4
         || right - left <= 0.001
         || AmountSettled(total, Bracket(left, x1, x2, right))
         || WithinRelGap(QuoteScore(evaluate(x1)), QuoteScore(evaluate(x2))) then
        Search(Bracket(left, x1, x2, right), probes)
      else if QuoteScore(evaluate(x1)) < QuoteScore(evaluate(x2)) then
        var p := x1 + Part(right - x1);
        SplitRefine(Scores(evaluate), total, Search(Bracket(x1, x2, p, right), probes + [p]))
      else
        var p := x2 - Part(x2 - left);
        SplitRefine(Scores(evaluate), total, Search(Bracket(left, p, x1, x2), probes + [p]))
  {
    hide AmountSettled, WithinRelGap, QuoteScore, Part, Step;
    StepTurns(Scores(evaluate), left, x1, x2, right, probes);
  }

  lemma SplitProbesAre(s: real -> real, total: real, st: Search)
    requires SplitEnd(s, total) == st
    ensures SplitProbes(s, total) == st.probes + [(st.b.left + st.b.right) * 0.5]
  {
    hide Whole, SplitRefine;
  }

  /** The running quotes and best quote stand for the shares probed so far. */
  ghost predicate Tracks(evaluate: real -> QuotePoint, probes: seq<real>, sampled: seq<QuotePoint>, best: QuotePoint) {
    |probes| > 0 && sampled == Quotes(evaluate, probes) && best == evaluate(Best(Scores(evaluate), probes))
  }

  lemma TracksFirst(evaluate: real -> QuotePoint, x: real)
    ensures Tracks(evaluate, [x], [evaluate(x)], evaluate(x))
  {
    BestOfOne(Scores(evaluate), x);
  }

  lemma TracksNext(evaluate: real -> QuotePoint, probes: seq<real>, sampled: seq<QuotePoint>, best: QuotePoint, x: real)
    requires Tracks(evaluate, probes, sampled, best)
    ensures Tracks(evaluate, probes + [x], sampled + [evaluate(x)], BestQuote(best, evaluate(x)))
  {
    hide Quotes, Best;
    QuotesOfOneMore(evaluate, probes, x);
    BestOfOneMore(Scores(evaluate), probes, x);
  }

  method MaximizeSplit(total: real, evaluate: real -> QuotePoint)
    returns (best: QuotePoint, sampled: seq<QuotePoint>)
    ensures var probes := SplitProbes(Scores(evaluate), total);
            sampled == Quotes(evaluate, probes) && best == evaluate(Best(Scores(evaluate), probes))
  {
    hide SplitRefine, Part, Best, Quotes;
    ghost var s := Scores(evaluate);
    var left, right := 0.0, 1.0;
    var edgeLeft, edgeRight := evaluate(left), evaluate(right);
    sampled := [edgeLeft] + [edgeRight];
    best := BestQuote(edgeLeft, edgeRight);
    ghost var probes := [left] + [right];
    TracksFirst(evaluate, left);
    TracksNext(evaluate, [left], [edgeLeft], edgeLeft, right);
    var x1, x2 := right - Part(right - left), left + Part(right - left);
    var q1, q2 := evaluate(x1), evaluate(x2);
    TracksNext(evaluate, probes, sampled, best, x1);
    sampled, probes, best := sampled + [q1], probes + [x1], BestQuote(best, q1);
    TracksNext(evaluate, probes, sampled, best, x2);
    sampled, probes, best := sampled + [q2], probes + [x2], BestQuote(best, q2);
    ghost var start := Search(Bracket(left, x1, x2, right), probes);
    assert Whole() == start;
    assert SplitEnd(s, total) == SplitRefine(s, total, start);
    hide *;
    var i := 0;
    while i < SPLIT_MAX_ITERS
      invariant 0 <= i <= SPLIT_MAX_ITERS
      invariant q1 == evaluate(x1) && q2 == evaluate(x2) && |probes| == i + 4
      invariant Tracks(evaluate, probes, sampled, best)
      invariant SplitRefine(s, total, start) == SplitRefine(s, total, Search(Bracket(left, x1, x2, right), probes))
    {
      SplitTurn(evaluate, total, left, x1, x2, right, probes);
      if || right - left <= 0.001
         || AmountSettled(total, Bracket(left, x1, x2, right))
         || WithinRelGap(QuoteScore(q1), QuoteScore(q2)) {
        break;
      }
      if QuoteScore(q1) < QuoteScore(q2) {
        left := x1;
        x1, q1 := x2, q2;
        x2 := left + Part(right - left);
        q2 := evaluate(x2);
        TracksNext(evaluate, probes, sampled, best, x2);
        sampled, probes, best := sampled + [q2], probes + [x2], BestQuote(best, q2);
      } else {
        right := x2;
        x2, q2 := x1, q1;
        x1 := right - Part(right - left);
        q1 := evaluate(x1);
        TracksNext(evaluate, probes, sampled, best, x1);
        sampled, probes, best := sampled + [q1], probes + [x1], BestQuote(best, q1);
      }
      i := i + 1;
    }
    SplitTurn(evaluate, total, left, x1, x2, right, probes);
    SplitProbesAre(s, total, Search(Bracket(left, x1, x2, right), probes));
    var center := evaluate((left + right) * 0.5);
    TracksNext(evaluate, probes, sampled, best, (left + right) * 0.5);
    sampled, probes, best := sampled + [center], probes + [(left + right) * 0.5], BestQuote(best, center);
    TracksMeans(evaluate, probes, sampled, best);
  }

  lemma TracksMeans(evaluate: real -> QuotePoint, probes: seq<real>, sampled: seq<QuotePoint>, best: QuotePoint)
    requires Tracks(evaluate, probes, sampled, best)
    ensures |probes| > 0 && sampled == Quotes(evaluate, probes) && best == evaluate(Best(Scores(evaluate), probes))
  {}
}
