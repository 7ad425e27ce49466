/** One narrowing of a golden-section search, and the arithmetic of its probes. */
module Golden {
  import opened Reals

  /** The golden fraction of a width, by the literal both searches use. The literal is
      truncated, so its square and itself add up to a little less than one. */
  function Part(w: real): real { 0.6180339887498948 * w }

  /** What the truncation leaves of a width, rounded up. */
  function Defect(w: real): real { 0.00000000000000011 * w }

  datatype Bracket = Bracket(left: real, x1: real, x2: real, right: real) {
    function Width(): real { right - left }
    function Mid(): real { 0.5 * (left + right) }
  }

  function Fresh(lo: real, hi: real): Bracket {
    Bracket(lo, hi - Part(hi - lo), lo + Part(hi - lo), hi)
  }

  /** Drops the side of the worse probe; the better probe is kept and reused. */
  function Narrow(s: real -> real, b: Bracket): Bracket {
    if s(b.x1) < s(b.x2) then
      Bracket(b.x1, b.x2, b.x1 + Part(b.right - b.x1), b.right)
    else
      Bracket(b.left, b.x2 - Part(b.x2 - b.left), b.x1, b.x2)
  }

  /** Bound, as a multiple of the width, on how far a probe can drift in `k` narrowings. */
  function Drift(k: nat): (d: real)
    ensures 0.0 <= d
  {
    if k == 0 then 0.0 else 3.0 * (Drift(k - 1) + Defect(1.0))
  }

  function Slack(k: nat, w: real): real { Drift(k) * w }

  ghost predicate Near(v: real, target: real, err: real) {
    target - err <= v <= target + err
  }

  /** After `k` narrowings both probes sit within `Drift(k)` widths of their golden places. */
  ghost predicate Placed(b: Bracket, k: nat) {
    && b.left < b.right
    && Near(b.right - b.x1, Part(b.Width()), Slack(k, b.Width()))
    && Near(b.x2 - b.left, Part(b.Width()), Slack(k, b.Width()))
  }

  lemma DriftGrows(j: nat, k: nat)
    requires j <= k
    ensures Drift(j) <= Drift(k)
  {
    if j < k { DriftGrows(j, k - 1); }
  }

  lemma DriftIsTiny(k: nat)
    requires k <= 14
    ensures Drift(k) <= 0.000000001
  {
    DriftGrows(k, 14);
    assert Drift(14) <= 0.000000001;
  }

  lemma TinyPart(d: real, w: real)
    requires 0.0 <= d <= 0.000000001 && 0.0 <= w
    ensures 0.0 <= d * w <= 0.000000001 * w
  {}

  /** Over the iterations either search allows, the drift stays below a billionth of the width. */
  lemma SlackIsTiny(k: nat, w: real)
    requires k <= 14 && 0.0 <= w
    ensures 0.0 <= Slack(k, w) <= 0.000000001 * w
  {
    DriftIsTiny(k);
    var d := Drift(k);
    assert Slack(k, w) == d * w;
    TinyPart(d, w);
  }

  lemma SlackStep(k: nat, w: real, near: real)
    requires 0.0 < w && 0.618 * w <= near
    ensures 1.7 * Slack(k, w) + Defect(w) <= Slack(k + 1, near)
  {
    var d := Drift(k);
    var m := 3.0 * (d + Defect(1.0));
    Scale(0.618 * w, near, m);
    assert (0.618 * w) * m == 1.854 * (d * w) + 1.854 * Defect(w);
    NonNegative(d, w);
  }

  lemma PlacedBounds(b: Bracket, k: nat)
    requires Placed(b, k) && k <= 14
    ensures b.left < b.x1 < b.x2 < b.right
    ensures 0.618033 * b.Width() <= b.right - b.x1 <= 0.618034 * b.Width()
    ensures 0.618033 * b.Width() <= b.x2 - b.left <= 0.618034 * b.Width()
  {
    SlackIsTiny(k, b.Width());
  }

  /** The outer gaps are at most 1.62 times the gap between the probes. */
  lemma ProbeSpacing(b: Bracket, k: nat)
    requires Placed(b, k) && k <= 14
    ensures b.left < b.x1 < b.x2 < b.right
    ensures b.x1 - b.left <= 1.62 * (b.x2 - b.x1) && b.right - b.x2 <= 1.62 * (b.x2 - b.x1)
  {
    PlacedBounds(b, k);
  }

  lemma FreshIsPlaced(lo: real, hi: real)
    requires lo < hi
    ensures Placed(Fresh(lo, hi), 0)
  {
  }

  /** `near` becomes the new width and `far` leaves the reused probe; the other probe is fresh. */
  lemma Reuse(k: nat, w: real, near: real, far: real)
    requires 0.0 < w && k < 14
    requires Near(near, Part(w), Slack(k, w)) && Near(far, Part(w), Slack(k, w))
    ensures 0.618033 * w <= near <= 0.618034 * w
    ensures Near(w - far, Part(near), Slack(k + 1, near))
    ensures 0.0 <= Slack(k + 1, near)
  {
    SlackIsTiny(k, w);
    SlackStep(k, w, near);
    SlackIsTiny(k + 1, near);
  }

  lemma NarrowKeepsPlaced(s: real -> real, b: Bracket, k: nat)
    requires Placed(b, k) && k < 14
    ensures Placed(Narrow(s, b), k + 1)
    ensures b.left <= Narrow(s, b).left < Narrow(s, b).right <= b.right
    ensures 0.618033 * b.Width() <= Narrow(s, b).Width() <= 0.618034 * b.Width()
  {
    PlacedBounds(b, k);
    if s(b.x1) < s(b.x2) {
      Reuse(k, b.Width(), b.right - b.x1, b.x2 - b.left);
    } else {
      Reuse(k, b.Width(), b.x2 - b.left, b.right - b.x1);
    }
  }

  /** Upper bound on what is left of a width after `k` narrowings. */
  function Shrunk(k: nat, w: real): real {
    if k == 0 then w else 0.618034 * Shrunk(k - 1, w)
  }

  lemma ShrunkIsLinear(k: nat, w: real)
    ensures Shrunk(k, w) == Shrunk(k, 1.0) * w
  {}
}
