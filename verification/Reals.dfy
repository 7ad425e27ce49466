/** Order facts about real products, kept apart so that each proof uses only the ones it names. */
module Reals {
  function Max(a: real, b: real): real { if a < b then b else a }
  function Min(a: real, b: real): real { if b < a then b else a }
  function Abs(a: real): real { if a < 0.0 then -a else a }
  function Clamp(v: real, lo: real, hi: real): real
    requires lo <= hi
  {
    if v < lo then lo else if hi < v then hi else v
  }

  lemma Scale(a: real, b: real, w: real)
    requires a <= b && 0.0 <= w
    ensures a * w <= b * w
  {}

  lemma ScaleDown(a: real, b: real, w: real)
    requires a <= b && w <= 0.0
    ensures b * w <= a * w
  {}

  lemma Cancel(h: real, a: real, b: real)
    requires 0.0 < h && h * a <= h * b
    ensures a <= b
  {}

  lemma NonNegative(a: real, b: real)
    requires 0.0 <= a && 0.0 <= b
    ensures 0.0 <= a * b
  {}

  lemma PositiveProduct(a: real, b: real)
    requires 0.0 < a && 0.0 < b
    ensures 0.0 < a * b
  {}

  /** A rise over a gap `h`, bounded by `eps` over a distance of at most `k` gaps. */
  lemma RiseOver(h: real, d: real, k: real, rise: real, eps: real)
    requires 0.0 < h && d <= k * h && h * rise <= d * eps && 0.0 <= eps
    ensures rise <= k * eps
  {}

  lemma RiseOverGoldenGap(h: real, d: real, rise: real, eps: real)
    requires 0.0 < h && d <= 1.62 * h && h * rise <= d * eps && 0.0 <= eps
    ensures rise <= 1.62 * eps
  {}

  lemma Cast(m: nat, n: nat)
    ensures (m * n) as real == m as real * n as real
  {}
}
