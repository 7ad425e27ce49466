/** Concave real functions, and the chord bounds every search argument uses. */
module Concavity {
  import opened Reals

  /** The middle point lies on or above the chord through the outer two. */
  ghost predicate Chord(f: real -> real, x: real, y: real, z: real) {
    (z - x) * f(y) >= (z - y) * f(x) + (y - x) * f(z)
  }

  ghost predicate Concave(f: real -> real, a: real, b: real) {
    forall x, y, z :: a <= x < y < z <= b ==> Chord(f, x, y, z)
  }

  lemma ConcaveWithin(f: real -> real, a: real, b: real, c: real, d: real)
    requires Concave(f, a, b) && a <= c && d <= b
    ensures Concave(f, c, d)
  {}

  /** `s` is `f` observed with an error of at most `eps`, never above it. */
  ghost predicate Observes(s: real -> real, f: real -> real, eps: real, a: real, b: real) {
    && 0.0 <= eps
    && forall t :: a <= t <= b ==> f(t) - eps <= s(t) <= f(t)
  }

  /** To the right of `x < y` the curve stays below the line through them, whose rise is at most `gain`. */
  lemma ExtrapolateRight(f: real -> real, a: real, b: real, x: real, y: real, t: real, gain: real)
    requires Concave(f, a, b) && a <= x < y <= t <= b && f(y) - f(x) <= gain
    ensures (y - x) * (f(t) - f(y)) <= (t - y) * gain
  {
    if y < t {
      assert Chord(f, x, y, t);
      Scale(f(y) - f(x), gain, t - y);
    }
  }

  /** To the left of `x < y` the curve stays below the line through them, whose fall is at most `gain`. */
  lemma ExtrapolateLeft(f: real -> real, a: real, b: real, t: real, x: real, y: real, gain: real)
    requires Concave(f, a, b) && a <= t <= x < y <= b && f(x) - f(y) <= gain
    ensures (y - x) * (f(t) - f(x)) <= (x - t) * gain
  {
    if t < x {
      assert Chord(f, t, x, y);
      Scale(f(x) - f(y), gain, x - t);
    }
  }

  /** From a point `o` where the curve is not negative, values grow at most in proportion. */
  lemma RayFromLeft(f: real -> real, a: real, b: real, o: real, l: real, t: real)
    requires Concave(f, a, b) && a <= o < l <= t <= b && 0.0 <= f(o)
    ensures (l - o) * f(t) <= (t - o) * f(l)
  {
    if l < t {
      assert Chord(f, o, l, t);
      NonNegative(t - l, f(o));
    }
  }

  lemma RayFromRight(f: real -> real, a: real, b: real, t: real, r: real, o: real)
    requires Concave(f, a, b) && a <= t <= r < o <= b && 0.0 <= f(o)
    ensures (o - r) * f(t) <= (o - t) * f(r)
  {
    if t < r {
      assert Chord(f, t, r, o);
      NonNegative(r - t, f(o));
    }
  }

  /** Values in proportion to distances: a distance within the fraction `q` bounds the value by it. */
  lemma ShareRay(l: real, t: real, fl: real, ft: real, q: real)
    requires 0.0 < l && 0.0 <= q && q * t <= l && 0.0 <= fl && l * ft <= t * fl
    ensures q * ft <= fl
  {
    Scale(l * ft, t * fl, q);
    Scale(q * t, l, fl);
    assert l * (q * ft) == (l * ft) * q;
    assert (q * t) * fl == (t * fl) * q;
    Cancel(l, q * ft, fl);
  }

  /** A chord between two points below a line stays below the line. */
  lemma BelowLine(x: real, y: real, z: real, fx: real, fz: real, base: real, slope: real)
    requires x < y < z && fx <= base + slope * x && fz <= base + slope * z
    ensures (z - y) * fx + (y - x) * fz <= (z - x) * (base + slope * y)
  {
    Scale(fx, base + slope * x, z - y);
    Scale(fz, base + slope * z, y - x);
    assert (z - y) * (slope * x) + (y - x) * (slope * z) == (z - x) * (slope * y);
  }
}
