/**
 * Positions and distances. Coordinates are modelled as reals (no IEEE rounding). The source
 * compares `sqrt(dx^2 + dy^2 + dz^2)` against bounds; this module decides those comparisons
 * exactly on the squared distance, so no square root is needed.
 */
module Geometry {

  /** An atom position (x, y, z). */
  type Vec3 = (real, real, real)

  /** The squared Euclidean distance between two positions. */
  function SquaredDistance(p: Vec3, q: Vec3): (s: real)
    ensures 0.0 <= s
  {
    var dx, dy, dz := p.0 - q.0, p.1 - q.1, p.2 - q.2;
    dx * dx + dy * dy + dz * dz
  }

  lemma SquaredDistanceSymmetric(p: Vec3, q: Vec3)
    ensures SquaredDistance(p, q) == SquaredDistance(q, p)
  {
  }

  /** Whether the square root of `s` (s >= 0) is at least `lo`. */
  predicate RootAtLeast(s: real, lo: real)
  {
    lo <= 0.0 || lo * lo <= s
  }

  /** Whether the square root of `s` (s >= 0) is at most `hi`. */
  predicate RootAtMost(s: real, hi: real)
  {
    0.0 <= hi && s <= hi * hi
  }

  /** Whether `lo <= sqrt(s) <= hi`. */
  predicate RootWithin(s: real, lo: real, hi: real)
  {
    RootAtLeast(s, lo) && RootAtMost(s, hi)
  }

  /** Squaring is monotone on the non-negative reals. */
  lemma SquareOrder(a: real, b: real)
    requires 0.0 <= a && 0.0 <= b
    ensures a <= b <==> a * a <= b * b
  {
    if a <= b {
      assert a * a <= a * b;
      assert a * b <= b * b;
    } else {
      calc {
        b * b;
      <=
        b * a;
      <
        a * a;
      }
    }
  }

  /** `RootWithin` on a squared distance is exactly the comparison on the distance itself. */
  lemma RootWithinMeaning(d: real, lo: real, hi: real)
    requires 0.0 <= d
    ensures RootWithin(d * d, lo, hi) <==> lo <= d <= hi
  {
    if 0.0 < lo {
      SquareOrder(lo, d);
    }
    if 0.0 <= hi {
      SquareOrder(d, hi);
    }
  }
}
