/** Circle overlap and the player's clamping to the play-field (script.js:337-342, 722-723). */
module Geometry {

  /** Two circles overlap when the distance between their centres is strictly less
      than the sum of their radii. The square root of the source is avoided: because a
      distance is never negative, `sqrt(d2) < s` holds exactly when `s > 0` and
      `d2 < s * s`. */
  predicate CheckCircleCollision(x1: real, y1: real, r1: real, x2: real, y2: real, r2: real)
  {
    var dx := x1 - x2;
    var dy := y1 - y2;
    var s := r1 + r2;
    0.0 < s && dx * dx + dy * dy < s * s
  }

  /** The squared test agrees with the source's `distance < r1 + r2`, where `distance`
      is the non-negative square root of `dx * dx + dy * dy`. */
  lemma CollisionIsDistanceBelowRadii(x1: real, y1: real, r1: real, x2: real, y2: real, r2: real, distance: real)
    requires 0.0 <= distance
    requires distance * distance == (x1 - x2) * (x1 - x2) + (y1 - y2) * (y1 - y2)
    ensures CheckCircleCollision(x1, y1, r1, x2, y2, r2) <==> distance < r1 + r2
  {
    var s := r1 + r2;
    if distance < s {
      SquareBelow(distance, s);
    } else if 0.0 < s < distance {
      SquareBelow(s, distance);
    }
  }

  /** Squaring is strictly increasing on non-negative reals. */
  lemma SquareBelow(a: real, b: real)
    requires 0.0 <= a < b
    ensures a * a < b * b
  {
    calc {
      a * a;
    <= { assert a * a <= a * b; }
      a * b;
    < { assert a * b < b * b; }
      b * b;
    }
  }

  /** Swapping the two circles does not change the outcome. */
  lemma CollisionIsSymmetric(x1: real, y1: real, r1: real, x2: real, y2: real, r2: real)
    ensures CheckCircleCollision(x1, y1, r1, x2, y2, r2) == CheckCircleCollision(x2, y2, r2, x1, y1, r1)
  {
    assert (x1 - x2) * (x1 - x2) == (x2 - x1) * (x2 - x1);
    assert (y1 - y2) * (y1 - y2) == (y2 - y1) * (y2 - y1);
  }

  /** A laser of radius 5 at (100,100) touches an obstacle of radius 20 centred at
      (103,100); the same laser at (200,100) does not. */
  lemma CollisionExamples()
    ensures CheckCircleCollision(100.0, 100.0, 5.0, 103.0, 100.0, 20.0)
    ensures !CheckCircleCollision(200.0, 100.0, 5.0, 103.0, 100.0, 20.0)
  {
  }

  /** Inset from each edge that the player's centre keeps. */
  const Inset: real := 30.0

  /** `Math.max(30, Math.min(dim - 30, v))`: keeps a coordinate inside [30, dim - 30];
      when the dimension is below 60 the lower bound wins. */
  function Clamp(v: real, dim: int): (r: real)
    ensures dim as real >= 2.0 * Inset ==> Inset <= r <= dim as real - Inset
    ensures dim as real < 2.0 * Inset ==> r == Inset
    ensures Inset <= v <= dim as real - Inset ==> r == v
    ensures v < Inset ==> r == Inset
    ensures dim as real >= 2.0 * Inset && v > dim as real - Inset ==> r == dim as real - Inset
  {
    var upper := if dim as real - Inset < v then dim as real - Inset else v;
    if Inset > upper then Inset else upper
  }

  /** Clamping twice is clamping once. */
  lemma ClampIdempotent(v: real, dim: int)
    ensures Clamp(Clamp(v, dim), dim) == Clamp(v, dim)
  {
  }
}
