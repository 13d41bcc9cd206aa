/** The two distance tests of the game. Both compare Math.sqrt of a squared
    distance with a bound; here that comparison is stated without a square
    root, and SqrtLessExact shows the two agree. */
module Collision {
  import opened Field

  /** Math.sqrt(d) < s for a squared distance d >= 0. A square root is never
      negative, so no distance is below a bound that is zero or less. */
  predicate SqrtLess(d: int, s: int) {
    0 < s && d < s * s
  }

  /** For the non-negative real root of d, comparing the root with s is the
      same as SqrtLess. */
  lemma SqrtLessExact(d: int, root: real, s: int)
    requires 0 <= d && 0.0 <= root && root * root == d as real
    ensures SqrtLess(d, s) <==> root < s as real
  {
    var t := s as real;
    if 0 < s {
      if root < t {
        assert root * root <= root * t;
        assert root * t < t * t;
        assert (s * s) as real == t * t;
      } else {
        assert t * t <= root * t;
        assert root * t <= root * root;
        assert (s * s) as real == t * t;
      }
    }
  }

  function SquaredDistance(x1: int, y1: int, x2: int, y2: int): (d: int)
    ensures d >= 0
    ensures d == 0 <==> x1 == x2 && y1 == y2
  {
    var dx, dy := x1 - x2, y1 - y2;
    assert dx * dx >= 0 && dy * dy >= 0;
    assert dx != 0 ==> dx * dx > 0;
    assert dy != 0 ==> dy * dy > 0;
    dx * dx + dy * dy
  }

  /** checkCollisions' per-enemy test: closer than twice the PLAYER's radius. */
  predicate StaticHit(e: Circle, p: Circle) {
    SqrtLess(SquaredDistance(e.cx, e.cy, p.cx, p.cy), 2 * p.r)
  }

  /** The tween test at the interpolated point (x, y): closer than the sum of
      the enemy's and the player's radii. */
  predicate FrameHit(x: int, y: int, e: Circle, p: Circle) {
    SqrtLess(SquaredDistance(x, y, p.cx, p.cy), e.r + p.r)
  }

  /** Some enemy of the list passes the static test. */
  predicate AnyStaticHit(enemies: seq<Circle>, p: Circle) {
    exists i :: 0 <= i < |enemies| && StaticHit(enemies[i], p)
  }

  /** The two formulas disagree in general but coincide when the radii are
      equal, as they are here (7 and 7). This is a fact about the formulas
      only: in play the static scan reads each enemy's target centre, while
      the tween test reads the interpolated point, so the two paths still see
      different positions. */
  lemma StaticAgreesWithFrameOnEqualRadii(e: Circle, p: Circle)
    requires e.r == p.r
    ensures StaticHit(e, p) <==> FrameHit(e.cx, e.cy, e, p)
  {
  }
}
