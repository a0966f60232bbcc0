/**
 * The plane y = 0 in object space. A ray meets it at most once; a ray
 * whose direction is (nearly) parallel to the plane never does, even when
 * it lies in the plane.
 */
module Planes {
  import opened Util
  import opened Tuples
  import opened Rays

  /** `local_intersect`: one time unless |direction.y| is below EPSILON. */
  function LocalIntersect(r: Ray): (ts: seq<real>)
    ensures |ts| <= 1
    ensures ts == [] <==> Abs(r.direction.y) < EPSILON
  {
    if Abs(r.direction.y) < EPSILON then [] else [-r.origin.y / r.direction.y]
  }

  /** `local_normal_at`: the same upward vector everywhere. */
  function LocalNormalAt(p: Tuple): (n: Tuple)
    ensures IsVector(n) && Dot(n, n) == 1.0
  {
    Vector(0.0, 1.0, 0.0)
  }

  // ---------------------------------------------------------------- lemmas

  /** The one time returned is where the ray crosses y = 0, and it is the only such time. */
  lemma HitLiesOnPlane(r: Ray, t: real)
    requires Abs(r.direction.y) >= EPSILON
    ensures LocalIntersect(r) == [-r.origin.y / r.direction.y]
    ensures Position(r, t).y == 0.0 <==> t == LocalIntersect(r)[0]
  {
    var d := r.direction.y;
    assert d != 0.0;
    assert Position(r, t).y == r.origin.y + d * t;
    if Position(r, t).y == 0.0 {
      assert t == -r.origin.y / d;
    }
  }

  /** The normal does not depend on the point. */
  lemma NormalConstant(p: Tuple)
    ensures LocalNormalAt(p) == Vector(0.0, 1.0, 0.0)
  {
  }

  /** A parallel ray above the plane and a ray inside it both miss. */
  lemma ParallelAndCoplanarExamples()
    ensures LocalIntersect(Ray(Point(0.0, 10.0, 0.0), Vector(0.0, 0.0, 1.0))) == []
    ensures LocalIntersect(Ray(Point(0.0, 0.0, 0.0), Vector(0.0, 0.0, 1.0))) == []
  {
  }

  /** Rays from above and from below both hit at time 1. */
  lemma AboveAndBelowExamples()
    ensures LocalIntersect(Ray(Point(0.0, 1.0, 0.0), Vector(0.0, -1.0, 0.0))) == [1.0]
    ensures LocalIntersect(Ray(Point(0.0, -1.0, 0.0), Vector(0.0, 1.0, 0.0))) == [1.0]
  {
  }
}
