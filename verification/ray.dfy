/**
 * Rays: an origin point and a direction vector. A ray is transformed by
 * applying the matrix to both parts, which is how the tracer moves a ray
 * into an object's space.
 */
module Rays {
  import opened Tuples
  import opened Matrices
  import opened Transformations

  datatype Ray = Ray(origin: Tuple, direction: Tuple)

  /** `position`: the point reached after `time` units along the direction. */
  function Position(r: Ray, time: real): (p: Tuple)
    ensures IsPoint(r.origin) && IsVector(r.direction) ==> IsPoint(p)
  {
    Add(r.origin, Scale(r.direction, time))
  }

  /** `transform`: the matrix is applied to the origin and to the direction. */
  function Transform(r: Ray, m: Matrix): (r2: Ray)
    requires IsMat4(m)
  {
    Ray(MulTuple(m, r.origin), MulTuple(m, r.direction))
  }

  // ---------------------------------------------------------------- lemmas

  /** Time 0 is the origin; moving on by d more is moving along the direction by d. */
  lemma PositionAlongRay(r: Ray, t: real, d: real)
    ensures Position(r, 0.0) == r.origin
    ensures Position(r, t + d) == Add(Position(r, t), Scale(r.direction, d))
    ensures Sub(Position(r, t), r.origin) == Scale(r.direction, t)
  {
  }

  /** Along the x axis only the x coordinate changes, by the time travelled. */
  lemma PositionAlongX(a: real, b: real, c: real, time: real)
    ensures Position(Ray(Point(a, b, c), Vector(1.0, 0.0, 0.0)), time) == Point(a + time, b, c)
  {
    var p := Position(Ray(Point(a, b, c), Vector(1.0, 0.0, 0.0)), time);
    assert p.x == a + time && p.y == b && p.z == c && p.w == 1.0;
  }

  /** The four positions of the test ray from (2, 3, 4) along (1, 0, 0). */
  lemma PositionExamples()
    ensures Position(Ray(Point(2.0, 3.0, 4.0), Vector(1.0, 0.0, 0.0)), 0.0) == Point(2.0, 3.0, 4.0)
    ensures Position(Ray(Point(2.0, 3.0, 4.0), Vector(1.0, 0.0, 0.0)), 1.0) == Point(3.0, 3.0, 4.0)
    ensures Position(Ray(Point(2.0, 3.0, 4.0), Vector(1.0, 0.0, 0.0)), -1.0) == Point(1.0, 3.0, 4.0)
    ensures Position(Ray(Point(2.0, 3.0, 4.0), Vector(1.0, 0.0, 0.0)), 2.5) == Point(4.5, 3.0, 4.0)
  {
    PositionAlongX(2.0, 3.0, 4.0, 0.0);
    PositionAlongX(2.0, 3.0, 4.0, 1.0);
    PositionAlongX(2.0, 3.0, 4.0, -1.0);
    PositionAlongX(2.0, 3.0, 4.0, 2.5);
  }

  /**
   * Transforming a ray maps each of its positions by the same matrix, so an
   * intersection time found in object space names the same point in world space.
   */
  lemma TransformMapsPositions(r: Ray, m: Matrix, time: real)
    requires IsMat4(m)
    ensures Position(Transform(r, m), time) == MulTuple(m, Position(r, time))
  {
    MulTupleAdditive(m, r.origin, Scale(r.direction, time));
    MulTupleHomogeneous(m, r.direction, time);
  }

  /** Transforming by a product is transforming by the right factor, then the left. */
  lemma TransformCompose(r: Ray, a: Matrix, b: Matrix)
    requires IsMat4(a) && IsMat4(b)
    ensures Transform(r, Mul(a, b)) == Transform(Transform(r, b), a)
  {
    MulTupleAssoc(a, b, r.origin);
    MulTupleAssoc(a, b, r.direction);
  }

  /** A translation moves the origin of a ray and leaves its direction alone. */
  lemma TranslateRay(r: Ray, x: real, y: real, z: real)
    requires IsPoint(r.origin) && IsVector(r.direction)
    ensures Transform(r, Translation(x, y, z)).origin == Add(r.origin, Vector(x, y, z))
    ensures Transform(r, Translation(x, y, z)).direction == r.direction
  {
    TranslationApplied(x, y, z, r.origin);
    TranslationApplied(x, y, z, r.direction);
  }

  /** A scaling scales both the origin and the direction. */
  lemma ScaleRay(r: Ray, x: real, y: real, z: real)
    ensures Transform(r, Scaling(x, y, z)).origin == Tuple(r.origin.x * x, r.origin.y * y, r.origin.z * z, r.origin.w)
    ensures Transform(r, Scaling(x, y, z)).direction
         == Tuple(r.direction.x * x, r.direction.y * y, r.direction.z * z, r.direction.w)
  {
    ScalingApplied(x, y, z, r.origin);
    ScalingApplied(x, y, z, r.direction);
  }

  /** `translating_a_ray`: only the origin moves. */
  lemma TranslateRayExample(m: Matrix)
    requires m == ThenTranslate(Identity(), 3.0, 4.0, 5.0)
    ensures Transform(Ray(Point(1.0, 2.0, 3.0), Vector(0.0, 1.0, 0.0)), m)
         == Ray(Point(4.0, 6.0, 8.0), Vector(0.0, 1.0, 0.0))
  {
    var r := Ray(Point(1.0, 2.0, 3.0), Vector(0.0, 1.0, 0.0));
    BuilderFromIdentity(3.0, 4.0, 5.0);
    TranslateRay(r, 3.0, 4.0, 5.0);
  }

  /** `scaling_a_ray`: origin and direction are both scaled. */
  lemma ScaleRayExample(m: Matrix)
    requires m == ThenScale(Identity(), 2.0, 3.0, 4.0)
    ensures Transform(Ray(Point(1.0, 2.0, 3.0), Vector(0.0, 1.0, 0.0)), m)
         == Ray(Point(2.0, 6.0, 12.0), Vector(0.0, 3.0, 0.0))
  {
    var r := Ray(Point(1.0, 2.0, 3.0), Vector(0.0, 1.0, 0.0));
    BuilderFromIdentityScale(2.0, 3.0, 4.0);
    ScaleRay(r, 2.0, 3.0, 4.0);
  }
}
