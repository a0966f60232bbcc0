/**
 * The unit sphere at the origin, in object space. A ray meets it where
 * |origin + t * direction|^2 = 1, a quadratic in t whose roots the sphere
 * returns without filtering. The square root is supplied by the caller.
 */
module Spheres {
  import opened Tuples
  import opened Rays

  /**
   * The source combines tuples with `^`, which the tuple type does not
   * define; it is modelled as the dot product of the spatial components,
   * which is what the quadratic needs and agrees with `dot` on vectors.
   */
  function SpatialDot(a: Tuple, b: Tuple): real
  {
    a.x * b.x + a.y * b.y + a.z * b.z
  }

  /** The offset of a point from the sphere's centre. */
  function FromCentre(p: Tuple): Tuple
  {
    Sub(p, Point(0.0, 0.0, 0.0))
  }

  /** The vector from the sphere's centre to the ray's origin. */
  function SphereToRay(r: Ray): Tuple
  {
    FromCentre(r.origin)
  }

  /** The coefficients a, b, c of the quadratic and its discriminant. */
  function QuadA(r: Ray): real { SpatialDot(r.direction, r.direction) }
  function QuadB(r: Ray): real { 2.0 * SpatialDot(r.direction, SphereToRay(r)) }
  function QuadC(r: Ray): real { SpatialDot(SphereToRay(r), SphereToRay(r)) - 1.0 }
  function Discriminant(r: Ray): real { QuadB(r) * QuadB(r) - 4.0 * QuadA(r) * QuadC(r) }

  /**
   * `local_intersect`: no times when the discriminant is negative, otherwise
   * both roots, the one with -sqrt first. A ray with a zero direction would
   * divide by zero; the source then produces NaN, which reals cannot express.
   */
  function LocalIntersect(r: Ray, sqrt: real -> real): (ts: seq<real>)
    requires QuadA(r) != 0.0
    ensures Discriminant(r) < 0.0 ==> ts == []
    ensures Discriminant(r) >= 0.0 ==> |ts| == 2
  {
    var a, b, d := QuadA(r), QuadB(r), Discriminant(r);
    if d < 0.0 then [] else [(-b - sqrt(d)) / (2.0 * a), (-b + sqrt(d)) / (2.0 * a)]
  }

  /** `local_normal_at`: the vector from the centre to the point. */
  function LocalNormalAt(p: Tuple): (n: Tuple)
    ensures IsPoint(p) ==> n == Vector(p.x, p.y, p.z)
  {
    FromCentre(p)
  }

  /** The normal as the intersection code asks an object for it: which sphere is asked does not matter. */
  function ObjectNormal<O>(o: O, p: Tuple): (n: Tuple)
    ensures IsPoint(p) ==> IsVector(n)
  {
    LocalNormalAt(p)
  }

  // ---------------------------------------------------------------- lemmas

  /** The quadratic measures the squared distance of a ray position from the centre, minus one. */
  lemma QuadraticIsDistance(r: Ray, t: real)
    ensures SpatialDot(FromCentre(Position(r, t)), FromCentre(Position(r, t))) - 1.0
         == QuadA(r) * (t * t) + QuadB(r) * t + QuadC(r)
  {
    var o, d := SphereToRay(r), r.direction;
    var q := FromCentre(Position(r, t));
    assert q.x == o.x + d.x * t && q.y == o.y + d.y * t && q.z == o.z + d.z * t;
    DistanceExpansion(o.x, o.y, o.z, d.x, d.y, d.z, t);
  }

  /** The squared distance of o + t d from the centre, minus one, as a polynomial in t. */
  lemma DistanceExpansion(ox: real, oy: real, oz: real, dx: real, dy: real, dz: real, t: real)
    ensures (ox + dx * t) * (ox + dx * t) + (oy + dy * t) * (oy + dy * t) + (oz + dz * t) * (oz + dz * t) - 1.0
         == (dx * dx + dy * dy + dz * dz) * (t * t) + 2.0 * (dx * ox + dy * oy + dz * oz) * t
            + ((ox * ox + oy * oy + oz * oz) - 1.0)
  {
    SquareOfAdvance(ox, dx, t);
    SquareOfAdvance(oy, dy, t);
    SquareOfAdvance(oz, dz, t);
    SumOfAdvances(ox * ox, oy * oy, oz * oz, dx * ox, dy * oy, dz * oz, dx * dx, dy * dy, dz * dz, t);
  }

  /** Collecting the three expanded coordinates into the coefficients of t. */
  lemma SumOfAdvances(ox: real, oy: real, oz: real, ex: real, ey: real, ez: real,
                      ax: real, ay: real, az: real, t: real)
    ensures (ox + 2.0 * ex * t + ax * (t * t)) + (oy + 2.0 * ey * t + ay * (t * t)) + (oz + 2.0 * ez * t + az * (t * t)) - 1.0
         == (ax + ay + az) * (t * t) + 2.0 * (ex + ey + ez) * t + (ox + oy + oz - 1.0)
  {
  }

  /** One coordinate of the expansion: (o + d t)^2 = o^2 + 2 d o t + d^2 t^2. */
  lemma SquareOfAdvance(o: real, d: real, t: real)
    ensures (o + d * t) * (o + d * t) == o * o + 2.0 * (d * o) * t + (d * d) * (t * t)
  {
  }

  /** A root of the quadratic, with a genuine square root of the discriminant. */
  lemma RootSolvesQuadratic(a: real, b: real, c: real, s: real, t: real)
    requires a != 0.0 && s * s == b * b - 4.0 * a * c
    requires t == (-b - s) / (2.0 * a) || t == (-b + s) / (2.0 * a)
    ensures a * (t * t) + b * t + c == 0.0
  {
    var u := 2.0 * a * t + b;
    assert u == -s || u == s;
    assert u * u == s * s;
    assert 4.0 * a * (a * (t * t) + b * t + c) == u * u - b * b + 4.0 * a * c;
  }

  /**
   * Every time returned is a point on the unit sphere: the position at that
   * time lies at distance 1 from the centre, given that `sqrt` returns a
   * square root of the discriminant.
   */
  lemma HitsLieOnSphere(r: Ray, sqrt: real -> real, t: real)
    requires QuadA(r) != 0.0
    requires Discriminant(r) >= 0.0 ==> sqrt(Discriminant(r)) * sqrt(Discriminant(r)) == Discriminant(r)
    requires t in LocalIntersect(r, sqrt)
    ensures SpatialDot(FromCentre(Position(r, t)), FromCentre(Position(r, t))) == 1.0
  {
    RootSolvesQuadratic(QuadA(r), QuadB(r), QuadC(r), sqrt(Discriminant(r)), t);
    QuadraticIsDistance(r, t);
  }

  /**
   * The converse of the quadratic formula: any root of a quadratic with a
   * non-zero leading coefficient makes the discriminant non-negative, and is
   * one of the two formula roots for either square root of it.
   */
  lemma QuadraticRootsComplete(a: real, b: real, c: real, s: real, t: real)
    requires a != 0.0 && a * (t * t) + b * t + c == 0.0
    ensures b * b - 4.0 * a * c >= 0.0
    ensures s * s == b * b - 4.0 * a * c ==> t == (-b - s) / (2.0 * a) || t == (-b + s) / (2.0 * a)
  {
    var u := 2.0 * a * t + b;
    assert 4.0 * a * (a * (t * t) + b * t + c) == u * u - b * b + 4.0 * a * c;
    assert u * u == b * b - 4.0 * a * c;
    if s * s == b * b - 4.0 * a * c {
      assert (u - s) * (u + s) == 0.0;
      assert u == s || u == -s;
      assert t == (u - b) / (2.0 * a);
    }
  }

  /**
   * Every time at which the ray is on the unit sphere is returned, so a
   * negative discriminant means the ray never touches the sphere. Together
   * with `HitsLieOnSphere`, the returned times are exactly the times on the
   * sphere.
   */
  lemma OnSphereIsReturned(r: Ray, sqrt: real -> real, t: real)
    requires QuadA(r) != 0.0
    requires Discriminant(r) >= 0.0 ==> sqrt(Discriminant(r)) * sqrt(Discriminant(r)) == Discriminant(r)
    requires SpatialDot(FromCentre(Position(r, t)), FromCentre(Position(r, t))) == 1.0
    ensures Discriminant(r) >= 0.0
    ensures t in LocalIntersect(r, sqrt)
  {
    QuadraticIsDistance(r, t);
    QuadraticRootsComplete(QuadA(r), QuadB(r), QuadC(r), sqrt(Discriminant(r)), t);
  }

  /** The returned times are exactly the times at which the ray is on the sphere. */
  lemma IntersectIsExact(r: Ray, sqrt: real -> real, t: real)
    requires QuadA(r) != 0.0
    requires Discriminant(r) >= 0.0 ==> sqrt(Discriminant(r)) * sqrt(Discriminant(r)) == Discriminant(r)
    ensures t in LocalIntersect(r, sqrt)
        <==> SpatialDot(FromCentre(Position(r, t)), FromCentre(Position(r, t))) == 1.0
  {
    if t in LocalIntersect(r, sqrt) {
      HitsLieOnSphere(r, sqrt, t);
    }
    if SpatialDot(FromCentre(Position(r, t)), FromCentre(Position(r, t))) == 1.0 {
      OnSphereIsReturned(r, sqrt, t);
    }
  }

  /** With a non-negative square root the nearer time comes first; a tangent ray gives two equal times. */
  lemma RootsOrdered(r: Ray, sqrt: real -> real)
    requires QuadA(r) != 0.0 && Discriminant(r) >= 0.0 && sqrt(Discriminant(r)) >= 0.0
    ensures LocalIntersect(r, sqrt)[0] <= LocalIntersect(r, sqrt)[1]
    ensures sqrt(Discriminant(r)) == 0.0 ==> LocalIntersect(r, sqrt)[0] == LocalIntersect(r, sqrt)[1]
  {
    var a, b, s := QuadA(r), QuadB(r), sqrt(Discriminant(r));
    assert a > 0.0;
    assert (-b - s) / (2.0 * a) <= (-b + s) / (2.0 * a);
  }

  /** The coefficients for a ray parallel to the z axis through (a, b, c). */
  lemma AlongZCoefficients(r: Ray, a: real, b: real, c: real)
    requires r.origin == Point(a, b, c) && r.direction == Vector(0.0, 0.0, 1.0)
    ensures QuadA(r) == 1.0 && QuadB(r) == 2.0 * c && QuadC(r) == a * a + b * b + c * c - 1.0
  {
    assert SphereToRay(r) == Tuple(a, b, c, 0.0);
  }

  /** The discriminant in terms of the coefficients, as plain reals. */
  lemma AlongZPolynomial(a: real, b: real, c: real, qa: real, qb: real, qc: real)
    requires qa == 1.0 && qb == 2.0 * c && qc == a * a + b * b + c * c - 1.0
    ensures qb * qb - 4.0 * qa * qc == 4.0 * (1.0 - a * a - b * b)
  {
  }

  /**
   * For a ray parallel to the z axis the discriminant depends only on the
   * distance of the ray from the axis: four times one minus its square.
   */
  lemma AlongZDiscriminant(r: Ray, a: real, b: real, c: real)
    requires r.origin == Point(a, b, c) && r.direction == Vector(0.0, 0.0, 1.0)
    ensures Discriminant(r) == 4.0 * (1.0 - a * a - b * b)
  {
    AlongZCoefficients(r, a, b, c);
    AlongZPolynomial(a, b, c, QuadA(r), QuadB(r), QuadC(r));
  }

  /** A ray parallel to the z axis misses exactly when it passes farther than 1 from the axis. */
  lemma AlongZMisses(r: Ray, a: real, b: real, c: real, sqrt: real -> real)
    requires r.origin == Point(a, b, c) && r.direction == Vector(0.0, 0.0, 1.0)
    ensures LocalIntersect(r, sqrt) == [] <==> a * a + b * b > 1.0
  {
    AlongZCoefficients(r, a, b, c);
    AlongZDiscriminant(r, a, b, c);
  }

  /**
   * On the z axis itself, from z = c, the two times are the distances to the
   * poles: -c - 1 and -c + 1, whether the sphere lies ahead, around or behind.
   */
  lemma OnZAxis(r: Ray, c: real, sqrt: real -> real)
    requires r.origin == Point(0.0, 0.0, c) && r.direction == Vector(0.0, 0.0, 1.0)
    requires sqrt(4.0) == 2.0
    ensures LocalIntersect(r, sqrt) == [-c - 1.0, -c + 1.0]
  {
    AlongZCoefficients(r, 0.0, 0.0, c);
    AlongZDiscriminant(r, 0.0, 0.0, c);
  }

  /** `a_ray_intersects_a_sphere_at_two_points`: from (0, 0, -5) the times are 4 and 6. */
  lemma TwoPointsExample(r: Ray, sqrt: real -> real)
    requires r == Ray(Point(0.0, 0.0, -5.0), Vector(0.0, 0.0, 1.0)) && sqrt(4.0) == 2.0
    ensures LocalIntersect(r, sqrt) == [4.0, 6.0]
  {
    OnZAxis(r, -5.0, sqrt);
  }

  /** `a_ray_misses_a_sphere`: raised to y = 2 the same ray misses. */
  lemma MissExample(r: Ray, sqrt: real -> real)
    requires r == Ray(Point(0.0, 2.0, -5.0), Vector(0.0, 0.0, 1.0))
    ensures LocalIntersect(r, sqrt) == []
  {
    assert 0.0 * 0.0 + 2.0 * 2.0 == 4.0;
    AlongZMisses(r, 0.0, 2.0, -5.0, sqrt);
  }

  /** `a_ray_originates_inside_a_sphere`: from the centre the times are -1 and 1. */
  lemma InsideExample(r: Ray, sqrt: real -> real)
    requires r == Ray(Point(0.0, 0.0, 0.0), Vector(0.0, 0.0, 1.0)) && sqrt(4.0) == 2.0
    ensures LocalIntersect(r, sqrt) == [-1.0, 1.0]
  {
    OnZAxis(r, 0.0, sqrt);
  }

  /** `a_sphere_is_behind_a_ray`: both times are negative, -6 and -4, and both are returned. */
  lemma BehindExample(r: Ray, sqrt: real -> real)
    requires r == Ray(Point(0.0, 0.0, 5.0), Vector(0.0, 0.0, 1.0)) && sqrt(4.0) == 2.0
    ensures LocalIntersect(r, sqrt) == [-6.0, -4.0]
  {
    OnZAxis(r, 5.0, sqrt);
  }

  /** On the unit sphere the normal has unit length, and it points away from the centre. */
  lemma NormalOnSphereIsUnit(p: Tuple)
    requires IsPoint(p) && SpatialDot(FromCentre(p), FromCentre(p)) == 1.0
    ensures IsVector(LocalNormalAt(p)) && Dot(LocalNormalAt(p), LocalNormalAt(p)) == 1.0
    ensures Dot(LocalNormalAt(p), FromCentre(p)) > 0.0
  {
  }

  /** The normal at a point is that point's offset from the centre, as a vector. */
  lemma NormalIsOffset(x: real, y: real, z: real)
    ensures LocalNormalAt(Point(x, y, z)) == Vector(x, y, z)
  {
  }

  /** The normals at the three axis points are the axes. */
  lemma AxisNormalExamples()
    ensures LocalNormalAt(Point(1.0, 0.0, 0.0)) == Vector(1.0, 0.0, 0.0)
    ensures LocalNormalAt(Point(0.0, 1.0, 0.0)) == Vector(0.0, 1.0, 0.0)
    ensures LocalNormalAt(Point(0.0, 0.0, 1.0)) == Vector(0.0, 0.0, 1.0)
  {
    NormalIsOffset(1.0, 0.0, 0.0);
    NormalIsOffset(0.0, 1.0, 0.0);
    NormalIsOffset(0.0, 0.0, 1.0);
  }
}
