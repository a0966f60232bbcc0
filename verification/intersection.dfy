/**
 * Intersections: a time along a ray paired with the object met there, the
 * choice of the visible one among a list of them (`hit`), and the state the
 * shader needs at that point (`prepare_computations`).
 *
 * The object type is a parameter: the tracer only ever stores and passes it
 * on, and asks it for a normal through `normal_at`.
 */
module Intersections {
  import opened Util
  import opened Tuples
  import opened Rays
  import Spheres

  /** `Intersection`: the time along the ray and the object hit. */
  datatype Intersection<O> = Intersection(time: real, obj: O)

  /** Only an intersection strictly in front of the ray's origin can be seen. */
  predicate Visible<O>(x: Intersection<O>) { x.time > 0.0 }

  /**
   * The reference meaning of `hit`: position k holds a visible intersection
   * whose time is the smallest of all visible times, and no earlier visible
   * intersection has that same time (among equals the first one wins).
   */
  predicate IsHitAt<O>(xs: seq<Intersection<O>>, k: int)
  {
    && 0 <= k < |xs|
    && Visible(xs[k])
    && (forall j :: 0 <= j < |xs| && Visible(xs[j]) ==> xs[k].time <= xs[j].time)
    && (forall j :: 0 <= j < k && Visible(xs[j]) ==> xs[k].time < xs[j].time)
  }

  /**
   * One step of `filter(time > 0).min_by(total_cmp)`: an invisible element is
   * skipped, and a visible one replaces the best so far only when its time is
   * strictly smaller, so that the first of several equal minima is kept.
   */
  function Step<O>(best: Option<Intersection<O>>, x: Intersection<O>): Option<Intersection<O>>
  {
    if !Visible(x) then best
    else if best.None? || x.time < best.value.time then Some(x)
    else best
  }

  /**
   * `hit`: the visible intersection with the smallest time, as a left fold of
   * `Step` over the list; nothing when no time is strictly positive.
   */
  function Hit<O>(xs: seq<Intersection<O>>): (h: Option<Intersection<O>>)
    ensures h.None? <==> forall i :: 0 <= i < |xs| ==> !Visible(xs[i])
    ensures h.Some? ==> h.value in xs && Visible(h.value)
    ensures h.Some? ==> forall i :: 0 <= i < |xs| && Visible(xs[i]) ==> h.value.time <= xs[i].time
    decreases |xs|
  {
    if |xs| == 0 then None
    else
      var init := xs[..|xs| - 1];
      assert forall i :: 0 <= i < |init| ==> init[i] == xs[i];
      Step(Hit(init), xs[|xs| - 1])
  }

  /** `prepare_computations`: what the shader needs at an intersection. */
  datatype Computations<O> = Computations(i: Intersection<O>, point: Tuple, inside: bool, eyeV: Tuple, normalV: Tuple)

  /**
   * `prepare_computations`: the point is the ray's position at the time, the
   * eye vector points back along the ray, and the normal is turned towards
   * the eye, with `inside` recording whether it had to be turned. The source
   * asserts that the normal it takes the dot product of is a vector.
   */
  function PrepareComputations<O>(x: Intersection<O>, r: Ray, normalAt: (O, Tuple) -> Tuple): (c: Computations<O>)
    requires IsVector(normalAt(x.obj, Position(r, x.time)))
    ensures c.i == x && c.point == Position(r, x.time) && c.eyeV == Neg(r.direction)
    ensures IsVector(c.normalV)
    ensures c.inside <==> Dot(normalAt(x.obj, c.point), c.eyeV) < 0.0
    ensures c.normalV == if c.inside then Neg(normalAt(x.obj, c.point)) else normalAt(x.obj, c.point)
  {
    var p := Position(r, x.time);
    var n := normalAt(x.obj, p);
    var eye := Neg(r.direction);
    if Dot(n, eye) < 0.0 then Computations(x, p, true, eye, Neg(n))
    else Computations(x, p, false, eye, n)
  }

  // ---------------------------------------------------------------- lemmas

  /** The hit is the intersection at the one position the reference definition names. */
  lemma {:induction false} HitIsEarliestMinimum<O>(xs: seq<Intersection<O>>)
    ensures Hit(xs).Some? ==> exists k :: IsHitAt(xs, k) && Hit(xs).value == xs[k]
    decreases |xs|
  {
    if |xs| > 0 {
      var init, x := xs[..|xs| - 1], xs[|xs| - 1];
      assert forall i :: 0 <= i < |init| ==> init[i] == xs[i];
      HitIsEarliestMinimum(init);
      var best := Hit(init);
      if Visible(x) && (best.None? || x.time < best.value.time) {
        assert IsHitAt(xs, |xs| - 1);
      } else if best.Some? {
        var k :| IsHitAt(init, k) && best.value == init[k];
        assert IsHitAt(xs, k);
      }
    }
  }

  /** At most one position satisfies the reference definition. */
  lemma HitAtUnique<O>(xs: seq<Intersection<O>>, j: int, k: int)
    requires IsHitAt(xs, j) && IsHitAt(xs, k)
    ensures j == k
  {
  }

  /**
   * Reordering the list does not change whether there is a hit or the time
   * of the hit: it is the smallest positive time of the multiset.
   */
  lemma HitOrderIndependent<O>(xs: seq<Intersection<O>>, ys: seq<Intersection<O>>)
    requires multiset(xs) == multiset(ys)
    ensures Hit(xs).None? <==> Hit(ys).None?
    ensures Hit(xs).Some? ==> Hit(xs).value.time == Hit(ys).value.time
  {
    forall x | x in xs ensures x in ys {
      assert x in multiset(xs);
    }
    forall y | y in ys ensures y in xs {
      assert y in multiset(ys);
    }
    if Hit(xs).Some? {
      var hx := Hit(xs).value;
      var i :| 0 <= i < |ys| && ys[i] == hx;
      var hy := Hit(ys).value;
      var j :| 0 <= j < |xs| && xs[j] == hy;
    }
    if Hit(ys).Some? {
      var hy := Hit(ys).value;
      var j :| 0 <= j < |xs| && xs[j] == hy;
    }
  }

  /** `hit_all_intersections_positive_t`: of 1 and 2, the hit is 1. */
  lemma HitAllPositiveExample<O>(s: O)
    ensures Hit([Intersection(1.0, s), Intersection(2.0, s)]) == Some(Intersection(1.0, s))
  {
  }

  /** `hit_some_intersections_positive_t`: of -1 and 1, the hit is 1. */
  lemma HitSomePositiveExample<O>(s: O)
    ensures Hit([Intersection(-1.0, s), Intersection(1.0, s)]) == Some(Intersection(1.0, s))
  {
  }

  /** `hit_all_intersections_negative_t`: of -2 and -1 nothing is hit. */
  lemma HitAllNegativeExample<O>(s: O)
    ensures Hit([Intersection(-2.0, s), Intersection(-1.0, s)]) == None
  {
  }

  /** `hit_always_lowest_nonnegative_intersection`: of 5, 7, -3 and 2, the hit is 2. */
  lemma HitLowestExample<O>(s: O)
    ensures Hit([Intersection(5.0, s), Intersection(7.0, s), Intersection(-3.0, s), Intersection(2.0, s)])
         == Some(Intersection(2.0, s))
  {
    var xs := [Intersection(5.0, s), Intersection(7.0, s), Intersection(-3.0, s), Intersection(2.0, s)];
    assert Visible(xs[3]);
  }

  /** After preparation the normal faces the eye: its dot product with the eye vector is never negative. */
  lemma NormalFacesEye<O>(x: Intersection<O>, r: Ray, normalAt: (O, Tuple) -> Tuple)
    requires IsVector(normalAt(x.obj, Position(r, x.time)))
    ensures Dot(PrepareComputations(x, r, normalAt).normalV, PrepareComputations(x, r, normalAt).eyeV)
         == Abs(Dot(normalAt(x.obj, Position(r, x.time)), Neg(r.direction)))
  {
  }

  /**
   * For the unit sphere and a ray along +z from (0, 0, c), the hit at time t
   * lies at z = c + t; the ray is inside exactly when that is beyond the
   * centre, and the prepared normal always points back along -z.
   */
  lemma ZAxisPosition(r: Ray, c: real, t: real)
    requires r.origin == Point(0.0, 0.0, c) && r.direction == Vector(0.0, 0.0, 1.0)
    ensures Position(r, t) == Point(0.0, 0.0, c + t)
  {
    var p := Position(r, t);
    assert p.x == 0.0 && p.y == 0.0 && p.z == c + t && p.w == 1.0;
  }

  lemma SphereOnZAxisComputations<O>(r: Ray, c: real, x: Intersection<O>)
    requires r.origin == Point(0.0, 0.0, c) && r.direction == Vector(0.0, 0.0, 1.0)
    ensures PrepareComputations(x, r, Spheres.ObjectNormal).point == Point(0.0, 0.0, c + x.time)
    ensures PrepareComputations(x, r, Spheres.ObjectNormal).eyeV == Vector(0.0, 0.0, -1.0)
    ensures PrepareComputations(x, r, Spheres.ObjectNormal).inside <==> c + x.time > 0.0
    ensures PrepareComputations(x, r, Spheres.ObjectNormal).normalV == Vector(0.0, 0.0, -Abs(c + x.time))
  {
    ZAxisPosition(r, c, x.time);
    var p := Position(r, x.time);
    var n, eye := Spheres.ObjectNormal(x.obj, p), Neg(r.direction);
    assert n == Vector(0.0, 0.0, c + x.time);
    assert eye == Vector(0.0, 0.0, -1.0);
    assert Dot(n, eye) == -(c + x.time);
  }

  /** `precomputing_state_of_intersection` and `hit_intersection_outside`: the hit at 4 from (0, 0, -5). */
  lemma OutsideExample<O>(r: Ray, s: O)
    requires r.origin == Point(0.0, 0.0, -5.0) && r.direction == Vector(0.0, 0.0, 1.0)
    ensures PrepareComputations(Intersection(4.0, s), r, Spheres.ObjectNormal)
         == Computations(Intersection(4.0, s), Point(0.0, 0.0, -1.0), false, Vector(0.0, 0.0, -1.0), Vector(0.0, 0.0, -1.0))
  {
    SphereOnZAxisComputations(r, -5.0, Intersection(4.0, s));
  }

  /** `hit_intersection_inside`: from the centre the hit at 1 is inside and the normal is turned. */
  lemma InsideExample<O>(r: Ray, s: O)
    requires r.origin == Point(0.0, 0.0, 0.0) && r.direction == Vector(0.0, 0.0, 1.0)
    ensures PrepareComputations(Intersection(1.0, s), r, Spheres.ObjectNormal)
         == Computations(Intersection(1.0, s), Point(0.0, 0.0, 1.0), true, Vector(0.0, 0.0, -1.0), Vector(0.0, 0.0, -1.0))
  {
    SphereOnZAxisComputations(r, 0.0, Intersection(1.0, s));
  }
}
