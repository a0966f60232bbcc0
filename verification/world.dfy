/**
 * The world: the lights and the objects of a scene, every intersection of a
 * ray with any object sorted by time, and the colour seen along a ray (the
 * first light's Phong shading at the visible hit, black when nothing is hit).
 *
 * The object type is a parameter: what the world asks of an object (its
 * intersection times, its normal, its material) is passed in as `Shapes`.
 */
module Worlds {
  import opened Util
  import opened Tuples
  import opened Rays
  import opened Matrices
  import opened Transformations
  import C = Colors
  import M = Materials
  import opened Intersections

  /** `World`: the lights and the objects of a scene. */
  datatype World<O> = World(lights: seq<M.Light>, objects: seq<O>)

  /**
   * What the world asks of an object (`Intersectable`): the times at which a
   * ray meets it, its normal at a point, and its material.
   */
  datatype Shapes<!O> = Shapes(intersect: (O, Ray) -> seq<real>, normalAt: (O, Tuple) -> Tuple, material: O -> M.Material)

  /** The times at which a ray meets one object, each paired with that object. */
  function Tag<O>(o: O, ts: seq<real>): (xs: seq<Intersection<O>>)
    ensures |xs| == |ts|
    ensures forall i :: 0 <= i < |ts| ==> xs[i] == Intersection(ts[i], o)
  {
    seq(|ts|, i requires 0 <= i < |ts| => Intersection(ts[i], o))
  }

  /** The `map(intersects).flatten()` part of `intersects`: every object's intersections, object by object. */
  function Gather<O>(objects: seq<O>, r: Ray, shapes: Shapes<O>): seq<Intersection<O>>
    decreases |objects|
  {
    if |objects| == 0 then []
    else Tag(objects[0], shapes.intersect(objects[0], r)) + Gather(objects[1..], r, shapes)
  }

  predicate SortedByTime<O>(xs: seq<Intersection<O>>)
  {
    forall i, j :: 0 <= i < j < |xs| ==> xs[i].time <= xs[j].time
  }

  /**
   * Puts x in front of the first element whose time is not smaller. Used by
   * `SortByTime` with x taken from the front of the input, this keeps equal
   * times in input order.
   */
  function Insert<O>(x: Intersection<O>, xs: seq<Intersection<O>>): (ys: seq<Intersection<O>>)
    requires SortedByTime(xs)
    ensures SortedByTime(ys)
    ensures multiset(ys) == multiset(xs) + multiset{x}
    decreases |xs|
  {
    if |xs| == 0 then [x]
    else if x.time <= xs[0].time then
      SortedFront(x, xs);
      [x] + xs
    else
      assert xs == [xs[0]] + xs[1..];
      SortedTail(xs);
      var rest := Insert(x, xs[1..]);
      BoundedBelow(rest, xs[1..], x, xs[0].time);
      SortedCons(xs[0], rest);
      [xs[0]] + rest
  }

  /** `sort_by(total_cmp)` on the times: an insertion sort. */
  function SortByTime<O>(xs: seq<Intersection<O>>): (ys: seq<Intersection<O>>)
    ensures SortedByTime(ys)
    ensures multiset(ys) == multiset(xs)
    decreases |xs|
  {
    if |xs| == 0 then []
    else
      assert xs == [xs[0]] + xs[1..];
      Insert(xs[0], SortByTime(xs[1..]))
  }

  /**
   * `intersects`: all intersections of the ray with all objects, in order of
   * time: the same intersections as the object-by-object list, sorted.
   */
  function Intersects<O>(w: World<O>, r: Ray, shapes: Shapes<O>): (xs: seq<Intersection<O>>)
    ensures SortedByTime(xs)
    ensures multiset(xs) == multiset(Gather(w.objects, r, shapes))
  {
    SortByTime(Gather(w.objects, r, shapes))
  }

  /**
   * What `shade_hit` needs to get through: there is a first light (the source
   * indexes `lights[0]`), and lighting at the prepared point can be computed.
   */
  predicate CanShade<O>(w: World<O>, comps: Computations<O>, sqrt: real -> real)
  {
    |w.lights| > 0 && M.CanLight(w.lights[0], comps.point, comps.normalV, sqrt)
  }

  /** `shade_hit`: the hit object's material lit by the first light only. */
  function ShadeHit<O>(w: World<O>, comps: Computations<O>, shapes: Shapes<O>,
                       sqrt: real -> real, pow: (real, real) -> real): C.Color
    requires CanShade(w, comps, sqrt)
  {
    M.Lighting(shapes.material(comps.i.obj), w.lights[0], comps.point, comps.eyeV, comps.normalV, sqrt, pow)
  }

  /**
   * What `color_at` needs to get through: only when there is a hit must its
   * normal be a vector and the hit be shadeable.
   */
  predicate CanColor<O>(w: World<O>, r: Ray, shapes: Shapes<O>, sqrt: real -> real)
  {
    var h := Hit(Intersects(w, r, shapes));
    h.Some? ==>
      && IsVector(shapes.normalAt(h.value.obj, Position(r, h.value.time)))
      && CanShade(w, PrepareComputations(h.value, r, shapes.normalAt), sqrt)
  }

  /** `color_at`: the shaded colour of the visible hit, or black. */
  function ColorAt<O>(w: World<O>, r: Ray, shapes: Shapes<O>,
                      sqrt: real -> real, pow: (real, real) -> real): C.Color
    requires CanColor(w, r, shapes, sqrt)
  {
    match Hit(Intersects(w, r, shapes))
    case None => C.Black()
    case Some(h) => ShadeHit(w, PrepareComputations(h, r, shapes.normalAt), shapes, sqrt, pow)
  }

  /** `Object::Sphere`: a unit sphere placed by its transform, with its material. */
  datatype Body = Body(material: M.Material, transform: Matrix)

  /**
   * `ch7_default`: a white light at (-10, 10, -10); a unit sphere with a
   * green-yellow material, and inside it a default sphere of half the size.
   */
  function Ch7Default(): World<Body>
  {
    World([M.Light(Point(-10.0, 10.0, -10.0), C.New(1.0, 1.0, 1.0))],
          [Body(M.Default.(color := C.New(0.8, 1.0, 0.6), diffuse := 0.7, specular := 0.2), Identity()),
           Body(M.Default, Scaling(0.5, 0.5, 0.5))])
  }

  // ---------------------------------------------------------------- lemmas

  /** The tail of a sorted list is sorted, and no earlier than its head. */
  lemma SortedTail<O>(xs: seq<Intersection<O>>)
    requires SortedByTime(xs) && |xs| > 0
    ensures SortedByTime(xs[1..])
    ensures forall i :: 0 <= i < |xs[1..]| ==> xs[0].time <= xs[1..][i].time
  {
    forall i, j | 0 <= i < j < |xs[1..]|
      ensures xs[1..][i].time <= xs[1..][j].time
    {
      assert xs[1..][i] == xs[i + 1] && xs[1..][j] == xs[j + 1];
    }
  }

  /** A head no later than anything in a sorted list extends it to a sorted list. */
  lemma SortedCons<O>(y: Intersection<O>, ys: seq<Intersection<O>>)
    requires SortedByTime(ys)
    requires forall i :: 0 <= i < |ys| ==> y.time <= ys[i].time
    ensures SortedByTime([y] + ys)
  {
    var zs := [y] + ys;
    forall i, j | 0 <= i < j < |zs|
      ensures zs[i].time <= zs[j].time
    {
      assert zs[j] == ys[j - 1];
      if i > 0 {
        assert zs[i] == ys[i - 1];
      }
    }
  }

  /** A head no later than the front of a sorted list extends it to a sorted list. */
  lemma SortedFront<O>(y: Intersection<O>, ys: seq<Intersection<O>>)
    requires SortedByTime(ys) && (|ys| == 0 || y.time <= ys[0].time)
    ensures SortedByTime([y] + ys)
  {
    SortedCons(y, ys);
  }

  /** Everything in ys is at least lo when ys holds exactly zs and x, and they all are. */
  lemma BoundedBelow<O>(ys: seq<Intersection<O>>, zs: seq<Intersection<O>>, x: Intersection<O>, lo: real)
    requires multiset(ys) == multiset(zs) + multiset{x}
    requires lo <= x.time
    requires forall i :: 0 <= i < |zs| ==> lo <= zs[i].time
    ensures forall i :: 0 <= i < |ys| ==> lo <= ys[i].time
  {
    forall i | 0 <= i < |ys|
      ensures lo <= ys[i].time
    {
      assert ys[i] in multiset(ys);
      if ys[i] != x {
        assert ys[i] in multiset(zs);
        var j :| 0 <= j < |zs| && zs[j] == ys[i];
      }
    }
  }

  /** An intersection is gathered exactly when it is one of an object's times paired with that object. */
  lemma {:induction false} GatherMembers<O>(objects: seq<O>, r: Ray, shapes: Shapes<O>, x: Intersection<O>)
    ensures x in Gather(objects, r, shapes)
        <==> exists k :: 0 <= k < |objects| && x.obj == objects[k] && x.time in shapes.intersect(objects[k], r)
    decreases |objects|
  {
    if |objects| > 0 {
      var head := Tag(objects[0], shapes.intersect(objects[0], r));
      var rest := objects[1..];
      GatherMembers(rest, r, shapes, x);
      assert x in head <==> x.obj == objects[0] && x.time in shapes.intersect(objects[0], r) by {
        if x in head {
          var i :| 0 <= i < |head| && head[i] == x;
        }
        if x.obj == objects[0] && x.time in shapes.intersect(objects[0], r) {
          var i :| 0 <= i < |shapes.intersect(objects[0], r)| && shapes.intersect(objects[0], r)[i] == x.time;
          assert head[i] == x;
        }
      }
      if x in Gather(rest, r, shapes) {
        var k :| 0 <= k < |rest| && x.obj == rest[k] && x.time in shapes.intersect(rest[k], r);
        assert objects[k + 1] == rest[k];
      }
      if exists k :: 0 <= k < |objects| && x.obj == objects[k] && x.time in shapes.intersect(objects[k], r) {
        var k :| 0 <= k < |objects| && x.obj == objects[k] && x.time in shapes.intersect(objects[k], r);
        if k > 0 {
          assert rest[k - 1] == objects[k];
        }
      }
    }
  }

  /**
   * The world's intersections are exactly the objects' own: an intersection is
   * in the sorted list when and only when it is a time of some object, paired
   * with that object.
   */
  lemma IntersectsMembers<O>(w: World<O>, r: Ray, shapes: Shapes<O>, x: Intersection<O>)
    ensures x in Intersects(w, r, shapes)
        <==> exists k :: 0 <= k < |w.objects| && x.obj == w.objects[k] && x.time in shapes.intersect(w.objects[k], r)
  {
    var xs, g := Intersects(w, r, shapes), Gather(w.objects, r, shapes);
    assert x in xs <==> x in multiset(xs);
    assert x in g <==> x in multiset(g);
    GatherMembers(w.objects, r, shapes, x);
  }

  /** Sorting a list that is already in order of time changes nothing. */
  lemma {:induction false} SortKeepsSorted<O>(xs: seq<Intersection<O>>)
    requires SortedByTime(xs)
    ensures SortByTime(xs) == xs
    decreases |xs|
  {
    if |xs| > 0 {
      var rest := xs[1..];
      assert SortedByTime(rest) by {
        forall i, j | 0 <= i < j < |rest|
          ensures rest[i].time <= rest[j].time
        {
          assert rest[i] == xs[i + 1] && rest[j] == xs[j + 1];
        }
      }
      SortKeepsSorted(rest);
      assert xs == [xs[0]] + rest;
    }
  }

  /** Sorting twice is sorting once. */
  lemma SortIdempotent<O>(xs: seq<Intersection<O>>)
    ensures SortByTime(SortByTime(xs)) == SortByTime(xs)
  {
    SortKeepsSorted(SortByTime(xs));
  }

  /**
   * In a list sorted by time, the hit is the first visible intersection; this
   * is what makes `hit` on the world's sorted list the nearest one.
   */
  lemma SortedHitIsFirstVisible<O>(xs: seq<Intersection<O>>, k: int)
    requires SortedByTime(xs)
    requires 0 <= k < |xs| && Visible(xs[k])
    requires forall j :: 0 <= j < k ==> !Visible(xs[j])
    ensures Hit(xs) == Some(xs[k])
  {
    assert IsHitAt(xs, k);
    HitIsEarliestMinimum(xs);
    var k' :| IsHitAt(xs, k') && Hit(xs).value == xs[k'];
    HitAtUnique(xs, k, k');
  }

  /** Sorting does not change whether the ray hits anything, nor the time of the hit. */
  lemma SortingKeepsHit<O>(w: World<O>, r: Ray, shapes: Shapes<O>)
    ensures Hit(Intersects(w, r, shapes)).None? <==> Hit(Gather(w.objects, r, shapes)).None?
    ensures Hit(Intersects(w, r, shapes)).Some?
        ==> Hit(Intersects(w, r, shapes)).value.time == Hit(Gather(w.objects, r, shapes)).value.time
  {
    HitOrderIndependent(Intersects(w, r, shapes), Gather(w.objects, r, shapes));
  }

  /**
   * `ray_misses`, for any world: when no object meets the ray at a positive
   * time, the colour is black, whatever the lights.
   */
  lemma MissIsBlack<O>(w: World<O>, r: Ray, shapes: Shapes<O>, sqrt: real -> real, pow: (real, real) -> real)
    requires forall o, t :: o in w.objects && t in shapes.intersect(o, r) ==> t <= 0.0
    ensures CanColor(w, r, shapes, sqrt)
    ensures ColorAt(w, r, shapes, sqrt, pow) == C.Black()
  {
    var xs := Intersects(w, r, shapes);
    forall i | 0 <= i < |xs|
      ensures !Visible(xs[i])
    {
      IntersectsMembers(w, r, shapes, xs[i]);
    }
  }

  /**
   * `color_at` when something is hit: the shading of the first intersection
   * in front of the ray, in the world's sorted list.
   */
  lemma ColorAtFirstVisible<O>(w: World<O>, r: Ray, shapes: Shapes<O>, sqrt: real -> real, pow: (real, real) -> real, k: int)
    requires var xs := Intersects(w, r, shapes);
             && 0 <= k < |xs| && Visible(xs[k])
             && (forall j :: 0 <= j < k ==> !Visible(xs[j]))
    requires CanColor(w, r, shapes, sqrt)
    ensures var xs := Intersects(w, r, shapes);
            && IsVector(shapes.normalAt(xs[k].obj, Position(r, xs[k].time)))
            && CanShade(w, PrepareComputations(xs[k], r, shapes.normalAt), sqrt)
            && ColorAt(w, r, shapes, sqrt, pow) == ShadeHit(w, PrepareComputations(xs[k], r, shapes.normalAt), shapes, sqrt, pow)
  {
    SortedHitIsFirstVisible(Intersects(w, r, shapes), k);
  }

  /**
   * When the first intersection in front of the ray is at a point p whose
   * normal n faces the eye, its material has full ambient, and the first light
   * is white and lies behind the surface at p, the colour seen is the
   * material's own colour.
   */
  lemma FullAmbientHit<O>(w: World<O>, r: Ray, shapes: Shapes<O>, sqrt: real -> real, pow: (real, real) -> real,
                          k: int, p: Tuple, n: Tuple)
    requires var xs := Intersects(w, r, shapes);
             && 0 <= k < |xs| && Visible(xs[k])
             && (forall j :: 0 <= j < k ==> !Visible(xs[j]))
             && Position(r, xs[k].time) == p && shapes.normalAt(xs[k].obj, p) == n
    requires IsVector(n) && Dot(n, Neg(r.direction)) >= 0.0
    requires |w.lights| > 0 && M.CanLight(w.lights[0], p, n, sqrt)
    requires Dot(M.LightVector(w.lights[0], p, sqrt), n) < 0.0
    requires var m := shapes.material(Intersects(w, r, shapes)[k].obj);
             m.ambient == 1.0 && C.WellFormed(m.color) && w.lights[0].intensity == C.White()
    ensures CanColor(w, r, shapes, sqrt)
    ensures ColorAt(w, r, shapes, sqrt, pow) == shapes.material(Intersects(w, r, shapes)[k].obj).color
  {
    var xs := Intersects(w, r, shapes);
    SortedHitIsFirstVisible(xs, k);
    var comps := PrepareComputations(xs[k], r, shapes.normalAt);
    assert comps.point == p && comps.normalV == n;
    M.FullAmbientShowsColour(shapes.material(xs[k].obj), w.lights[0], p, comps.eyeV, n, sqrt, pow);
  }

  /** Only the first light shades: further lights, and other objects, leave the colour unchanged. */
  lemma ShadeHitFirstLightOnly<O>(w: World<O>, more: seq<M.Light>, others: seq<O>, comps: Computations<O>,
                                  shapes: Shapes<O>, sqrt: real -> real, pow: (real, real) -> real)
    requires CanShade(w, comps, sqrt)
    ensures CanShade(World(w.lights + more, others), comps, sqrt)
    ensures ShadeHit(World(w.lights + more, others), comps, shapes, sqrt, pow) == ShadeHit(w, comps, shapes, sqrt, pow)
  {
    assert (w.lights + more)[0] == w.lights[0];
  }

  /** Two times of one object become two intersections with it, in the same order. */
  lemma TagPair<O>(o: O, ts: seq<real>, t1: real, t2: real)
    requires ts == [t1, t2]
    ensures Tag(o, ts) == [Intersection(t1, o), Intersection(t2, o)]
  {
    var xs := Tag(o, ts);
    assert xs[0] == Intersection(t1, o) && xs[1] == Intersection(t2, o);
  }

  /** With two objects, the gathered list is the first object's intersections, then the second's. */
  lemma GatherTwo<O>(objects: seq<O>, r: Ray, shapes: Shapes<O>, s1: O, s2: O)
    requires objects == [s1, s2]
    ensures Gather(objects, r, shapes) == Tag(s1, shapes.intersect(s1, r)) + Tag(s2, shapes.intersect(s2, r))
  {
    assert objects[1..] == [s2];
    assert [s2][1..] == [];
    assert Gather([s2], r, shapes) == Tag(s2, shapes.intersect(s2, r)) + [];
    assert Tag(s2, shapes.intersect(s2, r)) + [] == Tag(s2, shapes.intersect(s2, r));
  }

  /** Sorting a non-empty list inserts its first element into the sorted rest. */
  lemma SortCons<O>(x: Intersection<O>, xs: seq<Intersection<O>>)
    ensures SortByTime([x] + xs) == Insert(x, SortByTime(xs))
  {
    assert ([x] + xs)[1..] == xs;
  }

  /** An element no later than the front of a sorted list goes in front. */
  lemma InsertFront<O>(x: Intersection<O>, xs: seq<Intersection<O>>)
    requires SortedByTime(xs) && (|xs| == 0 || x.time <= xs[0].time)
    ensures Insert(x, xs) == [x] + xs
  {
  }

  /** An element later than the front of a sorted list goes past it. */
  lemma InsertPast<O>(x: Intersection<O>, y: Intersection<O>, xs: seq<Intersection<O>>)
    requires SortedByTime([y] + xs) && y.time < x.time
    ensures SortedByTime(xs)
    ensures Insert(x, [y] + xs) == [y] + Insert(x, xs)
  {
    assert ([y] + xs)[1..] == xs;
    assert forall i :: 0 <= i < |xs| ==> xs[i] == ([y] + xs)[i + 1];
  }

  /** Two elements already in order stay as they are. */
  lemma SortTwoInOrder<O>(c: Intersection<O>, d: Intersection<O>)
    requires c.time <= d.time
    ensures SortByTime([c, d]) == [c, d]
  {
    ConsOne(d);
    SortCons(d, []);
    InsertFront(d, []);
    ConsTwo(c, d);
    SortCons(c, [d]);
    InsertFront(c, [d]);
  }

  /** An element later than both of two ordered elements goes behind them. */
  lemma InsertBehindTwo<O>(b: Intersection<O>, c: Intersection<O>, d: Intersection<O>)
    requires c.time <= d.time < b.time
    ensures Insert(b, [c, d]) == [c, d, b]
  {
    ConsTwo(c, d);
    ConsOne(d);
    InsertPast(b, c, [d]);
    InsertPast(b, d, []);
    InsertFront(b, []);
    ConsTwo(d, b);
    ConsThree(c, d, b);
  }

  lemma SortThree<O>(b: Intersection<O>, c: Intersection<O>, d: Intersection<O>)
    requires c.time <= d.time < b.time
    ensures SortByTime([b, c, d]) == [c, d, b]
  {
    SortTwoInOrder(c, d);
    InsertBehindTwo(b, c, d);
    ConsThree(b, c, d);
    SortCons(b, [c, d]);
  }

  /**
   * Two objects each met twice, the second one's times both between the first
   * one's: the sort interleaves them as first, second, second, first.
   */
  lemma SortInterleaved<O>(a: Intersection<O>, b: Intersection<O>, c: Intersection<O>, d: Intersection<O>)
    requires a.time <= c.time <= d.time < b.time
    ensures SortByTime([a, b, c, d]) == [a, c, d, b]
  {
    SortThree(b, c, d);
    ConsFour(a, b, c, d);
    SortCons(a, [b, c, d]);
    InsertFront(a, [c, d, b]);
    ConsFour(a, c, d, b);
  }

  // Proof aids with no counterpart in the tracer: a single element put in
  // front of a sequence display, stated once so that the sorting examples
  // do not have to rediscover these equalities in a larger context.
  lemma ConsOne<T>(a: T)
    ensures [a] + [] == [a]
  {
  }

  lemma ConsTwo<T>(a: T, b: T)
    ensures [a] + [b] == [a, b]
  {
  }

  lemma ConsThree<T>(a: T, b: T, c: T)
    ensures [a] + [b, c] == [a, b, c]
  {
  }

  lemma ConsFour<T>(a: T, b: T, c: T, d: T)
    ensures [a] + [b, c, d] == [a, b, c, d]
  {
  }

  /** Two objects met twice each, the second one's times between the first one's: the world's sorted list. */
  lemma TwoObjectsInterleaved<O>(w: World<O>, r: Ray, shapes: Shapes<O>, s1: O, s2: O, t1: real, t2: real, t3: real, t4: real)
    requires w.objects == [s1, s2]
    requires shapes.intersect(s1, r) == [t1, t4] && shapes.intersect(s2, r) == [t2, t3]
    requires t1 <= t2 <= t3 < t4
    ensures Intersects(w, r, shapes)
         == [Intersection(t1, s1), Intersection(t2, s2), Intersection(t3, s2), Intersection(t4, s1)]
  {
    GatherTwo(w.objects, r, shapes, s1, s2);
    TagPair(s1, shapes.intersect(s1, r), t1, t4);
    TagPair(s2, shapes.intersect(s2, r), t2, t3);
    var a, b := Intersection(t1, s1), Intersection(t4, s1);
    var c, d := Intersection(t2, s2), Intersection(t3, s2);
    assert Gather(w.objects, r, shapes) == [a, b, c, d];
    SortInterleaved(a, b, c, d);
  }

  /**
   * `intersect_world_with_ray`: with the outer sphere met at 4 and 6 and the
   * inner one at 4.5 and 5.5, the world's list is 4, 4.5, 5.5, 6.
   */
  lemma IntersectsExample<O>(w: World<O>, r: Ray, shapes: Shapes<O>, s1: O, s2: O)
    requires w.objects == [s1, s2]
    requires shapes.intersect(s1, r) == [4.0, 6.0] && shapes.intersect(s2, r) == [4.5, 5.5]
    ensures Intersects(w, r, shapes)
         == [Intersection(4.0, s1), Intersection(4.5, s2), Intersection(5.5, s2), Intersection(6.0, s1)]
  {
    TwoObjectsInterleaved(w, r, shapes, s1, s2, 4.0, 4.5, 5.5, 6.0);
  }

  /**
   * The light of the default world seen from (0, 0, 0.5) with the normal
   * along +z: lighting can be computed, and the light is behind the surface.
   */
  lemma LightBehindInnerSphere(light: M.Light, p: Tuple, n: Tuple, sqrt: real -> real)
    requires light == M.Light(Point(-10.0, 10.0, -10.0), C.White())
    requires p == Point(0.0, 0.0, 0.5) && n == Vector(0.0, 0.0, 1.0)
    requires sqrt(310.25) > 0.0
    ensures M.CanLight(light, p, n, sqrt)
    ensures Dot(M.LightVector(light, p, sqrt), n) < 0.0
  {
    var toLight := Sub(light.position, p);
    assert toLight == Vector(-10.0, 10.0, -10.5);
    assert Dot(toLight, toLight) == 310.25;
    var m := sqrt(310.25);
    BehindLightArithmetic(m);
    assert Normalize(toLight, sqrt).z == -10.5 / m;
  }

  // Arithmetic proof aid with no counterpart in the tracer: the sign of the light vector's z component.
  lemma BehindLightArithmetic(m: real)
    requires m > 0.0
    ensures -10.5 / m < 0.0
  {
  }

  /**
   * The geometry of `color_with_intersection_behind_the_ray`: from (0, 0, 0.75)
   * looking down -z, time 0.25 is at (0, 0, 0.5), where the normal +z faces
   * the eye.
   */
  lemma NearSide(r: Ray)
    requires r == Ray(Point(0.0, 0.0, 0.75), Vector(0.0, 0.0, -1.0))
    ensures Position(r, 0.25) == Point(0.0, 0.0, 0.5)
    ensures Dot(Vector(0.0, 0.0, 1.0), Neg(r.direction)) >= 0.0
  {
    var p := Position(r, 0.25);
    assert p.x == 0.0 && p.y == 0.0 && p.z == 0.5 && p.w == 1.0;
  }

  /**
   * `color_with_intersection_behind_the_ray`: the outer sphere is met at
   * -0.25 (behind the eye) and 1.75, the inner one at 0.25 and 1.25, so the
   * hit is the inner sphere at time 0.25. When the normal there faces the eye
   * (as `NearSide` shows for the test's ray) and a white light is behind the
   * surface (as `LightBehindInnerSphere` shows for the default world's light),
   * full ambient makes the colour exactly the inner sphere's own colour.
   */
  lemma BehindTheRayExample<O>(w: World<O>, r: Ray, shapes: Shapes<O>, sqrt: real -> real, pow: (real, real) -> real,
                               outer: O, inner: O, light: M.Light, p: Tuple, n: Tuple)
    requires w.objects == [outer, inner] && w.lights == [light]
    requires shapes.intersect(outer, r) == [-0.25, 1.75] && shapes.intersect(inner, r) == [0.25, 1.25]
    requires Position(r, 0.25) == p && shapes.normalAt(inner, p) == n
    requires IsVector(n) && Dot(n, Neg(r.direction)) >= 0.0
    requires shapes.material(inner).ambient == 1.0 && C.WellFormed(shapes.material(inner).color)
    requires light.intensity == C.White()
    requires M.CanLight(light, p, n, sqrt) && Dot(M.LightVector(light, p, sqrt), n) < 0.0
    ensures CanColor(w, r, shapes, sqrt)
    ensures ColorAt(w, r, shapes, sqrt, pow) == shapes.material(inner).color
  {
    TwoObjectsInterleaved(w, r, shapes, outer, inner, -0.25, 0.25, 1.25, 1.75);
    FullAmbientHit(w, r, shapes, sqrt, pow, 1, p, n);
  }

  /**
   * The default world: one white light; two spheres, the outer one in place
   * and the inner one scaled by `half`; the outer sphere differs from the
   * default material only in colour, diffuse and specular, the inner one has
   * the default material.
   */
  lemma Ch7DefaultFacts(half: real)
    requires half == 0.5
    ensures var w := Ch7Default();
            && |w.lights| == 1 && w.lights[0].intensity == C.White() && w.lights[0].position == Point(-10.0, 10.0, -10.0)
            && |w.objects| == 2
            && w.objects[0].transform == Identity() && w.objects[1].transform == Scaling(half, half, half)
            && w.objects[0].material == M.Default.(color := w.objects[0].material.color, diffuse := 0.7, specular := 0.2)
            && C.R(w.objects[0].material.color) == 0.8 && C.G(w.objects[0].material.color) == 1.0
            && C.B(w.objects[0].material.color) == 0.6
            && w.objects[1].material == M.Default
  {
  }
}
