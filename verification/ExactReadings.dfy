/** What the algorithm for four anchors or more computes from exact readings:
    coordinates-calculator/src/main/java/pl/indoornavi/coordinatescalculator/algorithms/GeoN3d.java. */
module ExactReadings {
  import opened Wrappers
  import opened Geometry
  import opened Spheres
  import opened PlanarPoints
  import opened Threshold
  import opened GeoN3d

  // ---------------------------------------------------------------------------
  // The triples, each anchor with its own reading.

  predicate OnReading(q: Vec, r: Reading) {
    Dist2(q, r.position) == r.distance * r.distance
  }

  predicate ReadingsMeet(sqrt: real -> real, r: Reading, s: Reading) {
    SpheresIntersect(Norm(sqrt, Minus(r.position, s.position)), r.distance, s.distance)
  }

  predicate Apart(a: seq<Reading>, i: nat, j: nat, k: nat)
    requires k < j < i < |a|
  {
    NotCollinear(a[i].position, a[j].position, a[k].position)
  }

  function Rise(sqrt: real -> real, a: seq<Reading>, i: nat, j: nat, k: nat): real
    requires k < j < i < |a|
  {
    HeightSquare(FrameOf(sqrt, a[i].position, a[j].position, a[k].position), a[i].distance, a[j].distance,
                 a[k].distance)
  }

  /** A point that comes from two anchors and their own readings, in the plane with the third. */
  predicate FromTwo(sqrt: real -> real, r: Reading, s: Reading, other: Reading, q: Vec) {
    FromPair(sqrt, r.position, r.distance, s.position, s.distance, other.position, q)
  }

  /** What a triple of anchors contributes: points on the spheres of these anchors with their own readings, exactly
      if such points exist, or where some two spheres do not meet, points of two of the anchors. */
  lemma {:induction false} TripleExactly(sqrt: real -> real, a: seq<Reading>, i: nat, j: nat, k: nat, q: Vec)
    requires IsSqrt(sqrt) && k < j < i < |a| && Apart(a, i, j, k)
    requires a[i].distance >= 0.0 && a[j].distance >= 0.0 && a[k].distance >= 0.0
    requires q in Triple(sqrt, a, i, j, k)
    ensures if ReadingsMeet(sqrt, a[i], a[j]) && ReadingsMeet(sqrt, a[i], a[k]) && ReadingsMeet(sqrt, a[j], a[k])
            then OnReading(q, a[i]) && OnReading(q, a[j]) && OnReading(q, a[k]) <==> Rise(sqrt, a, i, j, k) >= 0.0
            else FromTwo(sqrt, a[i], a[j], a[k], q) || FromTwo(sqrt, a[i], a[k], a[j], q)
                 || FromTwo(sqrt, a[j], a[k], a[i], q)
  {
    TripleIs(sqrt, a, i, j, k);
    hide Triple, Intersections3d, SpheresIntersect, Dist2, FromPair, NotCollinear, Norm, Minus, HeightSquare, FrameOf,
         IsSqrt, FromTwo, ReadingsMeet, OnReading;
    var r, s, u := a[i], a[j], a[k];
    OnReadings(q, r, s, u);
    MeetAndPair(sqrt, r, s, u, q);
    MeetAndPair(sqrt, r, u, s, q);
    MeetAndPair(sqrt, s, u, r, q);
    EveryPoint(sqrt, a[i].position, a[i].distance, a[j].position, a[j].distance, a[k].position, a[k].distance, q);
  }

  lemma {:induction false} OnReadings(q: Vec, r: Reading, s: Reading, u: Reading)
    ensures OnAllThree(q, r.position, r.distance, s.position, s.distance, u.position, u.distance)
            <==> OnReading(q, r) && OnReading(q, s) && OnReading(q, u)
  {
    hide Dist2;
  }

  lemma {:induction false} MeetAndPair(sqrt: real -> real, r: Reading, s: Reading, u: Reading, q: Vec)
    ensures ReadingsMeet(sqrt, r, s)
            <==> SpheresIntersect(Norm(sqrt, Minus(r.position, s.position)), r.distance, s.distance)
    ensures FromTwo(sqrt, r, s, u, q) <==> FromPair(sqrt, r.position, r.distance, s.position, s.distance, u.position, q)
  {
    hide SpheresIntersect, Norm, Minus, FromPair;
  }

  lemma {:induction false} TripleIs(sqrt: real -> real, a: seq<Reading>, i: nat, j: nat, k: nat)
    requires k < j < i < |a|
    ensures Triple(sqrt, a, i, j, k)
         == Intersections3d(sqrt, a[i].position, a[i].distance, a[j].position, a[j].distance, a[k].position,
                            a[k].distance)
  {
    hide Intersections3d;
  }

  ghost predicate Contributes(sqrt: real -> real, a: seq<Reading>, n: nat, q: Vec)
    requires n <= |a|
  {
    exists i: nat, j: nat, k: nat :: k < j < i < n && q in Triple(sqrt, a, i, j, k)
  }

  /** The three loops visit every triple of anchors, and nothing else. */
  lemma {:induction false} EveryTripleVisited(sqrt: real -> real, a: seq<Reading>, n: nat, q: Vec)
    requires n <= |a|
    ensures q in TriplePoints(sqrt, a, n) <==> Contributes(sqrt, a, n, q)
  {
    hide Triple, MiddlePoints, Triples, Pairs;
    if n > 0 {
      EveryTripleVisited(sqrt, a, n - 1, q);
      MiddleVisited(sqrt, a, n - 1, n - 1, q);
      if q in MiddlePoints(sqrt, a, n - 1, n - 1) {
        var j: nat, k: nat :| k < j < n - 1 && q in Triple(sqrt, a, n - 1, j, k);
        assert k < j < n - 1 < n && q in Triple(sqrt, a, n - 1, j, k);
      }
    }
  }

  /** All points of a position: those of the triples, and the previous position. */
  lemma {:induction false} PointsExactly(sqrt: real -> real, a: seq<Reading>, previous: Option<Vec>, q: Vec)
    ensures q in AllPoints(sqrt, a, previous) <==> Contributes(sqrt, a, |a|, q) || previous == Some(q)
  {
    EveryTripleVisited(sqrt, a, |a|, q);
    hide TriplePoints, Contributes;
  }

  lemma {:induction false} MiddleVisited(sqrt: real -> real, a: seq<Reading>, i: nat, j: nat, q: Vec)
    requires j <= i < |a|
    ensures q in MiddlePoints(sqrt, a, i, j) <==>
              exists m: nat, k: nat :: k < m < j && q in Triple(sqrt, a, i, m, k)
  {
    hide Triple, InnerPoints, Pairs;
    if j > 0 {
      MiddleVisited(sqrt, a, i, j - 1, q);
      InnerVisited(sqrt, a, i, j - 1, j - 1, q);
    }
  }

  lemma {:induction false} InnerVisited(sqrt: real -> real, a: seq<Reading>, i: nat, j: nat, k: nat, q: Vec)
    requires k <= j < i < |a|
    ensures q in InnerPoints(sqrt, a, i, j, k) <==> exists m: nat :: m < k && q in Triple(sqrt, a, i, j, m)
  {
    hide Triple;
    if k > 0 {
      InnerVisited(sqrt, a, i, j, k - 1, q);
    }
  }

  // ---------------------------------------------------------------------------
  // A point at its reading from every anchor.

  /** `t` is as far from every anchor as its reading says. */
  predicate AtReadings(sqrt: real -> real, a: seq<Reading>, t: Vec) {
    forall i :: 0 <= i < |a| ==> Norm(sqrt, Minus(t, a[i].position)) == a[i].distance
  }

  lemma {:induction false} ReadAt(sqrt: real -> real, a: seq<Reading>, t: Vec, i: nat)
    requires IsSqrt(sqrt) && AtReadings(sqrt, a, t) && i < |a|
    ensures OnReading(t, a[i]) && a[i].distance >= 0.0
  {
    NormSquared(sqrt, Minus(t, a[i].position));
    hide Norm, Minus, IsSqrt;
  }

  lemma {:induction false} ReadingsOfOneMeet(sqrt: real -> real, a: seq<Reading>, t: Vec, i: nat, j: nat)
    requires IsSqrt(sqrt) && AtReadings(sqrt, a, t) && i < |a| && j < |a|
    ensures ReadingsMeet(sqrt, a[i], a[j])
  {
    Triangle3(sqrt, a[i].position, a[j].position, t);
    hide Norm, Minus, IsSqrt;
  }

  lemma {:induction false} TripleOfOne(sqrt: real -> real, a: seq<Reading>, t: Vec, i: nat, j: nat, k: nat)
    requires IsSqrt(sqrt) && AtReadings(sqrt, a, t) && k < j < i < |a|
    ensures Triple(sqrt, a, i, j, k)
         == ThreeSpheres(sqrt, a[i].position, a[i].distance, a[j].position, a[j].distance, a[k].position,
                         a[k].distance)
  {
    ReadingsOfOneMeet(sqrt, a, t, i, j);
    ReadingsOfOneMeet(sqrt, a, t, i, k);
    ReadingsOfOneMeet(sqrt, a, t, j, k);
    hide IsSqrt, AtReadings, SpheresIntersect, Norm, Minus, ThreeSpheres, TwoSpheres;
  }

  /** A point at its own reading from every anchor is among the points of every triple not on a line. */
  lemma {:induction false} CommonPointFound(sqrt: real -> real, a: seq<Reading>, t: Vec, i: nat, j: nat, k: nat)
    requires IsSqrt(sqrt) && AtReadings(sqrt, a, t)
    requires k < j < i < |a| && Apart(a, i, j, k)
    ensures t in Triple(sqrt, a, i, j, k) && t in TriplePoints(sqrt, a, |a|)
  {
    ReadAt(sqrt, a, t, i);
    ReadAt(sqrt, a, t, j);
    ReadAt(sqrt, a, t, k);
    TripleOfOne(sqrt, a, t, i, j, k);
    hide IsSqrt, AtReadings, ThreeSpheres, NotCollinear, Dist2, Triple, TriplePoints;
    NoOtherPointOnAllThree(sqrt, a[i].position, a[i].distance, a[j].position, a[j].distance, a[k].position,
                           a[k].distance, t);
    EveryTripleVisited(sqrt, a, |a|, t);
  }

  // ---------------------------------------------------------------------------
  // Anchors in one plane.

  /** The plane of the points whose part along `e` is `c`. */
  predicate Flat(a: seq<Reading>, e: Vec, c: real) {
    Dot(e, e) == 1.0 && forall i :: 0 <= i < |a| ==> Dot(e, a[i].position) == c
  }

  ghost predicate NoThreeOnALine(a: seq<Reading>) {
    forall i: nat, j: nat, k: nat :: k < j < i < |a| ==> Apart(a, i, j, k)
  }

  /** The nearest point of the plane, and the point as far on its other side. */
  function Foot(t: Vec, e: Vec, c: real): Vec {
    Minus(t, Scale(e, Dot(e, t) - c))
  }

  function Mirror(t: Vec, e: Vec, c: real): Vec {
    Minus(t, Scale(e, 2.0 * (Dot(e, t) - c)))
  }

  /** A unit vector across the plane of the frame is its third axis, one way or the other. */
  lemma {:induction false} NormalIsAxis(f: Frame, u: Vec, w: Vec, e: Vec)
    returns (s: real)
    requires Orthonormal(f) && f.ez == Cross(f.ex, f.ey)
    requires f.d > 0.0 && u == Scale(f.ex, f.d) && f.j > 0.0 && w == Plus(Scale(f.ex, f.i), Scale(f.ey, f.j))
    requires Dot(u, e) == 0.0 && Dot(w, e) == 0.0 && Dot(e, e) == 1.0
    ensures e == Scale(f.ez, s) && s * s == 1.0
  {
    var x, y, z := Decompose(f, e);
    hide *;
    CombineParts(f, x, y, z);
    CombineLength(f, x, y, z);
    DotSymmetric(e, f.ex);
    DotSymmetric(e, f.ey);
    DotScale(f.ex, f.d, e);
    DotScale(f.ex, f.i, e);
    DotScale(f.ey, f.j, e);
    DotPlus(Scale(f.ex, f.i), Scale(f.ey, f.j), e);
    NoFactor(f.d, x);
    assert f.i * x == 0.0;
    NoFactor(f.j, y);
    s := z;
    OnlyThird(f, z);
  }

  lemma {:induction false} NoFactor(d: real, x: real)
    requires d > 0.0 && d * x == 0.0
    ensures x == 0.0
  {
  }

  lemma {:induction false} OnlyThird(f: Frame, z: real)
    ensures Combine(f, 0.0, 0.0, z) == Scale(f.ez, z)
  {
    CombineIs(f, 0.0, 0.0, z);
    hide *;
    Nothing(f.ex.x, f.ey.x);
    Nothing(f.ex.y, f.ey.y);
    Nothing(f.ex.z, f.ey.z);
    ScaleParts(f.ez, z);
  }

  lemma {:induction false} Nothing(x: real, y: real)
    ensures 0.0 * x == 0.0 && 0.0 * y == 0.0
  {
  }

  /** The part of a point across the plane, told from a point of the plane. */
  lemma {:induction false} HeightOver(f: Frame, q: Vec, p: Vec, e: Vec, c: real, s: real, x: real, y: real, z: real)
    requires Orthonormal(f) && e == Scale(f.ez, s) && Dot(e, p) == c && Minus(q, p) == Combine(f, x, y, z)
    ensures Dot(e, q) - c == s * z
  {
    hide *;
    CombineParts(f, x, y, z);
    DotSymmetric(e, q);
    DotSymmetric(e, p);
    DotMinus(q, p, e);
    DotSymmetric(Minus(q, p), e);
    DotScale(f.ez, s, Minus(q, p));
    DotSymmetric(f.ez, Minus(q, p));
  }

  lemma {:induction false} MirrorShape(f: Frame, q: Vec, p: Vec, e: Vec, c: real, s: real, x: real, y: real, z: real)
    requires Orthonormal(f) && e == Scale(f.ez, s) && s * s == 1.0 && Dot(e, p) == c
    requires Minus(q, p) == Combine(f, x, y, z)
    ensures Minus(Mirror(q, e, c), p) == Combine(f, x, y, -z)
  {
    hide *;
    HeightOver(f, q, p, e, c, s, x, y, z);
    ScaleParts(f.ez, s);
    var k := 2.0 * (s * z);
    TurnedOver(s, z, k, e.x, f.ez.x);
    TurnedOver(s, z, k, e.y, f.ez.y);
    TurnedOver(s, z, k, e.z, f.ez.z);
    CombineIs(f, x, y, z);
    CombineIs(f, x, y, -z);
    MirrorIs(q, e, c, k);
    DifferenceIs(q, p);
    DifferenceIs(Mirror(q, e, c), p);
  }

  lemma {:induction false} TurnedOver(s: real, z: real, k: real, e: real, n: real)
    requires k == 2.0 * (s * z) && e == s * n && s * s == 1.0
    ensures k * e == z * n - -z * n
  {
    assert 2.0 * (s * z) * (s * n) == 2.0 * ((s * s) * (z * n));
  }

  lemma {:induction false} CombineIs(f: Frame, x: real, y: real, z: real)
    ensures var v := Combine(f, x, y, z);
            && v.x == x * f.ex.x + y * f.ey.x + z * f.ez.x
            && v.y == x * f.ex.y + y * f.ey.y + z * f.ez.y
            && v.z == x * f.ex.z + y * f.ey.z + z * f.ez.z
  {
  }

  lemma {:induction false} MirrorIs(q: Vec, e: Vec, c: real, k: real)
    requires k == 2.0 * (Dot(e, q) - c)
    ensures var m := Mirror(q, e, c); m.x == q.x - k * e.x && m.y == q.y - k * e.y && m.z == q.z - k * e.z
  {
    hide Dot;
  }

  lemma {:induction false} DifferenceIs(q: Vec, p: Vec)
    ensures var d := Minus(q, p); d.x == q.x - p.x && d.y == q.y - p.y && d.z == q.z - p.z
  {
  }

  /** The two points of three spheres are mirror images in the plane of the centres. */
  lemma {:induction false} SpherePointsMirrored(
      sqrt: real -> real, p1: Vec, r1: real, p2: Vec, r2: real, p3: Vec, r3: real, e: Vec, c: real)
    requires IsSqrt(sqrt) && NotCollinear(p1, p2, p3)
    requires Dot(e, e) == 1.0 && Dot(e, p1) == c && Dot(e, p2) == c && Dot(e, p3) == c
    ensures var points := ThreeSpheres(sqrt, p1, r1, p2, r2, p3, r3);
            points[1] == Mirror(points[0], e, c) && points[0] == Mirror(points[1], e, c)
  {
    var f := FrameOf(sqrt, p1, p2, p3);
    var points := ThreeSpheres(sqrt, p1, r1, p2, r2, p3, r3);
    FrameFits(sqrt, p1, p2, p3);
    FrameCross(sqrt, p1, p2, p3);
    hide *;
    var x, y, z := SpherePoints(sqrt, p1, r1, p2, r2, p3, r3);
    Across(p1, p2, e);
    Across(p1, p3, e);
    var s := NormalIsAxis(f, Minus(p2, p1), Minus(p3, p1), e);
    MirrorShape(f, points[0], p1, e, c, s, x, y, z);
    MirrorShape(f, points[1], p1, e, c, s, x, y, -z);
    SameFrom(points[1], Mirror(points[0], e, c), p1);
    SameFrom(points[0], Mirror(points[1], e, c), p1);
  }

  lemma {:induction false} Across(p: Vec, q: Vec, e: Vec)
    requires Dot(e, p) == Dot(e, q)
    ensures Dot(Minus(q, p), e) == 0.0
  {
    hide *;
    DotMinus(q, p, e);
    DotSymmetric(e, p);
    DotSymmetric(e, q);
  }

  // ---------------------------------------------------------------------------
  // The position.

  /** Points in pairs, each pair the two given points in one order or the other. */
  predicate Paired(points: seq<Vec>, t: Vec, m: Vec) {
    points == []
    || (|points| >= 2 && Paired(points[..|points| - 2], t, m)
        && var p, q := points[|points| - 2], points[|points| - 1];
           (p == t && q == m) || (p == m && q == t))
  }

  lemma {:induction false} PairedJoin(x: seq<Vec>, y: seq<Vec>, t: Vec, m: Vec)
    requires Paired(x, t, m) && Paired(y, t, m)
    ensures Paired(x + y, t, m)
    decreases |y|
  {
    if y == [] {
      assert x + y == x;
    } else {
      PairedJoin(x, y[..|y| - 2], t, m);
      assert (x + y)[..|x + y| - 2] == x + y[..|y| - 2];
    }
  }

  lemma {:induction false} OnePair(sqrt: real -> real, a: seq<Reading>, t: Vec, e: Vec, c: real, i: nat, j: nat, k: nat)
    requires IsSqrt(sqrt) && AtReadings(sqrt, a, t) && Flat(a, e, c) && NoThreeOnALine(a)
    requires k < j < i < |a|
    ensures Paired(Triple(sqrt, a, i, j, k), t, Mirror(t, e, c))
  {
    assert Apart(a, i, j, k);
    hide IsSqrt, AtReadings, NoThreeOnALine, ThreeSpheres, NotCollinear, Dot, Mirror, Triple, TriplePoints;
    CommonPointFound(sqrt, a, t, i, j, k);
    TripleOfOne(sqrt, a, t, i, j, k);
    SpherePointsMirrored(sqrt, a[i].position, a[i].distance, a[j].position, a[j].distance, a[k].position,
                         a[k].distance, e, c);
    var points := Triple(sqrt, a, i, j, k);
    assert points[..0] == [];
    assert points == [points[0], points[1]];
    assert Paired(points[..0], t, Mirror(t, e, c));
  }

  /** Every triple contributes such a pair. */
  ghost predicate AllPaired(sqrt: real -> real, a: seq<Reading>, t: Vec, m: Vec) {
    forall i: nat, j: nat, k: nat :: k < j < i < |a| ==> Paired(Triple(sqrt, a, i, j, k), t, m)
  }

  lemma {:induction false} InnerPaired(sqrt: real -> real, a: seq<Reading>, t: Vec, m: Vec, i: nat, j: nat, k: nat)
    requires AllPaired(sqrt, a, t, m) && k <= j < i < |a|
    ensures Paired(InnerPoints(sqrt, a, i, j, k), t, m)
  {
    hide Triple;
    if k > 0 {
      InnerPaired(sqrt, a, t, m, i, j, k - 1);
      PairedJoin(InnerPoints(sqrt, a, i, j, k - 1), Triple(sqrt, a, i, j, k - 1), t, m);
    }
  }

  lemma {:induction false} MiddlePaired(sqrt: real -> real, a: seq<Reading>, t: Vec, m: Vec, i: nat, j: nat)
    requires AllPaired(sqrt, a, t, m) && j <= i < |a|
    ensures Paired(MiddlePoints(sqrt, a, i, j), t, m)
  {
    hide Triple, InnerPoints, AllPaired, Pairs;
    if j > 0 {
      MiddlePaired(sqrt, a, t, m, i, j - 1);
      InnerPaired(sqrt, a, t, m, i, j - 1, j - 1);
      PairedJoin(MiddlePoints(sqrt, a, i, j - 1), InnerPoints(sqrt, a, i, j - 1, j - 1), t, m);
    } else {
      assert Paired([], t, m);
    }
  }

  lemma {:induction false} TriplesPaired(sqrt: real -> real, a: seq<Reading>, t: Vec, m: Vec, n: nat)
    requires AllPaired(sqrt, a, t, m) && n <= |a|
    ensures Paired(TriplePoints(sqrt, a, n), t, m)
  {
    hide Triple, MiddlePoints, AllPaired, Pairs, Triples;
    if n > 0 {
      TriplesPaired(sqrt, a, t, m, n - 1);
      MiddlePaired(sqrt, a, t, m, n - 1, n - 1);
      PairedJoin(TriplePoints(sqrt, a, n - 1), MiddlePoints(sqrt, a, n - 1, n - 1), t, m);
    } else {
      assert Paired([], t, m);
    }
  }

  /** Half of the points are one of the two, half the other. */
  lemma {:induction false} PairedSums(sqrt: real -> real, points: seq<Vec>, t: Vec, m: Vec, p: Vec)
    returns (n: nat)
    requires Paired(points, t, m)
    ensures |points| == 2 * n
    ensures DistanceSum(sqrt, p, points) == n as real * (Norm(sqrt, Minus(p, t)) + Norm(sqrt, Minus(p, m)))
    ensures Total(points) == Scale(Plus(t, m), n as real)
    ensures forall q :: q in points ==> q == t || q == m
  {
    hide *;
    if points == [] {
      n := 0;
      StepMore(0.0, Norm(sqrt, Minus(p, t)) + Norm(sqrt, Minus(p, m)));
      NothingScaled(Plus(t, m));
      NothingSummed(sqrt, p);
      NothingTotal();
    } else {
      PairedLast(points, t, m);
      var last := |points| - 2;
      var k := PairedSums(sqrt, points[..last], t, m, p);
      n := k + 1;
      LastTwo(sqrt, points, p);
      StepMore(k as real, Norm(sqrt, Minus(p, t)) + Norm(sqrt, Minus(p, m)));
      OneMorePair(Plus(t, m), t, m, k as real);
      assert points == points[..last] + [points[last], points[last + 1]];
    }
  }

  lemma {:induction false} PairedLast(points: seq<Vec>, t: Vec, m: Vec)
    requires Paired(points, t, m) && points != []
    ensures |points| >= 2 && Paired(points[..|points| - 2], t, m)
    ensures var p, q := points[|points| - 2], points[|points| - 1]; (p == t && q == m) || (p == m && q == t)
  {
  }

  lemma {:induction false} LastTwo(sqrt: real -> real, points: seq<Vec>, p: Vec)
    requires |points| >= 2
    ensures var last := |points| - 2;
            && DistanceSum(sqrt, p, points) == DistanceSum(sqrt, p, points[..last]) + Norm(sqrt, Minus(p, points[last]))
                                               + Norm(sqrt, Minus(p, points[last + 1]))
            && Total(points) == Plus(Plus(Total(points[..last]), points[last]), points[last + 1])
  {
    hide Norm, Minus, Plus;
    assert points[..|points| - 1][..|points| - 2] == points[..|points| - 2];
  }

  lemma {:induction false} NothingTotal()
    ensures Total([]) == Vec(0.0, 0.0, 0.0)
  {
  }

  lemma {:induction false} StepMore(k: real, step: real)
    ensures (k + 1.0) * step == k * step + step && 0.0 * step == 0.0
  {
  }

  lemma {:induction false} NothingScaled(v: Vec)
    ensures Scale(v, 0.0) == Vec(0.0, 0.0, 0.0)
  {
  }

  lemma {:induction false} OneMorePair(sum: Vec, t: Vec, m: Vec, k: real)
    requires sum == Plus(t, m)
    ensures Plus(Plus(Scale(sum, k), t), m) == Scale(sum, k + 1.0)
    ensures Plus(Plus(Scale(sum, k), m), t) == Scale(sum, k + 1.0)
  {
    hide Scale;
    ScaleOneMore(sum, k);
  }

  lemma {:induction false} NoDistance(sqrt: real -> real, p: Vec)
    requires IsSqrt(sqrt)
    ensures Norm(sqrt, Minus(p, p)) == 0.0
  {
    var root := sqrt(0.0);
    assert root * root == 0.0;
    ZeroSquare(root);
    assert Dot(Minus(p, p), Minus(p, p)) == 0.0;
  }

  lemma {:induction false} SameDistance(sqrt: real -> real, p: Vec, q: Vec)
    ensures Norm(sqrt, Minus(p, q)) == Norm(sqrt, Minus(q, p))
  {
    hide Dot, Minus;
    PlanarPoints.Turned(p, q);
  }

  lemma {:induction false} AllKept(points: seq<Vec>, sums: seq<real>, thres: real)
    requires |points| == |sums| && forall d :: d in sums ==> d <= thres
    ensures Kept(points, sums, thres) == points
  {
    if points != [] {
      assert sums[0] in sums && forall d :: d in sums[1..] ==> d in sums;
      AllKept(points[1..], sums[1..], thres);
      assert points == [points[0]] + points[1..];
    }
  }

  /** Points in such pairs have equal sums of distances, and so all of them count. */
  lemma {:induction false} PairedAllCount(sqrt: real -> real, points: seq<Vec>, t: Vec, m: Vec, n: nat)
    requires IsSqrt(sqrt) && Paired(points, t, m) && 1 <= n <= |points|
    ensures Selected(sqrt, points, n) == points
  {
    hide *;
    var sums := DistanceSums(sqrt, points);
    var half := PairedSums(sqrt, points, t, m, t);
    var other := PairedSums(sqrt, points, t, m, m);
    NoDistance(sqrt, t);
    NoDistance(sqrt, m);
    SameDistance(sqrt, t, m);
    var sum := half as real * Norm(sqrt, Minus(t, m));
    forall d | d in sums ensures d == sum {
      var i :| 0 <= i < |points| && sums[i] == d;
      assert points[i] in points;
    }
    SumsAreNotNegative(sqrt, points);
    ThresExactly(sums, n);
    SelectedIs(sqrt, points, n);
    AllKept(points, sums, Thres(sums, n));
  }

  /** With all anchors in one plane, no three of them on a line, and exact readings of one point, the position is the
      foot of that point on the plane of the anchors: its height over the plane is lost. */
  lemma {:induction false} FlatAnchorsLoseHeight(sqrt: real -> real, a: seq<Reading>, t: Vec, e: Vec, c: real)
    requires IsSqrt(sqrt) && |a| >= 4 && AtReadings(sqrt, a, t) && Flat(a, e, c) && NoThreeOnALine(a)
    ensures var counted := Counted(sqrt, a, None);
            counted != []
            && Rounded(Scale(Total(counted), 1.0 / |counted| as real)) == Rounded(Foot(t, e, c))
  {
    hide *;
    var m, points := Mirror(t, e, c), TriplePoints(sqrt, a, |a|);
    TriplesArePairs(sqrt, a, t, e, c);
    EnoughPoints(sqrt, a);
    AllPointsAre(sqrt, a, None);
    CountedIs(sqrt, a, None);
    TriplesPaired(sqrt, a, t, m, |a|);
    PairedAllCount(sqrt, points, t, m, |a|);
    var n := PairedSums(sqrt, points, t, m, t);
    HalfOfBoth(t, e, c, Total(points), n as real, 1.0 / |points| as real);
  }

  lemma {:induction false} TriplesArePairs(sqrt: real -> real, a: seq<Reading>, t: Vec, e: Vec, c: real)
    requires IsSqrt(sqrt) && AtReadings(sqrt, a, t) && Flat(a, e, c) && NoThreeOnALine(a)
    ensures AllPaired(sqrt, a, t, Mirror(t, e, c))
  {
    hide IsSqrt, AtReadings, Flat, NoThreeOnALine, Triple, Paired, Mirror;
    forall i: nat, j: nat, k: nat | k < j < i < |a|
      ensures Paired(Triple(sqrt, a, i, j, k), t, Mirror(t, e, c))
    {
      OnePair(sqrt, a, t, e, c, i, j, k);
    }
  }

  lemma {:induction false} HalfOfBoth(t: Vec, e: Vec, c: real, total: Vec, n: real, k: real)
    requires total == Scale(Plus(t, Mirror(t, e, c)), n) && 2.0 * n * k == 1.0
    ensures Scale(total, k) == Foot(t, e, c)
  {
    hide *;
    var m, h := Mirror(t, e, c), Dot(e, t) - c;
    MirrorIs(t, e, c, 2.0 * h);
    FootIs(t, e, c, h);
    PlusIs(t, m);
    ScaleParts(Plus(t, m), n);
    ScaleParts(total, k);
    HalfWayOn(t.x, e.x, h, m.x, n, k);
    HalfWayOn(t.y, e.y, h, m.y, n, k);
    HalfWayOn(t.z, e.z, h, m.z, n, k);
  }

  lemma {:induction false} FootIs(t: Vec, e: Vec, c: real, h: real)
    requires h == Dot(e, t) - c
    ensures var f := Foot(t, e, c); f.x == t.x - h * e.x && f.y == t.y - h * e.y && f.z == t.z - h * e.z
  {
    hide Dot;
  }

  lemma {:induction false} PlusIs(p: Vec, q: Vec)
    ensures var v := Plus(p, q); v.x == p.x + q.x && v.y == p.y + q.y && v.z == p.z + q.z
  {
  }

  lemma {:induction false} HalfWayOn(t: real, e: real, h: real, m: real, n: real, k: real)
    requires m == t - 2.0 * h * e && 2.0 * n * k == 1.0
    ensures k * (n * (t + m)) == t - h * e
  {
    assert t + m == 2.0 * (t - h * e);
    assert k * (n * (2.0 * (t - h * e))) == (2.0 * n * k) * (t - h * e);
  }
}
