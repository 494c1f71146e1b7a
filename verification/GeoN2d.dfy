/** The position of a tag on the plane from three or more anchors:
    src/main/java/co/blastlab/indoornavi/socket/measures/algorithms/GeoN2d.java and getIntersections in
    src/main/java/co/blastlab/indoornavi/socket/measures/IntersectionsCalculator.java. */
module GeoN2d {
  import opened Wrappers
  import opened Geometry
  import opened Threshold

  datatype Point = Point(x: int, y: int)

  datatype Anchor = Anchor(x: int, y: int, z: int)

  const TAG_Z := 100

  /** A cast to an integer, and the division of integers: both towards zero. */
  function Truncated(x: real): int {
    if x >= 0.0 then x.Floor else -((-x).Floor)
  }

  function Divided(a: int, b: int): int
    requires b > 0
  {
    if a >= 0 then a / b else -((-a) / b)
  }

  /** Towards zero: as far as the whole units reach, on the same side. */
  lemma {:induction false} TruncatesTowardsZero(x: real)
    ensures x >= 0.0 ==> 0 <= Truncated(x) && Truncated(x) as real <= x < Truncated(x) as real + 1.0
    ensures x <= 0.0 ==> Truncated(x) <= 0 && Truncated(x) as real - 1.0 < x <= Truncated(x) as real
  {
  }

  lemma {:induction false} DividesTowardsZero(a: int, b: int)
    requires b > 0
    ensures a >= 0 ==> 0 <= Divided(a, b) && b * Divided(a, b) <= a < b * Divided(a, b) + b
    ensures a <= 0 ==> Divided(a, b) <= 0 && b * Divided(a, b) - b < a <= b * Divided(a, b)
  {
    if a >= 0 {
      QuotientOf(a, b, a / b);
    } else {
      QuotientOf(-a, b, -a / b);
    }
  }

  lemma {:induction false} QuotientOf(a: nat, b: nat, q: int)
    requires b > 0 && q == a / b
    ensures 0 <= q && b * q <= a < b * q + b && b * -q == -(b * q)
  {
  }

  function TruncatedPoint(x: real, y: real): Point {
    Point(Truncated(x), Truncated(y))
  }

  function PlaneIntersections(sqrt: real -> real, a: Anchor, r1: real, b: Anchor, r2: real): (points: seq<Point>)
    ensures 1 <= |points| <= 2
  {
    var va, vb := Centre(a), Centre(b);
    var l2 := Across2(va, vb);
    var rsum, rdiff := r1 + r2, r1 - r2;
    var lenI := Over(1.0, sqrt(l2));
    if l2 <= rdiff * rdiff then [TruncatedPoint(Single(va, vb, lenI, -rsum).x, Single(va, vb, lenI, -rsum).y)]
    else if rsum * rsum < l2 then [TruncatedPoint(Single(va, vb, lenI, rdiff).x, Single(va, vb, lenI, rdiff).y)]
    else PlaneCrossing(va, vb, r1 * r1 - r2 * r2, l2, sqrt(Heron(l2, r1, r2)) / 4.0)
  }

  function PlaneCrossing(a: Vec, b: Vec, d: real, l2: real, k: real): (points: seq<Point>)
    ensures |points| == 2
  {
    var x, y := HalfTruncated(MiddleTwice(a.x, b.x, d, l2)), HalfTruncated(MiddleTwice(a.y, b.y, d, l2));
    var u, v := Side(b.y - a.y, k, l2), Side(b.x - a.x, k, l2);
    [TruncatedPoint(x + u, y - v), TruncatedPoint(x - u, y + v)]
  }

  function Centre(a: Anchor): Vec {
    Vec(a.x as real, a.y as real, 0.0)
  }

  /** The cast binds more tightly than the division, which is therefore one of integers. */
  function HalfTruncated(x: real): real {
    Divided(Truncated(x), 2) as real
  }

  /** Less than two units away in each coordinate. */
  predicate CloseTo(p: Point, v: Vec) {
    v.x - 2.0 < p.x as real < v.x + 2.0 && v.y - 2.0 < p.y as real < v.y + 2.0
  }

  /** The integer points are those of the exact formula up to less than two units in each coordinate, although
      the meeting circles' middle is truncated twice before the last cast. */
  lemma {:induction false} PlaneIsClose(sqrt: real -> real, a: Anchor, r1: real, b: Anchor, r2: real)
    ensures var points, exact := PlaneIntersections(sqrt, a, r1, b, r2),
                                 Intersections(sqrt, Centre(a), r1, Centre(b), r2);
            |points| == |exact| && forall i :: 0 <= i < |points| ==> CloseTo(points[i], exact[i])
  {
    hide Across2, Heron, Single, Over, TruncatedPoint, CloseTo, Centre, Crossing, PlaneCrossing;
    var va, vb := Centre(a), Centre(b);
    var l2 := Across2(va, vb);
    var lenI := Over(1.0, sqrt(l2));
    TruncatedClose(Single(va, vb, lenI, -(r1 + r2)));
    TruncatedClose(Single(va, vb, lenI, r1 - r2));
    CrossingClose(va, vb, r1 * r1 - r2 * r2, l2, sqrt(Heron(l2, r1, r2)) / 4.0);
  }

  lemma {:induction false} CrossingClose(a: Vec, b: Vec, d: real, l2: real, k: real)
    ensures var points, exact := PlaneCrossing(a, b, d, l2, k), Crossing(a, b, d, l2, k);
            |points| == |exact| && forall i :: 0 <= i < |points| ==> CloseTo(points[i], exact[i])
  {
    hide MiddleTwice, Side, HalfTruncated, TruncatedPoint, CloseTo;
    var mx, my := MiddleTwice(a.x, b.x, d, l2), MiddleTwice(a.y, b.y, d, l2);
    var u, v := Side(b.y - a.y, k, l2), Side(b.x - a.x, k, l2);
    TwiceTruncatedClose(mx, my, u, -v);
    TwiceTruncatedClose(mx, my, -u, v);
  }

  lemma {:induction false} TruncatedClose(v: Vec)
    ensures CloseTo(TruncatedPoint(v.x, v.y), v)
  {
  }

  lemma {:induction false} TwiceTruncatedClose(mx: real, my: real, u: real, v: real)
    ensures CloseTo(TruncatedPoint(HalfTruncated(mx) + u, HalfTruncated(my) + v), Vec(mx / 2.0 + u, my / 2.0 + v, 0.0))
  {
    HalfClose(mx);
    HalfClose(my);
    hide HalfTruncated;
  }

  lemma {:induction false} HalfClose(x: real)
    ensures x / 2.0 - 1.0 < HalfTruncated(x) < x / 2.0 + 1.0
  {
    var n := Truncated(x);
    assert x - 1.0 < n as real < x + 1.0;
    hide Truncated;
    var h := Divided(n, 2);
    assert 2 * h - 1 <= n <= 2 * h + 1;
  }

  /** The distance on the plane, from a distance in space. */
  function Pitagoras(sqrt: real -> real, a: Anchor, distance: real): real {
    var square := distance * distance - (a.z - TAG_Z) as real * (a.z - TAG_Z) as real;
    if square < 0.0 then 0.0 else sqrt(square)
  }

  /** The anchors with a known position, and the distance of the tag from each connected anchor. */
  datatype World = World(sqrt: real -> real, positions: map<int, Anchor>, distance: int -> real)

  predicate ValidPair(w: World, pair: (int, int)) {
    pair.0 in w.positions && pair.1 in w.positions
  }

  function PairPoints(w: World, pair: (int, int)): (points: seq<Point>)
    ensures if ValidPair(w, pair) then 1 <= |points| <= 2 else points == []
  {
    if !ValidPair(w, pair) then []
    else
      var a, b := w.positions[pair.0], w.positions[pair.1];
      PlaneIntersections(w.sqrt, a, Pitagoras(w.sqrt, a, w.distance(pair.0)), b,
                         Pitagoras(w.sqrt, b, w.distance(pair.1)))
  }

  function Valid(w: World, pairs: seq<(int, int)>): nat {
    if pairs == [] then 0 else (if ValidPair(w, pairs[0]) then 1 else 0) + Valid(w, pairs[1..])
  }

  /** Every valid pair yields one or two points. */
  function Points(w: World, pairs: seq<(int, int)>): (points: seq<Point>)
    ensures Valid(w, pairs) <= |points| <= 2 * Valid(w, pairs)
  {
    if pairs == [] then [] else PairPoints(w, pairs[0]) + Points(w, pairs[1..])
  }

  /** The pairs of an anchor with a later one. */
  function PairsWith(anchors: seq<int>, i: nat, j: nat): seq<(int, int)>
    requires i < j <= |anchors|
  {
    if j == i + 1 then [] else PairsWith(anchors, i, j - 1) + [(anchors[i], anchors[j - 1])]
  }

  function PairsBefore(anchors: seq<int>, i: nat): seq<(int, int)>
    requires i <= |anchors|
  {
    if i == 0 then [] else PairsBefore(anchors, i - 1) + PairsWith(anchors, i - 1, |anchors|)
  }

  // ---------------------------------------------------------------------------
  // The position from the points.

  function PlaneDistance(sqrt: real -> real, p: Point, q: Point): real {
    var dx, dy := (p.x - q.x) as real, (p.y - q.y) as real;
    sqrt(dx * dx + dy * dy)
  }

  /** The theorem of Pythagoras, on the plane. */
  lemma {:induction false} PlaneDistanceSquared(sqrt: real -> real, p: Point, q: Point)
    requires IsSqrt(sqrt)
    ensures var d, dx, dy := PlaneDistance(sqrt, p, q), p.x as real - q.x as real, p.y as real - q.y as real;
            d >= 0.0 && d * d == dx * dx + dy * dy
  {
    var dx, dy := (p.x - q.x) as real, (p.y - q.y) as real;
    SquareIsNotNegative(dx);
    SquareIsNotNegative(dy);
    assert dx * dx + dy * dy >= 0.0;
    assert dx == p.x as real - q.x as real && dy == p.y as real - q.y as real;
  }

  function PlaneSum(sqrt: real -> real, p: Point, points: seq<Point>): real {
    if points == [] then 0.0
    else PlaneSum(sqrt, p, points[..|points| - 1]) + PlaneDistance(sqrt, p, points[|points| - 1])
  }

  lemma {:induction false} SumOfParts(sqrt: real -> real, p: Point, a: seq<Point>, b: seq<Point>)
    ensures PlaneSum(sqrt, p, []) == 0.0
    ensures PlaneSum(sqrt, p, a + b) == PlaneSum(sqrt, p, a) + PlaneSum(sqrt, p, b)
    decreases |b|
  {
    hide PlaneDistance;
    if b == [] {
      assert a + b == a;
    } else {
      assert (a + b)[..|a + b| - 1] == a + b[..|b| - 1];
      SumOfParts(sqrt, p, a, b[..|b| - 1]);
    }
  }

  /** The sums of the distances from each of `points` to all points. */
  function PlaneSums(sqrt: real -> real, points: seq<Point>, all: seq<Point>): (sums: seq<real>)
    ensures |sums| == |points|
    ensures forall i :: 0 <= i < |points| ==> sums[i] == PlaneSum(sqrt, points[i], all)
  {
    seq(|points|, i requires 0 <= i < |points| => PlaneSum(sqrt, points[i], all))
  }

  /** The number of points up to the threshold, and the sums of their coordinates. */
  datatype Tally = Tally(count: nat, x: int, y: int)

  function Tallied(points: seq<Point>, sums: seq<real>, thres: real): Tally
    requires |points| == |sums|
  {
    if points == [] then Tally(0, 0, 0)
    else
      var last := |points| - 1;
      var t := Tallied(points[..last], sums[..last], thres);
      if sums[last] <= thres then Tally(t.count + 1, t.x + points[last].x, t.y + points[last].y) else t
  }

  function TallyOf(sqrt: real -> real, points: seq<Point>, count: nat): Tally
    requires 1 <= count <= |points|
  {
    var sums := PlaneSums(sqrt, points, points);
    Tallied(points, sums, Thres(sums, count))
  }

  function Average(t: Tally): Point {
    if t.count == 0 then Point(0, 0) else Point(Divided(t.x, t.count), Divided(t.y, t.count))
  }

  /** The position by the pairs in one order. */
  function FixOf(w: World, pairs: seq<(int, int)>): Option<Point> {
    if Valid(w, pairs) < 3 then None else Some(Average(TallyOf(w.sqrt, Points(w, pairs), Valid(w, pairs))))
  }

  // ---------------------------------------------------------------------------
  // The order of the pairs does not matter.

  function Without<T>(s: seq<T>, i: nat): seq<T>
    requires i < |s|
  {
    s[..i] + s[i + 1..]
  }

  lemma {:induction false} WithoutBag<T>(s: seq<T>, i: nat)
    requires i < |s|
    ensures multiset(s) == multiset{s[i]} + multiset(Without(s, i))
  {
    assert s == s[..i] + [s[i]] + s[i + 1..];
  }

  lemma {:induction false} Find<T>(s: seq<T>, x: T)
    returns (i: nat)
    requires x in multiset(s)
    ensures i < |s| && s[i] == x && multiset(s) == multiset{x} + multiset(Without(s, i))
  {
    i :| 0 <= i < |s| && s[i] == x;
    WithoutBag(s, i);
  }

  /** The last element of one list, found in a permutation of it. */
  lemma {:induction false} FindLast<T>(a: seq<T>, b: seq<T>)
    returns (i: nat)
    requires a != [] && multiset(a) == multiset(b)
    ensures i < |b| && b[i] == a[|a| - 1]
    ensures multiset(a[..|a| - 1]) == multiset(Without(b, i))
  {
    var last := |a| - 1;
    assert a == a[..last] + [a[last]];
    assert a[last] in multiset(a);
    i := Find(b, a[last]);
    assert multiset(a) - multiset{a[last]} == multiset(a[..last]);
    assert multiset(b) - multiset{a[last]} == multiset(Without(b, i));
  }

  lemma {:induction false} SameLength<T>(a: seq<T>, b: seq<T>)
    requires multiset(a) == multiset(b)
    ensures |a| == |b|
  {
    assert |multiset(a)| == |multiset(b)|;
  }

  lemma {:induction false} SumMoved(sqrt: real -> real, p: Point, points: seq<Point>, i: nat)
    requires i < |points|
    ensures PlaneSum(sqrt, p, points) == PlaneSum(sqrt, p, Without(points, i)) + PlaneDistance(sqrt, p, points[i])
  {
    hide PlaneDistance;
    var last := |points| - 1;
    if i == last {
      assert Without(points, i) == points[..last];
    } else {
      var without := Without(points, i);
      SumMoved(sqrt, p, points[..last], i);
      assert without[..|without| - 1] == Without(points[..last], i);
    }
  }

  lemma {:induction false} SumAnyOrder(sqrt: real -> real, p: Point, a: seq<Point>, b: seq<Point>)
    requires multiset(a) == multiset(b)
    ensures PlaneSum(sqrt, p, a) == PlaneSum(sqrt, p, b)
    decreases |a|
  {
    SameLength(a, b);
    if a != [] {
      var i := FindLast(a, b);
      SumMoved(sqrt, p, b, i);
      SumAnyOrder(sqrt, p, a[..|a| - 1], Without(b, i));
    }
  }

  lemma {:induction false} InsertTwice(x: real, y: real, s: seq<real>)
    ensures Insert(x, Insert(y, s)) == Insert(y, Insert(x, s))
  {
    if s != [] && !(x <= s[0]) && !(y <= s[0]) {
      InsertTwice(x, y, s[1..]);
    }
  }

  lemma {:induction false} SortedMoved(s: seq<real>, i: nat)
    requires i < |s|
    ensures Sorted(s) == Insert(s[i], Sorted(Without(s, i)))
  {
    hide Insert;
    var without := Without(s, i);
    if i == 0 {
      assert without == s[1..];
    } else {
      SortedMoved(s[1..], i - 1);
      assert without[0] == s[0] && without[1..] == Without(s[1..], i - 1);
      InsertTwice(s[0], s[i], Sorted(without[1..]));
    }
  }

  lemma {:induction false} SortedAnyOrder(a: seq<real>, b: seq<real>)
    requires multiset(a) == multiset(b)
    ensures Sorted(a) == Sorted(b)
    decreases |a|
  {
    hide Insert, Sorted;
    SameLength(a, b);
    if a == [] {
      assert a == b;
    } else {
      var i := FindLast(a, b);
      SortedMoved(b, i);
      SortedMoved(a, |a| - 1);
      assert Without(a, |a| - 1) == a[..|a| - 1];
      SortedAnyOrder(a[..|a| - 1], Without(b, i));
    }
  }

  /** Permuted points have permuted sums. */
  lemma {:induction false} SumsAnyOrder(sqrt: real -> real, a: seq<Point>, b: seq<Point>, all: seq<Point>,
                                        more: seq<Point>)
    requires multiset(a) == multiset(b) && multiset(all) == multiset(more)
    ensures multiset(PlaneSums(sqrt, a, all)) == multiset(PlaneSums(sqrt, b, more))
    decreases |a|
  {
    hide PlaneSum;
    SameLength(a, b);
    var sa, sb := PlaneSums(sqrt, a, all), PlaneSums(sqrt, b, more);
    if a == [] {
      assert sa == sb;
    } else {
      var last := |a| - 1;
      var i := FindLast(a, b);
      SumAnyOrder(sqrt, a[last], all, more);
      SumsAnyOrder(sqrt, a[..last], Without(b, i), all, more);
      assert sa[..last] == PlaneSums(sqrt, a[..last], all);
      assert Without(sb, i) == PlaneSums(sqrt, Without(b, i), more);
      assert sa == sa[..last] + [sa[last]];
      WithoutBag(sb, i);
    }
  }

  lemma {:induction false} TallyMoved(points: seq<Point>, sums: seq<real>, thres: real, i: nat)
    requires i < |points| == |sums|
    ensures Tallied(points, sums, thres)
         == var t := Tallied(Without(points, i), Without(sums, i), thres);
            if sums[i] <= thres then Tally(t.count + 1, t.x + points[i].x, t.y + points[i].y) else t
  {
    var last := |points| - 1;
    var p, s := Without(points, i), Without(sums, i);
    if i == last {
      assert p == points[..last] && s == sums[..last];
    } else {
      TallyMoved(points[..last], sums[..last], thres, i);
      assert p[..|p| - 1] == Without(points[..last], i) && s[..|s| - 1] == Without(sums[..last], i);
    }
  }

  lemma {:induction false} TallyAnyOrder(sqrt: real -> real, a: seq<Point>, b: seq<Point>, all: seq<Point>,
                                         more: seq<Point>, thres: real)
    requires multiset(a) == multiset(b) && multiset(all) == multiset(more)
    ensures Tallied(a, PlaneSums(sqrt, a, all), thres) == Tallied(b, PlaneSums(sqrt, b, more), thres)
    decreases |a|
  {
    hide PlaneSum;
    SameLength(a, b);
    if a != [] {
      var last := |a| - 1;
      var sa, sb := PlaneSums(sqrt, a, all), PlaneSums(sqrt, b, more);
      var i := FindLast(a, b);
      SumAnyOrder(sqrt, a[last], all, more);
      TallyAnyOrder(sqrt, a[..last], Without(b, i), all, more, thres);
      assert sa[..last] == PlaneSums(sqrt, a[..last], all);
      assert Without(sb, i) == PlaneSums(sqrt, Without(b, i), more);
      TallyMoved(b, sb, thres, i);
    }
  }

  /** The position depends on the points only, not on their order. */
  lemma {:induction false} TallyOfAnyOrder(sqrt: real -> real, a: seq<Point>, b: seq<Point>, count: nat)
    requires multiset(a) == multiset(b) && 1 <= count <= |a|
    ensures |a| == |b| && TallyOf(sqrt, a, count) == TallyOf(sqrt, b, count)
  {
    hide PlaneSums, Tallied, Sorted;
    SameLength(a, b);
    SumsAnyOrder(sqrt, a, b, a, b);
    SortedAnyOrder(PlaneSums(sqrt, a, a), PlaneSums(sqrt, b, b));
    TallyAnyOrder(sqrt, a, b, a, b, Thres(PlaneSums(sqrt, a, a), count));
  }

  lemma {:induction false} PointsMoved(w: World, pairs: seq<(int, int)>, i: nat)
    requires i < |pairs|
    ensures multiset(Points(w, pairs)) == multiset(PairPoints(w, pairs[i])) + multiset(Points(w, Without(pairs, i)))
    ensures Valid(w, pairs) == (if ValidPair(w, pairs[i]) then 1 else 0) + Valid(w, Without(pairs, i))
  {
    hide PairPoints, ValidPair;
    var without := Without(pairs, i);
    if i == 0 {
      assert without == pairs[1..];
    } else {
      PointsMoved(w, pairs[1..], i - 1);
      assert without[0] == pairs[0] && without[1..] == Without(pairs[1..], i - 1);
    }
  }

  // ---------------------------------------------------------------------------
  // The algorithm.

  /** A hash set of pairs is iterated in an unknown order; the position does not depend on it. */
  method Calculate(w: World, connectedAnchors: seq<int>) returns (fix: Option<Point>)
    ensures |connectedAnchors| < 3 ==> fix == None
    ensures |connectedAnchors| >= 3 ==> fix == FixOf(w, PairsBefore(connectedAnchors, |connectedAnchors| - 1))
  {
    if |connectedAnchors| < 3 {
      return None;
    }
    var pairs := GetAnchorDistancePairs(connectedAnchors);
    var intersectionPoints, validAnchorsCount := Intersect(w, pairs);
    if validAnchorsCount < 3 {
      return None;
    }
    SameLength(intersectionPoints, Points(w, pairs));
    TallyOfAnyOrder(w.sqrt, intersectionPoints, Points(w, pairs), validAnchorsCount);
    hide *;
    FixIsTally(w, pairs);
    var distances := SumDistances(w.sqrt, intersectionPoints);
    var thres := CalculateThres(distances, validAnchorsCount);
    TallyIs(w.sqrt, intersectionPoints, validAnchorsCount);
    var tally := Accumulate(intersectionPoints, distances, thres);
    fix := Some(Average(tally));
  }

  lemma {:induction false} FixIsTally(w: World, pairs: seq<(int, int)>)
    requires Valid(w, pairs) >= 3
    ensures Valid(w, pairs) <= |Points(w, pairs)|
    ensures FixOf(w, pairs) == Some(Average(TallyOf(w.sqrt, Points(w, pairs), Valid(w, pairs))))
  {
    hide TallyOf, Average;
  }

  lemma {:induction false} TallyIs(sqrt: real -> real, points: seq<Point>, count: nat)
    requires 1 <= count <= |points|
    ensures var sums := PlaneSums(sqrt, points, points);
            TallyOf(sqrt, points, count) == Tallied(points, sums, Thres(sums, count))
  {
    hide PlaneSums, Tallied, Thres;
  }

  method GetAnchorDistancePairs(connectedAnchors: seq<int>) returns (pairs: seq<(int, int)>)
    requires |connectedAnchors| >= 1
    ensures pairs == PairsBefore(connectedAnchors, |connectedAnchors| - 1)
  {
    hide PairsWith;
    pairs := [];
    var i := 0;
    while i < |connectedAnchors| - 1
      invariant 0 <= i <= |connectedAnchors| - 1
      invariant pairs == PairsBefore(connectedAnchors, i)
    {
      var more := PairsFrom(connectedAnchors, i);
      pairs := pairs + more;
      i := i + 1;
    }
  }

  method PairsFrom(connectedAnchors: seq<int>, i: nat) returns (pairs: seq<(int, int)>)
    requires i < |connectedAnchors|
    ensures pairs == PairsWith(connectedAnchors, i, |connectedAnchors|)
  {
    pairs := [];
    var j := i + 1;
    while j < |connectedAnchors|
      invariant i + 1 <= j <= |connectedAnchors|
      invariant pairs == PairsWith(connectedAnchors, i, j)
    {
      pairs := pairs + [(connectedAnchors[i], connectedAnchors[j])];
      j := j + 1;
    }
  }

  method Intersect(w: World, pairs: seq<(int, int)>) returns (points: seq<Point>, valid: nat)
    ensures multiset(points) == multiset(Points(w, pairs)) && valid == Valid(w, pairs)
  {
    hide *;
    points, valid := [], 0;
    var bag := multiset(pairs);
    ghost var rest := pairs;
    assert multiset(points) + multiset(Points(w, rest)) == multiset(Points(w, pairs));
    while bag != multiset{}
      invariant bag == multiset(rest)
      invariant multiset(points) + multiset(Points(w, rest)) == multiset(Points(w, pairs))
      invariant valid + Valid(w, rest) == Valid(w, pairs)
      decreases |bag|
    {
      var pair :| pair in bag;
      ghost var i := Find(rest, pair);
      OnePairLess(w, rest, i, points);
      bag := bag - multiset{pair};
      points := points + PairPoints(w, pair);
      if ValidPair(w, pair) {
        valid := valid + 1;
      }
      rest := Without(rest, i);
    }
    SameLength(rest, []);
    NoPoints(w);
  }

  lemma {:induction false} OnePairLess(w: World, rest: seq<(int, int)>, i: nat, points: seq<Point>)
    requires i < |rest|
    ensures multiset(rest) - multiset{rest[i]} == multiset(Without(rest, i))
    ensures multiset(points) + multiset(Points(w, rest))
         == multiset(points + PairPoints(w, rest[i])) + multiset(Points(w, Without(rest, i)))
    ensures Valid(w, rest) == (if ValidPair(w, rest[i]) then 1 else 0) + Valid(w, Without(rest, i))
  {
    hide *;
    PointsMoved(w, rest, i);
    WithoutBag(rest, i);
  }

  lemma {:induction false} NoPoints(w: World)
    ensures Points(w, []) == [] && Valid(w, []) == 0
  {
  }

  method SumDistances(sqrt: real -> real, points: seq<Point>) returns (distances: seq<real>)
    ensures distances == PlaneSums(sqrt, points, points)
  {
    hide PlaneDistance;
    distances := [];
    var indn := 0;
    while indn < |points|
      invariant 0 <= indn == |distances| <= |points|
      invariant forall m :: 0 <= m < indn ==> distances[m] == PlaneSum(sqrt, points[m], points)
    {
      var sum, k := 0.0, 0;
      while k < |points|
        invariant 0 <= k <= |points|
        invariant sum == PlaneSum(sqrt, points[indn], points[..k])
      {
        assert points[..k + 1][..k] == points[..k];
        sum := sum + PlaneDistance(sqrt, points[indn], points[k]);
        k := k + 1;
      }
      assert points[..k] == points;
      distances := distances + [sum];
      indn := indn + 1;
    }
  }

  method Accumulate(points: seq<Point>, distances: seq<real>, thres: real) returns (tally: Tally)
    requires |points| == |distances|
    ensures tally == Tallied(points, distances, thres)
  {
    var x, y, j, ip := 0, 0, 0, 0;
    while ip < |points|
      invariant 0 <= ip <= |points| && j >= 0
      invariant Tally(j, x, y) == Tallied(points[..ip], distances[..ip], thres)
    {
      assert points[..ip + 1][..ip] == points[..ip] && distances[..ip + 1][..ip] == distances[..ip];
      if distances[ip] <= thres {
        x := x + points[ip].x;
        y := y + points[ip].y;
        j := j + 1;
      }
      ip := ip + 1;
    }
    assert points[..ip] == points && distances[..ip] == distances;
    tally := Tally(j, x, y);
  }

  // ---------------------------------------------------------------------------
  // What the position is made of.

  lemma {:induction false} TallyCount(points: seq<Point>, sums: seq<real>, thres: real)
    requires |points| == |sums|
    ensures Tallied(points, sums, thres).count == Count(sums, thres) <= |points|
  {
    if points != [] {
      var last := |points| - 1;
      TallyCount(points[..last], sums[..last], thres);
      CountLast(sums[..last], sums[last], thres);
      assert sums == sums[..last] + [sums[last]];
    }
  }

  lemma {:induction false} CountLast(s: seq<real>, d: real, t: real)
    ensures Count(s + [d], t) == Count(s, t) + if d <= t then 1 else 0
  {
    if s == [] {
      assert [d][1..] == [];
    } else {
      assert (s + [d])[1..] == s[1..] + [d];
      CountLast(s[1..], d, t);
    }
  }

  lemma {:induction false} PlaneSumsNotNegative(sqrt: real -> real, points: seq<Point>, all: seq<Point>)
    requires IsSqrt(sqrt)
    ensures forall d :: d in PlaneSums(sqrt, points, all) ==> d >= 0.0
  {
    hide IsSqrt;
    forall i | 0 <= i < |points| ensures PlaneSum(sqrt, points[i], all) >= 0.0 {
      PlaneSumNotNegative(sqrt, points[i], all);
    }
  }

  lemma {:induction false} PlaneSumNotNegative(sqrt: real -> real, p: Point, points: seq<Point>)
    requires IsSqrt(sqrt)
    ensures PlaneSum(sqrt, p, points) >= 0.0
  {
    if points != [] {
      var q := points[|points| - 1];
      PlaneSumNotNegative(sqrt, p, points[..|points| - 1]);
      SquareIsNotNegative((p.x - q.x) as real);
      SquareIsNotNegative((p.y - q.y) as real);
    }
  }

  /** With three valid pairs the threshold is in range and three points at least are counted, so that the
      division is by no less than the number of valid pairs. */
  lemma {:induction false} EnoughPoints(w: World, pairs: seq<(int, int)>)
    requires IsSqrt(w.sqrt) && Valid(w, pairs) >= 3
    ensures 3 <= Valid(w, pairs) <= |Points(w, pairs)| <= 2 * Valid(w, pairs)
    ensures Valid(w, pairs) <= TallyOf(w.sqrt, Points(w, pairs), Valid(w, pairs)).count <= |Points(w, pairs)|
  {
    hide *;
    var points, n := Points(w, pairs), Valid(w, pairs);
    var sums := PlaneSums(w.sqrt, points, points);
    PlaneSumsNotNegative(w.sqrt, points, points);
    ThresExactly(sums, n);
    TallyIs(w.sqrt, points, n);
    TallyCount(points, sums, Thres(sums, n));
  }

  predicate Between(p: Point, low: Point, high: Point) {
    low.x <= p.x <= high.x && low.y <= p.y <= high.y
  }

  lemma {:induction false} TallyBetween(points: seq<Point>, sums: seq<real>, thres: real, low: Point, high: Point)
    requires |points| == |sums|
    requires forall i :: 0 <= i < |points| && sums[i] <= thres ==> Between(points[i], low, high)
    ensures var t := Tallied(points, sums, thres);
            t.count * low.x <= t.x <= t.count * high.x && t.count * low.y <= t.y <= t.count * high.y
  {
    if points != [] {
      var last := |points| - 1;
      TallyBetween(points[..last], sums[..last], thres, low, high);
      var t := Tallied(points[..last], sums[..last], thres);
      if sums[last] <= thres {
        assert Between(points[last], low, high);
        OneMoreBetween(t.count, t.x, points[last].x, low.x, high.x);
        OneMoreBetween(t.count, t.y, points[last].y, low.y, high.y);
      }
    }
  }

  lemma {:induction false} OneMoreBetween(n: nat, sum: int, x: int, low: int, high: int)
    requires n * low <= sum <= n * high && low <= x <= high
    ensures (n + 1) * low <= sum + x <= (n + 1) * high
  {
  }

  lemma {:induction false} DividedBetween(sum: int, n: nat, low: int, high: int)
    requires n > 0 && n * low <= sum <= n * high
    ensures low <= Divided(sum, n) <= high
  {
    if sum >= 0 {
      QuotientBetween(sum, n, sum / n, low, high);
    } else {
      QuotientBetween(-sum, n, -sum / n, -high, -low);
    }
  }

  lemma {:induction false} QuotientBetween(sum: nat, n: nat, q: int, low: int, high: int)
    requires n > 0 && q == sum / n && n * low <= sum <= n * high
    ensures low <= q <= high
  {
    assert n * q <= sum < n * q + n;
    if low > q {
      StepUp(n, low, q);
    }
    if q > high {
      StepUp(n, q, high);
    }
  }

  lemma {:induction false} StepUp(n: nat, x: int, y: int)
    requires x > y
    ensures n * x >= n * y + n
  {
    var k: nat := x - y - 1;
    assert n * k >= 0;
    assert n * x == n * y + n + n * k;
  }

  /** The position lies in the bounding box of the counted points, those whose sum of distances is among the
      smallest or less than a tenth over the largest of these. */
  lemma {:induction false} FixInBox(w: World, pairs: seq<(int, int)>, low: Point, high: Point)
    requires IsSqrt(w.sqrt) && Valid(w, pairs) >= 3
    requires var points := Points(w, pairs);
             var base := Base(PlaneSums(w.sqrt, points, points), Valid(w, pairs));
             forall p ::
               && p in points
               && (PlaneSum(w.sqrt, p, points) <= base || 10.0 * PlaneSum(w.sqrt, p, points) < 11.0 * base)
               ==> Between(p, low, high)
    ensures FixOf(w, pairs).Some? && Between(FixOf(w, pairs).value, low, high)
  {
    hide *;
    var points, n := Points(w, pairs), Valid(w, pairs);
    var sums := PlaneSums(w.sqrt, points, points);
    PlaneSumsNotNegative(w.sqrt, points, points);
    ThresExactly(sums, n);
    assert forall i :: 0 <= i < |points| && sums[i] <= Thres(sums, n) ==> Between(points[i], low, high) by {
      forall i | 0 <= i < |points| && sums[i] <= Thres(sums, n) ensures Between(points[i], low, high) {
        assert sums[i] in sums && sums[i] == PlaneSum(w.sqrt, points[i], points);
      }
    }
    TallyBetween(points, sums, Thres(sums, n), low, high);
    TallyIs(w.sqrt, points, n);
    EnoughPoints(w, pairs);
    FixIsTally(w, pairs);
    AverageBetween(TallyOf(w.sqrt, points, n), low, high);
  }

  lemma {:induction false} AverageBetween(t: Tally, low: Point, high: Point)
    requires t.count > 0
    requires t.count * low.x <= t.x <= t.count * high.x && t.count * low.y <= t.y <= t.count * high.y
    ensures Between(Average(t), low, high)
  {
    hide Divided;
    DividedBetween(t.x, t.count, low.x, high.x);
    DividedBetween(t.y, t.count, low.y, high.y);
  }
}
