/** The position of a tag from four or more anchors:
    coordinates-calculator/src/main/java/pl/indoornavi/coordinatescalculator/algorithms/GeoN3d.java. */
module GeoN3d {
  import opened Wrappers
  import opened Geometry
  import opened Spheres
  import opened Threshold

  /** An anchor and the distance of the tag from it. */
  datatype Reading = Reading(position: Vec, distance: real)

  datatype Fix = Fix(x: int, y: int, z: int)

  /** Math.round */
  function Round(x: real): int {
    (x + 0.5).Floor
  }

  /** To the nearest integer, and up from halfway. */
  lemma {:induction false} RoundsToNearest(x: real)
    ensures -0.5 < Round(x) as real - x <= 0.5
  {
  }

  function Rounded(v: Vec): Fix {
    Fix(Round(v.x), Round(v.y), Round(v.z))
  }

  // ---------------------------------------------------------------------------
  // The triples of anchors.

  function Triple(sqrt: real -> real, a: seq<Reading>, i: nat, j: nat, k: nat): (points: seq<Vec>)
    requires k < j < i < |a|
    ensures 2 <= |points| <= 5
  {
    Intersections3d(sqrt, a[i].position, a[i].distance, a[j].position, a[j].distance, a[k].position, a[k].distance)
  }

  function InnerPoints(sqrt: real -> real, a: seq<Reading>, i: nat, j: nat, k: nat): (points: seq<Vec>)
    requires k <= j < i < |a|
    ensures 2 * k <= |points| <= 5 * k
  {
    if k == 0 then [] else InnerPoints(sqrt, a, i, j, k - 1) + Triple(sqrt, a, i, j, k - 1)
  }

  function MiddlePoints(sqrt: real -> real, a: seq<Reading>, i: nat, j: nat): (points: seq<Vec>)
    requires j <= i < |a|
    ensures 2 * Pairs(j) <= |points| <= 5 * Pairs(j)
  {
    if j == 0 then [] else MiddlePoints(sqrt, a, i, j - 1) + InnerPoints(sqrt, a, i, j - 1, j - 1)
  }

  function TriplePoints(sqrt: real -> real, a: seq<Reading>, i: nat): (points: seq<Vec>)
    requires i <= |a|
    ensures 2 * Triples(i) <= |points| <= 5 * Triples(i)
  {
    if i == 0 then [] else TriplePoints(sqrt, a, i - 1) + MiddlePoints(sqrt, a, i - 1, i - 1)
  }

  /** The number of pairs, and of triples, of `n` things. */
  function Pairs(n: nat): nat {
    if n == 0 then 0 else Pairs(n - 1) + (n - 1)
  }

  function Triples(n: nat): nat {
    if n == 0 then 0 else Triples(n - 1) + Pairs(n - 1)
  }

  lemma {:induction false} PairsClosed(n: nat)
    ensures 2 * Pairs(n) == n * (n - 1)
  {
    if n > 0 {
      PairsClosed(n - 1);
      assert n * (n - 1) == (n - 1) * (n - 2) + 2 * (n - 1);
    }
  }

  lemma {:induction false} TriplesClosed(n: nat)
    ensures 6 * Triples(n) == n * (n - 1) * (n - 2)
  {
    if n > 0 {
      TriplesClosed(n - 1);
      PairsClosed(n - 1);
      assert n * (n - 1) * (n - 2) == (n - 1) * (n - 2) * (n - 3) + 3 * ((n - 1) * (n - 2));
    }
  }

  /** Four anchors or more yield at least as many points as there are anchors. */
  lemma {:induction false} EnoughPoints(sqrt: real -> real, a: seq<Reading>)
    requires |a| >= 4
    ensures 2 * (|a| * (|a| - 1) * (|a| - 2)) <= 6 * |TriplePoints(sqrt, a, |a|)| <= 5 * (|a| * (|a| - 1) * (|a| - 2))
    ensures |TriplePoints(sqrt, a, |a|)| >= 2 * |a|
  {
    TriplesClosed(|a|);
    CubicBound(|a|);
    hide Triples, TriplePoints;
  }

  lemma {:induction false} CubicBound(n: nat)
    requires n >= 4
    ensures n * (n - 1) * (n - 2) >= 6 * n
  {
    var m := (n - 1) * (n - 2);
    assert m == n * n - 3 * n + 2;
    assert n * n >= 4 * n;
    assert m >= 6;
    assert n * m >= n * 6;
    assert n * (n - 1) * (n - 2) == n * m;
  }

  // ---------------------------------------------------------------------------
  // The sums of distances, and the points that count.

  function DistanceSum(sqrt: real -> real, p: Vec, points: seq<Vec>): real {
    if points == [] then 0.0
    else DistanceSum(sqrt, p, points[..|points| - 1]) + Norm(sqrt, Minus(p, points[|points| - 1]))
  }

  function DistanceSums(sqrt: real -> real, points: seq<Vec>): (sums: seq<real>)
    ensures |sums| == |points|
    ensures forall i :: 0 <= i < |points| ==> sums[i] == DistanceSum(sqrt, points[i], points)
  {
    seq(|points|, i requires 0 <= i < |points| => DistanceSum(sqrt, points[i], points))
  }

  function Kept(points: seq<Vec>, sums: seq<real>, thres: real): seq<Vec>
    requires |points| == |sums|
  {
    if points == [] then []
    else (if sums[0] <= thres then [points[0]] else []) + Kept(points[1..], sums[1..], thres)
  }

  function Total(points: seq<Vec>): Vec {
    if points == [] then Vec(0.0, 0.0, 0.0) else Plus(Total(points[..|points| - 1]), points[|points| - 1])
  }

  function AllPoints(sqrt: real -> real, a: seq<Reading>, previous: Option<Vec>): seq<Vec> {
    TriplePoints(sqrt, a, |a|) + (if previous.Some? then [previous.value] else [])
  }

  function Selected(sqrt: real -> real, points: seq<Vec>, n: nat): seq<Vec>
    requires 1 <= n <= |points|
  {
    var sums := DistanceSums(sqrt, points);
    Kept(points, sums, Thres(sums, n))
  }

  /** The points that make up the position. */
  function Counted(sqrt: real -> real, a: seq<Reading>, previous: Option<Vec>): seq<Vec>
    requires |a| >= 4
  {
    EnoughPoints(sqrt, a);
    Selected(sqrt, AllPoints(sqrt, a, previous), |a|)
  }

  method Calculate(sqrt: real -> real, connectedAnchors: nat, anchors: seq<Reading>, previous: Option<Vec>)
    returns (fix: Option<Fix>)
    requires IsSqrt(sqrt)
    ensures fix.Some? <==> connectedAnchors >= 4 && |anchors| >= 4
    ensures fix.Some? ==>
              var counted := Counted(sqrt, anchors, previous);
              && |counted| >= |anchors|
              && fix.value == Rounded(Scale(Total(counted), 1.0 / |counted| as real))
  {
    hide *;
    if connectedAnchors < 4 || |anchors| < 4 {
      return None;
    }
    EnoughPoints(sqrt, anchors);
    var pairs := AllTriples(sqrt, anchors);
    if previous.Some? {
      pairs := pairs + [previous.value];
    }
    AllPointsAre(sqrt, anchors, previous);
    var distances := SumDistances(sqrt, pairs);
    var thres := CalculateThres(distances, |anchors|);
    SelectedExactly(sqrt, pairs, |anchors|);
    SelectedIs(sqrt, pairs, |anchors|);
    CountedIs(sqrt, anchors, previous);
    var weight, sum := Accumulate(pairs, distances, thres);
    fix := Some(Rounded(Scale(sum, 1.0 / weight as real)));
  }

  lemma {:induction false} AllPointsAre(sqrt: real -> real, a: seq<Reading>, previous: Option<Vec>)
    ensures previous.Some? ==> AllPoints(sqrt, a, previous) == TriplePoints(sqrt, a, |a|) + [previous.value]
    ensures previous.None? ==> AllPoints(sqrt, a, previous) == TriplePoints(sqrt, a, |a|)
  {
    hide TriplePoints;
  }

  lemma {:induction false} SelectedIs(sqrt: real -> real, points: seq<Vec>, n: nat)
    requires 1 <= n <= |points|
    ensures var sums := DistanceSums(sqrt, points); Selected(sqrt, points, n) == Kept(points, sums, Thres(sums, n))
  {
    hide DistanceSums, Kept, Thres;
  }

  lemma {:induction false} CountedIs(sqrt: real -> real, a: seq<Reading>, previous: Option<Vec>)
    requires |a| >= 4
    ensures |a| <= |AllPoints(sqrt, a, previous)|
    ensures Counted(sqrt, a, previous) == Selected(sqrt, AllPoints(sqrt, a, previous), |a|)
  {
    EnoughPoints(sqrt, a);
    hide Selected, TriplePoints;
  }

  method AllTriples(sqrt: real -> real, anchors: seq<Reading>) returns (pairs: seq<Vec>)
    requires |anchors| >= 1
    ensures pairs == TriplePoints(sqrt, anchors, |anchors|)
  {
    hide InnerPoints, Pairs, Triples;
    pairs := [];
    var i := 1;
    assert TriplePoints(sqrt, anchors, 1) == TriplePoints(sqrt, anchors, 0) + MiddlePoints(sqrt, anchors, 0, 0);
    while i < |anchors|
      invariant 1 <= i <= |anchors|
      invariant pairs == TriplePoints(sqrt, anchors, i)
    {
      var j := 0;
      ghost var before := pairs;
      while j < i
        invariant 0 <= j <= i
        invariant pairs == before + MiddlePoints(sqrt, anchors, i, j)
      {
        var more := TriplesOf(sqrt, anchors, i, j);
        assert pairs + more == before + (MiddlePoints(sqrt, anchors, i, j) + more);
        pairs := pairs + more;
        j := j + 1;
      }
      i := i + 1;
    }
  }

  /** The innermost loop: a pair of anchors with every anchor before both. */
  method TriplesOf(sqrt: real -> real, anchors: seq<Reading>, i: nat, j: nat) returns (pairs: seq<Vec>)
    requires j < i < |anchors|
    ensures pairs == InnerPoints(sqrt, anchors, i, j, j)
  {
    hide Triple, Pairs, Triples;
    pairs := [];
    var k := 0;
    while k < j
      invariant 0 <= k <= j
      invariant pairs == InnerPoints(sqrt, anchors, i, j, k)
    {
      pairs := pairs + Triple(sqrt, anchors, i, j, k);
      k := k + 1;
    }
  }

  method SumDistances(sqrt: real -> real, pairs: seq<Vec>) returns (distances: seq<real>)
    ensures distances == DistanceSums(sqrt, pairs)
  {
    hide DistanceSum, Norm, Minus;
    distances := [];
    var i := 0;
    while i < |pairs|
      invariant 0 <= i == |distances| <= |pairs|
      invariant forall m :: 0 <= m < i ==> distances[m] == DistanceSum(sqrt, pairs[m], pairs)
    {
      NothingSummed(sqrt, pairs[i]);
      assert pairs[..0] == [];
      distances := distances + [0.0];
      var k := 0;
      while k < |pairs|
        invariant 0 <= k <= |pairs| && |distances| == i + 1
        invariant forall m :: 0 <= m < i ==> distances[m] == DistanceSum(sqrt, pairs[m], pairs)
        invariant distances[i] == DistanceSum(sqrt, pairs[i], pairs[..k])
      {
        SumOneMore(sqrt, pairs[i], pairs, k);
        distances := distances[i := distances[i] + Norm(sqrt, Minus(pairs[i], pairs[k]))];
        k := k + 1;
      }
      assert pairs[..k] == pairs;
      i := i + 1;
    }
  }

  lemma {:induction false} NothingSummed(sqrt: real -> real, p: Vec)
    ensures DistanceSum(sqrt, p, []) == 0.0
  {
  }

  lemma {:induction false} SumOneMore(sqrt: real -> real, p: Vec, points: seq<Vec>, k: nat)
    requires k < |points|
    ensures DistanceSum(sqrt, p, points[..k + 1])
         == DistanceSum(sqrt, p, points[..k]) + Norm(sqrt, Minus(p, points[k]))
  {
    hide Norm, Minus;
    assert points[..k + 1][..k] == points[..k];
  }

  method Accumulate(pairs: seq<Vec>, distances: seq<real>, thres: real) returns (weight: nat, sum: Vec)
    requires |pairs| == |distances|
    ensures var kept := Kept(pairs, distances, thres); weight == |kept| && sum == Total(kept)
  {
    weight, sum := 0, Vec(0.0, 0.0, 0.0);
    var i := 0;
    while i < |pairs|
      invariant 0 <= i <= |pairs|
      invariant var kept := Kept(pairs[..i], distances[..i], thres); weight == |kept| && sum == Total(kept)
    {
      ghost var kept := Kept(pairs[..i], distances[..i], thres);
      KeptOneMore(pairs[..i], distances[..i], pairs[i], distances[i], thres);
      assert pairs[..i + 1] == pairs[..i] + [pairs[i]] && distances[..i + 1] == distances[..i] + [distances[i]];
      if distances[i] <= thres {
        assert (kept + [pairs[i]])[..|kept|] == kept;
        sum := Plus(sum, pairs[i]);
        weight := weight + 1;
      } else {
        assert kept + [] == kept;
      }
      i := i + 1;
    }
    assert pairs[..i] == pairs && distances[..i] == distances;
  }

  lemma {:induction false} KeptOneMore(points: seq<Vec>, sums: seq<real>, p: Vec, d: real, thres: real)
    requires |points| == |sums|
    ensures Kept(points + [p], sums + [d], thres) == Kept(points, sums, thres) + (if d <= thres then [p] else [])
  {
    if points == [] {
      assert points + [p] == [p] && sums + [d] == [d];
      assert [p][1..] == [] && [d][1..] == [];
    } else {
      var more, last := Kept(points[1..], sums[1..], thres), if d <= thres then [p] else [];
      KeptOneMore(points[1..], sums[1..], p, d, thres);
      KeptFirst(points, sums, thres);
      KeptFirst(points + [p], sums + [d], thres);
      hide Kept;
      assert (points + [p])[1..] == points[1..] + [p] && (sums + [d])[1..] == sums[1..] + [d];
      assert (points + [p])[0] == points[0] && (sums + [d])[0] == sums[0];
      var first := if sums[0] <= thres then [points[0]] else [];
      assert first + (more + last) == (first + more) + last;
    }
  }

  lemma {:induction false} KeptFirst(points: seq<Vec>, sums: seq<real>, thres: real)
    requires |points| == |sums| && points != []
    ensures Kept(points, sums, thres)
         == (if sums[0] <= thres then [points[0]] else []) + Kept(points[1..], sums[1..], thres)
  {
  }

  lemma {:induction false} KeptCount(points: seq<Vec>, sums: seq<real>, thres: real)
    requires |points| == |sums|
    ensures |Kept(points, sums, thres)| == Count(sums, thres)
  {
    if points != [] {
      KeptCount(points[1..], sums[1..], thres);
    }
  }

  lemma {:induction false} SumIsNotNegative(sqrt: real -> real, p: Vec, points: seq<Vec>)
    requires IsSqrt(sqrt)
    ensures DistanceSum(sqrt, p, points) >= 0.0
  {
    if points != [] {
      SumIsNotNegative(sqrt, p, points[..|points| - 1]);
      DotPositive(Minus(p, points[|points| - 1]));
    }
  }

  lemma {:induction false} SumsAreNotNegative(sqrt: real -> real, points: seq<Vec>)
    requires IsSqrt(sqrt)
    ensures forall d :: d in DistanceSums(sqrt, points) ==> d >= 0.0
  {
    hide IsSqrt, DistanceSum;
    forall d | d in DistanceSums(sqrt, points) ensures d >= 0.0 {
      var i :| 0 <= i < |points| && DistanceSums(sqrt, points)[i] == d;
      SumIsNotNegative(sqrt, points[i], points);
    }
  }

  /** Exactly the points are counted whose sum of distances is among the |a| smallest, or less than a tenth
      over the largest of these; there are at least as many as anchors. */
  lemma {:induction false} CountedExactly(sqrt: real -> real, a: seq<Reading>, previous: Option<Vec>)
    requires IsSqrt(sqrt) && |a| >= 4
    ensures var points, counted := AllPoints(sqrt, a, previous), Counted(sqrt, a, previous);
            && |a| <= |counted| <= |points|
            && (forall p :: p in counted <==>
                  p in points && var d, base := DistanceSum(sqrt, p, points), Base(DistanceSums(sqrt, points), |a|);
                                 d <= base || 10.0 * d < 11.0 * base)
  {
    hide *;
    CountedIs(sqrt, a, previous);
    SelectedExactly(sqrt, AllPoints(sqrt, a, previous), |a|);
  }

  lemma {:induction false} SelectedExactly(sqrt: real -> real, points: seq<Vec>, n: nat)
    requires IsSqrt(sqrt) && 1 <= n <= |points|
    ensures n <= |Selected(sqrt, points, n)| <= |points|
    ensures forall p :: p in Selected(sqrt, points, n) <==>
              p in points && var d, base := DistanceSum(sqrt, p, points), Base(DistanceSums(sqrt, points), n);
                             d <= base || 10.0 * d < 11.0 * base
  {
    hide *;
    var sums := DistanceSums(sqrt, points);
    var base, thres := Base(sums, n), Thres(sums, n);
    SelectedIs(sqrt, points, n);
    SumsAreNotNegative(sqrt, points);
    ThresExactly(sums, n);
    KeptCount(points, sums, thres);
    CountBound(sums, thres);
    forall p
      ensures p in Kept(points, sums, thres) <==>
        p in points && (DistanceSum(sqrt, p, points) <= base || 10.0 * DistanceSum(sqrt, p, points) < 11.0 * base)
    {
      KeptMembers(points, sums, thres, p);
      if p in points {
        var i :| 0 <= i < |points| && points[i] == p;
        assert sums[i] == DistanceSum(sqrt, p, points) && sums[i] in sums;
      }
    }
  }

  lemma {:induction false} CountBound(s: seq<real>, t: real)
    ensures Count(s, t) <= |s|
  {
    if s != [] {
      CountBound(s[1..], t);
    }
  }

  lemma {:induction false} KeptMembers(points: seq<Vec>, sums: seq<real>, thres: real, p: Vec)
    requires |points| == |sums|
    ensures p in Kept(points, sums, thres) <==> exists i :: 0 <= i < |points| && points[i] == p && sums[i] <= thres
  {
    if points != [] {
      KeptMembers(points[1..], sums[1..], thres, p);
      if i :| 0 < i < |points| && points[i] == p && sums[i] <= thres {
        assert points[1..][i - 1] == p && sums[1..][i - 1] <= thres;
      }
      if i :| 0 <= i < |points[1..]| && points[1..][i] == p && sums[1..][i] <= thres {
        assert points[i + 1] == p && sums[i + 1] <= thres;
      }
    }
  }

  // ---------------------------------------------------------------------------
  // The position is among the points.

  predicate InBox(v: Vec, low: Vec, high: Vec) {
    low.x <= v.x <= high.x && low.y <= v.y <= high.y && low.z <= v.z <= high.z
  }

  lemma {:induction false} TotalInBox(points: seq<Vec>, low: Vec, high: Vec)
    requires forall p :: p in points ==> InBox(p, low, high)
    ensures var n := |points| as real; InBox(Total(points), Scale(low, n), Scale(high, n))
  {
    hide Plus, Scale, InBox;
    if points == [] {
      NothingInBox(low, high);
    } else {
      var last := |points| - 1;
      assert forall p :: p in points[..last] ==> p in points;
      TotalInBox(points[..last], low, high);
      assert InBox(points[last], low, high);
      PlusInBox(Total(points[..last]), points[last], last as real, low, high);
    }
  }

  lemma {:induction false} NothingInBox(low: Vec, high: Vec)
    ensures InBox(Vec(0.0, 0.0, 0.0), Scale(low, 0.0), Scale(high, 0.0))
  {
  }

  lemma {:induction false} PlusInBox(v: Vec, p: Vec, n: real, low: Vec, high: Vec)
    requires InBox(v, Scale(low, n), Scale(high, n)) && InBox(p, low, high)
    ensures InBox(Plus(v, p), Scale(low, n + 1.0), Scale(high, n + 1.0))
  {
    hide Scale;
    ScaleOneMore(low, n);
    ScaleOneMore(high, n);
  }

  lemma {:induction false} ScaleOneMore(v: Vec, n: real)
    ensures var s, t := Scale(v, n), Scale(v, n + 1.0); t.x == s.x + v.x && t.y == s.y + v.y && t.z == s.z + v.z
  {
  }

  lemma {:induction false} OneOver(n: real, k: real)
    requires n > 0.0 && k == 1.0 / n
    ensures n * k == 1.0
  {
  }

  lemma {:induction false} AverageBetween(sum: real, n: real, k: real, average: real, low: real, high: real,
                                          lowSum: real, highSum: real)
    requires n > 0.0 && lowSum == n * low && highSum == n * high && lowSum <= sum <= highSum
    requires n * k == 1.0 && average == k * sum
    ensures Round(low) <= Round(average) <= Round(high)
  {
    assert n * average == (n * k) * sum == sum;
    NotBelow(n, low, average);
    NotBelow(n, average, high);
  }

  lemma {:induction false} NotBelow(n: real, x: real, y: real)
    requires n > 0.0 && n * x <= n * y
    ensures x <= y
  {
    assert n * (x - y) == n * x - n * y;
    if x > y {
      ProductIsPositive(n, x - y);
    }
  }

  /** The position lies in every box around the counted points, up to the rounding of the box. */
  lemma {:induction false} FixInBox(sqrt: real -> real, a: seq<Reading>, previous: Option<Vec>, low: Vec, high: Vec)
    requires IsSqrt(sqrt) && |a| >= 4
    requires forall p :: p in Counted(sqrt, a, previous) ==> InBox(p, low, high)
    ensures var counted := Counted(sqrt, a, previous);
            && |counted| > 0
            && var fix, l, h := Rounded(Scale(Total(counted), 1.0 / |counted| as real)), Rounded(low), Rounded(high);
               l.x <= fix.x <= h.x && l.y <= fix.y <= h.y && l.z <= fix.z <= h.z
  {
    hide *;
    var counted := Counted(sqrt, a, previous);
    CountedExactly(sqrt, a, previous);
    TotalInBox(counted, low, high);
    RoundedInBox(Total(counted), |counted| as real, low, high);
  }

  lemma {:induction false} RoundedInBox(sum: Vec, n: real, low: Vec, high: Vec)
    requires n > 0.0 && InBox(sum, Scale(low, n), Scale(high, n))
    ensures var fix, l, h := Rounded(Scale(sum, 1.0 / n)), Rounded(low), Rounded(high);
            l.x <= fix.x <= h.x && l.y <= fix.y <= h.y && l.z <= fix.z <= h.z
  {
    hide *;
    var k := 1.0 / n;
    var average, lows, highs := Scale(sum, k), Scale(low, n), Scale(high, n);
    OneOver(n, k);
    InBoxParts(sum, lows, highs);
    assert Round(low.x) <= Round(average.x) <= Round(high.x) by {
      ScaledX(sum, k, low, high, n);
      AverageBetween(sum.x, n, k, average.x, low.x, high.x, lows.x, highs.x);
    }
    assert Round(low.y) <= Round(average.y) <= Round(high.y) by {
      ScaledY(sum, k, low, high, n);
      AverageBetween(sum.y, n, k, average.y, low.y, high.y, lows.y, highs.y);
    }
    assert Round(low.z) <= Round(average.z) <= Round(high.z) by {
      ScaledZ(sum, k, low, high, n);
      AverageBetween(sum.z, n, k, average.z, low.z, high.z, lows.z, highs.z);
    }
    RoundedParts(average);
    RoundedParts(low);
    RoundedParts(high);
  }

  lemma {:induction false} ScaledX(sum: Vec, k: real, low: Vec, high: Vec, n: real)
    ensures Scale(sum, k).x == k * sum.x && Scale(low, n).x == n * low.x && Scale(high, n).x == n * high.x
  {
  }

  lemma {:induction false} ScaledY(sum: Vec, k: real, low: Vec, high: Vec, n: real)
    ensures Scale(sum, k).y == k * sum.y && Scale(low, n).y == n * low.y && Scale(high, n).y == n * high.y
  {
  }

  lemma {:induction false} ScaledZ(sum: Vec, k: real, low: Vec, high: Vec, n: real)
    ensures Scale(sum, k).z == k * sum.z && Scale(low, n).z == n * low.z && Scale(high, n).z == n * high.z
  {
  }

  lemma {:induction false} InBoxParts(v: Vec, low: Vec, high: Vec)
    requires InBox(v, low, high)
    ensures low.x <= v.x <= high.x && low.y <= v.y <= high.y && low.z <= v.z <= high.z
  {
  }

  lemma {:induction false} RoundedParts(v: Vec)
    ensures Rounded(v).x == Round(v.x) && Rounded(v).y == Round(v.y) && Rounded(v).z == Round(v.z)
  {
    hide Round;
  }

  lemma {:induction false} ScaleParts(v: Vec, k: real)
    ensures var s := Scale(v, k); s.x == k * v.x && s.y == k * v.y && s.z == k * v.z
  {
  }
}
