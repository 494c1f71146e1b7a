/** What the algorithm for three anchors or more makes of exact distances:
    src/main/java/co/blastlab/indoornavi/socket/measures/algorithms/GeoN2d.java. */
module PlaneReadings {
  import opened Wrappers
  import opened Geometry
  import opened Threshold
  import opened GeoN2d

  predicate OnBoth(a: Vec, r1: real, b: Vec, r2: real, q: Vec) {
    q.z == 0.0 && Across2(a, q) == r1 * r1 && Across2(b, q) == r2 * r2
  }

  lemma {:induction false} RootIs(sqrt: real -> real, x: real, square: real)
    requires IsSqrt(sqrt) && x >= 0.0 && square == x * x
    ensures sqrt(square) == x
  {
    var root := sqrt(square);
    SquareIsNotNegative(x);
    assert root >= 0.0 && root * root == x * x;
    SquareOrder(root, x);
    SquareOrder(x, root);
  }

  /** A common point exists only if the distance of the centres is between the difference and the sum of the radii. */
  lemma {:induction false} SidesOf(sqrt: real -> real, a: Vec, r1: real, b: Vec, r2: real, q: Vec)
    returns (l: real)
    requires IsSqrt(sqrt) && r1 >= 0.0 && r2 >= 0.0 && OnBoth(a, r1, b, r2, q)
    ensures l == sqrt(Across2(a, b)) && l >= 0.0 && l * l == Across2(a, b)
    ensures l <= r1 + r2 && r1 - r2 <= l && r2 - r1 <= l
  {
    DistanceSquared(sqrt, a, b);
    Triangle(sqrt, a, b, q);
    RootIs(sqrt, r1, Across2(a, q));
    RootIs(sqrt, r2, Across2(b, q));
    hide Across2, IsSqrt;
    l := Distance(sqrt, a, b);
  }

  lemma {:induction false} SquaresOrdered(x: real, y: real)
    requires 0.0 <= x <= y
    ensures x * x <= y * y
  {
  }

  /** A point at both distances is among the points computed exactly if the circles cross, or touch from within the
      second one, or the point is the first centre itself: where the second circle touches the first from within, the
      point on the wrong side of the centre is taken. */
  lemma {:induction false} PointFoundExactly(sqrt: real -> real, a: Vec, r1: real, b: Vec, r2: real, q: Vec)
    requires IsSqrt(sqrt) && r1 >= 0.0 && r2 >= 0.0 && OnBoth(a, r1, b, r2, q)
    ensures q in Intersections(sqrt, a, r1, b, r2)
            <==> (r1 - r2) * (r1 - r2) < Across2(a, b) || r1 < r2 || r1 == 0.0
  {
    hide *;
    var l := SidesOf(sqrt, a, r1, b, r2, q);
    SquaresOrdered(l, r1 + r2);
    if (r1 - r2) * (r1 - r2) < Across2(a, b) {
      CrossingFound(sqrt, a, r1, b, r2, q);
    } else {
      TouchingIs(sqrt, a, r1, b, r2);
      SquareOrder(l, if r1 < r2 then r2 - r1 else r1 - r2);
      var lenI := Over(1.0, l);
      if l == 0.0 {
        SameCentre(a, b, r1, r2, q, lenI, r1 + r2);
      } else {
        OverIs(l);
        TouchingExactly(a, r1, b, r2, q, l, lenI);
      }
    }
  }

  lemma {:induction false} CrossingFound(sqrt: real -> real, a: Vec, r1: real, b: Vec, r2: real, q: Vec)
    requires IsSqrt(sqrt) && OnBoth(a, r1, b, r2, q)
    requires (r1 - r2) * (r1 - r2) < Across2(a, b) <= (r1 + r2) * (r1 + r2)
    ensures q in Intersections(sqrt, a, r1, b, r2)
  {
    hide Across2, IsSqrt, Intersections;
    NoOtherCommonPoint(sqrt, a, r1, b, r2, q);
  }

  lemma {:induction false} TouchingIs(sqrt: real -> real, a: Vec, r1: real, b: Vec, r2: real)
    requires Across2(a, b) <= (r1 - r2) * (r1 - r2)
    ensures Intersections(sqrt, a, r1, b, r2) == [Single(a, b, Over(1.0, sqrt(Across2(a, b))), -(r1 + r2))]
  {
    hide Across2, Single, Over;
  }

  lemma {:induction false} OverIs(l: real)
    requires l != 0.0
    ensures Over(1.0, l) * l == 1.0
  {
  }

  lemma {:induction false} NoSquares(x: real, y: real)
    requires x * x + y * y == 0.0
    ensures x == 0.0 && y == 0.0
  {
    SquareIsNotNegative(x);
    SquareIsNotNegative(y);
    NoSquare(x);
    NoSquare(y);
  }

  lemma {:induction false} NoSquare(x: real)
    requires x * x == 0.0
    ensures x == 0.0
  {
    SquareOrder(x, 0.0);
  }

  lemma {:induction false} SameCentre(a: Vec, b: Vec, r: real, r2: real, q: Vec, lenI: real, s: real)
    requires Across2(a, b) == 0.0 && OnBoth(a, r, b, r2, q)
    ensures q == Single(a, b, lenI, -s) <==> r == 0.0
  {
    NoSquares(b.x - a.x, b.y - a.y);
    SingleIs(a, b, lenI, -s);
    hide Single, Shifted;
    ShiftedNowhere(a.x, lenI, -s);
    ShiftedNowhere(a.y, lenI, -s);
    if r == 0.0 {
      NoSquares(q.x - a.x, q.y - a.y);
    } else if q.x == a.x && q.y == a.y {
      NoSquare(r);
    }
  }

  lemma {:induction false} ShiftedNowhere(p: real, lenI: real, s: real)
    ensures Shifted(p, p, lenI, s) == p
  {
    assert 0.0 * lenI * s == 0.0;
  }

  /** On the line of the centres, on one side or the other of the first. */
  lemma {:induction false} OnTheLine(a: Vec, r1: real, b: Vec, q: Vec, l: real, lenI: real, m: real)
    requires lenI * l == 1.0 && l * l == Across2(a, b)
    requires Across2(a, q) == m * m && Across2(b, q) == (m - l) * (m - l)
    ensures q.x - a.x == (b.x - a.x) * (lenI * m) && q.y - a.y == (b.y - a.y) * (lenI * m)
  {
    var vx, vy, wx, wy := b.x - a.x, b.y - a.y, q.x - a.x, q.y - a.y;
    AcrossIs(a, b, q);
    hide *;
    Straight(vx, vy, wx, wy, l, m);
    LineCoordinate(vx, wx, l, lenI, m);
    LineCoordinate(vy, wy, l, lenI, m);
  }

  lemma {:induction false} AcrossIs(a: Vec, b: Vec, q: Vec)
    ensures var vx, vy, wx, wy := b.x - a.x, b.y - a.y, q.x - a.x, q.y - a.y;
            && Across2(a, b) == vx * vx + vy * vy && Across2(a, q) == wx * wx + wy * wy
            && Across2(b, q) == (wx - vx) * (wx - vx) + (wy - vy) * (wy - vy)
  {
  }

  lemma {:induction false} Straight(vx: real, vy: real, wx: real, wy: real, l: real, m: real)
    requires vx * vx + vy * vy == l * l && wx * wx + wy * wy == m * m
    requires (wx - vx) * (wx - vx) + (wy - vy) * (wy - vy) == (m - l) * (m - l)
    ensures wx * l == vx * m && wy * l == vy * m
  {
    var dot := wx * vx + wy * vy;
    assert (wx - vx) * (wx - vx) + (wy - vy) * (wy - vy) == m * m + l * l - 2.0 * dot;
    assert (m - l) * (m - l) == m * m + l * l - 2.0 * (m * l);
    assert dot == m * l;
    StraightSquare(vx, vy, wx, wy, l, m, dot);
    NoSquares(wx * l - vx * m, wy * l - vy * m);
  }

  lemma {:induction false} StraightSquare(vx: real, vy: real, wx: real, wy: real, l: real, m: real, dot: real)
    requires vx * vx + vy * vy == l * l && wx * wx + wy * wy == m * m && dot == wx * vx + wy * vy == m * l
    ensures (wx * l - vx * m) * (wx * l - vx * m) + (wy * l - vy * m) * (wy * l - vy * m) == 0.0
  {
    SquareOfDifference(wx, vx, l, m);
    SquareOfDifference(wy, vy, l, m);
    assert (wx * wx + wy * wy) * (l * l) == wx * wx * (l * l) + wy * wy * (l * l);
    assert (vx * vx + vy * vy) * (m * m) == vx * vx * (m * m) + vy * vy * (m * m);
    assert (wx * vx + wy * vy) * (l * m) == wx * vx * (l * m) + wy * vy * (l * m);
    assert m * m * (l * l) == (m * l) * (l * m);
  }

  lemma {:induction false} SquareOfDifference(w: real, v: real, l: real, m: real)
    ensures (w * l - v * m) * (w * l - v * m) == w * w * (l * l) - 2.0 * (w * v * (l * m)) + v * v * (m * m)
  {
  }

  lemma {:induction false} LineCoordinate(v: real, w: real, l: real, lenI: real, m: real)
    requires w * l == v * m && lenI * l == 1.0
    ensures w == v * (lenI * m)
  {
    assert w * l * lenI == w * (lenI * l);
    assert v * m * lenI == v * (lenI * m);
  }

  lemma {:induction false} TouchingExactly(a: Vec, r1: real, b: Vec, r2: real, q: Vec, l: real, lenI: real)
    requires l > 0.0 && lenI * l == 1.0 && l * l == Across2(a, b) && r1 >= 0.0 && r2 >= 0.0
    requires OnBoth(a, r1, b, r2, q) && (r2 == r1 + l || r1 == r2 + l)
    ensures q == Single(a, b, lenI, -(r1 + r2)) <==> r1 < r2
  {
    var m := if r1 < r2 then -r1 else r1;
    hide Across2;
    assert q.z == 0.0 && m * m == r1 * r1 && (m - l) * (m - l) == r2 * r2;
    OnTheLine(a, r1, b, q, l, lenI, m);
    hide *;
    var n := (l - (r1 + r2)) / 2.0;
    var point := Single(a, b, lenI, -(r1 + r2));
    SingleIs(a, b, lenI, -(r1 + r2));
    ShiftedOn(a.x, b.x, lenI, l, r1 + r2, n);
    ShiftedOn(a.y, b.y, lenI, l, r1 + r2, n);
    if r1 > r2 {
      OtherSide(a, b, l, lenI, m, n);
    } else {
      assert m == n;
      assert q.x == point.x && q.y == point.y;
    }
  }

  lemma {:induction false} ShiftedOn(p: real, q: real, lenI: real, l: real, s: real, n: real)
    requires lenI * l == 1.0 && n == (l - s) / 2.0
    ensures Shifted(p, q, lenI, -s) == p + (q - p) * (lenI * n)
  {
    var v := q - p;
    assert v * lenI * -s == -(v * lenI * s);
    assert v * (lenI * n) == v * (lenI * l) / 2.0 - v * lenI * s / 2.0;
  }

  lemma {:induction false} OtherSide(a: Vec, b: Vec, l: real, lenI: real, m: real, n: real)
    requires l > 0.0 && lenI * l == 1.0 && l * l == Across2(a, b) && m != n
    ensures (b.x - a.x) * (lenI * m) != (b.x - a.x) * (lenI * n) || (b.y - a.y) * (lenI * m) != (b.y - a.y) * (lenI * n)
  {
    ProductIsPositive(l, l);
    if (b.x - a.x) * (lenI * m) == (b.x - a.x) * (lenI * n) {
      NoPart(b.x - a.x, lenI, l, m, n);
      if (b.y - a.y) * (lenI * m) == (b.y - a.y) * (lenI * n) {
        NoPart(b.y - a.y, lenI, l, m, n);
      }
    }
  }

  lemma {:induction false} NoPart(v: real, lenI: real, l: real, m: real, n: real)
    requires v * (lenI * m) == v * (lenI * n) && lenI * l == 1.0 && m != n
    ensures v == 0.0
  {
    assert v * (lenI * m) * l == v * m * (lenI * l);
    assert v * (lenI * n) * l == v * n * (lenI * l);
    assert v * (m - n) == 0.0;
  }

  // ---------------------------------------------------------------------------
  // A tag at its height.

  /** A point of space is as far from the anchor as `distance` says. */
  predicate Measured(a: Anchor, distance: real, t: Vec) {
    && distance >= 0.0
    && (t.x - a.x as real) * (t.x - a.x as real) + (t.y - a.y as real) * (t.y - a.y as real)
       + (t.z - a.z as real) * (t.z - a.z as real) == distance * distance
  }

  /** The square of the distance on the plane. */
  function OnPlane2(a: Anchor, t: Vec): real {
    (t.x - a.x as real) * (t.x - a.x as real) + (t.y - a.y as real) * (t.y - a.y as real)
  }

  /** The radius of an anchor's circle is the distance on the plane of a tag at the assumed height, and nothing if
      the measured distance does not even reach that height. */
  lemma {:induction false} RadiusExactly(sqrt: real -> real, a: Anchor, distance: real)
    requires IsSqrt(sqrt)
    ensures var r := Pitagoras(sqrt, a, distance);
            && r >= 0.0
            && (forall t: Vec :: t.z == 100.0 && Measured(a, distance, t) ==> r * r == OnPlane2(a, t))
            && (distance * distance < (a.z as real - 100.0) * (a.z as real - 100.0) ==> r == 0.0)
  {
    var square := distance * distance - (a.z as real - 100.0) * (a.z as real - 100.0);
    assert (a.z - TAG_Z) as real == a.z as real - 100.0;
    forall t: Vec | t.z == 100.0 && Measured(a, distance, t) ensures square == OnPlane2(a, t) >= 0.0 {
      PlanePart(a, distance, t, a.z as real - 100.0);
    }
  }

  lemma {:induction false} PlanePart(a: Anchor, distance: real, t: Vec, h: real)
    requires t.z == 100.0 && h == a.z as real - 100.0 && Measured(a, distance, t)
    ensures distance * distance - h * h == OnPlane2(a, t) >= 0.0
  {
    SquareIsNotNegative(t.x - a.x as real);
    SquareIsNotNegative(t.y - a.y as real);
    assert t.z - a.z as real == -h;
    SquareOfNegated(h);
  }

  /** The second circle does not touch the first from within. */
  predicate Separates(w: World, pair: (int, int))
    requires ValidPair(w, pair)
  {
    var a, b := w.positions[pair.0], w.positions[pair.1];
    var r1, r2 := Pitagoras(w.sqrt, a, w.distance(pair.0)), Pitagoras(w.sqrt, b, w.distance(pair.1));
    (r1 - r2) * (r1 - r2) < Across2(Centre(a), Centre(b)) || r1 < r2 || r1 == 0.0
  }

  predicate FoundIn(points: seq<Point>, t: Vec) {
    exists p :: p in points && CloseTo(p, t)
  }

  /** Of a pair of anchors that both read the distance of a tag at the assumed height, one of the points is the tag up
      to less than two units in each coordinate, unless the second circle lies in the first and touches it. */
  lemma {:induction false} PairFindsTag(w: World, pair: (int, int), t: Vec)
    requires IsSqrt(w.sqrt) && ValidPair(w, pair) && t.z == 100.0
    requires Measured(w.positions[pair.0], w.distance(pair.0), t)
    requires Measured(w.positions[pair.1], w.distance(pair.1), t)
    ensures Separates(w, pair) ==> FoundIn(PairPoints(w, pair), t)
  {
    hide *;
    PairPointsAre(w, pair);
    var a, b := w.positions[pair.0], w.positions[pair.1];
    var r1, r2 := Pitagoras(w.sqrt, a, w.distance(pair.0)), Pitagoras(w.sqrt, b, w.distance(pair.1));
    var q := Vec(t.x, t.y, 0.0);
    RadiusExactly(w.sqrt, a, w.distance(pair.0));
    RadiusExactly(w.sqrt, b, w.distance(pair.1));
    FlatTag(a, r1, b, r2, t, q);
    PointFoundExactly(w.sqrt, Centre(a), r1, Centre(b), r2, q);
    PlaneIsClose(w.sqrt, a, r1, b, r2);
    var exact := Intersections(w.sqrt, Centre(a), r1, Centre(b), r2);
    if q in exact {
      var i :| 0 <= i < |exact| && exact[i] == q;
      var p := PairPoints(w, pair)[i];
      CloseOnPlane(p, q, t);
      OneFound(PairPoints(w, pair), p, t);
    }
    SeparatesIs(w, pair);
  }

  lemma {:induction false} OneFound(points: seq<Point>, p: Point, t: Vec)
    requires p in points && CloseTo(p, t)
    ensures FoundIn(points, t)
  {
    hide CloseTo;
  }

  lemma {:induction false} SeparatesIs(w: World, pair: (int, int))
    requires ValidPair(w, pair)
    ensures pair.0 in w.positions && pair.1 in w.positions
    ensures var a, b := w.positions[pair.0], w.positions[pair.1];
            var r1, r2 := Pitagoras(w.sqrt, a, w.distance(pair.0)), Pitagoras(w.sqrt, b, w.distance(pair.1));
            Separates(w, pair)
            <==> (r1 - r2) * (r1 - r2) < Across2(Centre(a), Centre(b)) || r1 < r2 || r1 == 0.0
  {
    hide Pitagoras, Across2, Centre;
  }

  lemma {:induction false} PairPointsAre(w: World, pair: (int, int))
    requires ValidPair(w, pair)
    ensures pair.0 in w.positions && pair.1 in w.positions
    ensures PairPoints(w, pair)
         == PlaneIntersections(w.sqrt, w.positions[pair.0],
                               Pitagoras(w.sqrt, w.positions[pair.0], w.distance(pair.0)), w.positions[pair.1],
                               Pitagoras(w.sqrt, w.positions[pair.1], w.distance(pair.1)))
  {
    hide PlaneIntersections, Pitagoras;
  }

  lemma {:induction false} FlatTag(a: Anchor, r1: real, b: Anchor, r2: real, t: Vec, q: Vec)
    requires q == Vec(t.x, t.y, 0.0) && r1 * r1 == OnPlane2(a, t) && r2 * r2 == OnPlane2(b, t)
    ensures OnBoth(Centre(a), r1, Centre(b), r2, q)
  {
  }

  lemma {:induction false} CloseOnPlane(p: Point, q: Vec, t: Vec)
    requires CloseTo(p, q) && q.x == t.x && q.y == t.y
    ensures CloseTo(p, t)
  {
  }

  // ---------------------------------------------------------------------------
  // All pairs.

  lemma {:induction false} PairsWithExactly(anchors: seq<int>, i: nat, j: nat, pair: (int, int))
    requires i < j <= |anchors|
    ensures pair in PairsWith(anchors, i, j) <==>
              pair.0 == anchors[i] && exists m :: i < m < j && pair.1 == anchors[m]
  {
    if j > i + 1 {
      PairsWithExactly(anchors, i, j - 1, pair);
    }
  }

  /** Every anchor is paired with every later one, and no other pairs are made. */
  lemma {:induction false} PairsExactly(anchors: seq<int>, n: nat, pair: (int, int))
    requires n < |anchors|
    ensures pair in PairsBefore(anchors, n) <==>
              exists i, m :: 0 <= i < n && i < m < |anchors| && pair == (anchors[i], anchors[m])
  {
    hide PairsWith;
    if n > 0 {
      PairsExactly(anchors, n - 1, pair);
      PairsWithExactly(anchors, n - 1, |anchors|, pair);
      if pair in PairsWith(anchors, n - 1, |anchors|) {
        var m :| n - 1 < m < |anchors| && pair.1 == anchors[m];
        assert 0 <= n - 1 < n && pair == (anchors[n - 1], anchors[m]);
      }
    }
  }

  lemma {:induction false} PointsExactly(w: World, pairs: seq<(int, int)>, p: Point)
    ensures p in Points(w, pairs) <==> exists pair :: pair in pairs && p in PairPoints(w, pair)
  {
    hide PairPoints, ValidPair;
    if pairs != [] {
      PointsExactly(w, pairs[1..], p);
      assert pairs == [pairs[0]] + pairs[1..];
    }
  }

  /** Among the points of the position is one at the tag for every two connected anchors that read its distance. */
  lemma {:induction false} TagAmongPoints(w: World, anchors: seq<int>, i: nat, j: nat, t: Vec)
    requires IsSqrt(w.sqrt) && i < j < |anchors| && ValidPair(w, (anchors[i], anchors[j])) && t.z == 100.0
    requires Measured(w.positions[anchors[i]], w.distance(anchors[i]), t)
    requires Measured(w.positions[anchors[j]], w.distance(anchors[j]), t)
    ensures Separates(w, (anchors[i], anchors[j])) ==> FoundIn(Points(w, PairsBefore(anchors, |anchors| - 1)), t)
  {
    hide *;
    var pair, pairs := (anchors[i], anchors[j]), PairsBefore(anchors, |anchors| - 1);
    PairFindsTag(w, pair, t);
    PairsExactly(anchors, |anchors| - 1, pair);
    FoundInAll(w, pairs, pair, t);
  }

  lemma {:induction false} FoundInAll(w: World, pairs: seq<(int, int)>, pair: (int, int), t: Vec)
    requires pair in pairs
    ensures FoundIn(PairPoints(w, pair), t) ==> FoundIn(Points(w, pairs), t)
  {
    hide Points, PairPoints, CloseTo;
    if p :| p in PairPoints(w, pair) && CloseTo(p, t) {
      PointsExactly(w, pairs, p);
    }
  }
}
