/** Intersections of circles and spheres around anchors:
    coordinates-calculator/src/main/java/pl/indoornavi/coordinatescalculator/shared/IntersectionsCalculator.java.
    Floating-point numbers are real numbers here, and the square root is a parameter. */
module Geometry {
  datatype Vec = Vec(x: real, y: real, z: real)

  /** `sqrt` is the square root. */
  ghost predicate IsSqrt(sqrt: real -> real) {
    forall x :: x >= 0.0 ==> sqrt(x) >= 0.0 && sqrt(x) * sqrt(x) == x
  }

  /** Division; what the original computes for a zero divisor is no number, and some number here. */
  function Over(a: real, b: real): real {
    if b == 0.0 then 0.0 else a / b
  }

  function Minus(a: Vec, b: Vec): Vec {
    Vec(a.x - b.x, a.y - b.y, a.z - b.z)
  }

  function Plus(a: Vec, b: Vec): Vec {
    Vec(a.x + b.x, a.y + b.y, a.z + b.z)
  }

  function Scale(a: Vec, k: real): Vec {
    Vec(k * a.x, k * a.y, k * a.z)
  }

  function Dot(a: Vec, b: Vec): real {
    a.x * b.x + a.y * b.y + a.z * b.z
  }

  function Cross(a: Vec, b: Vec): Vec {
    Vec(a.y * b.z - a.z * b.y, -a.x * b.z + a.z * b.x, a.x * b.y - a.y * b.x)
  }

  function Norm(sqrt: real -> real, a: Vec): real {
    sqrt(Dot(a, a))
  }

  /** The square of the distance between two points. */
  function Dist2(a: Vec, b: Vec): real {
    Dot(Minus(a, b), Minus(a, b))
  }

  // ---------------------------------------------------------------------------
  // Two circles.

  function Across2(a: Vec, b: Vec): real {
    (b.x - a.x) * (b.x - a.x) + (b.y - a.y) * (b.y - a.y)
  }

  /** getIntersections: the circles lie in the plane z = 0. */
  function Intersections(sqrt: real -> real, a: Vec, r1: real, b: Vec, r2: real): (points: seq<Vec>)
    ensures 1 <= |points| <= 2
  {
    var l2 := Across2(a, b);
    var rsum, rdiff := r1 + r2, r1 - r2;
    var lenI := Over(1.0, sqrt(l2));
    if l2 <= rdiff * rdiff then [Single(a, b, lenI, -rsum)]
    else if rsum * rsum < l2 then [Single(a, b, lenI, rdiff)]
    else Crossing(a, b, r1 * r1 - r2 * r2, l2, sqrt(Heron(l2, r1, r2)) / 4.0)
  }

  /** The middle of the centres, shifted along their line by half of `s`. */
  function Single(a: Vec, b: Vec, lenI: real, s: real): Vec {
    Vec(Shifted(a.x, b.x, lenI, s), Shifted(a.y, b.y, lenI, s), 0.0)
  }

  function Shifted(p: real, q: real, lenI: real, s: real): real {
    (p + q + (q - p) * lenI * s) / 2.0
  }

  /** Sixteen times the squared area of the triangle of the centres and a common point. */
  function Heron(l2: real, r1: real, r2: real): real {
    ((r1 + r2) * (r1 + r2) - l2) * (l2 - (r1 - r2) * (r1 - r2))
  }

  function Crossing(a: Vec, b: Vec, d: real, l2: real, k: real): (points: seq<Vec>)
    ensures |points| == 2
  {
    var x, y := Middle(a.x, b.x, d, l2), Middle(a.y, b.y, d, l2);
    var u, v := Side(b.y - a.y, k, l2), Side(b.x - a.x, k, l2);
    [Vec(x + u, y - v, 0.0), Vec(x - u, y + v, 0.0)]
  }

  function Middle(p: real, q: real, d: real, l2: real): real {
    MiddleTwice(p, q, d, l2) / 2.0
  }

  function MiddleTwice(p: real, q: real, d: real, l2: real): real {
    p + q + Over((q - p) * d, l2)
  }

  function Side(s: real, k: real, l2: real): real {
    Over(2.0 * s * k, l2)
  }

  /** The circles have a common point. */
  predicate Meet(a: Vec, r1: real, b: Vec, r2: real) {
    (r1 - r2) * (r1 - r2) < Across2(a, b) <= (r1 + r2) * (r1 + r2)
  }

  function Height(sqrt: real -> real, a: Vec, r1: real, b: Vec, r2: real): real {
    var l2 := Across2(a, b);
    Over(sqrt(Heron(l2, r1, r2)) / 2.0, l2)
  }

  /** The point `c` along and `h` across the line from `a` to `b`, in multiples of their distance. */
  function Offset(a: Vec, b: Vec, c: real, h: real): Vec {
    Vec(a.x + (b.x - a.x) * c + (b.y - a.y) * h, a.y + (b.y - a.y) * c - (b.x - a.x) * h, 0.0)
  }

  function Along(a: Vec, r1: real, b: Vec, r2: real): real {
    (1.0 + Over(r1 * r1 - r2 * r2, Across2(a, b))) / 2.0
  }

  lemma {:induction false} OverScaled(x: real, d: real, l: real)
    ensures Over(x * d, l) == x * Over(d, l)
  {
  }

  lemma {:induction false} SquareIsNotNegative(x: real)
    ensures x * x >= 0.0
  {
  }

  lemma {:induction false} MeetingPoints(sqrt: real -> real, a: Vec, r1: real, b: Vec, r2: real)
    requires Meet(a, r1, b, r2)
    ensures var c, h := Along(a, r1, b, r2), Height(sqrt, a, r1, b, r2);
            Intersections(sqrt, a, r1, b, r2) == [Offset(a, b, c, h), Offset(a, b, c, -h)]
  {
    var l2 := Across2(a, b);
    SquareIsNotNegative(r1 - r2);
    var root := sqrt(Heron(l2, r1, r2));
    MeetingIsCrossing(sqrt, a, r1, b, r2);
    CrossingPoints(a, b, r1 * r1 - r2 * r2, l2, root);
    hide Across2, Heron, Offset, Crossing, Over, Intersections, Meet;
  }

  lemma {:induction false} MeetingIsCrossing(sqrt: real -> real, a: Vec, r1: real, b: Vec, r2: real)
    requires Meet(a, r1, b, r2)
    ensures Intersections(sqrt, a, r1, b, r2)
         == Crossing(a, b, r1 * r1 - r2 * r2, Across2(a, b), sqrt(Heron(Across2(a, b), r1, r2)) / 4.0)
  {
    hide Crossing, Across2, Heron, Over;
  }

  lemma {:induction false} CrossingPoints(a: Vec, b: Vec, d: real, l2: real, root: real)
    ensures var c, h := (1.0 + Over(d, l2)) / 2.0, Over(root / 2.0, l2);
            Crossing(a, b, d, l2, root / 4.0) == [Offset(a, b, c, h), Offset(a, b, c, -h)]
  {
    hide *;
    var c, h := (1.0 + Over(d, l2)) / 2.0, Over(root / 2.0, l2);
    var x, y := Middle(a.x, b.x, d, l2), Middle(a.y, b.y, d, l2);
    var u, v := Side(b.y - a.y, root / 4.0, l2), Side(b.x - a.x, root / 4.0, l2);
    CrossingIs(a, b, d, l2, root / 4.0);
    Midway(a.x, b.x, d, l2);
    Midway(a.y, b.y, d, l2);
    Aside(b.y - a.y, root, l2);
    Aside(b.x - a.x, root, l2);
    MirrorPoints(a, b, c, h, x, y, u, v);
  }

  lemma {:induction false} CrossingIs(a: Vec, b: Vec, d: real, l2: real, k: real)
    ensures var x, y := Middle(a.x, b.x, d, l2), Middle(a.y, b.y, d, l2);
            var u, v := Side(b.y - a.y, k, l2), Side(b.x - a.x, k, l2);
            Crossing(a, b, d, l2, k) == [Vec(x + u, y - v, 0.0), Vec(x - u, y + v, 0.0)]
  {
    hide Middle, Side;
  }

  lemma {:induction false} MirrorPoints(a: Vec, b: Vec, c: real, h: real, x: real, y: real, u: real, v: real)
    requires x == a.x + (b.x - a.x) * c && y == a.y + (b.y - a.y) * c
    requires u == (b.y - a.y) * h && v == (b.x - a.x) * h
    ensures Vec(x + u, y - v, 0.0) == Offset(a, b, c, h)
    ensures Vec(x - u, y + v, 0.0) == Offset(a, b, c, -h)
  {
    Negated(b.y - a.y, h);
    Negated(b.x - a.x, h);
    assert Offset(a, b, c, h).x == x + u && Offset(a, b, c, h).y == y - v;
    assert Offset(a, b, c, -h).x == x - u && Offset(a, b, c, -h).y == y + v;
  }

  lemma {:induction false} OffsetIs(a: Vec, b: Vec, c: real, h: real)
    ensures Offset(a, b, c, h).x == a.x + (b.x - a.x) * c + (b.y - a.y) * h
    ensures Offset(a, b, c, h).y == a.y + (b.y - a.y) * c - (b.x - a.x) * h
    ensures Offset(a, b, c, h).z == 0.0
  {
  }

  lemma {:induction false} Negated(x: real, h: real)
    ensures x * (-h) == -(x * h)
  {
  }

  lemma {:induction false} Midway(p: real, q: real, d: real, l: real)
    ensures Middle(p, q, d, l) == p + (q - p) * ((1.0 + Over(d, l)) / 2.0)
  {
    var k := Over(d, l);
    if l == 0.0 {
      assert (q - p) * 0.0 == 0.0;
    } else {
      assert ((q - p) * d) / l == (q - p) * (d / l);
    }
    assert Over((q - p) * d, l) == (q - p) * k;
    hide Over;
    Halves(p, q, k);
  }

  lemma {:induction false} Aside(x: real, root: real, l: real)
    ensures Side(x, root / 4.0, l) == x * Over(root / 2.0, l)
  {
    OverScaled(x, root / 2.0, l);
    hide Over;
    assert 2.0 * x * (root / 4.0) == x * (root / 2.0);
  }

  lemma {:induction false} Halves(p: real, q: real, t: real)
    ensures (p + q + (q - p) * t) / 2.0 == p + (q - p) * ((1.0 + t) / 2.0)
  {
  }

  /** Squared distances of an offset point, in the plane. */
  lemma {:induction false} OffsetDistances(a: Vec, b: Vec, c: real, h: real)
    ensures var p := Offset(a, b, c, h);
            && Across2(a, p) == Across2(a, b) * (c * c + h * h)
            && Across2(b, p) == Across2(a, b) * ((c - 1.0) * (c - 1.0) + h * h)
  {
    var dx, dy := b.x - a.x, b.y - a.y;
    Rotated(dx, dy, c, h);
    Rotated(dx, dy, c - 1.0, h);
    assert dx * (c - 1.0) == dx * c - dx && dy * (c - 1.0) == dy * c - dy;
  }

  lemma {:induction false} Rotated(dx: real, dy: real, c: real, h: real)
    ensures (dx * c + dy * h) * (dx * c + dy * h) + (dy * c - dx * h) * (dy * c - dx * h)
         == (dx * dx + dy * dy) * (c * c + h * h)
  {
  }

  /** Heron's product, and the law of cosines. */
  lemma {:induction false} HeronIdentity(l: real, r1: real, r2: real)
    ensures var heron := ((r1 + r2) * (r1 + r2) - l) * (l - (r1 - r2) * (r1 - r2));
            && (l + (r1 * r1 - r2 * r2)) * (l + (r1 * r1 - r2 * r2)) + heron == 4.0 * (r1 * r1) * l
            && ((r1 * r1 - r2 * r2) - l) * ((r1 * r1 - r2 * r2) - l) + heron == 4.0 * (r2 * r2) * l
  {
  }

  /** Both points lie on both circles whenever the circles meet. */
  lemma {:induction false} BothPointsOnBothCircles(sqrt: real -> real, a: Vec, r1: real, b: Vec, r2: real)
    requires IsSqrt(sqrt) && Meet(a, r1, b, r2)
    ensures forall p :: p in Intersections(sqrt, a, r1, b, r2) ==> Across2(a, p) == r1 * r1 && Across2(b, p) == r2 * r2
  {
    hide *;
    var l2 := Across2(a, b);
    var c, h := Along(a, r1, b, r2), Height(sqrt, a, r1, b, r2);
    MeetingPoints(sqrt, a, r1, b, r2);
    MeetingShape(sqrt, a, r1, b, r2);
    OffsetDistances(a, b, c, h);
    OffsetDistances(a, b, c, -h);
    SquareOfNegated(h);
    RadiiMatch(l2, r1, r2, sqrt(Heron(l2, r1, r2)));
  }

  lemma {:induction false} MeetingShape(sqrt: real -> real, a: Vec, r1: real, b: Vec, r2: real)
    requires IsSqrt(sqrt) && Meet(a, r1, b, r2)
    ensures var l2 := Across2(a, b);
            var root := sqrt(Heron(l2, r1, r2));
            && l2 > 0.0 && root * root == Heron(l2, r1, r2)
            && Along(a, r1, b, r2) == (1.0 + Over(r1 * r1 - r2 * r2, l2)) / 2.0
            && Height(sqrt, a, r1, b, r2) == Over(root / 2.0, l2)
  {
    hide Heron, Over, Across2;
    HeronIsNotNegative(Across2(a, b), r1, r2);
  }

  lemma {:induction false} HeronIsNotNegative(l: real, r1: real, r2: real)
    requires (r1 - r2) * (r1 - r2) < l <= (r1 + r2) * (r1 + r2)
    ensures l > 0.0 && Heron(l, r1, r2) >= 0.0
  {
    SquareIsNotNegative(r1 - r2);
    ProductIsNotNegative((r1 + r2) * (r1 + r2) - l, l - (r1 - r2) * (r1 - r2));
  }

  lemma {:induction false} ProductIsNotNegative(x: real, y: real)
    requires x >= 0.0 && y >= 0.0
    ensures x * y >= 0.0
  {
  }

  lemma {:induction false} SquareOfNegated(h: real)
    ensures (-h) * (-h) == h * h
  {
  }

  /** `l` is the squared distance, `root` the square root of Heron's product. */
  lemma {:induction false} RadiiMatch(l: real, r1: real, r2: real, root: real)
    requires l > 0.0 && root * root == Heron(l, r1, r2)
    ensures var c, h := (1.0 + Over(r1 * r1 - r2 * r2, l)) / 2.0, Over(root / 2.0, l);
            l * (c * c + h * h) == r1 * r1 && l * ((c - 1.0) * (c - 1.0) + h * h) == r2 * r2
  {
    HeronIdentity(l, r1, r2);
    var d := r1 * r1 - r2 * r2;
    var t, h := d / l, (root / 2.0) / l;
    var c := (1.0 + t) / 2.0;
    hide *;
    var lt, lh := l * t, l * h;
    assert lt == d && 2.0 * lh == root;
    Fourfold(l, t, h, r1, r2, root, d);
  }

  lemma {:induction false} Fourfold(l: real, t: real, h: real, r1: real, r2: real, root: real, d: real)
    requires l > 0.0 && l * t == d && 2.0 * (l * h) == root
    requires (l + d) * (l + d) + root * root == 4.0 * (r1 * r1) * l
    requires (d - l) * (d - l) + root * root == 4.0 * (r2 * r2) * l
    ensures var c := (1.0 + t) / 2.0;
            l * (c * c + h * h) == r1 * r1 && l * ((c - 1.0) * (c - 1.0) + h * h) == r2 * r2
  {
    var c := (1.0 + t) / 2.0;
    var x, y := c * c + h * h, (c - 1.0) * (c - 1.0) + h * h;
    FourSquares(l, t, h);
    assert 4.0 * l * (l * x) == 4.0 * (r1 * r1) * l;
    assert 4.0 * l * (l * y) == 4.0 * (r2 * r2) * l;
    Cancel(l, l * x, r1 * r1);
    Cancel(l, l * y, r2 * r2);
  }

  lemma {:induction false} Cancel(l: real, x: real, y: real)
    requires l > 0.0 && 4.0 * l * x == 4.0 * y * l
    ensures x == y
  {
  }

  lemma {:induction false} FourSquares(l: real, t: real, h: real)
    ensures var c := (1.0 + t) / 2.0;
            && 4.0 * l * (l * (c * c + h * h)) == (l + l * t) * (l + l * t) + (2.0 * (l * h)) * (2.0 * (l * h))
            && 4.0 * l * (l * ((c - 1.0) * (c - 1.0) + h * h))
               == (l * t - l) * (l * t - l) + (2.0 * (l * h)) * (2.0 * (l * h))
  {
  }

  /** No other point of the plane lies on both circles. */
  lemma {:induction false} NoOtherCommonPoint(sqrt: real -> real, a: Vec, r1: real, b: Vec, r2: real, q: Vec)
    requires IsSqrt(sqrt) && Meet(a, r1, b, r2)
    requires q.z == 0.0 && Across2(a, q) == r1 * r1 && Across2(b, q) == r2 * r2
    ensures q in Intersections(sqrt, a, r1, b, r2)
  {
    hide *;
    var l := Across2(a, b);
    MeetingPoints(sqrt, a, r1, b, r2);
    MeetingShape(sqrt, a, r1, b, r2);
    var c, h := AsOffset(a, b, q);
    OffsetDistances(a, b, c, h);
    CommonPoint(l, r1, r2, sqrt(Heron(l, r1, r2)), c, h);
  }

  lemma {:induction false} AsOffset(a: Vec, b: Vec, q: Vec)
    returns (c: real, h: real)
    requires q.z == 0.0 && Across2(a, b) > 0.0
    ensures q == Offset(a, b, c, h)
  {
    var dx, dy, vx, vy := b.x - a.x, b.y - a.y, q.x - a.x, q.y - a.y;
    var l := Across2(a, b);
    var s, w := vx * dx + vy * dy, dy * vx - dx * vy;
    c, h := s / l, w / l;
    assert l * c == s && l * h == w;
    Turned(dx, dy, vx, vy);
    Undone(l, dx, c, dy, h, vx);
    Undone(l, dy, c, -dx, h, vy);
  }

  lemma {:induction false} Turned(dx: real, dy: real, vx: real, vy: real)
    ensures var s, w := vx * dx + vy * dy, dy * vx - dx * vy;
            && dx * s + dy * w == (dx * dx + dy * dy) * vx
            && dy * s - dx * w == (dx * dx + dy * dy) * vy
  {
  }

  lemma {:induction false} Undone(l: real, x: real, c: real, y: real, h: real, v: real)
    requires l > 0.0 && x * (l * c) + y * (l * h) == l * v
    ensures x * c + y * h == v
  {
    assert l * (x * c + y * h) == l * v;
  }

  lemma {:induction false} CommonPoint(l: real, r1: real, r2: real, root: real, c: real, h: real)
    requires l > 0.0 && root * root == Heron(l, r1, r2)
    requires l * (c * c + h * h) == r1 * r1 && l * ((c - 1.0) * (c - 1.0) + h * h) == r2 * r2
    ensures c == (1.0 + Over(r1 * r1 - r2 * r2, l)) / 2.0
    ensures h == Over(root / 2.0, l) || h == -Over(root / 2.0, l)
  {
    var d := r1 * r1 - r2 * r2;
    Difference(l, c, h, d);
    Divided(d, l, 2.0 * c - 1.0);
    HeronIdentity(l, r1, r2);
    hide Heron;
    assert l + d == 2.0 * (l * c);
    HeightSquared(l, c, h, r1, root);
    if root == 2.0 * (l * h) {
      Divided(root / 2.0, l, h);
    } else {
      Negated(l, h);
      Divided(root / 2.0, l, -h);
    }
  }

  lemma {:induction false} Divided(d: real, l: real, x: real)
    requires l > 0.0 && l * x == d
    ensures d / l == x
  {
  }

  lemma {:induction false} Difference(l: real, c: real, h: real, d: real)
    requires l * (c * c + h * h) - l * ((c - 1.0) * (c - 1.0) + h * h) == d
    ensures l * (2.0 * c - 1.0) == d
  {
  }

  lemma {:induction false} HeightSquared(l: real, c: real, h: real, r: real, root: real)
    requires l > 0.0 && l * (c * c + h * h) == r * r
    requires (2.0 * (l * c)) * (2.0 * (l * c)) + root * root == 4.0 * (r * r) * l
    ensures root == 2.0 * (l * h) || root == -2.0 * (l * h)
  {
    var m := 2.0 * (l * h);
    assert 4.0 * (r * r) * l == 4.0 * l * (l * (c * c + h * h));
    assert 4.0 * l * (l * (c * c + h * h)) == (2.0 * (l * c)) * (2.0 * (l * c)) + m * m;
    assert root * root == m * m;
    assert (root - m) * (root + m) == 0.0;
  }

  // ---------------------------------------------------------------------------
  // Circles that do not meet.

  function Distance(sqrt: real -> real, a: Vec, q: Vec): real {
    sqrt(Across2(a, q))
  }

  function Abs(x: real): real {
    if x < 0.0 then -x else x
  }

  /** How far a point of the plane is from the circle. */
  function Gap(sqrt: real -> real, a: Vec, r: real, q: Vec): real {
    Abs(Distance(sqrt, a, q) - r)
  }

  /** Half the width of the strip, or of the narrowest part of the ring, between the circles. */
  function LeastGap(sqrt: real -> real, a: Vec, r1: real, b: Vec, r2: real): real {
    var length := Distance(sqrt, a, b);
    if r1 + r2 < length then (length - (r1 + r2)) / 2.0 else (Abs(r1 - r2) - length) / 2.0
  }

  lemma {:induction false} SquareOrder(x: real, y: real)
    requires y >= 0.0 && x * x <= y * y
    ensures -y <= x <= y
  {
    assert (x - y) * (x + y) == x * x - y * y;
    assert (-x - y) * (y - x) == x * x - y * y;
    if x > y {
      ProductIsPositive(x - y, x + y);
    } else if x < -y {
      ProductIsPositive(-x - y, y - x);
    }
  }

  lemma {:induction false} ProductIsPositive(x: real, y: real)
    requires x > 0.0 && y > 0.0
    ensures x * y > 0.0
  {
  }

  lemma {:induction false} DistanceSquared(sqrt: real -> real, a: Vec, q: Vec)
    requires IsSqrt(sqrt)
    ensures var d := Distance(sqrt, a, q); d >= 0.0 && d * d == Across2(a, q)
  {
    SquareIsNotNegative(q.x - a.x);
    SquareIsNotNegative(q.y - a.y);
  }

  lemma {:induction false} Triangle(sqrt: real -> real, a: Vec, b: Vec, q: Vec)
    requires IsSqrt(sqrt)
    ensures var x, y, length := Distance(sqrt, a, q), Distance(sqrt, b, q), Distance(sqrt, a, b);
            length <= x + y && x - y <= length && y - x <= length
  {
    hide *;
    var x, y, length := Distance(sqrt, a, q), Distance(sqrt, b, q), Distance(sqrt, a, b);
    DistanceSquared(sqrt, a, q);
    DistanceSquared(sqrt, b, q);
    DistanceSquared(sqrt, a, b);
    var dot := CosineLaw(a, b, q);
    assert dot * dot <= (x * y) * (x * y) by {
      assert (x * y) * (x * y) == (x * x) * (y * y);
    }
    ProductIsNotNegative(x, y);
    SquareOrder(dot, x * y);
    assert (x + y) * (x + y) == x * x + y * y + 2.0 * (x * y);
    assert (x - y) * (x - y) == x * x + y * y - 2.0 * (x * y);
    SquareOrder(length, x + y);
    SquareOrder(x - y, length);
  }

  /** The scalar product of the ways from `a` and `b` to `q`. */
  lemma {:induction false} CosineLaw(a: Vec, b: Vec, q: Vec)
    returns (dot: real)
    ensures Across2(a, b) == Across2(a, q) + Across2(b, q) - 2.0 * dot
    ensures dot * dot <= Across2(a, q) * Across2(b, q)
  {
    hide *;
    var vx, vy, wx, wy := q.x - a.x, q.y - a.y, q.x - b.x, q.y - b.y;
    SquaredWays(a, q, vx, vy);
    SquaredWays(b, q, wx, wy);
    var ux, uy := b.x - a.x, b.y - a.y;
    SquaredWays(a, b, ux, uy);
    dot := CosineLawOf(ux, uy, vx, vy, wx, wy, Across2(a, q), Across2(b, q), Across2(a, b));
  }

  lemma {:induction false} SquaredWays(a: Vec, q: Vec, x: real, y: real)
    requires x == q.x - a.x && y == q.y - a.y
    ensures Across2(a, q) == x * x + y * y
  {
  }

  lemma {:induction false} CosineLawOf(ux: real, uy: real, vx: real, vy: real, wx: real, wy: real, v2: real, w2: real,
                                       l: real)
    returns (dot: real)
    requires v2 == vx * vx + vy * vy && w2 == wx * wx + wy * wy
    requires ux == vx - wx && uy == vy - wy && l == ux * ux + uy * uy
    ensures l == v2 + w2 - 2.0 * dot
    ensures dot * dot <= v2 * w2
  {
    dot := vx * wx + vy * wy;
    Lagrange(vx, vy, wx, wy);
    SquareIsNotNegative(vx * wy - vy * wx);
  }

  lemma {:induction false} Lagrange(vx: real, vy: real, wx: real, wy: real)
    ensures var dot, cross := vx * wx + vy * wy, vx * wy - vy * wx;
            dot * dot + cross * cross == (vx * vx + vy * vy) * (wx * wx + wy * wy)
  {
  }

  /** No point of the plane is nearer to both circles. */
  lemma {:induction false} NoPointIsNearer(sqrt: real -> real, a: Vec, r1: real, b: Vec, r2: real, q: Vec)
    requires IsSqrt(sqrt)
    ensures var least := LeastGap(sqrt, a, r1, b, r2);
            Gap(sqrt, a, r1, q) >= least || Gap(sqrt, b, r2, q) >= least
  {
    Triangle(sqrt, a, b, q);
    hide Distance;
  }

  /** On the line through the centres. */
  lemma {:induction false} OnLine(sqrt: real -> real, a: Vec, b: Vec, c: real, m: real)
    requires IsSqrt(sqrt) && m == Distance(sqrt, a, b) * c
    ensures var p := Offset(a, b, c, 0.0);
            Distance(sqrt, a, p) == Abs(m) && Distance(sqrt, b, p) == Abs(m - Distance(sqrt, a, b))
  {
    hide *;
    var p, length := Offset(a, b, c, 0.0), Distance(sqrt, a, b);
    OffsetDistances(a, b, c, 0.0);
    DistanceSquared(sqrt, a, b);
    DistanceSquared(sqrt, a, p);
    DistanceSquared(sqrt, b, p);
    Rooted(length, c, m, Distance(sqrt, a, p));
    Rooted(length, c - 1.0, m - length, Distance(sqrt, b, p));
  }

  lemma {:induction false} Rooted(length: real, c: real, m: real, d: real)
    requires m == length * c
    requires d >= 0.0 && d * d == (length * length) * (c * c + 0.0 * 0.0)
    ensures d == Abs(m)
  {
    assert m * m == (length * length) * (c * c);
    assert Abs(m) * Abs(m) == m * m;
    SquareOrder(d, Abs(m));
    SquareOrder(Abs(m), d);
  }

  /** The single point of two circles that do not meet. */
  function Nearest(sqrt: real -> real, a: Vec, r1: real, b: Vec, r2: real): Vec {
    Intersections(sqrt, a, r1, b, r2)[0]
  }

  lemma {:induction false} SingleIsOffset(a: Vec, b: Vec, lenI: real, s: real, c: real)
    requires c == (1.0 + lenI * s) / 2.0
    ensures Single(a, b, lenI, s) == Offset(a, b, c, 0.0)
  {
    ShiftedIs(a.x, b.x, lenI, s, c);
    ShiftedIs(a.y, b.y, lenI, s, c);
    hide *;
    SingleIs(a, b, lenI, s);
    OffsetIs(a, b, c, 0.0);
    assert a.x + (b.x - a.x) * c + (b.y - a.y) * 0.0 == a.x + (b.x - a.x) * c;
    assert a.y + (b.y - a.y) * c - (b.x - a.x) * 0.0 == a.y + (b.y - a.y) * c;
  }

  lemma {:induction false} SingleIs(a: Vec, b: Vec, lenI: real, s: real)
    ensures Single(a, b, lenI, s).x == Shifted(a.x, b.x, lenI, s)
    ensures Single(a, b, lenI, s).y == Shifted(a.y, b.y, lenI, s)
    ensures Single(a, b, lenI, s).z == 0.0
  {
  }

  lemma {:induction false} ShiftedIs(p: real, q: real, lenI: real, s: real, c: real)
    requires c == (1.0 + lenI * s) / 2.0
    ensures Shifted(p, q, lenI, s) == p + (q - p) * c
  {
    assert (q - p) * lenI * s == (q - p) * (lenI * s);
  }

  /** It is on the line through the centres. */
  lemma {:induction false} NearestOnLine(sqrt: real -> real, a: Vec, r1: real, b: Vec, r2: real)
    returns (c: real)
    requires IsSqrt(sqrt) && r1 >= 0.0 && r2 >= 0.0 && Across2(a, b) > 0.0 && !Meet(a, r1, b, r2)
    ensures Intersections(sqrt, a, r1, b, r2) == [Offset(a, b, c, 0.0)]
    ensures var length := Distance(sqrt, a, b);
            && length > 0.0
            && (if r1 + r2 < length then length * c == (length + (r1 - r2)) / 2.0 && Abs(r1 - r2) < length
                else length * c == (length - (r1 + r2)) / 2.0 && length <= Abs(r1 - r2))
  {
    hide Across2, Single, Offset, Crossing, Abs, Over;
    var length, l2 := Distance(sqrt, a, b), Across2(a, b);
    DistanceSquared(sqrt, a, b);
    Apart(length, l2, r1, r2);
    var lenI := Over(1.0, length);
    var s := if r1 + r2 < length then r1 - r2 else -(r1 + r2);
    c := (1.0 + lenI * s) / 2.0;
    SingleIsOffset(a, b, lenI, s, c);
    Unit(length, s, c);
  }

  lemma {:induction false} Unit(length: real, s: real, c: real)
    requires length > 0.0 && c == (1.0 + Over(1.0, length) * s) / 2.0
    ensures length * c == (length + s) / 2.0
  {
    var lenI := Over(1.0, length);
    assert length * lenI == 1.0;
    assert length * (lenI * s) == s;
  }

  lemma {:induction false} Apart(length: real, l2: real, r1: real, r2: real)
    requires length >= 0.0 && length * length == l2 && l2 > 0.0 && r1 >= 0.0 && r2 >= 0.0
    requires !((r1 - r2) * (r1 - r2) < l2 <= (r1 + r2) * (r1 + r2))
    ensures length > 0.0
    ensures if r1 + r2 < length
            then !(l2 <= (r1 - r2) * (r1 - r2)) && (r1 + r2) * (r1 + r2) < l2 && Abs(r1 - r2) < length
            else l2 <= (r1 - r2) * (r1 - r2) && length <= Abs(r1 - r2)
  {
    var d := Abs(r1 - r2);
    assert d * d == (r1 - r2) * (r1 - r2);
    hide *;
    assert 0.0 <= d <= r1 + r2 by {
      AbsBounds(r1, r2);
    }
    Compare(length, r1 + r2);
    Compare(length, d);
  }

  lemma {:induction false} AbsBounds(r1: real, r2: real)
    requires r1 >= 0.0 && r2 >= 0.0
    ensures 0.0 <= Abs(r1 - r2) <= r1 + r2
  {
  }

  lemma {:induction false} Compare(x: real, y: real)
    requires x >= 0.0 && y >= 0.0
    ensures x < y <==> x * x < y * y
    ensures x <= y <==> x * x <= y * y
  {
    if x * x <= y * y {
      SquareOrder(x, y);
    }
    if y * y <= x * x {
      SquareOrder(y, x);
    }
    if x == y {
      assert x * x == y * y;
    }
  }

  /** The point has equal gaps to both circles.  They are the least possible when the circles are apart, but
      when one circle is inside the other only if the first circle is the inner one. */
  lemma {:induction false} NearestExactly(sqrt: real -> real, a: Vec, r1: real, b: Vec, r2: real)
    requires IsSqrt(sqrt) && r1 >= 0.0 && r2 >= 0.0 && Across2(a, b) > 0.0 && !Meet(a, r1, b, r2)
    ensures var p, least := Nearest(sqrt, a, r1, b, r2), LeastGap(sqrt, a, r1, b, r2);
            && |Intersections(sqrt, a, r1, b, r2)| == 1
            && Gap(sqrt, a, r1, p) == Gap(sqrt, b, r2, p) >= least
            && (Gap(sqrt, a, r1, p) == least <==> r1 + r2 < Distance(sqrt, a, b) || r1 <= r2)
  {
    var length := Distance(sqrt, a, b);
    var c := NearestOnLine(sqrt, a, r1, b, r2);
    OnLine(sqrt, a, b, c, length * c);
    hide Distance, Intersections, Offset, Across2;
  }
}
