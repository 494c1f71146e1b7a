/** What takes the place of the common points of three spheres when some two of them do not meet:
    coordinates-calculator/src/main/java/pl/indoornavi/coordinatescalculator/shared/IntersectionsCalculator.java. */
module PlanarPoints {
  import opened Geometry
  import opened Spheres

  /** In the plane of the three centres. */
  predicate InPlane(q: Vec, p1: Vec, p2: Vec, p3: Vec) {
    Dot(Minus(q, p1), Cross(Minus(p2, p1), Minus(p3, p1))) == 0.0
  }

  function Gap3(sqrt: real -> real, p: Vec, r: real, q: Vec): real {
    Abs(Norm(sqrt, Minus(q, p)) - r)
  }

  /** Half the width of the gap between two spheres apart, or of the narrowest part between nested ones. */
  function LeastGap3(d: real, r1: real, r2: real): real {
    if r1 + r2 < d then (d - (r1 + r2)) / 2.0 else (Abs(r1 - r2) - d) / 2.0
  }

  // ---------------------------------------------------------------------------
  // Points given by a distance along the line of two centres, and a way across.

  lemma {:induction false} SumLength(a: Vec, b: Vec)
    requires Dot(b, a) == 0.0
    ensures Dot(Plus(a, b), Plus(a, b)) == Dot(a, a) + Dot(b, b)
  {
    hide *;
    DotPlus(a, b, Plus(a, b));
    DotSymmetric(a, Plus(a, b));
    DotSymmetric(b, Plus(a, b));
    DotPlus(a, b, a);
    DotPlus(a, b, b);
    DotSymmetric(a, b);
  }

  lemma {:induction false} AlongLength(e: Vec, m: real, t: Vec)
    requires Dot(e, e) == 1.0 && Dot(t, e) == 0.0
    ensures Dot(Plus(Scale(e, m), t), Plus(Scale(e, m), t)) == m * m + Dot(t, t)
  {
    hide *;
    DotScale(e, m, Scale(e, m));
    DotSymmetric(e, Scale(e, m));
    DotScale(e, m, e);
    DotSymmetric(t, Scale(e, m));
    DotScale(e, m, t);
    DotSymmetric(e, t);
    SumLength(Scale(e, m), t);
  }

  lemma {:induction false} FromSecond(q: Vec, p1: Vec, p2: Vec, e: Vec, d: real, m: real, t: Vec)
    requires Minus(q, p1) == Plus(Scale(e, m), t) && Minus(p2, p1) == Scale(e, d)
    ensures Minus(q, p2) == Plus(Scale(e, m - d), t)
  {
    Shift(q.x, p1.x, p2.x, e.x, d, m, t.x);
    Shift(q.y, p1.y, p2.y, e.y, d, m, t.y);
    Shift(q.z, p1.z, p2.z, e.z, d, m, t.z);
  }

  lemma {:induction false} Shift(q: real, p1: real, p2: real, e: real, d: real, m: real, t: real)
    requires q - p1 == m * e + t && p2 - p1 == d * e
    ensures q - p2 == (m - d) * e + t
  {
    assert (m - d) * e == m * e - d * e;
  }

  lemma {:induction false} PointShape(q: Vec, p1: Vec, p2: Vec, e: Vec, d: real, m: real, t: Vec)
    requires Dot(e, e) == 1.0 && Dot(t, e) == 0.0
    requires Minus(q, p1) == Plus(Scale(e, m), t) && Minus(p2, p1) == Scale(e, d)
    ensures Dist2(q, p1) == m * m + Dot(t, t)
    ensures Dist2(q, p2) == (m - d) * (m - d) + Dot(t, t)
  {
    FromSecond(q, p1, p2, e, d, m, t);
    hide Dot, Minus, Plus, Scale;
    AlongLength(e, m, t);
    AlongLength(e, m - d, t);
  }

  /** The line from the first centre to the second. */
  lemma {:induction false} LineOf(sqrt: real -> real, p1: Vec, p2: Vec)
    returns (e: Vec, d: real)
    requires IsSqrt(sqrt) && Dist2(p1, p2) > 0.0
    ensures e == Spheres.Unit(sqrt, Minus(p2, p1)) && d == Norm(sqrt, Minus(p1, p2)) == Norm(sqrt, Minus(p2, p1))
    ensures d > 0.0 && d * d == Dist2(p1, p2)
    ensures Dot(e, e) == 1.0 && Minus(p2, p1) == Scale(e, d)
  {
    Turned(p1, p2);
    assert Dist2(p1, p2) == Dot(Minus(p1, p2), Minus(p1, p2));
    e := Spheres.Unit(sqrt, Minus(p2, p1));
    hide Spheres.Unit, Dot, Minus, IsSqrt;
    d := UnitVector(sqrt, Minus(p2, p1));
  }

  lemma {:induction false} Turned(p1: Vec, p2: Vec)
    ensures Dot(Minus(p1, p2), Minus(p1, p2)) == Dot(Minus(p2, p1), Minus(p2, p1))
  {
    hide *;
    DifferenceOf(p1, p2);
    DotParts(Minus(p1, p2), Minus(p1, p2));
    DotParts(Minus(p2, p1), Minus(p2, p1));
    SquareOfNegated(p1.x - p2.x);
    SquareOfNegated(p1.y - p2.y);
    SquareOfNegated(p1.z - p2.z);
  }

  lemma {:induction false} DifferenceOf(p: Vec, q: Vec)
    ensures var d, t := Minus(p, q), Minus(q, p);
            && d.x == p.x - q.x && d.y == p.y - q.y && d.z == p.z - q.z
            && t.x == -(p.x - q.x) && t.y == -(p.y - q.y) && t.z == -(p.z - q.z)
  {
  }

  // ---------------------------------------------------------------------------
  // Two spheres that meet: Heron's formula.

  lemma {:induction false} HeronProduct(d: real, r1: real, r2: real)
    ensures var p, foot := 0.5 * (r1 + r2 + d), d * d + r1 * r1 - r2 * r2;
            16.0 * (p * (p - r1) * (p - r2) * (p - d)) == 4.0 * ((d * r1) * (d * r1)) - foot * foot
  {
    var p, s, t := 0.5 * (r1 + r2 + d), r1 + d, r1 - d;
    assert 4.0 * (p * (p - r2)) == s * s - r2 * r2;
    assert 4.0 * ((p - r1) * (p - d)) == r2 * r2 - t * t;
    var a, b := p * (p - r2), (p - r1) * (p - d);
    assert p * (p - r1) * (p - r2) * (p - d) == a * b;
    assert 16.0 * (a * b) == (4.0 * a) * (4.0 * b);
    var foot, twice := d * d + r1 * r1 - r2 * r2, 2.0 * (d * r1);
    assert s * s - r2 * r2 == foot + twice;
    assert r2 * r2 - t * t == twice - foot;
    assert (foot + twice) * (twice - foot) == twice * twice - foot * foot;
  }

  lemma {:induction false} HeronSign(d: real, r1: real, r2: real)
    requires d >= 0.0 && r1 >= 0.0 && r2 >= 0.0 && SpheresIntersect(d, r1, r2)
    ensures var p := 0.5 * (r1 + r2 + d); p * (p - r1) * (p - r2) * (p - d) >= 0.0
  {
    var p := 0.5 * (r1 + r2 + d);
    assert p >= 0.0 && p - r1 >= 0.0 && p - r2 >= 0.0 && p - d >= 0.0;
    ProductIsNotNegative(p, p - r1);
    ProductIsNotNegative(p * (p - r1), p - r2);
    ProductIsNotNegative(p * (p - r1) * (p - r2), p - d);
  }

  /** The distance taken for the way to the middle is the absolute value of the right one. */
  lemma {:induction false} HeronFoot(sqrt: real -> real, d: real, r1: real, r2: real)
    returns (h: real, m: real)
    requires IsSqrt(sqrt) && d > 0.0 && r1 >= 0.0 && r2 >= 0.0 && SpheresIntersect(d, r1, r2)
    ensures h == HeronHeight(sqrt, d, r1, r2) && m == ToMiddle(sqrt, r1, h)
    ensures m >= 0.0 && m * m + h * h == r1 * r1
    ensures 2.0 * (d * m) == Abs(d * d + r1 * r1 - r2 * r2)
  {
    hide *;
    h := HeronHeight(sqrt, d, r1, r2);
    var product, foot := HeronRoot(sqrt, d, r1, r2);
    m := FootFrom(sqrt, d, r1, h, sqrt(product), product, foot);
  }

  lemma {:induction false} ToMiddleIs(sqrt: real -> real, r1: real, h: real, square: real)
    requires square == r1 * r1 - h * h
    ensures ToMiddle(sqrt, r1, h) == sqrt(square)
  {
  }

  lemma {:induction false} FootFrom(
      sqrt: real -> real, d: real, r1: real, h: real, root: real, product: real, foot: real)
    returns (m: real)
    requires IsSqrt(sqrt) && d > 0.0 && d * h == 2.0 * root && root * root == product
    requires 16.0 * product == 4.0 * ((d * r1) * (d * r1)) - foot * foot
    ensures m == ToMiddle(sqrt, r1, h) && m >= 0.0 && m * m + h * h == r1 * r1
    ensures 2.0 * (d * m) == Abs(foot)
  {
    hide *;
    var square := r1 * r1 - h * h;
    FootSquare(d, r1, h, root, product, foot, square);
    RootSquared(sqrt, square);
    m := ToMiddle(sqrt, r1, h);
    ToMiddleIs(sqrt, r1, h, square);
    FootLength(d, m, square, foot);
  }

  lemma {:induction false} HeronRoot(sqrt: real -> real, d: real, r1: real, r2: real)
    returns (product: real, foot: real)
    requires IsSqrt(sqrt) && d > 0.0 && r1 >= 0.0 && r2 >= 0.0 && SpheresIntersect(d, r1, r2)
    ensures foot == d * d + r1 * r1 - r2 * r2 && 16.0 * product == 4.0 * ((d * r1) * (d * r1)) - foot * foot
    ensures sqrt(product) * sqrt(product) == product && d * HeronHeight(sqrt, d, r1, r2) == 2.0 * sqrt(product)
  {
    var p := 0.5 * (r1 + r2 + d);
    product, foot := p * (p - r1) * (p - r2) * (p - d), d * d + r1 * r1 - r2 * r2;
    hide *;
    HeronProduct(d, r1, r2);
    HeronSign(d, r1, r2);
    HeightIs(sqrt, d, r1, r2, product);
    RootSquared(sqrt, product);
  }

  lemma {:induction false} HeightIs(sqrt: real -> real, d: real, r1: real, r2: real, product: real)
    requires d > 0.0
    requires var p := 0.5 * (r1 + r2 + d); product == p * (p - r1) * (p - r2) * (p - d)
    ensures d * HeronHeight(sqrt, d, r1, r2) == 2.0 * sqrt(product)
  {
    assert HeronHeight(sqrt, d, r1, r2) == Over(2.0 * sqrt(product), d);
    hide HeronHeight;
    OverTimes(2.0 * sqrt(product), d);
  }

  lemma {:induction false} OverTimes(a: real, d: real)
    requires d > 0.0
    ensures d * Over(a, d) == a
  {
  }

  lemma {:induction false} FootSquare(
      d: real, r1: real, h: real, root: real, product: real, foot: real, square: real)
    requires d > 0.0 && d * h == 2.0 * root && root * root == product && square == r1 * r1 - h * h
    requires 16.0 * product == 4.0 * ((d * r1) * (d * r1)) - foot * foot
    ensures square >= 0.0 && 4.0 * (d * d * square) == foot * foot
  {
    var dd, hh, rr := d * d, h * h, r1 * r1;
    ProductSquare(d, h);
    ProductSquare(d, r1);
    var x := d * h;
    assert x * x == 4.0 * product;
    var t, f := dd * square, foot * foot;
    assert t == dd * rr - dd * hh;
    assert 4.0 * t == f;
    SquareIsNotNegative(foot);
    SquarePositive(d, dd);
    NotNegativeBy(dd, square, t);
  }

  lemma {:induction false} SquarePositive(d: real, dd: real)
    requires d > 0.0 && dd == d * d
    ensures dd > 0.0
  {
    SquareIsNotNegative(d);
    if d * d == 0.0 {
      ZeroSquare(d);
    }
  }

  lemma {:induction false} ProductSquare(x: real, y: real)
    ensures (x * y) * (x * y) == x * x * (y * y)
  {
  }

  lemma {:induction false} NotNegativeBy(k: real, x: real, f: real)
    requires k > 0.0 && f >= 0.0 && k * x == f
    ensures x >= 0.0
  {
    if x < 0.0 {
      ProductIsPositive(k, -x);
    }
  }

  lemma {:induction false} FootLength(d: real, m: real, square: real, foot: real)
    requires d > 0.0 && m >= 0.0 && m * m == square && 4.0 * (d * d * square) == foot * foot
    ensures 2.0 * (d * m) == Abs(foot)
  {
    var x := 2.0 * (d * m);
    ProductIsNotNegative(d, m);
    ProductSquare(d, m);
    assert x * x == 4.0 * ((d * m) * (d * m));
    assert Abs(foot) * Abs(foot) == foot * foot;
    SquareOrder(x, Abs(foot));
    SquareOrder(Abs(foot), x);
  }

  // ---------------------------------------------------------------------------
  // The pair of points.

  /** A pair point, at the distance `m` along the line and `k` times the direction across. */
  lemma {:induction false} PairAre(sqrt: real -> real, p1: Vec, r1: real, p2: Vec, r2: real, p3: Vec)
    requires SpheresIntersect(Norm(sqrt, Minus(p1, p2)), r1, r2)
    ensures var v := Minus(p1, p2);
            var d := Norm(sqrt, v);
            var h := HeronHeight(sqrt, d, r1, r2);
            var across := Cross(Cross(v, Minus(p1, p3)), v);
            var middle := Plus(p1, Scale(Spheres.Unit(sqrt, Minus(p2, p1)), ToMiddle(sqrt, r1, h)));
            var t := Scale(across, Over(h, Norm(sqrt, across)));
            TwoSpheres(sqrt, p1, r1, p2, r2, p3) == [Plus(middle, t), Minus(middle, t)]
  {
    hide Norm, Minus, Cross, Plus, Scale, Spheres.Unit, Over, PlanarMiddle, HeronHeight, ToMiddle, SpheresIntersect;
  }

  /** The direction across is normal to the line and to the normal of the plane. */
  lemma {:induction false} AcrossShape(p1: Vec, p2: Vec, p3: Vec)
    returns (normal: Vec, across: Vec)
    requires NotCollinear(p1, p2, p3)
    ensures normal == Cross(Minus(p2, p1), Minus(p3, p1)) == Cross(Minus(p1, p2), Minus(p1, p3))
    ensures across == Cross(normal, Minus(p1, p2))
    ensures Dot(across, across) > 0.0 && Dist2(p1, p2) > 0.0
    ensures Dot(across, Minus(p2, p1)) == 0.0 && Dot(across, normal) == 0.0 && Dot(Minus(p2, p1), normal) == 0.0
  {
    var u, v := Minus(p2, p1), Minus(p1, p2);
    normal := Cross(u, Minus(p3, p1));
    across := Cross(normal, v);
    SameNormal(p1, p2, p3);
    assert v == Scale(u, -1.0);
    assert Dist2(p1, p2) == Dot(v, v);
    assert !IsZero(normal);
    hide *;
    DotPositive(normal);
    CrossNormal(u, Minus(p3, p1));
    CrossNormal(normal, v);
    CrossLength(normal, v);
    DotScale(u, -1.0, normal);
    DotSymmetric(normal, v);
    DotSymmetric(normal, u);
    DotScale(u, -1.0, across);
    DotSymmetric(across, v);
    DotSymmetric(across, u);
    LineIsPositive(u, Minus(p3, p1));
    Turned(p1, p2);
    ProductIsPositive(Dot(normal, normal), Dot(v, v));
  }

  lemma {:induction false} SameNormal(p1: Vec, p2: Vec, p3: Vec)
    ensures Cross(Minus(p2, p1), Minus(p3, p1)) == Cross(Minus(p1, p2), Minus(p1, p3))
  {
    Opposite(p2.x - p1.x, p3.y - p1.y);
    Opposite(p2.x - p1.x, p3.z - p1.z);
    Opposite(p2.y - p1.y, p3.x - p1.x);
    Opposite(p2.y - p1.y, p3.z - p1.z);
    Opposite(p2.z - p1.z, p3.x - p1.x);
    Opposite(p2.z - p1.z, p3.y - p1.y);
  }

  lemma {:induction false} Opposite(x: real, y: real)
    ensures x * y == (-x) * (-y)
  {
  }

  lemma {:induction false} LineIsPositive(u: Vec, w: Vec)
    requires Dot(Cross(u, w), Cross(u, w)) > 0.0
    ensures Dot(u, u) > 0.0
  {
    hide *;
    CrossLength(u, w);
    DotPositive(u);
    SquareIsNotNegative(Dot(u, w));
  }

  lemma {:induction false} NormSquare(sqrt: real -> real, a: Vec)
    requires IsSqrt(sqrt) && Dot(a, a) > 0.0
    ensures Norm(sqrt, a) > 0.0 && Norm(sqrt, a) * Norm(sqrt, a) == Dot(a, a)
  {
    hide Dot;
  }

  lemma {:induction false} PairOffset(p1: Vec, a: Vec, b: Vec, k: real)
    ensures Minus(Plus(Plus(p1, a), Scale(b, k)), p1) == Plus(a, Scale(b, k))
    ensures Minus(Minus(Plus(p1, a), Scale(b, k)), p1) == Plus(a, Scale(b, -k))
  {
  }

  /** A vector on the line is normal to what the line is normal to. */
  lemma {:induction false} NormalToUnit(u: Vec, e: Vec, d: real, v: Vec)
    requires d > 0.0 && u == Scale(e, d) && Dot(u, v) == 0.0
    ensures Dot(e, v) == 0.0 && Dot(v, e) == 0.0
  {
    hide *;
    DotScale(e, d, v);
    DotSymmetric(e, v);
    SameFactor(d, Dot(e, v), 0.0);
  }

  lemma {:induction false} WayAcross(across: Vec, e: Vec, normal: Vec, s: real, h: real, n: real)
    requires Dot(across, e) == 0.0 && Dot(across, normal) == 0.0
    requires n * n == Dot(across, across) && (s * n == h || s * n == -h)
    ensures var t := Scale(across, s); Dot(t, e) == 0.0 && Dot(t, normal) == 0.0 && Dot(t, t) == h * h
  {
    hide *;
    DotScale(across, s, e);
    DotScale(across, s, normal);
    DotScale(across, s, Scale(across, s));
    DotSymmetric(across, Scale(across, s));
    DotScale(across, s, across);
    SquareOfNegated(h);
    ProductSquare(s, n);
    Twofold(s, Dot(across, across));
  }

  lemma {:induction false} Twofold(s: real, x: real)
    ensures s * (s * x) == s * s * x
  {
  }

  lemma {:induction false} StaysInPlane(q: Vec, p1: Vec, p2: Vec, p3: Vec, e: Vec, m: real, t: Vec)
    requires Minus(q, p1) == Plus(Scale(e, m), t)
    requires var normal := Cross(Minus(p2, p1), Minus(p3, p1)); Dot(e, normal) == 0.0 && Dot(t, normal) == 0.0
    ensures InPlane(q, p1, p2, p3)
  {
    var normal := Cross(Minus(p2, p1), Minus(p3, p1));
    hide Dot, Cross, Minus, Plus, Scale;
    DotPlus(Scale(e, m), t, normal);
    DotScale(e, m, normal);
  }

  lemma {:induction false} SecondExactly(d: real, m: real, h: real, r1: real, r2: real)
    requires m * m + h * h == r1 * r1 && 2.0 * (d * m) == Abs(d * d + r1 * r1 - r2 * r2)
    ensures (m - d) * (m - d) + h * h == r2 * r2 <==> d * d + r1 * r1 >= r2 * r2
  {
    assert (m - d) * (m - d) == m * m - 2.0 * (d * m) + d * d;
  }

  /** Both points of the pair lie in the plane of the centres and at the right distance from the first.  They do so
      from the second exactly if the foot of the height is not behind the first, which its distance ignores. */
  lemma {:induction false} PairExactly(sqrt: real -> real, p1: Vec, r1: real, p2: Vec, r2: real, p3: Vec, q: Vec)
    requires IsSqrt(sqrt) && NotCollinear(p1, p2, p3) && r1 >= 0.0 && r2 >= 0.0
    requires SpheresIntersect(Norm(sqrt, Minus(p1, p2)), r1, r2) && q in TwoSpheres(sqrt, p1, r1, p2, r2, p3)
    ensures InPlane(q, p1, p2, p3) && Dist2(q, p1) == r1 * r1
    ensures Dist2(q, p2) == r2 * r2 <==> Dist2(p1, p2) + r1 * r1 >= r2 * r2
  {
    hide *;
    var normal, across := AcrossShape(p1, p2, p3);
    var e, d := LineOf(sqrt, p1, p2);
    var h, m := HeronFoot(sqrt, d, r1, r2);
    PairAre(sqrt, p1, r1, p2, r2, p3);
    var n := Norm(sqrt, across);
    NormSquare(sqrt, across);
    var k := Over(h, n);
    OverTimes(h, n);
    PairOffset(p1, Scale(e, m), across, k);
    var middle, t := Plus(p1, Scale(e, m)), Scale(across, k);
    assert TwoSpheres(sqrt, p1, r1, p2, r2, p3) == [Plus(middle, t), Minus(middle, t)];
    assert q == Plus(middle, t) || q == Minus(middle, t);
    var s := if q == Plus(middle, t) then k else -k;
    assert Minus(q, p1) == Plus(Scale(e, m), Scale(across, s));
    DotSymmetric(Minus(p2, p1), across);
    NormalToUnit(Minus(p2, p1), e, d, across);
    NormalToUnit(Minus(p2, p1), e, d, normal);
    SignedProduct(n, k, s, h);
    WayAcross(across, e, normal, s, h, n);
    PointShape(q, p1, p2, e, d, m, Scale(across, s));
    StaysInPlane(q, p1, p2, p3, e, m, Scale(across, s));
    SecondExactly(d, m, h, r1, r2);
  }

  lemma {:induction false} SignedProduct(n: real, k: real, s: real, h: real)
    requires n * k == h && (s == k || s == -k)
    ensures s * n == h || s * n == -h
  {
  }

  // ---------------------------------------------------------------------------
  // The single point.

  const ORIGIN := Vec(0.0, 0.0, 0.0)

  /** The coordinate of the point between two spheres on the line of their centres. */
  function MiddleCoordinate(d: real, r1: real, r2: real): real {
    (r1 + d + (if d > r1 && d > r2 then -r2 else r2)) / 2.0
  }

  lemma {:induction false} MiddleIs(sqrt: real -> real, p1: Vec, r1: real, p2: Vec, r2: real, e: Vec, d: real)
    requires e == Spheres.Unit(sqrt, Minus(p2, p1)) && d == Norm(sqrt, Minus(p2, p1)) && Minus(p2, p1) == Scale(e, d)
    ensures Minus(PlanarMiddle(sqrt, p1, r1, p2, r2), p1) == Plus(Scale(e, MiddleCoordinate(d, r1, r2)), ORIGIN)
  {
    var far, m := if d > r1 && d > r2 then -r2 else r2, MiddleCoordinate(d, r1, r2);
    assert 2.0 * m == r1 + d + far;
    hide *;
    var q := MiddleParts(sqrt, p1, r1, p2, r2, e, d, far);
    HalfWay(p1, p2, e, d, r1, far, m, q);
  }

  lemma {:induction false} MiddleParts(
      sqrt: real -> real, p1: Vec, r1: real, p2: Vec, r2: real, e: Vec, d: real, far: real)
    returns (q: Vec)
    requires e == Spheres.Unit(sqrt, Minus(p2, p1)) && d == Norm(sqrt, Minus(p2, p1))
    requires far == if d > r1 && d > r2 then -r2 else r2
    ensures q == PlanarMiddle(sqrt, p1, r1, p2, r2)
    ensures q.x == 0.5 * (p1.x + r1 * e.x) + 0.5 * (p2.x + far * e.x)
    ensures q.y == 0.5 * (p1.y + r1 * e.y) + 0.5 * (p2.y + far * e.y)
    ensures q.z == 0.5 * (p1.z + r1 * e.z) + 0.5 * (p2.z + far * e.z)
  {
    q := PlanarMiddle(sqrt, p1, r1, p2, r2);
    var first := Plus(p1, Scale(e, r1));
    var second := if d > r1 && d > r2 then Minus(p2, Scale(e, r2)) else Plus(p2, Scale(e, r2));
    assert q == Plus(Scale(first, 0.5), Scale(second, 0.5)) by {
      hide Spheres.Unit, Norm, Minus, Plus, Scale;
    }
    hide PlanarMiddle, Spheres.Unit, Norm;
    Negative(r2, e.x);
    Negative(r2, e.y);
    Negative(r2, e.z);
  }

  lemma {:induction false} Negative(r: real, x: real)
    ensures -r * x == -(r * x)
  {
  }

  lemma {:induction false} HalfWay(
      p1: Vec, p2: Vec, e: Vec, d: real, r1: real, far: real, m: real, q: Vec)
    requires Minus(p2, p1) == Scale(e, d) && 2.0 * m == r1 + d + far
    requires q.x == 0.5 * (p1.x + r1 * e.x) + 0.5 * (p2.x + far * e.x)
    requires q.y == 0.5 * (p1.y + r1 * e.y) + 0.5 * (p2.y + far * e.y)
    requires q.z == 0.5 * (p1.z + r1 * e.z) + 0.5 * (p2.z + far * e.z)
    ensures Minus(q, p1) == Plus(Scale(e, m), ORIGIN)
  {
    HalfWayIn(p1.x, p2.x, e.x, d, r1, far, m, q.x);
    HalfWayIn(p1.y, p2.y, e.y, d, r1, far, m, q.y);
    HalfWayIn(p1.z, p2.z, e.z, d, r1, far, m, q.z);
  }

  lemma {:induction false} HalfWayIn(
      p1: real, p2: real, e: real, d: real, r1: real, far: real, m: real, q: real)
    requires p2 - p1 == d * e && q == 0.5 * (p1 + r1 * e) + 0.5 * (p2 + far * e) && 2.0 * m == r1 + d + far
    ensures q - p1 == m * e
  {
    assert (2.0 * m) * e == r1 * e + d * e + far * e;
  }

  lemma {:induction false} RootOfSquare(sqrt: real -> real, x: real, square: real)
    requires IsSqrt(sqrt) && square == x * x
    ensures sqrt(square) == Abs(x)
  {
    SquareIsNotNegative(x);
    RootSquared(sqrt, square);
    assert Abs(x) * Abs(x) == square;
    var root := sqrt(square);
    hide IsSqrt;
    SquareOrder(root, Abs(x));
    SquareOrder(Abs(x), root);
  }

  /** On the line of the centres, at the coordinate `m`. */
  lemma {:induction false} OnLine3(sqrt: real -> real, p1: Vec, p2: Vec, q: Vec, e: Vec, d: real, m: real)
    requires IsSqrt(sqrt) && Dot(e, e) == 1.0
    requires Minus(q, p1) == Plus(Scale(e, m), ORIGIN) && Minus(p2, p1) == Scale(e, d)
    ensures Norm(sqrt, Minus(q, p1)) == Abs(m) && Norm(sqrt, Minus(q, p2)) == Abs(m - d)
  {
    hide *;
    OriginIs(e);
    NormOfDifference(sqrt, q, p1);
    NormOfDifference(sqrt, q, p2);
    PointShape(q, p1, p2, e, d, m, ORIGIN);
    RootOfSquare(sqrt, m, Dist2(q, p1));
    RootOfSquare(sqrt, m - d, Dist2(q, p2));
  }

  lemma {:induction false} OriginIs(e: Vec)
    ensures Dot(ORIGIN, e) == 0.0 && Dot(ORIGIN, ORIGIN) == 0.0
  {
  }

  lemma {:induction false} NormOfDifference(sqrt: real -> real, q: Vec, p: Vec)
    ensures Norm(sqrt, Minus(q, p)) == sqrt(Dist2(q, p))
  {
    hide Dot, Minus;
  }

  /** The point between two spheres that do not meet has equal gaps to both.  They are the least possible when the
      spheres are apart, but when one is inside the other only if the second is the inner one. */
  lemma {:induction false} MiddleExactly(sqrt: real -> real, p1: Vec, r1: real, p2: Vec, r2: real)
    requires IsSqrt(sqrt) && Dist2(p1, p2) > 0.0 && r1 >= 0.0 && r2 >= 0.0
    requires !SpheresIntersect(Norm(sqrt, Minus(p1, p2)), r1, r2)
    ensures var q, d := PlanarMiddle(sqrt, p1, r1, p2, r2), Norm(sqrt, Minus(p1, p2));
            var least := LeastGap3(d, r1, r2);
            && Gap3(sqrt, p1, r1, q) == Gap3(sqrt, p2, r2, q) >= least
            && (Gap3(sqrt, p1, r1, q) == least <==> r1 + r2 < d || r2 <= r1)
  {
    hide Dist2, Norm, Minus, Dot, Scale, Plus, PlanarMiddle, IsSqrt;
    var q := PlanarMiddle(sqrt, p1, r1, p2, r2);
    var e, d := LineOf(sqrt, p1, p2);
    MiddleIs(sqrt, p1, r1, p2, r2, e, d);
    OnLine3(sqrt, p1, p2, q, e, d, MiddleCoordinate(d, r1, r2));
    MiddleGaps(d, r1, r2);
    hide MiddleCoordinate, SpheresIntersect, LeastGap3, Abs;
    assert Gap3(sqrt, p1, r1, q) == Abs(Abs(MiddleCoordinate(d, r1, r2)) - r1);
  }

  lemma {:induction false} MiddleGaps(d: real, r1: real, r2: real)
    requires d > 0.0 && r1 >= 0.0 && r2 >= 0.0 && !SpheresIntersect(d, r1, r2)
    ensures var m, least := MiddleCoordinate(d, r1, r2), LeastGap3(d, r1, r2);
            && Abs(Abs(m) - r1) == Abs(Abs(m - d) - r2) >= least
            && (Abs(Abs(m) - r1) == least <==> r1 + r2 < d || r2 <= r1)
  {
  }

  lemma {:induction false} NormSquared(sqrt: real -> real, a: Vec)
    requires IsSqrt(sqrt)
    ensures Norm(sqrt, a) >= 0.0 && Norm(sqrt, a) * Norm(sqrt, a) == Dot(a, a)
  {
    DotPositive(a);
    hide Dot;
  }

  lemma {:induction false} Triangle3(sqrt: real -> real, p1: Vec, p2: Vec, q: Vec)
    requires IsSqrt(sqrt)
    ensures var x, y, d := Norm(sqrt, Minus(q, p1)), Norm(sqrt, Minus(q, p2)), Norm(sqrt, Minus(p1, p2));
            d <= x + y && x - y <= d && y - x <= d
  {
    hide *;
    var a, b := Minus(q, p1), Minus(q, p2);
    Between(q, p1, p2);
    var x, y, d := Norm(sqrt, a), Norm(sqrt, b), Norm(sqrt, Minus(b, a));
    var dot := Dot(a, b);
    NormSquared(sqrt, a);
    NormSquared(sqrt, b);
    NormSquared(sqrt, Minus(b, a));
    CrossLength(a, b);
    DotPositive(Cross(a, b));
    DotMinus(b, a, Minus(b, a));
    DotSymmetric(b, Minus(b, a));
    DotSymmetric(a, Minus(b, a));
    DotMinus(b, a, b);
    DotMinus(b, a, a);
    DotSymmetric(b, a);
    Sides(x, y, d, dot);
  }

  lemma {:induction false} Between(q: Vec, p1: Vec, p2: Vec)
    ensures Minus(p1, p2) == Minus(Minus(q, p2), Minus(q, p1))
  {
  }

  lemma {:induction false} Sides(x: real, y: real, d: real, dot: real)
    requires x >= 0.0 && y >= 0.0 && d >= 0.0
    requires d * d == x * x + y * y - 2.0 * dot && dot * dot <= x * x * (y * y)
    ensures d <= x + y && x - y <= d && y - x <= d
  {
    ProductSquare(x, y);
    ProductIsNotNegative(x, y);
    SquareOrder(dot, x * y);
    assert (x + y) * (x + y) == x * x + y * y + 2.0 * (x * y);
    assert (x - y) * (x - y) == x * x + y * y - 2.0 * (x * y);
    SquareOrder(d, x + y);
    SquareOrder(x - y, d);
  }

  /** No point of space is nearer to both spheres. */
  lemma {:induction false} NoPointIsNearer3(sqrt: real -> real, p1: Vec, r1: real, p2: Vec, r2: real, q: Vec)
    requires IsSqrt(sqrt)
    ensures var least := LeastGap3(Norm(sqrt, Minus(p1, p2)), r1, r2);
            Gap3(sqrt, p1, r1, q) >= least || Gap3(sqrt, p2, r2, q) >= least
  {
    Triangle3(sqrt, p1, p2, q);
    hide Norm, Minus;
  }

  // ---------------------------------------------------------------------------
  // All points.

  /** What a point that comes from two of the spheres is: one of the pair, or the one between them. */
  predicate FromPair(sqrt: real -> real, p1: Vec, r1: real, p2: Vec, r2: real, p3: Vec, q: Vec) {
    var d := Norm(sqrt, Minus(p1, p2));
    if SpheresIntersect(d, r1, r2) then
      && InPlane(q, p1, p2, p3) && Dist2(q, p1) == r1 * r1
      && (Dist2(q, p2) == r2 * r2 <==> Dist2(p1, p2) + r1 * r1 >= r2 * r2)
    else
      && Gap3(sqrt, p1, r1, q) == Gap3(sqrt, p2, r2, q) >= LeastGap3(d, r1, r2)
      && (Gap3(sqrt, p1, r1, q) == LeastGap3(d, r1, r2) <==> r1 + r2 < d || r2 <= r1)
  }

  lemma {:induction false} TwoSpheresExactly(
      sqrt: real -> real, p1: Vec, r1: real, p2: Vec, r2: real, p3: Vec, q: Vec)
    requires IsSqrt(sqrt) && NotCollinear(p1, p2, p3) && r1 >= 0.0 && r2 >= 0.0
    requires q in TwoSpheres(sqrt, p1, r1, p2, r2, p3)
    ensures FromPair(sqrt, p1, r1, p2, r2, p3, q)
  {
    if SpheresIntersect(Norm(sqrt, Minus(p1, p2)), r1, r2) {
      hide TwoSpheres, Norm, Minus, Dist2, InPlane, SpheresIntersect;
      PairExactly(sqrt, p1, r1, p2, r2, p3, q);
    } else {
      assert q == PlanarMiddle(sqrt, p1, r1, p2, r2);
      hide TwoSpheres, Norm, Minus, Dist2, InPlane, SpheresIntersect, PlanarMiddle, Gap3, LeastGap3;
      var normal, across := AcrossShape(p1, p2, p3);
      MiddleExactly(sqrt, p1, r1, p2, r2);
    }
  }

  lemma {:induction false} AnyOrder(p1: Vec, p2: Vec, p3: Vec)
    requires NotCollinear(p1, p2, p3)
    ensures NotCollinear(p1, p3, p2) && NotCollinear(p2, p3, p1)
  {
    var u, w := Minus(p2, p1), Minus(p3, p1);
    var a, b := Minus(p3, p2), Minus(p1, p2);
    assert a == Vec(w.x - u.x, w.y - u.y, w.z - u.z) && b == Vec(-u.x, -u.y, -u.z);
    var n := Cross(u, w);
    assert Cross(w, u) == Vec(-n.x, -n.y, -n.z);
    assert Cross(a, b) == n;
  }

  /** Every point returned.  Where all spheres meet in pairs, it is on all three exactly if the squared height is not
      negative; otherwise it comes from two of the spheres. */
  lemma {:induction false} EveryPoint(
      sqrt: real -> real, p1: Vec, r1: real, p2: Vec, r2: real, p3: Vec, r3: real, q: Vec)
    requires IsSqrt(sqrt) && NotCollinear(p1, p2, p3) && r1 >= 0.0 && r2 >= 0.0 && r3 >= 0.0
    requires q in Intersections3d(sqrt, p1, r1, p2, r2, p3, r3)
    ensures if || !SpheresIntersect(Norm(sqrt, Minus(p1, p2)), r1, r2)
               || !SpheresIntersect(Norm(sqrt, Minus(p1, p3)), r1, r3)
               || !SpheresIntersect(Norm(sqrt, Minus(p2, p3)), r2, r3)
            then || FromPair(sqrt, p1, r1, p2, r2, p3, q)
                 || FromPair(sqrt, p1, r1, p3, r3, p2, q)
                 || FromPair(sqrt, p2, r2, p3, r3, p1, q)
            else OnAllThree(q, p1, r1, p2, r2, p3, r3)
                 <==> HeightSquare(FrameOf(sqrt, p1, p2, p3), r1, r2, r3) >= 0.0
  {
    AnyOrder(p1, p2, p3);
    hide TwoSpheres, ThreeSpheres, Norm, Minus, Dist2, SpheresIntersect, FromPair, OnAllThree, HeightSquare, FrameOf;
    hide NotCollinear;
    if q in TwoSpheres(sqrt, p1, r1, p2, r2, p3) {
      TwoSpheresExactly(sqrt, p1, r1, p2, r2, p3, q);
    }
    if q in TwoSpheres(sqrt, p1, r1, p3, r3, p2) {
      TwoSpheresExactly(sqrt, p1, r1, p3, r3, p2, q);
    }
    if q in TwoSpheres(sqrt, p2, r2, p3, r3, p1) {
      TwoSpheresExactly(sqrt, p2, r2, p3, r3, p1, q);
    }
    SpheresMeetExactly(sqrt, p1, r1, p2, r2, p3, r3);
  }
}
