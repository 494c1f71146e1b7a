/** Three spheres around anchors, and what takes the place of their common points when they have none:
    coordinates-calculator/src/main/java/pl/indoornavi/coordinatescalculator/shared/IntersectionsCalculator.java. */
module Spheres {
  import opened Geometry

  /** The axes of the plane through three centres: `ex` towards the second, `ey` across in the plane, `ez`
      normal to it; `d` is the second centre on the first axis, (`i`, `j`) the third in the plane. */
  datatype Frame = Frame(ex: Vec, ey: Vec, ez: Vec, d: real, i: real, j: real)

  function Unit(sqrt: real -> real, a: Vec): Vec {
    Scale(a, Over(1.0, Norm(sqrt, a)))
  }

  function FrameOf(sqrt: real -> real, p1: Vec, p2: Vec, p3: Vec): Frame {
    var ex := Unit(sqrt, Minus(p2, p1));
    var i := Dot(ex, Minus(p3, p1));
    var ey := Unit(sqrt, Minus(Minus(p3, p1), Scale(ex, i)));
    Frame(ex, ey, Cross(ex, ey), Norm(sqrt, Minus(p2, p1)), i, Dot(ey, Minus(p3, p1)))
  }

  function XOf(f: Frame, r1: real, r2: real): real {
    Over(r1 * r1 - r2 * r2 + f.d * f.d, 2.0 * f.d)
  }

  function YOf(f: Frame, r1: real, r3: real, x: real): real {
    Over(r1 * r1 - r3 * r3 + f.i * f.i + f.j * f.j, 2.0 * f.j) - Over(f.i, f.j) * x
  }

  /** The square of the height over the plane, before it is cut off at zero. */
  function HeightSquare(f: Frame, r1: real, r2: real, r3: real): real {
    var x := XOf(f, r1, r2);
    var y := YOf(f, r1, r3, x);
    r1 * r1 - x * x - y * y
  }

  /** calculateThreeSpheresPlanarIntersections */
  function ThreeSpheres(sqrt: real -> real, p1: Vec, r1: real, p2: Vec, r2: real, p3: Vec, r3: real): (points: seq<Vec>)
    ensures |points| == 2
  {
    var f := FrameOf(sqrt, p1, p2, p3);
    var x := XOf(f, r1, r2);
    var y := YOf(f, r1, r3, x);
    var zz := HeightSquare(f, r1, r2, r3);
    var z := sqrt(if zz < 0.0 then 0.0 else zz);
    var p := Plus(p1, Plus(Scale(f.ex, x), Scale(f.ey, y)));
    [Plus(p, Scale(f.ez, z)), Minus(p, Scale(f.ez, z))]
  }

  predicate SpheresIntersect(d: real, r1: real, r2: real) {
    !(d > r1 + r2) && !(d < Abs(r1 - r2))
  }

  /** calculateTwoSpheresPlanarMiddle: between two spheres that do not intersect. */
  function PlanarMiddle(sqrt: real -> real, p1: Vec, r1: real, p2: Vec, r2: real): Vec {
    var versor, d := Unit(sqrt, Minus(p2, p1)), Norm(sqrt, Minus(p2, p1));
    var first := Plus(p1, Scale(versor, r1));
    var second := if d > r1 && d > r2 then Minus(p2, Scale(versor, r2)) else Plus(p2, Scale(versor, r2));
    Plus(Scale(first, 0.5), Scale(second, 0.5))
  }

  /** The height of the triangle with sides d, r1 and r2 over the first. */
  function HeronHeight(sqrt: real -> real, d: real, r1: real, r2: real): real {
    var p := 0.5 * (r1 + r2 + d);
    Over(2.0 * sqrt(p * (p - r1) * (p - r2) * (p - d)), d)
  }

  function ToMiddle(sqrt: real -> real, r1: real, h: real): real {
    sqrt(r1 * r1 - h * h)
  }

  /** calculateTwoSpheresPlanarIntersections, in the plane of the three centres. */
  function TwoSpheres(sqrt: real -> real, p1: Vec, r1: real, p2: Vec, r2: real, p3: Vec): (points: seq<Vec>)
    ensures |points| == if SpheresIntersect(Norm(sqrt, Minus(p1, p2)), r1, r2) then 2 else 1
  {
    var d := Norm(sqrt, Minus(p1, p2));
    if !SpheresIntersect(d, r1, r2) then [PlanarMiddle(sqrt, p1, r1, p2, r2)]
    else
      var h := HeronHeight(sqrt, d, r1, r2);
      var middle := Plus(p1, Scale(Unit(sqrt, Minus(p2, p1)), ToMiddle(sqrt, r1, h)));
      var planeDirection := Cross(Minus(p1, p2), Minus(p1, p3));
      var across := Cross(planeDirection, Minus(p1, p2));
      var vortho := Scale(across, Over(h, Norm(sqrt, across)));
      [Plus(middle, vortho), Minus(middle, vortho)]
  }

  /** getIntersections3d: two points, or between three and five when some two spheres do not intersect. */
  function Intersections3d(sqrt: real -> real, p1: Vec, r1: real, p2: Vec, r2: real, p3: Vec,
                           r3: real): (points: seq<Vec>)
    ensures 2 <= |points| <= 5
  {
    if !SpheresIntersect(Norm(sqrt, Minus(p1, p2)), r1, r2) || !SpheresIntersect(Norm(sqrt, Minus(p1, p3)), r1, r3)
       || !SpheresIntersect(Norm(sqrt, Minus(p2, p3)), r2, r3) then
      TwoSpheres(sqrt, p1, r1, p2, r2, p3) + TwoSpheres(sqrt, p1, r1, p3, r3, p2) + TwoSpheres(sqrt, p2, r2, p3, r3, p1)
    else ThreeSpheres(sqrt, p1, r1, p2, r2, p3, r3)
  }

  predicate OnAllThree(q: Vec, p1: Vec, r1: real, p2: Vec, r2: real, p3: Vec, r3: real) {
    Dist2(q, p1) == r1 * r1 && Dist2(q, p2) == r2 * r2 && Dist2(q, p3) == r3 * r3
  }

  predicate IsZero(a: Vec) {
    a.x == 0.0 && a.y == 0.0 && a.z == 0.0
  }

  predicate NotCollinear(p1: Vec, p2: Vec, p3: Vec) {
    !IsZero(Cross(Minus(p2, p1), Minus(p3, p1)))
  }

  // ---------------------------------------------------------------------------
  // Vector algebra.

  lemma {:induction false} DotScale(a: Vec, k: real, b: Vec)
    ensures Dot(Scale(a, k), b) == k * Dot(a, b)
  {
  }

  lemma {:induction false} DotPlus(a: Vec, b: Vec, c: Vec)
    ensures Dot(Plus(a, b), c) == Dot(a, c) + Dot(b, c)
  {
  }

  lemma {:induction false} DotMinus(a: Vec, b: Vec, c: Vec)
    ensures Dot(Minus(a, b), c) == Dot(a, c) - Dot(b, c)
  {
  }

  lemma {:induction false} DotSymmetric(a: Vec, b: Vec)
    ensures Dot(a, b) == Dot(b, a)
  {
  }

  lemma {:induction false} CrossNormal(a: Vec, b: Vec)
    ensures Dot(Cross(a, b), a) == 0.0 && Dot(Cross(a, b), b) == 0.0
  {
  }

  lemma {:induction false} CrossLength(a: Vec, b: Vec)
    ensures Dot(Cross(a, b), Cross(a, b)) == Dot(a, a) * Dot(b, b) - Dot(a, b) * Dot(a, b)
  {
  }

  /** (a x b) x v */
  lemma {:induction false} CrossTwice(a: Vec, b: Vec, v: Vec)
    ensures Cross(Cross(a, b), v) == Minus(Scale(b, Dot(a, v)), Scale(a, Dot(b, v)))
  {
    hide *;
    var c := Cross(a, b);
    CrossParts(a, b);
    CrossParts(c, v);
    DotParts(a, v);
    DotParts(b, v);
    DifferenceParts(b, Dot(a, v), a, Dot(b, v));
    TwiceParts(a.x, a.y, a.z, b.x, b.y, b.z, c.x, c.y, c.z, v.x, v.y, v.z, Dot(a, v), Dot(b, v));
  }

  lemma {:induction false} CrossParts(a: Vec, b: Vec)
    ensures Cross(a, b).x == a.y * b.z - a.z * b.y
    ensures Cross(a, b).y == -a.x * b.z + a.z * b.x
    ensures Cross(a, b).z == a.x * b.y - a.y * b.x
  {
  }

  lemma {:induction false} DotParts(a: Vec, b: Vec)
    ensures Dot(a, b) == a.x * b.x + a.y * b.y + a.z * b.z
  {
  }

  lemma {:induction false} DifferenceParts(a: Vec, s: real, b: Vec, t: real)
    ensures var d := Minus(Scale(a, s), Scale(b, t));
            d.x == s * a.x - t * b.x && d.y == s * a.y - t * b.y && d.z == s * a.z - t * b.z
  {
  }

  lemma {:induction false} TwiceParts(ax: real, ay: real, az: real, bx: real, by_: real, bz: real,
                                      cx: real, cy: real, cz: real, vx: real, vy: real, vz: real, s: real, t: real)
    requires cx == ay * bz - az * by_ && cy == -ax * bz + az * bx && cz == ax * by_ - ay * bx
    requires s == ax * vx + ay * vy + az * vz && t == bx * vx + by_ * vy + bz * vz
    ensures cy * vz - cz * vy == s * bx - t * ax
    ensures -cx * vz + cz * vx == s * by_ - t * ay
    ensures cx * vy - cy * vx == s * bz - t * az
  {
  }

  lemma {:induction false} DotPositive(a: Vec)
    ensures Dot(a, a) >= 0.0
    ensures Dot(a, a) == 0.0 ==> IsZero(a)
  {
    SquareIsNotNegative(a.x);
    SquareIsNotNegative(a.y);
    SquareIsNotNegative(a.z);
    if Dot(a, a) == 0.0 {
      ZeroSquare(a.x);
      ZeroSquare(a.y);
      ZeroSquare(a.z);
    }
  }

  lemma {:induction false} ZeroSquare(x: real)
    requires x * x == 0.0
    ensures x == 0.0
  {
    SquareOrder(x, 0.0);
  }

  // ---------------------------------------------------------------------------
  // The frame.

  predicate Orthonormal(f: Frame) {
    && Dot(f.ex, f.ex) == 1.0 && Dot(f.ey, f.ey) == 1.0 && Dot(f.ez, f.ez) == 1.0
    && Dot(f.ex, f.ey) == 0.0 && Dot(f.ez, f.ex) == 0.0 && Dot(f.ez, f.ey) == 0.0
  }

  lemma {:induction false} UnitVector(sqrt: real -> real, a: Vec)
    returns (n: real)
    requires IsSqrt(sqrt) && Dot(a, a) > 0.0
    ensures n == Norm(sqrt, a) && n > 0.0 && n * n == Dot(a, a)
    ensures Dot(Unit(sqrt, a), Unit(sqrt, a)) == 1.0
    ensures a == Scale(Unit(sqrt, a), n)
  {
    n := sqrt(Dot(a, a));
    var k := Over(1.0, n);
    assert n * n == Dot(a, a) && n != 0.0;
    assert k * n == 1.0;
    assert Unit(sqrt, a) == Scale(a, k);
    hide Unit, Norm, Dot, Over, IsSqrt;
    DotScale(a, k, Scale(a, k));
    DotSymmetric(a, Scale(a, k));
    DotScale(a, k, a);
    assert k * (k * (n * n)) == (k * n) * (k * n);
    ScaleBack(a, k, n);
  }

  lemma {:induction false} ScaleBack(a: Vec, k: real, n: real)
    requires k * n == 1.0
    ensures a == Scale(Scale(a, k), n)
  {
    assert n * (k * a.x) == (k * n) * a.x && n * (k * a.y) == (k * n) * a.y && n * (k * a.z) == (k * n) * a.z;
  }

  /** The frame is orthonormal, and the centres have the coordinates (d, 0) and (i, j) in it. */
  lemma {:induction false} FrameFits(sqrt: real -> real, p1: Vec, p2: Vec, p3: Vec)
    requires IsSqrt(sqrt) && NotCollinear(p1, p2, p3)
    ensures var f := FrameOf(sqrt, p1, p2, p3);
            && Orthonormal(f) && f.d > 0.0 && f.j > 0.0
            && Minus(p2, p1) == Scale(f.ex, f.d)
            && Minus(p3, p1) == Plus(Scale(f.ex, f.i), Scale(f.ey, f.j))
  {
    var f := FrameOf(sqrt, p1, p2, p3);
    var u, w := Minus(p2, p1), Minus(p3, p1);
    var e := Minus(w, Scale(f.ex, f.i));
    assert f.ex == Unit(sqrt, u) && f.ey == Unit(sqrt, e) && f.i == Dot(f.ex, w) && f.j == Dot(f.ey, w)
           && f.d == Norm(sqrt, u);
    assert f.ez == Cross(f.ex, f.ey);
    hide FrameOf, Unit, Norm, IsSqrt, Dot, Minus, Scale, Cross, Plus, Gram;
    NotCollinearSpans(p1, p2, p3);
    var d := UnitVector(sqrt, u);
    Rejection(f.ex, w, e, f.i);
    SpansRejection(u, w, e, f.ex, d, f.i);
    var n := UnitVector(sqrt, e);
    var ey := f.ey;
    DotSymmetric(e, f.ex);
    DotScale(ey, n, f.ex);
    DotSymmetric(f.ex, ey);
    assert Dot(ey, f.ex) == 0.0;
    RejectionLength(f.ex, ey, w, e, f.i, n);
    assert f.j == n;
    CrossNormal(f.ex, ey);
    CrossLength(f.ex, ey);
    RejectionBack(w, f.ex, f.i, ey, f.j);
  }

  /** The squared area of the parallelogram of two vectors. */
  function Gram(u: Vec, w: Vec): real {
    Dot(u, u) * Dot(w, w) - Dot(u, w) * Dot(u, w)
  }

  lemma {:induction false} NotCollinearSpans(p1: Vec, p2: Vec, p3: Vec)
    requires NotCollinear(p1, p2, p3)
    ensures var u, w := Minus(p2, p1), Minus(p3, p1);
            Dot(u, u) > 0.0 && Gram(u, w) > 0.0
  {
    var u, w := Minus(p2, p1), Minus(p3, p1);
    DotPositive(Cross(u, w));
    CrossLength(u, w);
    DotPositive(u);
    hide Dot, Minus, Cross;
    LengthForced(Dot(u, u), Dot(w, w), Dot(u, w));
  }

  lemma {:induction false} LengthForced(uu: real, ww: real, uw: real)
    requires uu >= 0.0 && uu * ww - uw * uw > 0.0
    ensures uu > 0.0
  {
    SquareIsNotNegative(uw);
    assert 0.0 * ww == 0.0;
  }

  /** What is left of `w` without its part along the unit vector `ex`. */
  lemma {:induction false} Rejection(ex: Vec, w: Vec, e: Vec, i: real)
    requires Dot(ex, ex) == 1.0 && i == Dot(ex, w) && e == Minus(w, Scale(ex, i))
    ensures Dot(e, ex) == 0.0 && Dot(e, e) == Dot(w, w) - i * i && Dot(e, w) == Dot(e, e)
  {
    hide *;
    DotMinus(w, Scale(ex, i), ex);
    DotScale(ex, i, ex);
    DotSymmetric(w, ex);
    DotMinus(w, Scale(ex, i), w);
    DotScale(ex, i, w);
    DotMinus(w, Scale(ex, i), e);
    DotScale(ex, i, e);
    DotSymmetric(ex, e);
    DotSymmetric(w, e);
  }

  lemma {:induction false} SpansRejection(u: Vec, w: Vec, e: Vec, ex: Vec, d: real, i: real)
    requires u == Scale(ex, d) && d > 0.0 && i == Dot(ex, w) && d * d == Dot(u, u) && Dot(e, e) == Dot(w, w) - i * i
    requires Gram(u, w) > 0.0
    ensures Dot(e, e) > 0.0
  {
    hide Dot, Scale, Minus;
    DotScale(ex, d, w);
    GramPositive(Dot(u, u), Dot(w, w), Dot(u, w), Dot(e, e), d, i);
  }

  lemma {:induction false} GramPositive(uu: real, ww: real, uw: real, ee: real, d: real, i: real)
    requires uu == d * d && uw == d * i && ee == ww - i * i && uu * ww - uw * uw > 0.0
    ensures ee > 0.0
  {
    assert uu * ww - uw * uw == (d * d) * ee;
    SquareIsNotNegative(d);
    if ee <= 0.0 {
      NotPositive(d * d, ee);
    }
  }

  lemma {:induction false} NotPositive(x: real, y: real)
    requires x >= 0.0 && y <= 0.0
    ensures x * y <= 0.0
  {
  }

  lemma {:induction false} RejectionLength(ex: Vec, ey: Vec, w: Vec, e: Vec, i: real, n: real)
    requires e == Scale(ey, n) && n > 0.0 && n * n == Dot(e, e) && Dot(e, w) == Dot(e, e)
    ensures Dot(ey, w) == n
  {
    hide *;
    DotScale(ey, n, w);
    var j := Dot(ey, w);
    assert n * j == n * n;
    assert n * (j - n) == 0.0;
  }

  lemma {:induction false} RejectionBack(w: Vec, ex: Vec, i: real, ey: Vec, j: real)
    requires Minus(w, Scale(ex, i)) == Scale(ey, j)
    ensures w == Plus(Scale(ex, i), Scale(ey, j))
  {
  }

  // ---------------------------------------------------------------------------
  // Points in the frame.

  function Combine(f: Frame, x: real, y: real, z: real): Vec {
    Plus(Plus(Scale(f.ex, x), Scale(f.ey, y)), Scale(f.ez, z))
  }

  /** The theorem of Pythagoras in the frame. */
  lemma {:induction false} CombineLength(f: Frame, x: real, y: real, z: real)
    requires Orthonormal(f)
    ensures Dot(Combine(f, x, y, z), Combine(f, x, y, z)) == x * x + y * y + z * z
  {
    hide *;
    var v := Combine(f, x, y, z);
    CombineDot(f, x, y, z, v);
    CombineParts(f, x, y, z);
    DotSymmetric(f.ex, v);
    DotSymmetric(f.ey, v);
    DotSymmetric(f.ez, v);
  }

  lemma {:induction false} CombineDot(f: Frame, x: real, y: real, z: real, b: Vec)
    ensures Dot(Combine(f, x, y, z), b) == x * Dot(f.ex, b) + y * Dot(f.ey, b) + z * Dot(f.ez, b)
  {
    hide Dot, Plus, Scale;
    DotPlus(Plus(Scale(f.ex, x), Scale(f.ey, y)), Scale(f.ez, z), b);
    DotPlus(Scale(f.ex, x), Scale(f.ey, y), b);
    DotScale(f.ex, x, b);
    DotScale(f.ey, y, b);
    DotScale(f.ez, z, b);
  }

  /** The parts of a combination along the axes. */
  lemma {:induction false} CombineParts(f: Frame, x: real, y: real, z: real)
    requires Orthonormal(f)
    ensures var v := Combine(f, x, y, z); Dot(v, f.ex) == x && Dot(v, f.ey) == y && Dot(v, f.ez) == z
  {
    hide Dot, Combine;
    CombineDot(f, x, y, z, f.ex);
    CombineDot(f, x, y, z, f.ey);
    CombineDot(f, x, y, z, f.ez);
    DotSymmetric(f.ex, f.ey);
    DotSymmetric(f.ez, f.ex);
    DotSymmetric(f.ez, f.ey);
  }

  lemma {:induction false} CombineMinus(f: Frame, x: real, y: real, z: real, i: real, j: real)
    ensures Minus(Combine(f, x, y, z), Plus(Scale(f.ex, i), Scale(f.ey, j))) == Combine(f, x - i, y - j, z)
  {
    var l, r := Minus(Combine(f, x, y, z), Plus(Scale(f.ex, i), Scale(f.ey, j))), Combine(f, x - i, y - j, z);
    assert l.x == r.x;
    assert l.y == r.y;
    assert l.z == r.z;
  }

  /** Distances from the three centres, in coordinates. */
  lemma {:induction false} CentreDistances(f: Frame, p1: Vec, p2: Vec, p3: Vec, q: Vec, x: real, y: real, z: real)
    requires Orthonormal(f) && Minus(p2, p1) == Scale(f.ex, f.d)
             && Minus(p3, p1) == Plus(Scale(f.ex, f.i), Scale(f.ey, f.j))
    requires Minus(q, p1) == Combine(f, x, y, z)
    ensures Dist2(q, p1) == x * x + y * y + z * z
    ensures Dist2(q, p2) == (x - f.d) * (x - f.d) + y * y + z * z
    ensures Dist2(q, p3) == (x - f.i) * (x - f.i) + (y - f.j) * (y - f.j) + z * z
  {
    hide Orthonormal, Minus, Combine, Scale, Plus, Dot;
    CombineLength(f, x, y, z);
    MinusTwice(q, p1, p2);
    MinusTwice(q, p1, p3);
    AxisPoint(f, f.d);
    CombineMinus(f, x, y, z, f.d, 0.0);
    CombineMinus(f, x, y, z, f.i, f.j);
    assert y - 0.0 == y;
    CombineLength(f, x - f.d, y, z);
    CombineLength(f, x - f.i, y - f.j, z);
  }

  lemma {:induction false} MinusTwice(q: Vec, a: Vec, b: Vec)
    ensures Minus(q, b) == Minus(Minus(q, a), Minus(b, a))
  {
  }

  lemma {:induction false} AxisPoint(f: Frame, d: real)
    ensures Scale(f.ex, d) == Plus(Scale(f.ex, d), Scale(f.ey, 0.0))
  {
  }

  /** Every vector is a combination of the axes. */
  lemma {:induction false} Decompose(f: Frame, v: Vec)
    returns (x: real, y: real, z: real)
    requires Orthonormal(f) && f.ez == Cross(f.ex, f.ey)
    ensures v == Combine(f, x, y, z)
  {
    x, y, z := Dot(v, f.ex), Dot(v, f.ey), Dot(v, f.ez);
    hide *;
    var w := Combine(f, x, y, z);
    CombineLength(f, x, y, z);
    Parseval(f, v);
    CombineDot(f, x, y, z, v);
    DotSymmetric(f.ex, v);
    DotSymmetric(f.ey, v);
    DotSymmetric(f.ez, v);
    SameVector(v, w);
  }

  lemma {:induction false} SameVector(v: Vec, w: Vec)
    requires Dot(v, v) == Dot(w, v) == Dot(w, w)
    ensures v == w
  {
    var u := Minus(v, w);
    DotMinus(v, w, u);
    DotSymmetric(v, u);
    DotSymmetric(w, u);
    DotMinus(v, w, v);
    DotMinus(v, w, w);
    DotSymmetric(v, w);
    DotPositive(u);
    hide Dot;
    assert IsZero(u);
  }

  /** The squared length is the sum of the squared parts. */
  lemma {:induction false} Parseval(f: Frame, v: Vec)
    requires Orthonormal(f) && f.ez == Cross(f.ex, f.ey)
    ensures var x, y, z := Dot(v, f.ex), Dot(v, f.ey), Dot(v, f.ez);
            Dot(v, v) == x * x + y * y + z * z
  {
    hide Dot, Cross, Scale, Minus;
    var x, y, z := Dot(v, f.ex), Dot(v, f.ey), Dot(v, f.ez);
    DotSymmetric(f.ex, v);
    DotSymmetric(f.ey, v);
    DotSymmetric(f.ez, v);
    CrossLength(f.ez, v);
    CrossTwice(f.ex, f.ey, v);
    var c := Minus(Scale(f.ey, x), Scale(f.ex, y));
    assert Cross(f.ez, v) == c;
    DotMinus(Scale(f.ey, x), Scale(f.ex, y), c);
    DotScale(f.ey, x, c);
    DotScale(f.ex, y, c);
    DotSymmetric(f.ey, c);
    DotSymmetric(f.ex, c);
    DotMinus(Scale(f.ey, x), Scale(f.ex, y), f.ey);
    DotMinus(Scale(f.ey, x), Scale(f.ex, y), f.ex);
    DotScale(f.ey, x, f.ey);
    DotScale(f.ey, x, f.ex);
    DotScale(f.ex, y, f.ey);
    DotScale(f.ex, y, f.ex);
    DotSymmetric(f.ex, f.ey);
  }

  // ---------------------------------------------------------------------------
  // The theorem.

  /** The equations that the original solves for x and y. */
  lemma {:induction false} Solved(f: Frame, r1: real, r2: real, r3: real)
    requires f.d > 0.0 && f.j > 0.0
    ensures var x := XOf(f, r1, r2);
            var y := YOf(f, r1, r3, x);
            && 2.0 * (f.d * x) == r1 * r1 - r2 * r2 + f.d * f.d
            && 2.0 * (f.j * y) == r1 * r1 - r3 * r3 + f.i * f.i + f.j * f.j - 2.0 * (f.i * x)
  {
    var x := XOf(f, r1, r2);
    var n, m := r1 * r1 - r2 * r2 + f.d * f.d, r1 * r1 - r3 * r3 + f.i * f.i + f.j * f.j;
    Twice(n, f.d);
    Twice(m, f.j);
    Through(f.i, f.j, x);
    hide Over;
    var y1, y2 := Over(m, 2.0 * f.j), Over(f.i, f.j) * x;
    assert f.j * (y1 - y2) == f.j * y1 - f.j * y2;
  }

  lemma {:induction false} Twice(n: real, d: real)
    requires d > 0.0
    ensures 2.0 * (d * Over(n, 2.0 * d)) == n
  {
    var k := Over(n, 2.0 * d);
    assert (2.0 * d) * k == n;
  }

  lemma {:induction false} Through(i: real, j: real, x: real)
    requires j > 0.0
    ensures j * (Over(i, j) * x) == i * x
  {
    var k := Over(i, j);
    assert j * k == i;
    assert j * (k * x) == (j * k) * x;
  }

  /** A point of the frame is at the three distances exactly when it has the computed coordinates. */
  lemma {:induction false} CoordinatesExactly(f: Frame, r1: real, r2: real, r3: real, x: real, y: real, z: real)
    requires f.d > 0.0 && f.j > 0.0
    ensures var x0 := XOf(f, r1, r2);
            && x * x + y * y + z * z == r1 * r1
            && (x - f.d) * (x - f.d) + y * y + z * z == r2 * r2
            && (x - f.i) * (x - f.i) + (y - f.j) * (y - f.j) + z * z == r3 * r3
            <==> x == x0 && y == YOf(f, r1, r3, x0) && z * z == HeightSquare(f, r1, r2, r3)
  {
    Solved(f, r1, r2, r3);
    var x0 := XOf(f, r1, r2);
    var y0 := YOf(f, r1, r3, x0);
    assert HeightSquare(f, r1, r2, r3) == r1 * r1 - x0 * x0 - y0 * y0;
    hide XOf, YOf, HeightSquare;
    var s := x * x + y * y + z * z;
    assert (x - f.d) * (x - f.d) + y * y + z * z == s - 2.0 * (f.d * x) + f.d * f.d;
    assert (x - f.i) * (x - f.i) + (y - f.j) * (y - f.j) + z * z
        == s - 2.0 * (f.i * x) - 2.0 * (f.j * y) + f.i * f.i + f.j * f.j;
    SameFactor(f.d, x, x0);
    SameFactor(f.j, y, y0);
  }

  lemma {:induction false} SameFactor(d: real, x: real, y: real)
    requires d > 0.0
    ensures d * x == d * y <==> x == y
  {
    if d * x == d * y {
      assert d * (x - y) == 0.0;
    }
  }

  /** The computed points in the frame. */
  lemma {:induction false} SpherePoints(sqrt: real -> real, p1: Vec, r1: real, p2: Vec, r2: real, p3: Vec, r3: real)
    returns (x: real, y: real, z: real)
    requires IsSqrt(sqrt)
    ensures var f := FrameOf(sqrt, p1, p2, p3);
            var points := ThreeSpheres(sqrt, p1, r1, p2, r2, p3, r3);
            && x == XOf(f, r1, r2) && y == YOf(f, r1, r3, x)
            && Minus(points[0], p1) == Combine(f, x, y, z)
            && Minus(points[1], p1) == Combine(f, x, y, -z)
            && z * z == (if HeightSquare(f, r1, r2, r3) < 0.0 then 0.0 else HeightSquare(f, r1, r2, r3))
  {
    hide *;
    var f := FrameOf(sqrt, p1, p2, p3);
    var zz := HeightSquare(f, r1, r2, r3);
    x := XOf(f, r1, r2);
    y := YOf(f, r1, r3, x);
    z := sqrt(if zz < 0.0 then 0.0 else zz);
    RootSquared(sqrt, if zz < 0.0 then 0.0 else zz);
    PointsAre(sqrt, p1, r1, p2, r2, p3, r3);
    FromCentre(p1, f, x, y, z);
  }

  lemma {:induction false} RootSquared(sqrt: real -> real, square: real)
    requires IsSqrt(sqrt) && square >= 0.0
    ensures sqrt(square) >= 0.0 && sqrt(square) * sqrt(square) == square
  {
  }

  lemma {:induction false} PointsAre(sqrt: real -> real, p1: Vec, r1: real, p2: Vec, r2: real, p3: Vec, r3: real)
    ensures var f := FrameOf(sqrt, p1, p2, p3);
            var x, zz := XOf(f, r1, r2), HeightSquare(f, r1, r2, r3);
            var y, z := YOf(f, r1, r3, x), sqrt(if zz < 0.0 then 0.0 else zz);
            var p := Plus(p1, Plus(Scale(f.ex, x), Scale(f.ey, y)));
            ThreeSpheres(sqrt, p1, r1, p2, r2, p3, r3) == [Plus(p, Scale(f.ez, z)), Minus(p, Scale(f.ez, z))]
  {
    hide FrameOf, XOf, YOf, HeightSquare, Plus, Minus, Scale;
  }

  lemma {:induction false} FromCentre(p1: Vec, f: Frame, x: real, y: real, z: real)
    ensures var p := Plus(p1, Plus(Scale(f.ex, x), Scale(f.ey, y)));
            && Minus(Plus(p, Scale(f.ez, z)), p1) == Combine(f, x, y, z)
            && Minus(Minus(p, Scale(f.ez, z)), p1) == Combine(f, x, y, -z)
  {
    var p := Plus(p1, Plus(Scale(f.ex, x), Scale(f.ey, y)));
    var l, r := Minus(Minus(p, Scale(f.ez, z)), p1), Combine(f, x, y, -z);
    assert -z * f.ez.x == -(z * f.ez.x) && -z * f.ez.y == -(z * f.ez.y) && -z * f.ez.z == -(z * f.ez.z);
    assert l.x == r.x;
    assert l.y == r.y;
    assert l.z == r.z;
  }

  /** The computed points lie on all three spheres exactly when the squared height is not negative; then no
      other point does, and else none at all. */
  lemma {:induction false} SpheresMeetExactly(sqrt: real -> real, p1: Vec, r1: real, p2: Vec, r2: real, p3: Vec,
                                              r3: real)
    requires IsSqrt(sqrt) && NotCollinear(p1, p2, p3)
    ensures var points, zz := ThreeSpheres(sqrt, p1, r1, p2, r2, p3, r3),
                              HeightSquare(FrameOf(sqrt, p1, p2, p3), r1, r2, r3);
            && (OnAllThree(points[0], p1, r1, p2, r2, p3, r3) <==> zz >= 0.0)
            && (OnAllThree(points[1], p1, r1, p2, r2, p3, r3) <==> zz >= 0.0)
  {
    hide *;
    var f := FrameOf(sqrt, p1, p2, p3);
    var points := ThreeSpheres(sqrt, p1, r1, p2, r2, p3, r3);
    var x, y, z := SpherePoints(sqrt, p1, r1, p2, r2, p3, r3);
    OnThree(sqrt, p1, r1, p2, r2, p3, r3, points[0], x, y, z);
    OnThree(sqrt, p1, r1, p2, r2, p3, r3, points[1], x, y, -z);
    SquareOfNegated(z);
  }

  lemma {:induction false} OnThree(sqrt: real -> real, p1: Vec, r1: real, p2: Vec, r2: real, p3: Vec, r3: real,
                                   q: Vec, x: real, y: real, z: real)
    requires IsSqrt(sqrt) && NotCollinear(p1, p2, p3)
    requires Minus(q, p1) == Combine(FrameOf(sqrt, p1, p2, p3), x, y, z)
    ensures var f := FrameOf(sqrt, p1, p2, p3);
            OnAllThree(q, p1, r1, p2, r2, p3, r3)
            <==> x == XOf(f, r1, r2) && y == YOf(f, r1, r3, XOf(f, r1, r2)) && z * z == HeightSquare(f, r1, r2, r3)
  {
    hide FrameOf, NotCollinear, Orthonormal, Minus, Combine, Scale, Plus, Dist2, XOf, YOf, HeightSquare, IsSqrt;
    var f := FrameOf(sqrt, p1, p2, p3);
    FrameFits(sqrt, p1, p2, p3);
    CentreDistances(f, p1, p2, p3, q, x, y, z);
    CoordinatesExactly(f, r1, r2, r3, x, y, z);
  }

  lemma {:induction false} NoOtherPointOnAllThree(sqrt: real -> real, p1: Vec, r1: real, p2: Vec, r2: real, p3: Vec,
                                                  r3: real, q: Vec)
    requires IsSqrt(sqrt) && NotCollinear(p1, p2, p3) && OnAllThree(q, p1, r1, p2, r2, p3, r3)
    ensures q in ThreeSpheres(sqrt, p1, r1, p2, r2, p3, r3)
  {
    hide *;
    var f := FrameOf(sqrt, p1, p2, p3);
    var points := ThreeSpheres(sqrt, p1, r1, p2, r2, p3, r3);
    var x, y, z := SpherePoints(sqrt, p1, r1, p2, r2, p3, r3);
    FrameFits(sqrt, p1, p2, p3);
    FrameCross(sqrt, p1, p2, p3);
    var a, b, c := Decompose(f, Minus(q, p1));
    OnThree(sqrt, p1, r1, p2, r2, p3, r3, q, a, b, c);
    SquareIsNotNegative(c);
    SameSquare(c, z);
    if c == z {
      SameFrom(q, points[0], p1);
    } else {
      SameFrom(q, points[1], p1);
    }
  }

  lemma {:induction false} FrameCross(sqrt: real -> real, p1: Vec, p2: Vec, p3: Vec)
    ensures FrameOf(sqrt, p1, p2, p3).ez == Cross(FrameOf(sqrt, p1, p2, p3).ex, FrameOf(sqrt, p1, p2, p3).ey)
  {
    hide Cross, Unit;
  }

  lemma {:induction false} SameSquare(x: real, y: real)
    requires x * x == y * y
    ensures x == y || x == -y
  {
    assert (x - y) * (x + y) == 0.0;
  }

  lemma {:induction false} SameFrom(a: Vec, b: Vec, p: Vec)
    requires Minus(a, p) == Minus(b, p)
    ensures a == b
  {
  }
}
