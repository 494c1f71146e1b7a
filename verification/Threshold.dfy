/** The choice of the points that count for a position: calculateThres in
    coordinates-calculator/src/main/java/pl/indoornavi/coordinatescalculator/shared/IntersectionsCalculator.java,
    and the same method of the backend. */
module Threshold {
  import opened Geometry

  function Insert(x: real, s: seq<real>): (r: seq<real>)
    ensures |r| == |s| + 1
  {
    if s == [] || x <= s[0] then [x] + s else [s[0]] + Insert(x, s[1..])
  }

  function Sorted(s: seq<real>): (r: seq<real>)
    ensures |r| == |s|
  {
    if s == [] then [] else Insert(s[0], Sorted(s[1..]))
  }

  /** How many values are at most `t`. */
  function Count(s: seq<real>, t: real): nat {
    if s == [] then 0 else (if s[0] <= t then 1 else 0) + Count(s[1..], t)
  }

  ghost predicate Ascending(s: seq<real>) {
    forall i, j :: 0 <= i < j < |s| ==> s[i] <= s[j]
  }

  /** Less than a tenth over the base; a zero base has nothing near it. */
  predicate Near(base: real, d: real) {
    base != 0.0 && d / base - 1.0 < 0.1
  }

  /** The loop of calculateThres from index `i` on. */
  function Extend(sorted: seq<real>, base: real, i: nat, thres: real): real
    decreases |sorted| - i
  {
    if i < |sorted| && Near(base, sorted[i]) then Extend(sorted, base, i + 1, sorted[i]) else thres
  }

  function Base(distances: seq<real>, count: nat): real
    requires 1 <= count <= |distances|
  {
    Sorted(distances)[count - 1]
  }

  function Thres(distances: seq<real>, count: nat): real
    requires 1 <= count <= |distances|
  {
    Extend(Sorted(distances), Base(distances, count), count, Base(distances, count))
  }

  /** The index is in range for every list at least as long as the count. */
  method CalculateThres(distances: seq<real>, count: nat) returns (thres: real)
    requires 1 <= count <= |distances|
    ensures thres == Thres(distances, count)
  {
    var sorted := Sorted(distances);
    var base := sorted[count - 1];
    thres := base;
    var i := count;
    while i < |distances|
      invariant count <= i <= |distances|
      invariant Thres(distances, count) == Extend(sorted, base, i, thres)
    {
      if Near(base, sorted[i]) {
        thres := sorted[i];
      } else {
        break;
      }
      i := i + 1;
    }
  }

  lemma {:induction false} InsertAscends(x: real, s: seq<real>)
    requires Ascending(s)
    ensures Ascending(Insert(x, s))
    ensures forall y :: y in Insert(x, s) <==> y == x || y in s
  {
    if s == [] || x <= s[0] {
      assert forall y :: y in s ==> |s| > 0 && s[0] <= y;
      LeastFirst(x, s);
    } else {
      var rest := Insert(x, s[1..]);
      assert s == [s[0]] + s[1..];
      assert forall y :: y in s[1..] ==> s[0] <= y;
      InsertAscends(x, s[1..]);
      assert Insert(x, s) == [s[0]] + rest;
      hide Insert;
      LeastFirst(s[0], rest);
    }
  }

  lemma {:induction false} LeastFirst(x: real, s: seq<real>)
    requires Ascending(s) && forall y :: y in s ==> x <= y
    ensures Ascending([x] + s)
  {
    assert forall i :: 0 <= i < |s| ==> s[i] in s;
  }

  lemma {:induction false} SortedAscends(s: seq<real>)
    ensures Ascending(Sorted(s))
    ensures forall y :: y in Sorted(s) <==> y in s
  {
    if s != [] {
      SortedAscends(s[1..]);
      InsertAscends(s[0], Sorted(s[1..]));
      assert s == [s[0]] + s[1..];
    }
  }

  lemma {:induction false} InsertCount(x: real, s: seq<real>, t: real)
    ensures Count(Insert(x, s), t) == (if x <= t then 1 else 0) + Count(s, t)
  {
    if s == [] || x <= s[0] {
      assert ([x] + s)[1..] == s;
    } else {
      InsertCount(x, s[1..], t);
      assert ([s[0]] + Insert(x, s[1..]))[1..] == Insert(x, s[1..]);
    }
  }

  lemma {:induction false} SortedCount(s: seq<real>, t: real)
    ensures Count(Sorted(s), t) == Count(s, t)
  {
    if s != [] {
      SortedCount(s[1..], t);
      InsertCount(s[0], Sorted(s[1..]), t);
    }
  }

  /** The first values of an ascending list. */
  lemma {:induction false} AscendingCount(s: seq<real>, n: nat, t: real)
    requires n <= |s| && forall i :: 0 <= i < n ==> s[i] <= t
    ensures Count(s, t) >= n
    decreases |s|
  {
    if n > 0 {
      AscendingCount(s[1..], n - 1, t);
    }
  }

  lemma {:induction false} NearExactly(base: real, d: real)
    requires base >= 0.0 && d >= 0.0
    ensures Near(base, d) <==> 10.0 * d < 11.0 * base
  {
    if base > 0.0 {
      var q := d / base;
      assert q * base == d;
      assert q < 1.1 ==> (1.1 - q) * base > 0.0;
      assert q >= 1.1 ==> (q - 1.1) * base >= 0.0;
    }
  }

  lemma {:induction false} NearDownwards(base: real, d: real, e: real)
    requires base >= 0.0 && d <= e && Near(base, e)
    ensures Near(base, d)
  {
    assert d / base <= e / base;
  }

  /** The loop ends with the last value of the list that is near. */
  lemma {:induction false} ExtendsToLastNear(sorted: seq<real>, base: real, i: nat, thres: real)
    requires Ascending(sorted) && base >= 0.0 && 1 <= i <= |sorted| && thres == sorted[i - 1]
    ensures var t := Extend(sorted, base, i, thres);
            && t in sorted && t >= thres
            && (forall k :: i <= k < |sorted| ==> (sorted[k] <= t <==> sorted[k] <= thres || Near(base, sorted[k])))
    decreases |sorted| - i
  {
    if i < |sorted| && Near(base, sorted[i]) {
      ExtendsToLastNear(sorted, base, i + 1, sorted[i]);
      forall k | i <= k < |sorted| && sorted[k] <= sorted[i] ensures Near(base, sorted[k]) {
        NearDownwards(base, sorted[k], sorted[i]);
      }
    } else {
      forall k | i <= k < |sorted| && Near(base, sorted[k]) ensures false {
        NearDownwards(base, sorted[i], sorted[k]);
      }
    }
  }

  /** The threshold is one of the sums, no less than the count-th smallest; it lets through exactly the sums
      up to that one and those less than a tenth over it, and so at least `count` of them. */
  lemma {:induction false} ThresExactly(distances: seq<real>, count: nat)
    requires 1 <= count <= |distances| && forall d :: d in distances ==> d >= 0.0
    ensures var base, thres := Base(distances, count), Thres(distances, count);
            && thres in distances && base in distances && thres >= base
            && (forall d :: d in distances ==> (d <= thres <==> d <= base || 10.0 * d < 11.0 * base))
            && Count(distances, thres) >= Count(distances, base) >= count
  {
    var sorted := Sorted(distances);
    var base := sorted[count - 1];
    SortedAscends(distances);
    assert base in sorted;
    ExtendsToLastNear(sorted, base, count, base);
    var thres := Thres(distances, count);
    forall d | d in distances ensures d <= thres <==> d <= base || 10.0 * d < 11.0 * base {
      NearExactly(base, d);
      var k :| 0 <= k < |sorted| && sorted[k] == d;
      if k < count - 1 {
        assert sorted[k] <= sorted[count - 1];
      }
    }
    AscendingCount(sorted, count, base);
    SortedCount(distances, base);
    CountGrows(distances, base, thres);
  }

  lemma {:induction false} CountGrows(s: seq<real>, t: real, u: real)
    requires t <= u
    ensures Count(s, t) <= Count(s, u)
  {
    if s != [] {
      CountGrows(s[1..], t, u);
    }
  }
}
