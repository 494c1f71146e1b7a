/** The measurement window for times in any order:
    coordinates-calculator/src/main/java/pl/indoornavi/coordinatescalculator/shared/Storage.java. */
module Windows {
  import opened Wrappers
  import opened Storage

  /** All arrivals, seen for one tag and one of its anchors.  An arrival is known by its index. */
  datatype Log = Log(arrivals: seq<Arrival>, tag: ShortId, anchor: ShortId)

  predicate OfTag(l: Log, i: nat) {
    i < |l.arrivals| && l.arrivals[i].tag == l.tag
  }

  predicate Own(l: Log, i: nat) {
    OfTag(l, i) && l.arrivals[i].anchor == l.anchor
  }

  function Time(l: Log, i: nat): int
    requires i < |l.arrivals|
  {
    l.arrivals[i].measure.timestamp
  }

  predicate RecentAt(l: Log, i: nat, time: int)
    requires i < |l.arrivals|
  {
    Time(l, i) >= time - 10_000
  }

  /** The own arrivals after `low`, up to `high`, that are recent at `time`, newest first. */
  function RecentOnes(l: Log, low: nat, high: int, time: int): (r: seq<nat>)
    requires high < |l.arrivals|
    decreases high - low
  {
    if high <= low then []
    else (if Own(l, high) && RecentAt(l, high, time) then [high] else []) + RecentOnes(l, low, high - 1, time)
  }

  /** No arrival of the tag between `i` and `j`, the latter included, came more than ten seconds after `i`. */
  ghost predicate Standing(l: Log, i: nat, j: nat)
    requires i <= j < |l.arrivals|
  {
    forall k :: i < k <= j && OfTag(l, k) ==> RecentAt(l, i, Time(l, k))
  }

  /** The own arrivals after `low`, up to `high`, that stand at `j`, newest first. */
  ghost function StandingOnes(l: Log, low: nat, high: nat, j: nat): (r: seq<nat>)
    requires high <= j < |l.arrivals|
    decreases high
  {
    if high <= low then []
    else (if Own(l, high) && Standing(l, high, j) then [high] else []) + StandingOnes(l, low, high - 1, j)
  }

  /** At every arrival of the tag before `n`, the own arrival `i` stands and fewer than four newer ones do. */
  ghost predicate SurvivesTo(l: Log, i: nat, n: nat)
    requires n <= |l.arrivals|
  {
    && i < n && Own(l, i)
    && forall j :: i <= j < n && OfTag(l, j) ==> Standing(l, i, j) && |StandingOnes(l, i, j, j)| < 4
  }

  ghost predicate Survives(l: Log, i: nat) {
    SurvivesTo(l, i, |l.arrivals|)
  }

  /** Among the newest four of the own arrivals that are recent at `time`. */
  predicate InWindow(l: Log, i: nat, time: int) {
    && Own(l, i) && RecentAt(l, i, time)
    && |RecentOnes(l, i, |l.arrivals| - 1, time)| < 4
  }

  // ---------------------------------------------------------------------------
  // Lists of indices, newest first.

  ghost predicate Falling(s: seq<nat>) {
    forall p, q :: 0 <= p < q < |s| ==> s[p] > s[q]
  }

  predicate Below(s: seq<nat>, n: nat) {
    forall p :: 0 <= p < |s| ==> s[p] < n
  }

  lemma {:induction false} FallingTail(s: seq<nat>)
    requires Falling(s) && s != []
    ensures Falling(s[1..]) && s[0] !in s[1..]
    ensures forall i :: i in s <==> i == s[0] || i in s[1..]
    ensures forall i :: i in s[1..] ==> i < s[0]
  {
    assert s == [s[0]] + s[1..];
  }

  lemma {:induction false} FallingCons(i: nat, s: seq<nat>)
    requires Falling(s) && forall j :: j in s ==> j < i
    ensures Falling([i] + s)
  {
    forall p, q | 0 <= p < q < |s| + 1
      ensures ([i] + s)[p] > ([i] + s)[q]
    {
      assert ([i] + s)[q] == s[q - 1] && s[q - 1] in s;
    }
  }

  lemma {:induction false} Prepended(i: nat, rest: seq<nat>, kept: bool)
    requires Falling(rest) && forall j: nat :: j in rest ==> j < i
    ensures var s := (if kept then [i] else []) + rest;
            Falling(s) && forall j: nat :: j in s <==> (kept && j == i) || j in rest
  {
    FallingCons(i, rest);
    assert [] + rest == rest;
  }

  /** A falling list is known by its members. */
  lemma {:induction false} SameMembers(s: seq<nat>, t: seq<nat>)
    requires Falling(s) && Falling(t) && forall i :: i in s <==> i in t
    ensures s == t
  {
    assert |s| > 0 ==> s[0] in s;
    assert |t| > 0 ==> t[0] in t;
    if s != [] && t != [] {
      FallingTail(s);
      FallingTail(t);
      assert s[0] in s && t[0] in t;
      assert s[0] == t[0];
      SameMembers(s[1..], t[1..]);
    }
  }

  function First(s: seq<nat>, n: nat): seq<nat> {
    if |s| <= n then s else s[..n]
  }

  lemma {:induction false} FirstIsPart(s: seq<nat>, n: nat)
    ensures forall i :: i in First(s, n) ==> i in s
    ensures forall m: nat :: Below(s, m) ==> Below(First(s, n), m)
    ensures Falling(s) ==> Falling(First(s, n))
    ensures |First(s, n)| <= n
  {
  }

  function Recents(l: Log, s: seq<nat>, time: int): seq<nat>
    requires Below(s, |l.arrivals|)
  {
    if s == [] then []
    else (if RecentAt(l, s[0], time) then [s[0]] else []) + Recents(l, s[1..], time)
  }

  lemma {:induction false} RecentsMembers(l: Log, s: seq<nat>, time: int)
    requires Falling(s) && Below(s, |l.arrivals|)
    ensures Falling(Recents(l, s, time))
    ensures forall i :: i in Recents(l, s, time) <==> i in s && RecentAt(l, i, time)
  {
    if s != [] {
      FallingTail(s);
      RecentsMembers(l, s[1..], time);
      var rest := Recents(l, s[1..], time);
      FallingCons(s[0], rest);
      assert [] + rest == rest;
    }
  }

  /** The first `n` are those with fewer than `n` in front; `above` lists these. */
  lemma {:induction false} FirstMembers(s: seq<nat>, n: nat, i: nat, above: seq<nat>)
    requires Falling(s) && Falling(above) && i in s
    requires forall x :: x in above <==> x in s && x > i
    ensures i in First(s, n) <==> |above| < n
  {
    var p :| 0 <= p < |s| && s[p] == i;
    forall x
      ensures x in s[..p] <==> x in s && x > i
    {
      if x in s && x > i {
        var q :| 0 <= q < |s| && s[q] == x;
        assert s[..p][q] == x;
      }
    }
    SameMembers(s[..p], above);
    assert p < n ==> First(s, n)[p] == i;
    if i in First(s, n) {
      var q :| 0 <= q < |First(s, n)| && First(s, n)[q] == i;
      assert q == p;
    }
  }

  lemma {:induction false} RecentOnesMembers(l: Log, low: nat, high: int, time: int)
    requires high < |l.arrivals|
    ensures Falling(RecentOnes(l, low, high, time))
    ensures forall i :: i in RecentOnes(l, low, high, time) <==> low < i <= high && Own(l, i) && RecentAt(l, i, time)
    decreases high - low
  {
    hide RecentOnes, Own, RecentAt, Falling;
    RecentOnesFirst(l, low, high, time);
    NothingFalls();
    if high > low {
      RecentOnesMembers(l, low, high - 1, time);
      Prepended(high, RecentOnes(l, low, high - 1, time), Own(l, high) && RecentAt(l, high, time));
    }
  }

  lemma {:induction false} StandingOnesMembers(l: Log, low: nat, high: nat, j: nat)
    requires high <= j < |l.arrivals|
    ensures Falling(StandingOnes(l, low, high, j))
    ensures forall i :: i in StandingOnes(l, low, high, j) <==> low < i <= high && Own(l, i) && Standing(l, i, j)
    decreases high
  {
    hide StandingOnes, Own, Standing, Falling;
    StandingOnesFirst(l, low, high, j);
    NothingFalls();
    if high > low {
      StandingOnesMembers(l, low, high - 1, j);
      Prepended(high, StandingOnes(l, low, high - 1, j), Own(l, high) && Standing(l, high, j));
    }
  }

  lemma {:induction false} RecentOnesFirst(l: Log, low: nat, high: int, time: int)
    requires high < |l.arrivals|
    ensures RecentOnes(l, low, high, time) ==
              if high <= low then []
              else (if Own(l, high) && RecentAt(l, high, time) then [high] else []) + RecentOnes(l, low, high - 1, time)
  {
    hide Own, RecentAt;
  }

  lemma {:induction false} StandingOnesFirst(l: Log, low: nat, high: nat, j: nat)
    requires high <= j < |l.arrivals|
    ensures StandingOnes(l, low, high, j) ==
              if high <= low then []
              else (if Own(l, high) && Standing(l, high, j) then [high] else []) + StandingOnes(l, low, high - 1, j)
  {
    hide Own, Standing;
  }

  lemma {:induction false} NothingFalls()
    ensures Falling([])
  {
  }

  lemma {:induction false} StandingOnesShrink(l: Log, low: nat, more: nat, high: nat, j: nat)
    requires low <= more && high <= j < |l.arrivals|
    ensures |StandingOnes(l, more, high, j)| <= |StandingOnes(l, low, high, j)|
    decreases high
  {
    if high > more {
      StandingOnesShrink(l, low, more, high - 1, j);
    }
  }

  // ---------------------------------------------------------------------------
  // What is stored.

  /** The arrivals whose measures are stored after the first `n`. */
  function Kept(l: Log, n: nat): (s: seq<nat>)
    requires n <= |l.arrivals|
    ensures Below(s, n)
  {
    if n == 0 then []
    else
      var before := Kept(l, n - 1);
      if !OfTag(l, n - 1) then before
      else
        var all := if Own(l, n - 1) then [n - 1] + before else before;
        RecentsWithin(l, all, Time(l, n - 1));
        FirstIsPart(Recents(l, all, Time(l, n - 1)), MAX_MEASURES);
        First(Recents(l, all, Time(l, n - 1)), MAX_MEASURES)
  }

  lemma {:induction false} RecentsWithin(l: Log, s: seq<nat>, time: int)
    requires Below(s, |l.arrivals|)
    ensures forall n: nat :: Below(s, n) ==> Below(Recents(l, s, time), n)
  {
    if s != [] {
      RecentsWithin(l, s[1..], time);
      assert forall n: nat :: Below(s, n) ==> s[0] < n && Below(s[1..], n);
    }
  }

  /** A newer arrival that stands survives whenever an older one does. */
  lemma {:induction false} NewerSurvives(l: Log, i: nat, k: nat, n: nat)
    requires n < |l.arrivals| && i < k < n && Own(l, k) && SurvivesTo(l, i, n) && Standing(l, k, n)
    ensures SurvivesTo(l, k, n)
  {
    forall j | k <= j < n && OfTag(l, j)
      ensures Standing(l, k, j) && |StandingOnes(l, k, j, j)| < MAX_MEASURES
    {
      StandingOnesShrink(l, i, k, j, j);
    }
  }

  /** One more arrival of the tag, for an arrival that was kept so far or is the new one. */
  lemma {:induction false} SurvivesMore(l: Log, i: nat, n: nat)
    requires OfTag(l, n) && i <= n && Own(l, i) && (i < n ==> SurvivesTo(l, i, n))
    ensures Standing(l, i, n) <==> RecentAt(l, i, Time(l, n))
    ensures SurvivesTo(l, i, n + 1)
       <==> RecentAt(l, i, Time(l, n)) && |StandingOnes(l, i, n, n)| < MAX_MEASURES
  {
    hide StandingOnes;
    forall k | i < k < n && OfTag(l, k)
      ensures RecentAt(l, i, Time(l, k))
    {
      assert Standing(l, i, k);
    }
  }

  lemma {:induction false} SurvivesLess(l: Log, i: nat, n: nat)
    requires n < |l.arrivals| && i < n && SurvivesTo(l, i, n + 1)
    ensures SurvivesTo(l, i, n)
  {
    hide Standing, StandingOnes;
  }

  lemma {:induction false} SurvivesOther(l: Log, i: nat, n: nat)
    requires n < |l.arrivals| && !OfTag(l, n)
    ensures SurvivesTo(l, i, n + 1) <==> SurvivesTo(l, i, n)
  {
    hide Standing, StandingOnes;
  }

  function Candidates(l: Log, n: nat): (s: seq<nat>)
    requires n < |l.arrivals|
    ensures Below(s, n + 1)
  {
    if Own(l, n) then [n] + Kept(l, n) else Kept(l, n)
  }

  ghost predicate KeepsSurvivors(l: Log, n: nat)
    requires n <= |l.arrivals|
  {
    && Falling(Kept(l, n))
    && forall i :: i in Kept(l, n) <==> SurvivesTo(l, i, n)
  }

  lemma {:induction false} CandidatesAre(l: Log, n: nat)
    requires n < |l.arrivals| && KeepsSurvivors(l, n)
    ensures Falling(Candidates(l, n))
    ensures forall i :: i in Candidates(l, n) <==> (i == n && Own(l, n)) || SurvivesTo(l, i, n)
  {
    hide SurvivesTo, Own;
    if Own(l, n) {
      FallingCons(n, Kept(l, n));
    }
  }

  /** Of the candidates newer than a surviving one, those recent at the arrival `n` are those that stand there. */
  lemma {:induction false} NewerCandidates(l: Log, n: nat, i: nat, x: nat)
    requires OfTag(l, n) && KeepsSurvivors(l, n) && i in Candidates(l, n)
    ensures x in StandingOnes(l, i, n, n)
       <==> x in Candidates(l, n) && RecentAt(l, x, Time(l, n)) && x > i
  {
    hide Candidates, KeepsSurvivors, StandingOnes, Standing, SurvivesTo, Kept;
    CandidatesAre(l, n);
    StandingOnesMembers(l, i, n, n);
    SurvivorsAreOwn(l, i, n);
    SurvivorsAreOwn(l, x, n);
    if i < x <= n && Own(l, x) {
      if x < n && Standing(l, x, n) {
        NewerSurvives(l, i, x, n);
      }
      if x in Candidates(l, n) {
        SurvivesMore(l, x, n);
      }
      StandsOnce(l, n);
    }
  }

  lemma {:induction false} SurvivorsAreOwn(l: Log, i: nat, n: nat)
    requires n <= |l.arrivals|
    ensures SurvivesTo(l, i, n) ==> i < n && Own(l, i)
  {
  }

  lemma {:induction false} StandsOnce(l: Log, n: nat)
    requires n < |l.arrivals|
    ensures Standing(l, n, n) && RecentAt(l, n, Time(l, n))
  {
  }

  lemma {:induction false} KeptOne(l: Log, n: nat, i: nat)
    requires OfTag(l, n) && KeepsSurvivors(l, n)
    ensures i in Kept(l, n + 1) <==> SurvivesTo(l, i, n + 1)
  {
    var all, time := Candidates(l, n), Time(l, n);
    var recent := Recents(l, all, time);
    assert Kept(l, n + 1) == First(recent, MAX_MEASURES);
    hide Candidates, KeepsSurvivors, StandingOnes, Standing, SurvivesTo, Kept, Recents;
    CandidatesAre(l, n);
    RecentsMembers(l, all, time);
    if i in recent {
      forall x: nat
        ensures x in StandingOnes(l, i, n, n) <==> x in recent && x > i
      {
        NewerCandidates(l, n, i, x);
      }
      StandingOnesMembers(l, i, n, n);
      FirstMembers(recent, MAX_MEASURES, i, StandingOnes(l, i, n, n));
      KeptIsOwn(l, n, i);
      SurvivesMore(l, i, n);
    } else {
      if SurvivesTo(l, i, n + 1) {
        SurvivorsAreOwn(l, i, n + 1);
        if i < n {
          SurvivesLess(l, i, n);
        }
        SurvivesMore(l, i, n);
        StandsOnce(l, n);
      }
      FirstIsPart(recent, MAX_MEASURES);
    }
  }

  lemma {:induction false} KeptIsOwn(l: Log, n: nat, i: nat)
    requires OfTag(l, n) && KeepsSurvivors(l, n) && i in Candidates(l, n)
    ensures i <= n && Own(l, i) && (i < n ==> SurvivesTo(l, i, n))
  {
    CandidatesAre(l, n);
    hide KeepsSurvivors;
  }

  /** Exactly the arrivals that survive are kept. */
  lemma {:induction false} KeptExactly(l: Log, n: nat)
    requires n <= |l.arrivals|
    ensures KeepsSurvivors(l, n) && |Kept(l, n)| <= MAX_MEASURES
  {
    if n > 0 {
      KeptExactly(l, n - 1);
      if OfTag(l, n - 1) {
        KeptFalls(l, n - 1);
        forall i
          ensures i in Kept(l, n) <==> SurvivesTo(l, i, n)
        {
          KeptOne(l, n - 1, i);
        }
      } else {
        forall i
          ensures SurvivesTo(l, i, n) <==> SurvivesTo(l, i, n - 1)
        {
          SurvivesOther(l, i, n - 1);
        }
      }
    }
  }

  lemma {:induction false} KeptFalls(l: Log, n: nat)
    requires OfTag(l, n) && KeepsSurvivors(l, n)
    ensures Falling(Kept(l, n + 1)) && |Kept(l, n + 1)| <= MAX_MEASURES
  {
    CandidatesAre(l, n);
    RecentsMembers(l, Candidates(l, n), Time(l, n));
    FirstIsPart(Recents(l, Candidates(l, n), Time(l, n)), MAX_MEASURES);
  }

  // ---------------------------------------------------------------------------
  // The measures behind the indices.

  function Measured(l: Log, s: seq<nat>): (measures: seq<Measure>)
    requires Below(s, |l.arrivals|)
    ensures |measures| == |s|
  {
    seq(|s|, p requires 0 <= p < |s| => assert s[p] in s; l.arrivals[s[p]].measure)
  }

  lemma {:induction false} MeasuredCons(l: Log, i: nat, s: seq<nat>)
    requires i < |l.arrivals| && Below(s, |l.arrivals|)
    ensures Measured(l, [i] + s) == [l.arrivals[i].measure] + Measured(l, s)
  {
  }

  lemma {:induction false} MeasuredRecents(l: Log, s: seq<nat>, time: int)
    requires Below(s, |l.arrivals|)
    ensures Below(Recents(l, s, time), |l.arrivals|)
    ensures Measured(l, Recents(l, s, time)) == Recent(Measured(l, s), time)
  {
    RecentsWithin(l, s, time);
    if s != [] {
      var i, rest := s[0], s[1..];
      assert s == [i] + rest;
      MeasuredRecents(l, rest, time);
      RecentsWithin(l, rest, time);
      MeasuredCons(l, i, rest);
      MeasuredCons(l, i, Recents(l, rest, time));
      assert Measured(l, s)[1..] == Measured(l, rest);
      assert [] + Recents(l, rest, time) == Recents(l, rest, time);
      assert [] + Recent(Measured(l, rest), time) == Recent(Measured(l, rest), time);
    }
  }

  lemma {:induction false} MeasuredTrim(l: Log, s: seq<nat>, time: int)
    requires Below(s, |l.arrivals|)
    ensures var cut := First(Recents(l, s, time), MAX_MEASURES);
            Below(cut, |l.arrivals|) && Measured(l, cut) == Trim(Measured(l, s), time)
  {
    MeasuredRecents(l, s, time);
    FirstIsPart(Recents(l, s, time), MAX_MEASURES);
  }

  lemma {:induction false} StoredAreKept(fit: (seq<Measure>, int) -> seq<real>, l: Log, n: nat)
    requires n <= |l.arrivals|
    ensures NonEmpty(Run(fit, l.arrivals[..n]))
    ensures Stored(Run(fit, l.arrivals[..n]), l.tag, l.anchor) == Measured(l, Kept(l, n))
  {
    hide Run, Next, Stored, Trim, Kept, NonEmpty, Measured;
    if n == 0 {
      NothingStored(fit, l.tag, l.anchor);
      NothingKept(l);
    } else {
      var before, a := l.arrivals[..n - 1], l.arrivals[n - 1];
      assert l.arrivals[..n] == before + [a];
      StoredAreKept(fit, l, n - 1);
      RunMore(fit, before, a);
      AfterMeasurement(fit, Run(fit, before), a);
      NextStored(fit, Run(fit, before), a, l.tag, l.anchor);
      KeptMore(l, n - 1);
    }
  }

  lemma {:induction false} NothingKept(l: Log)
    ensures l.arrivals[..0] == [] && Measured(l, Kept(l, 0)) == []
  {
  }

  /** One more arrival does to the indices what it does to the measures. */
  lemma {:induction false} KeptMore(l: Log, n: nat)
    requires n < |l.arrivals|
    ensures var a, kept := l.arrivals[n], Measured(l, Kept(l, n));
            Measured(l, Kept(l, n + 1))
            == if l.tag != a.tag then kept
               else Trim(if l.anchor == a.anchor then [a.measure] + kept else kept, a.measure.timestamp)
  {
    MeasuredCons(l, n, Kept(l, n));
    MeasuredTrim(l, Candidates(l, n), Time(l, n));
    assert OfTag(l, n) ==> Kept(l, n + 1) == First(Recents(l, Candidates(l, n), Time(l, n)), MAX_MEASURES);
    hide Trim, Measured, First, Recents;
  }

  /** All own arrivals among the first `n`, newest first. */
  function OwnOnes(l: Log, n: nat): (s: seq<nat>)
    requires n <= |l.arrivals|
    ensures Falling(s)
    ensures Below(s, n)
    ensures forall i: nat :: i in s <==> i < n && Own(l, i)
  {
    if n == 0 then []
    else
      var rest := OwnOnes(l, n - 1);
      FallingCons(n - 1, rest);
      if Own(l, n - 1) then [n - 1] + rest else rest
  }

  lemma {:induction false} HistoryIsOwn(l: Log, n: nat)
    requires n <= |l.arrivals|
    ensures History(l.arrivals[..n], l.tag, l.anchor) == Measured(l, OwnOnes(l, n))
  {
    if n > 0 {
      var before, a := l.arrivals[..n - 1], l.arrivals[n - 1];
      assert l.arrivals[..n] == before + [a];
      HistoryIsOwn(l, n - 1);
      HistoryMore(before, a, l.tag, l.anchor);
      hide History, Measured, Falling, Below;
      OwnMore(l, n - 1);
    }
  }

  lemma {:induction false} OwnMore(l: Log, n: nat)
    requires n < |l.arrivals|
    ensures var a, before := l.arrivals[n], Measured(l, OwnOnes(l, n));
            Measured(l, OwnOnes(l, n + 1))
            == if a.tag == l.tag && a.anchor == l.anchor then [a.measure] + before else before
  {
    MeasuredCons(l, n, OwnOnes(l, n));
    hide Measured, Falling;
  }

  // ---------------------------------------------------------------------------
  // The window.

  function Window(l: Log, time: int): (s: seq<nat>)
    ensures Below(s, |l.arrivals|)
  {
    var own := OwnOnes(l, |l.arrivals|);
    RecentsWithin(l, own, time);
    FirstIsPart(Recents(l, own, time), MAX_MEASURES);
    First(Recents(l, own, time), MAX_MEASURES)
  }

  lemma {:induction false} WindowMembers(l: Log, time: int)
    ensures Falling(Window(l, time)) && |Window(l, time)| <= MAX_MEASURES
    ensures forall i: nat :: i in Window(l, time) <==> InWindow(l, i, time)
  {
    var own := OwnOnes(l, |l.arrivals|);
    var recent := Recents(l, own, time);
    assert Window(l, time) == First(recent, MAX_MEASURES);
    hide Recents, OwnOnes, First, Window, InWindow, Own, RecentAt, Falling;
    RecentsMembers(l, own, time);
    FirstIsPart(recent, MAX_MEASURES);
    forall i: nat
      ensures i in First(recent, MAX_MEASURES) <==> InWindow(l, i, time)
    {
      WindowMember(l, time, recent, i);
    }
  }

  lemma {:induction false} WindowMember(l: Log, time: int, recent: seq<nat>, i: nat)
    requires Falling(recent)
    requires forall x: nat :: x in recent <==> x < |l.arrivals| && Own(l, x) && RecentAt(l, x, time)
    ensures i in First(recent, MAX_MEASURES) <==> InWindow(l, i, time)
  {
    hide First, RecentOnes, Own, RecentAt, Falling;
    FirstIsPart(recent, MAX_MEASURES);
    OwnIsArrival(l, i);
    if i in recent {
      var above := RecentOnes(l, i, |l.arrivals| - 1, time);
      RecentOnesMembers(l, i, |l.arrivals| - 1, time);
      FirstMembers(recent, MAX_MEASURES, i, above);
    }
  }

  lemma {:induction false} OwnIsArrival(l: Log, i: nat)
    ensures Own(l, i) ==> i < |l.arrivals|
  {
  }

  lemma {:induction false} WindowIsTrimmed(l: Log, time: int)
    ensures Trim(History(l.arrivals, l.tag, l.anchor), time) == Measured(l, Window(l, time))
  {
    var n := |l.arrivals|;
    assert l.arrivals[..n] == l.arrivals;
    HistoryIsOwn(l, n);
    MeasuredTrim(l, OwnOnes(l, n), time);
  }

  /** The last arrival of the tag. */
  lemma {:induction false} LastOfTag(l: Log, n: nat) returns (last: nat)
    requires n <= |l.arrivals| && LastTime(l.arrivals[..n], l.tag).Some?
    ensures last < n && OfTag(l, last) && Time(l, last) == LastTime(l.arrivals[..n], l.tag).value
    ensures forall j :: last < j < n ==> !OfTag(l, j)
  {
    var before, a := l.arrivals[..n - 1], l.arrivals[n - 1];
    assert l.arrivals[..n] == before + [a];
    LastTimeIs(before, a, l.tag);
    if a.tag == l.tag {
      last := n - 1;
    } else {
      last := LastOfTag(l, n - 1);
    }
  }

  /** A survivor is recent at the end, and two own arrivals with the same time leave in order. */
  lemma {:induction false} SurvivorsAreRecent(l: Log, i: nat, time: int)
    requires LastTime(l.arrivals, l.tag) == Some(time) && Survives(l, i)
    ensures RecentAt(l, i, time)
  {
    var n := |l.arrivals|;
    assert l.arrivals[..n] == l.arrivals;
    var last := LastOfTag(l, n);
    hide StandingOnes;
    assert i <= last;
    assert Standing(l, i, last);
  }

  lemma {:induction false} SameTimeSurvives(l: Log, i: nat, k: nat)
    requires i < k && Own(l, k) && Survives(l, i) && Time(l, i) == Time(l, k)
    ensures Survives(l, k)
  {
    forall j | k <= j < |l.arrivals| && OfTag(l, j)
      ensures Standing(l, k, j) && |StandingOnes(l, k, j, j)| < MAX_MEASURES
    {
      assert Standing(l, i, j);
      StandingOnesShrink(l, i, k, j, j);
    }
  }

  ghost predicate Part(s: seq<nat>, t: seq<nat>) {
    forall i :: i in s ==> i in t
  }

  /** A part of a falling list that has its newest `n`, and no more than `n`, is these. */
  lemma {:induction false} FirstOnly(kept: seq<nat>, all: seq<nat>, n: nat)
    requires Falling(kept) && Falling(all) && Part(kept, all)
    requires |kept| <= n && Part(First(all, n), kept)
    ensures kept == First(all, n)
    decreases |all|
  {
    assert |kept| > 0 ==> kept[0] in kept;
    if all != [] && n > 0 {
      FallingTail(all);
      FirstTail(all, n);
      assert First(all, n)[0] in kept && |kept| > 0 && kept[0] in all;
      FallingTail(kept);
      assert kept[0] == all[0];
      FirstTailPart(kept, all, n);
      FirstOnly(kept[1..], all[1..], n - 1);
    }
  }

  lemma {:induction false} FirstTail(all: seq<nat>, n: nat)
    requires all != [] && n > 0
    ensures First(all, n) == [all[0]] + First(all[1..], n - 1)
  {
  }

  lemma {:induction false} FirstTailPart(kept: seq<nat>, all: seq<nat>, n: nat)
    requires Falling(kept) && Falling(all) && kept != [] && all != [] && kept[0] == all[0] && n > 0
    requires Part(kept, all) && Part(First(all, n), kept)
    ensures Part(kept[1..], all[1..]) && Part(First(all[1..], n - 1), kept[1..])
  {
    FallingTail(kept);
    FallingTail(all);
    FirstTail(all, n);
    FirstIsPart(all[1..], n - 1);
    hide First;
    forall i | i in First(all[1..], n - 1)
      ensures i in kept[1..]
    {
      assert i in First(all, n);
    }
  }

  /** Whatever newer one has the same time as a kept one is kept. */
  ghost predicate NewerFirst(l: Log, kept: seq<nat>, all: seq<nat>)
    requires Below(kept, |l.arrivals|) && Below(all, |l.arrivals|)
  {
    forall p, q :: 0 <= p < |kept| && 0 <= q < |all| && kept[p] < all[q] && Time(l, kept[p]) == Time(l, all[q]) ==>
      all[q] in kept
  }

  /** Then a part with the measures of the newest `n` is these. */
  lemma {:induction false} FirstByMeasures(l: Log, kept: seq<nat>, all: seq<nat>, n: nat)
    requires Below(kept, |l.arrivals|) && Below(all, |l.arrivals|) && Below(First(all, n), |l.arrivals|)
    requires Falling(kept) && Falling(all) && Part(kept, all) && NewerFirst(l, kept, all)
    requires Measured(l, kept) == Measured(l, First(all, n))
    ensures kept == First(all, n)
    decreases |all|
  {
    if all != [] && n > 0 {
      FirstTail(all, n);
      var rest := First(all[1..], n - 1);
      MeasuredTail(l, kept, all[0], rest);
      hide First, Measured, Part;
      SameHead(l, kept, all);
      FallingTail(all);
      FallingTail(kept);
      NewerFirstTail(l, kept, all);
      FirstByMeasures(l, kept[1..], all[1..], n - 1);
    }
  }

  lemma {:induction false} MeasuredTail(l: Log, kept: seq<nat>, head: nat, rest: seq<nat>)
    requires Below(kept, |l.arrivals|) && Below([head] + rest, |l.arrivals|)
    requires Measured(l, kept) == Measured(l, [head] + rest)
    ensures kept != [] && head < |l.arrivals| && Time(l, kept[0]) == Time(l, head)
    ensures Below(kept[1..], |l.arrivals|) && Below(rest, |l.arrivals|)
    ensures Measured(l, kept[1..]) == Measured(l, rest)
  {
    assert ([head] + rest)[0] == head && ([head] + rest)[1..] == rest;
    assert |kept| == |Measured(l, kept)| == |rest| + 1;
    assert Measured(l, kept)[0] == Measured(l, [head] + rest)[0];
    assert Measured(l, kept[1..]) == Measured(l, kept)[1..];
    assert Measured(l, rest) == Measured(l, [head] + rest)[1..];
  }

  lemma {:induction false} SameHead(l: Log, kept: seq<nat>, all: seq<nat>)
    requires Below(kept, |l.arrivals|) && Below(all, |l.arrivals|) && kept != [] && all != []
    requires Falling(kept) && Falling(all) && Part(kept, all) && NewerFirst(l, kept, all)
    requires Time(l, kept[0]) == Time(l, all[0])
    ensures kept[0] == all[0]
  {
    FallingTail(all);
    FallingTail(kept);
    assert kept[0] in all;
  }

  lemma {:induction false} NewerFirstTail(l: Log, kept: seq<nat>, all: seq<nat>)
    requires Below(kept, |l.arrivals|) && Below(all, |l.arrivals|)
    requires Falling(kept) && Falling(all) && Part(kept, all) && NewerFirst(l, kept, all)
    requires kept != [] && all != [] && kept[0] == all[0]
    ensures NewerFirst(l, kept[1..], all[1..]) && Part(kept[1..], all[1..])
  {
    FallingTail(kept);
    FallingTail(all);
    var k, a := kept[1..], all[1..];
    forall p, q | 0 <= p < |k| && 0 <= q < |a| && k[p] < a[q] && Time(l, k[p]) == Time(l, a[q])
      ensures a[q] in k
    {
      assert k[p] == kept[p + 1] && a[q] == all[q + 1] && a[q] in a;
    }
  }

  /** Whatever the order of the times, the stored list is the window of the whole history exactly when every arrival
      in that window survives: since it came no arrival of the tag was more than ten seconds later, and at none were
      there four newer measures of the anchor that still stood. */
  lemma {:induction false} WindowExactly(
      fit: (seq<Measure>, int) -> seq<real>, arrivals: seq<Arrival>, tag: ShortId, anchor: ShortId)
    requires LastTime(arrivals, tag).Some?
    ensures var time, l := LastTime(arrivals, tag).value, Log(arrivals, tag, anchor);
            Stored(Run(fit, arrivals), tag, anchor) == Trim(History(arrivals, tag, anchor), time)
            <==> forall i: nat :: InWindow(l, i, time) ==> Survives(l, i)
  {
    var l, n, time := Log(arrivals, tag, anchor), |arrivals|, LastTime(arrivals, tag).value;
    var kept, all := Kept(l, n), Recents(l, OwnOnes(l, n), time);
    assert arrivals[..n] == arrivals;
    StoredAreKept(fit, l, n);
    WindowIsTrimmed(l, time);
    WindowMembers(l, time);
    KeptExactly(l, n);
    RecentsMembers(l, OwnOnes(l, n), time);
    RecentsWithin(l, OwnOnes(l, n), time);
    assert Window(l, time) == First(all, MAX_MEASURES);
    hide Kept, Recents, OwnOnes, Window, Run, History, Trim, Stored, InWindow, First, LastTime, Own, RecentAt;
    forall i: nat
      ensures i in kept <==> Survives(l, i)
    {
    }
    KeptIsRecent(l, kept, all, time);
    if forall i: nat :: InWindow(l, i, time) ==> Survives(l, i) {
      FirstOnly(kept, all, MAX_MEASURES);
    }
    if Measured(l, kept) == Measured(l, First(all, MAX_MEASURES)) {
      FirstByMeasures(l, kept, all, MAX_MEASURES);
    }
  }

  lemma {:induction false} KeptIsRecent(l: Log, kept: seq<nat>, all: seq<nat>, time: int)
    requires LastTime(l.arrivals, l.tag) == Some(time)
    requires Below(kept, |l.arrivals|) && Below(all, |l.arrivals|)
    requires forall i: nat :: i in kept <==> Survives(l, i)
    requires forall i: nat :: i in all <==> i < |l.arrivals| && Own(l, i) && RecentAt(l, i, time)
    ensures Part(kept, all) && NewerFirst(l, kept, all)
  {
    forall i: nat | i in kept
      ensures i in all
    {
      SurvivorsAreOwn(l, i, |l.arrivals|);
      SurvivorsAreRecent(l, i, time);
    }
    forall p, q | 0 <= p < |kept| && 0 <= q < |all| && kept[p] < all[q] && Time(l, kept[p]) == Time(l, all[q])
      ensures all[q] in kept
    {
      assert kept[p] in kept && all[q] in all;
      SameTimeSurvives(l, kept[p], all[q]);
    }
  }
}
