/** The window of recent measurements:
    coordinates-calculator/src/main/java/pl/indoornavi/coordinatescalculator/shared/Storage.java. */
module Storage {
  import opened Wrappers

  /** The number of a tag or of an anchor. */
  datatype ShortId = ShortId(value: int)

  datatype Measure = Measure(distance: real, timestamp: int)

  datatype PolyMeasure = PolyMeasure(measures: seq<Measure>, poly: seq<real>, polyCalculationTimestamp: int)

  /** By tag and anchor. */
  type Measures = map<ShortId, map<ShortId, PolyMeasure>>

  const OLD_DATA_IN_MILLISECONDS := 10000

  const MAX_MEASURES := 4

  // ---------------------------------------------------------------------------
  // One measurement.

  /** `fit` stands for the polynomial fitting of the library.  Nothing is fitted to an empty list. */
  function CalculatePoly(fit: (seq<Measure>, int) -> seq<real>, measures: seq<Measure>, time: int): Option<seq<real>> {
    if |measures| == 1 then Some([measures[0].distance])
    else if measures == [] then None
    else Some(fit(measures, time))
  }

  function Connected(fit: (seq<Measure>, int) -> seq<real>, store: Measures, tag: ShortId, anchor: ShortId,
                     m: Measure): Measures {
    var anchors := if tag in store then store[tag] else map[];
    if anchor !in anchors then store[tag := anchors[anchor := PolyMeasure([m], [m.distance], m.timestamp)]]
    else
      var poly := CalculatePoly(fit, anchors[anchor].measures, m.timestamp);
      if poly.None? then store
      else store[tag := anchors[anchor := PolyMeasure([m] + anchors[anchor].measures, poly.value, m.timestamp)]]
  }

  /** The measures that are not older than ten seconds. */
  function Recent(measures: seq<Measure>, time: int): seq<Measure> {
    if measures == [] then []
    else (if measures[0].timestamp < time - OLD_DATA_IN_MILLISECONDS then [] else [measures[0]])
         + Recent(measures[1..], time)
  }

  function Take(measures: seq<Measure>, n: nat): (r: seq<Measure>)
    ensures |r| <= n
  {
    if |measures| <= n then measures else measures[..n]
  }

  function Trim(measures: seq<Measure>, time: int): seq<Measure> {
    Take(Recent(measures, time), MAX_MEASURES)
  }

  function Cleaned(anchors: map<ShortId, PolyMeasure>, time: int): map<ShortId, PolyMeasure> {
    map anchor | anchor in anchors && Trim(anchors[anchor].measures, time) != [] ::
      anchors[anchor].(measures := Trim(anchors[anchor].measures, time))
  }

  // ---------------------------------------------------------------------------
  // The storage.

  class Storage {
    const fit: (seq<Measure>, int) -> seq<real>
    var measures: Measures

    constructor (fit: (seq<Measure>, int) -> seq<real>)
      ensures this.fit == fit && measures == map[]
    {
      this.fit := fit;
      measures := map[];
    }

    method SetConnection(tag: ShortId, anchor: ShortId, distance: real, time: int)
      modifies this
      ensures measures == Connected(fit, old(measures), tag, anchor, Measure(distance, time))
    {
      var m := Measure(distance, time);
      if tag in measures {
        var anchors := measures[tag];
        if anchor in anchors {
          var poly := CalculatePoly(fit, anchors[anchor].measures, time);
          if poly.Some? {
            measures := measures[tag := anchors[anchor := PolyMeasure([m] + anchors[anchor].measures, poly.value,
                                                                      time)]];
          }
        } else {
          measures := measures[tag := anchors[anchor := PolyMeasure([m], [distance], time)]];
        }
      } else {
        measures := measures[tag := map[anchor := PolyMeasure([m], [distance], time)]];
      }
    }

    /** False where the tag is unknown, which the original runs into as a null reference. */
    method CleanOldData(tag: ShortId, time: int) returns (ok: bool)
      modifies this
      ensures ok == (tag in old(measures))
      ensures measures == if ok then old(measures)[tag := Cleaned(old(measures)[tag], time)] else old(measures)
    {
      if tag !in measures {
        return false;
      }
      var anchors := CleanAnchors(measures[tag], time);
      measures := measures[tag := anchors];
      ok := true;
    }

    method CleanAnchors(tagMeasures: map<ShortId, PolyMeasure>, time: int) returns (anchors: map<ShortId, PolyMeasure>)
      ensures anchors == Cleaned(tagMeasures, time)
    {
      anchors := tagMeasures;
      var left: set<ShortId> := anchors.Keys;
      while left != {}
        invariant left <= anchors.Keys == tagMeasures.Keys
        invariant forall a :: a in anchors ==>
                    anchors[a] == if a in left then tagMeasures[a]
                                  else tagMeasures[a].(measures := Trim(tagMeasures[a].measures, time))
        decreases left
      {
        var anchor :| anchor in left;
        left := left - {anchor};
        var trimmed := RemoveOld(anchors[anchor].measures, time);
        anchors := anchors[anchor := anchors[anchor].(measures := trimmed)];
      }
      left := anchors.Keys;
      while left != {}
        invariant left <= anchors.Keys <= tagMeasures.Keys
        invariant forall a :: a in anchors ==>
                  anchors[a] == tagMeasures[a].(measures := Trim(tagMeasures[a].measures, time))
        invariant forall a :: a in tagMeasures && a !in left ==>
                  (a in anchors <==> Trim(tagMeasures[a].measures, time) != [])
        decreases left
      {
        var anchor :| anchor in left;
        left := left - {anchor};
        if anchors[anchor].measures == [] {
          anchors := anchors - {anchor};
        }
      }
    }

    /** removeIf, and then the removal of the last while there are more than four. */
    method RemoveOld(list: seq<Measure>, time: int) returns (kept: seq<Measure>)
      ensures kept == Trim(list, time)
    {
      kept := [];
      var i := 0;
      while i < |list|
        invariant 0 <= i <= |list|
        invariant kept + Recent(list[i..], time) == Recent(list, time)
      {
        assert list[i..][1..] == list[i + 1..];
        if !(list[i].timestamp < time - OLD_DATA_IN_MILLISECONDS) {
          kept := kept + [list[i]];
        }
        i := i + 1;
      }
      assert kept == Recent(list, time);
      while |kept| > MAX_MEASURES
        invariant Take(kept, MAX_MEASURES) == Trim(list, time)
      {
        kept := kept[..|kept| - 1];
      }
    }

    method GetConnectedAnchors(tag: ShortId, time: int) returns (anchors: Option<set<ShortId>>)
      modifies this
      ensures anchors.Some? == (tag in old(measures))
      ensures anchors.Some? ==>
                && measures == old(measures)[tag := Cleaned(old(measures)[tag], time)]
                && anchors.value == measures[tag].Keys
    {
      var ok := CleanOldData(tag, time);
      anchors := if ok then Some(measures[tag].Keys) else None;
    }

    /** The mean of the stored distances, or nothing. */
    method GetDistance(tag: ShortId, anchor: ShortId) returns (mean: real)
      requires NonEmpty(measures)
      ensures if tag in measures && anchor in measures[tag]
              then |measures[tag][anchor].measures| as real * mean == Sum(measures[tag][anchor].measures)
              else mean == 0.0
    {
      mean := 0.0;
      if tag in measures && anchor in measures[tag] {
        var list := measures[tag][anchor].measures;
        var i := 0;
        while i < |list|
          invariant 0 <= i <= |list|
          invariant mean == Sum(list[..i])
        {
          assert list[..i + 1][..i] == list[..i];
          mean := mean + list[i].distance;
          i := i + 1;
        }
        assert list[..i] == list;
        mean := mean / |list| as real;
      }
    }

    /** The earliest of the latest times of the anchors, and no later than now. */
    method GetTimeOfLastMeasure(tag: ShortId, now: int) returns (time: int)
      requires tag in measures && NonEmpty(measures)
      ensures time <= now
      ensures forall a :: a in measures[tag] ==> exists m :: m in measures[tag][a].measures && time <= m.timestamp
      ensures time < now ==>
                exists a :: a in measures[tag] && Latest(measures[tag][a].measures) == time
    {
      time := now;
      var tagMeasures := measures[tag];
      var left: set<ShortId> := tagMeasures.Keys;
      while left != {}
        invariant left <= tagMeasures.Keys
        invariant time <= now
        invariant forall a :: a in tagMeasures && a !in left ==> time <= Latest(tagMeasures[a].measures)
        invariant time < now ==> exists a :: a in tagMeasures && Latest(tagMeasures[a].measures) == time
        decreases left
      {
        var anchor :| anchor in left;
        left := left - {anchor};
        var latest := Latest(tagMeasures[anchor].measures);
        if latest < time {
          time := latest;
        }
      }
      forall a | a in tagMeasures ensures exists m :: m in tagMeasures[a].measures && time <= m.timestamp {
        LatestIsReached(tagMeasures[a].measures);
      }
    }
  }

  predicate NonEmpty(store: Measures) {
    forall tag, anchor :: tag in store && anchor in store[tag] ==> store[tag][anchor].measures != []
  }

  function Sum(measures: seq<Measure>): real {
    if measures == [] then 0.0 else Sum(measures[..|measures| - 1]) + measures[|measures| - 1].distance
  }

  /** The mean lies between the least and the greatest of the distances. */
  lemma {:induction false} MeanBetween(measures: seq<Measure>, mean: real, low: real, high: real)
    requires measures != [] && |measures| as real * mean == Sum(measures)
    requires forall m :: m in measures ==> low <= m.distance <= high
    ensures low <= mean <= high
  {
    SumBetween(measures, low, high);
    hide Sum;
    NotLess(|measures| as real, low, mean);
    NotLess(|measures| as real, mean, high);
  }

  lemma {:induction false} NotLess(n: real, x: real, y: real)
    requires n > 0.0 && n * x <= n * y
    ensures x <= y
  {
    assert n * (x - y) <= 0.0;
  }

  lemma {:induction false} SumBetween(measures: seq<Measure>, low: real, high: real)
    requires forall m :: m in measures ==> low <= m.distance <= high
    ensures |measures| as real * low <= Sum(measures) <= |measures| as real * high
  {
    if measures != [] {
      var last := |measures| - 1;
      SumBetween(measures[..last], low, high);
      assert measures[last] in measures;
      assert (last + 1) as real * low == last as real * low + low;
      assert (last + 1) as real * high == last as real * high + high;
    }
  }

  function Latest(measures: seq<Measure>): int
    requires measures != []
  {
    if |measures| == 1 then measures[0].timestamp
    else
      var rest := Latest(measures[1..]);
      if measures[0].timestamp >= rest then measures[0].timestamp else rest
  }

  lemma {:induction false} LatestIsReached(measures: seq<Measure>)
    requires measures != []
    ensures exists m :: m in measures && Latest(measures) == m.timestamp
    ensures forall m :: m in measures ==> m.timestamp <= Latest(measures)
  {
    if |measures| == 1 {
      assert measures[0] in measures;
    } else {
      LatestIsReached(measures[1..]);
      var m :| m in measures[1..] && Latest(measures[1..]) == m.timestamp;
      assert measures == [measures[0]] + measures[1..];
      assert m in measures && measures[0] in measures;
    }
  }

  // ---------------------------------------------------------------------------
  // A run: each measurement is stored, and then the connected anchors are asked for.

  datatype Arrival = Arrival(tag: ShortId, anchor: ShortId, measure: Measure)

  function Next(fit: (seq<Measure>, int) -> seq<real>, store: Measures, a: Arrival): Measures {
    var stored: Measures := Connected(fit, store, a.tag, a.anchor, a.measure);
    if a.tag in stored then stored[a.tag := Cleaned(stored[a.tag], a.measure.timestamp)] else stored
  }

  function Run(fit: (seq<Measure>, int) -> seq<real>, arrivals: seq<Arrival>): Measures {
    if arrivals == [] then map[]
    else Next(fit, Run(fit, arrivals[..|arrivals| - 1]), arrivals[|arrivals| - 1])
  }

  /** All that ever arrived from one anchor about one tag, newest first. */
  function History(arrivals: seq<Arrival>, tag: ShortId, anchor: ShortId): seq<Measure> {
    if arrivals == [] then []
    else
      var last := arrivals[|arrivals| - 1];
      (if last.tag == tag && last.anchor == anchor then [last.measure] else [])
      + History(arrivals[..|arrivals| - 1], tag, anchor)
  }

  /** The time of the last arrival about the tag. */
  function LastTime(arrivals: seq<Arrival>, tag: ShortId): Option<int> {
    if arrivals == [] then None
    else if arrivals[|arrivals| - 1].tag == tag then Some(arrivals[|arrivals| - 1].measure.timestamp)
    else LastTime(arrivals[..|arrivals| - 1], tag)
  }

  /** What is stored; an anchor without measures is not. */
  function Stored(store: Measures, tag: ShortId, anchor: ShortId): seq<Measure> {
    if tag in store && anchor in store[tag] then store[tag][anchor].measures else []
  }

  /** Whatever the times, after a measurement every list of its tag has one to four entries, and that of its
      anchor starts with it; the polynomial is fitted to the measures that were there before it. */
  lemma {:induction false} AfterMeasurement(fit: (seq<Measure>, int) -> seq<real>, store: Measures, a: Arrival)
    requires NonEmpty(store)
    ensures var next := Next(fit, store, a);
            && NonEmpty(next)
            && a.tag in next && a.anchor in next[a.tag]
            && (forall anchor :: anchor in next[a.tag] ==> 1 <= |next[a.tag][anchor].measures| <= 4)
            && next[a.tag][a.anchor].measures[0] == a.measure
            && (var before := Stored(store, a.tag, a.anchor);
                next[a.tag][a.anchor].poly == if before == [] then [a.measure.distance]
                                              else if |before| == 1 then [before[0].distance]
                                              else fit(before, a.measure.timestamp))
            && (forall tag :: tag != a.tag ==>
                (tag in next <==> tag in store) && (tag in next ==> next[tag] == store[tag]))
  {
    var stored: Measures := Connected(fit, store, a.tag, a.anchor, a.measure);
    assert a.anchor in stored[a.tag] && stored[a.tag][a.anchor].measures[0] == a.measure;
    var list := stored[a.tag][a.anchor].measures;
    assert Recent(list, a.measure.timestamp)[0] == a.measure;
    assert Trim(list, a.measure.timestamp)[0] == a.measure;
  }

  /** The measurement times of each tag never go back. */
  ghost predicate InOrder(arrivals: seq<Arrival>) {
    forall i, j :: 0 <= i < j < |arrivals| && arrivals[i].tag == arrivals[j].tag ==>
      arrivals[i].measure.timestamp <= arrivals[j].measure.timestamp
  }

  ghost predicate Descending(measures: seq<Measure>) {
    forall i, j :: 0 <= i < j < |measures| ==> measures[i].timestamp >= measures[j].timestamp
  }

  lemma {:induction false} HistoryDescends(arrivals: seq<Arrival>, tag: ShortId, anchor: ShortId)
    requires InOrder(arrivals)
    ensures Descending(History(arrivals, tag, anchor))
    ensures forall m :: m in History(arrivals, tag, anchor) ==>
              LastTime(arrivals, tag).Some? && m.timestamp <= LastTime(arrivals, tag).value
  {
    if arrivals != [] {
      var n := |arrivals| - 1;
      HistoryDescends(arrivals[..n], tag, anchor);
      if arrivals[n].tag == tag {
        LastTimeIsPast(arrivals, tag);
      }
    }
  }

  lemma {:induction false} LastTimeIsReached(arrivals: seq<Arrival>, tag: ShortId)
    requires LastTime(arrivals, tag).Some?
    ensures exists i ::
              && 0 <= i < |arrivals| && arrivals[i].tag == tag
              && arrivals[i].measure.timestamp == LastTime(arrivals, tag).value
  {
    var n := |arrivals| - 1;
    if arrivals[n].tag != tag {
      LastTimeIsReached(arrivals[..n], tag);
    }
  }

  // ---------------------------------------------------------------------------
  // The window.

  lemma {:induction false} RecentTwice(measures: seq<Measure>, earlier: int, time: int)
    requires earlier <= time
    ensures Recent(Recent(measures, earlier), time) == Recent(measures, time)
  {
    if measures != [] {
      RecentTwice(measures[1..], earlier, time);
      var rest := Recent(measures[1..], earlier);
      assert ([measures[0]] + rest)[1..] == rest;
      assert [] + rest == rest;
    }
  }

  /** Of a descending list the recent ones are a prefix, so that it does not matter which is cut off first. */
  lemma {:induction false} TakeRecent(measures: seq<Measure>, time: int, n: nat)
    requires Descending(measures)
    ensures Take(Recent(Take(measures, n), time), n) == Take(Recent(measures, time), n)
    ensures Recent(Take(measures, n), time) == Take(Recent(measures, time), n)
    decreases |measures|
  {
    if measures == [] || n == 0 {
    } else if measures[0].timestamp < time - OLD_DATA_IN_MILLISECONDS {
      NoneRecent(measures, time);
      assert Descending(Take(measures, n));
      NoneRecent(Take(measures, n), time);
    } else {
      var rest := measures[1..];
      TakeRecent(rest, time, n - 1);
      assert Take(measures, n) == [measures[0]] + Take(rest, n - 1);
      assert ([measures[0]] + Take(rest, n - 1))[1..] == Take(rest, n - 1);
      assert Take([measures[0]] + Recent(rest, time), n) == [measures[0]] + Take(Recent(rest, time), n - 1);
    }
  }

  lemma {:induction false} NoneRecent(measures: seq<Measure>, time: int)
    requires Descending(measures)
    requires measures != [] ==> measures[0].timestamp < time - OLD_DATA_IN_MILLISECONDS
    ensures Recent(measures, time) == []
  {
    if |measures| > 1 {
      assert measures[1].timestamp <= measures[0].timestamp;
      NoneRecent(measures[1..], time);
    }
  }

  /** Trimming again, later. */
  lemma {:induction false} TrimTwice(measures: seq<Measure>, earlier: int, time: int)
    requires earlier <= time && Descending(measures)
    ensures Trim(Trim(measures, earlier), time) == Trim(measures, time)
  {
    RecentDescends(measures, earlier);
    TakeRecent(Recent(measures, earlier), time, MAX_MEASURES);
    RecentTwice(measures, earlier, time);
  }

  lemma {:induction false} RecentDescends(measures: seq<Measure>, time: int)
    requires Descending(measures)
    ensures Descending(Recent(measures, time))
  {
    if measures != [] {
      var rest := Recent(measures[1..], time);
      RecentDescends(measures[1..], time);
      RecentMembers(measures[1..], time);
      assert forall m :: m in measures[1..] ==> m.timestamp <= measures[0].timestamp;
      PrependDescends(measures[0], rest);
      assert [] + rest == rest;
    }
  }

  lemma {:induction false} PrependDescends(m: Measure, rest: seq<Measure>)
    requires Descending(rest) && forall x :: x in rest ==> x.timestamp <= m.timestamp
    ensures Descending([m] + rest)
  {
    forall i, j | 0 <= i < j < 1 + |rest| ensures ([m] + rest)[i].timestamp >= ([m] + rest)[j].timestamp {
      assert ([m] + rest)[j] == rest[j - 1] && rest[j - 1] in rest;
    }
  }

  /** A new measure in front of a trimmed list, or of the whole history. */
  lemma {:induction false} TrimWithNew(m: Measure, measures: seq<Measure>, earlier: int)
    requires earlier <= m.timestamp && Descending(measures)
    requires forall x :: x in measures ==> x.timestamp <= m.timestamp
    ensures Trim([m] + Trim(measures, earlier), m.timestamp) == Trim([m] + measures, m.timestamp)
  {
    var time := m.timestamp;
    TrimTwice(measures, earlier, time);
    var kept, all := Trim(measures, earlier), Recent(measures, time);
    assert ([m] + kept)[1..] == kept && ([m] + measures)[1..] == measures;
    assert Recent([m] + kept, time) == [m] + Recent(kept, time);
    assert Recent([m] + measures, time) == [m] + all;
    RecentDescends(measures, earlier);
    TakeRecent(Recent(measures, earlier), time, MAX_MEASURES);
    RecentTwice(measures, earlier, time);
    assert Recent(kept, time) == Take(all, MAX_MEASURES);
    assert Take([m] + Take(all, MAX_MEASURES), MAX_MEASURES) == Take([m] + all, MAX_MEASURES);
  }

  /** What one measurement does to one list. */
  lemma {:induction false} NextStored(fit: (seq<Measure>, int) -> seq<real>, store: Measures, a: Arrival, tag: ShortId,
                                      anchor: ShortId)
    requires NonEmpty(store)
    ensures Stored(Next(fit, store, a), tag, anchor)
         == var kept := Stored(store, tag, anchor);
            if tag != a.tag then kept
            else Trim(if anchor == a.anchor then [a.measure] + kept else kept, a.measure.timestamp)
  {
    var stored: Measures := Connected(fit, store, a.tag, a.anchor, a.measure);
    hide Recent, Take;
    if tag == a.tag {
      EmptyTrim(a.measure.timestamp);
      assert anchor == a.anchor ==> Stored(stored, tag, anchor) == [a.measure] + Stored(store, tag, anchor) by {
        assert [a.measure] + [] == [a.measure];
      }
      assert Stored(Next(fit, store, a), tag, anchor) == Trim(Stored(stored, tag, anchor), a.measure.timestamp);
    }
  }

  lemma {:induction false} EmptyTrim(time: int)
    ensures Trim([], time) == []
  {
  }

  /** With measurement times that never go back for a tag, each list is exactly the newest four, at most, of all
      arrivals from the anchor that are no older than ten seconds at the time of the last arrival. */
  lemma {:induction false} WindowOfHistory(fit: (seq<Measure>, int) -> seq<real>, arrivals: seq<Arrival>, tag: ShortId,
                                           anchor: ShortId)
    requires InOrder(arrivals)
    ensures NonEmpty(Run(fit, arrivals))
    ensures Stored(Run(fit, arrivals), tag, anchor)
         == if LastTime(arrivals, tag).None? then []
            else Trim(History(arrivals, tag, anchor), LastTime(arrivals, tag).value)
  {
    hide *;
    if arrivals == [] {
      NothingStored(fit, tag, anchor);
    } else {
      var n := |arrivals| - 1;
      var before, a := arrivals[..n], arrivals[n];
      assert arrivals == before + [a];
      PrefixInOrder(arrivals, n);
      WindowOfHistory(fit, before, tag, anchor);
      RunMore(fit, before, a);
      AfterMeasurement(fit, Run(fit, before), a);
      NextStored(fit, Run(fit, before), a, tag, anchor);
      HistoryDescends(before, tag, anchor);
      HistoryMore(before, a, tag, anchor);
      LastTimeIs(before, a, tag);
      if a.tag == tag {
        LastTimeIsPast(arrivals, tag);
        WindowStep(History(before, tag, anchor), LastTime(before, tag), a.measure);
      }
    }
  }

  lemma {:induction false} PrefixInOrder(arrivals: seq<Arrival>, n: nat)
    requires InOrder(arrivals) && n <= |arrivals|
    ensures InOrder(arrivals[..n])
  {
  }

  /** The list before, from nothing or from the history up to an earlier time. */
  lemma {:induction false} WindowStep(history: seq<Measure>, earlier: Option<int>, m: Measure)
    requires Descending(history) && (earlier.Some? ==> earlier.value <= m.timestamp)
    requires forall x :: x in history ==> earlier.Some? && x.timestamp <= earlier.value
    ensures var kept := if earlier.None? then [] else Trim(history, earlier.value);
            && Trim([m] + kept, m.timestamp) == Trim([m] + history, m.timestamp)
            && Trim(kept, m.timestamp) == Trim(history, m.timestamp)
  {
    assert history != [] ==> history[0] in history;
    if earlier.None? {
      assert history == [];
    } else {
      hide Trim;
      TrimWithNew(m, history, earlier.value);
      TrimTwice(history, earlier.value, m.timestamp);
    }
  }

  lemma {:induction false} NothingStored(fit: (seq<Measure>, int) -> seq<real>, tag: ShortId, anchor: ShortId)
    ensures NonEmpty(Run(fit, [])) && Stored(Run(fit, []), tag, anchor) == [] && LastTime([], tag) == None
  {
  }

  lemma {:induction false} LastTimeIsPast(arrivals: seq<Arrival>, tag: ShortId)
    requires InOrder(arrivals) && arrivals != [] && arrivals[|arrivals| - 1].tag == tag
    ensures var before := arrivals[..|arrivals| - 1];
            LastTime(before, tag).Some? ==> LastTime(before, tag).value <= arrivals[|arrivals| - 1].measure.timestamp
  {
    var before := arrivals[..|arrivals| - 1];
    if LastTime(before, tag).Some? {
      LastTimeIsReached(before, tag);
    }
  }

  lemma {:induction false} HistoryMore(arrivals: seq<Arrival>, a: Arrival, tag: ShortId, anchor: ShortId)
    ensures History(arrivals + [a], tag, anchor)
         == if a.tag == tag && a.anchor == anchor then [a.measure] + History(arrivals, tag, anchor)
            else History(arrivals, tag, anchor)
  {
    assert (arrivals + [a])[..|arrivals|] == arrivals;
    assert [] + History(arrivals, tag, anchor) == History(arrivals, tag, anchor);
  }

  lemma {:induction false} LastTimeIs(arrivals: seq<Arrival>, a: Arrival, tag: ShortId)
    ensures LastTime(arrivals + [a], tag) == if a.tag == tag then Some(a.measure.timestamp) else LastTime(arrivals, tag)
  {
    assert (arrivals + [a])[..|arrivals|] == arrivals;
  }

  lemma {:induction false} RunMore(fit: (seq<Measure>, int) -> seq<real>, arrivals: seq<Arrival>, a: Arrival)
    ensures Run(fit, arrivals + [a]) == Next(fit, Run(fit, arrivals), a)
  {
    hide Next;
    assert (arrivals + [a])[..|arrivals|] == arrivals;
  }

  lemma {:induction false} RecentMembers(measures: seq<Measure>, time: int)
    ensures forall m :: m in Recent(measures, time) ==> m in measures
  {
    if measures != [] {
      RecentMembers(measures[1..], time);
    }
  }
}
