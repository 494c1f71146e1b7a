/** Area enter and leave events: src/main/java/co/blastlab/indoornavi/socket/area/AreaEventController.java. */
module AreaEvents {
  import opened Wrappers

  datatype Mode = OnEnter | OnLeave

  datatype AreaConfiguration = AreaConfiguration(mode: Mode, offset: int, tags: seq<int>)

  datatype Area = Area(id: int, name: string, hMin: Option<int>, hMax: Option<int>,
                       configurations: seq<AreaConfiguration>)

  datatype AreaEvent = AreaEvent(mode: Mode, area: Area, tag: int, date: int)

  /** When each tag was last seen in each area. */
  type History = map<(int, Area), int>

  datatype Position = Position(tag: int, z: int, date: int)

  const ONE_MINUTE := 60000

  datatype Outcome = Outcome(history: History, events: seq<AreaEvent>)

  // ---------------------------------------------------------------------------
  // One position.

  predicate HasRow(h: History, tag: int) {
    exists key :: key in h && key.0 == tag
  }

  /** Both bounds are inclusive together, and exclusive alone. */
  predicate InHeightRange(area: Area, z: int) {
    match (area.hMin, area.hMax)
    case (Some(min), Some(max)) => min <= z <= max
    case (None, Some(max)) => z < max
    case (Some(min), None) => min < z
    case (None, None) => true
  }

  /** One configuration of one area; `inside` says that the point is in the area grown by the offset. */
  function Step(h: History, at: Position, area: Area, mode: Mode, inside: bool, now: int): Outcome {
    var key := (at.tag, area);
    var event := AreaEvent(mode, area, at.tag, at.date);
    if inside then
      if !HasRow(h, at.tag) && mode == OnEnter then Outcome(h[key := now], [event])
      else if key in h then Outcome(h[key := now], [])
      else if HasRow(h, at.tag) then Outcome(h[key := now], [event])
      else Outcome(h, [])
    else if key in h && mode == OnLeave then Outcome(h - {key}, [event])
    else Outcome(h, [])
  }

  /** All configurations of one area, in order.  `within` holds the pairs of an area and an offset such
      that the point is in the area grown by the offset. */
  function Pass(h: History, at: Position, area: Area, configurations: seq<AreaConfiguration>, within: set<(Area, int)>,
                now: int): Outcome
    decreases |configurations|
  {
    if configurations == [] then Outcome(h, [])
    else
      var first := Step(h, at, area, configurations[0].mode, Inside(area, configurations[0], within), now);
      var rest := Pass(first.history, at, area, configurations[1..], within, now);
      Outcome(rest.history, first.events + rest.events)
  }

  predicate Inside(area: Area, configuration: AreaConfiguration, within: set<(Area, int)>) {
    (area, configuration.offset) in within
  }

  /** `near` holds the pairs for which the geometry library finds the point near enough, on the plane. */
  function Containing(near: set<(Area, int)>, z: int): set<(Area, int)> {
    set pair | pair in near && InHeightRange(pair.0, z)
  }

  /** The areas of the map in one order of iteration. */
  function Run(h: History, at: Position, areas: map<Area, seq<AreaConfiguration>>, order: seq<Area>,
               within: set<(Area, int)>, now: int): Outcome
    requires forall area :: area in order ==> area in areas
    decreases |order|
  {
    if order == [] then Outcome(h, [])
    else
      var first := Pass(h, at, order[0], areas[order[0]], within, now);
      var rest := Run(first.history, at, areas, order[1..], within, now);
      Outcome(rest.history, first.events + rest.events)
  }

  ghost predicate Enumerates(order: seq<Area>, areas: map<Area, seq<AreaConfiguration>>) {
    && (forall area :: area in order <==> area in areas)
    && (forall i, j :: 0 <= i < j < |order| ==> order[i] != order[j])
  }

  function Sweep(h: History, now: int): History {
    map key | key in h && !(h[key] + ONE_MINUTE < now) :: h[key]
  }

  /** The configurations that name the tag, as often as they name it. */
  function Tagged(configurations: seq<AreaConfiguration>, tag: int): seq<AreaConfiguration> {
    if configurations == [] then []
    else Repeated(configurations[0], configurations[0].tags, tag) + Tagged(configurations[1..], tag)
  }

  function Repeated(configuration: AreaConfiguration, tags: seq<int>, tag: int): seq<AreaConfiguration> {
    if tags == [] then []
    else (if tags[0] == tag then [configuration] else []) + Repeated(configuration, tags[1..], tag)
  }

  function FilteredAreas(floorAreas: seq<Area>, tag: int): map<Area, seq<AreaConfiguration>> {
    map area | area in floorAreas && Tagged(area.configurations, tag) != [] :: Tagged(area.configurations, tag)
  }

  // ---------------------------------------------------------------------------
  // The controller.

  class AreaEventController {
    var history: History

    constructor ()
      ensures history == map[]
    {
      history := map[];
    }

    method UpdateData(now: int)
      modifies this
      ensures history == Sweep(old(history), now)
    {
      var cells := history.Keys;
      while cells != {}
        invariant cells <= history.Keys <= old(history).Keys
        invariant forall key :: key in history ==> history[key] == old(history)[key]
        invariant forall key :: key in old(history) && key !in cells ==>
                    (key in history <==> !(old(history)[key] + ONE_MINUTE < now))
        decreases cells
      {
        var cell :| cell in cells;
        cells := cells - {cell};
        if history[cell] + ONE_MINUTE < now {
          history := history - {cell};
        }
      }
    }

    /** A HashMap is iterated in an unknown order, which the ghost result records. */
    method CheckCoordinates(at: Position, floorAreas: seq<Area>, near: set<(Area, int)>, now: int)
      returns (events: seq<AreaEvent>, ghost order: seq<Area>)
      requires forall i, j :: 0 <= i < j < |floorAreas| ==> floorAreas[i] != floorAreas[j]
      modifies this
      ensures Enumerates(order, FilteredAreas(floorAreas, at.tag))
      ensures Outcome(history, events)
              == Run(old(history), at, FilteredAreas(floorAreas, at.tag), order, Containing(near, at.z), now)
    {
      var areas := GetFilteredAreas(floorAreas, at.tag);
      var entries := areas.Keys;
      events, order := [], [];
      while entries != {}
        invariant entries <= areas.Keys
        invariant forall area :: area in order <==> area in areas && area !in entries
        invariant forall i, j :: 0 <= i < j < |order| ==> order[i] != order[j]
        invariant Outcome(history, events) == Run(old(history), at, areas, order, Containing(near, at.z), now)
        decreases entries
      {
        var area :| area in entries;
        entries := entries - {area};
        RunOneMore(old(history), at, areas, order, area, Containing(near, at.z), now);
        var more := CheckArea(at, area, areas[area], near, now);
        order := order + [area];
        events := events + more;
      }
    }

    method CheckArea(at: Position, area: Area, configurations: seq<AreaConfiguration>, near: set<(Area, int)>, now: int)
      returns (events: seq<AreaEvent>)
      modifies this
      ensures Outcome(history, events) == Pass(old(history), at, area, configurations, Containing(near, at.z), now)
    {
      hide Step, Inside;
      events := [];
      var i := 0;
      assert configurations[..0] == [];
      while i < |configurations|
        invariant 0 <= i <= |configurations|
        invariant Outcome(history, events)
                  == Pass(old(history), at, area, configurations[..i], Containing(near, at.z), now)
      {
        PassOneMore(old(history), at, area, configurations[..i], configurations[i], Containing(near, at.z), now);
        assert configurations[..i + 1] == configurations[..i] + [configurations[i]];
        var more := CheckConfiguration(at, area, configurations[i], near, now);
        events := events + more;
        i := i + 1;
      }
      assert configurations[..i] == configurations;
    }

    method CheckConfiguration(at: Position, area: Area, configuration: AreaConfiguration, near: set<(Area, int)>,
                              now: int)
      returns (events: seq<AreaEvent>)
      modifies this
      ensures Outcome(history, events)
           == Step(old(history), at, area, configuration.mode, Inside(area, configuration, Containing(near, at.z)), now)
    {
      events := [];
      var key, event := (at.tag, area), AreaEvent(configuration.mode, area, at.tag, at.date);
      if IsWithin(area, configuration.offset, at, near) {
        if !HasRow(history, at.tag) && configuration.mode == OnEnter {
          events := [event];
          history := history[key := now];
        } else if key in history {
          history := history[key := now];
        } else if HasRow(history, at.tag) {
          events := [event];
          history := history[key := now];
        }
      } else if key in history && configuration.mode == OnLeave {
        events := [event];
        history := history - {key};
      }
    }

    predicate IsWithin(area: Area, offset: int, at: Position, near: set<(Area, int)>) {
      (area, offset) in near && InHeightRange(area, at.z)
    }

    method GetFilteredAreas(floorAreas: seq<Area>, tag: int) returns (filtered: map<Area, seq<AreaConfiguration>>)
      requires forall i, j :: 0 <= i < j < |floorAreas| ==> floorAreas[i] != floorAreas[j]
      ensures filtered == FilteredAreas(floorAreas, tag)
    {
      filtered := map[];
      var i := 0;
      assert FilteredAreas(floorAreas[..0], tag) == map[];
      hide FilteredAreas, AddAll, Repeated;
      while i < |floorAreas|
        invariant 0 <= i <= |floorAreas|
        invariant filtered == FilteredAreas(floorAreas[..i], tag)
      {
        var area := floorAreas[i];
        ghost var before := filtered;
        var j := 0;
        NothingTagged(before, area, tag);
        assert area.configurations[..0] == [];
        while j < |area.configurations|
          invariant 0 <= j <= |area.configurations|
          invariant filtered == AddAll(before, area, Tagged(area.configurations[..j], tag))
        {
          var configuration := area.configurations[j];
          filtered := AddConfiguration(filtered, area, configuration, tag);
          TaggedOneMore(area.configurations[..j], configuration, tag);
          assert area.configurations[..j + 1] == area.configurations[..j] + [configuration];
          AddAllJoin(before, area, Tagged(area.configurations[..j], tag),
                     Repeated(configuration, configuration.tags, tag));
          j := j + 1;
        }
        assert area.configurations[..j] == area.configurations;
        assert floorAreas[..i + 1] == floorAreas[..i] + [area];
        FilteredOneMore(floorAreas[..i], area, tag);
        i := i + 1;
      }
      assert floorAreas[..i] == floorAreas;
    }

    method AddConfiguration(areas: map<Area, seq<AreaConfiguration>>, area: Area, configuration: AreaConfiguration,
                            tag: int)
      returns (filtered: map<Area, seq<AreaConfiguration>>)
      ensures filtered == AddAll(areas, area, Repeated(configuration, configuration.tags, tag))
    {
      filtered := areas;
      var k := 0;
      assert configuration.tags[..0] == [];
      while k < |configuration.tags|
        invariant 0 <= k <= |configuration.tags|
        invariant filtered == AddAll(areas, area, Repeated(configuration, configuration.tags[..k], tag))
      {
        RepeatedOneMore(configuration, configuration.tags[..k], configuration.tags[k], tag);
        assert configuration.tags[..k + 1] == configuration.tags[..k] + [configuration.tags[k]];
        AddAllJoin(areas, area, Repeated(configuration, configuration.tags[..k], tag), [configuration]);
        AddAllJoin(areas, area, Repeated(configuration, configuration.tags[..k], tag), []);
        if configuration.tags[k] == tag {
          if area in filtered {
            filtered := filtered[area := filtered[area] + [configuration]];
          } else {
            filtered := filtered[area := [configuration]];
            assert [] + [configuration] == [configuration];
          }
        }
        k := k + 1;
      }
      assert configuration.tags[..k] == configuration.tags;
    }
  }

  lemma {:induction false} NothingTagged(areas: map<Area, seq<AreaConfiguration>>, area: Area, tag: int)
    ensures AddAll(areas, area, Tagged([], tag)) == areas
  {
  }

  lemma {:induction false} FilteredOneMore(floorAreas: seq<Area>, area: Area, tag: int)
    requires area !in floorAreas
    ensures AddAll(FilteredAreas(floorAreas, tag), area, Tagged(area.configurations, tag))
         == FilteredAreas(floorAreas + [area], tag)
  {
    hide Tagged;
    assert [] + Tagged(area.configurations, tag) == Tagged(area.configurations, tag);
  }

  /** The entry of an area is made with its first configuration. */
  function AddAll(areas: map<Area, seq<AreaConfiguration>>, area: Area,
                  more: seq<AreaConfiguration>): map<Area, seq<AreaConfiguration>> {
    if more == [] then areas
    else areas[area := (if area in areas then areas[area] else []) + more]
  }

  lemma {:induction false} AddAllJoin(areas: map<Area, seq<AreaConfiguration>>, area: Area, a: seq<AreaConfiguration>,
                                      b: seq<AreaConfiguration>)
    ensures AddAll(AddAll(areas, area, a), area, b) == AddAll(areas, area, a + b)
  {
    if a == [] {
      assert a + b == b;
    } else if b == [] {
      assert a + b == a;
    } else {
      var listed := if area in areas then areas[area] else [];
      assert (listed + a) + b == listed + (a + b);
    }
  }

  lemma {:induction false} RepeatedOneMore(configuration: AreaConfiguration, tags: seq<int>, last: int, tag: int)
    ensures Repeated(configuration, tags + [last], tag)
         == Repeated(configuration, tags, tag) + (if last == tag then [configuration] else [])
  {
    if tags == [] {
      assert [last][1..] == [];
    } else {
      assert (tags + [last])[1..] == tags[1..] + [last];
      RepeatedOneMore(configuration, tags[1..], last, tag);
    }
  }

  lemma {:induction false} TaggedOneMore(configurations: seq<AreaConfiguration>, last: AreaConfiguration, tag: int)
    ensures Tagged(configurations + [last], tag) == Tagged(configurations, tag) + Repeated(last, last.tags, tag)
  {
    hide Repeated;
    if configurations == [] {
      assert [last][1..] == [];
      assert Tagged([last], tag) == Repeated(last, last.tags, tag) + [];
    } else {
      assert (configurations + [last])[1..] == configurations[1..] + [last];
      TaggedOneMore(configurations[1..], last, tag);
    }
  }

  lemma {:induction false} PassOneMore(h: History, at: Position, area: Area, configurations: seq<AreaConfiguration>,
                                       last: AreaConfiguration, within: set<(Area, int)>, now: int)
    ensures var before := Pass(h, at, area, configurations, within, now);
            var step := Step(before.history, at, area, last.mode, Inside(area, last, within), now);
            Pass(h, at, area, configurations + [last], within, now)
            == Outcome(step.history, before.events + step.events)
    decreases |configurations|
  {
    hide Step, Inside;
    if configurations == [] {
      assert [last][1..] == [];
      var step := Step(h, at, area, last.mode, Inside(area, last, within), now);
      assert Pass(step.history, at, area, [], within, now) == Outcome(step.history, []);
      assert step.events + [] == [] + step.events;
    } else {
      assert (configurations + [last])[1..] == configurations[1..] + [last];
      var first := Step(h, at, area, configurations[0].mode, Inside(area, configurations[0], within), now);
      PassOneMore(first.history, at, area, configurations[1..], last, within, now);
    }
  }

  lemma {:induction false} RunOneMore(h: History, at: Position, areas: map<Area, seq<AreaConfiguration>>,
                                      order: seq<Area>, last: Area, within: set<(Area, int)>, now: int)
    requires last in areas && forall area :: area in order ==> area in areas
    ensures var before := Run(h, at, areas, order, within, now);
            var pass := Pass(before.history, at, last, areas[last], within, now);
            Run(h, at, areas, order + [last], within, now) == Outcome(pass.history, before.events + pass.events)
    decreases |order|
  {
    hide Pass;
    if order == [] {
      assert [last][1..] == [];
      var pass := Pass(h, at, last, areas[last], within, now);
      assert Run(pass.history, at, areas, [], within, now) == Outcome(pass.history, []);
      assert pass.events + [] == [] + pass.events;
    } else {
      assert (order + [last])[1..] == order[1..] + [last];
      var first := Pass(h, at, order[0], areas[order[0]], within, now);
      RunOneMore(first.history, at, areas, order[1..], last, within, now);
    }
  }

  // ---------------------------------------------------------------------------
  // One area.

  /** One offset for the tag, and so one answer to whether the point is inside. */
  predicate OneOffset(configurations: seq<AreaConfiguration>) {
    forall i :: 0 <= i < |configurations| ==> configurations[i].offset == configurations[0].offset
  }

  predicate EnterFirst(configurations: seq<AreaConfiguration>) {
    configurations != [] && configurations[0].mode == OnEnter
  }

  predicate HasLeave(configurations: seq<AreaConfiguration>) {
    exists i :: 0 <= i < |configurations| && configurations[i].mode == OnLeave
  }

  /** The point is in the area, by the offset that the tag has there. */
  predicate Within(area: Area, configurations: seq<AreaConfiguration>, within: set<(Area, int)>) {
    configurations != [] && Inside(area, configurations[0], within)
  }

  /** What the pass over one area ought to do: keep the entry exactly while the point is inside, and tell
      of the change. */
  function Tracking(h: History, at: Position, area: Area, inside: bool, now: int): Outcome {
    var key := (at.tag, area);
    if inside then Outcome(h[key := now], if key in h then [] else [AreaEvent(OnEnter, area, at.tag, at.date)])
    else if key in h then Outcome(h - {key}, [AreaEvent(OnLeave, area, at.tag, at.date)])
    else Outcome(h, [])
  }

  /** The same, except that without an ON_LEAVE configuration the entry stays. */
  function Entering(h: History, at: Position, area: Area, inside: bool, leaves: bool, now: int): Outcome {
    if !inside && !leaves then Outcome(h, []) else Tracking(h, at, area, inside, now)
  }

  lemma {:induction false} PassStays(h: History, at: Position, area: Area, configurations: seq<AreaConfiguration>,
                                     within: set<(Area, int)>, now: int, inside: bool)
    requires forall i :: 0 <= i < |configurations| ==> Inside(area, configurations[i], within) == inside
    requires if inside then (at.tag, area) in h && h[(at.tag, area)] == now else (at.tag, area) !in h
    ensures Pass(h, at, area, configurations, within, now) == Outcome(h, [])
    decreases |configurations|
  {
    hide Inside;
    if configurations != [] {
      if inside {
        assert h[(at.tag, area) := now] == h;
      }
      PassStays(h, at, area, configurations[1..], within, now, inside);
    }
  }

  lemma {:induction false} PassLeaves(h: History, at: Position, area: Area, configurations: seq<AreaConfiguration>,
                                      within: set<(Area, int)>, now: int)
    requires forall i :: 0 <= i < |configurations| ==> !Inside(area, configurations[i], within)
    requires (at.tag, area) in h
    ensures Pass(h, at, area, configurations, within, now)
         == Entering(h, at, area, false, HasLeave(configurations), now)
    decreases |configurations|
  {
    hide Inside;
    if configurations != [] {
      assert HasLeave(configurations) <==> configurations[0].mode == OnLeave || HasLeave(configurations[1..]) by {
        if i :| 0 < i < |configurations| && configurations[i].mode == OnLeave {
          assert configurations[1..][i - 1].mode == OnLeave;
        }
        if i :| 0 <= i < |configurations[1..]| && configurations[1..][i].mode == OnLeave {
          assert configurations[i + 1].mode == OnLeave;
        }
      }
      if configurations[0].mode == OnLeave {
        PassStays(h - {(at.tag, area)}, at, area, configurations[1..], within, now, false);
      } else {
        PassLeaves(h, at, area, configurations[1..], within, now);
      }
    }
  }

  /** With an ON_ENTER configuration first, the pass tracks containment, up to a missing ON_LEAVE. */
  lemma {:induction false} PassEnters(h: History, at: Position, area: Area, configurations: seq<AreaConfiguration>,
                                      within: set<(Area, int)>, now: int)
    requires EnterFirst(configurations) && OneOffset(configurations)
    ensures Pass(h, at, area, configurations, within, now)
         == Entering(h, at, area, Within(area, configurations, within), HasLeave(configurations), now)
  {
    var inside := Within(area, configurations, within);
    assert forall i :: 0 <= i < |configurations| ==> Inside(area, configurations[i], within) == inside by {
      forall i | 0 <= i < |configurations| ensures Inside(area, configurations[i], within) == inside {
        assert configurations[i].offset == configurations[0].offset;
      }
    }
    hide Inside, Within;
    var key := (at.tag, area);
    if inside {
      if key in h {
        assert HasRow(h, at.tag);
      }
      var first := Step(h, at, area, OnEnter, true, now);
      PassStays(first.history, at, area, configurations[1..], within, now, true);
    } else if key in h {
      PassLeaves(h, at, area, configurations, within, now);
    } else {
      PassStays(h, at, area, configurations, within, now, false);
    }
  }

  /** From every history and for every point the pass does what it ought to. */
  ghost predicate Tracks(area: Area, configurations: seq<AreaConfiguration>) {
    forall h: History, at: Position, within: set<(Area, int)>, now: int ::
      Pass(h, at, area, configurations, within, now)
      == Tracking(h, at, area, Within(area, configurations, within), now)
  }

  /** The order of the configurations matters: an area tracks its tags exactly when the first of its
      configurations is ON_ENTER and one of them is ON_LEAVE. */
  lemma {:induction false} TracksExactly(area: Area, configurations: seq<AreaConfiguration>)
    requires OneOffset(configurations)
    ensures Tracks(area, configurations) <==> EnterFirst(configurations) && HasLeave(configurations)
  {
    if EnterFirst(configurations) && HasLeave(configurations) {
      forall h: History, at: Position, within: set<(Area, int)>, now: int
        ensures Pass(h, at, area, configurations, within, now)
                == Tracking(h, at, area, Within(area, configurations, within), now)
      {
        PassEnters(h, at, area, configurations, within, now);
      }
    } else if !HasLeave(configurations) {
      NeverLeaves(area, configurations);
    } else {
      EntersWithLeave(area, configurations);
    }
  }

  lemma {:induction false} NeverLeaves(area: Area, configurations: seq<AreaConfiguration>)
    requires !HasLeave(configurations)
    ensures !Tracks(area, configurations)
  {
    var at := Position(1, 0, 0);
    var h: History := map[(1, area) := 0];
    PassLeaves(h, at, area, configurations, {}, 0);
    assert (1, area) !in Tracking(h, at, area, false, 0).history;
    assert Pass(h, at, area, configurations, {}, 0) != Tracking(h, at, area, Within(area, configurations, {}), 0);
  }

  /** An ON_LEAVE configuration in front tells of a leave when the tag comes from another area. */
  lemma {:induction false} EntersWithLeave(area: Area, configurations: seq<AreaConfiguration>)
    requires OneOffset(configurations) && configurations != [] && configurations[0].mode == OnLeave
    ensures !Tracks(area, configurations)
  {
    var at := Position(1, 0, 0);
    var within := {(area, configurations[0].offset)};
    var h: History := map[(1, area.(id := area.id + 1)) := 0];
    LeaveOnEntry(h, at, area, configurations, within, 0);
    assert Pass(h, at, area, configurations, within, 0)
           != Tracking(h, at, area, Within(area, configurations, within), 0);
  }

  lemma {:induction false} LeaveOnEntry(h: History, at: Position, area: Area, configurations: seq<AreaConfiguration>,
                                        within: set<(Area, int)>, now: int)
    requires OneOffset(configurations) && configurations != [] && configurations[0].mode == OnLeave
    requires Within(area, configurations, within) && (at.tag, area) !in h && HasRow(h, at.tag)
    ensures Pass(h, at, area, configurations, within, now)
         == Outcome(h[(at.tag, area) := now], [AreaEvent(OnLeave, area, at.tag, at.date)])
  {
    assert forall i :: 0 <= i < |configurations| ==> Inside(area, configurations[i], within) by {
      forall i | 0 <= i < |configurations| ensures Inside(area, configurations[i], within) {
        assert configurations[i].offset == configurations[0].offset;
      }
    }
    hide Inside;
    PassStays(h[(at.tag, area) := now], at, area, configurations[1..], within, now, true);
  }

  // ---------------------------------------------------------------------------
  // All areas of a floor, in any order.

  ghost predicate AllEnterFirst(areas: map<Area, seq<AreaConfiguration>>) {
    forall area :: area in areas ==> EnterFirst(areas[area])
  }

  ghost predicate AllOneOffset(areas: map<Area, seq<AreaConfiguration>>) {
    forall area :: area in areas ==> OneOffset(areas[area])
  }

  /** The events of the areas in `order`, each judged by the history before the position. */
  function Told(h: History, at: Position, areas: map<Area, seq<AreaConfiguration>>, order: seq<Area>,
                within: set<(Area, int)>, now: int): seq<AreaEvent>
    requires forall area :: area in order ==> area in areas
  {
    if order == [] then []
    else
      Entering(h, at, order[0], Within(order[0], areas[order[0]], within), HasLeave(areas[order[0]]), now).events
      + Told(h, at, areas, order[1..], within, now)
  }

  /** `after` keeps the entries of the areas in `order` just as a pass over each alone would. */
  ghost predicate Kept(h: History, after: History, at: Position, areas: map<Area, seq<AreaConfiguration>>,
                       order: seq<Area>, within: set<(Area, int)>, now: int)
    requires forall area :: area in order ==> area in areas
  {
    forall tag, area ::
      if tag == at.tag && area in order then
        var alone := Entering(h, at, area, Within(area, areas[area], within), HasLeave(areas[area]), now).history;
        SameEntry(after, alone, (tag, area))
      else SameEntry(after, h, (tag, area))
  }

  predicate SameEntry(g: History, h: History, key: (int, Area)) {
    (key in g <==> key in h) && (key in g ==> g[key] == h[key])
  }

  /** The areas do not disturb each other: each is treated as if it were alone. */
  lemma {:induction false} RunSeparates(h: History, at: Position, areas: map<Area, seq<AreaConfiguration>>,
                                        order: seq<Area>, within: set<(Area, int)>, now: int)
    requires forall area :: area in order ==> area in areas
    requires forall i, j :: 0 <= i < j < |order| ==> order[i] != order[j]
    requires AllEnterFirst(areas) && AllOneOffset(areas)
    ensures Kept(h, Run(h, at, areas, order, within, now).history, at, areas, order, within, now)
    ensures Run(h, at, areas, order, within, now).events == Told(h, at, areas, order, within, now)
    decreases |order|
  {
    hide Run, Told, Kept, Entering, Within, HasLeave, AllEnterFirst, AllOneOffset, SameEntry;
    if order == [] {
      NothingRuns(h, at, areas, order, within, now);
    } else {
      var area := order[0];
      var first := Entering(h, at, area, Within(area, areas[area], within), HasLeave(areas[area]), now);
      FirstRuns(h, at, areas, order, within, now);
      RunSeparates(first.history, at, areas, order[1..], within, now);
      assert forall other :: other in order[1..] ==> other != area;
      ToldLater(h, first.history, at, areas, order[1..], within, now, area);
      KeptOneMore(h, first.history, Run(first.history, at, areas, order[1..], within, now).history, at, areas, order,
                  within, now);
    }
  }

  lemma {:induction false} NothingRuns(h: History, at: Position, areas: map<Area, seq<AreaConfiguration>>,
                                       order: seq<Area>, within: set<(Area, int)>, now: int)
    requires order == []
    ensures Kept(h, Run(h, at, areas, order, within, now).history, at, areas, order, within, now)
    ensures Run(h, at, areas, order, within, now).events == Told(h, at, areas, order, within, now)
  {
    hide Entering;
  }

  /** The first area is entered or left, and then the others run. */
  lemma {:induction false} FirstRuns(h: History, at: Position, areas: map<Area, seq<AreaConfiguration>>,
                                     order: seq<Area>, within: set<(Area, int)>, now: int)
    requires order != [] && forall area :: area in order ==> area in areas
    requires AllEnterFirst(areas) && AllOneOffset(areas)
    ensures var area := order[0];
            var first := Entering(h, at, area, Within(area, areas[area], within), HasLeave(areas[area]), now);
            var run := Run(h, at, areas, order, within, now);
            var rest := Run(first.history, at, areas, order[1..], within, now);
            && run == Outcome(rest.history, first.events + rest.events)
            && Told(h, at, areas, order, within, now) == first.events + Told(h, at, areas, order[1..], within, now)
            && (forall key :: key != (at.tag, area) ==> SameEntry(first.history, h, key))
  {
    var area := order[0];
    assert area in order && EnterFirst(areas[area]) && OneOffset(areas[area]);
    hide Pass, Within, HasLeave, EnterFirst, OneOffset;
    PassEnters(h, at, area, areas[area], within, now);
    EntersOwn(h, at, area, Within(area, areas[area], within), HasLeave(areas[area]), now);
    hide Entering;
  }

  lemma {:induction false} EntersOwn(h: History, at: Position, area: Area, inside: bool, leaves: bool, now: int)
    ensures var after := Entering(h, at, area, inside, leaves, now).history;
            forall key :: key != (at.tag, area) ==> SameEntry(after, h, key)
  {
  }

  lemma {:induction false} KeptOneMore(h: History, middle: History, after: History, at: Position,
                                       areas: map<Area, seq<AreaConfiguration>>,
                                       order: seq<Area>, within: set<(Area, int)>, now: int)
    requires order != [] && forall area :: area in order ==> area in areas
    requires forall i, j :: 0 <= i < j < |order| ==> order[i] != order[j]
    requires middle == Entering(h, at, order[0], Within(order[0], areas[order[0]], within), HasLeave(areas[order[0]]),
                                now).history
    requires Kept(middle, after, at, areas, order[1..], within, now)
    ensures Kept(h, after, at, areas, order, within, now)
  {
    hide Within, HasLeave;
    forall tag, area
      ensures if tag == at.tag && area in order then
                var alone := Entering(h, at, area, Within(area, areas[area], within), HasLeave(areas[area]),
                                      now).history;
                SameEntry(after, alone, (tag, area))
              else SameEntry(after, h, (tag, area))
    {
      assert area in order <==> area == order[0] || area in order[1..];
      assert order[0] !in order[1..];
      if (tag, area) != (at.tag, order[0]) {
        assert SameEntry(middle, h, (tag, area));
      }
    }
  }

  lemma {:induction false} ToldLater(h: History, middle: History, at: Position,
                                     areas: map<Area, seq<AreaConfiguration>>,
                                     order: seq<Area>, within: set<(Area, int)>, now: int, changed: Area)
    requires forall area :: area in order ==> area in areas && area != changed
    requires forall key :: key != (at.tag, changed) ==> SameEntry(middle, h, key)
    ensures Told(middle, at, areas, order, within, now) == Told(h, at, areas, order, within, now)
  {
    hide Within, HasLeave;
    if order != [] {
      assert order[0] in order;
      assert forall area :: area in order[1..] ==> area in order;
      assert SameEntry(middle, h, (at.tag, order[0]));
      ToldLater(h, middle, at, areas, order[1..], within, now, changed);
    }
  }

  /** After any position, from any history, the row of the tag holds exactly the areas of the floor that
      contain the point, all seen now; entries of other tags and other areas are as before. */
  lemma {:induction false} RowIsContainment(h: History, at: Position, areas: map<Area, seq<AreaConfiguration>>,
                                            order: seq<Area>, within: set<(Area, int)>, now: int)
    requires Enumerates(order, areas) && AllOneOffset(areas)
    requires forall area :: area in areas ==> EnterFirst(areas[area]) && HasLeave(areas[area])
    ensures var after := Run(h, at, areas, order, within, now).history;
            && (forall area :: area in areas ==> ((at.tag, area) in after <==> Within(area, areas[area], within)))
            && (forall area :: area in areas && (at.tag, area) in after ==> after[(at.tag, area)] == now)
            && (forall tag, area :: tag != at.tag || area !in areas ==> SameEntry(after, h, (tag, area)))
  {
    hide Within, HasLeave, EnterFirst, OneOffset;
    RunSeparates(h, at, areas, order, within, now);
    var after := Run(h, at, areas, order, within, now).history;
    hide Run;
    forall area | area in areas
      ensures (at.tag, area) in after <==> Within(area, areas[area], within)
      ensures (at.tag, area) in after ==> after[(at.tag, area)] == now
    {
      var alone := Entering(h, at, area, Within(area, areas[area], within), HasLeave(areas[area]), now).history;
      assert SameEntry(after, alone, (at.tag, area));
    }
    forall tag, area | tag != at.tag || area !in areas ensures SameEntry(after, h, (tag, area)) {
    }
  }

  /** A height at or beyond a bound is out of range, but both bounds themselves are in it where both are given. */
  predicate TooLow(area: Area, z: int) {
    area.hMin.Some? && (z < area.hMin.value || (z == area.hMin.value && area.hMax.None?))
  }

  predicate TooHigh(area: Area, z: int) {
    area.hMax.Some? && (z > area.hMax.value || (z == area.hMax.value && area.hMin.None?))
  }

  /** The row of the tag, by the plane and the height: the areas that the point is near enough to, neither too low
      nor too high for. */
  lemma {:induction false} RowByHeight(h: History, at: Position, areas: map<Area, seq<AreaConfiguration>>,
                                       order: seq<Area>, near: set<(Area, int)>, now: int)
    requires Enumerates(order, areas) && AllOneOffset(areas)
    requires forall area :: area in areas ==> EnterFirst(areas[area]) && HasLeave(areas[area])
    ensures var after := Run(h, at, areas, order, Containing(near, at.z), now).history;
            forall area :: area in areas ==>
              areas[area] != []
              && ((at.tag, area) in after
                  <==> (area, areas[area][0].offset) in near && !TooLow(area, at.z) && !TooHigh(area, at.z))
  {
    RowIsContainment(h, at, areas, order, Containing(near, at.z), now);
    hide Run, HasLeave, EnterFirst, OneOffset;
    forall area | area in areas
      ensures areas[area] != []
      ensures Within(area, areas[area], Containing(near, at.z))
              <==> (area, areas[area][0].offset) in near && !TooLow(area, at.z) && !TooHigh(area, at.z)
    {
      NotEmpty(areas[area]);
    }
  }

  lemma {:induction false} NotEmpty(configurations: seq<AreaConfiguration>)
    requires EnterFirst(configurations)
    ensures configurations != []
  {
  }

  // ---------------------------------------------------------------------------
  // The order of a map does not matter.

  /** The same history and the same events, whichever way the map is iterated. */
  ghost predicate OrderFree(areas: map<Area, seq<AreaConfiguration>>) {
    forall h: History, at: Position, within: set<(Area, int)>, now: int, a: seq<Area>, b: seq<Area> ::
      Enumerates(a, areas) && Enumerates(b, areas) ==>
        SameOutcome(Run(h, at, areas, a, within, now), Run(h, at, areas, b, within, now))
  }

  ghost predicate SameOutcome(x: Outcome, y: Outcome) {
    x.history == y.history && multiset(x.events) == multiset(y.events)
  }

  lemma {:induction false} ToldMove(h: History, at: Position, areas: map<Area, seq<AreaConfiguration>>,
                                    order: seq<Area>, i: nat, within: set<(Area, int)>, now: int)
    requires forall area :: area in order ==> area in areas
    requires i < |order|
    ensures var own := Entering(h, at, order[i], Within(order[i], areas[order[i]], within), HasLeave(areas[order[i]]),
                                now).events;
            multiset(Told(h, at, areas, order, within, now))
            == multiset(own) + multiset(Told(h, at, areas, order[..i] + order[i + 1..], within, now))
  {
    hide Within, HasLeave, Entering;
    if i == 0 {
      assert order[..0] + order[1..] == order[1..];
    } else {
      ToldMove(h, at, areas, order[1..], i - 1, within, now);
      var without := order[..i] + order[i + 1..];
      assert without[0] == order[0];
      assert without[1..] == order[1..][..i - 1] + order[1..][i..];
    }
  }

  lemma {:induction false} ToldAnyOrder(h: History, at: Position, areas: map<Area, seq<AreaConfiguration>>,
                                        a: seq<Area>, b: seq<Area>, within: set<(Area, int)>, now: int)
    requires forall area :: area in a ==> area in areas
    requires forall area :: area in a <==> area in b
    requires forall i, j :: 0 <= i < j < |a| ==> a[i] != a[j]
    requires forall i, j :: 0 <= i < j < |b| ==> b[i] != b[j]
    ensures multiset(Told(h, at, areas, a, within, now)) == multiset(Told(h, at, areas, b, within, now))
    decreases |a|
  {
    hide Within, HasLeave, Entering;
    assert |b| > 0 ==> b[0] in a;
    if a == [] {
      assert b == [];
    } else {
      assert a[0] in a;
      var i :| 0 <= i < |b| && b[i] == a[0];
      var without := b[..i] + b[i + 1..];
      ToldMove(h, at, areas, b, i, within, now);
      SameRest(a, b, i);
      ToldAnyOrder(h, at, areas, a[1..], without, within, now);
    }
  }

  lemma {:induction false} SameRest(a: seq<Area>, b: seq<Area>, i: nat)
    requires a != [] && i < |b| && b[i] == a[0]
    requires forall area :: area in a <==> area in b
    requires forall i, j :: 0 <= i < j < |a| ==> a[i] != a[j]
    requires forall i, j :: 0 <= i < j < |b| ==> b[i] != b[j]
    ensures var without := b[..i] + b[i + 1..];
            && (forall area :: area in a[1..] <==> area in without)
            && (forall i, j :: 0 <= i < j < |without| ==> without[i] != without[j])
  {
    var without := b[..i] + b[i + 1..];
    forall area ensures area in a[1..] <==> area in without {
      assert area in a <==> area == a[0] || area in a[1..];
      assert area in b <==> area == b[i] || area in without by {
        assert b == b[..i] + [b[i]] + b[i + 1..];
      }
      assert a[0] !in a[1..];
      assert b[i] !in without;
    }
  }

  lemma {:induction false} EnterFirstIsOrderFree(areas: map<Area, seq<AreaConfiguration>>)
    requires AllEnterFirst(areas) && AllOneOffset(areas)
    ensures OrderFree(areas)
  {
    forall h: History, at: Position, within: set<(Area, int)>, now: int, a: seq<Area>, b: seq<Area>
      | Enumerates(a, areas) && Enumerates(b, areas)
      ensures SameOutcome(Run(h, at, areas, a, within, now), Run(h, at, areas, b, within, now))
    {
      hide AllEnterFirst, AllOneOffset, Within, HasLeave, Entering, Told;
      RunSeparates(h, at, areas, a, within, now);
      RunSeparates(h, at, areas, b, within, now);
      ToldAnyOrder(h, at, areas, a, b, within, now);
      SameKept(h, Run(h, at, areas, a, within, now).history, Run(h, at, areas, b, within, now).history, at, areas, a,
               b, within, now);
    }
  }

  lemma {:induction false} SameKept(h: History, x: History, y: History, at: Position,
                                    areas: map<Area, seq<AreaConfiguration>>,
                                    a: seq<Area>, b: seq<Area>, within: set<(Area, int)>, now: int)
    requires Enumerates(a, areas) && Enumerates(b, areas)
    requires Kept(h, x, at, areas, a, within, now) && Kept(h, y, at, areas, b, within, now)
    ensures x == y
  {
    hide Within, HasLeave, Entering;
    forall tag, area ensures SameEntry(x, y, (tag, area)) {
      assert area in a <==> area in b;
    }
    assert forall key: (int, Area) :: key in x <==> key in y by {
      forall key: (int, Area) ensures key in x <==> key in y {
        assert SameEntry(x, y, (key.0, key.1)) && key == (key.0, key.1);
      }
    }
    forall key | key in x ensures x[key] == y[key] {
      assert SameEntry(x, y, (key.0, key.1)) && key == (key.0, key.1);
    }
    assert x.Keys == y.Keys;
  }

  /** An order that starts with two given areas. */
  lemma {:induction false} Order(areas: map<Area, seq<AreaConfiguration>>, rest: set<Area>)
    returns (order: seq<Area>)
    requires rest <= areas.Keys
    ensures forall area :: area in order <==> area in rest
    ensures forall i, j :: 0 <= i < j < |order| ==> order[i] != order[j]
    decreases rest
  {
    order := [];
    if rest != {} {
      var area :| area in rest;
      var others := Order(areas, rest - {area});
      order := [area] + others;
    }
  }

  /** A pass that changes nothing: the point is outside and the tag was never there. */
  lemma {:induction false} RunIdle(h: History, at: Position, areas: map<Area, seq<AreaConfiguration>>, order: seq<Area>,
                                   within: set<(Area, int)>, now: int)
    requires forall area :: area in order ==> area in areas && (at.tag, area) !in h
    requires forall area, offset :: area in order ==> (area, offset) !in within
    ensures Run(h, at, areas, order, within, now) == Outcome(h, [])
    decreases |order|
  {
    hide Pass;
    if order != [] {
      assert order[0] in order;
      PassStays(h, at, order[0], areas[order[0]], within, now, false);
      assert forall area :: area in order[1..] ==> area in order;
      RunIdle(h, at, areas, order[1..], within, now);
    }
  }

  function PassTwo(h: History, at: Position, areas: map<Area, seq<AreaConfiguration>>, a: Area, b: Area,
                   within: set<(Area, int)>, now: int): Outcome
    requires a in areas && b in areas
  {
    var first := Pass(h, at, a, areas[a], within, now);
    var second := Pass(first.history, at, b, areas[b], within, now);
    Outcome(second.history, first.events + second.events)
  }

  lemma {:induction false} RunTwo(h: History, at: Position, areas: map<Area, seq<AreaConfiguration>>, a: Area, b: Area,
                                  rest: seq<Area>, within: set<(Area, int)>, now: int)
    requires a in areas && b in areas
    requires forall area :: area in rest ==>
             area in areas && (at.tag, area) !in PassTwo(h, at, areas, a, b, within, now).history
    requires forall area, offset :: area in rest ==> (area, offset) !in within
    ensures Run(h, at, areas, [a, b] + rest, within, now) == PassTwo(h, at, areas, a, b, within, now)
  {
    hide Pass;
    var first := Pass(h, at, a, areas[a], within, now);
    var second := Pass(first.history, at, b, areas[b], within, now);
    assert ([a, b] + rest)[0] == a && ([a, b] + rest)[1..] == [b] + rest;
    assert ([b] + rest)[0] == b && ([b] + rest)[1..] == rest;
    RunIdle(second.history, at, areas, rest, within, now);
    assert second.events + [] == second.events;
  }

  /** An event that is told in one order of two areas, and not in the other. */
  lemma {:induction false} TwoOrdersDiffer(h: History, at: Position, areas: map<Area, seq<AreaConfiguration>>, a: Area,
                                           b: Area, within: set<(Area, int)>, now: int, event: AreaEvent)
    requires a in areas && b in areas && a != b
    requires forall area :: area in areas && area != a && area != b ==>
               && (at.tag, area) !in PassTwo(h, at, areas, a, b, within, now).history
               && (at.tag, area) !in PassTwo(h, at, areas, b, a, within, now).history
    requires forall area, offset :: (area, offset) in within ==> area == a || area == b
    requires event in PassTwo(h, at, areas, a, b, within, now).events
             && event !in PassTwo(h, at, areas, b, a, within, now).events
    ensures !OrderFree(areas)
  {
    hide PassTwo, Run;
    var rest := Order(areas, areas.Keys - {a, b});
    RunTwo(h, at, areas, a, b, rest, within, now);
    RunTwo(h, at, areas, b, a, rest, within, now);
    var x, y := Run(h, at, areas, [a, b] + rest, within, now), Run(h, at, areas, [b, a] + rest, within, now);
    assert event in multiset(x.events) && event !in multiset(y.events);
    assert Enumerates([a, b] + rest, areas) && Enumerates([b, a] + rest, areas);
    assert !SameOutcome(x, y);
  }

  /** A tag without any entry is never told to leave. */
  lemma {:induction false} EntersFresh(h: History, at: Position, area: Area, configurations: seq<AreaConfiguration>,
                                       within: set<(Area, int)>, now: int)
    requires forall i :: 0 <= i < |configurations| ==> Inside(area, configurations[i], within)
    requires !HasRow(h, at.tag)
    ensures var pass := Pass(h, at, area, configurations, within, now);
            || pass == Outcome(h, [])
            || pass == Outcome(h[(at.tag, area) := now], [AreaEvent(OnEnter, area, at.tag, at.date)])
    ensures EnterFirst(configurations) ==> Pass(h, at, area, configurations, within, now).events != []
    decreases |configurations|
  {
    hide Inside;
    if configurations != [] {
      if configurations[0].mode == OnEnter {
        PassStays(h[(at.tag, area) := now], at, area, configurations[1..], within, now, true);
      } else {
        assert (at.tag, area) !in h;
        EntersFresh(h, at, area, configurations[1..], within, now);
      }
    }
  }

  lemma {:induction false} AllInside(area: Area, configurations: seq<AreaConfiguration>, within: set<(Area, int)>)
    requires OneOffset(configurations) && configurations != []
    ensures forall i :: 0 <= i < |configurations| ==>
              Inside(area, configurations[i], within) == Inside(area, configurations[0], within)
  {
    forall i | 0 <= i < |configurations|
      ensures Inside(area, configurations[i], within) == Inside(area, configurations[0], within)
    {
      assert configurations[i].offset == configurations[0].offset;
    }
  }

  /** The tag goes straight from `b` into `a`: with `a` first it is told as a leave of `a`. */
  lemma {:induction false} LeaveFirstDepends(areas: map<Area, seq<AreaConfiguration>>, a: Area, b: Area)
    requires AllOneOffset(areas) && a in areas && b in areas && a != b
    requires areas[a] != [] && areas[a][0].mode == OnLeave && HasLeave(areas[b])
    ensures !OrderFree(areas)
  {
    var at, h: History := Position(1, 0, 0), map[(1, b) := 0];
    var within := {(a, areas[a][0].offset)};
    assert HasRow(h, 1);
    AllInside(a, areas[a], within);
    LeaveOnEntry(h, at, a, areas[a], within, 0);
    PassLeaves(h[(1, a) := 0], at, b, areas[b], within, 0);
    PassLeaves(h, at, b, areas[b], within, 0);
    EntersFresh(map[], at, a, areas[a], within, 0);
    hide Pass, HasLeave, OrderFree;
    assert h - {(1, b)} == map[];
    TwoOrdersDiffer(h, at, areas, a, b, within, 0, AreaEvent(OnLeave, a, 1, 0));
  }

  /** A tag without any entry is in both areas: with `b` first the enter of `a` is told as a leave. */
  lemma {:induction false} EnterOnlyDepends(areas: map<Area, seq<AreaConfiguration>>, a: Area, b: Area)
    requires AllOneOffset(areas) && a in areas && b in areas && a != b
    requires areas[a] != [] && areas[a][0].mode == OnLeave && EnterFirst(areas[b])
    ensures !OrderFree(areas)
  {
    var at, h: History := Position(1, 0, 0), map[];
    var within := {(a, areas[a][0].offset), (b, areas[b][0].offset)};
    AllInside(a, areas[a], within);
    AllInside(b, areas[b], within);
    EntersFresh(h, at, b, areas[b], within, 0);
    var entered: History := map[(1, b) := 0];
    assert HasRow(entered, 1);
    LeaveOnEntry(entered, at, a, areas[a], within, 0);
    EntersFresh(h, at, a, areas[a], within, 0);
    var first := Pass(h, at, a, areas[a], within, 0);
    PassEnters(first.history, at, b, areas[b], within, 0);
    hide Pass, HasLeave, OrderFree;
    assert h[(1, b) := 0] == entered;
    TwoOrdersDiffer(h, at, areas, b, a, within, 0, AreaEvent(OnLeave, a, 1, 0));
  }

  lemma {:induction false} TwoAreas(order: seq<Area>)
    returns (a: Area, b: Area)
    requires |order| > 1 && forall i, j :: 0 <= i < j < |order| ==> order[i] != order[j]
    ensures a in order && b in order && a != b
  {
    a, b := order[0], order[1];
  }

  lemma {:induction false} OneOrder(areas: map<Area, seq<AreaConfiguration>>, a: seq<Area>, b: seq<Area>)
    requires forall a, b :: a in areas && b in areas ==> a == b
    requires Enumerates(a, areas) && Enumerates(b, areas)
    ensures a == b
  {
    if |a| > 1 {
      var x, y := TwoAreas(a);
      assert false;
    }
    if |b| > 1 {
      var x, y := TwoAreas(b);
      assert false;
    }
    assert |a| == 1 ==> a[0] in b;
    assert |b| == 1 ==> b[0] in a;
  }

  lemma {:induction false} AtMostOneArea(areas: map<Area, seq<AreaConfiguration>>)
    requires forall a, b :: a in areas && b in areas ==> a == b
    ensures OrderFree(areas)
  {
    forall a: seq<Area>, b: seq<Area> | Enumerates(a, areas) && Enumerates(b, areas) ensures a == b {
      OneOrder(areas, a, b);
    }
  }

  /** Neither the history nor the events depend on the order of the map, exactly when every area has an
      ON_ENTER configuration first, or there is but one area. */
  lemma {:induction false} OrderFreeExactly(areas: map<Area, seq<AreaConfiguration>>)
    requires AllOneOffset(areas) && forall area :: area in areas ==> areas[area] != []
    ensures OrderFree(areas) <==> AllEnterFirst(areas) || (forall a, b :: a in areas && b in areas ==> a == b)
  {
    hide OrderFree;
    if AllEnterFirst(areas) {
      EnterFirstIsOrderFree(areas);
    } else {
      var a :| a in areas && !EnterFirst(areas[a]);
      if b :| b in areas && b != a {
        if HasLeave(areas[b]) {
          LeaveFirstDepends(areas, a, b);
        } else {
          EnterOnlyDepends(areas, a, b);
        }
      } else {
        AtMostOneArea(areas);
      }
    }
  }

  // ---------------------------------------------------------------------------
  // Whole runs.

  datatype Input =
    | Reported(at: Position, areas: map<Area, seq<AreaConfiguration>>, order: seq<Area>, within: set<(Area, int)>,
               now: int)
    | Swept(now: int)

  ghost predicate Configured(input: Input) {
    input.Reported? ==> Enumerates(input.order, input.areas) && AllEnterFirst(input.areas) && AllOneOffset(input.areas)
  }

  ghost function After(h: History, input: Input): History
    requires Configured(input)
  {
    match input
    case Reported(at, areas, order, within, now) => Run(h, at, areas, order, within, now).history
    case Swept(now) => Sweep(h, now)
  }

  /** What happens to one tag in one area. */
  datatype Mark = Entered | Left | Evicted

  function Marks(events: seq<AreaEvent>, tag: int, area: Area): seq<Mark> {
    if events == [] then []
    else
      (if events[0].tag == tag && events[0].area == area
       then [if events[0].mode == OnEnter then Entered else Left] else [])
      + Marks(events[1..], tag, area)
  }

  ghost function InputMarks(h: History, input: Input, tag: int, area: Area): seq<Mark>
    requires Configured(input)
  {
    match input
    case Reported(at, areas, order, within, now) => Marks(Run(h, at, areas, order, within, now).events, tag, area)
    case Swept(now) => if (tag, area) in h && now - h[(tag, area)] > 60_000 then [Evicted] else []
  }

  ghost function Trace(h: History, inputs: seq<Input>, tag: int, area: Area): seq<Mark>
    requires forall i :: 0 <= i < |inputs| ==> Configured(inputs[i])
    decreases |inputs|
  {
    if inputs == [] then []
    else InputMarks(h, inputs[0], tag, area) + Trace(After(h, inputs[0]), inputs[1..], tag, area)
  }

  ghost function Final(h: History, inputs: seq<Input>): History
    requires forall i :: 0 <= i < |inputs| ==> Configured(inputs[i])
    decreases |inputs|
  {
    if inputs == [] then h else Final(After(h, inputs[0]), inputs[1..])
  }

  /** Every enter is followed by a leave or an eviction, and every one of these by an enter; `present` at the
      start and `after` at the end say whether the last was an enter. */
  predicate Alternates(marks: seq<Mark>, present: bool, after: bool) {
    if marks == [] then present == after
    else if marks[0] == Entered then !present && Alternates(marks[1..], true, after)
    else present && Alternates(marks[1..], false, after)
  }

  lemma {:induction false} AlternatesJoin(a: seq<Mark>, b: seq<Mark>, present: bool, middle: bool, after: bool)
    requires Alternates(a, present, middle) && Alternates(b, middle, after)
    ensures Alternates(a + b, present, after)
  {
    if a == [] {
      assert a + b == b;
    } else {
      assert (a + b)[1..] == a[1..] + b;
      AlternatesJoin(a[1..], b, a[0] == Entered, middle, after);
    }
  }

  lemma {:induction false} MarksJoin(a: seq<AreaEvent>, b: seq<AreaEvent>, tag: int, area: Area)
    ensures Marks(a + b, tag, area) == Marks(a, tag, area) + Marks(b, tag, area)
  {
    if a == [] {
      assert a + b == b;
    } else {
      assert (a + b)[1..] == a[1..] + b;
      MarksJoin(a[1..], b, tag, area);
    }
  }

  /** The marks of one position are those of the area alone. */
  lemma {:induction false} MarksTold(h: History, at: Position, areas: map<Area, seq<AreaConfiguration>>,
                                     order: seq<Area>, within: set<(Area, int)>, now: int, tag: int, area: Area)
    requires forall x :: x in order ==> x in areas
    requires forall i, j :: 0 <= i < j < |order| ==> order[i] != order[j]
    ensures Marks(Told(h, at, areas, order, within, now), tag, area)
         == if tag == at.tag && area in order
            then Marks(Entering(h, at, area, Within(area, areas[area], within), HasLeave(areas[area]), now).events,
                       tag, area)
            else []
  {
    hide Within, HasLeave, Entering, Marks;
    if order == [] {
      assert Marks([], tag, area) == [] by { NoMarks(tag, area); }
    } else {
      var first := Entering(h, at, order[0], Within(order[0], areas[order[0]], within), HasLeave(areas[order[0]]),
                            now).events;
      assert forall x :: x in order[1..] ==> x in order && x != order[0];
      assert order[0] in order;
      assert area in order <==> area == order[0] || area in order[1..];
      MarksTold(h, at, areas, order[1..], within, now, tag, area);
      MarksJoin(first, Told(h, at, areas, order[1..], within, now), tag, area);
      if tag != at.tag || area != order[0] {
        OtherMarks(h, at, order[0], Within(order[0], areas[order[0]], within), HasLeave(areas[order[0]]), now, tag,
                   area);
      }
    }
  }

  lemma {:induction false} NoMarks(tag: int, area: Area)
    ensures Marks([], tag, area) == []
  {
  }

  lemma {:induction false} OtherMarks(h: History, at: Position, other: Area, inside: bool, leaves: bool, now: int,
                                      tag: int, area: Area)
    requires tag != at.tag || area != other
    ensures Marks(Entering(h, at, other, inside, leaves, now).events, tag, area) == []
  {
    var events := Entering(h, at, other, inside, leaves, now).events;
    if events != [] {
      assert events[1..] == [];
    }
  }

  lemma {:induction false} InputAlternates(h: History, input: Input, tag: int, area: Area)
    requires Configured(input)
    ensures Alternates(InputMarks(h, input, tag, area), (tag, area) in h, (tag, area) in After(h, input))
  {
    match input
    case Swept(now) =>
      assert [Evicted][1..] == [];
    case Reported(at, areas, order, within, now) =>
      hide Within, HasLeave, Run, AllEnterFirst, AllOneOffset;
      RunSeparates(h, at, areas, order, within, now);
      MarksTold(h, at, areas, order, within, now, tag, area);
      var after := Run(h, at, areas, order, within, now).history;
      if tag == at.tag && area in order {
        var alone := Entering(h, at, area, Within(area, areas[area], within), HasLeave(areas[area]), now);
        assert SameEntry(after, alone.history, (tag, area));
        EnteringAlternates(h, at, area, Within(area, areas[area], within), HasLeave(areas[area]), now);
      } else {
        assert SameEntry(after, h, (tag, area));
      }
  }

  lemma {:induction false} EnteringAlternates(h: History, at: Position, area: Area, inside: bool, leaves: bool,
                                              now: int)
    ensures var alone := Entering(h, at, area, inside, leaves, now);
            Alternates(Marks(alone.events, at.tag, area), (at.tag, area) in h, (at.tag, area) in alone.history)
  {
    var events := Entering(h, at, area, inside, leaves, now).events;
    if events != [] {
      assert events[1..] == [];
      assert Marks(events, at.tag, area) == [if events[0].mode == OnEnter then Entered else Left];
    }
  }

  /** Over any run of positions and sweeps, enters and leaves of one tag in one area alternate, except that
      a sweep may evict an entry older than a minute in place of a leave; the history knows which is next. */
  lemma {:induction false} EventsAlternate(h: History, inputs: seq<Input>, tag: int, area: Area)
    requires forall i :: 0 <= i < |inputs| ==> Configured(inputs[i])
    ensures Alternates(Trace(h, inputs, tag, area), (tag, area) in h, (tag, area) in Final(h, inputs))
    decreases |inputs|
  {
    hide Configured, After, InputMarks;
    if inputs != [] {
      InputAlternates(h, inputs[0], tag, area);
      EventsAlternate(After(h, inputs[0]), inputs[1..], tag, area);
      AlternatesJoin(InputMarks(h, inputs[0], tag, area), Trace(After(h, inputs[0]), inputs[1..], tag, area),
                     (tag, area) in h, (tag, area) in After(h, inputs[0]), (tag, area) in Final(h, inputs));
    }
  }
}
