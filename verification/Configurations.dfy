/** Drafts, publishing and undo of map configurations:
    src/main/java/co/blastlab/indoornavi/rest/facade/configuration/ConfigurationBean.java and
    src/main/java/co/blastlab/indoornavi/utils/ConfigurationExtractor.java. */
module Configurations {
  import opened Wrappers

  datatype FloorId = FloorId(value: int)

  datatype DeviceId = DeviceId(value: int)

  datatype Place = Place(x: Option<int>, y: Option<int>, z: Option<int>)

  const NOWHERE := Place(None, None, None)

  /** `floor` is what the client wrote into the configuration, not where the device is. */
  datatype AnchorDto = AnchorDto(id: DeviceId, place: Place, floor: Option<FloorId>)

  datatype SinkDto = SinkDto(self: AnchorDto, anchors: seq<AnchorDto>)

  /** `rest` stands for the scale, the areas and the paths. */
  datatype Data = Data(sinks: seq<SinkDto>, rest: string)

  const BLANK := Data([], "")

  datatype Configuration = Configuration(version: int, data: Data, published: Option<int>, saved: Option<int>)

  /** A sink is an anchor, too; `sink` is the sink that an anchor belongs to. */
  datatype Device = Device(isSink: bool, floor: Option<FloorId>, place: Place, sink: Option<DeviceId>)

  type Devices = map<DeviceId, Device>

  /** The stored configurations of a floor, in the order in which they were made. */
  type Versions = seq<Configuration>

  datatype Result<T> = Ok(value: T) | NotFound | NullPointer

  // ---------------------------------------------------------------------------
  // Versions.

  /** The index of the greatest version. */
  function Top(rows: Versions): (i: nat)
    requires rows != []
    ensures i < |rows| && forall k :: 0 <= k < |rows| ==> rows[k].version <= rows[i].version
  {
    if |rows| == 1 then 0
    else
      var rest := Top(rows[1..]);
      if rows[0].version >= rows[1..][rest].version then
        assert forall k :: 0 < k < |rows| ==> rows[k] == rows[1..][k - 1];
        0
      else
        assert forall k :: 0 < k < |rows| ==> rows[k] == rows[1..][k - 1];
        rest + 1
  }

  function Without(rows: Versions, i: nat): Versions
    requires i < |rows|
  {
    rows[..i] + rows[i + 1..]
  }

  function Saved(rows: Versions, data: Data, now: int): Versions {
    if rows == [] then [Configuration(0, data, None, Some(now))]
    else
      var top := rows[Top(rows)];
      if top.published.Some? then rows + [Configuration(top.version + 1, data, None, Some(now))]
      else rows[Top(rows) := top.(data := data, saved := Some(now))]
  }

  function Undone(rows: Versions): Result<Versions> {
    if rows == [] then NotFound
    else if |rows| == 1 then Ok([rows[0].(data := BLANK, published := None, saved := None)])
    else Ok(Without(rows, Top(rows)))
  }

  /** The version that a floor shows after an undo. */
  function Shown(rows: Versions): Option<Configuration> {
    if rows == [] then None else Some(rows[Top(rows)])
  }

  // ---------------------------------------------------------------------------
  // Devices.

  /** One device of a configuration; `sink` is None for a sink. */
  datatype Placement = Placement(dto: AnchorDto, sink: Option<DeviceId>)

  function AnchorPlacements(anchors: seq<AnchorDto>, sink: DeviceId): seq<Placement> {
    if anchors == [] then [] else [Placement(anchors[0], Some(sink))] + AnchorPlacements(anchors[1..], sink)
  }

  /** Each sink is followed by its anchors. */
  function Placements(sinks: seq<SinkDto>): seq<Placement> {
    if sinks == [] then []
    else [Placement(sinks[0].self, None)] + AnchorPlacements(sinks[0].anchors, sinks[0].self.id)
         + Placements(sinks[1..])
  }

  function ResetDevice(d: Device): Device {
    d.(floor := None, place := NOWHERE, sink := None)
  }

  /** resetAnchors, after which resetSinks finds no sink left on the floor. */
  function Reset(devices: Devices, floor: FloorId): Devices {
    map id | id in devices :: if devices[id].floor == Some(floor) then ResetDevice(devices[id]) else devices[id]
  }

  predicate Known(devices: Devices, p: Placement) {
    p.dto.id in devices && (p.sink.None? ==> devices[p.dto.id].isSink)
  }

  function Placed(d: Device, p: Placement, floor: FloorId): Device {
    d.(floor := Some(floor), place := p.dto.place, sink := if p.sink.Some? then p.sink else d.sink)
  }

  function Extract(devices: Devices, placements: seq<Placement>, floor: FloorId): Result<Devices>
    decreases |placements|
  {
    if placements == [] then Ok(devices)
    else
      var p := placements[0];
      if !Known(devices, p) then NotFound
      else Extract(devices[p.dto.id := Placed(devices[p.dto.id], p, floor)], placements[1..], floor)
  }

  // ---------------------------------------------------------------------------
  // The report before publishing.

  datatype ReportItem = ReportItem(dto: AnchorDto, floor: FloorId)

  /** The device is on another floor. */
  predicate Elsewhere(devices: Devices, id: DeviceId, floor: FloorId) {
    id in devices && devices[id].floor.Some? && devices[id].floor != Some(floor)
  }

  function Report(devices: Devices, placements: seq<Placement>, floor: FloorId): Result<seq<ReportItem>> {
    if placements == [] then Ok([])
    else
      var dto := placements[0].dto;
      if !Elsewhere(devices, dto.id, floor) then Report(devices, placements[1..], floor)
      else if dto.floor.None? then NullPointer
      else
        match Report(devices, placements[1..], floor)
        case Ok(items) => Ok([ReportItem(dto, dto.floor.value)] + items)
        case NotFound => NotFound
        case NullPointer => NullPointer
  }

  // ---------------------------------------------------------------------------
  // The bean.

  class ConfigurationBean {
    const floors: set<FloorId>
    var versions: map<FloorId, Versions>
    var devices: Devices

    predicate Valid()
      reads this
    {
      versions.Keys == floors
    }

    constructor (floors: set<FloorId>, devices: Devices)
      ensures Valid() && this.floors == floors && this.devices == devices
      ensures forall floor :: floor in floors ==> versions[floor] == []
    {
      this.floors, this.devices := floors, devices;
      versions := map floor | floor in floors :: [];
    }

    method SaveDraft(floor: FloorId, data: Data, now: int) returns (result: Result<Data>)
      requires Valid()
      modifies this`versions
      ensures Valid()
      ensures result == if floor in floors then Ok(data) else NotFound
      ensures versions == if floor in floors then old(versions)[floor := Saved(old(versions)[floor], data, now)]
              else old(versions)
      ensures floor in floors ==> versions[floor] == Handle(old(versions)[floor], Request.SaveDraft(data, now), true)
    {
      if floor !in floors {
        return NotFound;
      }
      var rows := versions[floor];
      if rows == [] {
        rows := [Configuration(0, data, None, Some(now))];
      } else {
        var latest := rows[Top(rows)];
        if latest.published.Some? {
          rows := rows + [Configuration(latest.version + 1, data, None, Some(now))];
        } else {
          rows := rows[Top(rows) := latest.(data := data, saved := Some(now))];
        }
      }
      versions := versions[floor := rows];
      result := Ok(data);
    }

    method Undo(floor: FloorId) returns (result: Result<Configuration>)
      requires Valid()
      modifies this`versions
      ensures Valid()
      ensures floor !in floors ==> result == NotFound && versions == old(versions)
      ensures floor in floors ==>
                match Undone(old(versions)[floor])
                case Ok(rows) => versions == old(versions)[floor := rows] && rows != [] && result == Ok(rows[Top(rows)])
                case NotFound => versions == old(versions) && result == NotFound
                case NullPointer => false
      ensures floor in floors ==> versions[floor] == Handle(old(versions)[floor], Request.Undo, true)
    {
      if floor !in floors {
        return NotFound;
      }
      var rows := versions[floor];
      if rows == [] {
        return NotFound;
      }
      if |rows| == 1 {
        rows := [rows[0].(data := BLANK, published := None, saved := None)];
      } else {
        rows := Without(rows, Top(rows));
      }
      versions := versions[floor := rows];
      result := Ok(rows[Top(rows)]);
    }

    method PrePublish(floor: FloorId) returns (result: Result<seq<ReportItem>>)
      requires Valid()
      ensures floor !in floors || versions[floor] == [] ==> result == NotFound
      ensures floor in floors && versions[floor] != [] ==>
                result == Report(devices, Placements(Shown(versions[floor]).value.data.sinks), floor)
    {
      if floor !in floors || versions[floor] == [] {
        return NotFound;
      }
      var sinks := Shown(versions[floor]).value.data.sinks;
      var items, i := [], 0;
      PrependNothing(Report(devices, Placements(sinks), floor));
      while i < |sinks|
        invariant 0 <= i <= |sinks|
        invariant Report(devices, Placements(sinks), floor)
                  == Prepend(items, Report(devices, Placements(sinks[i..]), floor))
      {
        var sink := sinks[i];
        assert sinks[i..][1..] == sinks[i + 1..];
        var own := [Placement(sink.self, None)] + AnchorPlacements(sink.anchors, sink.self.id);
        assert Placements(sinks[i..]) == own + Placements(sinks[i + 1..]);
        ReportJoin(devices, own, Placements(sinks[i + 1..]), floor);
        var more := CheckPlacements(own, floor);
        if !more.Ok? {
          return NullPointer;
        }
        PrependTwice(items, more.value, Report(devices, Placements(sinks[i + 1..]), floor));
        items := items + more.value;
        i := i + 1;
      }
      assert items + [] == items;
      result := Ok(items);
    }

    method CheckPlacements(own: seq<Placement>, floor: FloorId) returns (result: Result<seq<ReportItem>>)
      ensures result == Report(devices, own, floor)
      ensures result.Ok? || result.NullPointer?
    {
      var items, i := [], 0;
      PrependNothing(Report(devices, own, floor));
      assert own[0..] == own;
      while i < |own|
        invariant 0 <= i <= |own|
        invariant Report(devices, own, floor) == Prepend(items, Report(devices, own[i..], floor))
      {
        assert own[i..][1..] == own[i + 1..];
        var dto := own[i].dto;
        if Elsewhere(devices, dto.id, floor) {
          if dto.floor.None? {
            return NullPointer;
          }
          PrependTwice(items, [ReportItem(dto, dto.floor.value)], Report(devices, own[i + 1..], floor));
          items := items + [ReportItem(dto, dto.floor.value)];
        }
        i := i + 1;
      }
      assert items + [] == items;
      result := Ok(items);
    }

    /** A failure rolls the transaction back. */
    method Publish(floor: FloorId, now: int) returns (result: Result<Data>)
      requires Valid()
      modifies this
      ensures Valid()
      ensures floor !in floors || old(versions)[floor] == [] ==>
                result == NotFound && versions == old(versions) && devices == old(devices)
      ensures floor in floors && old(versions)[floor] != [] ==>
                var rows := old(versions)[floor];
                var top := rows[Top(rows)];
                match Extract(Reset(old(devices), floor), Placements(top.data.sinks), floor)
                case Ok(placed) =>
                  && result == Ok(top.data) && devices == placed
                  && versions == old(versions)[floor := rows[Top(rows) := top.(published := Some(now))]]
                case NotFound => result == NotFound && versions == old(versions) && devices == old(devices)
                case NullPointer => false
      ensures floor in floors ==>
                versions[floor] == Handle(old(versions)[floor], Request.Publish(now), result.Ok?)
    {
      if floor !in floors || versions[floor] == [] {
        return NotFound;
      }
      var saved, rows := devices, versions[floor];
      var top := rows[Top(rows)];
      ResetAnchors(floor);
      ExtractNeverNull(devices, Placements(top.data.sinks), floor);
      var ok := ExtractSinks(top.data.sinks, floor);
      if !ok {
        devices := saved;
        return NotFound;
      }
      versions := versions[floor := rows[Top(rows) := top.(published := Some(now))]];
      result := Ok(top.data);
    }

    method ResetAnchors(floor: FloorId)
      modifies this`devices
      ensures devices == Reset(old(devices), floor)
    {
      var left := devices.Keys;
      while left != {}
        invariant left <= devices.Keys == old(devices).Keys
        invariant forall id :: id in devices ==>
                    devices[id] == if id !in left && old(devices)[id].floor == Some(floor)
                                   then ResetDevice(old(devices)[id]) else old(devices)[id]
        decreases left
      {
        var id :| id in left;
        left := left - {id};
        if devices[id].floor == Some(floor) {
          devices := devices[id := ResetDevice(devices[id])];
        }
      }
    }

    method ExtractSinks(sinks: seq<SinkDto>, floor: FloorId) returns (ok: bool)
      modifies this`devices
      ensures ok == Extract(old(devices), Placements(sinks), floor).Ok?
      ensures ok ==> Extract(old(devices), Placements(sinks), floor) == Ok(devices)
    {
      var i := 0;
      while i < |sinks|
        invariant 0 <= i <= |sinks|
        invariant Extract(old(devices), Placements(sinks), floor) == Extract(devices, Placements(sinks[i..]), floor)
      {
        var sink := sinks[i];
        assert sinks[i..][1..] == sinks[i + 1..];
        ghost var own := [Placement(sink.self, None)] + AnchorPlacements(sink.anchors, sink.self.id);
        assert Placements(sinks[i..]) == own + Placements(sinks[i + 1..]);
        ExtractJoin(devices, own, Placements(sinks[i + 1..]), floor);
        assert own[1..] == AnchorPlacements(sink.anchors, sink.self.id);
        if sink.self.id !in devices || !devices[sink.self.id].isSink {
          return false;
        }
        devices := devices[sink.self.id := Placed(devices[sink.self.id], Placement(sink.self, None), floor)];
        ok := ExtractAnchors(sink.anchors, sink.self.id, floor);
        if !ok {
          return;
        }
        i := i + 1;
      }
      ok := true;
    }

    method ExtractAnchors(anchors: seq<AnchorDto>, sink: DeviceId, floor: FloorId) returns (ok: bool)
      modifies this`devices
      ensures ok == Extract(old(devices), AnchorPlacements(anchors, sink), floor).Ok?
      ensures ok ==> Extract(old(devices), AnchorPlacements(anchors, sink), floor) == Ok(devices)
    {
      var j := 0;
      while j < |anchors|
        invariant 0 <= j <= |anchors|
        invariant Extract(old(devices), AnchorPlacements(anchors, sink), floor)
               == Extract(devices, AnchorPlacements(anchors[j..], sink), floor)
      {
        var dto := anchors[j];
        assert anchors[j..][1..] == anchors[j + 1..];
        ghost var rest := AnchorPlacements(anchors[j..], sink);
        assert rest[0] == Placement(dto, Some(sink)) && rest[1..] == AnchorPlacements(anchors[j + 1..], sink);
        if dto.id !in devices {
          return false;
        }
        devices := devices[dto.id := Placed(devices[dto.id], Placement(dto, Some(sink)), floor)];
        j := j + 1;
      }
      ok := true;
    }
  }

  function Prepend(items: seq<ReportItem>, report: Result<seq<ReportItem>>): Result<seq<ReportItem>> {
    match report
    case Ok(more) => Ok(items + more)
    case NotFound => NotFound
    case NullPointer => NullPointer
  }

  lemma {:induction false} PrependTwice(a: seq<ReportItem>, b: seq<ReportItem>, report: Result<seq<ReportItem>>)
    ensures Prepend(a, Prepend(b, report)) == Prepend(a + b, report)
  {
    if report.Ok? {
      assert a + (b + report.value) == (a + b) + report.value;
    }
  }

  lemma {:induction false} ReportJoin(devices: Devices, a: seq<Placement>, b: seq<Placement>, floor: FloorId)
    ensures var first := Report(devices, a, floor);
            Report(devices, a + b, floor)
            == match first
               case Ok(items) => Prepend(items, Report(devices, b, floor))
               case NotFound => NotFound
               case NullPointer => NullPointer
  {
    if a == [] {
      assert a + b == b;
      PrependNothing(Report(devices, b, floor));
    } else {
      assert (a + b)[0] == a[0] && (a + b)[1..] == a[1..] + b;
      ReportJoin(devices, a[1..], b, floor);
      var dto := a[0].dto;
      if Elsewhere(devices, dto.id, floor) && dto.floor.Some? && Report(devices, a[1..], floor).Ok? {
        PrependTwice([ReportItem(dto, dto.floor.value)], Report(devices, a[1..], floor).value,
                     Report(devices, b, floor));
      }
    }
  }

  lemma {:induction false} PrependNothing(report: Result<seq<ReportItem>>)
    ensures Prepend([], report) == report
  {
    if report.Ok? {
      assert [] + report.value == report.value;
    }
  }

  lemma {:induction false} ExtractJoin(devices: Devices, a: seq<Placement>, b: seq<Placement>, floor: FloorId)
    ensures var first := Extract(devices, a, floor);
            Extract(devices, a + b, floor)
            == match first
               case Ok(middle) => Extract(middle, b, floor)
               case NotFound => NotFound
               case NullPointer => NullPointer
    decreases |a|
  {
    if a == [] {
      assert a + b == b;
    } else {
      assert (a + b)[0] == a[0] && (a + b)[1..] == a[1..] + b;
      var p := a[0];
      if Known(devices, p) {
        ExtractJoin(devices[p.dto.id := Placed(devices[p.dto.id], p, floor)], a[1..], b, floor);
      }
    }
  }

  lemma {:induction false} ExtractNeverNull(devices: Devices, placements: seq<Placement>, floor: FloorId)
    ensures Extract(devices, placements, floor) != NullPointer
    decreases |placements|
  {
    if placements != [] && Known(devices, placements[0]) {
      var p := placements[0];
      ExtractNeverNull(devices[p.dto.id := Placed(devices[p.dto.id], p, floor)], placements[1..], floor);
    }
  }

  // ---------------------------------------------------------------------------
  // Versions over runs.

  /** Versions are 0, 1, 2, ... in order, and all but possibly the newest are published. */
  ghost predicate WellVersioned(rows: Versions) {
    && (forall i :: 0 <= i < |rows| ==> rows[i].version == i)
    && (forall i :: 0 <= i < |rows| - 1 ==> rows[i].published.Some?)
  }

  lemma {:induction false} TopIsNewest(rows: Versions)
    requires rows != [] && WellVersioned(rows)
    ensures Top(rows) == |rows| - 1
  {
    assert rows[|rows| - 1].version <= rows[Top(rows)].version;
  }

  datatype Request = SaveDraft(data: Data, now: int) | Publish(now: int) | Undo

  /** A request for one floor; the devices of a publication may be refused. */
  function Handle(rows: Versions, request: Request, accepted: bool): Versions {
    match request
    case SaveDraft(data, now) => Saved(rows, data, now)
    case Publish(now) =>
      if rows == [] || !accepted then rows else rows[Top(rows) := rows[Top(rows)].(published := Some(now))]
    case Undo => if rows == [] then rows else Undone(rows).value
  }

  function HandleAll(rows: Versions, requests: seq<(Request, bool)>): Versions
    decreases |requests|
  {
    if requests == [] then rows else HandleAll(Handle(rows, requests[0].0, requests[0].1), requests[1..])
  }

  lemma {:induction false} HandleKeeps(rows: Versions, request: Request, accepted: bool)
    requires WellVersioned(rows)
    ensures WellVersioned(Handle(rows, request, accepted))
  {
    if rows != [] {
      TopIsNewest(rows);
      assert rows[..|rows| - 1] + rows[|rows|..] == rows[..|rows| - 1];
    }
  }

  /** Whatever is saved, published and undone: the versions of a floor are exactly 0 to n - 1, and only the
      newest may be a draft. */
  lemma {:induction false} VersionsOverRuns(rows: Versions, requests: seq<(Request, bool)>)
    requires WellVersioned(rows)
    ensures WellVersioned(HandleAll(rows, requests))
    decreases |requests|
  {
    hide Handle, WellVersioned;
    if requests != [] {
      HandleKeeps(rows, requests[0].0, requests[0].1);
      VersionsOverRuns(Handle(rows, requests[0].0, requests[0].1), requests[1..]);
    }
  }

  /** What is saved is what the floor then shows, as a draft: a new version over a published one, or else in place of
      the draft there was.  All other versions stay as they are. */
  lemma {:induction false} SaveShows(rows: Versions, data: Data, now: int)
    requires WellVersioned(rows)
    ensures var saved := Saved(rows, data, now);
            var n := if rows == [] || rows[|rows| - 1].published.Some? then |rows| else |rows| - 1;
            && saved == rows[..n] + [Configuration(n, data, None, Some(now))]
            && Shown(saved) == Some(saved[n])
  {
    HandleKeeps(rows, SaveDraft(data, now), true);
    TopIsNewest(Saved(rows, data, now));
    if rows != [] {
      TopIsNewest(rows);
    }
  }

  /** A publication stamps the version shown, and nothing else. */
  lemma {:induction false} PublishShows(rows: Versions, now: int)
    requires WellVersioned(rows) && rows != []
    ensures var n, after := |rows| - 1, Handle(rows, Publish(now), true);
            && Shown(rows) == Some(rows[n])
            && after == rows[..n] + [Configuration(n, rows[n].data, Some(now), rows[n].saved)]
            && Shown(after) == Some(after[n])
  {
    HandleKeeps(rows, Publish(now), true);
    TopIsNewest(rows);
    TopIsNewest(Handle(rows, Publish(now), true));
  }

  /** An undo drops the newest version; the only one becomes blank instead. */
  lemma {:induction false} UndoDrops(rows: Versions)
    requires WellVersioned(rows) && rows != []
    ensures |rows| > 1 ==> Undone(rows) == Ok(rows[..|rows| - 1])
    ensures |rows| == 1 ==> Undone(rows) == Ok([Configuration(0, Data([], ""), None, None)])
    ensures Undone(rows) == Ok(Handle(rows, Request.Undo, true))
  {
    TopIsNewest(rows);
    assert rows[..|rows| - 1] + rows[|rows|..] == rows[..|rows| - 1];
  }

  /** Undo takes back a draft, and saving it again, exactly when the draft was made over a published version,
      or over the blank version that an undo leaves; a draft that was there before is gone. */
  lemma {:induction false} UndoRestoresExactly(rows: Versions, data: Data, now: int, again: Data, later: int)
    requires WellVersioned(rows) && rows != []
    ensures var newest := rows[|rows| - 1];
            && (Undone(Saved(rows, data, now)) == Ok(rows)
                <==> newest.published.Some? || rows == [Configuration(0, BLANK, None, None)])
            && Undone(Saved(Saved(rows, data, now), again, later)) == Undone(Saved(rows, data, now))
            && (newest.published.None? && |rows| > 1 ==> Undone(Saved(rows, data, now)) == Ok(rows[..|rows| - 1]))
  {
    var n := |rows|;
    TopIsNewest(rows);
    HandleKeeps(rows, SaveDraft(data, now), true);
    var saved := Saved(rows, data, now);
    TopIsNewest(saved);
    HandleKeeps(saved, SaveDraft(again, later), true);
    TopIsNewest(Saved(saved, again, later));
    if rows[n - 1].published.Some? {
      assert Without(saved, n) == rows;
      assert Without(Saved(saved, again, later), n) == rows;
    } else if n > 1 {
      assert Without(saved, n - 1) == rows[..n - 1];
      assert Without(Saved(saved, again, later), n - 1) == rows[..n - 1];
    }
  }

  // ---------------------------------------------------------------------------
  // Devices.

  function Named(placements: seq<Placement>): set<DeviceId> {
    set i | 0 <= i < |placements| :: placements[i].dto.id
  }

  /** The last placement of a device, and the sink of its last placement as an anchor. */
  function Last(placements: seq<Placement>, id: DeviceId): Option<Place> {
    if placements == [] then None
    else if placements[|placements| - 1].dto.id == id then Some(placements[|placements| - 1].dto.place)
    else Last(placements[..|placements| - 1], id)
  }

  function LastSink(placements: seq<Placement>, id: DeviceId): Option<DeviceId> {
    if placements == [] then None
    else
      var p := placements[|placements| - 1];
      if p.dto.id == id && p.sink.Some? then p.sink else LastSink(placements[..|placements| - 1], id)
  }

  /** What a device ought to be after its floor was published. */
  function Final(d: Device, placements: seq<Placement>, id: DeviceId, floor: FloorId): Device {
    var place, sink := Last(placements, id), LastSink(placements, id);
    d.(floor := if place.Some? then Some(floor) else d.floor, place := if place.Some? then place.value else d.place,
       sink := if sink.Some? then sink else d.sink)
  }

  predicate AllKnown(devices: Devices, placements: seq<Placement>) {
    forall i :: 0 <= i < |placements| ==> Known(devices, placements[i])
  }

  lemma {:induction false} LastIsNamed(placements: seq<Placement>, id: DeviceId)
    ensures Last(placements, id).Some? <==> id in Named(placements)
    ensures LastSink(placements, id).Some? ==> Last(placements, id).Some?
  {
    if placements != [] {
      var n := |placements| - 1;
      LastIsNamed(placements[..n], id);
      if i :| 0 <= i < n && placements[i].dto.id == id {
        assert placements[..n][i].dto.id == id;
      }
      if i :| 0 <= i < |placements[..n]| && placements[..n][i].dto.id == id {
        assert placements[i].dto.id == id;
      }
      assert placements[n].dto.id in Named(placements);
    }
  }

  /** Extraction succeeds exactly when every named device is known, and every named sink is a sink; then each
      device has its last place and its last sink. */
  lemma {:induction false} ExtractExactly(devices: Devices, placements: seq<Placement>, floor: FloorId)
    ensures var result := Extract(devices, placements, floor);
            && (result.Ok? <==> AllKnown(devices, placements))
            && (result.Ok? ==>
                  && result.value.Keys == devices.Keys
                  && forall id :: id in devices ==> result.value[id] == Final(devices[id], placements, id, floor))
    decreases |placements|
  {
    if placements != [] {
      var n := |placements| - 1;
      var before, p := placements[..n], placements[n];
      assert placements == before + [p];
      ExtractExactly(devices, before, floor);
      ExtractJoin(devices, before, [p], floor);
      ExtractNeverNull(devices, before, floor);
      assert AllKnown(devices, placements) <==> AllKnown(devices, before) && Known(devices, p) by {
        assert forall i :: 0 <= i < n ==> placements[i] == before[i];
      }
      if AllKnown(devices, before) {
        ExtractOne(Extract(devices, before, floor).value, p, floor);
      }
    }
  }

  lemma {:induction false} ExtractOne(devices: Devices, p: Placement, floor: FloorId)
    ensures Extract(devices, [p], floor)
         == if Known(devices, p) then Ok(devices[p.dto.id := Placed(devices[p.dto.id], p, floor)]) else NotFound
  {
    assert [p][1..] == [];
  }

  /** After a publication exactly the named devices are on the floor, each at its last named place; unnamed
      devices that were there are nowhere, and all others are as they were. */
  lemma {:induction false} PublishExactly(devices: Devices, data: Data, floor: FloorId)
    ensures var placements := Placements(data.sinks);
            var result := Extract(Reset(devices, floor), placements, floor);
            && (result.Ok? <==> AllKnown(devices, placements))
            && (result.Ok? ==>
                  var after := result.value;
                  && after.Keys == devices.Keys
                  && (forall id :: id in after ==> (after[id].floor == Some(floor) <==> id in Named(placements)))
                  && (forall id :: id in after && id in Named(placements) ==>
                      Last(placements, id) == Some(after[id].place))
                  && (forall id :: id in after && id in Named(placements) ==>
                        && after[id].isSink == devices[id].isSink
                        && after[id].sink == if LastSink(placements, id).Some? then LastSink(placements, id)
                                             else if devices[id].floor == Some(floor) then None else devices[id].sink)
                  && (forall id :: id in after && id !in Named(placements) ==>
                        after[id] == if devices[id].floor == Some(floor)
                                     then devices[id].(floor := None, place := Place(None, None, None), sink := None)
                                     else devices[id]))
  {
    var placements := Placements(data.sinks);
    var reset := Reset(devices, floor);
    ExtractExactly(reset, placements, floor);
    assert AllKnown(reset, placements) <==> AllKnown(devices, placements) by {
      assert forall i :: 0 <= i < |placements| ==> (Known(reset, placements[i]) <==> Known(devices, placements[i]));
    }
    hide Extract, Placements, AllKnown, Named, Last, LastSink;
    if Extract(reset, placements, floor).Ok? {
      var after := Extract(reset, placements, floor).value;
      forall id | id in after
        ensures after[id] == Final(reset[id], placements, id, floor)
        ensures Last(placements, id).Some? <==> id in Named(placements)
        ensures LastSink(placements, id).Some? ==> Last(placements, id).Some?
      {
        LastIsNamed(placements, id);
      }
    }
  }

  // ---------------------------------------------------------------------------
  // What is saved is what is published.

  predicate InAnchors(anchors: seq<AnchorDto>, id: DeviceId) {
    exists j :: 0 <= j < |anchors| && anchors[j].id == id
  }

  /** The sink names the device, as itself or as one of its anchors. */
  predicate InSink(sink: SinkDto, id: DeviceId) {
    sink.self.id == id || InAnchors(sink.anchors, id)
  }

  predicate InSinks(sinks: seq<SinkDto>, id: DeviceId) {
    exists i :: 0 <= i < |sinks| && InSink(sinks[i], id)
  }

  /** The devices of one sink. */
  function SinkPlacements(sink: SinkDto): seq<Placement> {
    [Placement(sink.self, None)]
    + seq(|sink.anchors|, j requires 0 <= j < |sink.anchors| => Placement(sink.anchors[j], Some(sink.self.id)))
  }

  lemma {:induction false} AnchorsInOrder(anchors: seq<AnchorDto>, sink: DeviceId)
    ensures |AnchorPlacements(anchors, sink)| == |anchors|
    ensures forall j :: 0 <= j < |anchors| ==>
              AnchorPlacements(anchors, sink)[j] == Placement(anchors[j], Some(sink))
  {
    if anchors != [] {
      AnchorsInOrder(anchors[1..], sink);
    }
  }

  lemma {:induction false} FirstSink(sinks: seq<SinkDto>)
    requires sinks != []
    ensures Placements(sinks) == SinkPlacements(sinks[0]) + Placements(sinks[1..])
  {
    AnchorsInOrder(sinks[0].anchors, sinks[0].self.id);
    hide AnchorPlacements;
    assert [Placement(sinks[0].self, None)] + AnchorPlacements(sinks[0].anchors, sinks[0].self.id)
        == SinkPlacements(sinks[0]);
  }

  lemma {:induction false} Regrouped(a: seq<Placement>, b: seq<Placement>, c: seq<Placement>, d: seq<Placement>)
    ensures a + (b + c + d) == a + b + c + d
  {
  }

  lemma {:induction false} SinksInOrder(sinks: seq<SinkDto>, i: nat)
    requires i < |sinks|
    ensures Placements(sinks) == Placements(sinks[..i]) + SinkPlacements(sinks[i]) + Placements(sinks[i + 1..])
  {
    FirstSink(sinks);
    hide SinkPlacements, AnchorPlacements;
    var first := SinkPlacements(sinks[0]);
    if i > 0 {
      SinksInOrder(sinks[1..], i - 1);
      assert sinks[..i][1..] == sinks[1..][..i - 1];
      assert sinks[1..][i..] == sinks[i + 1..];
      var before, own, after := Placements(sinks[1..][..i - 1]), SinkPlacements(sinks[i]), Placements(sinks[i + 1..]);
      FirstSink(sinks[..i]);
      hide Placements;
      assert sinks[..i][0] == sinks[0];
      Regrouped(first, before, own, after);
    } else {
      assert sinks[..0] == [] && Placements([]) == [];
    }
  }

  lemma {:induction false} NamedJoin(a: seq<Placement>, b: seq<Placement>)
    ensures Named(a + b) == Named(a) + Named(b)
  {
    forall id | id in Named(a) + Named(b) ensures id in Named(a + b) {
      if i :| 0 <= i < |a| && a[i].dto.id == id {
        assert (a + b)[i].dto.id == id;
      } else {
        var j :| 0 <= j < |b| && b[j].dto.id == id;
        assert (a + b)[|a| + j].dto.id == id;
      }
    }
  }

  lemma {:induction false} NamedInSink(sink: SinkDto, id: DeviceId)
    ensures id in Named(SinkPlacements(sink)) <==> InSink(sink, id)
  {
    var placements := SinkPlacements(sink);
    assert forall j :: 0 <= j < |sink.anchors| ==> placements[j + 1].dto == sink.anchors[j];
    assert placements[0].dto == sink.self;
    if i :| 0 <= i < |placements| && placements[i].dto.id == id {
      assert i > 0 ==> sink.anchors[i - 1].id == id;
    }
    if j :| 0 <= j < |sink.anchors| && sink.anchors[j].id == id {
      assert placements[j + 1].dto.id == id;
    }
  }

  lemma {:induction false} NamedInSinks(sinks: seq<SinkDto>, id: DeviceId)
    ensures id in Named(Placements(sinks)) <==> InSinks(sinks, id)
  {
    hide InSink, SinkPlacements;
    if sinks != [] {
      var own, rest := SinkPlacements(sinks[0]), Placements(sinks[1..]);
      SinksInOrder(sinks, 0);
      assert sinks[..0] == [] && Placements([]) == [];
      assert Placements(sinks) == own + rest;
      NamedInSinks(sinks[1..], id);
      NamedInSink(sinks[0], id);
      NamedJoin(own, rest);
      assert forall i :: 0 < i < |sinks| ==> sinks[i] == sinks[1..][i - 1];
      assert forall i :: 0 <= i < |sinks| - 1 ==> sinks[1..][i] == sinks[i + 1];
    }
  }

  /** Every device a sink names exists, and the sink itself is a sink. */
  predicate SinkKnown(devices: Devices, sink: SinkDto) {
    && sink.self.id in devices && devices[sink.self.id].isSink
    && forall j :: 0 <= j < |sink.anchors| ==> sink.anchors[j].id in devices
  }

  lemma {:induction false} KnownInSink(devices: Devices, sink: SinkDto)
    ensures AllKnown(devices, SinkPlacements(sink)) <==> SinkKnown(devices, sink)
  {
    var placements := SinkPlacements(sink);
    assert placements[0] == Placement(sink.self, None);
    assert forall j :: 0 <= j < |sink.anchors| ==> placements[j + 1] == Placement(sink.anchors[j], Some(sink.self.id));
    if AllKnown(devices, placements) {
      forall j | 0 <= j < |sink.anchors| ensures sink.anchors[j].id in devices {
        assert Known(devices, placements[j + 1]);
      }
    }
  }

  lemma {:induction false} KnownInSinks(devices: Devices, sinks: seq<SinkDto>)
    ensures AllKnown(devices, Placements(sinks)) <==> forall i :: 0 <= i < |sinks| ==> SinkKnown(devices, sinks[i])
  {
    hide SinkKnown, SinkPlacements, Known;
    if sinks != [] {
      var own, rest := SinkPlacements(sinks[0]), Placements(sinks[1..]);
      SinksInOrder(sinks, 0);
      assert sinks[..0] == [] && Placements([]) == [];
      assert Placements(sinks) == own + rest;
      KnownInSinks(devices, sinks[1..]);
      KnownInSink(devices, sinks[0]);
      AllKnownJoin(devices, own, rest);
      assert forall i :: 0 < i < |sinks| ==> sinks[i] == sinks[1..][i - 1];
      assert forall i :: 0 <= i < |sinks| - 1 ==> sinks[1..][i] == sinks[i + 1];
    }
  }

  lemma {:induction false} AllKnownJoin(devices: Devices, a: seq<Placement>, b: seq<Placement>)
    ensures AllKnown(devices, a + b) <==> AllKnown(devices, a) && AllKnown(devices, b)
  {
    hide Known;
    if AllKnown(devices, a + b) {
      assert forall i :: 0 <= i < |a| ==> (a + b)[i] == a[i];
      assert forall i :: 0 <= i < |b| ==> (a + b)[|a| + i] == b[i];
    }
  }

  lemma {:induction false} LastOfJoin(a: seq<Placement>, b: seq<Placement>, id: DeviceId)
    ensures Last(a + b, id) == if id in Named(b) then Last(b, id) else Last(a, id)
    decreases |b|
  {
    if b == [] {
      assert a + b == a;
    } else {
      var n := |b| - 1;
      assert (a + b)[..|a + b| - 1] == a + b[..n];
      assert b == b[..n] + [b[n]];
      NamedJoin(b[..n], [b[n]]);
      assert id in Named([b[n]]) <==> [b[n]][0].dto.id == id;
      LastOfJoin(a, b[..n], id);
    }
  }

  lemma {:induction false} LastOne(p: Placement, id: DeviceId)
    ensures Last([p], id) == if p.dto.id == id then Some(p.dto.place) else None
    ensures id in Named([p]) <==> p.dto.id == id
  {
    assert [p][..0] == [];
    assert [p][0].dto.id == p.dto.id;
  }

  /** The last place that the anchors of a sink give a device. */
  lemma {:induction false} LastInSink(sink: SinkDto, j: nat, id: DeviceId)
    requires j < |sink.anchors| && sink.anchors[j].id == id && !InAnchors(sink.anchors[j + 1..], id)
    ensures Last(SinkPlacements(sink), id) == Some(sink.anchors[j].place)
  {
    var placements := SinkPlacements(sink);
    var before, own, after := placements[..j + 1], [placements[j + 1]], placements[j + 2..];
    assert placements == before + own + after;
    forall i | 0 <= i < |after| ensures after[i].dto.id != id {
      assert after[i].dto == sink.anchors[j + 1..][i];
    }
    LastOfJoin(before + own, after, id);
    LastOfJoin(before, own, id);
    LastOne(placements[j + 1], id);
  }

  lemma {:induction false} LastIsSink(sink: SinkDto, id: DeviceId)
    requires sink.self.id == id && !InAnchors(sink.anchors, id)
    ensures Last(SinkPlacements(sink), id) == Some(sink.self.place)
  {
    var placements := SinkPlacements(sink);
    var own, after := [placements[0]], placements[1..];
    assert placements == own + after;
    forall i | 0 <= i < |after| ensures after[i].dto.id != id {
      assert after[i].dto == sink.anchors[i];
    }
    LastOfJoin(own, after, id);
    LastOne(placements[0], id);
  }

  lemma {:induction false} LastInSinks(sinks: seq<SinkDto>, i: nat, id: DeviceId)
    requires i < |sinks| && InSink(sinks[i], id) && !InSinks(sinks[i + 1..], id)
    ensures Last(Placements(sinks), id) == Last(SinkPlacements(sinks[i]), id)
  {
    hide InSink, InSinks, SinkPlacements, Placements, Last;
    SinksInOrder(sinks, i);
    var before, own, after := Placements(sinks[..i]), SinkPlacements(sinks[i]), Placements(sinks[i + 1..]);
    NamedInSinks(sinks[i + 1..], id);
    NamedInSink(sinks[i], id);
    LastOfJoin(before + own, after, id);
    LastOfJoin(before, own, id);
  }

  /** The place written for the device is the last one in the list of sinks. */
  predicate PlacedAt(sinks: seq<SinkDto>, id: DeviceId, place: Place) {
    exists i :: 0 <= i < |sinks| && !InSinks(sinks[i + 1..], id) && PlacedBy(sinks[i], id, place)
  }

  predicate PlacedBy(sink: SinkDto, id: DeviceId, place: Place) {
    || (sink.self.id == id && !InAnchors(sink.anchors, id) && place == sink.self.place)
    || exists j :: 0 <= j < |sink.anchors| && sink.anchors[j].id == id && !InAnchors(sink.anchors[j + 1..], id)
                   && place == sink.anchors[j].place
  }

  lemma {:induction false} PlacedLast(sinks: seq<SinkDto>, id: DeviceId, place: Place)
    requires PlacedAt(sinks, id, place)
    ensures Last(Placements(sinks), id) == Some(place)
  {
    hide InSinks, InAnchors, SinkPlacements, Placements, Last;
    var i :| 0 <= i < |sinks| && !InSinks(sinks[i + 1..], id) && PlacedBy(sinks[i], id, place);
    var sink := sinks[i];
    if sink.self.id == id && !InAnchors(sink.anchors, id) && place == sink.self.place {
      LastIsSink(sink, id);
    } else {
      var j :| 0 <= j < |sink.anchors| && sink.anchors[j].id == id && !InAnchors(sink.anchors[j + 1..], id)
               && place == sink.anchors[j].place;
      assert InAnchors(sink.anchors, id) by { AnchorFound(sink.anchors, j); }
      LastInSink(sink, j, id);
    }
    LastInSinks(sinks, i, id);
  }

  /** The last sink in the list that has the device among its anchors. */
  predicate AnchorOf(sinks: seq<SinkDto>, id: DeviceId, sink: DeviceId) {
    exists i :: 0 <= i < |sinks| && InAnchors(sinks[i].anchors, id) && sinks[i].self.id == sink
                && forall k :: i < k < |sinks| ==> !InAnchors(sinks[k].anchors, id)
  }

  lemma {:induction false} LastSinkOfJoin(a: seq<Placement>, b: seq<Placement>, id: DeviceId)
    ensures LastSink(a + b, id) == if LastSink(b, id).Some? then LastSink(b, id) else LastSink(a, id)
    decreases |b|
  {
    if b == [] {
      assert a + b == a;
    } else {
      var n := |b| - 1;
      assert (a + b)[..|a + b| - 1] == a + b[..n];
      LastSinkOfJoin(a, b[..n], id);
    }
  }

  lemma {:induction false} LastSinkOfAnchors(anchors: seq<AnchorDto>, sink: DeviceId, id: DeviceId)
    ensures LastSink(AnchorPlacements(anchors, sink), id) == if InAnchors(anchors, id) then Some(sink) else None
  {
    if anchors != [] {
      var own, rest := [Placement(anchors[0], Some(sink))], AnchorPlacements(anchors[1..], sink);
      LastSinkOfAnchors(anchors[1..], sink, id);
      LastSinkOfJoin(own, rest, id);
      assert own[..0] == [] && LastSink(own[..0], id) == None;
      if j :| 0 < j < |anchors| && anchors[j].id == id {
        assert anchors[1..][j - 1].id == id;
      }
    }
  }

  lemma {:induction false} SinkOfAnchor(sinks: seq<SinkDto>, id: DeviceId)
    ensures LastSink(Placements(sinks), id).Some? ==> AnchorOf(sinks, id, LastSink(Placements(sinks), id).value)
    ensures LastSink(Placements(sinks), id).None? <==>
              forall i :: 0 <= i < |sinks| ==> !InAnchors(sinks[i].anchors, id)
  {
    hide InAnchors, AnchorPlacements;
    if sinks != [] {
      var sink := sinks[0];
      var own, rest := AnchorPlacements(sink.anchors, sink.self.id), Placements(sinks[1..]);
      var self := [Placement(sink.self, None)];
      SinkOfAnchor(sinks[1..], id);
      LastSinkOfAnchors(sink.anchors, sink.self.id, id);
      LastSinkOfJoin(self + own, rest, id);
      LastSinkOfJoin(self, own, id);
      assert self[..0] == [] && LastSink(self[..0], id) == None;
      assert forall i :: 0 < i < |sinks| ==> sinks[i] == sinks[1..][i - 1];
      assert forall i :: 0 <= i < |sinks| - 1 ==> sinks[1..][i] == sinks[i + 1];
    }
  }

  lemma {:induction false} AnchorFound(anchors: seq<AnchorDto>, j: nat)
    requires j < |anchors|
    ensures InAnchors(anchors, anchors[j].id)
  {
  }

  /** After every run of saves, publications and undos that ends with a save, a publication takes the data just saved:
      it succeeds exactly when the devices in that data exist and its sinks are sinks, then the floor holds exactly
      the devices in that data, each at the last place written for it, and the version is stamped. */
  lemma {:induction false} PublishesWhatWasSaved(rows: Versions, requests: seq<(Request, bool)>, data: Data, now: int,
                                                 later: int, devices: Devices, floor: FloorId)
    requires WellVersioned(rows)
    ensures var saved := HandleAll(rows, requests + [(Request.SaveDraft(data, now), true)]);
            && Shown(saved).Some?
            && var result := Extract(Reset(devices, floor), Placements(Shown(saved).value.data.sinks), floor);
            && (result.Ok? <==> forall i :: 0 <= i < |data.sinks| ==> SinkKnown(devices, data.sinks[i]))
            && (result.Ok? ==>
                  && result.value.Keys == devices.Keys
                  && (forall id :: id in devices ==>
                        (result.value[id].floor == Some(floor) <==> InSinks(data.sinks, id)))
                  && (forall id, place :: id in devices && PlacedAt(data.sinks, id, place) ==>
                        result.value[id].place == place)
                  && (forall id, sink :: id in devices && AnchorOf(data.sinks, id, sink) ==>
                        result.value[id].sink == Some(sink)))
            && var published := HandleAll(saved, [(Request.Publish(later), result.Ok?)]);
            && |published| == |saved|
            && published[..|saved| - 1] == saved[..|saved| - 1]
            && Shown(published) == Some(Configuration(|saved| - 1, data, if result.Ok? then Some(later) else None,
                                                      Some(now)))
  {
    hide *;
    var before := HandleAll(rows, requests);
    var saved := Saved(before, data, now);
    VersionsOverRuns(rows, requests);
    SaveShows(before, data, now);
    HandleKeeps(before, SaveDraft(data, now), true);
    HandleIs(before, data, now, saved, later);
    OneMore(rows, requests, SaveDraft(data, now), true);
    HandleOne(saved, Publish(later), true);
    HandleOne(saved, Publish(later), false);
    PublishShows(saved, later);
    var placements := Placements(data.sinks);
    PublishExactly(devices, data, floor);
    KnownInSinks(devices, data.sinks);
    forall id ensures id in Named(placements) <==> InSinks(data.sinks, id) {
      NamedInSinks(data.sinks, id);
    }
    forall id, place | PlacedAt(data.sinks, id, place)
      ensures Last(placements, id) == Some(place) && id in Named(placements)
    {
      PlacedLast(data.sinks, id, place);
      LastIsNamed(placements, id);
    }
    forall id, sink | AnchorOf(data.sinks, id, sink)
      ensures LastSink(placements, id) == Some(sink) && id in Named(placements)
    {
      SinkOfAnchor(data.sinks, id);
      OneSink(data.sinks, id, sink, LastSink(placements, id));
      LastIsNamed(placements, id);
    }
  }

  lemma {:induction false} OneSink(sinks: seq<SinkDto>, id: DeviceId, sink: DeviceId, other: Option<DeviceId>)
    requires AnchorOf(sinks, id, sink)
    requires other.None? ==> forall i :: 0 <= i < |sinks| ==> !InAnchors(sinks[i].anchors, id)
    requires other.Some? ==> AnchorOf(sinks, id, other.value)
    ensures other == Some(sink)
  {
    hide InAnchors;
  }

  lemma {:induction false} HandleOne(rows: Versions, request: Request, accepted: bool)
    ensures HandleAll(rows, [(request, accepted)]) == Handle(rows, request, accepted)
  {
    hide Handle;
    assert [(request, accepted)][1..] == [];
    assert HandleAll(Handle(rows, request, accepted), []) == Handle(rows, request, accepted);
  }

  lemma {:induction false} OneMore(rows: Versions, requests: seq<(Request, bool)>, request: Request, accepted: bool)
    ensures HandleAll(rows, requests + [(request, accepted)])
         == Handle(HandleAll(rows, requests), request, accepted)
    decreases |requests|
  {
    hide Handle;
    if requests == [] {
      assert requests + [(request, accepted)] == [(request, accepted)];
      HandleOne(rows, request, accepted);
    } else {
      assert (requests + [(request, accepted)])[1..] == requests[1..] + [(request, accepted)];
      OneMore(Handle(rows, requests[0].0, requests[0].1), requests[1..], request, accepted);
    }
  }

  lemma {:induction false} HandleIs(rows: Versions, data: Data, now: int, saved: Versions, later: int)
    ensures Handle(rows, SaveDraft(data, now), true) == Saved(rows, data, now)
    ensures Handle(saved, Publish(later), false) == saved
  {
  }

  // ---------------------------------------------------------------------------
  // The report tells what publishing will take from other floors.

  predicate Reportable(devices: Devices, p: Placement, floor: FloorId) {
    Elsewhere(devices, p.dto.id, floor) ==> p.dto.floor.Some?
  }

  predicate Reported(items: seq<ReportItem>, id: DeviceId) {
    exists k :: 0 <= k < |items| && items[k].dto.id == id
  }

  /** The report fails exactly when a device on another floor has no floor in the configuration. */
  lemma {:induction false} ReportExactly(devices: Devices, placements: seq<Placement>, floor: FloorId)
    ensures var report := Report(devices, placements, floor);
            && report != NotFound
            && (report.Ok? <==> forall i :: 0 <= i < |placements| ==> Reportable(devices, placements[i], floor))
            && (report.Ok? ==> forall id ::
                  Reported(report.value, id) <==> id in Named(placements) && Elsewhere(devices, id, floor))
            && (report.Ok? ==> forall k :: 0 <= k < |report.value| ==>
                  Some(report.value[k].floor) == report.value[k].dto.floor)
  {
    if placements != [] {
      var rest := placements[1..];
      var id0 := placements[0].dto.id;
      ReportExactly(devices, rest, floor);
      assert forall i :: 0 < i < |placements| ==> placements[i] == rest[i - 1];
      assert forall i :: 0 <= i < |rest| ==> rest[i] == placements[i + 1];
      assert Named(placements) == {id0} + Named(rest) by {
        forall id | id in {id0} + Named(rest) ensures id in Named(placements) {
          if id == id0 {
            assert placements[0].dto.id == id;
          } else {
            var i :| 0 <= i < |rest| && rest[i].dto.id == id;
            assert placements[i + 1].dto.id == id;
          }
        }
      }
      ReportStep(devices, placements, floor);
    }
  }

  lemma {:induction false} ReportStep(devices: Devices, placements: seq<Placement>, floor: FloorId)
    requires placements != []
    ensures var rest, all := Report(devices, placements[1..], floor), Report(devices, placements, floor);
            rest.Ok? && all.Ok? ==>
              forall id :: Reported(all.value, id)
                <==> Reported(rest.value, id) || (id == placements[0].dto.id && Elsewhere(devices, id, floor))
  {
    var rest, all := Report(devices, placements[1..], floor), Report(devices, placements, floor);
    if rest.Ok? && all.Ok? && Elsewhere(devices, placements[0].dto.id, floor) {
      assert all.value[0].dto == placements[0].dto;
      forall id ensures Reported(all.value, id) <==> Reported(rest.value, id) || id == placements[0].dto.id {
        if k :| 0 <= k < |rest.value| && rest.value[k].dto.id == id {
          assert all.value[k + 1].dto.id == id;
        }
        if k :| 0 < k < |all.value| && all.value[k].dto.id == id {
          assert rest.value[k - 1].dto.id == id;
        }
      }
    }
  }

  /** A report, followed by a publication: reported are exactly the devices that the floor takes from another. */
  lemma {:induction false} ReportedAreTaken(devices: Devices, data: Data, floor: FloorId)
    requires Report(devices, Placements(data.sinks), floor).Ok?
    requires Extract(Reset(devices, floor), Placements(data.sinks), floor).Ok?
    ensures var items := Report(devices, Placements(data.sinks), floor).value;
            var after := Extract(Reset(devices, floor), Placements(data.sinks), floor).value;
            && after.Keys == devices.Keys
            && forall id :: id in devices ==>
                 (Reported(items, id)
                  <==> devices[id].floor.Some? && devices[id].floor != Some(floor) && after[id].floor == Some(floor))
  {
    hide Report, Extract, Placements, Reset, Named, Last, LastSink, AllKnown, Reportable;
    PublishExactly(devices, data, floor);
    ReportExactly(devices, Placements(data.sinks), floor);
  }
}
