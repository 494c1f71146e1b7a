/** Upgrading devices one after another (socket/info/InfoWebSocket.java, Network.java,
    DeviceStatus.java, Uwb.java): each device of a network is told to start, restarts twice
    into its other partition, and hands over to the next in the queue. */
module Upgrade {
  import opened Wrappers

  datatype Status = OFFLINE | ONLINE | UPDATING | UPDATED | RESTARTING

  datatype Partition = A | B

  function GetPartition(minor: int): Partition {
    if minor % 2 == 0 then A else B
  }

  function GetReversedPartition(minor: int): Partition {
    if minor % 2 == 0 then B else A
  }

  const OUTDATED_DEVICE_STATUS_MILLISECONDS := 30_000

  /** The future `updateFinished` is a number, fresh at every replacement; `completed` holds the
      completed ones and `tasks` the acknowledgement tasks still waiting, by the future each
      waits on. */
  datatype Device = Device(
    status: Status,
    lastTimeUpdated: int,
    restartingStartedTime: Option<int>,
    checkVersionAfterRestartCount: int,
    restartCount: int,
    updateFinished: nat,
    completed: set<nat>,
    tasks: multiset<nat>)

  datatype Start = Start(shortId: int, path: Option<string>, partition: Partition)

  /** `devices` are the sink, anchors and tags connected; `minors` is the database. */
  datatype Net = Net(
    devices: map<int, Device>,
    minors: map<int, int>,
    toUpdateIds: seq<int>,
    fileName: Option<string>,
    starts: seq<Start>)

  /** What happens at, or is heard from, one device. */
  datatype DeviceEvent =
    | TurnOn(minor: int)
    | Check(now: int)                // the status timer
    | Version(minor: int)            // answer to a version command
    | Beacon(now: int)
    | Aborted                        // ABORTED or BAD_FIRMWARE_VERSION
    | Ack(now: int)
    | Resume(future: nat, now: int)  // a task finds its future completed
    | Expire(future: nat)            // a task times out

  datatype Event =
    | FileChecked(path: string, now: int)  // the stored file passed the check
    | VersionInfo(id: int, minor: int)     // version message
    | At(id: int, event: DeviceEvent)

  // ---------------------------------------------------------------------------
  // One device.

  function IsOutdated(date: Option<int>, now: int): bool {
    date.Some? && now - OUTDATED_DEVICE_STATUS_MILLISECONDS > date.value
  }

  function CheckDevice(d: Device, now: int): Device {
    if IsOutdated(Some(d.lastTimeUpdated), now) && d.status == ONLINE then
      d.(status := OFFLINE)
    else if IsOutdated(d.restartingStartedTime, now) && d.status == RESTARTING then
      if d.checkVersionAfterRestartCount < 2 then
        d.(checkVersionAfterRestartCount := d.checkVersionAfterRestartCount + 1)
      else
        d.(checkVersionAfterRestartCount := 0, status := OFFLINE)
    else d
  }

  /** The device's part of a turn-on; `proper` says that its partition differs from the stored
      version's. */
  function TurnOnDevice(d: Device, proper: bool): Device {
    match d.status
    case RESTARTING =>
      var count := d.restartCount + 1;
      if proper && count == 2 then
        d.(restartCount := 0, completed := d.completed + {d.updateFinished})
      else if count == 2 then d.(status := ONLINE, restartCount := 0)
      else d.(restartCount := count)
    case OFFLINE => d.(status := ONLINE, restartCount := 0, checkVersionAfterRestartCount := 0)
    case _ => d
  }

  /** Whether a turn-on stores the version it reports. */
  predicate TurnOnStores(d: Device, proper: bool) {
    match d.status
    case RESTARTING => proper && d.restartCount + 1 == 2
    case OFFLINE => true
    case ONLINE => true
    case _ => false
  }

  function FinishTask(d: Device, future: nat): Device {
    d.(restartCount := 0, updateFinished := d.updateFinished + 1, tasks := d.tasks - multiset{future})
  }

  // ---------------------------------------------------------------------------
  // The network.

  predicate IsProperFirmwareVersion(n: Net, id: int, minor: int) {
    id in n.minors && GetPartition(n.minors[id]) != GetPartition(minor)
  }

  function StoreMinor(n: Net, id: int, minor: int): Net {
    if id in n.minors then n.(minors := n.minors[id := minor]) else n
  }

  function SetDevice(n: Net, id: int, d: Device): Net {
    n.(devices := n.devices[id := d])
  }

  function SendStartUpgrade(n: Net, path: Option<string>, now: int): Net {
    if n.toUpdateIds == [] then n
    else
      var id := n.toUpdateIds[0];
      var m := n.(toUpdateIds := n.toUpdateIds[1..]);
      if id !in m.minors then m
      else
        var s := m.(starts := m.starts + [Start(id, path, GetReversedPartition(m.minors[id]))]);
        if id in s.devices then
          SetDevice(s, id, s.devices[id].(status := UPDATING, lastTimeUpdated := now))
        else s
  }

  predicate AnyUpdating(n: Net) {
    exists id :: id in n.devices && n.devices[id].status == UPDATING
  }

  function CheckIfLastThenClear(n: Net): Net {
    if AnyUpdating(n) then n else n.(fileName := None, toUpdateIds := [])
  }

  /** What a task does once its future is completed. */
  function ResumeTask(n: Net, id: int, future: nat, now: int): Net
    requires id in n.devices
  {
    var online := SetDevice(n, id, n.devices[id].(status := ONLINE, lastTimeUpdated := now));
    var next := if online.toUpdateIds != [] then SendStartUpgrade(online, online.fileName, now) else online;
    var cleared := CheckIfLastThenClear(next);
    SetDevice(cleared, id, FinishTask(cleared.devices[id], future))
  }

  function NextAt(n: Net, id: int, e: DeviceEvent): Net
    requires id in n.devices
  {
    var d := n.devices[id];
    match e
    case TurnOn(minor) =>
      var proper := IsProperFirmwareVersion(n, id, minor);
      var m := SetDevice(n, id, TurnOnDevice(d, proper));
      if TurnOnStores(d, proper) then StoreMinor(m, id, minor) else m
    case Check(now) => SetDevice(n, id, CheckDevice(d, now))
    case Version(minor) =>
      if (d.status == ONLINE || d.status == RESTARTING) && id in n.minors then
        SetDevice(StoreMinor(n, id, minor), id, d.(checkVersionAfterRestartCount := 0, restartCount := 0))
      else n
    case Beacon(now) => SetDevice(n, id, d.(lastTimeUpdated := now))
    case Aborted => SetDevice(n, id, d.(status := ONLINE))
    case Ack(now) =>
      SetDevice(n, id, d.(status := RESTARTING, restartingStartedTime := Some(now),
                          tasks := d.tasks + multiset{d.updateFinished}))
    case Resume(future, now) =>
      if future in d.tasks && future in d.completed then ResumeTask(n, id, future, now) else n
    case Expire(future) =>
      if future in d.tasks then SetDevice(n, id, FinishTask(d, future)) else n
  }

  function Next(n: Net, e: Event): Net {
    match e
    case FileChecked(path, now) => SendStartUpgrade(n, Some(path), now)
    case VersionInfo(id, minor) => StoreMinor(n, id, minor)
    case At(id, event) => if id in n.devices then NextAt(n, id, event) else n
  }

  function Run(n: Net, events: seq<Event>): Net
    decreases |events|
  {
    if events == [] then n else Run(Next(n, events[0]), events[1..])
  }

  // ---------------------------------------------------------------------------
  // The same transitions as the handlers make them, field by field.

  class Network {
    var devices: map<int, Device>
    var minors: map<int, int>
    var toUpdateIds: seq<int>
    var fileName: Option<string>
    var starts: seq<Start>

    function Snapshot(): Net
      reads this
    {
      Net(devices, minors, toUpdateIds, fileName, starts)
    }

    method SetStatus(id: int, status: Status)
      requires id in devices
      modifies this
      ensures Snapshot() == SetDevice(old(Snapshot()), id, old(devices)[id].(status := status))
    {
      devices := devices[id := devices[id].(status := status)];
    }

    method SaveMinor(id: int, minor: int)
      modifies this
      ensures Snapshot() == StoreMinor(old(Snapshot()), id, minor)
    {
      if id in minors {
        minors := minors[id := minor];
      }
    }

    method OnDeviceTurnOn(id: int, minor: int)
      modifies this
      ensures Snapshot() == Next(old(Snapshot()), At(id, TurnOn(minor)))
    {
      if id in devices {
        var d := devices[id];
        if d.status == RESTARTING {
          devices := devices[id := d.(restartCount := d.restartCount + 1)];
          if id in minors && GetPartition(minors[id]) != GetPartition(minor) && devices[id].restartCount == 2 {
            devices := devices[id := devices[id].(restartCount := 0)];
            SaveMinor(id, minor);
            devices := devices[id := devices[id].(completed := devices[id].completed + {d.updateFinished})];
          } else if devices[id].restartCount == 2 {
            devices := devices[id := devices[id].(status := ONLINE, restartCount := 0)];
          }
        } else if d.status == OFFLINE {
          devices := devices[id := d.(status := ONLINE, restartCount := 0, checkVersionAfterRestartCount := 0)];
          SaveMinor(id, minor);
        } else {
          devices := devices[id := d];
          if d.status == ONLINE {
            SaveMinor(id, minor);
          }
        }
      }
    }

    method CheckOutdatedDeviceStatus(id: int, now: int)
      modifies this
      ensures Snapshot() == Next(old(Snapshot()), At(id, Check(now)))
    {
      if id in devices {
        var d := devices[id];
        if IsOutdated(Some(d.lastTimeUpdated), now) && d.status == ONLINE {
          d := d.(status := OFFLINE);
        } else if IsOutdated(d.restartingStartedTime, now) && d.status == RESTARTING {
          if d.checkVersionAfterRestartCount < 2 {
            d := d.(checkVersionAfterRestartCount := d.checkVersionAfterRestartCount + 1);
          } else {
            d := d.(checkVersionAfterRestartCount := 0);
            d := d.(status := OFFLINE);
          }
        }
        devices := devices[id := d];
      }
    }

    method UpdateVersion(id: int, minor: int)
      modifies this
      ensures Snapshot() == Next(old(Snapshot()), At(id, Version(minor)))
    {
      if id in devices && (devices[id].status == ONLINE || devices[id].status == RESTARTING) && id in minors {
        SaveMinor(id, minor);
        devices := devices[id := devices[id].(checkVersionAfterRestartCount := 0)];
        devices := devices[id := devices[id].(restartCount := 0)];
      }
    }

    /** handleFirmwareAck up to the wait. */
    method HandleFirmwareAck(id: int, now: int)
      modifies this
      ensures Snapshot() == Next(old(Snapshot()), At(id, Ack(now)))
    {
      if id in devices {
        SetStatus(id, RESTARTING);
        var d := devices[id];
        d := d.(restartingStartedTime := Some(now));
        devices := devices[id := d.(tasks := d.tasks + multiset{d.updateFinished})];
      }
    }

    /** handleFirmwareAck after a wait that ended with the future completed. */
    method FinishUpdate(id: int, future: nat, now: int)
      requires id in devices && future in devices[id].tasks && future in devices[id].completed
      modifies this
      ensures Snapshot() == Next(old(Snapshot()), At(id, Resume(future, now)))
    {
      SetStatus(id, UPDATED);
      SetStatus(id, ONLINE);
      devices := devices[id := devices[id].(lastTimeUpdated := now)];
      assert Snapshot() == SetDevice(old(Snapshot()), id, old(devices)[id].(status := ONLINE, lastTimeUpdated := now));
      if toUpdateIds != [] {
        StartUpgrade(fileName, now);
      }
      CheckIfLast();
      devices := devices[id := FinishTask(devices[id], future)];
    }

    /** handleFirmwareAck after a wait that timed out. */
    method GiveUpUpdate(id: int, future: nat)
      requires id in devices && future in devices[id].tasks
      modifies this
      ensures Snapshot() == Next(old(Snapshot()), At(id, Expire(future)))
    {
      devices := devices[id := FinishTask(devices[id], future)];
    }

    method StartUpgrade(path: Option<string>, now: int)
      modifies this
      ensures Snapshot() == SendStartUpgrade(old(Snapshot()), path, now)
    {
      if toUpdateIds != [] {
        var id := toUpdateIds[0];
        toUpdateIds := toUpdateIds[1..];
        if id in minors {
          starts := starts + [Start(id, path, GetReversedPartition(minors[id]))];
          if id in devices {
            SetStatus(id, UPDATING);
            devices := devices[id := devices[id].(lastTimeUpdated := now)];
          }
        }
      }
    }

    method CheckIfLast()
      modifies this
      ensures Snapshot() == CheckIfLastThenClear(old(Snapshot()))
    {
      if !AnyUpdating(Snapshot()) {
        fileName, toUpdateIds := None, [];
      }
    }
  }

  // ---------------------------------------------------------------------------
  // The counters.

  predicate Counted(d: Device) {
    && 0 <= d.restartCount <= 1
    && 0 <= d.checkVersionAfterRestartCount <= 2
  }

  ghost predicate AllCounted(n: Net) {
    forall id :: id in n.devices ==> Counted(n.devices[id])
  }

  /** Between events restartCount is 0 or 1 and checkVersionAfterRestartCount is 0 to 2, in
      every run. */
  lemma {:induction false} CountersBounded(n: Net, events: seq<Event>)
    requires AllCounted(n)
    ensures AllCounted(Run(n, events))
    decreases |events|
  {
    if events != [] {
      CountersStep(n, events[0]);
      CountersBounded(Next(n, events[0]), events[1..]);
    }
  }

  lemma {:induction false} CountersStep(n: Net, e: Event)
    requires AllCounted(n)
    ensures AllCounted(Next(n, e))
  {
    if e.At? && e.id in n.devices {
      if e.event.Resume? {
        ResumeCounted(n, e.id, e.event.future, e.event.now);
      } else {
        AtCounted(n, e.id, e.event);
      }
    }
  }

  lemma {:induction false} AtCounted(n: Net, id: int, e: DeviceEvent)
    requires AllCounted(n) && id in n.devices && !e.Resume?
    ensures AllCounted(NextAt(n, id, e))
  {
    assert Counted(n.devices[id]);
  }

  lemma {:induction false} ResumeCounted(n: Net, id: int, future: nat, now: int)
    requires AllCounted(n) && id in n.devices
    ensures AllCounted(ResumeTask(n, id, future, now))
  {
    var online := SetDevice(n, id, n.devices[id].(status := ONLINE, lastTimeUpdated := now));
    var next := if online.toUpdateIds != [] then SendStartUpgrade(online, online.fileName, now) else online;
    assert AllCounted(online) && AllCounted(next);
    SendKeeps(online, online.fileName, now, id);
    assert CheckIfLastThenClear(next).devices == next.devices;
  }

  /** Nothing is heard from the device: what happens at it is a check, at a time when its restart is outdated, or
      a wait that times out. */
  predicate Quiet(e: Event, id: int, started: Option<int>) {
    e.At? && e.id == id ==>
      match e.event
      case Check(now) => IsOutdated(started, now)
      case Expire(_) => true
      case _ => false
  }

  function Checks(events: seq<Event>, id: int): nat {
    if events == [] then 0
    else (if events[0].At? && events[0].id == id && events[0].event.Check? then 1 else 0) + Checks(events[1..], id)
  }

  /** A device that has been restarting for longer than the limit and stays silent, whatever happens elsewhere in
      the network, is asked for its version at each check until it has been asked twice, and is OFFLINE from the
      third check on. */
  lemma {:induction false} SilentGoesOffline(n: Net, events: seq<Event>, id: int)
    requires id in n.devices && id !in n.toUpdateIds && Counted(n.devices[id])
    requires n.devices[id].status == RESTARTING && n.devices[id].restartingStartedTime.Some?
    requires forall e :: e in events ==> Quiet(e, id, n.devices[id].restartingStartedTime)
    ensures var m, asked := Run(n, events), n.devices[id].checkVersionAfterRestartCount + Checks(events, id);
            && id in m.devices
            && m.devices[id].status == (if asked >= 3 then OFFLINE else RESTARTING)
            && (asked <= 2 ==> m.devices[id].checkVersionAfterRestartCount == asked)
    decreases |events|
  {
    if events != [] {
      var e, next := events[0], Next(n, events[0]);
      assert Quiet(e, id, n.devices[id].restartingStartedTime);
      QuietStep(n, e, id);
      if next.devices[id].status == RESTARTING {
        SilentGoesOffline(next, events[1..], id);
      } else {
        StaysOffline(next, events[1..], id, n.devices[id].restartingStartedTime);
      }
    }
  }

  lemma {:induction false} StaysOffline(n: Net, events: seq<Event>, id: int, started: Option<int>)
    requires id in n.devices && id !in n.toUpdateIds && n.devices[id].status == OFFLINE
    requires forall e :: e in events ==> Quiet(e, id, started)
    ensures id in Run(n, events).devices && Run(n, events).devices[id].status == OFFLINE
    decreases |events|
  {
    if events != [] {
      assert Quiet(events[0], id, started);
      ElsewhereKeeps(n, events[0], id);
      StaysOffline(Next(n, events[0]), events[1..], id, started);
    }
  }

  predicate SameStatus(d: Device, e: Device) {
    && d.status == e.status
    && d.restartingStartedTime == e.restartingStartedTime
    && d.checkVersionAfterRestartCount == e.checkVersionAfterRestartCount
  }

  lemma {:induction false} QuietStep(n: Net, e: Event, id: int)
    requires id in n.devices && id !in n.toUpdateIds && n.devices[id].status == RESTARTING
    requires Quiet(e, id, n.devices[id].restartingStartedTime)
    ensures var m, d := Next(n, e), n.devices[id];
            && id in m.devices && id !in m.toUpdateIds
            && SameStatus(m.devices[id], if !(e.At? && e.id == id && e.event.Check?) then d
                                         else if d.checkVersionAfterRestartCount < 2 then
                                           d.(checkVersionAfterRestartCount := d.checkVersionAfterRestartCount + 1)
                                         else d.(checkVersionAfterRestartCount := 0, status := OFFLINE))
  {
    if !(e.At? && e.id == id && e.event.Check?) {
      ElsewhereKeeps(n, e, id);
    }
  }

  /** The queue only shrinks, and what happens elsewhere starts devices of the queue only. */
  lemma {:induction false} ElsewhereKeeps(n: Net, e: Event, id: int)
    requires id in n.devices && id !in n.toUpdateIds
    requires e.At? && e.id == id ==> e.event.Expire? || (e.event.Check? && n.devices[id].status == OFFLINE)
    ensures var m := Next(n, e);
            id in m.devices && id !in m.toUpdateIds && SameStatus(m.devices[id], n.devices[id])
  {
    match e
    case FileChecked(path, now) => SendElsewhere(n, Some(path), now, id);
    case VersionInfo(_, _) =>
    case At(other, event) =>
      if other in n.devices && event.Resume? && event.future in n.devices[other].tasks
          && event.future in n.devices[other].completed {
        ResumeElsewhere(n, other, event.future, event.now, id);
      }
  }

  lemma {:induction false} SendElsewhere(n: Net, path: Option<string>, now: int, id: int)
    requires id in n.devices && id !in n.toUpdateIds
    ensures var m := SendStartUpgrade(n, path, now);
            id in m.devices && id !in m.toUpdateIds && m.devices[id] == n.devices[id]
  {
  }

  lemma {:induction false} ResumeElsewhere(n: Net, other: int, future: nat, now: int, id: int)
    requires other in n.devices && id in n.devices && other != id && id !in n.toUpdateIds
    ensures var m := ResumeTask(n, other, future, now);
            id in m.devices && id !in m.toUpdateIds && m.devices[id] == n.devices[id]
  {
    var online := SetDevice(n, other, n.devices[other].(status := ONLINE, lastTimeUpdated := now));
    var next := if online.toUpdateIds != [] then SendStartUpgrade(online, online.fileName, now) else online;
    SendElsewhere(online, online.fileName, now, id);
    SendKeeps(online, online.fileName, now, other);
    assert CheckIfLastThenClear(next).devices == next.devices;
  }

  /** Nothing is heard from the device but the status timer and waits that time out. */
  predicate Unheard(e: Event, id: int) {
    e.At? && e.id == id ==> e.event.Check? || e.event.Expire?
  }

  /** A check finds the device silent for longer than half a minute. */
  predicate FoundSilent(e: Event, id: int, heard: int) {
    e.At? && e.id == id && e.event.Check? && e.event.now - 30_000 > heard
  }

  /** An ONLINE device outside the queue that is not heard of goes OFFLINE, whatever happens elsewhere, exactly when
      some check comes more than half a minute after the last sign of it. */
  lemma {:induction false} OnlineUntilFoundSilent(n: Net, events: seq<Event>, id: int)
    requires id in n.devices && id !in n.toUpdateIds && n.devices[id].status == ONLINE
    requires forall e :: e in events ==> Unheard(e, id)
    ensures var m, heard := Run(n, events), n.devices[id].lastTimeUpdated;
            && id in m.devices && id !in m.toUpdateIds
            && m.devices[id].status
               == (if exists e :: e in events && FoundSilent(e, id, heard) then OFFLINE else ONLINE)
            && m.devices[id].lastTimeUpdated == heard
    decreases |events|
  {
    if events != [] {
      var e, next, heard := events[0], Next(n, events[0]), n.devices[id].lastTimeUpdated;
      assert Unheard(e, id);
      UnheardStep(n, e, id);
      assert events == [e] + events[1..];
      if FoundSilent(e, id, heard) {
        SilentStays(next, events[1..], id);
      } else {
        OnlineUntilFoundSilent(next, events[1..], id);
      }
    }
  }

  lemma {:induction false} UnheardStep(n: Net, e: Event, id: int)
    requires id in n.devices && id !in n.toUpdateIds && n.devices[id].status in {ONLINE, OFFLINE} && Unheard(e, id)
    ensures var m, d := Next(n, e), n.devices[id];
            && id in m.devices && id !in m.toUpdateIds
            && m.devices[id].lastTimeUpdated == d.lastTimeUpdated
            && m.devices[id].status == (if FoundSilent(e, id, d.lastTimeUpdated) then OFFLINE else d.status)
  {
    match e
    case FileChecked(path, now) => SendElsewhere(n, Some(path), now, id);
    case VersionInfo(_, _) =>
    case At(other, event) =>
      if other in n.devices && event.Resume? && event.future in n.devices[other].tasks
          && event.future in n.devices[other].completed {
        ResumeElsewhere(n, other, event.future, event.now, id);
      }
  }

  lemma {:induction false} SilentStays(n: Net, events: seq<Event>, id: int)
    requires id in n.devices && id !in n.toUpdateIds && n.devices[id].status == OFFLINE
    requires forall e :: e in events ==> Unheard(e, id)
    ensures var m := Run(n, events);
            && id in m.devices && id !in m.toUpdateIds && m.devices[id].status == OFFLINE
            && m.devices[id].lastTimeUpdated == n.devices[id].lastTimeUpdated
    decreases |events|
  {
    if events != [] {
      assert Unheard(events[0], id);
      UnheardStep(n, events[0], id);
      SilentStays(Next(n, events[0]), events[1..], id);
    }
  }

  // ---------------------------------------------------------------------------
  // What brings a device from one status to another, and what changes the stored version.

  /** A wait for the device ends because its future is completed. */
  predicate Resumes(n: Net, e: Event, id: int) {
    && e.At? && e.id == id && id in n.devices && e.event.Resume?
    && e.event.future in n.devices[id].tasks && e.event.future in n.devices[id].completed
  }

  /** The head of the queue is the device, and the file was checked or another update just ended. */
  predicate StartsNow(n: Net, e: Event, id: int) {
    && n.toUpdateIds != [] && n.toUpdateIds[0] == id && id in n.minors
    && (e.FileChecked? || (e.At? && Resumes(n, e, e.id)))
  }

  function TimeOf(e: Event): int
    requires e.FileChecked? || (e.At? && e.event.Resume?)
  {
    if e.FileChecked? then e.now else e.event.now
  }

  lemma {:induction false} SendOnly(n: Net, path: Option<string>, now: int, id: int)
    requires id in n.devices
    ensures var m := SendStartUpgrade(n, path, now);
            && id in m.devices && m.minors == n.minors
            && m.devices[id] == if n.toUpdateIds != [] && n.toUpdateIds[0] == id && id in n.minors
                                then n.devices[id].(status := UPDATING, lastTimeUpdated := now) else n.devices[id]
  {
  }

  /** A started device is UPDATING and was heard of at that time; other events elsewhere leave a device alone. */
  lemma {:induction false} ElsewhereStartsOnly(n: Net, e: Event, id: int)
    requires id in n.devices && !(e.At? && e.id == id)
    ensures var m := Next(n, e);
            && id in m.devices
            && m.devices[id] == if StartsNow(n, e, id)
                                then n.devices[id].(status := UPDATING, lastTimeUpdated := TimeOf(e))
                                else n.devices[id]
  {
    if e.FileChecked? {
      SendOnly(n, Some(e.path), e.now, id);
    } else if e.At? && Resumes(n, e, e.id) {
      ResumeOnly(n, e.id, e.event.future, e.event.now, id);
    }
  }

  /** The end of a wait: the device is ONLINE, or UPDATING again if it is itself the next one. */
  lemma {:induction false} ResumeOnly(n: Net, other: int, future: nat, now: int, id: int)
    requires other in n.devices && id in n.devices
    ensures var m, starts := ResumeTask(n, other, future, now),
                             n.toUpdateIds != [] && n.toUpdateIds[0] == id && id in n.minors;
            && id in m.devices && m.minors == n.minors
            && (other != id ==>
                  m.devices[id] == if starts then n.devices[id].(status := UPDATING, lastTimeUpdated := now)
                                   else n.devices[id])
            && (other == id ==> m.devices[id] == FinishTask(
                  n.devices[id].(status := if starts then UPDATING else ONLINE, lastTimeUpdated := now), future))
  {
    var online := SetDevice(n, other, n.devices[other].(status := ONLINE, lastTimeUpdated := now));
    var next := if online.toUpdateIds != [] then SendStartUpgrade(online, online.fileName, now) else online;
    SendOnly(online, online.fileName, now, id);
    SendOnly(online, online.fileName, now, other);
    hide SendStartUpgrade, AnyUpdating;
    assert CheckIfLastThenClear(next).devices == next.devices;
  }

  /** The second turn-on of a restart. */
  predicate SecondTurnOn(d: Device, e: DeviceEvent) {
    e.TurnOn? && d.status == RESTARTING && d.restartCount == 1
  }

  /** What makes a device UPDATING, RESTARTING or OFFLINE, whatever it was before. */
  lemma {:induction false} StatusLeftExactly(n: Net, e: Event, id: int)
    requires id in n.devices && AllCounted(n)
    ensures id in Next(n, e).devices
    ensures var d, status := n.devices[id], Next(n, e).devices[id].status;
            && (status == UPDATING && d.status != UPDATING ==> StartsNow(n, e, id))
            && (StartsNow(n, e, id) ==> status == UPDATING)
            && (status == RESTARTING && d.status != RESTARTING ==> e.At? && e.id == id && e.event.Ack?)
            && (e.At? && e.id == id && e.event.Ack? ==>
                  status == RESTARTING && Next(n, e).devices[id].restartingStartedTime == Some(e.event.now))
            && (status == OFFLINE && d.status != OFFLINE <==>
                  && e.At? && e.id == id && e.event.Check?
                  && ((d.status == ONLINE && e.event.now - 30_000 > d.lastTimeUpdated)
                      || (d.status == RESTARTING && d.restartingStartedTime.Some?
                          && e.event.now - 30_000 > d.restartingStartedTime.value
                          && d.checkVersionAfterRestartCount == 2)))
  {
    assert Counted(n.devices[id]);
    OwnOrElsewhere(n, e, id);
    hide ResumeTask, SendStartUpgrade;
  }

  lemma {:induction false} OwnOrElsewhere(n: Net, e: Event, id: int)
    requires id in n.devices
    ensures id in Next(n, e).devices
    ensures !(e.At? && e.id == id) ==>
              Next(n, e).devices[id] == if StartsNow(n, e, id)
                                        then n.devices[id].(status := UPDATING, lastTimeUpdated := TimeOf(e))
                                        else n.devices[id]
    ensures Resumes(n, e, id) ==>
              Next(n, e).devices[id] == FinishTask(
                n.devices[id].(status := if StartsNow(n, e, id) then UPDATING else ONLINE,
                               lastTimeUpdated := e.event.now), e.event.future)
  {
    if !(e.At? && e.id == id) {
      ElsewhereStartsOnly(n, e, id);
    } else if Resumes(n, e, id) {
      ResumeOnly(n, id, e.event.future, e.event.now, id);
    }
  }

  /** What makes a device ONLINE: a turn-on when it was OFFLINE, the second turn-on of a restart that reports no other
      partition, an abort, or the end of its update. */
  lemma {:induction false} GoesOnlineExactly(n: Net, e: Event, id: int)
    requires id in n.devices && AllCounted(n) && n.devices[id].status != ONLINE
    ensures id in Next(n, e).devices
    ensures Next(n, e).devices[id].status == ONLINE <==>
              && e.At? && e.id == id
              && var d := n.devices[id];
                 || (e.event.TurnOn? && d.status == OFFLINE)
                 || (SecondTurnOn(d, e.event) && !IsProperFirmwareVersion(n, id, e.event.minor))
                 || e.event.Aborted?
                 || (Resumes(n, e, id) && !StartsNow(n, e, id))
  {
    assert Counted(n.devices[id]);
    OwnOrElsewhere(n, e, id);
    hide ResumeTask, SendStartUpgrade;
  }

  predicate TurnsBackOn(d: Device, e: DeviceEvent) {
    e.TurnOn? && d.status == OFFLINE
  }

  /** The device answers with its version when that is listened to. */
  predicate Answers(n: Net, id: int, e: DeviceEvent)
    requires id in n.devices
  {
    e.Version? && id in n.minors && n.devices[id].status in {ONLINE, RESTARTING}
  }

  predicate EndsRestart(n: Net, id: int, e: DeviceEvent)
    requires id in n.devices
  {
    var d := n.devices[id];
    SecondTurnOn(d, e) || TurnsBackOn(d, e) || Answers(n, id, e) || (e.Expire? && e.future in d.tasks)
  }

  /** The restart counter goes up by one at the first turn-on of a restart, and back to zero at the second, at a
      turn-on when OFFLINE, at a version answered, and at the end of a wait; nothing else changes it. */
  lemma {:induction false} RestartCountExactly(n: Net, e: Event, id: int)
    requires id in n.devices && AllCounted(n)
    ensures id in Next(n, e).devices
    ensures var d, count := n.devices[id], Next(n, e).devices[id].restartCount;
            && (count > d.restartCount <==>
                  e.At? && e.id == id && e.event.TurnOn? && d.status == RESTARTING && d.restartCount == 0)
            && (Resumes(n, e, id) || (e.At? && e.id == id && EndsRestart(n, id, e.event)) ==> count == 0)
            && (count < d.restartCount ==>
                  e.At? && e.id == id && (e.event.TurnOn? || e.event.Version? || e.event.Expire? || e.event.Resume?))
  {
    assert Counted(n.devices[id]);
    OwnOrElsewhere(n, e, id);
    hide ResumeTask, SendStartUpgrade;
  }

  /** The check counter goes up by one at a check that finds a restart overdue, and back to zero when the device goes
      OFFLINE, turns on from there, or answers with its version. */
  lemma {:induction false} CheckCountExactly(n: Net, e: Event, id: int)
    requires id in n.devices && AllCounted(n)
    ensures id in Next(n, e).devices
    ensures var d, count := n.devices[id], Next(n, e).devices[id].checkVersionAfterRestartCount;
            && (count > d.checkVersionAfterRestartCount ==>
                  count == d.checkVersionAfterRestartCount + 1 && e.At? && e.id == id && e.event.Check?)
            && (e.At? && e.id == id && (TurnsBackOn(d, e.event) || Answers(n, id, e.event)) ==> count == 0)
            && (d.status == RESTARTING && Next(n, e).devices[id].status == OFFLINE ==> count == 0)
            && (count < d.checkVersionAfterRestartCount ==>
                  e.At? && e.id == id && (e.event.TurnOn? || e.event.Version? || e.event.Check?))
  {
    assert Counted(n.devices[id]);
    OwnOrElsewhere(n, e, id);
    hide ResumeTask, SendStartUpgrade;
  }

  /** The last sign of a device is its last beacon, or the start or the end of its update. */
  lemma {:induction false} LastSignExactly(n: Net, e: Event, id: int)
    requires id in n.devices
    ensures id in Next(n, e).devices
    ensures Next(n, e).devices[id].lastTimeUpdated
         == if e.At? && e.id == id && e.event.Beacon? then e.event.now
            else if Resumes(n, e, id) || StartsNow(n, e, id) then TimeOf(e)
            else n.devices[id].lastTimeUpdated
  {
    OwnOrElsewhere(n, e, id);
    hide ResumeTask, SendStartUpgrade;
  }

  /** A future is replaced by the next one exactly when a wait ends, completed or not. */
  lemma {:induction false} FutureReplacedExactly(n: Net, e: Event, id: int)
    requires id in n.devices
    ensures id in Next(n, e).devices
    ensures Next(n, e).devices[id].updateFinished
         == n.devices[id].updateFinished
            + if Resumes(n, e, id) || (e.At? && e.id == id && e.event.Expire? && e.event.future in n.devices[id].tasks)
              then 1 else 0
  {
    OwnOrElsewhere(n, e, id);
    hide ResumeTask, SendStartUpgrade;
  }

  /** The stored version of a device in the database is the one last reported by a version message, by an answer when
      ONLINE or RESTARTING, or by a turn-on when ONLINE, when OFFLINE, or as the second of a restart that reports the
      other partition; nothing else changes it. */
  lemma {:induction false} StoredVersionExactly(n: Net, e: Event, id: int)
    requires id in n.minors && AllCounted(n)
    ensures id in Next(n, e).minors
    ensures var reported :=
              || e.VersionInfo?
              || (e.At? && id in n.devices
                  && var d := n.devices[id];
                     || (e.event.Version? && d.status in {ONLINE, RESTARTING})
                     || (e.event.TurnOn? && d.status in {ONLINE, OFFLINE})
                     || (SecondTurnOn(d, e.event) && IsProperFirmwareVersion(n, id, e.event.minor)));
            Next(n, e).minors[id] == if !e.FileChecked? && e.id == id && reported
                                     then (if e.VersionInfo? then e.minor else e.event.minor) else n.minors[id]
  {
    if e.At? && e.id in n.devices {
      assert Counted(n.devices[e.id]);
      if Resumes(n, e, e.id) {
        ResumeOnly(n, e.id, e.event.future, e.event.now, e.id);
      }
    }
    hide ResumeTask;
  }

  // ---------------------------------------------------------------------------
  // The partition flip.

  /** A device's future completes exactly at the second counted turn-on of a restart that
      reports the other partition, and the version reported is then the one stored. */
  lemma {:induction false} CompletesExactly(n: Net, e: Event, id: int)
    requires id in n.devices && AllCounted(n)
    ensures id in Next(n, e).devices
    ensures Next(n, e).devices[id].completed != n.devices[id].completed
       <==> && e.At? && e.id == id && e.event.TurnOn?
            && n.devices[id].status == RESTARTING
            && n.devices[id].restartCount == 1
            && IsProperFirmwareVersion(n, id, e.event.minor)
            && n.devices[id].updateFinished !in n.devices[id].completed
    ensures Next(n, e).devices[id].completed != n.devices[id].completed
        ==> Next(n, e).minors[id] == e.event.minor
  {
    if e.At? && e.id == id && e.event.TurnOn? {
      TurnOnCompletes(n, id, e.event.minor);
    } else {
      OthersKeepCompleted(n, e, id);
    }
  }

  lemma {:induction false} TurnOnCompletes(n: Net, id: int, minor: int)
    requires id in n.devices && Counted(n.devices[id])
    ensures var d, m := n.devices[id], NextAt(n, id, TurnOn(minor));
            && id in m.devices
            && (m.devices[id].completed != d.completed
                <==> d.status == RESTARTING && d.restartCount == 1
                     && IsProperFirmwareVersion(n, id, minor) && d.updateFinished !in d.completed)
            && (m.devices[id].completed != d.completed ==> m.minors[id] == minor)
  {
    var d := n.devices[id];
    if d.updateFinished in d.completed {
      assert d.completed + {d.updateFinished} == d.completed;
    } else {
      assert d.updateFinished in d.completed + {d.updateFinished};
    }
  }

  lemma {:induction false} OthersKeepCompleted(n: Net, e: Event, id: int)
    requires id in n.devices && !(e.At? && e.id == id && e.event.TurnOn?)
    ensures id in Next(n, e).devices && Next(n, e).devices[id].completed == n.devices[id].completed
  {
    if e.At? && e.id in n.devices && e.event.Resume? {
      ResumeKeeps(n, e.id, e.event.future, e.event.now, id);
    }
  }

  lemma {:induction false} ResumeKeeps(n: Net, id: int, future: nat, now: int, other: int)
    requires id in n.devices && other in n.devices
    ensures var m := ResumeTask(n, id, future, now);
            && other in m.devices
            && m.devices[other].completed == n.devices[other].completed
            && m.devices[other].updateFinished >= n.devices[other].updateFinished
            && m.minors == n.minors
  {
    var online := SetDevice(n, id, n.devices[id].(status := ONLINE, lastTimeUpdated := now));
    var next := if online.toUpdateIds != [] then SendStartUpgrade(online, online.fileName, now) else online;
    SendKeeps(online, online.fileName, now, other);
    SendKeeps(online, online.fileName, now, id);
    assert CheckIfLastThenClear(next).devices == next.devices;
  }

  lemma {:induction false} SendKeeps(n: Net, path: Option<string>, now: int, other: int)
    requires other in n.devices
    ensures var m := SendStartUpgrade(n, path, now);
            && other in m.devices
            && m.devices[other].completed == n.devices[other].completed
            && m.devices[other].updateFinished == n.devices[other].updateFinished
            && m.minors == n.minors
  {
  }

  predicate Busy(d: Device) {
    d.status == UPDATING || d.status == RESTARTING
  }

  /** A wait under way, from a Start on: no version message about the device arrives, its task neither ends nor
      times out, and the device turns on only while it is being updated and its task has something to wait for. */
  predicate Waiting(n: Net, e: Event, id: int)
    requires id in n.devices
  {
    var d := n.devices[id];
    match e
    case FileChecked(_, _) => true
    case VersionInfo(other, _) => other != id
    case At(other, event) =>
      other == id ==>
        match event
        case TurnOn(_) => Busy(d) && !(d.updateFinished in d.tasks && d.updateFinished in d.completed)
        case Version(_) => false
        case Resume(_, _) => false
        case Expire(_) => false
        case _ => true
  }

  ghost predicate WaitingRun(n: Net, events: seq<Event>, id: int)
    decreases |events|
  {
    && id in n.devices
    && (events != [] ==> Waiting(n, events[0], id) && WaitingRun(Next(n, events[0]), events[1..], id))
  }

  /** During a wait: the stored version is in partition `from` until the future is completed and in the other
      one afterwards, unless the future was completed from the beginning. */
  ghost predicate InWait(n: Net, id: int, future: nat, from: Partition, stale: bool) {
    && id in n.devices && id in n.minors
    && var d := n.devices[id];
    && d.updateFinished == future
    && (d.status == RESTARTING ==> future in d.tasks)
    && (stale ==> future in d.completed)
    && (GetPartition(n.minors[id]) == from <==> stale || future !in d.completed)
  }

  lemma {:induction false} WaitStep(n: Net, e: Event, id: int, future: nat, from: Partition, stale: bool)
    requires InWait(n, id, future, from, stale) && Waiting(n, e, id)
    ensures InWait(Next(n, e), id, future, from, stale)
  {
    match e
    case FileChecked(path, now) => SendInWait(n, Some(path), now, id, future, from, stale);
    case VersionInfo(_, _) =>
    case At(other, event) =>
      if other in n.devices {
        if other == id {
        } else if event.Resume? {
          if event.future in n.devices[other].tasks && event.future in n.devices[other].completed {
            ResumeInWait(n, other, event.future, event.now, id, future, from, stale);
          }
        } else {
          NextAtShape(n, other, event);
          assert NextAt(n, other, event).devices[id] == n.devices[id];
        }
      }
  }

  lemma {:induction false} SendInWait(
      n: Net, path: Option<string>, now: int, id: int, future: nat, from: Partition, stale: bool)
    requires InWait(n, id, future, from, stale)
    ensures InWait(SendStartUpgrade(n, path, now), id, future, from, stale)
  {
  }

  lemma {:induction false} ResumeInWait(
      n: Net, other: int, ended: nat, now: int, id: int, future: nat, from: Partition, stale: bool)
    requires InWait(n, id, future, from, stale) && other in n.devices && other != id
    ensures InWait(ResumeTask(n, other, ended, now), id, future, from, stale)
  {
    var online := SetDevice(n, other, n.devices[other].(status := ONLINE, lastTimeUpdated := now));
    var next := if online.toUpdateIds != [] then SendStartUpgrade(online, online.fileName, now) else online;
    assert InWait(online, id, future, from, stale);
    SendInWait(online, online.fileName, now, id, future, from, stale);
    SendKeeps(online, online.fileName, now, other);
    assert CheckIfLastThenClear(next).devices == next.devices;
  }

  lemma {:induction false} WaitRun(n: Net, events: seq<Event>, id: int, future: nat, from: Partition, stale: bool)
    requires InWait(n, id, future, from, stale) && WaitingRun(n, events, id)
    ensures InWait(Run(n, events), id, future, from, stale)
    decreases |events|
  {
    if events != [] {
      WaitStep(n, events[0], id, future, from, stale);
      WaitRun(Next(n, events[0]), events[1..], id, future, from, stale);
    }
  }

  /** When the wait for a started device ends with its future completed, its stored version is in the partition
      that the Start command named exactly if that future was not completed already when the command was sent. */
  lemma {:induction false} EndsInPartitionSentExactly(
      n: Net, path: Option<string>, now: int, events: seq<Event>, later: int)
    requires n.toUpdateIds != [] && n.toUpdateIds[0] in n.minors && n.toUpdateIds[0] in n.devices
    requires WaitingRun(SendStartUpgrade(n, path, now), events, n.toUpdateIds[0])
    requires var id := n.toUpdateIds[0];
             var m, future := Run(SendStartUpgrade(n, path, now), events), n.devices[id].updateFinished;
             id in m.devices && future in m.devices[id].tasks && future in m.devices[id].completed
    ensures var id, sent := n.toUpdateIds[0], SendStartUpgrade(n, path, now);
            var future := n.devices[id].updateFinished;
            var ended := Next(Run(sent, events), At(id, Resume(future, later)));
            && sent.starts != [] && sent.starts[|sent.starts| - 1].shortId == id
            && id in ended.minors
            && (GetPartition(ended.minors[id]) == sent.starts[|sent.starts| - 1].partition
                <==> future !in n.devices[id].completed)
  {
    var id, sent := n.toUpdateIds[0], SendStartUpgrade(n, path, now);
    var future := n.devices[id].updateFinished;
    var from, stale := GetPartition(n.minors[id]), future in n.devices[id].completed;
    assert InWait(sent, id, future, from, stale);
    WaitRun(sent, events, id, future, from, stale);
    ResumeKeeps(Run(sent, events), id, future, later, id);
  }

  /** A task that comes late is why a wait may not see two more turn-ons: they take the device back, under the same
      completed future. */
  lemma {:induction false} LateTaskFlipsBack(n: Net, id: int, there: int, back: int)
    requires id in n.devices && id in n.minors
             && GetPartition(there) != GetPartition(n.minors[id]) == GetPartition(back)
    requires var d := n.devices[id];
             d.status == RESTARTING && d.restartCount == 0 && d.updateFinished in d.tasks
    ensures var twice := Next(Next(n, At(id, TurnOn(there))), At(id, TurnOn(there)));
            var again := Next(Next(twice, At(id, TurnOn(back))), At(id, TurnOn(back)));
            && id in again.devices && id in again.minors
            && n.devices[id].updateFinished in again.devices[id].tasks
            && n.devices[id].updateFinished in again.devices[id].completed
            && GetPartition(again.minors[id]) == GetPartition(n.minors[id])
  {
    var future := n.devices[id].updateFinished;
    var once := Next(n, At(id, TurnOn(there)));
    assert once.devices[id].restartCount == 1 && once.minors == n.minors;
    var twice := Next(once, At(id, TurnOn(there)));
    assert twice.minors[id] == there && twice.devices[id].restartCount == 0;
    assert future in twice.devices[id].completed && future in twice.devices[id].tasks;
    var third := Next(twice, At(id, TurnOn(back)));
    assert third.devices[id].restartCount == 1 && third.minors[id] == there;
    assert third.devices[id].completed == twice.devices[id].completed;
  }

  /** A future left completed by an earlier restart makes the next wait end at once: the device
      is reported updated although its stored version, and so its partition, is the old one. */
  lemma {:induction false} StaleFutureEndsAtOnce(n: Net, path: Option<string>, now: int)
    requires n.toUpdateIds != [] && n.toUpdateIds[0] !in n.toUpdateIds[1..]
    requires var id := n.toUpdateIds[0];
             id in n.minors && id in n.devices && n.devices[id].updateFinished in n.devices[id].completed
    ensures var id := n.toUpdateIds[0];
            var sent := SendStartUpgrade(n, path, now);
            var acked := Next(sent, At(id, Ack(now)));
            var finished := Next(acked, At(id, Resume(n.devices[id].updateFinished, now)));
            && id in finished.devices && id in finished.minors
            && finished.devices[id].status == ONLINE
            && GetPartition(finished.minors[id]) != sent.starts[|sent.starts| - 1].partition
  {
    var id := n.toUpdateIds[0];
    var sent := SendStartUpgrade(n, path, now);
    var acked := Next(sent, At(id, Ack(now)));
    var future := n.devices[id].updateFinished;
    assert acked.devices[id].completed == n.devices[id].completed && future in acked.devices[id].tasks;
    ResumeKeeps(acked, id, future, now, id);
    ResumedIsOnline(acked, id, future, now);
  }

  lemma {:induction false} ResumedIsOnline(n: Net, id: int, future: nat, now: int)
    requires id in n.devices && (n.toUpdateIds != [] ==> n.toUpdateIds[0] != id)
    ensures id in ResumeTask(n, id, future, now).devices
    ensures ResumeTask(n, id, future, now).devices[id].status == ONLINE
  {
    var online := SetDevice(n, id, n.devices[id].(status := ONLINE, lastTimeUpdated := now));
    var next := if online.toUpdateIds != [] then SendStartUpgrade(online, online.fileName, now) else online;
    assert id in next.devices && next.devices[id].status == ONLINE;
    assert CheckIfLastThenClear(next).devices == next.devices;
  }

  /** Such a future is within reach of a network in which nothing is under way: the first wait times out, and the
      device restarts twice all the same. */
  lemma {:induction false} StaleFutureReachable(n: Net, path: string, minor: int, now: int)
    requires n.toUpdateIds != []
    requires var id := n.toUpdateIds[0];
             && id in n.devices && IsProperFirmwareVersion(n, id, minor)
             && var d := n.devices[id];
             && d.status == ONLINE && d.restartCount == 0 && d.tasks == multiset{} && d.completed == {}
    ensures var id, future := n.toUpdateIds[0], n.devices[n.toUpdateIds[0]].updateFinished;
            var m := Run(n, [FileChecked(path, now), At(id, Ack(now)), At(id, Expire(future)),
                             At(id, TurnOn(minor)), At(id, TurnOn(minor))]);
            && id in m.devices
            && m.devices[id].updateFinished in m.devices[id].completed
            && m.devices[id].tasks == multiset{}
  {
    var id, future := n.toUpdateIds[0], n.devices[n.toUpdateIds[0]].updateFinished;
    var started := Next(n, FileChecked(path, now));
    var acked := Next(started, At(id, Ack(now)));
    var expired := Next(acked, At(id, Expire(future)));
    var first := Next(expired, At(id, TurnOn(minor)));
    var second := Next(first, At(id, TurnOn(minor)));
    assert acked.devices[id].tasks == multiset{future};
    assert expired.devices[id].tasks == multiset{} && expired.devices[id].status == RESTARTING;
    assert second.devices[id].updateFinished in second.devices[id].completed;
    RunOf5(n, FileChecked(path, now), At(id, Ack(now)), At(id, Expire(future)), At(id, TurnOn(minor)),
           At(id, TurnOn(minor)));
  }

  lemma {:induction false} RunOf5(n: Net, a: Event, b: Event, c: Event, d: Event, e: Event)
    ensures Run(n, [a, b, c, d, e]) == Next(Next(Next(Next(Next(n, a), b), c), d), e)
  {
    hide *;
    assert [a, b, c, d, e] == [a] + [b, c, d, e] && [b, c, d, e] == [b] + [c, d, e];
    assert [c, d, e] == [c] + [d, e] && [d, e] == [d] + [e] && [e] == [e] + [];
    var third := Next(Next(Next(n, a), b), c);
    RunFirst(n, a, [b, c, d, e]);
    RunFirst(Next(n, a), b, [c, d, e]);
    RunFirst(Next(Next(n, a), b), c, [d, e]);
    RunFirst(third, d, [e]);
    RunFirst(Next(third, d), e, []);
    RunFirst(Next(Next(third, d), e), e, []);
  }

  lemma {:induction false} RunFirst(n: Net, e: Event, rest: seq<Event>)
    ensures Run(n, []) == n
    ensures Run(n, [e] + rest) == Run(Next(n, e), rest)
  {
    hide Next;
    assert ([e] + rest)[1..] == rest;
  }

  /** A restarting device has a task for its current future, the current future is not completed without one, and
      later futures are neither completed nor waited for. */
  ghost predicate Fresh(d: Device) {
    && (d.status == RESTARTING ==> d.updateFinished in d.tasks)
    && (d.updateFinished in d.completed ==> d.updateFinished in d.tasks)
    && (forall f :: f in d.completed ==> f <= d.updateFinished)
    && (forall f :: f in d.tasks ==> f <= d.updateFinished)
  }

  ghost predicate AllFresh(n: Net) {
    forall id :: id in n.devices ==> Fresh(n.devices[id])
  }

  /** A wait times out while its device is still restarting. */
  predicate TimesOut(n: Net, e: Event) {
    && e.At? && e.event.Expire? && e.id in n.devices
    && n.devices[e.id].status == RESTARTING && e.event.future in n.devices[e.id].tasks
  }

  /** Only a wait that times out under a restart can leave a future to go stale, and it always does. */
  lemma {:induction false} FreshStepExactly(n: Net, e: Event)
    requires AllFresh(n)
    ensures AllFresh(Next(n, e)) <==> !TimesOut(n, e)
  {
    if e.At? && e.id in n.devices {
      assert Fresh(n.devices[e.id]);
      if e.event.Resume? {
        if e.event.future in n.devices[e.id].tasks && e.event.future in n.devices[e.id].completed {
          ResumeFresh(n, e.id, e.event.future, e.event.now);
        }
      } else {
        AtFresh(n, e.id, e.event);
      }
    }
  }

  lemma {:induction false} AtFresh(n: Net, id: int, e: DeviceEvent)
    requires AllFresh(n) && id in n.devices && !e.Resume?
    ensures AllFresh(NextAt(n, id, e)) <==> !TimesOut(n, At(id, e))
  {
    var m := NextAt(n, id, e);
    assert Fresh(n.devices[id]);
    NextAtShape(n, id, e);
    FreshHere(n, id, e);
    hide NextAt, TimesOut;
    forall other | other in n.devices && other != id
      ensures Fresh(m.devices[other])
    {
      assert Fresh(n.devices[other]);
    }
  }

  lemma {:induction false} FreshHere(n: Net, id: int, e: DeviceEvent)
    requires id in n.devices && Fresh(n.devices[id]) && !e.Resume?
    ensures id in NextAt(n, id, e).devices
    ensures Fresh(NextAt(n, id, e).devices[id]) <==> !TimesOut(n, At(id, e))
  {
    hide Fresh, TimesOut, IsProperFirmwareVersion, IsOutdated;
    var d, after := n.devices[id], NextAt(n, id, e).devices[id];
    NoTimeOut(n, At(id, e));
    if e.TurnOn? {
      FreshTurnOn(d, IsProperFirmwareVersion(n, id, e.minor));
    } else if e.Ack? {
      FreshAck(d, e.now);
    } else if e.Expire? {
      FreshExpire(n, id, e.future);
    } else {
      FreshSame(d, after);
    }
  }

  predicate SameFutures(d: Device, after: Device) {
    after.updateFinished == d.updateFinished && after.completed == d.completed && after.tasks == d.tasks
  }

  lemma {:induction false} FreshSame(d: Device, after: Device)
    requires Fresh(d) && SameFutures(d, after) && (after.status == RESTARTING ==> d.status == RESTARTING)
    ensures Fresh(after)
  {
  }

  lemma {:induction false} NoTimeOut(n: Net, e: Event)
    ensures TimesOut(n, e) ==> e.At? && e.event.Expire?
  {
  }

  lemma {:induction false} FreshTurnOn(d: Device, proper: bool)
    requires Fresh(d)
    ensures Fresh(TurnOnDevice(d, proper))
  {
  }

  lemma {:induction false} FreshAck(d: Device, now: int)
    requires Fresh(d)
    ensures Fresh(d.(status := RESTARTING, restartingStartedTime := Some(now),
                     tasks := d.tasks + multiset{d.updateFinished}))
  {
  }

  lemma {:induction false} FreshExpire(n: Net, id: int, future: nat)
    requires id in n.devices && Fresh(n.devices[id])
    ensures var d := n.devices[id];
            Fresh(if future in d.tasks then FinishTask(d, future) else d) <==> !TimesOut(n, At(id, Expire(future)))
  {
  }

  lemma {:induction false} ResumeFresh(n: Net, id: int, future: nat, now: int)
    requires AllFresh(n) && id in n.devices
    ensures AllFresh(ResumeTask(n, id, future, now))
  {
    var online := SetDevice(n, id, n.devices[id].(status := ONLINE, lastTimeUpdated := now));
    var next := if online.toUpdateIds != [] then SendStartUpgrade(online, online.fileName, now) else online;
    assert CheckIfLastThenClear(next).devices == next.devices;
    assert Fresh(n.devices[id]);
    assert AllFresh(online);
    SendFresh(online, online.fileName, now);
    SendKeeps(online, online.fileName, now, id);
    hide SendStartUpgrade, CheckIfLastThenClear;
    assert Fresh(FinishTask(next.devices[id], future));
  }

  lemma {:induction false} SendFresh(n: Net, path: Option<string>, now: int)
    requires AllFresh(n)
    ensures AllFresh(SendStartUpgrade(n, path, now))
  {
    var m := SendStartUpgrade(n, path, now);
    forall id | id in m.devices
      ensures Fresh(m.devices[id])
    {
      assert id in n.devices && Fresh(n.devices[id]);
    }
  }

  ghost predicate InTime(n: Net, events: seq<Event>)
    decreases |events|
  {
    events != [] ==> !TimesOut(n, events[0]) && InTime(Next(n, events[0]), events[1..])
  }

  lemma {:induction false} NoStaleFuture(n: Net, events: seq<Event>)
    requires AllFresh(n) && InTime(n, events)
    ensures AllFresh(Run(n, events))
    decreases |events|
  {
    if events != [] {
      FreshStepExactly(n, events[0]);
      NoStaleFuture(Next(n, events[0]), events[1..]);
    }
  }

  /** In a network where no wait has timed out under a restart, a device that is started while no task waits for it
      ends in the partition that its Start command named. */
  lemma {:induction false} InTimeEndsInPartitionSent(
      first: Net, history: seq<Event>, path: Option<string>, now: int, events: seq<Event>, later: int)
    requires AllFresh(first) && InTime(first, history)
    requires var n := Run(first, history);
             && n.toUpdateIds != [] && n.toUpdateIds[0] in n.minors && n.toUpdateIds[0] in n.devices
             && var id, sent := n.toUpdateIds[0], SendStartUpgrade(n, path, now);
             && var m, future := Run(sent, events), n.devices[id].updateFinished;
             && n.devices[id].tasks == multiset{} && WaitingRun(sent, events, id)
             && id in m.devices && future in m.devices[id].tasks && future in m.devices[id].completed
    ensures var n := Run(first, history);
            var id, sent := n.toUpdateIds[0], SendStartUpgrade(n, path, now);
            var ended := Next(Run(sent, events), At(id, Resume(n.devices[id].updateFinished, later)));
            && id in ended.minors && sent.starts != []
            && GetPartition(ended.minors[id]) == sent.starts[|sent.starts| - 1].partition
  {
    NoStaleFuture(first, history);
    var n := Run(first, history);
    assert Fresh(n.devices[n.toUpdateIds[0]]);
    hide Run, WaitingRun, AllFresh, InTime, SendStartUpgrade, Next;
    EndsInPartitionSentExactly(n, path, now, events, later);
  }

  // ---------------------------------------------------------------------------
  // The queue.

  function StartedIds(starts: seq<Start>): (ids: seq<int>)
    ensures |ids| == |starts|
  {
    seq(|starts|, i requires 0 <= i < |starts| => starts[i].shortId)
  }

  /** The updates started so far are a prefix of the request, the rest is queued, and only the
      one started last can be under way. */
  ghost predicate InOrder(n: Net, ids: seq<int>, path: string) {
    var k := |n.starts|;
    && k <= |ids|
    && StartedIds(n.starts) == ids[..k]
    && (forall i :: 0 <= i < k ==> n.starts[i].path == Some(path))
    && (forall id :: id in ids ==> id in n.minors && id in n.devices)
    && (n.fileName == Some(path) || n.fileName == None)
    && (n.fileName == Some(path) ==> n.toUpdateIds == ids[k..])
    && (n.fileName == None ==> k == |ids| && n.toUpdateIds == [])
    && (forall id :: id in n.devices && Busy(n.devices[id]) ==> k > 0 && id == ids[k - 1])
    && (forall id :: id in n.devices ==> TaskShape(n.devices[id]))
  }

  predicate TaskShape(d: Device) {
    && |d.tasks| <= 1
    && (d.status != RESTARTING ==> d.tasks == multiset{})
  }

  /** The events of updates that succeed: one checked file, acknowledgements only of the update
      under way, the right version at the second turn-on, and no abort, timeout or silence. */
  predicate Succeeding(n: Net, e: Event, path: string) {
    match e
    case FileChecked(p, _) => p == path && n.starts == [] && n.fileName == Some(path)
    case VersionInfo(_, _) => true
    case At(id, event) =>
      id in n.devices ==>
        var d := n.devices[id];
        match event
        case TurnOn(minor) => d.status == RESTARTING && d.restartCount == 1 ==> IsProperFirmwareVersion(n, id, minor)
        case Check(now) => d.status == RESTARTING ==> CheckDevice(d, now).status == RESTARTING
        case Aborted => !Busy(d)
        case Ack(_) => d.status == UPDATING
        case Expire(_) => false
        case _ => true
  }

  ghost predicate SucceedingRun(n: Net, events: seq<Event>, path: string)
    decreases |events|
  {
    events != [] ==> Succeeding(n, events[0], path) && SucceedingRun(Next(n, events[0]), events[1..], path)
  }

  lemma {:induction false} StaysInOrder(n: Net, ids: seq<int>, path: string, e: Event)
    requires InOrder(n, ids, path) && AllCounted(n) && Succeeding(n, e, path)
    requires forall i, j :: 0 <= i < j < |ids| ==> ids[i] != ids[j]
    ensures InOrder(Next(n, e), ids, path)
  {
    match e
    case FileChecked(_, now) =>
      if ids != [] {
        StartKeepsOrder(n, ids, path, now);
      }
    case VersionInfo(_, _) =>
    case At(id, event) =>
      if id in n.devices {
        if event.Resume? {
          if event.future in n.devices[id].tasks && event.future in n.devices[id].completed {
            ResumeKeepsOrder(n, ids, path, id, event.future, event.now);
          }
        } else {
          AtKeepsOrder(n, ids, path, id, event);
        }
      }
  }

  lemma {:induction false} AtKeepsOrder(n: Net, ids: seq<int>, path: string, id: int, e: DeviceEvent)
    requires InOrder(n, ids, path) && AllCounted(n) && id in n.devices && !e.Resume?
    requires Succeeding(n, At(id, e), path)
    ensures InOrder(NextAt(n, id, e), ids, path)
  {
    var d, m := n.devices[id], NextAt(n, id, e);
    assert Counted(d) && TaskShape(d);
    NextAtShape(n, id, e);
    assert Busy(m.devices[id]) ==> Busy(d);
    assert TaskShape(m.devices[id]);
    hide NextAt;
    OneDeviceKeepsOrder(n, m, ids, path, id);
  }

  /** Apart from resuming, an event at a device touches that device and its stored version only. */
  ghost predicate OneDeviceChanged(n: Net, m: Net, id: int) {
    && id in n.devices
    && m.devices.Keys == n.devices.Keys && m.minors.Keys == n.minors.Keys
    && (forall other :: other in n.devices && other != id ==> m.devices[other] == n.devices[other])
    && m.starts == n.starts && m.fileName == n.fileName && m.toUpdateIds == n.toUpdateIds
  }

  lemma {:induction false} NextAtShape(n: Net, id: int, e: DeviceEvent)
    requires id in n.devices && !e.Resume?
    ensures OneDeviceChanged(n, NextAt(n, id, e), id)
  {
  }

  lemma {:induction false} OneDeviceKeepsOrder(n: Net, m: Net, ids: seq<int>, path: string, id: int)
    requires InOrder(n, ids, path) && OneDeviceChanged(n, m, id)
    requires (Busy(m.devices[id]) ==> Busy(n.devices[id])) && TaskShape(m.devices[id])
    ensures InOrder(m, ids, path)
  {
  }

  /** Starting the next of the queue while nothing is under way. */
  lemma {:induction false} StartKeepsOrder(n: Net, ids: seq<int>, path: string, now: int)
    requires InOrder(n, ids, path) && n.fileName == Some(path) && |n.starts| < |ids|
    requires forall id :: id in n.devices ==> !Busy(n.devices[id])
    ensures var m := SendStartUpgrade(n, Some(path), now);
            InOrder(m, ids, path) && AnyUpdating(m)
  {
    var k := |n.starts|;
    var id := n.toUpdateIds[0];
    assert id == ids[k] && id in ids;
    var m := SendStartUpgrade(n, Some(path), now);
    assert TaskShape(n.devices[id]);
    assert StartedIds(m.starts) == ids[..k] + [id] == ids[..k + 1];
    assert m.toUpdateIds == ids[k + 1..];
    assert m.devices[id].status == UPDATING;
  }

  lemma {:induction false} ResumeKeepsOrder(n: Net, ids: seq<int>, path: string, id: int, future: nat, now: int)
    requires InOrder(n, ids, path) && id in n.devices && future in n.devices[id].tasks
    requires forall i, j :: 0 <= i < j < |ids| ==> ids[i] != ids[j]
    ensures InOrder(ResumeTask(n, id, future, now), ids, path)
  {
    var d, k := n.devices[id], |n.starts|;
    assert TaskShape(d) && d.status == RESTARTING && Busy(d) && id == ids[k - 1];
    OneTask(d.tasks, future);
    var online := SetDevice(n, id, d.(status := ONLINE, lastTimeUpdated := now));
    var free := SetDevice(n, id, d.(status := ONLINE, lastTimeUpdated := now, tasks := multiset{}));
    assert InOrder(free, ids, path);
    assert forall other :: other in free.devices ==> !Busy(free.devices[other]);
    if online.toUpdateIds != [] {
      StartKeepsOrder(free, ids, path, now);
      assert ids[k..][0] == ids[k] != id;
      var next, freeNext := SendStartUpgrade(online, online.fileName, now), SendStartUpgrade(free, Some(path), now);
      SendCommutes(n, id, d.(status := ONLINE, lastTimeUpdated := now), multiset{}, Some(path), now);
      assert next.devices[ids[k]].status == UPDATING;
      assert CheckIfLastThenClear(next) == next;
      FinishKeepsOrder(freeNext, next, ids, path, id, future);
    } else {
      assert !AnyUpdating(online);
      FinishKeepsOrder(free.(fileName := None), CheckIfLastThenClear(online), ids, path, id, future);
    }
  }

  lemma {:induction false} OneTask(tasks: multiset<nat>, future: nat)
    requires future in tasks && |tasks| <= 1
    ensures tasks - multiset{future} == multiset{}
  {
    assert |tasks - multiset{future}| == |tasks| - 1;
  }

  /** Starting another device does not depend on this one's tasks. */
  lemma {:induction false} SendCommutes(n: Net, id: int, d: Device, tasks: multiset<nat>, path: Option<string>,
                                        now: int)
    requires n.toUpdateIds != [] && n.toUpdateIds[0] != id && id in n.devices
    ensures SendStartUpgrade(SetDevice(n, id, d.(tasks := tasks)), path, now)
         == SetDevice(SendStartUpgrade(SetDevice(n, id, d), path, now), id, d.(tasks := tasks))
  {
  }

  lemma {:induction false} FinishKeepsOrder(free: Net, m: Net, ids: seq<int>, path: string, id: int, future: nat)
    requires InOrder(free, ids, path) && id in m.devices && id in free.devices
    requires SetDevice(m, id, m.devices[id].(tasks := multiset{})) == free && m.devices[id].status == ONLINE
    requires m.devices[id].tasks - multiset{future} == multiset{}
    ensures InOrder(SetDevice(m, id, FinishTask(m.devices[id], future)), ids, path)
  {
    var final := SetDevice(m, id, FinishTask(m.devices[id], future));
    assert free.devices.Keys == m.devices.Keys == final.devices.Keys;
    OneDeviceKeepsOrder(free, final, ids, path, id);
  }

  /** In every run whose updates succeed, Start commands follow the request's order with one per
      device, at most one device is UPDATING or RESTARTING, and the file name is cleared only
      when every device of the request has been started. */
  lemma {:induction false} UpgradesInOrder(n: Net, ids: seq<int>, path: string, events: seq<Event>)
    requires InOrder(n, ids, path) && AllCounted(n) && SucceedingRun(n, events, path)
    requires forall i, j :: 0 <= i < j < |ids| ==> ids[i] != ids[j]
    ensures InOrder(Run(n, events), ids, path)
    ensures var m := Run(n, events);
            && (forall i, j :: i in m.devices && j in m.devices && Busy(m.devices[i]) && Busy(m.devices[j]) ==> i == j)
            && (forall i :: 0 <= i < |m.starts| ==> m.starts[i].shortId == ids[i] && m.starts[i].path == Some(path))
    decreases |events|
  {
    if events != [] {
      StaysInOrder(n, ids, path, events[0]);
      CountersStep(n, events[0]);
      UpgradesInOrder(Next(n, events[0]), ids, path, events[1..]);
    }
  }

  /** Handing over keeps the rest of the queue exactly when the next device is both in the database and connected, or
      another device is updating; otherwise the rest is dropped and the file forgotten. */
  lemma {:induction false} HandOverKeepsQueueExactly(n: Net, id: int, future: nat, now: int)
    requires id in n.devices && n.toUpdateIds != []
    ensures var next, m := n.toUpdateIds[0], ResumeTask(n, id, future, now);
            if || (next in n.minors && next in n.devices)
               || exists other :: other in n.devices && other != id && n.devices[other].status == UPDATING
            then m.toUpdateIds == n.toUpdateIds[1..] && m.fileName == n.fileName
            else m.toUpdateIds == [] && m.fileName == None
  {
    var next := n.toUpdateIds[0];
    var online := SetDevice(n, id, n.devices[id].(status := ONLINE, lastTimeUpdated := now));
    var sent := SendStartUpgrade(online, online.fileName, now);
    if next in n.minors && next in n.devices {
      assert sent.devices[next].status == UPDATING;
    } else {
      assert sent.devices == online.devices;
      if other :| other in n.devices && other != id && n.devices[other].status == UPDATING {
        assert sent.devices[other].status == UPDATING;
      } else {
        assert !AnyUpdating(sent);
      }
    }
  }
}
