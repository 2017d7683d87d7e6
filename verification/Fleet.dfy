/** The fleet protocol: devices write files locally, push them to a shared
    remote, pull them back and consume a shared event log.

    The state and its steps are values; class `Simulation` runs the same steps in
    place and is proved to follow them.  Devices are identified by their distinct
    ids; any number of devices, paths and steps is allowed. */
module Fleet {
  import opened Basics
  import opened Clocks
  import opened Conflicts

  /** A local copy of a file: content hash and vector clock. */
  datatype Version = Version(hash: Hash, clock: Clock)

  datatype Machine = Machine(files: map<Path, Version>, online: bool)

  datatype Manifest = Manifest(fileHash: Hash, chunks: seq<Hash>, clock: Clock, writtenBy: DeviceId)

  datatype Event = Event(device: DeviceId, path: Path, hash: Hash, clock: Clock)

  datatype State = State(
    machines: map<DeviceId, Machine>,
    manifests: map<Path, Manifest>,
    chunks: map<Hash, Hash>,
    events: seq<Event>,
    cursors: map<DeviceId, nat>)

  datatype Op =
    | WriteFile(device: DeviceId, path: Path, hash: Hash)
    | Push(device: DeviceId, path: Path)
    | Pull(device: DeviceId, path: Path)
    | GoOffline(device: DeviceId)
    | GoOnline(device: DeviceId)
    | ProcessEvents(device: DeviceId)

  function Lookup(files: map<Path, Version>, p: Path): Option<Version>
  {
    if p in files then Some(files[p]) else None
  }

  function FileOf(s: State, d: DeviceId, p: Path): Option<Version>
    requires d in s.machines
  {
    Lookup(s.machines[d].files, p)
  }

  function ClockOf(f: Option<Version>): Clock
  {
    if f.Some? then f.value.clock else map[]
  }

  function Cursor(s: State, d: DeviceId): nat
  {
    if d in s.cursors then s.cursors[d] else 0
  }

  ghost predicate WellFormed(s: State)
  {
    forall d | d in s.cursors :: s.cursors[d] <= |s.events|
  }

  function SetFile(s: State, d: DeviceId, p: Path, v: Version): State
    requires d in s.machines
  {
    var m := s.machines[d];
    s.(machines := s.machines[d := m.(files := m.files[p := v])])
  }

  function Written(s: State, d: DeviceId, p: Path, h: Hash): State
    requires d in s.machines
  {
    SetFile(s, d, p, Version(h, Ticked(ClockOf(FileOf(s, d, p)), d)))
  }

  /** How a device's copy compares with the remote manifest of the path. */
  function AgainstRemote(s: State, d: DeviceId, p: Path): SyncOutcome
    requires d in s.machines && p in s.machines[d].files && p in s.manifests
  {
    var v, m := s.machines[d].files[p], s.manifests[p];
    CompareClocks(v.clock, m.clock, v.hash, m.fileHash, p, d, m.writtenBy, 0)
  }

  predicate PushProceeds(s: State, d: DeviceId, p: Path)
    requires d in s.machines
  {
    && s.machines[d].online
    && p in s.machines[d].files
    && (p in s.manifests ==> AgainstRemote(s, d, p).LocalNewer?)
  }

  function Pushed(s: State, d: DeviceId, p: Path): State
    requires d in s.machines
  {
    if !PushProceeds(s, d, p) then s else
      var v := s.machines[d].files[p];
      var clock := if p in s.manifests then Merged(v.clock, s.manifests[p].clock) else v.clock;
      var s' := SetFile(s, d, p, Version(v.hash, clock));
      s'.(manifests := s.manifests[p := Manifest(v.hash, [v.hash], clock, d)],
          chunks := s.chunks[v.hash := v.hash],
          events := s.events + [Event(d, p, v.hash, clock)])
  }

  /** The answer of a push: whether a conflict was detected. */
  predicate PushConflicts(s: State, d: DeviceId, p: Path)
    requires d in s.machines
  {
    && s.machines[d].online
    && p in s.machines[d].files
    && p in s.manifests
    && AgainstRemote(s, d, p).Conflict?
  }

  function Pulled(s: State, d: DeviceId, p: Path): State
    requires d in s.machines
  {
    if !s.machines[d].online || p !in s.manifests then s else
      var m := s.manifests[p];
      SetFile(s, d, p, Version(m.fileHash, Merged(ClockOf(FileOf(s, d, p)), m.clock)))
  }

  function WithOnline(s: State, d: DeviceId, online: bool): State
    requires d in s.machines
  {
    s.(machines := s.machines[d := s.machines[d].(online := online)])
  }

  /** One event delivered to device `d`.  A conflict is settled in favour of the event. */
  function ApplyEvent(files: map<Path, Version>, d: DeviceId, e: Event): map<Path, Version>
  {
    if e.device == d then
      files
    else if e.path !in files then
      files[e.path := Version(e.hash, e.clock)]
    else
      var v := files[e.path];
      var merged := Merged(v.clock, e.clock);
      match CompareClocks(v.clock, e.clock, v.hash, e.hash, e.path, d, e.device, 0)
      case LocalNewer => files[e.path := Version(v.hash, merged)]
      case _ => files[e.path := Version(e.hash, merged)]
  }

  function ApplyEvents(files: map<Path, Version>, d: DeviceId, es: seq<Event>): map<Path, Version>
  {
    if es == [] then files
    else ApplyEvent(ApplyEvents(files, d, es[..|es| - 1]), d, es[|es| - 1])
  }

  function Processed(s: State, d: DeviceId): State
    requires d in s.machines && Cursor(s, d) <= |s.events|
  {
    if !s.machines[d].online then s else
      var m := s.machines[d];
      var files := ApplyEvents(m.files, d, s.events[Cursor(s, d)..]);
      s.(machines := s.machines[d := m.(files := files)],
         cursors := s.cursors[d := |s.events|])
  }

  function Step(s: State, op: Op): (s': State)
    requires WellFormed(s) && op.device in s.machines
    ensures WellFormed(s') && s'.machines.Keys == s.machines.Keys
  {
    match op
    case WriteFile(d, p, h) => Written(s, d, p, h)
    case Push(d, p) => Pushed(s, d, p)
    case Pull(d, p) => Pulled(s, d, p)
    case GoOffline(d) => WithOnline(s, d, false)
    case GoOnline(d) => WithOnline(s, d, true)
    case ProcessEvents(d) => Processed(s, d)
  }

  /** What a step answers: a push says whether it met a conflict, the others say nothing. */
  function Reply(s: State, op: Op): Option<bool>
    requires op.device in s.machines
  {
    if op.Push? then Some(PushConflicts(s, op.device, op.path)) else None
  }

  predicate Known(s: State, ops: seq<Op>)
  {
    forall i | 0 <= i < |ops| :: ops[i].device in s.machines
  }

  function Run(s: State, ops: seq<Op>): (s': State)
    requires WellFormed(s) && Known(s, ops)
    ensures WellFormed(s') && s'.machines.Keys == s.machines.Keys
  {
    if ops == [] then s
    else Step(Run(s, ops[..|ops| - 1]), ops[|ops| - 1])
  }

  /** A fresh fleet: every device online and empty, an empty remote and log. */
  function Init(devices: set<DeviceId>): (s: State)
    ensures WellFormed(s)
  {
    State(map d | d in devices :: Machine(map[], true), map[], map[], [], map[])
  }

  /** The fleet as the simulation runs it, updating machines, remote and log in place. */
  class Simulation {
    var machines: map<DeviceId, Machine>
    var manifests: map<Path, Manifest>
    var chunks: map<Hash, Hash>
    var events: seq<Event>
    var cursors: map<DeviceId, nat>

    constructor (devices: set<DeviceId>)
      ensures View() == Init(devices)
    {
      machines := map d | d in devices :: Machine(map[], true);
      manifests := map[];
      chunks := map[];
      events := [];
      cursors := map[];
    }

    function View(): State
      reads this
    {
      State(machines, manifests, chunks, events, cursors)
    }

    method ExecuteOp(op: Op) returns (reply: Option<bool>)
      requires WellFormed(View()) && op.device in machines
      modifies this
      ensures View() == Step(old(View()), op)
      ensures reply == Reply(old(View()), op)
    {
      match op
      case WriteFile(d, p, h) =>
        WriteLocal(d, p, h);
        reply := None;
      case Push(d, p) =>
        var conflict := PushFile(d, p);
        reply := Some(conflict);
      case Pull(d, p) =>
        PullFile(d, p);
        reply := None;
      case GoOffline(d) =>
        machines := machines[d := machines[d].(online := false)];
        reply := None;
      case GoOnline(d) =>
        machines := machines[d := machines[d].(online := true)];
        reply := None;
      case ProcessEvents(d) =>
        DrainEvents(d);
        reply := None;
    }

    method Insert(d: DeviceId, p: Path, v: Version)
      requires d in machines
      modifies this`machines
      ensures View() == SetFile(old(View()), d, p, v)
    {
      var m := machines[d];
      machines := machines[d := m.(files := m.files[p := v])];
    }

    method WriteLocal(d: DeviceId, p: Path, h: Hash)
      requires d in machines
      modifies this
      ensures View() == Written(old(View()), d, p, h)
    {
      var files := machines[d].files;
      var clock := new VectorClock(if p in files then files[p].clock else map[]);
      clock.Tick(d);
      Insert(d, p, Version(h, clock.clocks));
    }

    method PushFile(d: DeviceId, p: Path) returns (conflict: bool)
      requires d in machines
      modifies this
      ensures View() == Pushed(old(View()), d, p)
      ensures conflict == PushConflicts(old(View()), d, p)
    {
      var m := machines[d];
      if !m.online || p !in m.files {
        return false;
      }
      var v := m.files[p];
      if p in manifests {
        var outcome := CompareClocks(v.clock, manifests[p].clock, v.hash, manifests[p].fileHash,
                                     p, d, manifests[p].writtenBy, 0);
        if !outcome.LocalNewer? {
          return outcome.Conflict?;
        }
      }
      var merged := new VectorClock(v.clock);
      if p in manifests {
        merged.Merge(manifests[p].clock);
      }
      manifests := manifests[p := Manifest(v.hash, [v.hash], merged.clocks, d)];
      chunks := chunks[v.hash := v.hash];
      Insert(d, p, Version(v.hash, merged.clocks));
      events := events + [Event(d, p, v.hash, merged.clocks)];
      conflict := false;
    }

    method PullFile(d: DeviceId, p: Path)
      requires d in machines
      modifies this
      ensures View() == Pulled(old(View()), d, p)
    {
      var m := machines[d];
      if !m.online || p !in manifests {
        return;
      }
      var local := new VectorClock(if p in m.files then m.files[p].clock else map[]);
      local.Merge(manifests[p].clock);
      Insert(d, p, Version(manifests[p].fileHash, local.clocks));
    }

    method DrainEvents(d: DeviceId)
      requires d in machines && Cursor(View(), d) <= |events|
      modifies this
      ensures View() == Processed(old(View()), d)
    {
      if !machines[d].online {
        return;
      }
      var cursor := if d in cursors then cursors[d] else 0;
      var pending := events[cursor..];
      cursors := cursors[d := |events|];
      ghost var m := machines[d];
      ghost var before := View();
      var i := 0;
      while i < |pending|
        invariant 0 <= i <= |pending|
        invariant d in machines
        invariant View() == before.(machines := before.machines[d := m.(files :=
                  ApplyEvents(m.files, d, pending[..i]))])
      {
        assert pending[..i + 1][..i] == pending[..i];
        var files := ConsumeEvent(machines[d].files, d, pending[i]);
        machines := machines[d := machines[d].(files := files)];
        i := i + 1;
      }
      assert pending[..i] == pending;
    }

    method ConsumeEvent(files: map<Path, Version>, d: DeviceId, e: Event) returns (files': map<Path, Version>)
      ensures files' == ApplyEvent(files, d, e)
    {
      if e.device == d {
        return files;
      }
      if e.path !in files {
        return files[e.path := Version(e.hash, e.clock)];
      }
      var v := files[e.path];
      var merged := new VectorClock(v.clock);
      merged.Merge(e.clock);
      match CompareClocks(v.clock, e.clock, v.hash, e.hash, e.path, d, e.device, 0)
      case LocalNewer =>
        files' := files[e.path := Version(v.hash, merged.clocks)];
      case RemoteNewer =>
        files' := files[e.path := Version(e.hash, merged.clocks)];
      case UpToDate =>
        files' := files[e.path := Version(e.hash, merged.clocks)];
      case Conflict(_) =>
        files' := files[e.path := Version(e.hash, merged.clocks)];
    }
  }
}
