/** The daemon's reaction to other devices' events: comparing versions, resolving conflicts by device
    name and pulling the remote file. */
module AutoPull {
  import opened Basics
  import opened Clocks
  import opened Conflicts
  import opened ObjectStore
  import opened Upload
  import opened UploadTheorems
  import opened Engine
  import opened World
  import StateCache

  datatype Mode = Auto | Interactive | Deferred

  datatype StateEvent =
    | FileSynced(device: DeviceId, rel: Path, hash: Hash, clock: Clock, manifest: Hash)
    | ConflictResolved(device: DeviceId, rel: Path, clock: Clock)
    | Notice(device: DeviceId)

  /** Whether a device fetches the version an event announces, given what it holds. */
  predicate Pulls(self: DeviceId, entry: Option<SyncState>, ev: StateEvent, now: nat)
    requires ev.FileSynced?
  {
    match entry
    case None => true
    case Some(e) =>
      match CompareClocks(e.clock, ev.clock, e.blake3, ev.hash, ev.rel, self, ev.device, now)
      case UpToDate => false
      case LocalNewer => false
      case RemoteNewer => true
      case Conflict(info) => AutoResolve(info) == KeepRemote
  }

  /** The circumstances of handling an event: whether storage is reachable, and what the download meets. */
  datatype Weather = Weather(ready: bool, writable: bool, examined: Option<Stat>, now: nat, mtime: nat)

  function PullOf(self: DeviceId, p: Path, w: Weather): Fetch
  {
    Fetch(p, self, None, true, w.writable, w.examined, w.now, w.mtime)
  }

  function Resolved(cache: Cache, p: Path, clock: Clock): Cache
  {
    if p in cache then cache[p := cache[p].(clock := Merged(cache[p].clock, clock))] else cache
  }

  /** The host after one event; `p` is the local path the event's file is kept at, if there is one. */
  function Handled(env: Env, store: Store, host: Host, self: DeviceId, mode: Mode, ev: StateEvent,
                   p: Option<Path>, w: Weather): Host
  {
    if ev.device == self || p.None? then host else
      match ev
      case FileSynced(_, _, _, _, manifest) =>
        if mode.Auto? && w.ready && Pulls(self, Entry(host.cache, p.value), ev, w.now)
        then Fetched(env, store, host, manifest, PullOf(self, p.value, w)) else host
      case ConflictResolved(_, _, clock) => host.(cache := Resolved(host.cache, p.value, clock))
      case Notice(_) => host
  }

  /** Where a daemon keeps its files: a sync root if there is one, and the remote prefix. */
  datatype Setup = Setup(root: Option<Path>, prefix: string, join: (Path, Path) -> Path)

  /** The lookup of the state cache: by the remote path of the entry's manifest. */
  predicate Matches(setup: Setup, e: SyncState, rel: Path)
  {
    StateCache.MatchesRel(StateCache.ManifestPath(setup.prefix, e.remote), rel)
  }

  /** Under the sync root if there is one; otherwise a synced file is looked up in the cache, and a resolved
      conflict's name is taken as it is. */
  ghost predicate Located(setup: Setup, cache: Cache, ev: StateEvent, p: Option<Path>)
  {
    match ev
    case Notice(_) => p.None?
    case ConflictResolved(_, rel, _) => p == Some(if setup.root.Some? then setup.join(setup.root.value, rel) else rel)
    case FileSynced(_, rel, _, _, _) =>
      if setup.root.Some? then p == Some(setup.join(setup.root.value, rel))
      else if p.Some? then p.value in cache && Matches(setup, cache[p.value], rel)
      else forall k | k in cache :: !Matches(setup, cache[k], rel)
  }

  class Daemon {
    const engine: SyncEngine
    const self: DeviceId
    const mode: Mode
    const setup: Setup

    constructor (engine: SyncEngine, self: DeviceId, mode: Mode, setup: Setup)
      ensures this.engine == engine && this.self == self && this.mode == mode && this.setup == setup
    {
      this.engine, this.self, this.mode, this.setup := engine, self, mode, setup;
    }

    function Local(): Host
      reads engine
    {
      Host(engine.files, engine.cache)
    }

    method Locate(ev: StateEvent) returns (p: Option<Path>)
      ensures Located(setup, engine.cache, ev, p)
      ensures ev.Notice? ==> p.None?
      ensures !ev.Notice? && setup.root.Some? ==> p == Some(setup.join(setup.root.value, ev.rel))
      ensures ev.ConflictResolved? && setup.root.None? ==> p == Some(ev.rel)
    {
      match ev {
        case Notice(_) => return None;
        case ConflictResolved(_, rel, _) => return Some(if setup.root.Some?
          then setup.join(setup.root.value, rel) else rel);
        case FileSynced(_, rel, _, _, _) =>
          if setup.root.Some? {
            return Some(setup.join(setup.root.value, rel));
          }
          var todo := engine.cache.Keys;
          while todo != {}
            invariant todo <= engine.cache.Keys
            invariant forall k | k in engine.cache.Keys - todo :: !Matches(setup, engine.cache[k], rel)
            decreases |todo|
          {
            var k :| k in todo;
            if Matches(setup, engine.cache[k], rel) {
              return Some(k);
            }
            todo := todo - {k};
          }
          return None;
      }
    }

    method HandleEvent(ev: StateEvent, w: Weather)
      modifies engine
      ensures engine.store == old(engine.store)
      ensures ev.device == self || ev.Notice? ==> Local() == old(Local())
      ensures exists p :: Located(setup, old(engine.cache), ev, p) &&
                          Local() == Handled(engine.env, engine.store, old(Local()), self, mode, ev, p, w)
    {
      var p := Locate(ev);
      assert Located(setup, old(engine.cache), ev, p);
      if ev.device == self || p.None? {
        return;
      }
      match ev {
        case Notice(_) =>
        case ConflictResolved(_, _, clock) =>
          if p.value in engine.cache {
            var e := engine.cache[p.value];
            engine.cache := engine.cache[p.value := e.(clock := Merged(e.clock, clock))];
          }
        case FileSynced(_, rel, hash, clock, manifest) =>
          if mode.Auto? {
            AutoPullFile(ev, p.value, w);
          }
      }
    }

    method AutoPullFile(ev: StateEvent, p: Path, w: Weather)
      requires ev.FileSynced? && ev.device != self && mode.Auto?
      modifies engine
      ensures engine.store == old(engine.store)
      ensures Local() == Handled(engine.env, engine.store, old(Local()), self, mode, ev, Some(p), w)
    {
      if p in engine.cache {
        var e := engine.cache[p];
        var outcome := CompareClocks(e.clock, ev.clock, e.blake3, ev.hash, ev.rel, self, ev.device, w.now);
        match outcome {
          case UpToDate => return;
          case LocalNewer => return;
          case RemoteNewer =>
          case Conflict(info) =>
            if AutoResolve(info) != KeepRemote {
              return;
            }
        }
      }
      if !w.ready {
        return;
      }
      var r := engine.Download(ev.manifest, PullOf(self, p, w));
    }
  }
}
