/** Any number of hosts sharing one store: users edit files, hosts pull, and any number of uploads run at once,
    each in its own small steps, interleaved with everything else.

    An upload examines the file, reads it, asks the store, writes the chunks one by one and then the manifest,
    examines the file once more to record its state, and writes the index entry.  It may stop for good between any
    two steps. */
module World {
  import opened Basics
  import opened Clocks
  import opened Conflicts
  import opened ObjectStore
  import opened Upload
  import opened UploadTheorems
  import opened PushTheorems
  import opened Engine

  type HostName = string

  datatype Host = Host(files: Files, cache: Cache)

  /** How far an upload has got.  `since` and `seen` keep what it was told when it asked the store: how many
      manifests had been written by then, and whether one was stored under its hash.  `right` says whether the
      size it reports is that of the content it names. */
  datatype Stage =
    | Opened
    | Loaded(file: LocalFile)
    | Writing(file: LocalFile, result: UploadResult, clock: Clock, done: nat, since: nat, seen: bool)
    | Written(file: LocalFile, result: UploadResult, clock: Clock)
    | Reported(result: UploadResult, right: bool)

  datatype Job = Job(host: HostName, req: Request, entry: Option<SyncState>, stage: Stage)

  /** What has happened: the manifests written, in order; the cache entries whose size is not that of the content
      they name; and the index entries of which that is true. */
  datatype Past = Past(log: seq<Hash>, skewed: set<(HostName, Path)>, wrong: set<Path>)

  datatype State = State(store: Store, hosts: map<HostName, Host>, jobs: map<nat, Job>, past: Past)

  datatype Act =
    | Edit(host: HostName, path: Path, file: LocalFile)
    | Delete(host: HostName, path: Path)
    | Pull(host: HostName, hash: Hash, fetch: Fetch)
    | Open(id: nat, host: HostName, req: Request)
    | Load(id: nat)
    | Check(id: nat)
    | Put(id: nat)
    | Record(id: nat)
    | Publish(id: nat)
    | Stop(id: nat)

  function Fetched(env: Env, store: Store, host: Host, h: Hash, f: Fetch): Host
  {
    match Downloaded(env, store, h, f.master)
    case Err(_) => host
    case Ok(data) =>
      if !f.writable then host
      else Host(host.files[f.path := LocalFile(data, f.mtime)],
                FetchedState(env, host.cache, h, FromBytes(store.manifests[h]).value, data, f))
  }

  function Marked<T>(set0: set<T>, x: T, wrong: bool): set<T>
  {
    if wrong then set0 + {x} else set0 - {x}
  }

  function AfterPull(env: Env, s: State, name: HostName, h: Hash, f: Fetch): State
    requires name in s.hosts
  {
    var r := Downloaded(env, s.store, h, f.master);
    var records := r.Ok? && f.writable && Recording(f) && f.examined.Some?;
    s.(hosts := s.hosts[name := Fetched(env, s.store, s.hosts[name], h, f)],
       past := if records
               then s.past.(skewed := Marked(s.past.skewed, (name, f.path), f.examined.value.size != |r.value|))
               else s.past)
  }

  function WithStage(s: State, id: nat, stage: Stage): State
    requires id in s.jobs
  {
    s.(jobs := s.jobs[id := s.jobs[id].(stage := stage)])
  }

  /** Examining the file: the cache may already stop the upload, on its own word. */
  function AfterOpen(env: Env, s: State, id: nat, name: HostName, req: Request): State
    requires name in s.hosts && req.path in s.hosts[name].files
  {
    var entry := Entry(s.hosts[name].cache, req.path);
    var stage :=
      if entry.None? || NeedsSync(env, entry, s.hosts[name].files[req.path]) then Opened
      else Reported(UploadResult(entry.value.blake3, entry.value.chunkCount, entry.value.size, true, Some(UpToDate)),
                    (name, req.path) !in s.past.skewed);
    s.(jobs := s.jobs[id := Job(name, req, entry, stage)])
  }

  function ResultFor(env: Env, file: LocalFile, req: Request, skipped: bool, o: Option<SyncOutcome>): UploadResult
  {
    UploadResult(env.hash(file.data), |env.cut(req.path, file.data)|, |file.data|, skipped, o)
  }

  /** Asking the store. */
  function Checked(env: Env, s: State, job: Job, file: LocalFile): Stage
  {
    match Verdict(env, s.store, job.entry, file, job.req)
    case Unchanged => job.stage
    case Blocked(o) => Reported(ResultFor(env, file, job.req, true, o), true)
    case Stored(skipped, o) => Written(file, ResultFor(env, file, job.req, skipped, o), ClockIn(job.entry))
    case Proceed(clock, o) =>
      Writing(file, ResultFor(env, file, job.req, false, o), clock, 0, |s.past.log|,
              env.hash(file.data) in s.store.manifests)
  }

  /** One write: the next chunk, or the manifest after the last. */
  function AfterPut(env: Env, s: State, id: nat): State
    requires id in s.jobs && s.jobs[id].stage.Writing?
  {
    var job := s.jobs[id];
    var stage := job.stage;
    var data, cs := stage.file.data, env.cut(job.req.path, stage.file.data);
    if stage.done < |cs| then
      WithStage(s.(store := s.store.(chunks :=
        PutChunk(env, s.store.chunks, Body(env, job.req, data, cs, stage.done)))),
                id, stage.(done := stage.done + 1))
    else
      var m := V2(NewManifest(env, job.req, data, cs, stage.clock));
      WithStage(s.(store := s.store.(manifests := s.store.manifests[env.hash(data) := m]),
                   past := s.past.(log := s.past.log + [env.hash(data)])),
                id, Written(stage.file, stage.result, stage.clock))
  }

  /** Recording the state of the file as it is found now, under the hash of what was read. */
  function AfterRecord(env: Env, s: State, id: nat): State
    requires id in s.jobs && s.jobs[id].stage.Written?
    requires s.jobs[id].host in s.hosts && s.jobs[id].req.path in s.hosts[s.jobs[id].host].files
  {
    var job := s.jobs[id];
    var host, path := s.hosts[job.host], job.req.path;
    var found := StatOf(host.files[path]);
    var state := StateFor(env, job.stage.file, found, job.req, job.stage.clock);
    WithStage(s.(hosts := s.hosts[job.host := host.(cache := host.cache[path := state])],
                 past := s.past.(skewed := Marked(s.past.skewed, (job.host, path),
                   found.size != |job.stage.file.data|))),
              id, Reported(job.stage.result, true))
  }

  function AfterPublish(s: State, id: nat): State
    requires id in s.jobs && s.jobs[id].stage.Reported?
  {
    var job := s.jobs[id];
    var t := s.(jobs := s.jobs - {id});
    if job.req.rel.None? then t
    else t.(store := Indexed(s.store, job.req.rel, IndexText(job.stage.result)),
            past := s.past.(wrong := Marked(s.past.wrong, job.req.rel.value, !job.stage.right)))
  }

  /** An act that does not apply changes nothing. */
  function Next(env: Env, s: State, a: Act): State
  {
    match a
    case Edit(name, p, file) =>
      if name !in s.hosts then s
      else s.(hosts := s.hosts[name := s.hosts[name].(files := s.hosts[name].files[p := file])])
    case Delete(name, p) =>
      if name !in s.hosts then s
      else s.(hosts := s.hosts[name := s.hosts[name].(files := s.hosts[name].files - {p})])
    case Pull(name, h, f) => if name !in s.hosts then s else AfterPull(env, s, name, h, f)
    case Open(id, name, req) =>
      if id in s.jobs || name !in s.hosts
        || req.path !in s.hosts[name].files then s else AfterOpen(env, s, id, name, req)
    case Load(id) =>
      if id !in s.jobs || !s.jobs[id].stage.Opened? || FileAt(s, s.jobs[id]).None? then s
      else WithStage(s, id, Loaded(FileAt(s, s.jobs[id]).value))
    case Check(id) =>
      if id !in s.jobs || !s.jobs[id].stage.Loaded? then s
      else WithStage(s, id, Checked(env, s, s.jobs[id], s.jobs[id].stage.file))
    case Put(id) => if id !in s.jobs || !s.jobs[id].stage.Writing? then s else AfterPut(env, s, id)
    case Record(id) =>
      if id !in s.jobs || !s.jobs[id].stage.Written? || FileAt(s, s.jobs[id]).None? then s else AfterRecord(env, s, id)
    case Publish(id) => if id !in s.jobs || !s.jobs[id].stage.Reported? then s else AfterPublish(s, id)
    case Stop(id) => s.(jobs := s.jobs - {id})
  }

  /** The file an upload is about, as it is now. */
  function FileAt(s: State, job: Job): Option<LocalFile>
  {
    if job.host in s.hosts && job.req.path in s.hosts[job.host].files
    then Some(s.hosts[job.host].files[job.req.path]) else None
  }

  function Run(env: Env, s: State, acts: seq<Act>): State
  {
    if acts == [] then s else Next(env, Run(env, s, acts[..|acts| - 1]), acts[|acts| - 1])
  }

  /** Everything hashed is in play, and encryption uses the fleet's key. */
  ghost predicate Allowed(env: Env, mk: Key, inPlay: iset<Bytes>, s: State, a: Act)
  {
    match a
    case Edit(_, _, file) => file.data in inPlay
    case Pull(_, _, f) =>
      && (f.master.None? || f.master.value == mk)
      && (f.examined.Some? ==> SizeInPlay(inPlay, f.examined.value.size))
    case Open(_, _, req) => FleetKey(mk, req)
    case Load(id) =>
      id in s.jobs && FileAt(s, s.jobs[id]).Some? ==> InPlay(env, inPlay, FileAt(s, s.jobs[id]).value, s.jobs[id].req)
    case _ => true
  }

  ghost predicate History(env: Env, mk: Key, inPlay: iset<Bytes>, s: State, acts: seq<Act>)
  {
    acts != [] ==>
      && History(env, mk, inPlay, s, acts[..|acts| - 1])
      && Allowed(env, mk, inPlay, Run(env, s, acts[..|acts| - 1]), acts[|acts| - 1])
  }

  /** An empty store, empty caches and no uploads; any local files. */
  ghost predicate Start(inPlay: iset<Bytes>, s: State)
  {
    && s.store == Store(map[], map[], map[]) && s.jobs == map[] && s.past == Past([], {}, {})
    && forall n | n in s.hosts :: s.hosts[n].cache == map[] && FilesInPlay(inPlay, s.hosts[n])
  }

  ghost predicate FilesInPlay(inPlay: iset<Bytes>, host: Host)
  {
    forall p | p in host.files :: host.files[p].data in inPlay
  }
}
