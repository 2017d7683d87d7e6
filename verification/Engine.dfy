/** The sync engine: upload, download and tree push, as they act on the object store, the local files
    and the state cache. */
module Engine {
  import opened Basics
  import opened Clocks
  import opened Conflicts
  import opened ObjectStore
  import opened Upload
  import opened UploadTheorems
  import opened PushTheorems

  datatype UploadError = NoSuchFile | StoreFailed | NotExamined

  /** The arguments of a download: whether it updates the state cache, whether the local write succeeds, what
      the new file looks like when its state is recorded, if it can be examined, and the time and mtime it sees. */
  datatype Fetch = Fetch(
    path: Path, device: DeviceId, master: Option<Key>, tracked: bool, writable: bool, examined: Option<Stat>,
    now: nat, mtime: nat)

  datatype FetchError = Unreadable(error: ReadError) | NotWritable | NotRecorded

  function FetchResult(env: Env, store: Store, h: Hash, f: Fetch): Result<nat, FetchError>
  {
    match Downloaded(env, store, h, f.master)
    case Err(e) => Err(Unreadable(e))
    case Ok(data) =>
      if !f.writable then Err(NotWritable)
      else if Recording(f) && f.examined.None? then Err(NotRecorded)
      else Ok(|data|)
  }

  predicate Recording(f: Fetch)
  {
    f.tracked && f.device != ""
  }

  /** After the local file is replaced the manifest's clock is merged into its entry. */
  function FetchedState(env: Env, cache: Cache, h: Hash, m: SyncManifest, data: Bytes, f: Fetch): Cache
  {
    if Recording(f) && f.examined.Some? then
      cache[f.path := SyncState(env.hash(data), f.examined.value.size, f.examined.value.mtime, |m.chunks|, h, f.now,
                                Merged(ClockIn(Entry(cache, f.path)), m.clock), f.device)]
    else cache
  }

  class SyncEngine {
    const env: Env
    var store: Store
    var files: Files
    var cache: Cache

    constructor (env: Env, store: Store, files: Files, cache: Cache)
      ensures this.env == env && this.store == store && this.files == files && this.cache == cache
    {
      this.env, this.store, this.files, this.cache := env, store, files, cache;
    }

    function Sides(): Side
      reads this
    {
      Side(store, cache)
    }

    /** Reads what the upload will overwrite and decides whether to go on. */
    method CheckRemote(req: Request, file: LocalFile, entry: Option<SyncState>) returns (d: Decision)
      requires NeedsSync(env, entry, file)
      ensures d == Decide(env, store, entry, file, req)
    {
      var h, clock, outcome := env.hash(file.data), ClockIn(entry), None;
      if req.device != "" && req.faults.readable && h in store.manifests {
        var parsed := FromBytes(store.manifests[h]);
        if parsed.Some? {
          var m := parsed.value;
          var rel := if req.rel.Some? then req.rel.value else "";
          var compared := CompareClocks(clock, m.clock, h, m.fileHash, rel, req.device, m.writtenBy, req.now);
          match compared {
            case RemoteNewer => return Blocked(Some(compared));
            case Conflict(_) => return Blocked(Some(compared));
            case UpToDate => return Stored(true, Some(compared));
            case LocalNewer => clock, outcome := Merged(clock, m.clock), Some(compared);
          }
        }
      }
      if outcome.None? && req.faults.readable && h in store.manifests && req.device == "" {
        return Stored(false, None);
      }
      if req.device != "" {
        clock := Ticked(clock, req.device);
      }
      return Proceed(clock, outcome);
    }

    /** Writes the chunks that are not stored yet, one by one, as far as the store lets it. */
    method WriteChunks(req: Request, data: Bytes, cs: seq<Chunk>) returns (hashes: seq<Hash>)
      modifies `store
      ensures |hashes| == if req.faults.steps <= |cs| then req.faults.steps else |cs|
      ensures hashes == ChunkHashes(env, req, data, cs, |hashes|)
      ensures store == old(store).(chunks := ChunksAfter(env, old(store).chunks, req, data, cs, |hashes|))
    {
      hashes := [];
      while |hashes| < |cs| && |hashes| < req.faults.steps
        invariant |hashes| <= |cs| && |hashes| <= req.faults.steps
        invariant hashes == ChunkHashes(env, req, data, cs, |hashes|)
        invariant store == old(store).(chunks := ChunksAfter(env, old(store).chunks, req, data, cs, |hashes|))
        decreases |cs| - |hashes|
      {
        var body := Body(env, req, data, cs, |hashes|);
        if env.hash(body) !in store.chunks {
          store := store.(chunks := store.chunks[env.hash(body) := body]);
        }
        hashes := hashes + [env.hash(body)];
      }
    }

    /** The manifest is written last, after every chunk. */
    method WriteObjects(req: Request, file: LocalFile, clock: Clock) returns (ok: bool)
      modifies `store
      ensures store == StoreAfter(env, old(store), file, req, clock, Reached(env, file, req))
      ensures ok <==> Steps(env, file, req) <= req.faults.steps
    {
      var cs, h := env.cut(req.path, file.data), env.hash(file.data);
      var hashes := WriteChunks(req, file.data, cs);
      ok := |cs| < req.faults.steps;
      if ok {
        var wrapped := if req.master.None? then None else Some(env.wrap(req.master.value, req.wrapNonce, req.fileKey));
        var manifest := SyncManifest(2, h, |file.data|, hashes, clock, req.device, req.now, req.rel, wrapped);
        store := store.(manifests := store.manifests[h := V2(manifest)]);
      }
    }

    /** The cache entry is written only after the manifest. */
    method Upload(req: Request) returns (r: Result<UploadResult, UploadError>)
      modifies `store, `cache
      ensures req.path !in files ==> r == Err(NoSuchFile) && store == old(store) && cache == old(cache)
      ensures req.path in files ==>
                var file, entry := files[req.path], Entry(old(cache), req.path);
                && store == Attempted(env, old(store), entry, file, req, Reached(env, file, req))
                && (if Completes(env, old(store), entry, file, req)
                    then r == Ok(Outcome(env, old(store), entry, file, req))
                         && cache == Recorded(env, old(store), old(cache), file, req)
                    else r == Err(if Steps(env, file, req) <= req.faults.steps
                      || !Decide(env, old(store), entry, file, req).Proceed?
                                  then NotExamined else StoreFailed)
                         && cache == old(cache))
    {
      if req.path !in files {
        return Err(NoSuchFile);
      }
      var file, entry := files[req.path], Entry(cache, req.path);
      if !NeedsSync(env, entry, file) {
        return Ok(UploadResult(entry.value.blake3, entry.value.chunkCount, entry.value.size, true, Some(UpToDate)));
      }
      var h, n, size := env.hash(file.data), |env.cut(req.path, file.data)|, |file.data|;
      var d := CheckRemote(req, file, entry);
      match d {
        case Unchanged =>
          assert false;
        case Blocked(outcome) =>
          return Ok(UploadResult(h, n, size, true, outcome));
        case Stored(skipped, outcome) =>
          if req.faults.examined.None? {
            return Err(NotExamined);
          }
          cache := cache[req.path := StateFor(env, file, req.faults.examined.value, req, ClockIn(entry))];
          return Ok(UploadResult(h, n, size, skipped, outcome));
        case Proceed(clock, outcome) =>
          var ok := WriteObjects(req, file, clock);
          if !ok {
            return Err(StoreFailed);
          }
          if req.faults.examined.None? {
            return Err(NotExamined);
          }
          cache := cache[req.path := StateFor(env, file, req.faults.examined.value, req, clock)];
          return Ok(UploadResult(h, n, size, false, outcome));
      }
    }

    /** Fetches and checks every chunk before the local file is touched. */
    method Download(h: Hash, f: Fetch) returns (r: Result<nat, FetchError>)
      modifies `files, `cache
      ensures r == FetchResult(env, store, h, f)
      ensures r.Err? && !r.error.NotRecorded? ==> files == old(files)
      ensures r.Err? ==> cache == old(cache)
      ensures r.Ok? || r.error.NotRecorded? ==>
                var data, m := Downloaded(env, store, h, f.master).value, FromBytes(store.manifests[h]).value;
                && files == old(files)[f.path := LocalFile(data, f.mtime)]
                && cache == FetchedState(env, old(cache), h, m, data, f)
    {
      if h !in store.manifests {
        return Err(Unreadable(NoManifest));
      }
      var parsed := FromBytes(store.manifests[h]);
      if parsed.None? {
        return Err(Unreadable(BadManifest));
      }
      var m := parsed.value;
      if m.chunks == [] {
        return Err(Unreadable(EmptyManifest));
      }
      var key := FileKey(env, f.master, m);
      if key.Err? {
        return Err(Unreadable(key.error));
      }
      var data, i := [], 0;
      while i < |m.chunks|
        invariant 0 <= i <= |m.chunks|
        invariant Assembled(env, key.value, m.fileHash, store.chunks, m.chunks, i) == Ok(data)
      {
        var piece := FetchChunk(env, key.value, m.fileHash, store.chunks, m.chunks[i], i);
        if piece.Err? {
          AssemblyStops(env, key.value, m.fileHash, store.chunks, m.chunks, i + 1, |m.chunks|);
          return Err(Unreadable(piece.error));
        }
        data, i := data + piece.value, i + 1;
      }
      if env.hash(data) != m.fileHash {
        return Err(Unreadable(CorruptFile));
      }
      if !f.writable {
        return Err(NotWritable);
      }
      files := files[f.path := LocalFile(data, f.mtime)];
      if f.tracked && f.device != "" {
        if f.examined.None? {
          return Err(NotRecorded);
        }
        var clock := Merged(ClockIn(Entry(cache, f.path)), m.clock);
        var found := f.examined.value;
        cache := cache[f.path := SyncState(env.hash(data), found.size, found.mtime, |m.chunks|, h, f.now, clock,
          f.device)];
      }
      return Ok(|data|);
    }

    /** Pushes file by file; a failed file is left out of the tally and the push goes on.  A cache that cannot
        be flushed at the end costs the tally, not the work. */
    method PushTree(reqs: seq<Request>, flushed: bool) returns (r: Option<Tally>)
      modifies `store, `cache
      ensures Sides() == PushedTree(env, files, old(Sides()), reqs)
      ensures r == if flushed then Some(TreeTally(env, files, old(Sides()), reqs)) else None
    {
      ghost var start, step, report := Sides(), PushStep(env, files), Reports(env, files);
      var t := Tally(0, 0, 0);
      var i := 0;
      while i < |reqs|
        invariant 0 <= i <= |reqs|
        invariant Sides() == Pushed(step, start, reqs, i)
        invariant t == Total(step, report, start, reqs, i)
      {
        ghost var before := Sides();
        var u := UploadAndIndex(reqs[i]);
        assert Sides() == step(before, reqs[i]);
        if u.Ok? {
          if u.value.skipped {
            t := t.(skipped := t.skipped + 1);
          } else {
            t := Tally(t.uploaded + 1, t.skipped, t.bytes + u.value.bytes);
          }
        }
        i := i + 1;
      }
      return if flushed then Some(t) else None;
    }

    method UploadAndIndex(req: Request) returns (r: Result<UploadResult, UploadError>)
      modifies `store, `cache
      ensures Sides() == PushStep(env, files)(old(Sides()), req)
      ensures var report := Reports(env, files)(old(Sides()), req);
              if r.Ok? then report == Some(r.value) else report == None
    {
      r := Upload(req);
      if r.Ok? && req.faults.indexed && req.rel.Some? {
        store := store.(index := store.index[req.rel.value := IndexText(r.value)]);
      }
    }
  }

  /** One unreadable chunk makes the whole read fail with its error. */
  lemma {:induction false} AssemblyStops(env: Env, key: Option<Key>, fileHash: Hash, chunks: map<Hash, Bytes>,
                                         hs: seq<Hash>, k: nat, n: nat)
    requires k <= n <= |hs| && Assembled(env, key, fileHash, chunks, hs, k).Err?
    ensures Assembled(env, key, fileHash, chunks, hs, n) == Assembled(env, key, fileHash, chunks, hs, k)
    decreases n
  {
    if k < n {
      AssemblyStops(env, key, fileHash, chunks, hs, k, n - 1);
    }
  }
}
