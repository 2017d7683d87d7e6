/** Over any sequence of uploads: what was uploaded stays retrievable, stored manifests stay as they are
    while the store answers, and what an upload records names stored manifests. */
module UploadTheorems {
  import opened Basics
  import opened Clocks
  import opened Conflicts
  import opened ObjectStore
  import opened Upload
  import StubText

  // ---- Round trip ----

  /** The manifest key is taken by something other than a manifest of the current format. */
  predicate Legacy(store: Store, h: Hash)
  {
    h in store.manifests && !store.manifests[h].V2?
  }

  /** Whatever the store holds, a download only ever returns bytes that match the manifest's file hash,
      and never anything from a legacy manifest. */
  lemma DownloadIsVerified(env: Env, store: Store, h: Hash, master: Option<Key>)
    requires Contracts(env) && Downloaded(env, store, h, master).Ok?
    ensures h in store.manifests && store.manifests[h].V2?
    ensures env.hash(Downloaded(env, store, h, master).value) == store.manifests[h].manifest.fileHash
    ensures forall c | c in store.manifests[h].manifest.chunks :: c in store.chunks && env.hash(store.chunks[c]) == c
  {
    var m := FromBytes(store.manifests[h]).value;
    AssembledIsVerified(env, FileKey(env, master, m).value, m.fileHash, store.chunks, m.chunks, |m.chunks|);
    assert m.chunks[..|m.chunks|] == m.chunks;
  }

  lemma {:induction false} AssembledIsVerified(env: Env, key: Option<Key>, fileHash: Hash, chunks: map<Hash, Bytes>,
                                               hs: seq<Hash>, n: nat)
    requires n <= |hs| && Assembled(env, key, fileHash, chunks, hs, n).Ok?
    ensures forall c | c in hs[..n] :: c in chunks && env.hash(chunks[c]) == c
  {
    if 0 < n {
      AssembledIsVerified(env, key, fileHash, chunks, hs, n - 1);
      assert hs[..n] == hs[..n - 1] + [hs[n - 1]];
    }
  }

  /** The cases in which an upload leaves a legacy object in place: the store answers, and the device is
      anonymous or has never counted a write while the object is a readable legacy manifest. */
  ghost predicate LeavesLegacy(store: Store, h: Hash, entry: Option<SyncState>, req: Request)
  {
    && Legacy(store, h) && req.faults.readable
    && var o := store.manifests[h];
       req.device == "" || (o.V1? && o.chunks != [] && Leq(ClockIn(entry), map[]))
  }

  lemma {:induction false} LegacyIsLeftIff(env: Env, store: Store, entry: Option<SyncState>, file: LocalFile,
                                           req: Request)
    requires Contracts(env) && Legacy(store, env.hash(file.data)) && NeedsSync(env, entry, file)
    ensures !Decide(env, store, entry, file, req).Proceed? <==> LeavesLegacy(store, env.hash(file.data), entry, req)
  {
    assert Hex(env.hash(file.data));
    CmpDecidesOrder(ClockIn(entry), map[]);
    assert Leq(map[], ClockIn(entry));
  }

  /** A completed upload leaves the file retrievable exactly when it is not empty and does not leave a legacy
      object in place. */
  lemma {:induction false} UploadedIsRetrievable(env: Env, mk: Key, inPlay: iset<Bytes>, store: Store,
                                                 entry: Option<SyncState>,
                              file: LocalFile, req: Request)
    requires Contracts(env) && CollisionFree(env, inPlay) && StoreInv(env, mk, inPlay, store)
    requires InPlay(env, inPlay, file, req) && FleetKey(mk, req) && NeedsSync(env, entry, file)
    ensures var h := env.hash(file.data);
            var store' := Attempted(env, store, entry, file, req, Steps(env, file, req));
            && h in store'.manifests
            && (Downloaded(env, store', h, Some(mk)) == Ok(file.data) <==>
              file.data != [] && !LeavesLegacy(store, h, entry, req))
            && (store'.manifests[h].V2? <==> !LeavesLegacy(store, h, entry, req))
  {
    var h := env.hash(file.data);
    var store' := Attempted(env, store, entry, file, req, Steps(env, file, req));
    EveryWriteKeepsStore(env, mk, inPlay, store, entry, file, req, Steps(env, file, req));
    if Legacy(store, h) {
      LegacyIsLeftIff(env, store, entry, file, req);
    }
    if store'.manifests[h].V2? {
      SoundDownloads(env, mk, inPlay, store', h, file.data);
    } else {
      LegacyNeverDownloads(env, store', h, Some(mk));
    }
  }

  /** A legacy manifest has no file hash to check against, so nothing downloads from it. */
  lemma {:induction false} LegacyNeverDownloads(env: Env, store: Store, h: Hash, master: Option<Key>)
    requires Contracts(env) && Legacy(store, h)
    ensures Downloaded(env, store, h, master).Err?
  {
    if Downloaded(env, store, h, master).Ok? {
      DownloadIsVerified(env, store, h, master);
      assert false;
    }
  }

  /** A new device's first upload over a legacy manifest of one chunk reports a conflict and leaves the file
      unretrievable. */
  lemma {:induction false} LegacyStaysInPlace(env: Env, store: Store, file: LocalFile, req: Request,
                                              master: Option<Key>)
    requires Contracts(env) && env.hash(file.data) in store.manifests
    requires store.manifests[env.hash(file.data)] == V1(["00"])
    requires req.device == "new" && req.faults.readable
    ensures Attempted(env, store, None, file, req, Steps(env, file, req)) == store
    ensures Outcome(env, store, None, file, req).skipped && Downloaded(env, store, env.hash(file.data), master).Err?
  {
    LegacyIsLeftIff(env, store, None, file, req);
    LegacyNeverDownloads(env, store, env.hash(file.data), master);
  }

  /** An empty file is uploaded as a manifest without chunks, which every download refuses, whatever its key. */
  lemma {:induction false} EmptyUploadIsRefused(env: Env, mk: Key, inPlay: iset<Bytes>, store: Store, file: LocalFile,
                                                req: Request, master: Option<Key>)
    requires Contracts(env) && CollisionFree(env, inPlay) && StoreInv(env, mk, inPlay, store)
    requires InPlay(env, inPlay, file, req) && FleetKey(mk, req) && file.data == [] && env.hash([]) !in store.manifests
    ensures var store' := Attempted(env, store, None, file, req, Steps(env, file, req));
            Downloaded(env, store', env.hash([]), master) == Err(EmptyManifest)
  {
    var store' := Attempted(env, store, None, file, req, Steps(env, file, req));
    EveryWriteKeepsStore(env, mk, inPlay, store, None, file, req, Steps(env, file, req));
    assert |env.cut(req.path, file.data)| <= 0;
  }

  /** An upload that may have stopped early, by any device. */
  datatype Attempt = Attempt(entry: Option<SyncState>, file: LocalFile, req: Request, steps: nat)

  predicate Bounded(env: Env, a: Attempt)
  {
    a.steps <= Steps(env, a.file, a.req)
  }

  ghost predicate Admissible(env: Env, mk: Key, inPlay: iset<Bytes>, a: Attempt)
  {
    InPlay(env, inPlay, a.file, a.req) && FleetKey(mk, a.req) && Bounded(env, a)
  }

  function After(env: Env, store: Store, later: seq<Attempt>): Store
    requires forall i | 0 <= i < |later| :: Bounded(env, later[i])
  {
    if later == [] then store else
      var a := later[|later| - 1];
      assert Bounded(env, a);
      Attempted(env, After(env, store, later[..|later| - 1]), a.entry, a.file, a.req, a.steps)
  }

  lemma ExtendsTransitive(s: Store, t: Store, u: Store)
    requires Extends(s, t) && Extends(t, u)
    ensures Extends(s, u)
  {
  }

  lemma {:induction false} UploadsKeepStore(env: Env, mk: Key, inPlay: iset<Bytes>, store: Store, later: seq<Attempt>)
    requires Contracts(env) && CollisionFree(env, inPlay) && StoreInv(env, mk, inPlay, store)
    requires forall i | 0 <= i < |later| :: Admissible(env, mk, inPlay, later[i]) && Bounded(env, later[i])
    ensures StoreInv(env, mk, inPlay, After(env, store, later)) && Extends(store, After(env, store, later))
  {
    if later != [] {
      var a := later[|later| - 1];
      var mid := After(env, store, later[..|later| - 1]);
      UploadsKeepStore(env, mk, inPlay, store, later[..|later| - 1]);
      assert Admissible(env, mk, inPlay, a);
      EveryWriteKeepsStore(env, mk, inPlay, mid, a.entry, a.file, a.req, a.steps);
      ExtendsTransitive(store, mid, After(env, store, later));
    }
  }

  /** Durable round trip: after a completed upload and any sequence of later uploads by any devices,
      complete or cut short, the download returns exactly the uploaded bytes. */
  lemma {:induction false} DurableRoundTrip(env: Env, mk: Key, inPlay: iset<Bytes>, store: Store,
                                            entry: Option<SyncState>,
                         file: LocalFile, req: Request, later: seq<Attempt>)
    requires Contracts(env) && CollisionFree(env, inPlay) && StoreInv(env, mk, inPlay, store)
    requires InPlay(env, inPlay, file, req) && FleetKey(mk, req) && NeedsSync(env, entry, file)
    requires !LeavesLegacy(store, env.hash(file.data), entry, req)
    requires forall i | 0 <= i < |later| :: Admissible(env, mk, inPlay, later[i]) && Bounded(env, later[i])
    ensures var uploaded := Attempted(env, store, entry, file, req, Steps(env, file, req));
            Downloaded(env, After(env, uploaded, later), env.hash(file.data), Some(mk)) == Ok(file.data)
            <==> file.data != []
  {
    var h := env.hash(file.data);
    var uploaded := Attempted(env, store, entry, file, req, Steps(env, file, req));
    EveryWriteKeepsStore(env, mk, inPlay, store, entry, file, req, Steps(env, file, req));
    UploadedIsRetrievable(env, mk, inPlay, store, entry, file, req);
    UploadsKeepStore(env, mk, inPlay, uploaded, later);
    SoundDownloads(env, mk, inPlay, After(env, uploaded, later), h, file.data);
  }

  /** With a store that answers, uploads alter no manifest of the current format, complete or cut short. */
  lemma {:induction false} ReadableKeepsManifests(env: Env, mk: Key, inPlay: iset<Bytes>, store: Store,
                                                  entry: Option<SyncState>,
                               file: LocalFile, req: Request, k: nat, h: Hash)
    requires StoreInv(env, mk, inPlay, store) && req.faults.readable && k <= Steps(env, file, req)
    requires h in store.manifests && store.manifests[h].V2?
    ensures var store' := Attempted(env, store, entry, file, req, k);
            h in store'.manifests && store'.manifests[h] == store.manifests[h]
  {
    if h == env.hash(file.data) {
      StoredIsRewrittenIff(env, mk, inPlay, store, entry, file, req);
    }
  }

  /** Without an answer the same content is written again under a clock that forgets the stored one: a second
      device's first upload then replaces a clock that counts the first device's write. */
  lemma UnreadableForgetsClock(env: Env, store: Store, file: LocalFile, req: Request)
    requires var h := env.hash(file.data); h in store.manifests && store.manifests[h].V2?
    requires store.manifests[env.hash(file.data)].manifest.clock == map["first" := 1]
    requires req.device == "second" && !req.faults.readable
    ensures var h := env.hash(file.data);
            var store' := Attempted(env, store, None, file, req, Steps(env, file, req));
            && store'.manifests[h].V2?
            && store'.manifests[h].manifest.clock == map["second" := 1]
            && !Leq(store.manifests[h].manifest.clock, store'.manifests[h].manifest.clock)
  {
    var before, after := map["first" := 1], map["second" := 1];
    assert Ticked(map[], "second") == after;
    assert Get(after, "first") < Get(before, "first");
  }

  /** Over any uploads by any devices while the store answers, no manifest of the current format changes. */
  lemma {:induction false} ReadableUploadsKeepManifests(env: Env, mk: Key, inPlay: iset<Bytes>, store: Store,
                                                        later: seq<Attempt>, h: Hash)
    requires Contracts(env) && CollisionFree(env, inPlay) && StoreInv(env, mk, inPlay, store)
    requires forall i | 0 <= i < |later| :: Admissible(env, mk, inPlay, later[i]) && Bounded(env, later[i])
    requires forall i | 0 <= i < |later| :: later[i].req.faults.readable
    requires h in store.manifests && store.manifests[h].V2?
    ensures var store' := After(env, store, later);
            h in store'.manifests && store'.manifests[h] == store.manifests[h]
  {
    if later != [] {
      var front, a := later[..|later| - 1], later[|later| - 1];
      ReadableUploadsKeepManifests(env, mk, inPlay, store, front, h);
      UploadsKeepStore(env, mk, inPlay, store, front);
      assert Bounded(env, a);
      ReadableKeepsManifests(env, mk, inPlay, After(env, store, front), a.entry, a.file, a.req, a.steps, h);
    }
  }

  // ---- What an upload records ----

  datatype UploadResult = UploadResult(hash: Hash, chunks: nat, bytes: nat, skipped: bool, outcome: Option<SyncOutcome>)

  type Cache = map<Path, SyncState>

  function Entry(cache: Cache, p: Path): Option<SyncState>
  {
    if p in cache then Some(cache[p]) else None
  }

  /** The state recorded for an upload: the hash of what was read, but size and time as they are found afterwards. */
  function StateFor(env: Env, file: LocalFile, found: Stat, req: Request, clock: Clock): SyncState
  {
    SyncState(env.hash(file.data), found.size, found.mtime, |env.cut(req.path, file.data)|, env.hash(file.data),
              req.now, clock, req.device)
  }

  /** How far an upload gets before the store fails. */
  function Reached(env: Env, file: LocalFile, req: Request): (k: nat)
    ensures k <= Steps(env, file, req)
  {
    if req.faults.steps <= Steps(env, file, req) then req.faults.steps else Steps(env, file, req)
  }

  /** Whether an upload returns a result; recording a file's state examines it once more. */
  predicate Completes(env: Env, store: Store, entry: Option<SyncState>, file: LocalFile, req: Request)
  {
    match Decide(env, store, entry, file, req)
    case Unchanged => true
    case Blocked(_) => true
    case Stored(_, _) => req.faults.examined.Some?
    case Proceed(_, _) => Steps(env, file, req) <= req.faults.steps && req.faults.examined.Some?
  }

  /** The cache after a completed upload. */
  function Recorded(env: Env, store: Store, cache: Cache, file: LocalFile, req: Request): Cache
    requires Completes(env, store, Entry(cache, req.path), file, req)
  {
    match Decide(env, store, Entry(cache, req.path), file, req)
    case Unchanged => cache
    case Blocked(_) => cache
    case Stored(_, _) =>
      cache[req.path := StateFor(env, file, req.faults.examined.value, req, ClockIn(Entry(cache, req.path)))]
    case Proceed(clock, _) => cache[req.path := StateFor(env, file, req.faults.examined.value, req, clock)]
  }

  function Outcome(env: Env, store: Store, entry: Option<SyncState>, file: LocalFile, req: Request): UploadResult
  {
    var h, n, size := env.hash(file.data), |env.cut(req.path, file.data)|, |file.data|;
    match Decide(env, store, entry, file, req)
    case Unchanged =>
      if entry.None? then UploadResult(h, n, size, true, Some(UpToDate))
      else UploadResult(entry.value.blake3, entry.value.chunkCount, entry.value.size, true, Some(UpToDate))
    case Blocked(o) => UploadResult(h, n, size, true, o)
    case Stored(skipped, o) => UploadResult(h, n, size, skipped, o)
    case Proceed(_, o) => UploadResult(h, n, size, false, o)
  }

  function IndexText(r: UploadResult): string
  {
    StubText.PrintIndex(r.hash, r.bytes, r.chunks)
  }

  /** The hash names a stored manifest, for content in no more chunks than bytes; the size is that of something in
      play, though not always of that content. */
  ghost predicate Backed(env: Env, inPlay: iset<Bytes>, store: Store, h: Hash, size: nat, chunks: nat)
  {
    && h in store.manifests && SizeInPlay(inPlay, size)
    && exists data :: data in inPlay && env.hash(data) == h && chunks <= |data|
  }

  ghost predicate SizeInPlay(inPlay: iset<Bytes>, size: nat)
  {
    exists data :: data in inPlay && |data| == size
  }

  /** Every cache entry names a stored manifest, by content and by remote path. */
  ghost predicate CacheNames(env: Env, inPlay: iset<Bytes>, store: Store, cache: Cache)
  {
    forall p | p in cache :: Backed(env, inPlay, store, cache[p].blake3, cache[p].size, cache[p].chunkCount)
                             && cache[p].remote == cache[p].blake3
  }

  /** Every index entry is the index text of a stored manifest. */
  ghost predicate IndexNames(env: Env, inPlay: iset<Bytes>, store: Store)
  {
    forall r | r in store.index :: NamesManifest(env, inPlay, store, store.index[r])
  }

  ghost predicate NamesManifest(env: Env, inPlay: iset<Bytes>, store: Store, text: string)
  {
    exists u: UploadResult :: Backed(env, inPlay, store, u.hash, u.bytes, u.chunks) && text == IndexText(u)
  }

  /** A completed upload's cache update and its result name stored manifests. */
  lemma UploadNamesStored(env: Env, inPlay: iset<Bytes>, store: Store, cache: Cache, file: LocalFile, req: Request)
    requires Contracts(env) && CacheNames(env, inPlay, store, cache) && file.data in inPlay
    requires Completes(env, store, Entry(cache, req.path), file, req)
    requires req.faults.examined.Some? ==> SizeInPlay(inPlay, req.faults.examined.value.size)
    ensures var store' := Attempted(env, store, Entry(cache, req.path), file, req, Steps(env, file, req));
            var u := Outcome(env, store, Entry(cache, req.path), file, req);
            && CacheNames(env, inPlay, store', Recorded(env, store, cache, file, req))
            && Backed(env, inPlay, store', u.hash, u.bytes, u.chunks)
  {
  }

  lemma {:induction false} NamesSurvive(env: Env, inPlay: iset<Bytes>, store: Store, store': Store, cache: Cache)
    requires CacheNames(env, inPlay, store, cache) && IndexNames(env, inPlay, store)
    requires store'.index == store.index && forall h | h in store.manifests :: h in store'.manifests
    ensures CacheNames(env, inPlay, store', cache) && IndexNames(env, inPlay, store')
  {
    forall r | r in store'.index
      ensures NamesManifest(env, inPlay, store', store'.index[r])
    {
      assert NamesManifest(env, inPlay, store, store.index[r]);
      var u: UploadResult :| Backed(env, inPlay, store, u.hash, u.bytes, u.chunks) && store.index[r] == IndexText(u);
      assert Backed(env, inPlay, store', u.hash, u.bytes, u.chunks);
    }
  }

  lemma {:induction false} IndexWriteKeepsNames(env: Env, inPlay: iset<Bytes>, store: Store, cache: Cache,
                                                rel: Path, u: UploadResult)
    requires CacheNames(env, inPlay, store, cache) && IndexNames(env, inPlay, store)
    requires Backed(env, inPlay, store, u.hash, u.bytes, u.chunks)
    ensures var store' := store.(index := store.index[rel := IndexText(u)]);
            CacheNames(env, inPlay, store', cache) && IndexNames(env, inPlay, store')
  {
    var store' := store.(index := store.index[rel := IndexText(u)]);
    NamesSurvive(env, inPlay, store, store'.(index := store.index), cache);
    forall r | r in store'.index
      ensures NamesManifest(env, inPlay, store', store'.index[r])
    {
      if r != rel {
        assert NamesManifest(env, inPlay, store, store.index[r]);
        var v: UploadResult :| Backed(env, inPlay, store, v.hash, v.bytes, v.chunks) && store.index[r] == IndexText(v);
        assert Backed(env, inPlay, store', v.hash, v.bytes, v.chunks);
      } else {
        assert Backed(env, inPlay, store', u.hash, u.bytes, u.chunks);
      }
    }
  }
}
