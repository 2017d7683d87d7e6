/** Uploading a file: deciding whether anything has to be written, and the writes in order.

    A crash or a failed write stops an upload after some number of writes; the
    theorems hold for the store after each of them. */
module Upload {
  import opened Basics
  import opened Clocks
  import opened Conflicts
  import opened ObjectStore

  /** What the state cache remembers of a file's last sync; the manifest path is its hash. */
  datatype SyncState = SyncState(
    blake3: Hash, size: nat, mtime: nat, chunkCount: nat, remote: Hash,
    lastSynced: nat, clock: Clock, device: DeviceId)

  datatype LocalFile = LocalFile(data: Bytes, mtime: nat)

  /** What examining a file shows of it. */
  datatype Stat = Stat(size: nat, mtime: nat)

  function StatOf(file: LocalFile): Stat
  {
    Stat(|file.data|, file.mtime)
  }

  /** The failures an upload meets: whether the store answers about an existing manifest, after how many
      steps it stops accepting writes, what the file looks like when its state is recorded, if it can still be
      examined, and whether the store accepts the index entry. */
  datatype Faults = Faults(readable: bool, steps: nat, examined: Option<Stat>, indexed: bool)

  /** The arguments of an upload, with the random and wall-clock values it will draw and the failures it will meet. */
  datatype Request = Request(
    path: Path, device: DeviceId, rel: Option<Path>, master: Option<Key>,
    fileKey: Key, nonces: nat -> Nonce, wrapNonce: Nonce, now: nat, faults: Faults)

  /** Whether the cache lets an upload be skipped: same size, and same mtime or same content hash. */
  predicate NeedsSync(env: Env, entry: Option<SyncState>, file: LocalFile)
  {
    match entry
    case None => true
    case Some(c) =>
      c.size != |file.data| || (c.mtime != file.mtime && env.hash(file.data) != c.blake3)
  }

  datatype Decision =
    | Unchanged
    | Blocked(outcome: Option<SyncOutcome>)
    | Stored(skipped: bool, outcome: Option<SyncOutcome>)
    | Proceed(clock: Clock, outcome: Option<SyncOutcome>)

  function ClockIn(entry: Option<SyncState>): Clock
  {
    if entry.Some? then entry.value.clock else map[]
  }

  function WithTick(device: DeviceId, c: Clock): Clock
  {
    if device == "" then c else Ticked(c, device)
  }

  /** The branches on what is stored under the file's hash. */
  function Verdict(env: Env, store: Store, entry: Option<SyncState>, file: LocalFile, req: Request): Decision
  {
    var h := env.hash(file.data);
    var local := ClockIn(entry);
    if req.device != "" && req.faults.readable && h in store.manifests && FromBytes(store.manifests[h]).Some? then
      var m := FromBytes(store.manifests[h]).value;
      var rel := if req.rel.Some? then req.rel.value else "";
      match CompareClocks(local, m.clock, h, m.fileHash, rel, req.device, m.writtenBy, req.now)
      case RemoteNewer => Blocked(Some(RemoteNewer))
      case Conflict(info) => Blocked(Some(Conflict(info)))
      case UpToDate => Stored(true, Some(UpToDate))
      case LocalNewer => Proceed(WithTick(req.device, Merged(local, m.clock)), Some(LocalNewer))
    else if req.device == "" && req.faults.readable && h in store.manifests then
      Stored(false, None)
    else
      Proceed(WithTick(req.device, local), None)
  }

  /** The branches before the first write. */
  function Decide(env: Env, store: Store, entry: Option<SyncState>, file: LocalFile, req: Request): Decision
  {
    if !NeedsSync(env, entry, file) then Unchanged else Verdict(env, store, entry, file, req)
  }

  function Piece(data: Bytes, c: Chunk): Bytes
  {
    if c.offset + c.length <= |data| then data[c.offset..c.offset + c.length] else []
  }

  /** The object written for chunk `i`: the chunk itself, or its ciphertext. */
  function Body(env: Env, req: Request, data: Bytes, cs: seq<Chunk>, i: nat): Bytes
    requires i < |cs|
  {
    var piece := Piece(data, cs[i]);
    if req.master.None? then piece
    else env.seal(req.fileKey, req.nonces(i), i, env.hash(data), piece)
  }

  function ChunkHashes(env: Env, req: Request, data: Bytes, cs: seq<Chunk>, n: nat): (hs: seq<Hash>)
    requires n <= |cs|
    ensures |hs| == n
    ensures forall i | 0 <= i < n :: hs[i] == env.hash(Body(env, req, data, cs, i))
  {
    if n == 0 then [] else ChunkHashes(env, req, data, cs, n - 1) + [env.hash(Body(env, req, data, cs, n - 1))]
  }

  /** Writing a chunk that is already stored is skipped. */
  function PutChunk(env: Env, chunks: map<Hash, Bytes>, body: Bytes): map<Hash, Bytes>
  {
    if env.hash(body) in chunks then chunks else chunks[env.hash(body) := body]
  }

  function ChunksAfter(env: Env, chunks: map<Hash, Bytes>, req: Request, data: Bytes, cs: seq<Chunk>, n: nat)
    : map<Hash, Bytes>
    requires n <= |cs|
  {
    if n == 0 then chunks
    else PutChunk(env, ChunksAfter(env, chunks, req, data, cs, n - 1), Body(env, req, data, cs, n - 1))
  }

  function NewManifest(env: Env, req: Request, data: Bytes, cs: seq<Chunk>, clock: Clock): SyncManifest
  {
    SyncManifest(2, env.hash(data), |data|, ChunkHashes(env, req, data, cs, |cs|), clock, req.device, req.now, req.rel,
                 if req.master.None? then None else Some(env.wrap(req.master.value, req.wrapNonce, req.fileKey)))
  }

  /** How far an upload can get: the chunks one by one, then the manifest. */
  function Steps(env: Env, file: LocalFile, req: Request): nat
  {
    |env.cut(req.path, file.data)| + 1
  }

  /** The store after the first `k` steps of an upload that proceeds. */
  function StoreAfter(env: Env, store: Store, file: LocalFile, req: Request, clock: Clock, k: nat): Store
    requires k <= Steps(env, file, req)
  {
    var cs := env.cut(req.path, file.data);
    var n := if k <= |cs| then k else |cs|;
    var chunks := ChunksAfter(env, store.chunks, req, file.data, cs, n);
    if k <= |cs| then store.(chunks := chunks)
    else store.(chunks := chunks,
                manifests := store.manifests[env.hash(file.data) := V2(NewManifest(env, req, file.data, cs, clock))])
  }

  /** The store after an upload that gets `k` steps far. */
  function Attempted(env: Env, store: Store, entry: Option<SyncState>, file: LocalFile, req: Request, k: nat): Store
    requires k <= Steps(env, file, req)
  {
    var d := Decide(env, store, entry, file, req);
    if d.Proceed? then StoreAfter(env, store, file, req, d.clock, k) else store
  }

  // ---- The inputs of the theorems ----

  /** Everything this upload hashes is in play. */
  ghost predicate InPlay(env: Env, inPlay: iset<Bytes>, file: LocalFile, req: Request)
  {
    var cs := env.cut(req.path, file.data);
    && file.data in inPlay
    && forall i | 0 <= i < |cs| :: Body(env, req, file.data, cs, i) in inPlay
  }

  /** Encrypted uploads use the fleet's master key. */
  predicate FleetKey(mk: Key, req: Request)
  {
    req.master.None? || req.master.value == mk
  }

  // ---- Chunks ----

  /** The objects of the first `n` chunks are stored. */
  ghost predicate BodiesStored(env: Env, chunks: map<Hash, Bytes>, req: Request, data: Bytes, cs: seq<Chunk>, n: nat)
    requires n <= |cs|
  {
    forall i | 0 <= i < n ::
      var b := Body(env, req, data, cs, i);
      env.hash(b) in chunks && chunks[env.hash(b)] == b
  }

  lemma {:induction false} ChunksGrow(env: Env, inPlay: iset<Bytes>, chunks: map<Hash, Bytes>, req: Request,
                                      data: Bytes, cs: seq<Chunk>, n: nat)
    requires n <= |cs| && CollisionFree(env, inPlay) && ChunksSound(env, inPlay, chunks)
    requires forall i | 0 <= i < |cs| :: Body(env, req, data, cs, i) in inPlay
    ensures var chunks' := ChunksAfter(env, chunks, req, data, cs, n);
            && ChunksSound(env, inPlay, chunks')
            && (forall k | k in chunks :: k in chunks' && chunks'[k] == chunks[k])
            && BodiesStored(env, chunks', req, data, cs, n)
  {
    if 0 < n {
      ChunksGrow(env, inPlay, chunks, req, data, cs, n - 1);
      var mid, b := ChunksAfter(env, chunks, req, data, cs, n - 1), Body(env, req, data, cs, n - 1);
      if env.hash(b) in mid {
        assert mid[env.hash(b)] == b;
      }
    }
  }

  lemma {:induction false} EndsWithin(cs: seq<Chunk>, n: nat, i: nat)
    requires Covers(cs, n) && i <= |cs|
    ensures EndOf(cs, i) <= n
    decreases |cs| - i
  {
    if i < |cs| {
      EndsWithin(cs, n, i + 1);
    }
  }

  /** Reading back the chunk list of an upload yields the file, piece by piece. */
  lemma {:induction false} BodiesReadBack(env: Env, chunks: map<Hash, Bytes>, req: Request, data: Bytes,
                                          cs: seq<Chunk>, n: nat)
    requires Contracts(env) && Covers(cs, |data|) && n <= |cs|
    requires BodiesStored(env, chunks, req, data, cs, |cs|)
    ensures EndOf(cs, n) <= |data|
    ensures var key := if req.master.None? then None else Some(req.fileKey);
            Assembled(env, key, env.hash(data), chunks, ChunkHashes(env, req, data, cs, |cs|), n) ==
              Ok(data[..EndOf(cs, n)])
  {
    EndsWithin(cs, |data|, n);
    if 0 < n {
      BodiesReadBack(env, chunks, req, data, cs, n - 1);
      BodyReadsBack(env, chunks, req, data, cs, n - 1);
      SliceGrows(data, EndOf(cs, n - 1), EndOf(cs, n));
    }
  }

  lemma SliceGrows(data: Bytes, from: nat, to: nat)
    requires from <= to <= |data|
    ensures data[..from] + data[from..to] == data[..to]
  {
  }

  lemma {:induction false} BodyReadsBack(env: Env, chunks: map<Hash, Bytes>, req: Request, data: Bytes,
                                         cs: seq<Chunk>, i: nat)
    requires Contracts(env) && Covers(cs, |data|) && i < |cs| && EndOf(cs, i + 1) <= |data|
    requires var b := Body(env, req, data, cs, i); env.hash(b) in chunks && chunks[env.hash(b)] == b
    ensures EndOf(cs, i) <= EndOf(cs, i + 1)
    ensures var key := if req.master.None? then None else Some(req.fileKey);
            FetchChunk(env, key, env.hash(data), chunks, env.hash(Body(env, req, data, cs, i)), i)
            == Ok(data[EndOf(cs, i)..EndOf(cs, i + 1)])
  {
    assert cs[i].offset == EndOf(cs, i);
    if req.master.Some? {
      assert env.open(req.fileKey, i, env.hash(data), Body(env, req, data, cs, i)) == Some(Piece(data, cs[i]));
    }
  }

  /** A manifest written when all its chunks are stored is sound. */
  lemma {:induction false} NewManifestSound(env: Env, mk: Key, inPlay: iset<Bytes>, chunks: map<Hash, Bytes>,
                                            file: LocalFile, req: Request, clock: Clock)
    requires Contracts(env) && InPlay(env, inPlay, file, req) && FleetKey(mk, req)
    requires var cs := env.cut(req.path, file.data); BodiesStored(env, chunks, req, file.data, cs, |cs|)
    ensures Sound(env, mk, inPlay, chunks, env.hash(file.data),
                  NewManifest(env, req, file.data, env.cut(req.path, file.data), clock))
  {
    var data, cs := file.data, env.cut(req.path, file.data);
    var m := NewManifest(env, req, data, cs, clock);
    assert Covers(cs, |data|);
    BodiesReadBack(env, chunks, req, data, cs, |cs|);
    assert data[..EndOf(cs, |cs|)] == data;
    if req.master.Some? {
      assert env.unwrap(mk, m.wrappedKey.value) == Some(req.fileKey);
    }
    assert m.chunks == [] <==> data == [];
  }

  // ---- Crash consistency ----

  /** Finding a manifest of the current format stored, an upload goes on exactly when the store does not answer. */
  lemma {:induction false} StoredIsRewrittenIff(env: Env, mk: Key, inPlay: iset<Bytes>, store: Store,
                                                entry: Option<SyncState>, file: LocalFile, req: Request)
    requires StoreInv(env, mk, inPlay, store)
    requires var h := env.hash(file.data); h in store.manifests && store.manifests[h].V2?
    ensures Verdict(env, store, entry, file, req).Proceed? <==> !req.faults.readable
  {
    var h := env.hash(file.data);
    assert Sound(env, mk, inPlay, store.chunks, h, store.manifests[h].manifest);
  }

  /** One chunk written by any upload, whatever others have written since it began. */
  lemma {:induction false} PutKeepsStore(env: Env, mk: Key, inPlay: iset<Bytes>, store: Store, body: Bytes)
    requires CollisionFree(env, inPlay) && StoreInv(env, mk, inPlay, store) && body in inPlay
    ensures var store' := store.(chunks := PutChunk(env, store.chunks, body));
            && StoreInv(env, mk, inPlay, store') && Extends(store, store')
            && env.hash(body) in store'.chunks && store'.chunks[env.hash(body)] == body
  {
    var store' := store.(chunks := PutChunk(env, store.chunks, body));
    assert env.hash(body) in store.chunks ==> store.chunks[env.hash(body)] == body;
    forall x | x in store'.manifests && store'.manifests[x].V2?
      ensures Sound(env, mk, inPlay, store'.chunks, x, store'.manifests[x].manifest)
    {
      SoundSurvives(env, mk, inPlay, store.chunks, store'.chunks, x, store.manifests[x].manifest);
    }
  }

  /** A manifest written by any upload whose chunks are stored, whatever others have written since it began and
      whatever clock it decided on. */
  lemma {:induction false} ManifestKeepsStore(env: Env, mk: Key, inPlay: iset<Bytes>, store: Store, file: LocalFile,
                                              req: Request, clock: Clock)
    requires Contracts(env) && StoreInv(env, mk, inPlay, store) && InPlay(env, inPlay, file, req) && FleetKey(mk, req)
    requires var cs := env.cut(req.path, file.data); BodiesStored(env, store.chunks, req, file.data, cs, |cs|)
    ensures var m := V2(NewManifest(env, req, file.data, env.cut(req.path, file.data), clock));
            var store' := store.(manifests := store.manifests[env.hash(file.data) := m]);
            StoreInv(env, mk, inPlay, store') && Extends(store, store')
  {
    NewManifestSound(env, mk, inPlay, store.chunks, file, req, clock);
  }

  /** Crash-consistent upload: after every single write the store invariant holds and nothing that
      could be read before is lost. */
  lemma EveryWriteKeepsStore(env: Env, mk: Key, inPlay: iset<Bytes>, store: Store, entry: Option<SyncState>,
                             file: LocalFile, req: Request, k: nat)
    requires Contracts(env) && CollisionFree(env, inPlay) && StoreInv(env, mk, inPlay, store)
    requires InPlay(env, inPlay, file, req) && FleetKey(mk, req) && k <= Steps(env, file, req)
    ensures var store' := Attempted(env, store, entry, file, req, k);
            StoreInv(env, mk, inPlay, store') && Extends(store, store') && store'.index == store.index
  {
    var d := Decide(env, store, entry, file, req);
    if d.Proceed? {
      var store' := StoreAfter(env, store, file, req, d.clock, k);
      var h, cs := env.hash(file.data), env.cut(req.path, file.data);
      var n := if k <= |cs| then k else |cs|;
      ChunksGrow(env, inPlay, store.chunks, req, file.data, cs, n);
      forall x | x in store'.manifests && store'.manifests[x].V2?
        ensures Sound(env, mk, inPlay, store'.chunks, x, store'.manifests[x].manifest)
      {
        if |cs| < k && x == h {
          NewManifestSound(env, mk, inPlay, store'.chunks, file, req, d.clock);
        } else {
          SoundSurvives(env, mk, inPlay, store.chunks, store'.chunks, x, store.manifests[x].manifest);
        }
      }
    }
  }
}
