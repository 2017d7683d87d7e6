/** The content-addressed object store: chunks, manifests and index entries, and
    what reading a file back from it gives.

    Hashing, chunking and encryption are parameters; only their contracts are used.
    One remote prefix is fixed, so a manifest path is its hash. */
module ObjectStore {
  import opened Basics
  import opened Clocks
  import opened Conflicts

  type Key = Bytes

  type Nonce = Bytes

  /** A chunk boundary: offset and length within the file. */
  datatype Chunk = Chunk(offset: nat, length: nat)

  /** The libraries the engine calls. */
  datatype Env = Env(
    hash: Bytes -> Hash,
    cut: (Path, Bytes) -> seq<Chunk>,
    seal: (Key, Nonce, nat, Hash, Bytes) -> Bytes,
    open: (Key, nat, Hash, Bytes) -> Option<Bytes>,
    wrap: (Key, Nonce, Key) -> Bytes,
    unwrap: (Key, Bytes) -> Option<Key>)

  function EndOf(cs: seq<Chunk>, i: nat): nat
    requires i <= |cs|
  {
    if i == 0 then 0 else cs[i - 1].offset + cs[i - 1].length
  }

  /** The chunks lie end to end and cover `n` bytes. */
  ghost predicate Covers(cs: seq<Chunk>, n: nat)
  {
    && (forall i {:trigger EndOf(cs, i)} | 0 <= i < |cs| :: cs[i].offset == EndOf(cs, i))
    && EndOf(cs, |cs|) == n
  }

  /** A digest as it is written out. */
  predicate Hex(h: Hash)
  {
    h != "" && forall c | c in h :: '0' <= c <= '9' || 'a' <= c <= 'f'
  }

  /** The contracts of the libraries: chunks cover the file and none is empty, opening undoes sealing,
      unwrapping undoes wrapping, and a digest is written in hexadecimal. */
  ghost predicate Contracts(env: Env)
  {
    && (forall p, d :: Covers(env.cut(p, d), |d|))
    && (forall p, d :: |env.cut(p, d)| <= |d|)
    && (forall k, n, i, f, d :: env.open(k, i, f, env.seal(k, n, i, f, d)) == Some(d))
    && (forall m, n, k :: env.unwrap(m, env.wrap(m, n, k)) == Some(k))
    && (forall d :: Hex(env.hash(d)))
  }

  /** Distinct contents in play have distinct digests. */
  ghost predicate CollisionFree(env: Env, inPlay: iset<Bytes>)
  {
    forall x, y | x in inPlay && y in inPlay && env.hash(x) == env.hash(y) :: x == y
  }

  datatype SyncManifest = SyncManifest(
    version: nat, fileHash: Hash, fileSize: nat, chunks: seq<Hash>, clock: Clock,
    writtenBy: DeviceId, writtenAt: nat, relPath: Option<Path>, wrappedKey: Option<Bytes>)

  /** A stored manifest object: the current format, the legacy list of chunk hashes, or neither. */
  datatype Object = V2(manifest: SyncManifest) | V1(chunks: seq<Hash>) | Garbage

  datatype Store = Store(chunks: map<Hash, Bytes>, manifests: map<Hash, Object>, index: map<Path, string>)

  /** Parsing falls back to the legacy format, which knows neither file hash nor clock. */
  function FromBytes(o: Object): Option<SyncManifest>
  {
    match o
    case V2(m) => Some(m)
    case V1(cs) => if cs == [] then None else Some(SyncManifest(1, "", 0, cs, map[], "", 0, None, None))
    case Garbage => None
  }

  datatype ReadError =
    | NoManifest
    | BadManifest
    | EmptyManifest
    | NoMasterKey
    | BadFileKey
    | NoChunk
    | CorruptChunk
    | BadCiphertext
    | CorruptFile

  /** One verified, decrypted chunk.  A file hash that is no digest also fails to open. */
  function FetchChunk(env: Env, key: Option<Key>, fileHash: Hash, chunks: map<Hash, Bytes>, h: Hash, i: nat)
    : Result<Bytes, ReadError>
  {
    if h !in chunks then Err(NoChunk)
    else if env.hash(chunks[h]) != h then Err(CorruptChunk)
    else if key.None? then Ok(chunks[h])
    else
      match env.open(key.value, i, fileHash, chunks[h])
      case Some(plain) => Ok(plain)
      case None => Err(BadCiphertext)
  }

  /** The first `n` chunks of a list, fetched in order and laid end to end. */
  function Assembled(env: Env, key: Option<Key>, fileHash: Hash, chunks: map<Hash, Bytes>, hs: seq<Hash>, n: nat)
    : Result<Bytes, ReadError>
    requires n <= |hs|
  {
    if n == 0 then Ok([]) else
      match Assembled(env, key, fileHash, chunks, hs, n - 1)
      case Err(e) => Err(e)
      case Ok(front) =>
        match FetchChunk(env, key, fileHash, chunks, hs[n - 1], n - 1)
        case Err(e) => Err(e)
        case Ok(piece) => Ok(front + piece)
  }

  function FileKey(env: Env, master: Option<Key>, m: SyncManifest): Result<Option<Key>, ReadError>
  {
    if m.wrappedKey.None? then Ok(None)
    else if master.None? then Err(NoMasterKey)
    else
      match env.unwrap(master.value, m.wrappedKey.value)
      case Some(k) => Ok(Some(k))
      case None => Err(BadFileKey)
  }

  /** The plaintext a manifest describes. */
  function Contents(env: Env, master: Option<Key>, chunks: map<Hash, Bytes>, m: SyncManifest): Result<Bytes, ReadError>
  {
    match FileKey(env, master, m)
    case Err(e) => Err(e)
    case Ok(key) => Assembled(env, key, m.fileHash, chunks, m.chunks, |m.chunks|)
  }

  /** What downloading manifest `h` returns. */
  function Downloaded(env: Env, store: Store, h: Hash, master: Option<Key>): Result<Bytes, ReadError>
  {
    if h !in store.manifests then Err(NoManifest) else
      match FromBytes(store.manifests[h])
      case None => Err(BadManifest)
      case Some(m) =>
        if m.chunks == [] then Err(EmptyManifest) else
          match Contents(env, master, store.chunks, m)
          case Err(e) => Err(e)
          case Ok(data) => if env.hash(data) == m.fileHash then Ok(data) else Err(CorruptFile)
  }

  // ---- What every write keeps ----

  /** A manifest object that reads back, with the fleet's master key, as content of its size hashing to its key. */
  ghost predicate Sound(env: Env, mk: Key, inPlay: iset<Bytes>, chunks: map<Hash, Bytes>, h: Hash, m: SyncManifest)
  {
    && m.version == 2 && m.fileHash == h
    && var r := Contents(env, Some(mk), chunks, m);
       && r.Ok? && r.value in inPlay && env.hash(r.value) == h
       && m.fileSize == |r.value| && |m.chunks| <= |r.value| && (m.chunks == [] <==> r.value == [])
  }

  ghost predicate ChunksSound(env: Env, inPlay: iset<Bytes>, chunks: map<Hash, Bytes>)
  {
    forall k | k in chunks :: chunks[k] in inPlay && env.hash(chunks[k]) == k
  }

  /** Every chunk hashes to its key; every manifest of the current format lists stored chunks
      that decrypt and concatenate to content hashing to the manifest's key. */
  ghost predicate StoreInv(env: Env, mk: Key, inPlay: iset<Bytes>, store: Store)
  {
    && ChunksSound(env, inPlay, store.chunks)
    && forall h | h in store.manifests && store.manifests[h].V2? ::
         Sound(env, mk, inPlay, store.chunks, h, store.manifests[h].manifest)
  }

  /** Nothing under a manifest key is in another format than the current one. */
  ghost predicate Modern(store: Store)
  {
    forall h | h in store.manifests :: store.manifests[h].V2?
  }

  /** Nothing readable is taken away: chunks stay as they are, and a manifest of the current format stays one. */
  ghost predicate Extends(s: Store, t: Store)
  {
    && (forall k | k in s.chunks :: k in t.chunks && t.chunks[k] == s.chunks[k])
    && (forall h | h in s.manifests :: h in t.manifests)
    && (forall h | h in s.manifests && s.manifests[h].V2? :: t.manifests[h].V2?)
  }

  lemma {:induction false} AssembledSurvives(env: Env, key: Option<Key>, fileHash: Hash,
                                             chunks: map<Hash, Bytes>, chunks': map<Hash, Bytes>, hs: seq<Hash>, n: nat)
    requires n <= |hs| && Assembled(env, key, fileHash, chunks, hs, n).Ok?
    requires forall k | k in chunks :: k in chunks' && chunks'[k] == chunks[k]
    ensures Assembled(env, key, fileHash, chunks', hs, n) == Assembled(env, key, fileHash, chunks, hs, n)
  {
    if 0 < n {
      AssembledSurvives(env, key, fileHash, chunks, chunks', hs, n - 1);
    }
  }

  lemma SoundSurvives(env: Env, mk: Key, inPlay: iset<Bytes>, chunks: map<Hash, Bytes>, chunks': map<Hash, Bytes>,
                      h: Hash, m: SyncManifest)
    requires Sound(env, mk, inPlay, chunks, h, m)
    requires forall k | k in chunks :: k in chunks' && chunks'[k] == chunks[k]
    ensures Sound(env, mk, inPlay, chunks', h, m)
  {
    var key := FileKey(env, Some(mk), m).value;
    AssembledSurvives(env, key, m.fileHash, chunks, chunks', m.chunks, |m.chunks|);
  }

  /** A sound manifest downloads as its content, unless it lists no chunks. */
  lemma {:induction false} SoundDownloads(env: Env, mk: Key, inPlay: iset<Bytes>, store: Store, h: Hash, data: Bytes)
    requires StoreInv(env, mk, inPlay, store) && CollisionFree(env, inPlay)
    requires h in store.manifests && store.manifests[h].V2?
    requires data in inPlay && env.hash(data) == h
    ensures Downloaded(env, store, h, Some(mk)) == Ok(data) <==> data != []
    ensures data == [] ==> Downloaded(env, store, h, Some(mk)).Err?
  {
    var m := store.manifests[h].manifest;
    assert Sound(env, mk, inPlay, store.chunks, h, m);
    var d := Contents(env, Some(mk), store.chunks, m).value;
    assert d == data;
  }

  /** What can be read without a key on a sound store: content that is in clear and not empty. */
  lemma {:induction false} ReadableInClearIff(env: Env, mk: Key, inPlay: iset<Bytes>, store: Store, h: Hash)
    requires Contracts(env) && StoreInv(env, mk, inPlay, store)
    requires h in store.manifests && store.manifests[h].V2?
    ensures var m := store.manifests[h].manifest;
            && (Downloaded(env, store, h, None).Ok? <==> m.wrappedKey.None? && m.fileSize != 0)
            && (Downloaded(env, store, h, None).Ok? ==>
              Downloaded(env, store, h, None) == Downloaded(env, store, h, Some(mk)))
  {
    assert Sound(env, mk, inPlay, store.chunks, h, store.manifests[h].manifest);
  }
}
