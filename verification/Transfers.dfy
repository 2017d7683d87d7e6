/** What an upload decides, writes, records and reports, and what a download leaves behind, stated on the store, the
    files, the cache and the result themselves. */
module Transfers {
  import opened Basics
  import opened Clocks
  import opened Conflicts
  import opened ObjectStore
  import opened Upload
  import opened UploadTheorems
  import opened PushTheorems
  import opened Engine
  import opened World
  import StubText

  // ---- When an upload writes ----

  /** The store holds something under the file's hash, and says so. */
  predicate Told(env: Env, store: Store, file: LocalFile, req: Request)
  {
    req.faults.readable && env.hash(file.data) in store.manifests
  }

  /** The manifest that a named device compares itself with, if there is one it can read. */
  function Rival(env: Env, store: Store, file: LocalFile, req: Request): Option<SyncManifest>
  {
    if req.device != "" && Told(env, store, file, req) then FromBytes(store.manifests[env.hash(file.data)]) else None
  }

  function RivalClock(env: Env, store: Store, file: LocalFile, req: Request): Clock
  {
    var rival := Rival(env, store, file, req);
    if rival.Some? then rival.value.clock else map[]
  }

  /** The cache does not stop the upload, and the store either says nothing, or shows a named device something
      unreadable or another file's manifest that the device has seen. */
  ghost predicate Writes(env: Env, store: Store, entry: Option<SyncState>, file: LocalFile, req: Request)
  {
    var rival := Rival(env, store, file, req);
    && NeedsSync(env, entry, file)
    && (|| !Told(env, store, file, req)
        || (req.device != "" && rival.None?)
        || (rival.Some? && rival.value.fileHash != env.hash(file.data) && Lt(rival.value.clock, ClockIn(entry))))
  }

  /** `c` counts what either clock counts, and one more write of the device if it has a name. */
  ghost predicate CountsOneMore(c: Clock, device: DeviceId, a: Clock, b: Clock)
  {
    forall x :: Get(c, x) == Max(Get(a, x), Get(b, x)) + if x == device && x != "" then 1 else 0
  }

  lemma {:induction false} TickCounts(device: DeviceId, a: Clock, b: Clock)
    ensures CountsOneMore(WithTick(device, Merged(a, b)), device, a, b)
  {
    forall x
      ensures Get(WithTick(device, Merged(a, b)), x) ==
              Max(Get(a, x), Get(b, x)) + if x == device && x != "" then 1 else 0
    {
      GetMerged(a, b, x);
    }
  }

  lemma {:induction false} VerdictClock(env: Env, store: Store, entry: Option<SyncState>, file: LocalFile,
                                        req: Request)
    requires Verdict(env, store, entry, file, req).Proceed?
    ensures var clock := Verdict(env, store, entry, file, req).clock;
            && CountsOneMore(clock, req.device, ClockIn(entry), RivalClock(env, store, file, req))
            && (req.device == "" ==> clock == ClockIn(entry))
  {
    var local := ClockIn(entry);
    TickCounts(req.device, local, RivalClock(env, store, file, req));
    assert Merged(local, map[]) == local;
  }

  lemma {:induction false} DecisionClock(env: Env, store: Store, entry: Option<SyncState>, file: LocalFile,
                                         req: Request)
    ensures var d := Decide(env, store, entry, file, req);
            && (d.Proceed? <==> Writes(env, store, entry, file, req))
            && (d.Proceed? ==>
                  && CountsOneMore(d.clock, req.device, ClockIn(entry), RivalClock(env, store, file, req))
                  && (req.device == "" ==> d.clock == ClockIn(entry)))
  {
    var local, rival, h := ClockIn(entry), Rival(env, store, file, req), env.hash(file.data);
    if rival.Some? {
      var rel := if req.rel.Some? then req.rel.value else "";
      OutcomeMeaning(local, rival.value.clock, h, rival.value.fileHash, rel, req.device, rival.value.writtenBy,
                     req.now);
    }
    if Decide(env, store, entry, file, req).Proceed? {
      VerdictClock(env, store, entry, file, req);
    }
  }

  /** The manifest an upload writes, without its chunk list and key. */
  predicate Manifests(o: Object, env: Env, file: LocalFile, req: Request, clock: Clock)
  {
    && o.V2? && o.manifest.version == 2
    && o.manifest.fileHash == env.hash(file.data) && o.manifest.fileSize == |file.data| && o.manifest.clock == clock
    && o.manifest.writtenBy == req.device && o.manifest.writtenAt == req.now && o.manifest.relPath == req.rel
    && (o.manifest.wrappedKey.Some? <==> req.master.Some?)
  }

  /** An upload that writes and is not cut short leaves a manifest whose clock counts what the cached clock and that of
      the manifest it was compared with count, and one more write of the device; a device without a name leaves the
      cached clock.  Nothing but this manifest and chunks changes, and an upload that does not write changes nothing. */
  lemma {:induction false} WrittenManifest(env: Env, store: Store, entry: Option<SyncState>, file: LocalFile,
                                           req: Request)
    ensures var h, store' := env.hash(file.data), Attempted(env, store, entry, file, req, Steps(env, file, req));
            && (!Writes(env, store, entry, file, req) ==> store' == store)
            && (Writes(env, store, entry, file, req) ==>
                  && h in store'.manifests && store'.manifests == store.manifests[h := store'.manifests[h]]
                  && store'.index == store.index && store'.manifests[h].V2?
                  && var clock := store'.manifests[h].manifest.clock;
                     && Manifests(store'.manifests[h], env, file, req, clock)
                     && CountsOneMore(clock, req.device, ClockIn(entry), RivalClock(env, store, file, req))
                     && (req.device == "" ==> clock == ClockIn(entry)))
  {
    DecisionClock(env, store, entry, file, req);
  }

  // ---- What it records and reports ----

  /** An upload finishes, writing or not: the cache stops it, or a rival does, or it gets to examine the file. */
  ghost predicate Finishes(env: Env, store: Store, entry: Option<SyncState>, file: LocalFile, req: Request)
  {
    || !NeedsSync(env, entry, file)
    || Yielding(env, store, entry, file, req)
    || (req.faults.examined.Some?
        && (Writes(env, store, entry, file, req) ==> |env.cut(req.path, file.data)| < req.faults.steps))
  }

  /** A named device finds another file's manifest that it has not seen. */
  ghost predicate Yielding(env: Env, store: Store, entry: Option<SyncState>, file: LocalFile, req: Request)
  {
    var rival := Rival(env, store, file, req);
    && NeedsSync(env, entry, file) && rival.Some? && rival.value.fileHash != env.hash(file.data)
    && !Lt(rival.value.clock, ClockIn(entry))
  }

  lemma {:induction false} FinishesIff(env: Env, store: Store, entry: Option<SyncState>, file: LocalFile, req: Request)
    ensures Completes(env, store, entry, file, req) <==> Finishes(env, store, entry, file, req)
    ensures Decide(env, store, entry, file, req).Blocked? <==> Yielding(env, store, entry, file, req)
  {
    DecisionClock(env, store, entry, file, req);
    var rival := Rival(env, store, file, req);
    if rival.Some? {
      var rel := if req.rel.Some? then req.rel.value else "";
      OutcomeMeaning(ClockIn(entry), rival.value.clock, env.hash(file.data), rival.value.fileHash, rel, req.device,
                     rival.value.writtenBy, req.now);
    }
  }

  /** The cache entry an upload leaves, except for its clock. */
  predicate Records(e: SyncState, env: Env, file: LocalFile, req: Request)
    requires req.faults.examined.Some?
  {
    && e.blake3 == env.hash(file.data) && e.remote == env.hash(file.data)
    && e.size == req.faults.examined.value.size && e.mtime == req.faults.examined.value.mtime
    && e.chunkCount == |env.cut(req.path, file.data)| && e.lastSynced == req.now && e.device == req.device
  }

  /** What an upload that finishes does to the cache.  Stopped by the cache or a rival, nothing.  Otherwise the entry
      of this file names the content under the size and time found at the end; its clock is that of the manifest just
      written, or stays as it was when nothing had to be written. */
  lemma {:induction false} RecordedEntry(env: Env, store: Store, cache: Cache, file: LocalFile, req: Request)
    requires Completes(env, store, Entry(cache, req.path), file, req)
    ensures var entry, cache' := Entry(cache, req.path), Recorded(env, store, cache, file, req);
            var store', h := Attempted(env, store, entry, file, req, Steps(env, file, req)), env.hash(file.data);
            if !NeedsSync(env, entry, file) || Yielding(env, store, entry, file, req) then cache' == cache
            else
              && req.path in cache' && cache' == cache[req.path := cache'[req.path]] && req.faults.examined.Some?
              && Records(cache'[req.path], env, file, req)
              && (if Writes(env, store, entry, file, req)
                  then h in store'.manifests && store'.manifests[h].V2?
                       && cache'[req.path].clock == store'.manifests[h].manifest.clock
                  else cache'[req.path].clock == ClockIn(entry))
  {
    FinishesIff(env, store, Entry(cache, req.path), file, req);
    DecisionClock(env, store, Entry(cache, req.path), file, req);
  }

  /** What an upload that finishes reports.  Stopped by the cache, what the cache says.  Otherwise the content that was
      read, as skipped exactly if a rival stood in the way: the same content already stored, or another's. */
  lemma {:induction false} ReportedResult(env: Env, store: Store, entry: Option<SyncState>, file: LocalFile,
                                          req: Request)
    ensures var u, rival := Outcome(env, store, entry, file, req), Rival(env, store, file, req);
            if !NeedsSync(env, entry, file) then
              && u.skipped && u.outcome == Some(UpToDate)
              && u.hash == entry.value.blake3 && u.bytes == entry.value.size && u.chunks == entry.value.chunkCount
            else
              && u.hash == env.hash(file.data) && u.bytes == |file.data|
              && u.chunks == |env.cut(req.path, file.data)|
              && (u.outcome.None? <==> rival.None?)
              && (u.skipped <==> rival.Some? && !Writes(env, store, entry, file, req))
              && (rival.Some? ==>
                    && (u.outcome.value.UpToDate? <==> rival.value.fileHash == u.hash)
                    && (u.outcome.value.LocalNewer? <==> Writes(env, store, entry, file, req))
                    && (u.outcome.value.RemoteNewer? <==>
                          rival.value.fileHash != u.hash && Lt(ClockIn(entry), rival.value.clock)))
  {
    DecisionClock(env, store, entry, file, req);
    var rival := Rival(env, store, file, req);
    if rival.Some? {
      var rel := if req.rel.Some? then req.rel.value else "";
      OutcomeMeaning(ClockIn(entry), rival.value.clock, env.hash(file.data), rival.value.fileHash, rel, req.device,
                     rival.value.writtenBy, req.now);
    }
  }

  /** What the cache decides by itself: a file whose size is the cached one, and whose time or content is, is reported
      from the cache and changes neither store nor cache.  Any other file is looked at, under its own hash. */
  lemma {:induction false} CacheStopsUpload(env: Env, store: Store, cache: Cache, file: LocalFile, req: Request)
    ensures var entry, u := Entry(cache, req.path), Outcome(env, store, Entry(cache, req.path), file, req);
            if entry.Some? && entry.value.size == |file.data|
              && (entry.value.mtime == file.mtime || entry.value.blake3 == env.hash(file.data))
            then
              && Completes(env, store, entry, file, req) && Recorded(env, store, cache, file, req) == cache
              && Attempted(env, store, entry, file, req, Steps(env, file, req)) == store
              && u.skipped && u.hash == entry.value.blake3
            else u.hash == env.hash(file.data) && u.bytes == |file.data|
  {
  }

  // ---- Pushing a file ----

  /** A push of one file writes its index entry exactly if the upload finishes, the file has a relative path and the
      store accepts it; the text is that of the reported result.  An upload that does not finish leaves the cache. */
  lemma {:induction false} IndexIsExact(env: Env, file: LocalFile, side: Side, req: Request)
    ensures var entry, side' := Entry(side.cache, req.path), PushedFile(env, file, side, req);
            var done, u := Finishes(env, side.store, entry, file, req), Outcome(env, side.store, entry, file, req);
            && side'.store.index == (if done && req.faults.indexed && req.rel.Some?
                                     then side.store.index[req.rel.value :=
                                       StubText.PrintIndex(u.hash, u.bytes, u.chunks)]
                                     else side.store.index)
            && (!done ==> side'.cache == side.cache)
  {
    FinishesIff(env, side.store, Entry(side.cache, req.path), file, req);
  }

  /** How the upload of one file of a push ends. */
  datatype End = Missed | Skipped | Sent(bytes: nat)

  /** How many of the first `n` end like this. */
  function CountTo(ends: nat -> End, like: End -> bool, n: nat): nat
  {
    if n == 0 then 0 else CountTo(ends, like, n - 1) + if like(ends(n - 1)) then 1 else 0
  }

  function BytesTo(ends: nat -> End, n: nat): nat
  {
    if n == 0 then 0 else BytesTo(ends, n - 1) + if ends(n - 1).Sent? then ends(n - 1).bytes else 0
  }

  /** The tally after file `k`, from how that one ends. */
  predicate CountsNext(total: nat -> Tally, ends: nat -> End, k: nat)
  {
    var t := total(k);
    total(k + 1) == match ends(k)
                    case Missed => t
                    case Skipped => t.(skipped := t.skipped + 1)
                    case Sent(bytes) => t.(uploaded := t.uploaded + 1, bytes := t.bytes + bytes)
  }

  lemma {:induction false} CountsAll(total: nat -> Tally, ends: nat -> End, n: nat)
    requires total(0) == Tally(0, 0, 0) && forall k: nat | k < n :: CountsNext(total, ends, k)
    ensures var sent, skipped := CountTo(ends, (e: End) => e.Sent?, n), CountTo(ends, (e: End) => e.Skipped?, n);
            && total(n) == Tally(sent, skipped, BytesTo(ends, n))
            && sent + skipped + CountTo(ends, (e: End) => e.Missed?, n) == n
  {
    if 0 < n {
      CountsAll(total, ends, n - 1);
      assert CountsNext(total, ends, n - 1);
    }
  }

  /** How the upload of file `i` ends, on what the files before it have left. */
  ghost function EndOfFile(env: Env, files: Files, side: Side, reqs: seq<Request>, i: nat): End
  {
    if |reqs| <= i || reqs[i].path !in files then Missed else
      var before, file := Pushed(PushStep(env, files), side, reqs, i), files[reqs[i].path];
      var entry := Entry(before.cache, reqs[i].path);
      var u := Outcome(env, before.store, entry, file, reqs[i]);
      if !Finishes(env, before.store, entry, file, reqs[i]) then Missed
      else if u.skipped then Skipped
      else Sent(u.bytes)
  }

  ghost function Ends(env: Env, files: Files, side: Side, reqs: seq<Request>): nat -> End
  {
    (i: nat) => EndOfFile(env, files, side, reqs, i)
  }

  function Totals(env: Env, files: Files, side: Side, reqs: seq<Request>): nat -> Tally
  {
    (n: nat) => if n <= |reqs| then Total(PushStep(env, files), Reports(env, files), side, reqs, n) else Tally(0, 0, 0)
  }

  lemma {:induction false} ReportIsEnd(env: Env, files: Files, side: Side, reqs: seq<Request>, i: nat)
    requires i < |reqs|
    ensures CountsNext(Totals(env, files, side, reqs), Ends(env, files, side, reqs), i)
  {
    if reqs[i].path in files {
      var before := Pushed(PushStep(env, files), side, reqs, i);
      FinishesIff(env, before.store, Entry(before.cache, reqs[i].path), files[reqs[i].path], reqs[i]);
    }
  }

  /** The tally of a push adds up, whatever fails: it counts the files sent, the files skipped and the bytes of those
      sent, and every file is sent, skipped or missed. */
  lemma {:induction false} TallyAddsUp(env: Env, files: Files, side: Side, reqs: seq<Request>)
    ensures var ends, n := Ends(env, files, side, reqs), |reqs|;
            var sent, skipped := CountTo(ends, (e: End) => e.Sent?, n), CountTo(ends, (e: End) => e.Skipped?, n);
            && TreeTally(env, files, side, reqs) == Tally(sent, skipped, BytesTo(ends, n))
            && sent + skipped + CountTo(ends, (e: End) => e.Missed?, n) == n
  {
    var total, ends := Totals(env, files, side, reqs), Ends(env, files, side, reqs);
    forall k: nat | k < |reqs|
      ensures CountsNext(total, ends, k)
    {
      ReportIsEnd(env, files, side, reqs, k);
    }
    CountsAll(total, ends, |reqs|);
  }

  // ---- Downloading ----

  /** What is wrong with chunk `i` of a manifest: it is missing, it is not what its name says, or it does not open. */
  predicate ChunkFault(env: Env, key: Option<Key>, m: SyncManifest, chunks: map<Hash, Bytes>, i: nat, e: ReadError)
    requires i < |m.chunks|
  {
    var h := m.chunks[i];
    match e
    case NoChunk => h !in chunks
    case CorruptChunk => h in chunks && env.hash(chunks[h]) != h
    case BadCiphertext =>
      h in chunks && env.hash(chunks[h]) == h && key.Some? && env.open(key.value, i, m.fileHash, chunks[h]).None?
    case _ => false
  }

  ghost predicate Intact(env: Env, key: Option<Key>, m: SyncManifest, chunks: map<Hash, Bytes>, n: nat)
    requires n <= |m.chunks|
  {
    forall i, e | 0 <= i < n :: !ChunkFault(env, key, m, chunks, i, e)
  }

  /** A download that fails before it reads any chunk says why. */
  lemma {:induction false} UnreadableManifest(env: Env, store: Store, h: Hash, master: Option<Key>)
    ensures Downloaded(env, store, h, master) == Err(NoManifest) <==> h !in store.manifests
    ensures h in store.manifests ==>
              var o, r := store.manifests[h], Downloaded(env, store, h, master);
              && (r == Err(BadManifest) <==> o.Garbage? || (o.V1? && o.chunks == []))
              && (r == Err(EmptyManifest) <==> o.V2? && o.manifest.chunks == [])
              && (r == Err(NoMasterKey) <==>
                    o.V2? && o.manifest.chunks != [] && o.manifest.wrappedKey.Some? && master.None?)
              && (r == Err(BadFileKey) <==>
                    && o.V2? && o.manifest.chunks != [] && o.manifest.wrappedKey.Some? && master.Some?
                    && env.unwrap(master.value, o.manifest.wrappedKey.value).None?)
  {
    if h in store.manifests && FromBytes(store.manifests[h]).Some? {
      var m := FromBytes(store.manifests[h]).value;
      if FileKey(env, master, m).Ok? {
        ChunkErrors(env, FileKey(env, master, m).value, m, store.chunks, |m.chunks|);
      }
    }
  }

  lemma {:induction false} ChunkErrors(env: Env, key: Option<Key>, m: SyncManifest, chunks: map<Hash, Bytes>, n: nat)
    requires n <= |m.chunks|
    ensures var r := Assembled(env, key, m.fileHash, chunks, m.chunks, n);
            r.Err? ==> r.error in {NoChunk, CorruptChunk, BadCiphertext}
  {
    if 0 < n {
      ChunkErrors(env, key, m, chunks, n - 1);
    }
  }

  /** The key that opens the chunks: none for a manifest in clear, else the one wrapped in it. */
  predicate Opens(env: Env, master: Option<Key>, m: SyncManifest, key: Option<Key>)
  {
    if m.wrappedKey.None? then key.None?
    else master.Some? && key.Some? && env.unwrap(master.value, m.wrappedKey.value) == key
  }

  lemma {:induction false} AssembledUpTo(env: Env, key: Option<Key>, m: SyncManifest, chunks: map<Hash, Bytes>,
                                         n: nat) returns (pieces: seq<Bytes>)
    requires n <= |m.chunks| && Intact(env, key, m, chunks, n)
    ensures |pieces| == n && Assembled(env, key, m.fileHash, chunks, m.chunks, n) == Ok(Flatten(pieces))
    ensures forall i | 0 <= i < n :: IsPiece(env, key, m, chunks, i, pieces[i])
  {
    if n == 0 {
      pieces := [];
    } else {
      var front := AssembledUpTo(env, key, m, chunks, n - 1);
      var piece := NextPiece(env, key, m, chunks, n - 1);
      FlattenAppend(front, piece);
      pieces := front + [piece];
    }
  }

  lemma {:induction false} NextPiece(env: Env, key: Option<Key>, m: SyncManifest, chunks: map<Hash, Bytes>,
                                     i: nat) returns (piece: Bytes)
    requires i < |m.chunks| && Intact(env, key, m, chunks, i + 1)
    ensures FetchChunk(env, key, m.fileHash, chunks, m.chunks[i], i) == Ok(piece)
    ensures IsPiece(env, key, m, chunks, i, piece)
  {
    assert !ChunkFault(env, key, m, chunks, i, NoChunk);
    assert !ChunkFault(env, key, m, chunks, i, CorruptChunk);
    assert !ChunkFault(env, key, m, chunks, i, BadCiphertext);
    piece := FetchChunk(env, key, m.fileHash, chunks, m.chunks[i], i).value;
  }

  /** The piece is what chunk `i` holds, opened with the key if there is one. */
  predicate IsPiece(env: Env, key: Option<Key>, m: SyncManifest, chunks: map<Hash, Bytes>, i: nat, piece: Bytes)
    requires i < |m.chunks|
  {
    && m.chunks[i] in chunks
    && if key.None? then piece == chunks[m.chunks[i]]
       else env.open(key.value, i, m.fileHash, chunks[m.chunks[i]]) == Some(piece)
  }

  /** With every chunk intact a download returns their contents in order, laid end to end, exactly if that has the hash
      the manifest names. */
  lemma {:induction false} IntactDownload(env: Env, store: Store, h: Hash, master: Option<Key>,
                                          key: Option<Key>) returns (pieces: seq<Bytes>)
    requires h in store.manifests && store.manifests[h].V2? && store.manifests[h].manifest.chunks != []
    requires var m := store.manifests[h].manifest;
             Opens(env, master, m, key) && Intact(env, key, m, store.chunks, |m.chunks|)
    ensures var m := store.manifests[h].manifest;
            && |pieces| == |m.chunks|
            && (forall i | 0 <= i < |pieces| :: IsPiece(env, key, m, store.chunks, i, pieces[i]))
            && Downloaded(env, store, h, master) ==
               if env.hash(Flatten(pieces)) == m.fileHash then Ok(Flatten(pieces)) else Err(CorruptFile)
  {
    var m := store.manifests[h].manifest;
    pieces := AssembledUpTo(env, key, m, store.chunks, |m.chunks|);
  }

  /** Otherwise it fails with the fault of the first chunk that has one. */
  lemma {:induction false} FirstFaultyChunk(env: Env, store: Store, h: Hash, master: Option<Key>, key: Option<Key>,
                                            i: nat, e: ReadError)
    requires h in store.manifests && store.manifests[h].V2? && i < |store.manifests[h].manifest.chunks|
    requires var m := store.manifests[h].manifest;
             && Opens(env, master, m, key) && Intact(env, key, m, store.chunks, i)
             && ChunkFault(env, key, m, store.chunks, i, e)
    ensures Downloaded(env, store, h, master) == Err(e)
  {
    var m := store.manifests[h].manifest;
    var front := AssembledUpTo(env, key, m, store.chunks, i);
    assert FetchChunk(env, key, m.fileHash, store.chunks, m.chunks[i], i) == Err(e);
    AssemblyStops(env, key, m.fileHash, store.chunks, m.chunks, i + 1, |m.chunks|);
  }

  /** The cache entry a download leaves, except for its clock. */
  predicate FetchRecords(e: SyncState, env: Env, h: Hash, m: SyncManifest, data: Bytes, f: Fetch)
    requires f.examined.Some?
  {
    && e.blake3 == env.hash(data) && e.remote == h && e.chunkCount == |m.chunks|
    && e.size == f.examined.value.size && e.mtime == f.examined.value.mtime
    && e.lastSynced == f.now && e.device == f.device
  }

  /** A download that succeeds replaces this one file by the bytes the store holds, and nothing happens otherwise.  The
      cache follows exactly if the caller keeps one, the device has a name and the file can be examined: the entry
      names the content, and each entry of its clock becomes the larger of its own and the manifest's. */
  lemma {:induction false} FetchedHost(env: Env, store: Store, host: Host, h: Hash, f: Fetch)
    ensures var host', r := Fetched(env, store, host, h, f), Downloaded(env, store, h, f.master);
            && (r.Err? || !f.writable ==> host' == host)
            && (r.Ok? && f.writable ==>
                  && f.path in host'.files && host'.files == host.files[f.path := host'.files[f.path]]
                  && host'.files[f.path] == LocalFile(r.value, f.mtime)
                  && (if f.tracked && f.device != "" && f.examined.Some? then
                        var m := FromBytes(store.manifests[h]).value;
                        && f.path in host'.cache && host'.cache == host.cache[f.path := host'.cache[f.path]]
                        && FetchRecords(host'.cache[f.path], env, h, m, r.value, f)
                        && forall x :: Get(host'.cache[f.path].clock, x) ==
                                       Max(Get(ClockIn(Entry(host.cache, f.path)), x), Get(m.clock, x))
                      else host'.cache == host.cache))
  {
  }

  /** A download reports the size of what it wrote; it fails if the store has nothing valid, the file cannot be written,
      or the state should be recorded and the file cannot be examined. */
  lemma {:induction false} FetchReports(env: Env, store: Store, h: Hash, f: Fetch)
    ensures var r, u := Downloaded(env, store, h, f.master), FetchResult(env, store, h, f);
            && (u.Ok? <==> r.Ok? && f.writable && (f.tracked && f.device != "" ==> f.examined.Some?))
            && (u.Ok? ==> u.value == |r.value|)
            && (r.Err? ==> u == Err(Unreadable(r.error)))
            && (u == Err(NotWritable) <==> r.Ok? && !f.writable)
  {
  }
}
