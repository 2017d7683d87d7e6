/** What holds in every state that uploads, pulls and edits of any number of hosts can reach together. */
module WorldTheorems {
  import opened Basics
  import opened Clocks
  import opened Conflicts
  import opened ObjectStore
  import opened Upload
  import opened UploadTheorems
  import opened PushTheorems
  import opened Engine
  import opened World
  import opened WorldInvariant
  import StubText

  // ---- Stored manifests ----

  /** The next write of the upload is its manifest. */
  predicate AtManifest(env: Env, job: Job)
  {
    job.stage.Writing? && job.stage.done == |env.cut(job.req.path, job.stage.file.data)|
  }

  /** The act writes a manifest under this hash. */
  predicate WritesManifest(env: Env, s: State, a: Act, h: Hash)
  {
    a.Put? && a.id in s.jobs && AtManifest(env, s.jobs[a.id]) && env.hash(s.jobs[a.id].stage.file.data) == h
  }

  /** In every reachable state: an upload about to write its manifest replaces a stored one exactly if that was
      written after it asked the store, or was there when it asked and the store did not answer. */
  lemma {:induction false} StoredIsReplacedIff(env: Env, mk: Key, inPlay: iset<Bytes>, s: State, acts: seq<Act>,
                                               id: nat)
    requires Contracts(env) && CollisionFree(env, inPlay) && Start(inPlay, s) && History(env, mk, inPlay, s, acts)
    requires var t := Run(env, s, acts); id in t.jobs && AtManifest(env, t.jobs[id])
    ensures var t := Run(env, s, acts);
            var req, stage := t.jobs[id].req, t.jobs[id].stage;
            && stage.since <= |t.past.log|
            && (env.hash(stage.file.data) in t.store.manifests <==>
                  env.hash(stage.file.data) in t.past.log[stage.since..] || (stage.seen && !req.faults.readable))
  {
    ReachableInv(env, mk, inPlay, s, acts);
    var t := Run(env, s, acts);
    assert JobInv(env, mk, inPlay, t.store, t.past.log, t.jobs[id]);
  }

  lemma {:induction false} PutManifests(env: Env, s: State, id: nat)
    requires id in s.jobs && s.jobs[id].stage.Writing?
    requires s.jobs[id].stage.done <= |env.cut(s.jobs[id].req.path, s.jobs[id].stage.file.data)|
    ensures var h, t := env.hash(s.jobs[id].stage.file.data), AfterPut(env, s, id);
            if AtManifest(env, s.jobs[id]) then
              h in t.store.manifests && t.store.manifests == s.store.manifests[h := t.store.manifests[h]]
            else t.store.manifests == s.store.manifests
  {
  }

  lemma OthersLeaveManifests(env: Env, s: State, a: Act)
    requires !a.Put?
    ensures Next(env, s, a).store.manifests == s.store.manifests
  {
  }

  /** No other act touches a stored manifest, and none ever removes one. */
  lemma {:induction false} OnlyManifestWritesChange(env: Env, mk: Key, inPlay: iset<Bytes>, s: State, a: Act, h: Hash)
    requires Inv(env, mk, inPlay, s) && h in s.store.manifests
    ensures var t := Next(env, s, a);
            h in t.store.manifests && (!WritesManifest(env, s, a, h) ==> t.store.manifests[h] == s.store.manifests[h])
  {
    if !a.Put? {
      OthersLeaveManifests(env, s, a);
    } else if a.id in s.jobs && s.jobs[a.id].stage.Writing? {
      assert JobInv(env, mk, inPlay, s.store, s.past.log, s.jobs[a.id]);
      PutManifests(env, s, a.id);
    }
  }

  /** The upload is not past its question to the store about this hash, and the store will answer it. */
  predicate Calm(env: Env, job: Job, h: Hash)
  {
    job.req.faults.readable && (job.stage.Writing? ==> env.hash(job.stage.file.data) != h)
  }

  predicate Quiet(env: Env, s: State, h: Hash)
  {
    forall id | id in s.jobs :: Calm(env, s.jobs[id], h)
  }

  predicate Answered(a: Act)
  {
    a.Open? ==> a.req.faults.readable
  }

  lemma {:induction false} CheckIsCalm(env: Env, mk: Key, inPlay: iset<Bytes>, s: State, job: Job, h: Hash)
    requires StoreInv(env, mk, inPlay, s.store) && Modern(s.store) && h in s.store.manifests
    requires job.stage.Loaded? && Calm(env, job, h)
    ensures Calm(env, job.(stage := Checked(env, s, job, job.stage.file)), h)
  {
    if env.hash(job.stage.file.data) == h {
      StoredIsRewrittenIff(env, mk, inPlay, s.store, job.entry, job.stage.file, job.req);
    }
  }

  /** One act changes at most one upload, and only a check begins the writing. */
  lemma OneJobChanges(env: Env, s: State, a: Act, id: nat, h: Hash)
    requires id in Next(env, s, a).jobs && !a.Check? && Answered(a) && Quiet(env, s, h)
    ensures Calm(env, Next(env, s, a).jobs[id], h)
  {
  }

  lemma {:induction false} QuietStays(env: Env, mk: Key, inPlay: iset<Bytes>, s: State, a: Act, h: Hash)
    requires Inv(env, mk, inPlay, s) && h in s.store.manifests && Quiet(env, s, h) && Answered(a)
    ensures Quiet(env, Next(env, s, a), h) && !WritesManifest(env, s, a, h)
  {
    if a.Check? {
      if a.id in s.jobs && s.jobs[a.id].stage.Loaded? {
        CheckIsCalm(env, mk, inPlay, s, s.jobs[a.id], h);
      }
    } else {
      forall id | id in Next(env, s, a).jobs
        ensures Calm(env, Next(env, s, a).jobs[id], h)
      {
        OneJobChanges(env, s, a, id, h);
      }
    }
  }

  /** While the store answers, a stored manifest stays as it is through every interleaving that begins with no upload
      of the same content past its question. */
  lemma {:induction false} AnsweredRunsKeepManifest(env: Env, mk: Key, inPlay: iset<Bytes>, s: State, acts: seq<Act>,
                                                    h: Hash)
    requires Contracts(env) && CollisionFree(env, inPlay) && Inv(env, mk, inPlay, s)
    requires History(env, mk, inPlay, s, acts)
    requires h in s.store.manifests && Quiet(env, s, h) && forall i | 0 <= i < |acts| :: Answered(acts[i])
    ensures var t := Run(env, s, acts);
            h in t.store.manifests && t.store.manifests[h] == s.store.manifests[h] && Quiet(env, t, h)
  {
    if acts != [] {
      var front, a := acts[..|acts| - 1], acts[|acts| - 1];
      AnsweredRunsKeepManifest(env, mk, inPlay, s, front, h);
      RunKeepsInv(env, mk, inPlay, s, front);
      QuietStays(env, mk, inPlay, Run(env, s, front), a, h);
      OnlyManifestWritesChange(env, mk, inPlay, Run(env, s, front), a, h);
    }
  }

  // ---- What stays retrievable ----

  /** What a stored hash downloads as, with the fleet's key, never changes again. */
  lemma {:induction false} StoredIsForever(env: Env, mk: Key, inPlay: iset<Bytes>, s: State, acts: seq<Act>, h: Hash)
    requires Contracts(env) && CollisionFree(env, inPlay) && Inv(env, mk, inPlay, s)
    requires History(env, mk, inPlay, s, acts)
    requires h in s.store.manifests
    ensures Downloaded(env, Run(env, s, acts).store, h, Some(mk)) == Downloaded(env, s.store, h, Some(mk))
  {
    RunKeepsInv(env, mk, inPlay, s, acts);
    SameHashSameDownload(env, mk, inPlay, s.store, Run(env, s, acts).store, h);
  }

  lemma {:induction false} SameHashSameDownload(env: Env, mk: Key, inPlay: iset<Bytes>, store: Store, store': Store,
                                                h: Hash)
    requires CollisionFree(env, inPlay) && StoreInv(env, mk, inPlay, store) && StoreInv(env, mk, inPlay, store')
    requires h in store.manifests && store.manifests[h].V2? && h in store'.manifests && store'.manifests[h].V2?
    ensures Downloaded(env, store', h, Some(mk)) == Downloaded(env, store, h, Some(mk))
    ensures store'.manifests[h].manifest.fileSize == store.manifests[h].manifest.fileSize
  {
    var m, m' := store.manifests[h].manifest, store'.manifests[h].manifest;
    assert Sound(env, mk, inPlay, store.chunks, h, m) && Sound(env, mk, inPlay, store'.chunks, h, m');
    assert Contents(env, Some(mk), store.chunks, m) == Contents(env, Some(mk), store'.chunks, m');
  }

  lemma {:induction false} KeylessDiffers(env: Env, mk: Key, inPlay: iset<Bytes>, store: Store, store': Store, h: Hash)
    requires Contracts(env) && CollisionFree(env, inPlay)
    requires StoreInv(env, mk, inPlay, store) && StoreInv(env, mk, inPlay, store')
    requires h in store.manifests && store.manifests[h].V2? && h in store'.manifests && store'.manifests[h].V2?
    ensures var m, m' := store.manifests[h].manifest, store'.manifests[h].manifest;
            Downloaded(env, store', h, None) != Downloaded(env, store, h, None) <==>
            m.fileSize != 0 && m.wrappedKey.None? != m'.wrappedKey.None?
  {
    SameHashSameDownload(env, mk, inPlay, store, store', h);
    ReadableInClearIff(env, mk, inPlay, store, h);
    ReadableInClearIff(env, mk, inPlay, store', h);
    KeylessError(env, mk, inPlay, store, h);
    KeylessError(env, mk, inPlay, store', h);
  }

  /** A device without the key can lose what it could read, and gain what it could not: exactly by a manifest written
      again for content that is not empty, with encryption instead of without or the other way round. */
  lemma {:induction false} KeylessChangesIff(env: Env, mk: Key, inPlay: iset<Bytes>, s: State, a: Act, h: Hash)
    requires Contracts(env) && CollisionFree(env, inPlay) && Inv(env, mk, inPlay, s) && Allowed(env, mk, inPlay, s, a)
    requires h in s.store.manifests
    ensures var t, m := Next(env, s, a), s.store.manifests[h].manifest;
            Downloaded(env, t.store, h, None) != Downloaded(env, s.store, h, None) <==>
              && m.fileSize != 0 && WritesManifest(env, s, a, h)
              && (s.jobs[a.id].req.master.Some? <==> m.wrappedKey.None?)
  {
    var t := Next(env, s, a);
    StepKeepsInv(env, mk, inPlay, s, a);
    OnlyManifestWritesChange(env, mk, inPlay, s, a, h);
    KeylessDiffers(env, mk, inPlay, s.store, t.store, h);
    if WritesManifest(env, s, a, h) {
      WrittenKey(env, s, a, h);
    }
  }

  lemma {:induction false} WrittenKey(env: Env, s: State, a: Act, h: Hash)
    requires WritesManifest(env, s, a, h)
    ensures var t := Next(env, s, a);
            && h in t.store.manifests && t.store.manifests[h].V2?
            && (t.store.manifests[h].manifest.wrappedKey.None? <==> s.jobs[a.id].req.master.None?)
  {
  }

  /** Why a download without a key fails: the content is empty, or it is encrypted. */
  lemma {:induction false} KeylessError(env: Env, mk: Key, inPlay: iset<Bytes>, store: Store, h: Hash)
    requires Contracts(env) && StoreInv(env, mk, inPlay, store) && h in store.manifests && store.manifests[h].V2?
    ensures var m, r := store.manifests[h].manifest, Downloaded(env, store, h, None);
            r.Err? ==> r == Err(if m.fileSize == 0 then EmptyManifest else NoMasterKey)
  {
    ReadableInClearIff(env, mk, inPlay, store, h);
    assert Sound(env, mk, inPlay, store.chunks, h, store.manifests[h].manifest);
  }

  /** Durable round trip: once an upload has written its manifest, every later download by a fleet member returns
      exactly the bytes it read, whatever other uploads, complete or stopped, were and are under way. */
  lemma {:induction false} UploadIsDurable(env: Env, mk: Key, inPlay: iset<Bytes>, s: State, acts: seq<Act>, id: nat)
    requires Contracts(env) && CollisionFree(env, inPlay) && Inv(env, mk, inPlay, s)
    requires History(env, mk, inPlay, s, acts)
    requires id in s.jobs && s.jobs[id].stage.Written?
    ensures var data, store := s.jobs[id].stage.file.data, Run(env, s, acts).store;
            Downloaded(env, store, env.hash(data), Some(mk)) == Ok(data) <==> data != []
  {
    RunKeepsInv(env, mk, inPlay, s, acts);
    assert JobInv(env, mk, inPlay, s.store, s.past.log, s.jobs[id]);
    var data := s.jobs[id].stage.file.data;
    SoundDownloads(env, mk, inPlay, Run(env, s, acts).store, env.hash(data), data);
  }

  // ---- The index ----

  /** Contents have 64-bit sizes. */
  ghost predicate Sized(inPlay: iset<Bytes>)
  {
    forall d | d in inPlay :: |d| < 0x1_0000_0000_0000_0000
  }

  lemma {:induction false} HexIsLineSafe(h: Hash)
    requires Hex(h)
    ensures StubText.LineSafe(h)
  {
    assert h[|h| - 1] in h;
  }

  lemma {:induction false} BackedDownloads(env: Env, mk: Key, inPlay: iset<Bytes>, store: Store, h: Hash, size: nat,
                                           chunks: nat)
    returns (data: Bytes)
    requires Contracts(env) && CollisionFree(env, inPlay) && Sized(inPlay) && StoreInv(env, mk, inPlay, store)
    requires Modern(store)
    requires Backed(env, inPlay, store, h, size, chunks)
    ensures Hex(h) && size < 0x1_0000_0000_0000_0000 && chunks < 0x1_0000_0000_0000_0000
    ensures data in inPlay && env.hash(data) == h
    ensures Downloaded(env, store, h, Some(mk)) == if data == [] then Err(EmptyManifest) else Ok(data)
  {
    data :| data in inPlay && env.hash(data) == h && chunks <= |data|;
    SoundDownloads(env, mk, inPlay, store, h, data);
    assert Sound(env, mk, inPlay, store.chunks, h, store.manifests[h].manifest);
  }

  /** In every reachable state every index entry parses, and names content that a download returns unless it is empty.
      Its size is that of the content exactly if the entry is not marked wrong. */
  lemma {:induction false} EveryIndexEntryDownloads(env: Env, mk: Key, inPlay: iset<Bytes>, s: State,
                                                    acts: seq<Act>, rel: Path)
    returns (e: StubText.IndexEntry, data: Bytes)
    requires Contracts(env) && CollisionFree(env, inPlay) && Sized(inPlay)
    requires Start(inPlay, s) && History(env, mk, inPlay, s, acts)
    requires rel in Run(env, s, acts).store.index
    ensures var t := Run(env, s, acts);
            && StubText.ParsedIndex(t.store.index[rel]) == Ok(e)
            && env.hash(data) == e.manifestHash
            && Downloaded(env, t.store, e.manifestHash, Some(mk)) ==
               (if data == [] then Err(EmptyManifest) else Ok(data))
            && (e.size == |data| <==> rel !in t.past.wrong)
  {
    ReachableInv(env, mk, inPlay, s, acts);
    var t := Run(env, s, acts);
    assert Texted(env, inPlay, t.store, t.store.index[rel], rel !in t.past.wrong);
    var u: UploadResult :|
      Backed(env, inPlay, t.store, u.hash, u.bytes, u.chunks) && t.store.index[rel] == IndexText(u)
      && (Honest(env, inPlay, u.hash, u.bytes) <==> rel !in t.past.wrong);
    data := BackedDownloads(env, mk, inPlay, t.store, u.hash, u.bytes, u.chunks);
    HonestIff(env, inPlay, data, u.bytes);
    HexIsLineSafe(u.hash);
    e := StubText.IndexEntry(u.hash, u.bytes, u.chunks);
    StubText.IndexRoundTrip(e);
  }

  /** No file changes its size between being read and being recorded, and no download is recorded with another size. */
  predicate Undisturbed(env: Env, s: State, a: Act)
  {
    match a
    case Record(id) =>
      id in s.jobs && s.jobs[id].stage.Written? && FileAt(s, s.jobs[id]).Some? ==>
        |FileAt(s, s.jobs[id]).value.data| == |s.jobs[id].stage.file.data|
    case Pull(_, h, f) =>
      var r := Downloaded(env, s.store, h, f.master);
      r.Ok? && f.examined.Some? ==> f.examined.value.size == |r.value|
    case _ => true
  }

  /** No size is wrong, and no upload is about to report one. */
  predicate AllRight(s: State)
  {
    s.past.skewed == {} && s.past.wrong == {} && forall id | id in s.jobs && s.jobs[id].stage.Reported? ::
      s.jobs[id].stage.right
  }

  lemma {:induction false} UndisturbedStep(env: Env, s: State, a: Act)
    requires AllRight(s) && Undisturbed(env, s, a)
    ensures AllRight(Next(env, s, a))
  {
  }

  /** So every size in the index is right as long as nothing is disturbed. */
  lemma {:induction false} UndisturbedSizesAreRight(env: Env, s: State, acts: seq<Act>)
    requires AllRight(s)
    requires forall k | 0 <= k < |acts| :: Undisturbed(env, Run(env, s, acts[..k]), acts[k])
    ensures AllRight(Run(env, s, acts))
  {
    if acts != [] {
      var front := acts[..|acts| - 1];
      forall k | 0 <= k < |front|
        ensures Undisturbed(env, Run(env, s, front[..k]), front[k])
      {
        assert front[..k] == acts[..k] && front[k] == acts[k];
      }
      UndisturbedSizesAreRight(env, s, front);
      UndisturbedStep(env, Run(env, s, front), acts[|acts| - 1]);
    }
  }

  /** A file edited while it is uploaded, however: the next push skips it, and the index names the old content under
      the new size, which is wrong exactly if the edit changed the size. */
  lemma {:induction false} EditedUploadIsMisindexed(env: Env, s: State, id: nat, next: nat, req: Request,
                                                    now: LocalFile)
    requires id in s.jobs && s.jobs[id].stage.Written? && next !in s.jobs && req.rel.Some?
    requires req.path == s.jobs[id].req.path && FileAt(s, s.jobs[id]) == Some(now)
    ensures var before := s.jobs[id].stage.file;
            var t := Run(env, s, [Record(id), Open(next, s.jobs[id].host, req), Publish(next)]);
            && req.rel.value in t.store.index
            && t.store.index[req.rel.value] ==
               StubText.PrintIndex(env.hash(before.data), |now.data|, |env.cut(req.path, before.data)|)
            && (req.rel.value in t.past.wrong <==> |now.data| != |before.data|)
  {
    var s1 := Next(env, s, Record(id));
    var s2 := Next(env, s1, Open(next, s.jobs[id].host, req));
    RunOfThree(env, s, Record(id), Open(next, s.jobs[id].host, req), Publish(next));
    assert s1 == AfterRecord(env, s, id) && s2 == AfterOpen(env, s1, next, s.jobs[id].host, req);
  }

  lemma {:induction false} RunThen(env: Env, s: State, acts: seq<Act>, a: Act)
    ensures Run(env, s, acts + [a]) == Next(env, Run(env, s, acts), a)
  {
    assert (acts + [a])[..|acts|] == acts;
  }

  lemma {:induction false} RunOfThree(env: Env, s: State, a: Act, b: Act, c: Act)
    ensures Run(env, s, [a, b, c]) == Next(env, Next(env, Next(env, s, a), b), c)
  {
    RunThen(env, s, [], a);
    RunThen(env, s, [a], b);
    RunThen(env, s, [a, b], c);
    assert [] + [a] == [a] && [a] + [b] == [a, b] && [a, b] + [c] == [a, b, c];
  }

  // ---- What users and stopped uploads do ----

  /** Editing and deleting a file change that file of that host and nothing else, whatever is under way. */
  lemma {:induction false} UserActsAreExact(env: Env, s: State, a: Act)
    requires (a.Edit? || a.Delete?) && a.host in s.hosts
    ensures var t := Next(env, s, a);
            && t == s.(hosts := s.hosts[a.host := t.hosts[a.host]])
            && t.hosts[a.host].cache == s.hosts[a.host].cache
            && (forall p | p != a.path :: p in t.hosts[a.host].files <==> p in s.hosts[a.host].files)
            && (forall p | p != a.path && p in s.hosts[a.host].files ::
                  t.hosts[a.host].files[p] == s.hosts[a.host].files[p])
            && (a.path in t.hosts[a.host].files <==> a.Edit?)
            && (a.Edit? ==> t.hosts[a.host].files[a.path] == a.file)
  {
  }

  /** An upload reads the file as it is at that moment, not as it was when the upload began. */
  lemma {:induction false} LoadReadsFileAsItIs(env: Env, s: State, id: nat, edit: Act)
    requires id in s.jobs && s.jobs[id].stage.Opened?
    requires edit.Edit? && edit.host == s.jobs[id].host && edit.host in s.hosts && edit.path == s.jobs[id].req.path
    ensures var t := Next(env, Next(env, s, edit), Load(id));
            id in t.jobs && t.jobs[id] == s.jobs[id].(stage := Loaded(edit.file))
  {
  }

  /** A pull changes nothing but the pulling host, and that as a download does. */
  lemma {:induction false} PullIsFetch(env: Env, s: State, name: HostName, h: Hash, f: Fetch)
    requires name in s.hosts
    ensures var t := Next(env, s, Pull(name, h, f));
            && t.store == s.store && t.jobs == s.jobs && t.past.log == s.past.log && t.past.wrong == s.past.wrong
            && t.hosts == s.hosts[name := Fetched(env, s.store, s.hosts[name], h, f)]
  {
  }

  /** A stopped upload is gone, and everything it has written stays. */
  lemma {:induction false} StopOnlyForgets(env: Env, s: State, id: nat)
    ensures var t := Next(env, s, Stop(id));
            && t.store == s.store && t.hosts == s.hosts && t.past == s.past && id !in t.jobs
            && forall x | x != id :: (x in t.jobs <==> x in s.jobs) && (x in s.jobs ==> t.jobs[x] == s.jobs[x])
  {
  }

  // ---- One upload by itself ----

  function Puts(id: nat, k: nat): seq<Act>
  {
    if k == 0 then [] else Puts(id, k - 1) + [Put(id)]
  }

  lemma {:induction false} RunAppend(env: Env, s: State, a: seq<Act>, b: seq<Act>)
    ensures Run(env, s, a + b) == Run(env, Run(env, s, a), b)
  {
    if b == [] {
      assert a + b == a;
    } else {
      var front, x := b[..|b| - 1], b[|b| - 1];
      RunAppend(env, s, a, front);
      assert a + b == (a + front) + [x] && b == front + [x];
      RunThen(env, s, a + front, x);
      RunThen(env, Run(env, s, a), front, x);
    }
  }

  /** Where an upload stands that began with this stage and has written `k` times. */
  function StageAfter(env: Env, req: Request, stage: Stage, k: nat): Stage
    requires stage.Writing? && stage.done == 0
  {
    if k <= |env.cut(req.path, stage.file.data)| then stage.(done := k)
      else Written(stage.file, stage.result, stage.clock)
  }

  /** Writes that nothing comes between are those of the sequential upload. */
  lemma {:induction false} PutsAreUpload(env: Env, s: State, id: nat, k: nat)
    requires id in s.jobs && s.jobs[id].stage.Writing? && s.jobs[id].stage.done == 0
    requires k <= Steps(env, s.jobs[id].stage.file, s.jobs[id].req)
    ensures var job, t := s.jobs[id], Run(env, s, Puts(id, k));
            && t.store == StoreAfter(env, s.store, job.stage.file, job.req, job.stage.clock, k)
            && t.hosts == s.hosts && t.jobs == s.jobs[id := job.(stage := StageAfter(env, job.req, job.stage, k))]
            && t.past.skewed == s.past.skewed && t.past.wrong == s.past.wrong
  {
    if k == 0 {
      assert s.jobs[id := s.jobs[id]] == s.jobs;
    } else {
      PutsAreUpload(env, s, id, k - 1);
      RunThen(env, s, Puts(id, k - 1), Put(id));
      NextPut(env, s, Run(env, s, Puts(id, k - 1)), id, k);
    }
  }

  lemma {:induction false} NextWrite(env: Env, store: Store, file: LocalFile, req: Request, clock: Clock, k: nat)
    requires 0 < k <= Steps(env, file, req)
    ensures var cs, now := env.cut(req.path, file.data), StoreAfter(env, store, file, req, clock, k - 1);
            StoreAfter(env, store, file, req, clock, k) ==
              if k <= |cs| then now.(chunks := PutChunk(env, now.chunks, Body(env, req, file.data, cs, k - 1)))
              else now.(manifests := now.manifests[env.hash(file.data) :=
                          V2(NewManifest(env, req, file.data, cs, clock))])
  {
  }

  lemma SetTwice<V>(m: map<nat, V>, id: nat, x: V, y: V)
    ensures m[id := x][id := y] == m[id := y]
  {
  }

  lemma {:induction false} NextPut(env: Env, s: State, t: State, id: nat, k: nat)
    requires id in s.jobs && s.jobs[id].stage.Writing? && s.jobs[id].stage.done == 0
    requires 0 < k <= Steps(env, s.jobs[id].stage.file, s.jobs[id].req)
    requires t.store == StoreAfter(env, s.store, s.jobs[id].stage.file, s.jobs[id].req, s.jobs[id].stage.clock, k - 1)
    requires t.jobs == s.jobs[id := s.jobs[id].(stage := StageAfter(env, s.jobs[id].req, s.jobs[id].stage, k - 1))]
    ensures var job, u := s.jobs[id], Next(env, t, Put(id));
            && u.store == StoreAfter(env, s.store, job.stage.file, job.req, job.stage.clock, k)
            && u.hosts == t.hosts && u.jobs == s.jobs[id := job.(stage := StageAfter(env, job.req, job.stage, k))]
            && u.past.skewed == t.past.skewed && u.past.wrong == t.past.wrong
  {
    var job := s.jobs[id];
    var stage := job.stage;
    NextWrite(env, s.store, stage.file, job.req, stage.clock, k);
    SetTwice(s.jobs, id, job.(stage := StageAfter(env, job.req, stage, k - 1)),
             job.(stage := StageAfter(env, job.req, stage, k)));
  }

  /** Two devices upload the same new content.  Both ask before either writes, the store answers both, and the second
      manifest replaces the first with a clock that does not cover it. */
  lemma {:induction false} OverlapForgetsClock(env: Env, s: State, file: LocalFile)
    requires 1 in s.jobs && 2 in s.jobs && s.jobs[1].stage == Loaded(file) && s.jobs[2].stage == Loaded(file)
    requires s.jobs[1].entry.None? && s.jobs[1].req.device == "first" && s.jobs[1].req.faults.readable
    requires s.jobs[2].entry.None? && s.jobs[2].req.device == "second" && s.jobs[2].req.faults.readable
    requires env.hash(file.data) !in s.store.manifests
    ensures var h, asked := env.hash(file.data), [Check(1), Check(2)];
            var mid := Run(env, s, asked + Puts(1, Steps(env, file, s.jobs[1].req)));
            var end := Run(env, mid, Puts(2, Steps(env, file, s.jobs[2].req)));
            && h in mid.store.manifests && mid.store.manifests[h].V2?
            && h in end.store.manifests && end.store.manifests[h].V2?
            && mid.store.manifests[h].manifest.clock == map["first" := 1]
            && end.store.manifests[h].manifest.clock == map["second" := 1]
            && !Leq(mid.store.manifests[h].manifest.clock, end.store.manifests[h].manifest.clock)
  {
    var t := Run(env, s, [Check(1), Check(2)]);
    BothGoOn(env, s, file);
    RunAppend(env, s, [Check(1), Check(2)], Puts(1, Steps(env, file, s.jobs[1].req)));
    PutsAreUpload(env, t, 1, Steps(env, file, s.jobs[1].req));
    var mid := Run(env, t, Puts(1, Steps(env, file, s.jobs[1].req)));
    PutsAreUpload(env, mid, 2, Steps(env, file, s.jobs[2].req));
    assert Get(map["second" := 1], "first") < Get(map["first" := 1], "first");
  }

  lemma {:induction false} BothGoOn(env: Env, s: State, file: LocalFile)
    requires 1 in s.jobs && 2 in s.jobs && s.jobs[1].stage == Loaded(file) && s.jobs[2].stage == Loaded(file)
    requires s.jobs[1].entry.None? && s.jobs[1].req.device == "first"
    requires s.jobs[2].entry.None? && s.jobs[2].req.device == "second" && env.hash(file.data) !in s.store.manifests
    ensures var t := Run(env, s, [Check(1), Check(2)]);
            && t.store == s.store && t.jobs.Keys == s.jobs.Keys
            && t.jobs[1].req == s.jobs[1].req && t.jobs[2].req == s.jobs[2].req
            && t.jobs[1].stage.Writing? && t.jobs[1].stage.file == file && t.jobs[1].stage.done == 0
            && t.jobs[2].stage.Writing? && t.jobs[2].stage.file == file && t.jobs[2].stage.done == 0
            && t.jobs[1].stage.clock == map["first" := 1] && t.jobs[2].stage.clock == map["second" := 1]
  {
    RunThen(env, s, [], Check(1));
    RunThen(env, s, [Check(1)], Check(2));
    assert [] + [Check(1)] == [Check(1)] && [Check(1)] + [Check(2)] == [Check(1), Check(2)];
    assert Ticked(map[], "first") == map["first" := 1] && Ticked(map[], "second") == map["second" := 1];
  }

  // ---- An uninterrupted upload is a push ----

  /** All steps of one upload in a row; those that do not apply change nothing. */
  function Whole(env: Env, id: nat, name: HostName, req: Request, file: LocalFile): seq<Act>
  {
    [Open(id, name, req), Load(id), Check(id)] + (Puts(id, Steps(env, file, req)) + [Record(id), Publish(id)])
  }

  lemma {:induction false} IdlePuts(env: Env, s: State, id: nat, k: nat)
    requires id in s.jobs && !s.jobs[id].stage.Writing?
    ensures Run(env, s, Puts(id, k)) == s
  {
    if 0 < k {
      IdlePuts(env, s, id, k - 1);
      RunThen(env, s, Puts(id, k - 1), Put(id));
    }
  }

  /** The stage after the first three steps. */
  function Asked(env: Env, s: State, name: HostName, req: Request, file: LocalFile): Stage
    requires name in s.hosts
  {
    var entry := Entry(s.hosts[name].cache, req.path);
    if entry.None? || NeedsSync(env, entry, file) then Checked(env, s, Job(name, req, entry, Loaded(file)), file)
    else Reported(UploadResult(entry.value.blake3, entry.value.chunkCount, entry.value.size, true, Some(UpToDate)),
                  (name, req.path) !in s.past.skewed)
  }

  lemma {:induction false} LoadNext(env: Env, s: State, id: nat, job: Job, file: LocalFile)
    requires FileAt(s, job) == Some(file) && id !in s.jobs
    ensures Next(env, s.(jobs := s.jobs[id := job]), Load(id)) ==
            s.(jobs := s.jobs[id := if job.stage.Opened? then job.(stage := Loaded(file)) else job])
  {
    var t := s.(jobs := s.jobs[id := job]);
    assert FileAt(t, job) == Some(file);
  }

  lemma {:induction false} CheckNext(env: Env, s: State, id: nat, job: Job)
    ensures Next(env, s.(jobs := s.jobs[id := job]), Check(id)) ==
            s.(jobs := s.jobs[id := if job.stage.Loaded?
              then job.(stage := Checked(env, s, job, job.stage.file)) else job])
  {
    var t := s.(jobs := s.jobs[id := job]);
    assert job.stage.Loaded? ==> Checked(env, t, job, job.stage.file) == Checked(env, s, job, job.stage.file);
  }

  lemma {:induction false} FirstThree(env: Env, s: State, id: nat, name: HostName, req: Request)
    requires name in s.hosts && req.path in s.hosts[name].files && id !in s.jobs
    ensures var entry, file := Entry(s.hosts[name].cache, req.path), s.hosts[name].files[req.path];
            Run(env, s, [Open(id, name, req), Load(id), Check(id)]) ==
            s.(jobs := s.jobs[id := Job(name, req, entry, Asked(env, s, name, req, file))])
  {
    RunOfThree(env, s, Open(id, name, req), Load(id), Check(id));
    var file, job := s.hosts[name].files[req.path], AfterOpen(env, s, id, name, req).jobs[id];
    LoadNext(env, s, id, job, file);
    CheckNext(env, s, id, if job.stage.Opened? then job.(stage := Loaded(file)) else job);
  }

  lemma {:induction false} LastTwo(env: Env, s: State, id: nat)
    ensures Run(env, s, [Record(id), Publish(id)]) == Next(env, Next(env, s, Record(id)), Publish(id))
  {
    RunThen(env, s, [], Record(id));
    RunThen(env, s, [Record(id)], Publish(id));
    assert [] + [Record(id)] == [Record(id)] && [Record(id)] + [Publish(id)] == [Record(id), Publish(id)];
  }

  /** Recording and publishing what an upload has written. */
  lemma {:induction false} RecordAndPublish(env: Env, s: State, id: nat, file: LocalFile)
    requires id in s.jobs && s.jobs[id].stage.Written? && FileAt(s, s.jobs[id]) == Some(file)
    ensures var job, t := s.jobs[id], Run(env, s, [Record(id), Publish(id)]);
            && t.store == Indexed(s.store, job.req.rel, IndexText(job.stage.result)) && t.jobs == s.jobs - {id}
            && t.hosts == s.hosts[job.host := s.hosts[job.host].(cache := s.hosts[job.host].cache[job.req.path :=
                                    StateFor(env, job.stage.file, StatOf(file), job.req, job.stage.clock)])]
  {
    LastTwo(env, s, id);
    var s1 := Next(env, s, Record(id));
    assert s1 == AfterRecord(env, s, id);
    assert s1.jobs - {id} == s.jobs - {id};
  }

  lemma {:induction false} PublishOnly(env: Env, s: State, id: nat)
    requires id in s.jobs && s.jobs[id].stage.Reported?
    ensures var job, t := s.jobs[id], Run(env, s, [Record(id), Publish(id)]);
            && t.store == Indexed(s.store, job.req.rel, IndexText(job.stage.result)) && t.jobs == s.jobs - {id}
            && t.hosts == s.hosts
  {
    LastTwo(env, s, id);
  }

  /** What is left of an upload after its question to the store, when nothing comes between. */
  lemma {:induction false} RestOfUpload(env: Env, s: State, id: nat, file: LocalFile)
    requires id in s.jobs && FileAt(s, s.jobs[id]) == Some(file)
    requires s.jobs[id].stage.Writing? ==> s.jobs[id].stage.file == file && s.jobs[id].stage.done == 0
    requires s.jobs[id].stage.Writing? || s.jobs[id].stage.Written? || s.jobs[id].stage.Reported?
    ensures var job, stage, req := s.jobs[id], s.jobs[id].stage, s.jobs[id].req;
            var t := Run(env, s, Puts(id, Steps(env, file, req)) + [Record(id), Publish(id)]);
            var store := if stage.Writing?
              then StoreAfter(env, s.store, file, req, stage.clock, Steps(env, file, req)) else s.store;
            && t.store == Indexed(store, req.rel, IndexText(stage.result)) && t.jobs == s.jobs - {id}
            && t.hosts == if stage.Reported? then s.hosts
                          else s.hosts[job.host := s.hosts[job.host].(cache := s.hosts[job.host].cache[req.path :=
                                         StateFor(env, stage.file, StatOf(file), req, stage.clock)])]
  {
    var k := Steps(env, file, s.jobs[id].req);
    RunAppend(env, s, Puts(id, k), [Record(id), Publish(id)]);
    var mid := Run(env, s, Puts(id, k));
    if s.jobs[id].stage.Writing? {
      PutsAreUpload(env, s, id, k);
      RecordAndPublish(env, mid, id, file);
      assert mid.jobs - {id} == s.jobs - {id};
    } else {
      IdlePuts(env, s, id, k);
      if s.jobs[id].stage.Written? {
        RecordAndPublish(env, s, id, file);
      } else {
        PublishOnly(env, s, id);
      }
    }
  }

  /** An upload that nothing comes between is the push of that file: the same store, the same cache, and nothing
      else changed. */
  lemma {:induction false} UninterruptedIsPush(env: Env, s: State, id: nat, name: HostName, req: Request)
    requires name in s.hosts && req.path in s.hosts[name].files && id !in s.jobs
    requires Clear(env, s.hosts[name].files[req.path], req)
    ensures var host, file := s.hosts[name], s.hosts[name].files[req.path];
            var t := Run(env, s, Whole(env, id, name, req, file));
            var side := PushedFile(env, file, Side(s.store, host.cache), req);
            t.store == side.store && t.hosts == s.hosts[name := host.(cache := side.cache)] && t.jobs == s.jobs
  {
    var host, file := s.hosts[name], s.hosts[name].files[req.path];
    FirstThree(env, s, id, name, req);
    RunAppend(env, s, [Open(id, name, req), Load(id), Check(id)], Puts(id, Steps(env, file, req)) + [Record(id),
      Publish(id)]);
    var c := Run(env, s, [Open(id, name, req), Load(id), Check(id)]);
    assert FileAt(c, c.jobs[id]) == Some(file);
    RestOfUpload(env, c, id, file);
    assert c.jobs - {id} == s.jobs;
    assert s.hosts[name := host] == s.hosts;
  }

  // ---- After a download ----

  /** A recorded download leaves the file in sync: the next upload of it is skipped on the cache's word alone,
      whatever the store holds by then, and the entry's clock covers both versions. */
  lemma {:induction false} DownloadThenUploadSkips(env: Env, store: Store, host: Host, h: Hash, f: Fetch,
                                                   later: Store, req: Request)
    requires Downloaded(env, store, h, f.master).Ok? && f.writable && Recording(f) && req.path == f.path
    requires f.examined == Some(Stat(|Downloaded(env, store, h, f.master).value|, f.mtime))
    ensures var host', m := Fetched(env, store, host, h, f), FromBytes(store.manifests[h]).value;
            && req.path in host'.files && req.path in host'.cache
            && host'.files[req.path].data == Downloaded(env, store, h, f.master).value
            && Decide(env, later, Entry(host'.cache, req.path), host'.files[req.path], req) == Unchanged
            && Leq(m.clock, host'.cache[req.path].clock)
            && Leq(ClockIn(Entry(host.cache, req.path)), host'.cache[req.path].clock)
  {
    var m := FromBytes(store.manifests[h]).value;
    MergeIsLub(ClockIn(Entry(host.cache, f.path)), m.clock, m.clock);
  }
}
