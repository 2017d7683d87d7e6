/** What every step of any interleaving keeps: a sound store, caches and an index that name stored manifests, and
    for every upload under way what its next step relies on. */
module WorldInvariant {
  import opened Basics
  import opened Conflicts
  import opened ObjectStore
  import opened Upload
  import opened UploadTheorems
  import opened PushTheorems
  import opened Engine
  import opened World

  /** The size is that of the content with this hash. */
  ghost predicate Honest(env: Env, inPlay: iset<Bytes>, h: Hash, size: nat)
  {
    exists data :: data in inPlay && env.hash(data) == h && |data| == size
  }

  ghost predicate HostInv(env: Env, inPlay: iset<Bytes>, store: Store, host: Host)
  {
    CacheNames(env, inPlay, store, host.cache) && FilesInPlay(inPlay, host)
  }

  /** The entries marked as skewed are exactly those whose size is not that of the content they name. */
  ghost predicate SkewInv(env: Env, inPlay: iset<Bytes>, name: HostName, cache: Cache, skewed: set<(HostName, Path)>)
  {
    forall p | p in cache :: Honest(env, inPlay, cache[p].blake3, cache[p].size) <==> (name, p) !in skewed
  }

  ghost predicate HostsInv(env: Env, inPlay: iset<Bytes>, store: Store, hosts: map<HostName, Host>,
                           skewed: set<(HostName, Path)>)
  {
    && (forall n | n in hosts :: HostInv(env, inPlay, store, hosts[n]))
    && (forall n | n in hosts :: SkewInv(env, inPlay, n, hosts[n].cache, skewed))
  }

  /** The text is the index text of a stored manifest, with the right size or not. */
  ghost predicate Texted(env: Env, inPlay: iset<Bytes>, store: Store, text: string, right: bool)
  {
    exists u: UploadResult ::
      Backed(env, inPlay, store, u.hash, u.bytes, u.chunks) && text == IndexText(u)
      && (Honest(env, inPlay, u.hash, u.bytes) <==> right)
  }

  ghost predicate IndexInv(env: Env, inPlay: iset<Bytes>, store: Store, wrong: set<Path>)
  {
    forall r | r in store.index :: Texted(env, inPlay, store, store.index[r], r !in wrong)
  }

  predicate Describes(env: Env, u: UploadResult, file: LocalFile, req: Request)
  {
    u.hash == env.hash(file.data) && u.bytes == |file.data| && u.chunks == |env.cut(req.path, file.data)|
  }

  /** A manifest is stored under the hash of an upload that goes on exactly if there was one when it asked, without
      getting an answer, or one has been written since. */
  predicate AskedRight(env: Env, store: Store, log: seq<Hash>, req: Request, stage: Stage)
    requires stage.Writing? && stage.since <= |log|
  {
    var h := env.hash(stage.file.data);
    && (h in store.manifests <==> stage.seen || h in log[stage.since..])
    && (stage.seen ==> !req.faults.readable)
  }

  ghost predicate StageInv(env: Env, inPlay: iset<Bytes>, store: Store, log: seq<Hash>, req: Request, stage: Stage)
  {
    match stage
    case Opened => true
    case Loaded(file) => InPlay(env, inPlay, file, req)
    case Writing(file, result, _, done, since, seen) =>
      var cs := env.cut(req.path, file.data);
      && InPlay(env, inPlay, file, req) && Describes(env, result, file, req)
      && done <= |cs| && BodiesStored(env, store.chunks, req, file.data, cs, done)
      && since <= |log| && AskedRight(env, store, log, req, stage)
    case Written(file, result, _) =>
      file.data in inPlay && Describes(env, result, file, req) && result.hash in store.manifests
    case Reported(result, right) =>
      && Backed(env, inPlay, store, result.hash, result.bytes, result.chunks)
      && (Honest(env, inPlay, result.hash, result.bytes) <==> right)
  }

  ghost predicate JobInv(env: Env, mk: Key, inPlay: iset<Bytes>, store: Store, log: seq<Hash>, job: Job)
  {
    FleetKey(mk, job.req) && StageInv(env, inPlay, store, log, job.req, job.stage)
  }

  ghost predicate Inv(env: Env, mk: Key, inPlay: iset<Bytes>, s: State)
  {
    && StoreInv(env, mk, inPlay, s.store) && Modern(s.store)
    && IndexInv(env, inPlay, s.store, s.past.wrong)
    && HostsInv(env, inPlay, s.store, s.hosts, s.past.skewed)
    && (forall id | id in s.jobs :: JobInv(env, mk, inPlay, s.store, s.past.log, s.jobs[id]))
  }

  // ---- What a growing store keeps ----

  /** Nothing stored is lost, and at most one hash has gained a manifest or had it replaced, as the log records. */
  ghost predicate Grows(store: Store, log: seq<Hash>, store': Store, log': seq<Hash>)
  {
    && Extends(store, store')
    && ((log' == log && store'.manifests == store.manifests)
        || exists h :: log' == log + [h] && store'.manifests.Keys == store.manifests.Keys + {h})
  }

  lemma {:induction false} AskedSurvives(env: Env, store: Store, log: seq<Hash>, store': Store, log': seq<Hash>,
                                         req: Request, stage: Stage)
    requires Grows(store, log, store', log') && stage.Writing? && stage.since <= |log|
    requires AskedRight(env, store, log, req, stage)
    ensures AskedRight(env, store', log', req, stage)
  {
    if log' != log {
      var h :| log' == log + [h] && store'.manifests.Keys == store.manifests.Keys + {h};
      assert log'[stage.since..] == log[stage.since..] + [h];
    }
  }

  lemma {:induction false} StageSurvives(env: Env, inPlay: iset<Bytes>, store: Store, log: seq<Hash>, store': Store,
                                         log': seq<Hash>, req: Request, stage: Stage)
    requires Grows(store, log, store', log') && StageInv(env, inPlay, store, log, req, stage)
    ensures StageInv(env, inPlay, store', log', req, stage)
  {
    if stage.Writing? {
      AskedSurvives(env, store, log, store', log', req, stage);
      assert |log| <= |log'|;
    }
  }

  lemma TextSurvives(env: Env, inPlay: iset<Bytes>, store: Store, store': Store, text: string, right: bool)
    requires Extends(store, store') && Texted(env, inPlay, store, text, right)
    ensures Texted(env, inPlay, store', text, right)
  {
    var u: UploadResult :|
      Backed(env, inPlay, store, u.hash, u.bytes, u.chunks) && text == IndexText(u)
      && (Honest(env, inPlay, u.hash, u.bytes) <==> right);
    assert Backed(env, inPlay, store', u.hash, u.bytes, u.chunks);
  }

  lemma HostSurvives(env: Env, inPlay: iset<Bytes>, store: Store, store': Store, host: Host)
    requires HostInv(env, inPlay, store, host) && Extends(store, store')
    ensures HostInv(env, inPlay, store', host)
  {
  }

  /** A step that changes the store by one write of one upload keeps everything about the others. */
  lemma {:induction false} RestSurvives(env: Env, mk: Key, inPlay: iset<Bytes>, s: State, t: State, id: nat)
    requires Inv(env, mk, inPlay, s) && id in s.jobs && id in t.jobs
    requires t.hosts == s.hosts && t.jobs == s.jobs[id := t.jobs[id]]
    requires t.past == s.past.(log := t.past.log) && t.store.index == s.store.index
    requires Grows(s.store, s.past.log, t.store, t.past.log)
    requires StoreInv(env, mk, inPlay, t.store) && Modern(t.store)
    requires JobInv(env, mk, inPlay, t.store, t.past.log, t.jobs[id])
    ensures Inv(env, mk, inPlay, t)
  {
    forall r | r in t.store.index
      ensures Texted(env, inPlay, t.store, t.store.index[r], r !in t.past.wrong)
    {
      TextSurvives(env, inPlay, s.store, t.store, s.store.index[r], r !in s.past.wrong);
    }
    forall n | n in t.hosts
      ensures HostInv(env, inPlay, t.store, t.hosts[n])
    {
      HostSurvives(env, inPlay, s.store, t.store, s.hosts[n]);
    }
    forall i | i in t.jobs && i != id
      ensures JobInv(env, mk, inPlay, t.store, t.past.log, t.jobs[i])
    {
      StageSurvives(env, inPlay, s.store, s.past.log, t.store, t.past.log, s.jobs[i].req, s.jobs[i].stage);
    }
  }

  // ---- Writing ----

  lemma {:induction false} PutChunkKeepsInv(env: Env, mk: Key, inPlay: iset<Bytes>, s: State, id: nat)
    requires CollisionFree(env, inPlay) && Inv(env, mk, inPlay, s) && id in s.jobs && s.jobs[id].stage.Writing?
    requires s.jobs[id].stage.done < |env.cut(s.jobs[id].req.path, s.jobs[id].stage.file.data)|
    ensures Inv(env, mk, inPlay, AfterPut(env, s, id)) && Extends(s.store, AfterPut(env, s, id).store)
  {
    var t, req, stage := AfterPut(env, s, id), s.jobs[id].req, s.jobs[id].stage;
    assert JobInv(env, mk, inPlay, s.store, s.past.log, s.jobs[id]);
    var data, cs := stage.file.data, env.cut(req.path, stage.file.data);
    PutKeepsStore(env, mk, inPlay, s.store, Body(env, req, data, cs, stage.done));
    StageSurvives(env, inPlay, s.store, s.past.log, t.store, t.past.log, req, stage);
    OneMoreBody(env, t.store.chunks, req, data, cs, stage.done);
    RestSurvives(env, mk, inPlay, s, t, id);
  }

  lemma OneMoreBody(env: Env, chunks: map<Hash, Bytes>, req: Request, data: Bytes, cs: seq<Chunk>, n: nat)
    requires n < |cs| && BodiesStored(env, chunks, req, data, cs, n)
    requires var b := Body(env, req, data, cs, n); env.hash(b) in chunks && chunks[env.hash(b)] == b
    ensures BodiesStored(env, chunks, req, data, cs, n + 1)
  {
  }

  lemma {:induction false} PutManifestKeepsInv(env: Env, mk: Key, inPlay: iset<Bytes>, s: State, id: nat)
    requires Contracts(env) && Inv(env, mk, inPlay, s) && id in s.jobs && s.jobs[id].stage.Writing?
    requires s.jobs[id].stage.done == |env.cut(s.jobs[id].req.path, s.jobs[id].stage.file.data)|
    ensures Inv(env, mk, inPlay, AfterPut(env, s, id)) && Extends(s.store, AfterPut(env, s, id).store)
  {
    var t, req, stage := AfterPut(env, s, id), s.jobs[id].req, s.jobs[id].stage;
    assert JobInv(env, mk, inPlay, s.store, s.past.log, s.jobs[id]);
    ManifestKeepsStore(env, mk, inPlay, s.store, stage.file, req, stage.clock);
    var h := env.hash(stage.file.data);
    assert t.past.log == s.past.log + [h] && t.store.manifests.Keys == s.store.manifests.Keys + {h};
    RestSurvives(env, mk, inPlay, s, t, id);
  }

  lemma {:induction false} PutKeepsInv(env: Env, mk: Key, inPlay: iset<Bytes>, s: State, id: nat)
    requires Contracts(env) && CollisionFree(env, inPlay) && Inv(env, mk, inPlay, s)
    ensures Inv(env, mk, inPlay, Next(env, s, Put(id))) && Extends(s.store, Next(env, s, Put(id)).store)
  {
    if id in s.jobs && s.jobs[id].stage.Writing? {
      assert JobInv(env, mk, inPlay, s.store, s.past.log, s.jobs[id]);
      if s.jobs[id].stage.done < |env.cut(s.jobs[id].req.path, s.jobs[id].stage.file.data)| {
        PutChunkKeepsInv(env, mk, inPlay, s, id);
      } else {
        PutManifestKeepsInv(env, mk, inPlay, s, id);
      }
    }
  }

  // ---- The other steps of an upload ----

  lemma {:induction false} JobKeepsInv(env: Env, mk: Key, inPlay: iset<Bytes>, s: State, id: nat, job: Job)
    requires Inv(env, mk, inPlay, s) && JobInv(env, mk, inPlay, s.store, s.past.log, job)
    ensures Inv(env, mk, inPlay, s.(jobs := s.jobs[id := job]))
  {
  }

  lemma {:induction false} OpenKeepsInv(env: Env, mk: Key, inPlay: iset<Bytes>, s: State, id: nat, name: HostName,
                                        req: Request)
    requires Inv(env, mk, inPlay, s) && FleetKey(mk, req)
    ensures Inv(env, mk, inPlay, Next(env, s, Open(id, name, req)))
  {
    if id !in s.jobs && name in s.hosts && req.path in s.hosts[name].files {
      assert HostInv(env, inPlay, s.store, s.hosts[name]);
      assert SkewInv(env, inPlay, name, s.hosts[name].cache, s.past.skewed);
      JobKeepsInv(env, mk, inPlay, s, id, AfterOpen(env, s, id, name, req).jobs[id]);
    }
  }

  lemma {:induction false} ResultIsBacked(env: Env, inPlay: iset<Bytes>, store: Store, file: LocalFile, req: Request,
                                          u: UploadResult)
    requires Contracts(env) && file.data in inPlay && Describes(env, u, file, req) && u.hash in store.manifests
    ensures Backed(env, inPlay, store, u.hash, u.bytes, u.chunks) && Honest(env, inPlay, u.hash, u.bytes)
  {
    assert |env.cut(req.path, file.data)| <= |file.data|;
  }

  lemma {:induction false} CheckedStage(env: Env, mk: Key, inPlay: iset<Bytes>, s: State, job: Job, file: LocalFile)
    requires Contracts(env) && StoreInv(env, mk, inPlay, s.store) && Modern(s.store)
    requires InPlay(env, inPlay, file, job.req)
    requires StageInv(env, inPlay, s.store, s.past.log, job.req, job.stage)
    ensures StageInv(env, inPlay, s.store, s.past.log, job.req, Checked(env, s, job, file))
  {
    var h := env.hash(file.data);
    if h in s.store.manifests {
      StoredIsRewrittenIff(env, mk, inPlay, s.store, job.entry, file, job.req);
    }
    var stage := Checked(env, s, job, file);
    if stage.Reported? {
      ResultIsBacked(env, inPlay, s.store, file, job.req, stage.result);
    }
    assert s.past.log[|s.past.log|..] == [];
  }

  lemma {:induction false} CheckKeepsInv(env: Env, mk: Key, inPlay: iset<Bytes>, s: State, id: nat)
    requires Contracts(env) && Inv(env, mk, inPlay, s)
    ensures Inv(env, mk, inPlay, Next(env, s, Check(id)))
  {
    if id in s.jobs && s.jobs[id].stage.Loaded? {
      var job := s.jobs[id];
      assert JobInv(env, mk, inPlay, s.store, s.past.log, job);
      CheckedStage(env, mk, inPlay, s, job, job.stage.file);
      JobKeepsInv(env, mk, inPlay, s, id, Next(env, s, Check(id)).jobs[id]);
    }
  }

  lemma {:induction false} LoadKeepsInv(env: Env, mk: Key, inPlay: iset<Bytes>, s: State, id: nat)
    requires Inv(env, mk, inPlay, s) && Allowed(env, mk, inPlay, s, Load(id))
    ensures Inv(env, mk, inPlay, Next(env, s, Load(id)))
  {
    if id in s.jobs && s.jobs[id].stage.Opened? && FileAt(s, s.jobs[id]).Some? {
      assert JobInv(env, mk, inPlay, s.store, s.past.log, s.jobs[id]);
      JobKeepsInv(env, mk, inPlay, s, id, Next(env, s, Load(id)).jobs[id]);
    }
  }

  // ---- Recording ----

  /** A size is honest for a hash exactly when it is the size of that content. */
  lemma {:induction false} HonestIff(env: Env, inPlay: iset<Bytes>, data: Bytes, size: nat)
    requires CollisionFree(env, inPlay) && data in inPlay
    ensures Honest(env, inPlay, env.hash(data), size) <==> size == |data|
  {
  }

  lemma {:induction false} EntryKeepsSkew(env: Env, inPlay: iset<Bytes>, name: HostName, cache: Cache,
                                          skewed: set<(HostName, Path)>,
                                          p: Path, e: SyncState, wrong: bool, n: HostName, c: Cache)
    requires SkewInv(env, inPlay, name, cache, skewed) && SkewInv(env, inPlay, n, c, skewed)
    requires Honest(env, inPlay, e.blake3, e.size) <==> !wrong
    ensures var skewed' := Marked(skewed, (name, p), wrong);
            SkewInv(env, inPlay, name, cache[p := e], skewed') && (n != name ==> SkewInv(env, inPlay, n, c, skewed'))
  {
  }

  lemma {:induction false} SetEntryKeepsHosts(env: Env, inPlay: iset<Bytes>, store: Store, hosts: map<HostName, Host>,
                                              skewed: set<(HostName, Path)>, name: HostName, files: Files,
                                              p: Path, e: SyncState, wrong: bool)
    requires HostsInv(env, inPlay, store, hosts, skewed) && name in hosts && FilesInPlay(inPlay, Host(files, map[]))
    requires Backed(env, inPlay, store, e.blake3, e.size, e.chunkCount) && e.remote == e.blake3
    requires Honest(env, inPlay, e.blake3, e.size) <==> !wrong
    ensures HostsInv(env, inPlay, store, hosts[name := Host(files, hosts[name].cache[p := e])],
                     Marked(skewed, (name, p), wrong))
  {
    var cache, hosts' := hosts[name].cache, hosts[name := Host(files, hosts[name].cache[p := e])];
    assert HostInv(env, inPlay, store, hosts[name]) && HostInv(env, inPlay, store, Host(files, cache[p := e]));
    forall n | n in hosts'
      ensures SkewInv(env, inPlay, n, hosts'[n].cache, Marked(skewed, (name, p), wrong))
    {
      EntryKeepsSkew(env, inPlay, name, cache, skewed, p, e, wrong, n, hosts[n].cache);
    }
  }

  lemma {:induction false} HostsKeepInv(env: Env, mk: Key, inPlay: iset<Bytes>, s: State, hosts: map<HostName, Host>,
                                        skewed: set<(HostName, Path)>)
    requires Inv(env, mk, inPlay, s) && HostsInv(env, inPlay, s.store, hosts, skewed)
    ensures Inv(env, mk, inPlay, s.(hosts := hosts, past := s.past.(skewed := skewed)))
  {
  }

  /** Setting one host's entry to one that names a stored manifest, and marking whether its size is right. */
  lemma {:induction false} SetEntryKeepsInv(env: Env, mk: Key, inPlay: iset<Bytes>, s: State, name: HostName,
                                            files: Files, p: Path, e: SyncState, wrong: bool)
    requires Inv(env, mk, inPlay, s) && name in s.hosts && FilesInPlay(inPlay, Host(files, map[]))
    requires Backed(env, inPlay, s.store, e.blake3, e.size, e.chunkCount) && e.remote == e.blake3
    requires Honest(env, inPlay, e.blake3, e.size) <==> !wrong
    ensures Inv(env, mk, inPlay, s.(hosts := s.hosts[name := Host(files, s.hosts[name].cache[p := e])],
                                    past := s.past.(skewed := Marked(s.past.skewed, (name, p), wrong))))
  {
    SetEntryKeepsHosts(env, inPlay, s.store, s.hosts, s.past.skewed, name, files, p, e, wrong);
    HostsKeepInv(env, mk, inPlay, s, s.hosts[name := Host(files, s.hosts[name].cache[p := e])],
                 Marked(s.past.skewed, (name, p), wrong));
  }

  lemma {:induction false} RecordKeepsInv(env: Env, mk: Key, inPlay: iset<Bytes>, s: State, id: nat)
    requires Contracts(env) && CollisionFree(env, inPlay) && Inv(env, mk, inPlay, s)
    ensures Inv(env, mk, inPlay, Next(env, s, Record(id)))
  {
    if id in s.jobs && s.jobs[id].stage.Written? && FileAt(s, s.jobs[id]).Some? {
      var job := s.jobs[id];
      var host, file, path := s.hosts[job.host], job.stage.file, job.req.path;
      assert JobInv(env, mk, inPlay, s.store, s.past.log, job) && HostInv(env, inPlay, s.store, host);
      var found := StatOf(host.files[path]);
      var e := StateFor(env, file, found, job.req, job.stage.clock);
      assert host.files[path].data in inPlay && SizeInPlay(inPlay, found.size);
      assert |env.cut(path, file.data)| <= |file.data|;
      HonestIff(env, inPlay, file.data, found.size);
      SetEntryKeepsInv(env, mk, inPlay, s, job.host, host.files, path, e, found.size != |file.data|);
      ResultIsBacked(env, inPlay, s.store, file, job.req, job.stage.result);
      var t := s.(hosts := s.hosts[job.host := Host(host.files, host.cache[path := e])],
                  past := s.past.(skewed := Marked(s.past.skewed, (job.host, path), found.size != |file.data|)));
      JobKeepsInv(env, mk, inPlay, t, id, job.(stage := Reported(job.stage.result, true)));
    }
  }

  // ---- Publishing ----

  lemma {:induction false} IndexWrite(env: Env, inPlay: iset<Bytes>, store: Store, wrong: set<Path>, rel: Path,
                                      u: UploadResult, right: bool)
    requires IndexInv(env, inPlay, store, wrong) && Backed(env, inPlay, store, u.hash, u.bytes, u.chunks)
    requires Honest(env, inPlay, u.hash, u.bytes) <==> right
    ensures var store' := store.(index := store.index[rel := IndexText(u)]);
            IndexInv(env, inPlay, store', Marked(wrong, rel, !right))
  {
    var store', wrong' := store.(index := store.index[rel := IndexText(u)]), Marked(wrong, rel, !right);
    forall r | r in store'.index
      ensures Texted(env, inPlay, store', store'.index[r], r !in wrong')
    {
      if r == rel {
        assert Backed(env, inPlay, store', u.hash, u.bytes, u.chunks);
      } else {
        TextSurvives(env, inPlay, store, store', store.index[r], r !in wrong);
      }
    }
  }

  /** An index write leaves everything but the index as it was. */
  lemma {:induction false} IndexKeepsRest(env: Env, mk: Key, inPlay: iset<Bytes>, s: State, index: map<Path, string>,
                                          wrong: set<Path>)
    requires Inv(env, mk, inPlay, s) && IndexInv(env, inPlay, s.store.(index := index), wrong)
    ensures Inv(env, mk, inPlay, s.(store := s.store.(index := index), past := s.past.(wrong := wrong)))
  {
    var store' := s.store.(index := index);
    assert Grows(s.store, s.past.log, store', s.past.log);
    forall n | n in s.hosts
      ensures HostInv(env, inPlay, store', s.hosts[n])
    {
      HostSurvives(env, inPlay, s.store, store', s.hosts[n]);
    }
    forall i | i in s.jobs
      ensures JobInv(env, mk, inPlay, store', s.past.log, s.jobs[i])
    {
      StageSurvives(env, inPlay, s.store, s.past.log, store', s.past.log, s.jobs[i].req, s.jobs[i].stage);
    }
  }

  lemma {:induction false} DropKeepsInv(env: Env, mk: Key, inPlay: iset<Bytes>, s: State, id: nat)
    requires Inv(env, mk, inPlay, s)
    ensures Inv(env, mk, inPlay, s.(jobs := s.jobs - {id}))
  {
  }

  lemma {:induction false} PublishKeepsInv(env: Env, mk: Key, inPlay: iset<Bytes>, s: State, id: nat)
    requires Inv(env, mk, inPlay, s)
    ensures Inv(env, mk, inPlay, Next(env, s, Publish(id))) && Extends(s.store, Next(env, s, Publish(id)).store)
  {
    if id in s.jobs && s.jobs[id].stage.Reported? {
      var job, t := s.jobs[id], s.(jobs := s.jobs - {id});
      assert JobInv(env, mk, inPlay, s.store, s.past.log, job);
      DropKeepsInv(env, mk, inPlay, s, id);
      if job.req.rel.Some? {
        var rel, u, right := job.req.rel.value, job.stage.result, job.stage.right;
        IndexWrite(env, inPlay, s.store, s.past.wrong, rel, u, right);
        IndexKeepsRest(env, mk, inPlay, t, s.store.index[rel := IndexText(u)], Marked(s.past.wrong, rel, !right));
      }
    }
  }

  // ---- Pulling ----

  /** A download by a fleet member returns content in play, under its own hash. */
  lemma {:induction false} DownloadIsInPlay(env: Env, mk: Key, inPlay: iset<Bytes>, store: Store, h: Hash,
                                            master: Option<Key>)
    requires StoreInv(env, mk, inPlay, store) && Modern(store) && (master.None? || master.value == mk)
    requires Downloaded(env, store, h, master).Ok?
    ensures var data := Downloaded(env, store, h, master).value;
            && data in inPlay && env.hash(data) == h && h in store.manifests
            && |store.manifests[h].manifest.chunks| <= |data|
  {
    assert Sound(env, mk, inPlay, store.chunks, h, store.manifests[h].manifest);
  }

  lemma {:induction false} FilesKeepInv(env: Env, mk: Key, inPlay: iset<Bytes>, s: State, name: HostName, files: Files)
    requires Inv(env, mk, inPlay, s) && name in s.hosts && FilesInPlay(inPlay, Host(files, map[]))
    ensures Inv(env, mk, inPlay, s.(hosts := s.hosts[name := s.hosts[name].(files := files)]))
  {
    assert HostInv(env, inPlay, s.store, s.hosts[name]);
    assert SkewInv(env, inPlay, name, s.hosts[name].cache, s.past.skewed);
    HostsKeepInv(env, mk, inPlay, s, s.hosts[name := s.hosts[name].(files := files)], s.past.skewed);
  }

  lemma {:induction false} PullKeepsInv(env: Env, mk: Key, inPlay: iset<Bytes>, s: State, name: HostName, h: Hash,
                                        f: Fetch)
    requires CollisionFree(env, inPlay) && Inv(env, mk, inPlay, s) && name in s.hosts
    requires Allowed(env, mk, inPlay, s, Pull(name, h, f))
    ensures Inv(env, mk, inPlay, AfterPull(env, s, name, h, f))
  {
    var host, r := s.hosts[name], Downloaded(env, s.store, h, f.master);
    assert HostInv(env, inPlay, s.store, host);
    if r.Ok? && f.writable {
      DownloadIsInPlay(env, mk, inPlay, s.store, h, f.master);
      var files := host.files[f.path := LocalFile(r.value, f.mtime)];
      if Recording(f) && f.examined.Some? {
        var e := Fetched(env, s.store, host, h, f).cache[f.path];
        HonestIff(env, inPlay, r.value, e.size);
        SetEntryKeepsInv(env, mk, inPlay, s, name, files, f.path, e, f.examined.value.size != |r.value|);
      } else {
        FilesKeepInv(env, mk, inPlay, s, name, files);
      }
    } else {
      FilesKeepInv(env, mk, inPlay, s, name, host.files);
    }
  }

  // ---- Every step ----

  /** Every step of every interleaving keeps the invariant and loses nothing stored. */
  lemma {:induction false} StepKeepsInv(env: Env, mk: Key, inPlay: iset<Bytes>, s: State, a: Act)
    requires Contracts(env) && CollisionFree(env, inPlay) && Inv(env, mk, inPlay, s) && Allowed(env, mk, inPlay, s, a)
    ensures Inv(env, mk, inPlay, Next(env, s, a)) && Extends(s.store, Next(env, s, a).store)
  {
    match a
    case Edit(name, p, file) =>
      if name in s.hosts {
        assert HostInv(env, inPlay, s.store, s.hosts[name]);
        FilesKeepInv(env, mk, inPlay, s, name, s.hosts[name].files[p := file]);
      }
    case Delete(name, p) =>
      if name in s.hosts {
        assert HostInv(env, inPlay, s.store, s.hosts[name]);
        FilesKeepInv(env, mk, inPlay, s, name, s.hosts[name].files - {p});
      }
    case Pull(name, h, f) =>
      if name in s.hosts {
        PullKeepsInv(env, mk, inPlay, s, name, h, f);
      }
    case Open(id, name, req) => OpenKeepsInv(env, mk, inPlay, s, id, name, req);
    case Load(id) => LoadKeepsInv(env, mk, inPlay, s, id);
    case Check(id) => CheckKeepsInv(env, mk, inPlay, s, id);
    case Put(id) => PutKeepsInv(env, mk, inPlay, s, id);
    case Record(id) => RecordKeepsInv(env, mk, inPlay, s, id);
    case Publish(id) => PublishKeepsInv(env, mk, inPlay, s, id);
    case Stop(id) => DropKeepsInv(env, mk, inPlay, s, id);
  }

  lemma {:induction false} RunKeepsInv(env: Env, mk: Key, inPlay: iset<Bytes>, s: State, acts: seq<Act>)
    requires Contracts(env) && CollisionFree(env, inPlay) && Inv(env, mk, inPlay, s)
    requires History(env, mk, inPlay, s, acts)
    ensures Inv(env, mk, inPlay, Run(env, s, acts)) && Extends(s.store, Run(env, s, acts).store)
  {
    if acts != [] {
      var mid := Run(env, s, acts[..|acts| - 1]);
      RunKeepsInv(env, mk, inPlay, s, acts[..|acts| - 1]);
      StepKeepsInv(env, mk, inPlay, mid, acts[|acts| - 1]);
      ExtendsTransitive(s.store, mid.store, Run(env, s, acts).store);
    }
  }

  /** In every reachable state: chunks and manifests are sound, and every cache entry, every index entry and every
      result of an upload names a stored manifest, whatever ran at the same time or stopped on the way. */
  lemma {:induction false} ReachableInv(env: Env, mk: Key, inPlay: iset<Bytes>, s: State, acts: seq<Act>)
    requires Contracts(env) && CollisionFree(env, inPlay) && Start(inPlay, s) && History(env, mk, inPlay, s, acts)
    ensures Inv(env, mk, inPlay, Run(env, s, acts))
  {
    RunKeepsInv(env, mk, inPlay, s, acts);
  }
}
