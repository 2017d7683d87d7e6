/** When an upload learned what it knows: the moments of a run at which it examined the file, read it and asked the
    store, and what it keeps of each. */
module WorldMoments {
  import opened Basics
  import opened Clocks
  import opened Conflicts
  import opened ObjectStore
  import opened Upload
  import opened UploadTheorems
  import opened Transfers
  import opened World

  /** The state before act `k`. */
  function Before(env: Env, s: State, acts: seq<Act>, k: nat): State
    requires k <= |acts|
  {
    Run(env, s, acts[..k])
  }

  lemma {:induction false} BeforeFront(env: Env, s: State, acts: seq<Act>, k: nat)
    requires acts != [] && k < |acts|
    ensures Before(env, s, acts, k) == Before(env, s, acts[..|acts| - 1], k)
  {
    assert acts[..|acts| - 1][..k] == acts[..k];
  }

  // ---- Beginning ----

  /** The upload is for a file that was there, and knows the cache entry of that moment. */
  ghost predicate Began(before: State, a: Act, id: nat, job: Job)
  {
    && a == Open(id, job.host, job.req) && job.host in before.hosts && job.req.path in before.hosts[job.host].files
    && job.entry == Entry(before.hosts[job.host].cache, job.req.path)
  }

  lemma {:induction false} KeepsOrBegins(env: Env, s: State, a: Act, id: nat)
    requires id in Next(env, s, a).jobs
    ensures var job := Next(env, s, a).jobs[id];
            || Began(s, a, id, job)
            || (id in s.jobs && s.jobs[id].host == job.host && s.jobs[id].req == job.req
              && s.jobs[id].entry == job.entry)
  {
  }

  /** Every upload of a run began with an act that examined its file. */
  lemma {:induction false} OpenedAt(env: Env, s: State, acts: seq<Act>, id: nat) returns (k: nat)
    requires s.jobs == map[] && id in Run(env, s, acts).jobs
    ensures k < |acts| && Began(Before(env, s, acts, k), acts[k], id, Run(env, s, acts).jobs[id])
  {
    var front, a := acts[..|acts| - 1], acts[|acts| - 1];
    var u, job := Run(env, s, front), Run(env, s, acts).jobs[id];
    KeepsOrBegins(env, u, a, id);
    if Began(u, a, id, job) {
      k := |acts| - 1;
    } else {
      k := OpenedAt(env, s, front, id);
      BeforeFront(env, s, acts, k);
    }
  }

  // ---- Reading ----

  predicate HasRead(stage: Stage)
  {
    stage.Loaded? || stage.Writing? || stage.Written?
  }

  lemma {:induction false} KeepsOrReads(env: Env, s: State, a: Act, id: nat)
    requires id in Next(env, s, a).jobs && HasRead(Next(env, s, a).jobs[id].stage)
    ensures var job := Next(env, s, a).jobs[id];
            || (a == Load(id) && FileAt(s, job) == Some(job.stage.file))
            || (&& id in s.jobs && HasRead(s.jobs[id].stage) && s.jobs[id].stage.file == job.stage.file
                && s.jobs[id].host == job.host && s.jobs[id].req == job.req)
  {
  }

  /** The content an upload writes is that of its host's file at the moment it read it. */
  lemma {:induction false} LoadedAt(env: Env, s: State, acts: seq<Act>, id: nat) returns (k: nat)
    requires s.jobs == map[] && id in Run(env, s, acts).jobs && HasRead(Run(env, s, acts).jobs[id].stage)
    ensures var job := Run(env, s, acts).jobs[id];
            k < |acts| && acts[k] == Load(id) && FileAt(Before(env, s, acts, k), job) == Some(job.stage.file)
  {
    var front, a := acts[..|acts| - 1], acts[|acts| - 1];
    var u, job := Run(env, s, front), Run(env, s, acts).jobs[id];
    KeepsOrReads(env, u, a, id);
    if a == Load(id) && FileAt(u, job) == Some(job.stage.file) {
      k := |acts| - 1;
    } else {
      k := LoadedAt(env, s, front, id);
      BeforeFront(env, s, acts, k);
    }
  }

  // ---- Asking ----

  /** What an upload that is writing learned when it asked: the clock to write counts one more write over its cached
      clock and that of the manifest it was shown, and it keeps how many manifests had been written by then and
      whether one was stored under its hash. */
  ghost predicate Learned(env: Env, before: State, job: Job)
    requires job.stage.Writing?
  {
    var file := job.stage.file;
    && job.stage.since == |before.past.log|
    && (job.stage.seen <==> env.hash(file.data) in before.store.manifests)
    && CountsOneMore(job.stage.clock, job.req.device, ClockIn(job.entry), RivalClock(env, before.store, file, job.req))
  }

  lemma {:induction false} KeepsOrLearns(env: Env, s: State, a: Act, id: nat)
    requires id in Next(env, s, a).jobs && Next(env, s, a).jobs[id].stage.Writing?
    ensures var job := Next(env, s, a).jobs[id];
            || (a == Check(id) && Learned(env, s, job))
            || (&& id in s.jobs && s.jobs[id].stage.Writing?
                && job == s.jobs[id].(stage := s.jobs[id].stage.(done := job.stage.done)))
  {
    if a == Check(id) && id in s.jobs && s.jobs[id].stage.Loaded? {
      var job := s.jobs[id];
      VerdictClock(env, s.store, job.entry, job.stage.file, job.req);
    }
  }

  /** Every upload that is writing asked at some moment of the run, and goes by what it learned then. */
  lemma {:induction false} AskedAt(env: Env, s: State, acts: seq<Act>, id: nat) returns (k: nat)
    requires s.jobs == map[] && id in Run(env, s, acts).jobs && Run(env, s, acts).jobs[id].stage.Writing?
    ensures k < |acts| && acts[k] == Check(id) && Learned(env, Before(env, s, acts, k), Run(env, s, acts).jobs[id])
  {
    var front, a := acts[..|acts| - 1], acts[|acts| - 1];
    var u, job := Run(env, s, front), Run(env, s, acts).jobs[id];
    KeepsOrLearns(env, u, a, id);
    if a == Check(id) && Learned(env, u, job) {
      k := |acts| - 1;
    } else {
      k := AskedAt(env, s, front, id);
      BeforeFront(env, s, acts, k);
    }
  }

  /** The log of manifests only grows, so what was written since that moment is what follows in it. */
  lemma {:induction false} LogOnlyGrows(env: Env, s: State, acts: seq<Act>, k: nat)
    requires k <= |acts|
    ensures Before(env, s, acts, k).past.log <= Run(env, s, acts).past.log
    decreases |acts|
  {
    if k < |acts| {
      var front := acts[..|acts| - 1];
      LogOnlyGrows(env, s, front, k);
      BeforeFront(env, s, acts, k);
    } else {
      assert acts[..k] == acts;
    }
  }
}
