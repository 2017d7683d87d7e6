/** One host over time: it uploads, fetches and hears of resolutions, one after the other, each time against whatever
    the store holds by then.  What the clocks in its cache and in the manifests it writes do over such a history. */
module HostClocks {
  import opened Basics
  import opened Clocks
  import opened Conflicts
  import opened ObjectStore
  import opened Upload
  import opened UploadTheorems
  import opened Transfers
  import opened Engine
  import AutoPull

  datatype Turn =
    | Uploads(store: Store, file: LocalFile, req: Request)
    | Fetches(store: Store, hash: Hash, fetch: Fetch)
    | Resolves(path: Path, clock: Clock)

  /** The cache after one turn, which may fail. */
  function AfterTurn(env: Env, cache: Cache, turn: Turn): Cache
  {
    match turn
    case Uploads(store, file, req) =>
      if Completes(env, store, Entry(cache, req.path), file, req) then Recorded(env, store, cache, file, req) else cache
    case Fetches(store, h, f) =>
      if !Downloaded(env, store, h, f.master).Ok? || !f.writable then cache
      else
        var m, data := FromBytes(store.manifests[h]).value, Downloaded(env, store, h, f.master).value;
        FetchedState(env, cache, h, m, data, f)
    case Resolves(p, clock) => AutoPull.Resolved(cache, p, clock)
  }

  function CacheAt(env: Env, cache: Cache, turns: seq<Turn>, n: nat): Cache
    requires n <= |turns|
  {
    if n == 0 then cache else AfterTurn(env, CacheAt(env, cache, turns, n - 1), turns[n - 1])
  }

  function ClockAt(env: Env, cache: Cache, turns: seq<Turn>, n: nat, p: Path): Clock
    requires n <= |turns|
  {
    ClockIn(Entry(CacheAt(env, cache, turns, n), p))
  }

  /** The cached clock of a file never goes back, whatever a turn does and however it fails. */
  lemma {:induction false} TurnAdvances(env: Env, cache: Cache, turn: Turn, p: Path)
    ensures Leq(ClockIn(Entry(cache, p)), ClockIn(Entry(AfterTurn(env, cache, turn), p)))
  {
    match turn
    case Uploads(store, file, req) =>
      var entry := Entry(cache, req.path);
      if Completes(env, store, entry, file, req) {
        RecordedEntry(env, store, cache, file, req);
        WrittenManifest(env, store, entry, file, req);
      }
    case Fetches(store, h, f) =>
      if Downloaded(env, store, h, f.master).Ok? {
        var m := FromBytes(store.manifests[h]).value;
        MergeIsLub(ClockIn(Entry(cache, f.path)), m.clock, m.clock);
      }
    case Resolves(q, clock) =>
      if q in cache {
        MergeIsLub(cache[q].clock, clock, clock);
      }
  }

  /** The cached clock of a file as a function of time. */
  function ClockOver(env: Env, cache: Cache, turns: seq<Turn>, p: Path): nat -> Clock
  {
    (k: nat) => if k <= |turns| then ClockAt(env, cache, turns, k, p) else map[]
  }

  lemma {:induction false} NextTurnAdvances(env: Env, cache: Cache, turns: seq<Turn>, k: nat, p: Path)
    requires k < |turns|
    ensures Forward(ClockOver(env, cache, turns, p), k)
  {
    TurnAdvances(env, CacheAt(env, cache, turns, k), turns[k], p);
  }

  lemma {:induction false} CachedClockGrows(env: Env, cache: Cache, turns: seq<Turn>, i: nat, j: nat, p: Path)
    requires i <= j <= |turns|
    ensures Leq(ClockAt(env, cache, turns, i, p), ClockAt(env, cache, turns, j, p))
  {
    var clock := ClockOver(env, cache, turns, p);
    forall k: nat | i <= k < j
      ensures Forward(clock, k)
    {
      NextTurnAdvances(env, cache, turns, k, p);
    }
    StepwiseLeq(clock, i, j);
  }

  /** Turn `i` is an upload that writes its manifest. */
  ghost predicate WritesAt(env: Env, cache: Cache, turns: seq<Turn>, i: nat)
    requires i < |turns|
  {
    && turns[i].Uploads?
    && var Uploads(store, file, req) := turns[i];
       && Writes(env, store, Entry(CacheAt(env, cache, turns, i), req.path), file, req)
       && |env.cut(req.path, file.data)| < req.faults.steps
  }

  /** The store after the upload of turn `i`. */
  function StoreAt(env: Env, cache: Cache, turns: seq<Turn>, i: nat): Store
    requires i < |turns| && turns[i].Uploads?
  {
    var Uploads(store, file, req) := turns[i];
    Attempted(env, store, Entry(CacheAt(env, cache, turns, i), req.path), file, req, Reached(env, file, req))
  }

  /** The clock of the manifest that turn `i` leaves. */
  function WrittenAt(env: Env, cache: Cache, turns: seq<Turn>, i: nat): Clock
    requires i < |turns| && turns[i].Uploads?
  {
    var h, store' := env.hash(turns[i].file.data), StoreAt(env, cache, turns, i);
    if h in store'.manifests && store'.manifests[h].V2? then store'.manifests[h].manifest.clock else map[]
  }

  lemma {:induction false} WrittenCounts(env: Env, cache: Cache, turns: seq<Turn>, i: nat)
    requires i < |turns| && WritesAt(env, cache, turns, i)
    ensures var Uploads(store, file, req) := turns[i];
            CountsOneMore(WrittenAt(env, cache, turns, i), req.device, ClockAt(env, cache, turns, i, req.path),
                          RivalClock(env, store, file, req))
  {
    var Uploads(store, file, req) := turns[i];
    WrittenManifest(env, store, Entry(CacheAt(env, cache, turns, i), req.path), file, req);
  }

  /** The cache catches up with the manifest just written exactly if the file can still be examined. */
  lemma {:induction false} WrittenIsCachedIff(env: Env, cache: Cache, turns: seq<Turn>, i: nat)
    requires i < |turns| && WritesAt(env, cache, turns, i) && turns[i].req.device != ""
    ensures Leq(WrittenAt(env, cache, turns, i), ClockAt(env, cache, turns, i + 1, turns[i].req.path)) <==>
            turns[i].req.faults.examined.Some?
  {
    var Uploads(store, file, req) := turns[i];
    var before := CacheAt(env, cache, turns, i);
    WrittenCounts(env, cache, turns, i);
    FinishesIff(env, store, Entry(before, req.path), file, req);
    if req.faults.examined.Some? {
      RecordedEntry(env, store, before, file, req);
    } else {
      DecisionClock(env, store, Entry(before, req.path), file, req);
      assert Get(ClockIn(Entry(before, req.path)), req.device) < Get(WrittenAt(env, cache, turns, i), req.device);
    }
  }

  /** The manifests a host writes for one file carry growing clocks: a later one covers every earlier one that the
      cache has caught up with, and a device with a name has counted more in it. */
  lemma {:induction false} WrittenClocksGrow(env: Env, cache: Cache, turns: seq<Turn>, i: nat, j: nat)
    requires i < j < |turns| && WritesAt(env, cache, turns, i) && WritesAt(env, cache, turns, j)
    requires turns[i].req.path == turns[j].req.path && turns[i].req.faults.examined.Some?
    ensures Leq(WrittenAt(env, cache, turns, i), WrittenAt(env, cache, turns, j))
    ensures turns[j].req.device != "" ==> Lt(WrittenAt(env, cache, turns, i), WrittenAt(env, cache, turns, j))
  {
    var clock := ClockOver(env, cache, turns, turns[i].req.path);
    WrittenIsCached(env, cache, turns, i);
    forall k: nat | i < k < j
      ensures Forward(clock, k)
    {
      NextTurnAdvances(env, cache, turns, k, turns[i].req.path);
    }
    StepwiseLeq(clock, i + 1, j);
    var rival := WrittenOverCached(env, cache, turns, j);
    CountingMoreCovers(WrittenAt(env, cache, turns, i), clock(j), WrittenAt(env, cache, turns, j),
                       turns[j].req.device, rival);
  }

  lemma {:induction false} WrittenOverCached(env: Env, cache: Cache, turns: seq<Turn>, j: nat) returns (rival: Clock)
    requires j < |turns| && WritesAt(env, cache, turns, j)
    ensures CountsOneMore(WrittenAt(env, cache, turns, j), turns[j].req.device,
                          ClockOver(env, cache, turns, turns[j].req.path)(j), rival)
  {
    WrittenCounts(env, cache, turns, j);
    rival := RivalClock(env, turns[j].store, turns[j].file, turns[j].req);
  }

  lemma {:induction false} CountingMoreCovers(a: Clock, cached: Clock, c: Clock, device: DeviceId, rival: Clock)
    requires Leq(a, cached) && CountsOneMore(c, device, cached, rival)
    ensures Leq(a, c) && (device != "" ==> Lt(a, c))
  {
    assert Leq(cached, c);
    LeqTransitive(a, cached, c);
    if device != "" {
      assert Get(a, device) <= Get(cached, device) < Get(c, device);
    }
  }

  lemma {:induction false} WrittenIsCached(env: Env, cache: Cache, turns: seq<Turn>, i: nat)
    requires i < |turns| && WritesAt(env, cache, turns, i) && turns[i].req.faults.examined.Some?
    ensures ClockOver(env, cache, turns, turns[i].req.path)(i + 1) == WrittenAt(env, cache, turns, i)
  {
    var Uploads(store, file, req) := turns[i];
    var before := CacheAt(env, cache, turns, i);
    FinishesIff(env, store, Entry(before, req.path), file, req);
    RecordedEntry(env, store, before, file, req);
  }

  /** A host whose first upload is written but cannot be recorded writes its next content under the same clock. */
  lemma {:induction false} UnrecordedClockIsRepeated(env: Env, cache: Cache, first: Turn, second: Turn)
    requires first.Uploads? && second.Uploads? && first.req.path == second.req.path && first.req.path !in cache
    requires first.req.device == "a" && second.req.device == "a" && first.req.faults.examined.None?
    requires env.hash(first.file.data) !in first.store.manifests
    requires env.hash(second.file.data) !in second.store.manifests
    requires |env.cut(first.req.path, first.file.data)| < first.req.faults.steps
    requires |env.cut(second.req.path, second.file.data)| < second.req.faults.steps
    ensures var turns := [first, second];
            && WritesAt(env, cache, turns, 0) && WritesAt(env, cache, turns, 1)
            && WrittenAt(env, cache, turns, 0) == map["a" := 1] == WrittenAt(env, cache, turns, 1)
  {
    var turns := [first, second];
    assert CacheAt(env, cache, turns, 0) == cache;
    FinishesIff(env, first.store, None, first.file, first.req);
    assert CacheAt(env, cache, turns, 1) == cache;
    assert Ticked(map[], "a") == map["a" := 1];
  }
}
