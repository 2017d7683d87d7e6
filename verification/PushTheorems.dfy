/** Pushing a tree: what a push leaves in the store, the index and the cache, and that pushing an unchanged
    tree again changes nothing. */
module PushTheorems {
  import opened Basics
  import opened Clocks
  import opened Conflicts
  import opened ObjectStore
  import opened Upload
  import opened UploadTheorems
  import StubText

  // ---- Pushing a tree ----

  /** The store and one device's cache. */
  datatype Side = Side(store: Store, cache: Cache)

  datatype Tally = Tally(uploaded: nat, skipped: nat, bytes: nat)

  type Files = map<Path, LocalFile>

  function Tallied(t: Tally, r: UploadResult): Tally
  {
    if r.skipped then t.(skipped := t.skipped + 1)
    else Tally(t.uploaded + 1, t.skipped, t.bytes + r.bytes)
  }

  function ResultOf(env: Env, file: LocalFile, side: Side, req: Request): UploadResult
  {
    Outcome(env, side.store, Entry(side.cache, req.path), file, req)
  }

  function Indexed(store: Store, rel: Option<Path>, text: string): Store
  {
    if rel.None? then store else store.(index := store.index[rel.value := text])
  }

  /** An upload, which may fail after some of its writes, followed when it completes by its index entry,
      the failure of which is passed over. */
  function PushedFile(env: Env, file: LocalFile, side: Side, req: Request): Side
  {
    var entry := Entry(side.cache, req.path);
    var store := Attempted(env, side.store, entry, file, req, Reached(env, file, req));
    if !Completes(env, side.store, entry, file, req) then Side(store, side.cache)
    else Side(if req.faults.indexed then Indexed(store, req.rel, IndexText(ResultOf(env, file, side, req))) else store,
              Recorded(env, side.store, side.cache, file, req))
  }

  /** Nothing fails. */
  predicate Smooth(env: Env, file: LocalFile, req: Request)
  {
    && req.faults.readable && req.faults.examined.Some? && req.faults.indexed
    && Steps(env, file, req) <= req.faults.steps
  }

  /** Nothing fails, and the file stays as it was read. */
  predicate Clear(env: Env, file: LocalFile, req: Request)
  {
    Smooth(env, file, req) && req.faults.examined.value == StatOf(file)
  }

  type Step = (Side, Request) -> Side

  /** One round of a push; a path that names no file is passed over. */
  function PushStep(env: Env, files: Files): Step
  {
    (side: Side, req: Request) => if req.path in files then PushedFile(env, files[req.path], side, req) else side
  }

  /** The state after the first `n` requests. */
  function Pushed(step: Step, side: Side, reqs: seq<Request>, n: nat): Side
    requires n <= |reqs|
  {
    if n == 0 then side else step(Pushed(step, side, reqs, n - 1), reqs[n - 1])
  }

  function Reports(env: Env, files: Files): (Side, Request) -> Option<UploadResult>
  {
    (side: Side, req: Request) =>
      if req.path in files && Completes(env, side.store, Entry(side.cache, req.path), files[req.path], req)
      then Some(ResultOf(env, files[req.path], side, req)) else None
  }

  type Report = (Side, Request) -> Option<UploadResult>

  /** The report of request `i`. */
  function ReportAt(step: Step, report: Report, side: Side, reqs: seq<Request>, i: nat): Option<UploadResult>
    requires i < |reqs|
  {
    report(Pushed(step, side, reqs, i), reqs[i])
  }

  /** What the first `n` requests add up to; `report` gives each one's result, or None if it failed. */
  function Total(step: Step, report: Report, side: Side, reqs: seq<Request>, n: nat): Tally
    requires n <= |reqs|
  {
    if n == 0 then Tally(0, 0, 0) else
      var before := Total(step, report, side, reqs, n - 1);
      match ReportAt(step, report, side, reqs, n - 1)
      case None => before
      case Some(r) => Tallied(before, r)
  }

  function PushedTree(env: Env, files: Files, side: Side, reqs: seq<Request>): Side
  {
    Pushed(PushStep(env, files), side, reqs, |reqs|)
  }

  function TreeTally(env: Env, files: Files, side: Side, reqs: seq<Request>): Tally
  {
    Total(PushStep(env, files), Reports(env, files), side, reqs, |reqs|)
  }

  /** The requests are for files that exist, each path once, each with a name in the index, and none fails. */
  ghost predicate Jobs(env: Env, files: Files, reqs: seq<Request>)
  {
    && (forall i | 0 <= i < |reqs| ::
      reqs[i].path in files && reqs[i].rel.Some? && Clear(env, files[reqs[i].path], reqs[i]))
    && forall i, j | 0 <= i < j < |reqs| :: reqs[i].path != reqs[j].path
  }

  // ---- One file: settled or not ----

  /** An upload of this file by this device writes nothing and is reported as skipped. */
  predicate Settled(env: Env, side: Side, file: LocalFile, path: Path, device: DeviceId)
  {
    var entry, h := Entry(side.cache, path), env.hash(file.data);
    || !NeedsSync(env, entry, file)
    || (&& device != ""
        && h in side.store.manifests
        && FromBytes(side.store.manifests[h]).Some?
        && var m := FromBytes(side.store.manifests[h]).value;
           m.fileHash == h || Cmp(ClockIn(entry), m.clock) != Some(Greater))
  }

  /** The index text such an upload reports. */
  function SettledText(env: Env, cache: Cache, file: LocalFile, path: Path): string
  {
    var entry := Entry(cache, path);
    if entry.Some? && !NeedsSync(env, entry, file) then
      StubText.PrintIndex(entry.value.blake3, entry.value.size, entry.value.chunkCount)
    else
      StubText.PrintIndex(env.hash(file.data), |file.data|, |env.cut(path, file.data)|)
  }

  lemma PushSettlesFile(env: Env, file: LocalFile, side: Side, req: Request)
    requires Clear(env, file, req)
    ensures var side' := PushedFile(env, file, side, req);
            && Settled(env, side', file, req.path, req.device)
            && SettledText(env, side'.cache, file, req.path) == IndexText(ResultOf(env, file, side, req))
  {
  }

  lemma {:induction false} OtherPushKeepsSettled(env: Env, file: LocalFile, side: Side, req: Request, other: LocalFile,
                              path: Path, device: DeviceId)
    requires path != req.path && Settled(env, side, other, path, device)
    ensures Settled(env, PushedFile(env, file, side, req), other, path, device)
  {
    var entry, h := Entry(side.cache, path), env.hash(other.data);
    var store' := PushedFile(env, file, side, req).store;
    if NeedsSync(env, entry, other) && h in side.store.manifests && store'.manifests[h] != side.store.manifests[h] {
      assert FromBytes(store'.manifests[h]).value.fileHash == h;
    }
  }

  lemma OtherPushKeepsEntry(env: Env, file: LocalFile, side: Side, req: Request, path: Path)
    requires path != req.path
    ensures Entry(PushedFile(env, file, side, req).cache, path) == Entry(side.cache, path)
  {
  }

  /** A settled upload touches only the index entry and, at most, its own cache entry. */
  lemma SettledPushIsNoop(env: Env, file: LocalFile, side: Side, req: Request)
    requires Clear(env, file, req) && Settled(env, side, file, req.path, req.device)
    ensures var side', text := PushedFile(env, file, side, req), SettledText(env, side.cache, file, req.path);
            && ResultOf(env, file, side, req).skipped
            && IndexText(ResultOf(env, file, side, req)) == text
            && side'.store == Indexed(side.store, req.rel, text)
            && SettledText(env, side'.cache, file, req.path) == text
  {
  }

  lemma PushWritesIndex(env: Env, file: LocalFile, side: Side, req: Request)
    requires Smooth(env, file, req)
    ensures PushedFile(env, file, side, req).store.index ==
            Indexed(side.store, req.rel, IndexText(ResultOf(env, file, side, req))).index
  {
  }

  // ---- A run of files: what is settled stays settled ----

  /** What a run is observed by: which paths are settled, and the index text each would get. */
  datatype View = View(settled: (Side, Path, DeviceId) -> bool, text: (Side, Path) -> string)

  function ViewOf(env: Env, files: Files): View
  {
    View((s: Side, p: Path, d: DeviceId) => p in files && Settled(env, s, files[p], p, d),
         (s: Side, p: Path) => if p in files then SettledText(env, s.cache, files[p], p) else "")
  }

  /** A pushed file ends settled and indexed, what was settled stays so, and no other text changes. */
  ghost predicate Advances(v: View, a: Side, b: Side, req: Request)
    requires req.rel.Some?
  {
    && v.settled(b, req.path, req.device)
    && b.store.index == a.store.index[req.rel.value := v.text(b, req.path)]
    && (forall p | p != req.path :: v.text(b, p) == v.text(a, p))
    && (forall p, d | p != req.path && v.settled(a, p, d) :: v.settled(b, p, d))
  }

  /** A settled file is pushed by writing its index entry again, and nothing else. */
  ghost predicate Idles(v: View, a: Side, b: Side, req: Request)
    requires req.rel.Some?
  {
    && b.store == a.store.(index := a.store.index[req.rel.value := v.text(a, req.path)])
    && v.text(b, req.path) == v.text(a, req.path)
  }

  ghost predicate Steady(v: View, step: Step, reqs: seq<Request>)
    requires forall i | 0 <= i < |reqs| :: reqs[i].rel.Some?
  {
    forall s: Side, i {:trigger step(s, reqs[i])} | 0 <= i < |reqs| ::
      && Advances(v, s, step(s, reqs[i]), reqs[i])
      && (v.settled(s, reqs[i].path, reqs[i].device) ==> Idles(v, s, step(s, reqs[i]), reqs[i]))
  }

  lemma {:induction false} PushIsSteady(env: Env, files: Files, reqs: seq<Request>)
    requires Jobs(env, files, reqs)
    ensures Steady(ViewOf(env, files), PushStep(env, files), reqs)
  {
    var v, step := ViewOf(env, files), PushStep(env, files);
    forall s: Side, i | 0 <= i < |reqs|
      ensures Advances(v, s, step(s, reqs[i]), reqs[i])
      ensures v.settled(s, reqs[i].path, reqs[i].device) ==> Idles(v, s, step(s, reqs[i]), reqs[i])
    {
      PushedFileAdvances(env, files, s, reqs[i]);
    }
  }

  lemma {:induction false} PushedFileAdvances(env: Env, files: Files, side: Side, req: Request)
    requires req.path in files && req.rel.Some? && Clear(env, files[req.path], req)
    ensures var v, side' := ViewOf(env, files), PushStep(env, files)(side, req);
            && Advances(v, side, side', req)
            && (v.settled(side, req.path, req.device) ==> Idles(v, side, side', req))
  {
    var file := files[req.path];
    var side' := PushedFile(env, file, side, req);
    assert PushStep(env, files)(side, req) == side';
    PushSettlesFile(env, file, side, req);
    PushWritesIndex(env, file, side, req);
    forall p | p in files && p != req.path
      ensures SettledText(env, side'.cache, files[p], p) == SettledText(env, side.cache, files[p], p)
    {
      OtherPushKeepsEntry(env, file, side, req, p);
    }
    forall p, d | p in files && p != req.path && Settled(env, side, files[p], p, d)
      ensures Settled(env, side', files[p], p, d)
    {
      OtherPushKeepsSettled(env, file, side, req, files[p], p, d);
    }
    if Settled(env, side, file, req.path, req.device) {
      SettledPushIsNoop(env, file, side, req);
    }
  }

  ghost predicate Distinct(reqs: seq<Request>)
  {
    && (forall i | 0 <= i < |reqs| :: reqs[i].rel.Some?)
    && forall i, j | 0 <= i < j < |reqs| :: reqs[i].path != reqs[j].path
  }

  /** The index entries of the first `n` files, later ones over earlier ones. */
  ghost function IndexOf(v: View, s: Side, reqs: seq<Request>, n: nat): map<Path, string>
    requires Distinct(reqs) && n <= |reqs|
  {
    if n == 0 then map[]
    else IndexOf(v, s, reqs, n - 1)[reqs[n - 1].rel.value := v.text(s, reqs[n - 1].path)]
  }

  ghost predicate SameTexts(v: View, s: Side, s': Side, reqs: seq<Request>, n: nat)
    requires n <= |reqs|
  {
    forall i | 0 <= i < n :: v.text(s, reqs[i].path) == v.text(s', reqs[i].path)
  }

  lemma {:induction false} IndexFollowsTexts(v: View, s: Side, s': Side, reqs: seq<Request>, n: nat)
    requires Distinct(reqs) && n <= |reqs| && SameTexts(v, s, s', reqs, n)
    ensures IndexOf(v, s, reqs, n) == IndexOf(v, s', reqs, n)
  {
    if 0 < n {
      IndexFollowsTexts(v, s, s', reqs, n - 1);
    }
  }

  ghost predicate AllSettled(v: View, s: Side, reqs: seq<Request>, n: nat)
    requires n <= |reqs|
  {
    forall i | 0 <= i < n :: v.settled(s, reqs[i].path, reqs[i].device)
  }

  lemma PlusUpdate(a: map<Path, string>, b: map<Path, string>, k: Path, v: string)
    ensures (a + b)[k := v] == a + b[k := v]
  {
  }

  /** After `n` files those are settled, and the index has gained their entries. */
  lemma {:induction false} FirstPush(v: View, step: Step, side: Side, reqs: seq<Request>, n: nat)
    requires Distinct(reqs) && Steady(v, step, reqs) && n <= |reqs|
    ensures var s := Pushed(step, side, reqs, n);
            && AllSettled(v, s, reqs, n)
            && s.store.index == side.store.index + IndexOf(v, s, reqs, n)
  {
    if n == 0 {
      assert side.store.index + map[] == side.store.index;
    } else {
      var req, a, b := reqs[n - 1], Pushed(step, side, reqs, n - 1), Pushed(step, side, reqs, n);
      FirstPush(v, step, side, reqs, n - 1);
      assert Advances(v, a, b, req);
      forall i | 0 <= i < n - 1
        ensures v.settled(b, reqs[i].path, reqs[i].device) && v.text(a, reqs[i].path) == v.text(b, reqs[i].path)
      {
        assert reqs[i].path != req.path;
      }
      IndexFollowsTexts(v, a, b, reqs, n - 1);
      PlusUpdate(side.store.index, IndexOf(v, a, reqs, n - 1), req.rel.value, v.text(b, req.path));
    }
  }

  /** When every file is settled from the start, `n` files only write their index entries again. */
  lemma {:induction false} SettledPush(v: View, step: Step, side: Side, reqs: seq<Request>, n: nat)
    requires Distinct(reqs) && Steady(v, step, reqs) && n <= |reqs| && AllSettled(v, side, reqs, |reqs|)
    ensures var s := Pushed(step, side, reqs, n);
            && AllSettled(v, s, reqs, |reqs|)
            && SameTexts(v, side, s, reqs, |reqs|)
            && s.store == side.store.(index := side.store.index + IndexOf(v, side, reqs, n))
  {
    if n == 0 {
      assert side.store.index + map[] == side.store.index;
    } else {
      var req, a, b := reqs[n - 1], Pushed(step, side, reqs, n - 1), Pushed(step, side, reqs, n);
      SettledPush(v, step, side, reqs, n - 1);
      assert Advances(v, a, b, req) && Idles(v, a, b, req);
      forall i | 0 <= i < |reqs|
        ensures v.settled(b, reqs[i].path, reqs[i].device) && v.text(side, reqs[i].path) == v.text(b, reqs[i].path)
      {
        assert i != n - 1 ==> reqs[i].path != req.path;
      }
      PlusUpdate(side.store.index, IndexOf(v, side, reqs, n - 1), req.rel.value, v.text(side, req.path));
    }
  }

  // ---- Idempotence ----

  /** The second push goes through the same paths, relative names and device; keys, nonces and times may differ. */
  ghost predicate SameTree(reqs: seq<Request>, again: seq<Request>)
  {
    && |again| == |reqs|
    && forall i | 0 <= i < |reqs| ::
         again[i].path == reqs[i].path && again[i].rel == reqs[i].rel && again[i].device == reqs[i].device
  }

  lemma {:induction false} SameTreeSameIndex(v: View, s: Side, reqs: seq<Request>, again: seq<Request>, n: nat)
    requires Distinct(reqs) && Distinct(again) && SameTree(reqs, again) && n <= |reqs|
    ensures IndexOf(v, s, again, n) == IndexOf(v, s, reqs, n)
  {
    if 0 < n {
      SameTreeSameIndex(v, s, reqs, again, n - 1);
    }
  }

  lemma {:induction false} PushAgain(v: View, step: Step, side: Side, reqs: seq<Request>, again: seq<Request>)
    requires Distinct(reqs) && Distinct(again) && SameTree(reqs, again) && Steady(v, step, reqs)
    requires Steady(v, step, again)
    ensures var first := Pushed(step, side, reqs, |reqs|);
            && Pushed(step, first, again, |again|).store == first.store
            && forall i | 0 <= i < |again| :: v.settled(Pushed(step, first, again, i), again[i].path, again[i].device)
  {
    var first := Pushed(step, side, reqs, |reqs|);
    FirstPush(v, step, side, reqs, |reqs|);
    assert AllSettled(v, first, again, |again|) by {
      assert forall i | 0 <= i < |again| :: v.settled(first, reqs[i].path, reqs[i].device);
    }
    SettledPush(v, step, first, again, |again|);
    SameTreeSameIndex(v, first, reqs, again, |reqs|);
    var m := IndexOf(v, first, reqs, |reqs|);
    assert (side.store.index + m) + m == side.store.index + m;
    forall i | 0 <= i < |again|
      ensures v.settled(Pushed(step, first, again, i), again[i].path, again[i].device)
    {
      SettledPush(v, step, first, again, i);
    }
  }

  lemma {:induction false} AllSkipped(step: Step, report: Report, side: Side,
                                      reqs: seq<Request>, n: nat)
    requires n <= |reqs|
    requires forall i {:trigger ReportAt(step, report, side, reqs, i)} | 0 <= i < n ::
               var r := ReportAt(step, report, side, reqs, i);
               r.Some? && r.value.skipped
    ensures Total(step, report, side, reqs, n) == Tally(0, n, 0)
  {
    if 0 < n {
      AllSkipped(step, report, side, reqs, n - 1);
    }
  }

  lemma {:induction false} SettledIsSkipped(env: Env, files: Files, s: Side, req: Request)
    requires ViewOf(env, files).settled(s, req.path, req.device) && Clear(env, files[req.path], req)
    ensures Reports(env, files)(s, req).Some? && Reports(env, files)(s, req).value.skipped
  {
    SettledPushIsNoop(env, files[req.path], s, req);
  }

  /** Push idempotence: pushing an unchanged tree a second time uploads nothing, skips every file and
      leaves the store as it was. */
  lemma SecondPushChangesNothing(env: Env, files: Files, side: Side, reqs: seq<Request>, again: seq<Request>)
    requires Jobs(env, files, reqs) && Jobs(env, files, again) && SameTree(reqs, again)
    ensures var first := PushedTree(env, files, side, reqs);
            && PushedTree(env, files, first, again).store == first.store
            && TreeTally(env, files, first, again) == Tally(0, |reqs|, 0)
  {
    var v, step, report := ViewOf(env, files), PushStep(env, files), Reports(env, files);
    PushIsSteady(env, files, reqs);
    PushIsSteady(env, files, again);
    PushAgain(v, step, side, reqs, again);
    var first := Pushed(step, side, reqs, |reqs|);
    forall i | 0 <= i < |again|
      ensures var r := ReportAt(step, report, first, again, i); r.Some? && r.value.skipped
    {
      SettledIsSkipped(env, files, Pushed(step, first, again, i), again[i]);
    }
    AllSkipped(step, report, first, again, |again|);
  }

  // ---- A first push ----

  function SizeOf(files: Files, reqs: seq<Request>, n: nat): nat
    requires n <= |reqs|
  {
    if n == 0 then 0
    else SizeOf(files, reqs, n - 1) + if reqs[n - 1].path in files then |files[reqs[n - 1].path].data| else 0
  }

  /** No file of the tree is known to the cache or the store, and no two have the same hash. */
  ghost predicate AllNew(env: Env, files: Files, side: Side, reqs: seq<Request>)
    requires forall i | 0 <= i < |reqs| :: reqs[i].path in files
  {
    && (forall i | 0 <= i < |reqs| :: Fresh(env, files, side, reqs[i]))
    && forall i, j | 0 <= i < j < |reqs| :: env.hash(files[reqs[i].path].data) != env.hash(files[reqs[j].path].data)
  }

  predicate Fresh(env: Env, files: Files, side: Side, req: Request)
    requires req.path in files
  {
    req.path !in side.cache && env.hash(files[req.path].data) !in side.store.manifests
  }

  lemma {:induction false} PushLeavesOthersFresh(env: Env, files: Files, side: Side, req: Request, other: Request)
    requires req.path in files && other.path in files && Fresh(env, files, side, other) && other.path != req.path
    requires env.hash(files[req.path].data) != env.hash(files[other.path].data)
    ensures Fresh(env, files, PushStep(env, files)(side, req), other)
  {
    OtherPushKeepsEntry(env, files[req.path], side, req, other.path);
  }

  lemma {:induction false} StillFresh(env: Env, files: Files, side: Side, reqs: seq<Request>, n: nat, i: nat)
    requires Jobs(env, files, reqs) && AllNew(env, files, side, reqs) && n <= i < |reqs|
    ensures Fresh(env, files, Pushed(PushStep(env, files), side, reqs, n), reqs[i])
  {
    if 0 < n {
      StillFresh(env, files, side, reqs, n - 1, i);
      PushLeavesOthersFresh(env, files, Pushed(PushStep(env, files), side, reqs, n - 1), reqs[n - 1], reqs[i]);
    }
  }

  /** The report of a file uploaded as a whole. */
  predicate Whole(files: Files, req: Request, r: Option<UploadResult>)
  {
    req.path in files && r.Some? && !r.value.skipped && r.value.bytes == |files[req.path].data|
  }

  lemma FreshIsUploaded(env: Env, files: Files, side: Side, req: Request)
    requires req.path in files && Fresh(env, files, side, req) && Clear(env, files[req.path], req)
    ensures Whole(files, req, Reports(env, files)(side, req))
  {
  }

  lemma {:induction false} AllUploaded(step: Step, report: Report, files: Files,
                                       side: Side, reqs: seq<Request>, n: nat)
    requires n <= |reqs|
    requires forall i {:trigger ReportAt(step, report, side, reqs, i)} | 0 <= i < n ::
               Whole(files, reqs[i], ReportAt(step, report, side, reqs, i))
    ensures Total(step, report, side, reqs, n) == Tally(n, 0, SizeOf(files, reqs, n))
  {
    if 0 < n {
      AllUploaded(step, report, files, side, reqs, n - 1);
    }
  }

  /** A first push of new files reports every file as uploaded and all their bytes. */
  lemma {:induction false} FirstPushUploadsAll(env: Env, files: Files, side: Side, reqs: seq<Request>)
    requires Jobs(env, files, reqs) && AllNew(env, files, side, reqs)
    ensures TreeTally(env, files, side, reqs) == Tally(|reqs|, 0, SizeOf(files, reqs, |reqs|))
  {
    var step, report := PushStep(env, files), Reports(env, files);
    forall i | 0 <= i < |reqs|
      ensures Whole(files, reqs[i], ReportAt(step, report, side, reqs, i))
    {
      StillFresh(env, files, side, reqs, i, i);
      FreshIsUploaded(env, files, Pushed(step, side, reqs, i), reqs[i]);
    }
    AllUploaded(step, report, files, side, reqs, |reqs|);
  }

  // ---- Reference integrity ----

  ghost predicate Names(env: Env, inPlay: iset<Bytes>, side: Side)
  {
    CacheNames(env, inPlay, side.store, side.cache) && IndexNames(env, inPlay, side.store)
  }

  /** Whatever fails, cache and index name only stored manifests. */
  lemma {:induction false} PushFileKeepsNames(env: Env, inPlay: iset<Bytes>, file: LocalFile, side: Side, req: Request)
    requires Contracts(env) && Names(env, inPlay, side) && file.data in inPlay
    requires req.faults.examined.Some? ==> SizeInPlay(inPlay, req.faults.examined.value.size)
    ensures Names(env, inPlay, PushedFile(env, file, side, req))
  {
    var entry, k := Entry(side.cache, req.path), Reached(env, file, req);
    var store' := Attempted(env, side.store, entry, file, req, k);
    NamesSurvive(env, inPlay, side.store, store', side.cache);
    if Completes(env, side.store, entry, file, req) {
      UploadNamesStored(env, inPlay, side.store, side.cache, file, req);
      if req.faults.indexed && req.rel.Some? {
        IndexWriteKeepsNames(env, inPlay, store', Recorded(env, side.store, side.cache, file, req),
                             req.rel.value, ResultOf(env, file, side, req));
      }
    }
  }
}
