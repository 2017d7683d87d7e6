/** The two backends of the state cache: one file rewritten on flush, and a database written through. */
module StateCache {
  import opened Basics
  import opened Conflicts
  import opened Upload

  type Entries = map<Path, SyncState>

  /** An operation, with whether the disk accepts what it writes. */
  datatype Op = Set(path: Path, state: SyncState, ok: bool) | Remove(path: Path, ok: bool) | Flush(ok: bool)

  /** What callers see of an operation. */
  function Seen(m: Entries, op: Op): Entries
  {
    match op
    case Set(p, s, _) => m[p := s]
    case Remove(p, _) => m - {p}
    case Flush(_) => m
  }

  function SeenAll(m: Entries, ops: seq<Op>): Entries
  {
    if ops == [] then m else Seen(SeenAll(m, ops[..|ops| - 1]), ops[|ops| - 1])
  }

  // ---- The file backend ----

  /** `disk` is the file's content, if the file exists. */
  datatype FileState = FileState(entries: Entries, dirty: bool, disk: Option<Entries>)

  function Loaded(disk: Option<Entries>): Entries
  {
    if disk.None? then map[] else disk.value
  }

  function FileOpened(disk: Option<Entries>): FileState
  {
    FileState(Loaded(disk), false, disk)
  }

  function FileFlushed(s: FileState, ok: bool): FileState
  {
    if s.dirty && ok then FileState(s.entries, false, Some(s.entries)) else s
  }

  function FileStep(s: FileState, op: Op): FileState
  {
    match op
    case Set(p, st, _) => s.(entries := s.entries[p := st], dirty := true)
    case Remove(p, _) => if p in s.entries then s.(entries := s.entries - {p}, dirty := true) else s
    case Flush(ok) => FileFlushed(s, ok)
  }

  function FileRun(s: FileState, ops: seq<Op>): FileState
  {
    if ops == [] then s else FileStep(FileRun(s, ops[..|ops| - 1]), ops[|ops| - 1])
  }

  class JsonCache {
    var entries: Entries
    var dirty: bool
    var disk: Option<Entries>

    function View(): FileState
      reads this
    {
      FileState(entries, dirty, disk)
    }

    constructor (disk: Option<Entries>)
      ensures View() == FileOpened(disk)
    {
      entries, dirty, this.disk := Loaded(disk), false, disk;
    }

    method Insert(p: Path, st: SyncState)
      modifies this
      ensures forall ok :: View() == FileStep(old(View()), Set(p, st, ok))
    {
      entries, dirty := entries[p := st], true;
    }

    method Delete(p: Path)
      modifies this
      ensures forall ok :: View() == FileStep(old(View()), Remove(p, ok))
    {
      if p in entries {
        entries, dirty := entries - {p}, true;
      }
    }

    method Save(ok: bool) returns (r: bool)
      modifies this
      ensures View() == FileStep(old(View()), Flush(ok))
      ensures r <==> !old(dirty) || ok
    {
      if !dirty {
        return true;
      }
      if !ok {
        return false;
      }
      disk, dirty := Some(entries), false;
      return true;
    }
  }

  // ---- The database backend ----

  /** The database's records; None is one that does not decode. */
  type Records = map<Path, Option<SyncState>>

  function Decoded(db: Records): Entries
  {
    map p | p in db && db[p].Some? :: db[p].value
  }

  datatype DbState = DbState(entries: Entries, db: Records)

  function DbOpened(db: Records): DbState
  {
    DbState(Decoded(db), db)
  }

  function DbStep(s: DbState, op: Op): DbState
  {
    match op
    case Set(p, st, ok) => DbState(s.entries[p := st], if ok then s.db[p := Some(st)] else s.db)
    case Remove(p, ok) => DbState(s.entries - {p}, if ok then s.db - {p} else s.db)
    case Flush(_) => s
  }

  function DbRun(s: DbState, ops: seq<Op>): DbState
  {
    if ops == [] then s else DbStep(DbRun(s, ops[..|ops| - 1]), ops[|ops| - 1])
  }

  class RocksCache {
    var entries: Entries
    var db: Records

    function View(): DbState
      reads this
    {
      DbState(entries, db)
    }

    /** Opening copies the database into the mirror, record by record, passing over those that do not decode. */
    constructor (db: Records)
      ensures View() == DbOpened(db)
    {
      var mirror: Entries, todo := map[], db.Keys;
      while todo != {}
        invariant todo <= db.Keys
        invariant forall p :: p in mirror <==> p in db.Keys - todo && db[p].Some?
        invariant forall p | p in mirror :: mirror[p] == db[p].value
        decreases |todo|
      {
        var p :| p in todo;
        if db[p].Some? {
          mirror := mirror[p := db[p].value];
        }
        todo := todo - {p};
      }
      assert mirror == Decoded(db);
      entries, this.db := mirror, db;
    }

    method Insert(p: Path, st: SyncState, ok: bool)
      modifies this
      ensures View() == DbStep(old(View()), Set(p, st, ok))
    {
      if ok {
        db := db[p := Some(st)];
      }
      entries := entries[p := st];
    }

    method Delete(p: Path, ok: bool)
      modifies this
      ensures View() == DbStep(old(View()), Remove(p, ok))
    {
      if ok {
        db := db - {p};
      }
      entries := entries - {p};
    }
  }

  // ---- Both are the same map ----

  /** Callers cannot tell the backends apart: opened on the same entries, both show the same map after
      any operations, whatever the disk refuses. */
  lemma {:induction false} BackendsAgree(disk: Option<Entries>, db: Records, ops: seq<Op>)
    requires Decoded(db) == Loaded(disk)
    ensures FileRun(FileOpened(disk), ops).entries == SeenAll(Loaded(disk), ops)
    ensures DbRun(DbOpened(db), ops).entries == SeenAll(Loaded(disk), ops)
  {
    if ops != [] {
      BackendsAgree(disk, db, ops[..|ops| - 1]);
      var m, op := SeenAll(Loaded(disk), ops[..|ops| - 1]), ops[|ops| - 1];
      assert op.Remove? && op.path !in m ==> m - {op.path} == m;
    }
  }

  lemma {:induction false} FileShowsAll(disk: Option<Entries>, ops: seq<Op>)
    ensures FileRun(FileOpened(disk), ops).entries == SeenAll(Loaded(disk), ops)
  {
    var m := Loaded(disk);
    var db: Records := map p | p in m :: Some(m[p]);
    assert Decoded(db) == m;
    BackendsAgree(disk, db, ops);
  }

  /** How many operations were covered by the last flush that succeeded; 0 if none did. */
  function LastSave(ops: seq<Op>): (n: nat)
    ensures n <= |ops|
    ensures 0 < n ==> ops[n - 1] == Flush(true)
    ensures forall i | n <= i < |ops| :: ops[i] != Flush(true)
  {
    if ops == [] then 0
    else if ops[|ops| - 1] == Flush(true) then |ops|
    else LastSave(ops[..|ops| - 1])
  }

  lemma {:induction false} FileInv(disk: Option<Entries>, ops: seq<Op>)
    ensures var s := FileRun(FileOpened(disk), ops); !s.dirty ==> Loaded(s.disk) == s.entries
  {
    if ops != [] {
      FileInv(disk, ops[..|ops| - 1]);
    }
  }

  /** A crash loses exactly what was not flushed: the file always holds the map as of the last flush
      that succeeded, or as it was opened. */
  lemma {:induction false} CrashRestoresLastSave(disk: Option<Entries>, ops: seq<Op>)
    ensures Loaded(FileRun(FileOpened(disk), ops).disk) == SeenAll(Loaded(disk), ops[..LastSave(ops)])
  {
    if ops == [] {
      assert ops[..0] == [];
    } else {
      var front := ops[..|ops| - 1];
      CrashRestoresLastSave(disk, front);
      FileInv(disk, front);
      FileShowsAll(disk, front);
      if ops[|ops| - 1] == Flush(true) {
        assert ops[..|ops|] == ops;
      } else {
        assert front[..LastSave(front)] == ops[..LastSave(ops)];
      }
    }
  }

  /** Closing the cache normally, with a flush that succeeds, loses nothing. */
  lemma CloseRestoresAll(disk: Option<Entries>, ops: seq<Op>)
    ensures FileOpened(FileFlushed(FileRun(FileOpened(disk), ops), true).disk).entries == SeenAll(Loaded(disk), ops)
  {
    FileInv(disk, ops);
    FileShowsAll(disk, ops);
  }

  /** Whether the last write to a path, if any, reached the database. */
  predicate Landed(ops: seq<Op>, p: Path)
  {
    if ops == [] then true
    else
      var op := ops[|ops| - 1];
      if !op.Flush? && op.path == p then op.ok else Landed(ops[..|ops| - 1], p)
  }

  predicate Touches(op: Op, p: Path)
  {
    !op.Flush? && op.path == p
  }

  /** What a path shows is decided by the last operation on it. */
  lemma {:induction false} LastOperationDecides(m: Entries, ops: seq<Op>, p: Path, i: nat)
    requires i < |ops| && Touches(ops[i], p) && forall j | i < j < |ops| :: !Touches(ops[j], p)
    ensures p in SeenAll(m, ops) <==> ops[i].Set?
    ensures ops[i].Set? ==> SeenAll(m, ops)[p] == ops[i].state
  {
    if i < |ops| - 1 {
      LastOperationDecides(m, ops[..|ops| - 1], p, i);
    }
  }

  /** A path that no operation touches shows what it showed before. */
  lemma {:induction false} UntouchedStays(m: Entries, ops: seq<Op>, p: Path)
    requires forall i | 0 <= i < |ops| :: !Touches(ops[i], p)
    ensures SameAt(SeenAll(m, ops), m, p)
  {
    if ops != [] {
      UntouchedStays(m, ops[..|ops| - 1], p);
    }
  }

  /** Operation `i` changes what the cache holds: it sets an entry, or removes one that is there. */
  predicate ChangesAt(m: Entries, ops: seq<Op>, i: nat)
    requires i < |ops|
  {
    ops[i].Set? || (ops[i].Remove? && ops[i].path in SeenAll(m, ops[..i]))
  }

  /** The cache is dirty exactly if something changed after the last flush that succeeded. */
  lemma {:induction false} DirtyIff(disk: Option<Entries>, ops: seq<Op>)
    ensures FileRun(FileOpened(disk), ops).dirty <==>
            exists i | LastSave(ops) <= i < |ops| :: ChangesAt(Loaded(disk), ops, i)
  {
    if ops != [] {
      var front, op, last := ops[..|ops| - 1], ops[|ops| - 1], |ops| - 1;
      DirtyIff(disk, front);
      FileShowsAll(disk, front);
      forall i | 0 <= i < last
        ensures ChangesAt(Loaded(disk), ops, i) <==> ChangesAt(Loaded(disk), front, i)
      {
        assert ops[..i] == front[..i];
      }
      if op != Flush(true) {
        assert LastSave(ops) == LastSave(front);
        assert ChangesAt(Loaded(disk), ops, last) <==>
          op.Set? || (op.Remove? && op.path in SeenAll(Loaded(disk), front));
      }
    }
  }

  predicate SameAt(a: Entries, b: Entries, p: Path)
  {
    (p in a <==> p in b) && (p in a ==> a[p] == b[p])
  }

  /** A crash of the database backend loses nothing on any path whose last write was accepted. */
  lemma {:induction false} DatabaseKeepsLanded(db: Records, ops: seq<Op>, p: Path)
    requires Landed(ops, p)
    ensures SameAt(Decoded(DbRun(DbOpened(db), ops).db), SeenAll(Decoded(db), ops), p)
  {
    if ops != [] {
      var op := ops[|ops| - 1];
      if op.Flush? || op.path != p {
        DatabaseKeepsLanded(db, ops[..|ops| - 1], p);
      }
    }
  }

  // ---- Lookup by relative path ----

  predicate EndsWith(s: string, t: string)
  {
    |t| <= |s| && s[|s| - |t|..] == t
  }

  predicate MatchesRel(remote: string, rel: Path)
  {
    EndsWith(remote, "/" + rel) || remote == rel
  }

  function ManifestPath(prefix: string, hash: Hash): string
  {
    prefix + "/manifests/" + hash
  }

  /** The names under which a manifest path is found: the path, and what follows any of its slashes. */
  predicate NamesManifest(prefix: string, hash: Hash, rel: Path)
  {
    || rel == hash
    || rel == "manifests/" + hash
    || rel == ManifestPath(prefix, hash)
    || exists i | 0 <= i < |prefix| :: prefix[i] == '/' && rel == ManifestPath(prefix[i + 1..], hash)
  }

  lemma {:induction false} EndsWithSlash(remote: string, rel: Path)
    ensures EndsWith(remote, "/" + rel) <==> exists k | 0 <= k < |remote| :: remote[k] == '/' && remote[k + 1..] == rel
  {
    var tail := "/" + rel;
    if EndsWith(remote, tail) {
      var k := |remote| - |tail|;
      assert remote[k..][0] == '/' && remote[k..][1..] == rel;
      assert remote[k + 1..] == rel;
    }
    if k :| 0 <= k < |remote| && remote[k] == '/' && remote[k + 1..] == rel {
      assert remote[k..] == tail;
    }
  }

  /** The lookup goes by the remote manifest path: it finds a file exactly under the names of that path,
      never under the file's own. */
  lemma {:induction false} LookupFindsIff(prefix: string, hash: Hash, rel: Path)
    requires '/' !in hash
    ensures MatchesRel(ManifestPath(prefix, hash), rel) <==> NamesManifest(prefix, hash, rel)
  {
    var path := ManifestPath(prefix, hash);
    EndsWithSlash(path, rel);
    if k :| 0 <= k < |path| && path[k] == '/' && path[k + 1..] == rel {
      SlashOfPath(prefix, hash, k);
    }
    PathAfterSlash(prefix, hash);
  }

  /** Where a manifest path has its slashes, and what follows them. */
  lemma {:induction false} SlashOfPath(prefix: string, hash: Hash, k: nat)
    requires '/' !in hash && k < |ManifestPath(prefix, hash)| && ManifestPath(prefix, hash)[k] == '/'
    ensures NamesManifest(prefix, hash, ManifestPath(prefix, hash)[k + 1..])
  {
    var path, mid := ManifestPath(prefix, hash), "/manifests/";
    var n := |prefix|;
    assert forall i | n + 11 <= i < |path| :: path[i] == hash[i - n - 11];
    assert k < n + 11;
    if k < n {
      assert prefix[k] == '/' && path[k + 1..] == ManifestPath(prefix[k + 1..], hash);
    } else {
      assert path[k] == mid[k - n];
      assert path[n + 1..] == "manifests/" + hash && path[n + 11..] == hash;
      assert k == n || k == n + 10;
    }
  }

  lemma {:induction false} PathAfterSlash(prefix: string, hash: Hash)
    ensures MatchesRel(ManifestPath(prefix, hash), hash) && MatchesRel(ManifestPath(prefix, hash), "manifests/" + hash)
    ensures forall i | 0 <= i < |prefix| && prefix[i] == '/' ::
              MatchesRel(ManifestPath(prefix, hash), ManifestPath(prefix[i + 1..], hash))
  {
    var path, n := ManifestPath(prefix, hash), |prefix|;
    assert path[n + 10..] == "/" + hash && path[n..] == "/" + ("manifests/" + hash);
    forall i | 0 <= i < |prefix| && prefix[i] == '/'
      ensures MatchesRel(path, ManifestPath(prefix[i + 1..], hash))
    {
      assert path[i..] == "/" + ManifestPath(prefix[i + 1..], hash);
    }
  }

  /** So a name that ends in another character than the hash finds nothing. */
  lemma {:induction false} NamesEndLikeHash(prefix: string, hash: Hash, rel: Path)
    requires hash != "" && NamesManifest(prefix, hash, rel)
    ensures rel != "" && rel[|rel| - 1] == hash[|hash| - 1]
  {
  }
}
