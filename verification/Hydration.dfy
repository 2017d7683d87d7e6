/** Reads through the disk cache: over any history of reads, failures and evictions, a cached read returns
    what a fetch would. */
module Hydration {
  import opened Basics
  import opened DiskCache

  /** How far storing an entry gets: the directory cannot be made, the scratch file is torn, it cannot be
      renamed, the walk fails, or all is done and the files of `stuck` resist removal. */
  datatype Fate = NoDirectory | Torn(part: Bytes) | NotRenamed | NoWalk | Done(stuck: set<string>)

  function Renamed(files: Files, key: string, data: Bytes, now: nat): Files
  {
    (files - {Tmp(key)})[key := Cached(data, now)]
  }

  /** The cache after an attempt to store an entry. */
  ghost predicate PutYields(files: Files, max: nat, key: string, data: Bytes, now: nat, fate: Fate, files': Files)
  {
    match fate
    case NoDirectory => files' == files
    case Torn(part) => files' == files[Tmp(key) := Cached(part, now)]
    case NotRenamed => files' == files[Tmp(key) := Cached(data, now)]
    case NoWalk => files' == Renamed(files, key, data, now)
    case Done(stuck) =>
      var w := Renamed(files, key, data, now);
      exists names :: Lists(w, names) && files' == Kept(w, names, max, stuck)
  }

  /** A read through the cache under a key derived from the path, its result and the cache after it; a cached file
      that cannot be read counts as missing. */
  ghost predicate Serves(fetch: FetchFun, keyOf: string -> string, files: Files, max: nat, path: string,
                         readable: bool, now: nat, fate: Fate,
                         r: Result<Bytes, string>, files': Files)
  {
    var key := keyOf(path);
    if key in files && readable then r == Ok(files[key].data) && files' == files
    else r == fetch(path) && if r.Err? then files' == files else PutYields(files, max, key, r.value, now, fate, files')
  }

  class Cache {
    const max: nat
    var files: Files

    constructor (max: nat)
      ensures this.max == max && files == map[]
    {
      this.max, files := max, map[];
    }

    method Walk() returns (names: seq<string>, total: nat)
      ensures Lists(files, names) && total == Size(files, names)
    {
      names, total := [], 0;
      var todo := files.Keys;
      while todo != {}
        invariant todo <= files.Keys
        invariant Distinct(names) && forall k :: k in names <==> k in files.Keys - todo && !Scratch(k)
        invariant total == Size(files, names)
        decreases |todo|
      {
        var k :| k in todo;
        if !Scratch(k) {
          SizeSplit(files, names, k, []);
          assert names + [k] + [] == names + [k] && names + [] == names;
          names, total := names + [k], total + |files[k].data|;
        }
        todo := todo - {k};
      }
    }

    /** Removes the oldest files one by one until the rest fits. */
    method RemoveOldest(order: seq<string>, size: nat, stuck: set<string>)
      requires Within(files, order) && size == Size(files, order)
      modifies `files
      ensures files == old(files) - (Front(order, Doomed(old(files), order, max)) - stuck)
    {
      var walked, total, i := files, size, 0;
      assert order[0..] == order;
      while i < |order| && max < total
        invariant 0 <= i <= |order|
        invariant files == walked - (Front(order, i) - stuck)
        invariant total == Size(walked, order[i..])
        invariant Doomed(walked, order, max) == i + Doomed(walked, order[i..], max)
      {
        DoomedStep(walked, order, i, max);
        if order[i] !in stuck {
          files := files - {order[i]};
        }
        total, i := total - |walked[order[i]].data|, i + 1;
      }
    }

    method Evict(stuck: set<string>)
      modifies `files
      ensures exists names :: Lists(old(files), names) && files == Kept(old(files), names, max, stuck)
    {
      var names, total := Walk();
      assert Lists(files, names);
      ByAgeSorts(files, names);
      SizeOfWalk(files, names, ByAge(files, names));
      RemoveOldest(ByAge(files, names), total, stuck);
    }

    method Put(key: string, data: Bytes, now: nat, fate: Fate)
      modifies `files
      ensures PutYields(old(files), max, key, data, now, fate, files)
    {
      if fate.NoDirectory? {
        return;
      }
      files := files[Tmp(key) := Cached(if fate.Torn? then fate.part else data, now)];
      if fate.Torn? || fate.NotRenamed? {
        return;
      }
      files := (files - {Tmp(key)})[key := Cached(data, now)];
      assert files == Renamed(old(files), key, data, now);
      if fate.Done? {
        Evict(fate.stuck);
      }
    }

    method FetchCached(fetch: FetchFun, path: string, readable: bool, now: nat,
                       fate: Fate) returns (r: Result<Bytes, string>)
      modifies `files
      ensures Serves(fetch, KeyOf, old(files), max, path, readable, now, fate, r, files)
    {
      var key := KeyOf(path);
      if key in files && readable {
        return Ok(files[key].data);
      }
      r := fetch(path);
      if r.Ok? {
        Put(key, r.value, now, fate);
      }
    }
  }

  // ---- Histories ----

  datatype Read = Read(path: string, readable: bool, now: nat, fate: Fate)

  /** States and results of a history of reads that starts with an empty cache. */
  ghost predicate History(fetch: FetchFun, keyOf: string -> string, max: nat, calls: seq<Read>,
                          states: seq<Files>, results: seq<Result<Bytes, string>>)
  {
    && |states| == |calls| + 1 && |results| == |calls| && states[0] == map[]
    && forall i {:trigger calls[i]} | 0 <= i < |calls| ::
         Serves(fetch, keyOf, states[i], max, calls[i].path, calls[i].readable, calls[i].now, calls[i].fate,
           results[i], states[i + 1])
  }

  /** No key is a scratch name, and paths that share a key fetch the same. */
  ghost predicate Coherent(fetch: FetchFun, keyOf: string -> string, paths: iset<string>)
  {
    && (forall p | p in paths :: !Scratch(keyOf(p)))
    && forall p, q | p in paths && q in paths && keyOf(p) == keyOf(q) && fetch(q).Ok? :: fetch(p) == fetch(q)
  }

  /** Every entry was fetched under its key. */
  ghost predicate Faithful(fetch: FetchFun, keyOf: string -> string, paths: iset<string>, files: Files)
  {
    forall k | k in files && !Scratch(k) :: exists q :: q in paths && keyOf(q) == k && fetch(q) == Ok(files[k].data)
  }

  lemma KeptIsPart(files: Files, names: seq<string>, max: nat, stuck: set<string>)
    requires Within(files, names)
    ensures forall k | k in Kept(files, names, max, stuck) ::
            k in files && Kept(files, names, max, stuck)[k] == files[k]
  {
  }

  lemma {:induction false} RenameKeepsFaithful(fetch: FetchFun, keyOf: string -> string, paths: iset<string>,
                                               files: Files,
                            path: string, data: Bytes, now: nat)
    requires Faithful(fetch, keyOf, paths, files) && path in paths && fetch(path) == Ok(data)
    ensures Faithful(fetch, keyOf, paths, Renamed(files, keyOf(path), data, now))
  {
    var w := Renamed(files, keyOf(path), data, now);
    forall k | k in w && !Scratch(k)
      ensures exists q :: q in paths && keyOf(q) == k && fetch(q) == Ok(w[k].data)
    {
      if k == keyOf(path) {
        assert path in paths && keyOf(path) == k && fetch(path) == Ok(w[k].data);
      } else {
        assert k in files && w[k] == files[k];
      }
    }
  }

  lemma {:induction false} PutKeepsFaithful(fetch: FetchFun, keyOf: string -> string, paths: iset<string>,
                                            files: Files, max: nat,
                         path: string, data: Bytes,
                         now: nat, fate: Fate, files': Files)
    requires Faithful(fetch, keyOf, paths, files) && path in paths && fetch(path) == Ok(data)
    requires PutYields(files, max, keyOf(path), data, now, fate, files')
    ensures Faithful(fetch, keyOf, paths, files')
  {
    var w := Renamed(files, keyOf(path), data, now);
    RenameKeepsFaithful(fetch, keyOf, paths, files, path, data, now);
    if fate.Done? {
      var names :| Lists(w, names) && files' == Kept(w, names, max, fate.stuck);
      KeptIsPart(w, names, max, fate.stuck);
    }
  }

  lemma {:induction false} StatesAreFaithful(fetch: FetchFun, keyOf: string -> string, max: nat,
                                             paths: iset<string>, calls: seq<Read>,
                                             states: seq<Files>, results: seq<Result<Bytes, string>>, n: nat)
    requires History(fetch, keyOf, max, calls, states, results) && n <= |calls|
    requires forall i | 0 <= i < |calls| :: calls[i].path in paths
    ensures Faithful(fetch, keyOf, paths, states[n])
  {
    if 0 < n {
      StatesAreFaithful(fetch, keyOf, max, paths, calls, states, results, n - 1);
      var read, r := calls[n - 1], results[n - 1];
      assert Serves(fetch, keyOf, states[n - 1], max, read.path, read.readable, read.now, read.fate, r, states[n]);
      if !(keyOf(read.path) in states[n - 1] && read.readable) && r.Ok? {
        PutKeepsFaithful(fetch, keyOf, paths, states[n - 1], max, read.path, r.value, read.now, read.fate, states[n]);
      }
    }
  }

  /** Over any history, whatever fails or is evicted, every read returns what a fetch of its path returns. */
  lemma CachedReadsAreFetches(fetch: FetchFun, keyOf: string -> string, max: nat, paths: iset<string>, calls: seq<Read>,
                              states: seq<Files>, results: seq<Result<Bytes, string>>, i: nat)
    requires History(fetch, keyOf, max, calls, states, results) && Coherent(fetch, keyOf, paths)
    requires forall i | 0 <= i < |calls| :: calls[i].path in paths
    requires i < |calls|
    ensures results[i] == fetch(calls[i].path)
  {
    StatesAreFaithful(fetch, keyOf, max, paths, calls, states, results, i);
    assert Serves(fetch, keyOf, states[i], max, calls[i].path, calls[i].readable, calls[i].now, calls[i].fate,
      results[i], states[i + 1]);
    var key := keyOf(calls[i].path);
    if key in states[i] && calls[i].readable {
      var q :| q in paths && keyOf(q) == key && fetch(q) == Ok(states[i][key].data);
    }
  }

  lemma OneEntryStays(max: nat, key: string, data: Bytes, now: nat)
    requires !Scratch(key) && |data| <= max
    ensures PutYields(map[], max, key, data, now, Done({}), map[key := Cached(data, now)])
  {
    var w := map[key := Cached(data, now)];
    assert Renamed(map[], key, data, now) == w;
    assert [key][1..] == [];
    assert ByAge(w, [key]) == [key] && Size(w, [key]) == |data|;
    assert Lists(w, [key]) && Kept(w, [key], max, {}) == w;
  }

  /** The condition is needed: two paths with one key whose fetches differ give a history in which nothing
      fails and the second read is served the first one's content. */
  lemma SharedKeyServesOther(fetch: FetchFun, keyOf: string -> string, max: nat, p: string, q: string)
    returns (calls: seq<Read>, states: seq<Files>, results: seq<Result<Bytes, string>>)
    requires keyOf(p) == keyOf(q) && !Scratch(keyOf(q)) && fetch(q).Ok? && |fetch(q).value| <= max
    requires fetch(p) != fetch(q)
    ensures History(fetch, keyOf, max, calls, states, results) && |calls| == 2
    ensures calls[0].path == q && calls[1].path == p && forall i | 0 <= i < 2 ::
            calls[i].fate == Done({}) && calls[i].readable
    ensures results[1] == fetch(q) && results[1] != fetch(p)
  {
    var key, data, fate := keyOf(q), fetch(q).value, Done({});
    var w := map[key := Cached(data, 0)];
    OneEntryStays(max, key, data, 0);
    calls, states, results := [Read(q, true, 0, fate), Read(p, true, 0, fate)], [map[], w, w], [fetch(q), fetch(q)];
  }

  /** An entry put later than all others stays in the cache, with its content and time, exactly if it fits by itself
      or cannot be removed. */
  lemma {:induction false} PutIsKeptIff(files: Files, max: nat, key: string, data: Bytes, now: nat, stuck: set<string>,
                                        files': Files)
    requires PutYields(files, max, key, data, now, Done(stuck), files') && !Scratch(key)
    requires forall k | k in files && k != key && !Scratch(k) :: files[k].mtime < now
    ensures key in files' <==> |data| <= max || key in stuck
    ensures key in files' ==> files'[key] == Cached(data, now)
  {
    var w := Renamed(files, key, data, now);
    var names :| Lists(w, names) && files' == Kept(w, names, max, stuck);
    NewestIsKeptIff(w, names, max, key);
    StuckStay(w, names, max, stuck, key);
  }

  /** So the next read of the path is served from the cache: whatever a fetch would return by then, the answer is the
      same and the cache stays as it is. */
  lemma {:induction false} SecondReadIsServed(fetch: FetchFun, later: FetchFun, keyOf: string -> string, files: Files,
                                              max: nat, first: Read, r: Result<Bytes, string>, files': Files,
                                              second: Read, r': Result<Bytes, string>, files'': Files)
    requires Serves(fetch, keyOf, files, max, first.path, first.readable, first.now, first.fate, r, files')
    requires r.Ok? && |r.value| <= max && first.fate.Done? && second.path == first.path && second.readable
    requires var key := keyOf(first.path);
             !Scratch(key) && forall k | k in files && k != key && !Scratch(k) :: files[k].mtime < first.now
    requires Serves(later, keyOf, files', max, second.path, true, second.now, second.fate, r', files'')
    ensures r' == r && files'' == files'
  {
    var key := keyOf(first.path);
    if !(key in files && first.readable) {
      PutIsKeptIff(files, max, key, r.value, first.now, first.fate.stuck, files');
    }
  }

  /** A read that the cache cannot serve, because nothing is there or it cannot be read, returns what a fetch returns,
      and a fetch that fails leaves the cache as it was. */
  lemma {:induction false} MissIsFetched(fetch: FetchFun, keyOf: string -> string, files: Files, max: nat, read: Read,
                                         r: Result<Bytes, string>, files': Files)
    requires Serves(fetch, keyOf, files, max, read.path, read.readable, read.now, read.fate, r, files')
    requires keyOf(read.path) !in files || !read.readable
    ensures r == fetch(read.path) && (r.Err? ==> files' == files)
  {
  }
}
