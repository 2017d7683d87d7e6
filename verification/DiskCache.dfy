/** The disk cache of hydrated files: its keys, and which files an eviction keeps. */
module DiskCache {
  import opened Basics

  /** A cached file; names ending in `.tmp` are scratch files of a write in progress. */
  datatype Cached = Cached(data: Bytes, mtime: nat)

  type Files = map<string, Cached>

  type FetchFun = string -> Result<Bytes, string>

  predicate Scratch(name: string)
  {
    4 <= |name| && name[|name| - 4..] == ".tmp"
  }

  /** A name up to its last dot; a dot at the front does not count. */
  function Stem(name: string): (stem: string)
    ensures stem <= name
  {
    if |name| <= 1 then name
    else if name[|name| - 1] == '.' then name[..|name| - 1]
    else
      var front := Stem(name[..|name| - 1]);
      if front == name[..|name| - 1] then name else front
  }

  /** The scratch name of a key: its extension replaced. */
  function Tmp(key: string): (name: string)
    ensures Scratch(name)
  {
    Stem(key) + ".tmp"
  }

  /** The last component of a manifest path. */
  function KeyOf(path: string): string
  {
    if path == "" then ""
    else if path[|path| - 1] == '/' then ""
    else KeyOf(path[..|path| - 1]) + [path[|path| - 1]]
  }

  /** A content hash is its own key, whatever directory it is listed under. */
  lemma {:induction false} KeyOfManifest(dir: string, hash: string)
    requires '/' !in hash
    ensures KeyOf(dir + "/" + hash) == hash
  {
    if hash == "" {
      assert dir + "/" + hash == dir + "/";
    } else {
      var path := dir + "/" + hash;
      assert path[..|path| - 1] == dir + "/" + hash[..|hash| - 1];
      KeyOfManifest(dir, hash[..|hash| - 1]);
    }
  }

  /** A path without a slash is its own key. */
  lemma {:induction false} KeyOfName(name: string)
    requires '/' !in name
    ensures KeyOf(name) == name
  {
    if name != "" {
      KeyOfName(name[..|name| - 1]);
      assert name == name[..|name| - 1] + [name[|name| - 1]];
    }
  }

  /** The scratch name of a key: an extension, which begins at the last dot that is not the first character, gives way
      to the scratch extension, and a key without one gets it appended. */
  lemma {:induction false} ScratchName(key: string, stem: string, extension: string)
    requires key == stem + "." + extension && stem != "" && '.' !in extension
    ensures Tmp(key) == stem + ".tmp"
  {
    if extension != "" {
      var shorter := extension[..|extension| - 1];
      assert key[..|key| - 1] == stem + "." + shorter;
      ScratchName(key[..|key| - 1], stem, shorter);
      StemOfScratch(key[..|key| - 1], stem);
    } else {
      assert key[..|key| - 1] == stem;
    }
  }

  lemma StemOfScratch(key: string, stem: string)
    requires Tmp(key) == stem + ".tmp"
    ensures Stem(key) == stem
  {
    assert (Stem(key) + ".tmp")[..|Tmp(key)| - 4] == Stem(key) && (stem + ".tmp")[..|Tmp(key)| - 4] == stem;
  }

  lemma {:induction false} ScratchNameAppended(key: string)
    requires key != "" && '.' !in key[1..]
    ensures Tmp(key) == key + ".tmp"
  {
    if 1 < |key| {
      var front := key[..|key| - 1];
      assert front[1..] <= key[1..] && key[|key| - 1] == key[1..][|key| - 2];
      ScratchNameAppended(front);
      StemOfScratch(front, front);
    }
  }

  // ---- Eviction ----

  ghost predicate Distinct(names: seq<string>)
  {
    forall i, j | 0 <= i < j < |names| :: names[i] != names[j]
  }

  /** The directory walk: every cached file once, in no particular order. */
  ghost predicate Lists(files: Files, names: seq<string>)
  {
    Distinct(names) && forall k :: k in names <==> k in files && !Scratch(k)
  }

  predicate Within(files: Files, names: seq<string>)
  {
    forall k | k in names :: k in files
  }

  function Size(files: Files, names: seq<string>): nat
    requires Within(files, names)
  {
    if names == [] then 0 else |files[names[0]].data| + Size(files, names[1..])
  }

  /** Puts a name before the first one that is not older, so that equal times keep their order. */
  function Insert(files: Files, name: string, names: seq<string>): (r: seq<string>)
    requires name in files && Within(files, names)
    ensures forall k :: k in r <==> k == name || k in names
  {
    if names == [] || files[name].mtime <= files[names[0]].mtime then [name] + names
    else [names[0]] + Insert(files, name, names[1..])
  }

  /** The names sorted by time, oldest first. */
  function ByAge(files: Files, names: seq<string>): (r: seq<string>)
    requires Within(files, names)
    ensures forall k :: k in r <==> k in names
  {
    if names == [] then [] else Insert(files, names[0], ByAge(files, names[1..]))
  }

  /** How many of the oldest files have to go. */
  function Doomed(files: Files, names: seq<string>, max: nat): (n: nat)
    requires Within(files, names)
    ensures n <= |names|
  {
    if names == [] || Size(files, names) <= max then 0 else 1 + Doomed(files, names[1..], max)
  }

  lemma {:induction false} DoomedStep(files: Files, names: seq<string>, i: nat, max: nat)
    requires Within(files, names) && i < |names| && max < Size(files, names[i..])
    ensures Size(files, names[i..]) == |files[names[i]].data| + Size(files, names[i + 1..])
    ensures Doomed(files, names[i..], max) == 1 + Doomed(files, names[i + 1..], max)
  {
    assert names[i..][1..] == names[i + 1..];
  }

  lemma {:induction false} DoomedIsLeast(files: Files, names: seq<string>, max: nat)
    requires Within(files, names)
    ensures var n := Doomed(files, names, max);
            && Size(files, names[n..]) <= max
            && (0 < n ==> max < Size(files, names[n - 1..]))
            && (n == 0 <==> Size(files, names) <= max)
  {
    var n := Doomed(files, names, max);
    assert names[0..] == names;
    if 0 < n {
      DoomedIsLeast(files, names[1..], max);
      assert names[1..][n - 1..] == names[n..];
      assert 1 < n ==> names[1..][n - 2..] == names[n - 1..];
    }
  }

  /** The first `n` names. */
  function Front(names: seq<string>, n: nat): (r: set<string>)
    requires n <= |names|
    ensures forall k :: k in r <==> k in names[..n]
  {
    if n == 0 then {} else
      assert names[..n] == names[..n - 1] + [names[n - 1]];
      Front(names, n - 1) + {names[n - 1]}
  }

  /** What is left after an eviction over this listing; `stuck` names files that could not be removed. */
  function Kept(files: Files, names: seq<string>, max: nat, stuck: set<string>): Files
    requires Within(files, names)
  {
    var order := ByAge(files, names);
    files - (Front(order, Doomed(files, order, max)) - stuck)
  }

  // ---- Sorting ----

  ghost predicate Ordered(files: Files, names: seq<string>)
    requires Within(files, names)
  {
    forall i, j | 0 <= i < j < |names| :: files[names[i]].mtime <= files[names[j]].mtime
  }

  lemma {:induction false} InsertOrders(files: Files, name: string, names: seq<string>)
    requires name in files && Within(files, names) && Ordered(files, names)
    ensures Ordered(files, Insert(files, name, names))
  {
    if names != [] && files[names[0]].mtime < files[name].mtime {
      InsertOrders(files, name, names[1..]);
      var r := Insert(files, name, names);
      forall j | 0 < j < |r|
        ensures files[r[0]].mtime <= files[r[j]].mtime
      {
        assert r[j] in Insert(files, name, names[1..]);
        if r[j] != name {
          var i :| 0 <= i < |names[1..]| && names[1..][i] == r[j];
          assert names[i + 1] == r[j];
        }
      }
    }
  }

  lemma {:induction false} InsertDistinct(files: Files, name: string, names: seq<string>)
    requires name in files && Within(files, names) && Distinct(names) && name !in names
    ensures Distinct(Insert(files, name, names))
  {
    if names != [] && files[names[0]].mtime < files[name].mtime {
      assert names[0] !in names[1..];
      InsertDistinct(files, name, names[1..]);
    }
  }

  lemma {:induction false} ByAgeSorts(files: Files, names: seq<string>)
    requires Within(files, names) && Distinct(names)
    ensures Ordered(files, ByAge(files, names)) && Distinct(ByAge(files, names))
  {
    if names != [] {
      assert names[0] !in names[1..];
      ByAgeSorts(files, names[1..]);
      InsertOrders(files, names[0], ByAge(files, names[1..]));
      InsertDistinct(files, names[0], ByAge(files, names[1..]));
    }
  }

  // ---- Totals ----

  lemma {:induction false} SizeSplit(files: Files, a: seq<string>, k: string, b: seq<string>)
    requires Within(files, a) && Within(files, b) && k in files
    ensures Size(files, a + [k] + b) == |files[k].data| + Size(files, a + b)
  {
    var s := a + [k] + b;
    if a == [] {
      assert s == [k] + b && s[1..] == b && a + b == b && s[0] == k;
    } else {
      assert s[1..] == a[1..] + [k] + b && (a + b)[1..] == a[1..] + b;
      SizeSplit(files, a[1..], k, b);
    }
  }

  /** A list without one of its names. */
  lemma {:induction false} WithoutOne(b: seq<string>, i: nat)
    requires Distinct(b) && i < |b|
    ensures var rest := b[..i] + b[i + 1..];
            Distinct(rest) && forall k :: k in rest <==> k in b && k != b[i]
  {
    var rest := b[..i] + b[i + 1..];
    forall k
      ensures k in rest <==> k in b && k != b[i]
    {
      if k in b && k != b[i] {
        var j :| 0 <= j < |b| && b[j] == k;
        assert rest[if j < i then j else j - 1] == k;
      }
    }
  }

  lemma EmptyIff(b: seq<string>)
    ensures b == [] <==> forall k :: k !in b
  {
    if b != [] {
      assert b[0] in b;
    }
  }

  /** The total does not depend on the order of the walk. */
  lemma {:induction false} SizeOfWalk(files: Files, a: seq<string>, b: seq<string>)
    requires Within(files, a) && Within(files, b) && Distinct(a) && Distinct(b)
    requires forall k :: k in a <==> k in b
    ensures Size(files, a) == Size(files, b)
  {
    if a == [] {
      EmptyIff(b);
    } else {
      assert a[0] in b;
      var i :| 0 <= i < |b| && b[i] == a[0];
      WithoutOne(b, i);
      WithoutOne(a, 0);
      assert a[..0] + a[1..] == a[1..];
      assert b == b[..i] + [a[0]] + b[i + 1..];
      SizeSplit(files, b[..i], a[0], b[i + 1..]);
      SizeOfWalk(files, a[1..], b[..i] + b[i + 1..]);
    }
  }

  lemma {:induction false} SizeIn(files: Files, files': Files, names: seq<string>)
    requires Within(files, names) && Within(files', names)
    requires forall k | k in names :: files'[k] == files[k]
    ensures Size(files', names) == Size(files, names)
  {
    if names != [] {
      SizeIn(files, files', names[1..]);
    }
  }

  // ---- What eviction keeps ----

  lemma {:induction false} HeadAndTail(files: Files, order: seq<string>, n: nat)
    requires Within(files, order) && Distinct(order) && Ordered(files, order) && n <= |order|
    ensures forall k, j | k in order[..n] && j in order[n..] :: k != j && files[k].mtime <= files[j].mtime
  {
    forall k, j | k in order[..n] && j in order[n..]
      ensures k != j && files[k].mtime <= files[j].mtime
    {
      var a :| 0 <= a < n && order[a] == k;
      var b :| 0 <= b < |order[n..]| && order[n..][b] == j;
      assert order[n + b] == j;
    }
  }

  lemma {:induction false} KeptIsTail(files: Files, order: seq<string>, n: nat)
    requires Lists(files, order) && Ordered(files, order) && n <= |order|
    ensures Lists(files - Front(order, n), order[n..])
  {
    HeadAndTail(files, order, n);
    assert order == order[..n] + order[n..];
  }

  lemma TailFits(files: Files, order: seq<string>, max: nat, after: seq<string>)
    requires Lists(files, order) && Ordered(files, order)
    requires Lists(files - Front(order, Doomed(files, order, max)), after)
    ensures var n := Doomed(files, order, max);
            var kept := files - Front(order, n);
            && Size(kept, after) <= max
            && (0 < n ==> max < |files[order[n - 1]].data| + Size(kept, after))
  {
    var n := Doomed(files, order, max);
    var tail := order[n..];
    DoomedIsLeast(files, order, max);
    TailSize(files, order, n, after);
    if 0 < n {
      assert order[n - 1..] == [order[n - 1]] + tail;
    }
  }

  lemma {:induction false} TailSize(files: Files, order: seq<string>, n: nat, after: seq<string>)
    requires Lists(files, order) && Ordered(files, order) && n <= |order| && Lists(files - Front(order, n), after)
    ensures Size(files - Front(order, n), after) == Size(files, order[n..])
  {
    var kept, tail := files - Front(order, n), order[n..];
    KeptIsTail(files, order, n);
    SizeOfWalk(kept, tail, after);
    SizeIn(files, kept, tail);
  }

  /** Dropping the first `n` names of a sorted list drops no file newer than one that stays. */
  lemma {:induction false} DroppedAreOldest(files: Files, order: seq<string>, n: nat, k: string, j: string)
    requires Lists(files, order) && Ordered(files, order) && n <= |order|
    requires k in files && k in order[..n] && j in files && j !in order[..n] && !Scratch(j)
    ensures files[k].mtime <= files[j].mtime
  {
    HeadAndTail(files, order, n);
    assert order == order[..n] + order[n..];
  }

  lemma {:induction false} LastDroppedIsNewest(files: Files, order: seq<string>, n: nat, j: string)
    requires Lists(files, order) && Ordered(files, order) && 0 < n <= |order| && j in order[..n]
    ensures files[j].mtime <= files[order[n - 1]].mtime
  {
    var i :| 0 <= i < n && order[i] == j;
  }

  /** Eviction keeps the newest files and no more than fit. */
  lemma EvictionKeepsNewest(files: Files, names: seq<string>, max: nat, after: seq<string>)
    requires Lists(files, names) && Lists(Kept(files, names, max, {}), after)
    ensures var kept := Kept(files, names, max, {});
            && Size(kept, after) <= max
            && (forall k | k in files && Scratch(k) :: k in kept)
            && (forall k, j | k in files && k !in kept && j in after :: files[k].mtime <= files[j].mtime)
  {
    var order := ByAge(files, names);
    var n := Doomed(files, order, max);
    var head := Front(order, n);
    assert head - {} == head;
    ByAgeSorts(files, names);
    TailFits(files, order, max, after);
    forall k, j | k in files && k in head && j in after
      ensures files[k].mtime <= files[j].mtime
    {
      assert j in files - head && !Scratch(j);
      DroppedAreOldest(files, order, n, k, j);
    }
  }

  /** It removes nothing when everything fits; otherwise the newest file it removes would not have fitted. */
  lemma EvictionIsLeast(files: Files, names: seq<string>, max: nat, after: seq<string>) returns (last: Option<string>)
    requires Lists(files, names) && Lists(Kept(files, names, max, {}), after)
    ensures last.None? <==> Size(files, names) <= max
    ensures var kept := Kept(files, names, max, {});
            match last
            case None => kept == files
            case Some(k) =>
              && k in files && k !in kept
              && max < |files[k].data| + Size(kept, after)
              && forall j | j in files && j !in kept :: files[j].mtime <= files[k].mtime
  {
    var order := ByAge(files, names);
    var n := Doomed(files, order, max);
    var head := Front(order, n);
    assert head - {} == head;
    ByAgeSorts(files, names);
    SizeOfWalk(files, names, order);
    DoomedIsLeast(files, order, max);
    if n == 0 {
      assert files - head == files;
      last := None;
    } else {
      TailFits(files, order, max, after);
      last := Some(order[n - 1]);
      assert order[..n][n - 1] == order[n - 1];
      forall j | j in files && j in head
        ensures files[j].mtime <= files[order[n - 1]].mtime
      {
        LastDroppedIsNewest(files, order, n, j);
      }
    }
  }

  /** A file that cannot be removed stays, and is counted as removed all the same: nothing else goes in its place. */
  lemma {:induction false} StuckStay(files: Files, names: seq<string>, max: nat, stuck: set<string>, k: string)
    requires Lists(files, names)
    ensures k in Kept(files, names, max, stuck) <==> k in files && (k in stuck || k in Kept(files, names, max, {}))
    ensures k in Kept(files, names, max, stuck) ==> Kept(files, names, max, stuck)[k] == files[k]
  {
  }

  lemma {:induction false} NewestIsLast(files: Files, order: seq<string>, key: string)
    requires Lists(files, order) && Ordered(files, order) && key in files && !Scratch(key)
    requires forall k | k in files && k != key && !Scratch(k) :: files[k].mtime < files[key].mtime
    ensures order != [] && order[|order| - 1] == key
  {
    assert key in order;
    var b :| 0 <= b < |order| && order[b] == key;
    var last := order[|order| - 1];
    assert last in order;
    assert files[key].mtime <= files[last].mtime;
  }

  lemma {:induction false} LastFits(files: Files, order: seq<string>, n: nat)
    requires Within(files, order) && n < |order|
    ensures |files[order[|order| - 1]].data| <= Size(files, order[n..])
  {
    var mid, key := order[n..|order| - 1], order[|order| - 1];
    assert order[n..] == mid + [key] + [] && mid + [] == mid;
    SizeSplit(files, mid, key, []);
  }

  lemma {:induction false} AllDoomedIff(files: Files, order: seq<string>, max: nat)
    requires Within(files, order) && order != []
    ensures Doomed(files, order, max) == |order| <==> max < |files[order[|order| - 1]].data|
  {
    var n := Doomed(files, order, max);
    DoomedIsLeast(files, order, max);
    if n < |order| {
      LastFits(files, order, n);
    } else {
      assert order[n - 1..] == [order[n - 1]] && [order[n - 1]][1..] == [];
    }
  }

  /** The newest file is kept exactly if it fits by itself. */
  lemma {:induction false} NewestIsKeptIff(files: Files, names: seq<string>, max: nat, key: string)
    requires Lists(files, names) && key in files && !Scratch(key)
    requires forall k | k in files && k != key && !Scratch(k) :: files[k].mtime < files[key].mtime
    ensures key in Kept(files, names, max, {}) <==> |files[key].data| <= max
  {
    var order := ByAge(files, names);
    ByAgeSorts(files, names);
    NewestIsLast(files, order, key);
    AllDoomedIff(files, order, max);
    LastIsFrontIff(order, Doomed(files, order, max));
  }

  lemma {:induction false} LastIsFrontIff(order: seq<string>, n: nat)
    requires Distinct(order) && order != [] && n <= |order|
    ensures order[|order| - 1] in Front(order, n) <==> n == |order|
  {
    if n == |order| {
      assert order[..n][n - 1] == order[n - 1];
    }
  }
}
