/** What a directory listing names: every stored path, each directory once, and when names are unique. */
module ListingNames {
  import opened Readdir

  // ---- What is listed ----

  /** The name and kind appear after the two dots. */
  ghost predicate Lists(all: seq<DirEntry>, x: (string, Kind))
  {
    exists i | 2 <= i < |all| :: (all[i].name, all[i].kind) == x
  }

  lemma ListsMore(all: seq<DirEntry>, y: (string, Kind), offset: int, x: (string, Kind))
    requires 2 <= |all|
    ensures Lists(all + [Entry(y, offset)], x) <==> Lists(all, x) || x == y
  {
    var more := all + [Entry(y, offset)];
    if Lists(all, x) {
      var i :| 2 <= i < |all| && (all[i].name, all[i].kind) == x;
      assert more[i] == all[i];
    }
    assert more[|all|] == Entry(y, offset);
  }

  ghost predicate Stored(keys: seq<string>, prefix: string, n: nat, x: (string, Kind))
    requires n <= |keys|
  {
    exists i | 0 <= i < n :: Rel(keys[i], prefix) != "" && Shown(Rel(keys[i], prefix)) == x
  }

  lemma StoredMore(keys: seq<string>, prefix: string, n: nat, x: (string, Kind))
    requires n < |keys|
    ensures var rel := Rel(keys[n], prefix);
            Stored(keys, prefix, n + 1, x) <==> Stored(keys, prefix, n, x) || (rel != "" && Shown(rel) == x)
  {
  }

  lemma {:induction false} StoredBefore(keys: seq<string>, prefix: string, n: nat)
    requires n < |keys| && Rel(keys[n], prefix) != "" && !Adds(keys, prefix, n)
    ensures Stored(keys, prefix, n, Shown(Rel(keys[n], prefix)))
  {
    var rel := Rel(keys[n], prefix);
    var i :| 0 <= i < n && '/' in Rel(keys[i], prefix) && First(Rel(keys[i], prefix)) == First(rel);
    assert Rel(keys[i], prefix) != "" && Shown(Rel(keys[i], prefix)) == Shown(rel);
  }

  /** A name is listed exactly when some key shows it. */
  lemma {:induction false} ListedIffStored(keys: seq<string>, prefix: string, n: nat, x: (string, Kind))
    requires n <= |keys|
    ensures Lists(Listing(keys, prefix, n), x) <==> Stored(keys, prefix, n, x)
  {
    if 0 < n {
      ListedIffStored(keys, prefix, n - 1, x);
      var all, rel := Listing(keys, prefix, n - 1), Rel(keys[n - 1], prefix);
      ListsMore(all, Shown(rel), |all| + 1, x);
      StoredMore(keys, prefix, n - 1, x);
      if rel != "" && !Adds(keys, prefix, n - 1) {
        StoredBefore(keys, prefix, n - 1);
      }
    }
  }

  ghost predicate DistinctRels(keys: seq<string>, prefix: string)
  {
    forall i, j | 0 <= i < j < |keys| :: Rel(keys[i], prefix) != Rel(keys[j], prefix)
  }

  lemma SameShown(a: string, b: string)
    requires Shown(a) == Shown(b)
    ensures Shown(a).1 == RegularFile ==> a == b
    ensures Shown(a).1 == Directory ==> First(a) == First(b)
  {
    if '/' !in a {
      assert a == (a + ".tc")[..|a + ".tc"| - 3];
      assert b == (b + ".tc")[..|b + ".tc"| - 3];
    }
  }

  lemma AddedAgain(keys: seq<string>, prefix: string, n: nat)
    requires n < |keys| && Adds(keys, prefix, n) && Lists(Listing(keys, prefix, n), Shown(Rel(keys[n], prefix)))
    ensures Shown(Rel(keys[n], prefix)).1 == RegularFile && !DistinctRels(keys, prefix)
  {
    var rel := Rel(keys[n], prefix);
    ListedIffStored(keys, prefix, n, Shown(rel));
    var i :| 0 <= i < n && Rel(keys[i], prefix) != "" && Shown(Rel(keys[i], prefix)) == Shown(rel);
    SameShown(Rel(keys[i], prefix), rel);
  }

  predicate Dot(name: string)
  {
    name == "." || name == ".."
  }

  /** Some path lies in a directory named like one of the two dots. */
  ghost predicate Dotted(keys: seq<string>, prefix: string, n: nat)
    requires n <= |keys|
  {
    exists i | 0 <= i < n :: DottedAt(keys, prefix, i)
  }

  predicate DottedAt(keys: seq<string>, prefix: string, i: nat)
    requires i < |keys|
  {
    var rel := Rel(keys[i], prefix);
    '/' in rel && Dot(First(rel))
  }

  /** Two entries alike are files of which two keys show the same path, or one of the dots and a directory named like
      it. */
  ghost predicate Once(all: seq<DirEntry>, distinct: bool, dotted: bool)
  {
    forall i, j | 0 <= i < j < |all| :: Alike(all[i], all[j]) ==>
      || (all[i].kind == RegularFile && !distinct)
      || (i < 2 <= j && all[i].kind == Directory && dotted)
  }

  predicate Alike(a: DirEntry, b: DirEntry)
  {
    a.name == b.name && a.kind == b.kind
  }

  lemma {:induction false} DotsFirst(keys: seq<string>, prefix: string, n: nat)
    requires n <= |keys|
    ensures var all := Listing(keys, prefix, n);
            all[0] == DirEntry(".", Directory, 1) && all[1] == DirEntry("..", Directory, 2)
  {
    if 0 < n {
      DotsFirst(keys, prefix, n - 1);
    }
  }

  lemma {:induction false} OnceMore(all: seq<DirEntry>, distinct: bool, dotted: bool, x: (string, Kind), offset: int)
    requires 2 <= |all| && Once(all, distinct, dotted)
    requires all[0] == DirEntry(".", Directory, 1) && all[1] == DirEntry("..", Directory, 2)
    requires (Lists(all, x) ==> x.1 == RegularFile && !distinct) && (x.1 == Directory && Dot(x.0) ==> dotted)
    ensures Once(all + [Entry(x, offset)], distinct, dotted)
  {
    var more := all + [Entry(x, offset)];
    forall i, j | 0 <= i < j < |more| && Alike(more[i], more[j])
      ensures (more[i].kind == RegularFile && !distinct) || (i < 2 <= j && more[i].kind == Directory && dotted)
    {
      assert more[i] == all[i];
      if j == |all| {
        assert (all[i].name, all[i].kind) == x;
      } else {
        assert more[j] == all[j];
      }
    }
  }

  lemma DottedMore(keys: seq<string>, prefix: string, n: nat)
    requires n < |keys|
    ensures Dotted(keys, prefix, n + 1) <==> Dotted(keys, prefix, n) || DottedAt(keys, prefix, n)
  {
  }

  lemma OnceWider(all: seq<DirEntry>, distinct: bool, a: bool, b: bool)
    requires Once(all, distinct, a) && (a ==> b)
    ensures Once(all, distinct, b)
  {
  }

  /** No directory is listed twice unless a path lies in one named like a dot, and no file is when the keys show
      different paths. */
  lemma {:induction false} ListedOnce(keys: seq<string>, prefix: string, n: nat)
    requires n <= |keys|
    ensures Once(Listing(keys, prefix, n), DistinctRels(keys, prefix), Dotted(keys, prefix, n))
  {
    if 0 < n {
      ListedOnce(keys, prefix, n - 1);
      var all, x := Listing(keys, prefix, n - 1), Shown(Rel(keys[n - 1], prefix));
      var distinct, dotted := DistinctRels(keys, prefix), Dotted(keys, prefix, n);
      DottedMore(keys, prefix, n - 1);
      OnceWider(all, distinct, Dotted(keys, prefix, n - 1), dotted);
      if Adds(keys, prefix, n - 1) {
        if Lists(all, x) {
          AddedAgain(keys, prefix, n - 1);
        }
        DotsFirst(keys, prefix, n - 1);
        OnceMore(all, distinct, dotted, x, |all| + 1);
      }
    }
  }

  // ---- Names alone ----

  /** Two paths whose entries carry the same name: one file twice, or a file and a directory named like its stub. */
  predicate Clash(a: string, b: string)
  {
    if '/' in a then '/' !in b && First(a) == b + ".tc"
    else if '/' in b then First(b) == a + ".tc"
    else a == b
  }

  ghost predicate NamesClash(keys: seq<string>, prefix: string, n: nat)
    requires n <= |keys|
  {
    exists i, j | 0 <= i < j < n :: ClashAt(keys, prefix, i, j)
  }

  /** Key `n` clashes with an earlier one. */
  ghost predicate ClashesBefore(keys: seq<string>, prefix: string, n: nat)
    requires n < |keys|
  {
    exists i | 0 <= i < n :: ClashAt(keys, prefix, i, n)
  }

  predicate ClashAt(keys: seq<string>, prefix: string, i: nat, j: nat)
    requires i < |keys| && j < |keys|
  {
    var a, b := Rel(keys[i], prefix), Rel(keys[j], prefix);
    a != "" && b != "" && Clash(a, b)
  }

  ghost predicate NamesUnique(all: seq<DirEntry>)
  {
    forall i, j | 0 <= i < j < |all| :: all[i].name != all[j].name
  }

  ghost predicate HasName(all: seq<DirEntry>, name: string)
  {
    exists i | 0 <= i < |all| :: all[i].name == name
  }

  lemma {:induction false} UniqueMore(all: seq<DirEntry>, e: DirEntry)
    requires 2 <= |all|
    ensures NamesUnique(all + [e]) <==> NamesUnique(all) && !HasName(all, e.name)
  {
    var more := all + [e];
    assert forall i | 0 <= i < |all| :: more[i] == all[i];
    assert more[|all|] == e;
    if NamesUnique(all) && !HasName(all, e.name) {
      forall i, j | 0 <= i < j < |more|
        ensures more[i].name != more[j].name
      {
        assert more[i] == all[i];
        if j < |all| {
          assert more[j] == all[j];
        }
      }
    }
    if NamesUnique(more) {
      forall i, j | 0 <= i < j < |all|
        ensures all[i].name != all[j].name
      {
        assert more[i] == all[i] && more[j] == all[j];
      }
    }
  }

  /** A name shown before is a clash, unless it is a directory shown again. */
  lemma {:induction false} SameNameIsClash(a: string, b: string)
    ensures Shown(a).0 == Shown(b).0 <==> Clash(a, b) || ('/' in a && '/' in b && First(a) == First(b))
  {
    if '/' !in a && '/' !in b && Shown(a).0 == Shown(b).0 {
      SameShown(a, b);
    }
  }

  lemma {:induction false} NameIsStored(keys: seq<string>, prefix: string, n: nat, name: string)
    requires n <= |keys|
    ensures HasName(Listing(keys, prefix, n), name) <==>
            Dot(name) || Stored(keys, prefix, n, (name, Directory)) || Stored(keys, prefix, n, (name, RegularFile))
  {
    var all := Listing(keys, prefix, n);
    ListedIffStored(keys, prefix, n, (name, Directory));
    ListedIffStored(keys, prefix, n, (name, RegularFile));
    DotsFirst(keys, prefix, n);
    if HasName(all, name) && !Dot(name) {
      var i :| 0 <= i < |all| && all[i].name == name;
      if all[i].kind == Directory {
        assert Lists(all, (name, Directory));
      } else {
        assert (all[i].name, all[i].kind) == (name, RegularFile);
      }
    }
    if Stored(keys, prefix, n, (name, Directory)) || Stored(keys, prefix, n, (name, RegularFile)) {
      var i :| 2 <= i < |all| && all[i].name == name;
    }
  }

  lemma {:induction false} StubIsNoDot(rel: string)
    requires rel != ""
    ensures Dot(Shown(rel).0) <==> '/' in rel && Dot(First(rel))
  {
    if '/' !in rel {
      assert 3 < |Shown(rel).0|;
    }
  }

  /** For a key that adds an entry, its name was there before exactly when its path clashes with an earlier one or
      lies in a directory named like a dot. */
  lemma {:induction false} NewNameIffNoClash(keys: seq<string>, prefix: string, n: nat)
    requires n < |keys| && Adds(keys, prefix, n)
    ensures HasName(Listing(keys, prefix, n), Shown(Rel(keys[n], prefix)).0) <==>
            ClashesBefore(keys, prefix, n) || DottedAt(keys, prefix, n)
  {
    var rel := Rel(keys[n], prefix);
    var name := Shown(rel).0;
    NameIsStored(keys, prefix, n, name);
    StubIsNoDot(rel);
    forall i | 0 <= i < n
      ensures Rel(keys[i], prefix) != "" && Shown(Rel(keys[i], prefix)).0 == name <==> ClashAt(keys, prefix, i, n)
    {
      SameNameIsClash(Rel(keys[i], prefix), rel);
    }
    if ClashesBefore(keys, prefix, n) {
      var i :| 0 <= i < n && ClashAt(keys, prefix, i, n);
      assert Shown(Rel(keys[i], prefix)) == (name, Shown(Rel(keys[i], prefix)).1);
    }
  }

  /** A directory shown before clashes with nothing that its first appearance does not clash with. */
  lemma {:induction false} RepeatClashesNoMore(keys: seq<string>, prefix: string, n: nat)
    requires n < |keys| && !Adds(keys, prefix, n) && ClashesBefore(keys, prefix, n)
    ensures NamesClash(keys, prefix, n)
  {
    var rel := Rel(keys[n], prefix);
    var i :| 0 <= i < n && ClashAt(keys, prefix, i, n);
    var k :| 0 <= k < n && '/' in Rel(keys[k], prefix) && First(Rel(keys[k], prefix)) == First(rel);
    assert ClashAt(keys, prefix, if i < k then i else k, if i < k then k else i);
  }

  lemma {:induction false} ClashMore(keys: seq<string>, prefix: string, n: nat)
    requires n < |keys|
    ensures NamesClash(keys, prefix, n + 1) <==> NamesClash(keys, prefix, n) || ClashesBefore(keys, prefix, n)
  {
  }

  /** A directory shown before lies under a dot only if its first appearance does. */
  lemma {:induction false} RepeatIsNoMoreDotted(keys: seq<string>, prefix: string, n: nat)
    requires n < |keys| && !Adds(keys, prefix, n) && DottedAt(keys, prefix, n)
    ensures Dotted(keys, prefix, n)
  {
    var rel := Rel(keys[n], prefix);
    var k :| 0 <= k < n && '/' in Rel(keys[k], prefix) && First(Rel(keys[k], prefix)) == First(rel);
    assert DottedAt(keys, prefix, k);
  }

  /** What key `k` does: whether it adds an entry, and whether it repeats a name. */
  predicate Counted(unique: nat -> bool, bad: nat -> bool, adds: bool, again: bool, k: nat)
  {
    && (bad(k + 1) <==> bad(k) || again)
    && (if adds then unique(k + 1) <==> unique(k) && !again else unique(k + 1) == unique(k) && (again ==> bad(k)))
  }

  lemma {:induction false} CountedOut(unique: nat -> bool, bad: nat -> bool, adds: nat -> bool, again: nat -> bool,
                                      n: nat)
    requires unique(0) && !bad(0) && forall k: nat | k < n :: Counted(unique, bad, adds(k), again(k), k)
    ensures unique(n) <==> !bad(n)
  {
    if 0 < n {
      CountedOut(unique, bad, adds, again, n - 1);
      assert Counted(unique, bad, adds(n - 1), again(n - 1), n - 1);
    }
  }

  ghost function Unique(keys: seq<string>, prefix: string): nat -> bool
  {
    (k: nat) => k <= |keys| && NamesUnique(Listing(keys, prefix, k))
  }

  ghost function Bad(keys: seq<string>, prefix: string): nat -> bool
  {
    (k: nat) => k <= |keys| && (NamesClash(keys, prefix, k) || Dotted(keys, prefix, k))
  }

  ghost function Again(keys: seq<string>, prefix: string): nat -> bool
  {
    (k: nat) => k < |keys| && (ClashesBefore(keys, prefix, k) || DottedAt(keys, prefix, k))
  }

  ghost function Adding(keys: seq<string>, prefix: string): nat -> bool
  {
    (k: nat) => k < |keys| && Adds(keys, prefix, k)
  }

  lemma {:induction false} KeyIsCounted(keys: seq<string>, prefix: string, k: nat)
    requires k < |keys|
    ensures Counted(Unique(keys, prefix), Bad(keys, prefix), Adding(keys, prefix)(k), Again(keys, prefix)(k), k)
  {
    ClashMore(keys, prefix, k);
    DottedMore(keys, prefix, k);
    UniqueStep(keys, prefix, k);
  }

  /** Every name in a listing is unique exactly when no two paths clash and none lies in a directory named like
      a dot. */
  lemma {:induction false} NamesUniqueIff(keys: seq<string>, prefix: string, n: nat)
    requires n <= |keys|
    ensures NamesUnique(Listing(keys, prefix, n)) <==> !NamesClash(keys, prefix, n) && !Dotted(keys, prefix, n)
  {
    forall k: nat | k < n
      ensures Counted(Unique(keys, prefix), Bad(keys, prefix), Adding(keys, prefix)(k), Again(keys, prefix)(k), k)
    {
      KeyIsCounted(keys, prefix, k);
    }
    CountedOut(Unique(keys, prefix), Bad(keys, prefix), Adding(keys, prefix), Again(keys, prefix), n);
  }

  lemma {:induction false} UniqueStep(keys: seq<string>, prefix: string, n: nat)
    requires n < |keys|
    ensures var all, next := Listing(keys, prefix, n), Listing(keys, prefix, n + 1);
            var again := ClashesBefore(keys, prefix, n) || DottedAt(keys, prefix, n);
            if Adds(keys, prefix, n) then NamesUnique(next) <==> NamesUnique(all) && !again
            else next == all && (again ==> NamesClash(keys, prefix, n) || Dotted(keys, prefix, n))
  {
    var all := Listing(keys, prefix, n);
    ListingStep(keys, prefix, n);
    if Adds(keys, prefix, n) {
      UniqueMore(all, Entry(Shown(Rel(keys[n], prefix)), |all| + 1));
      NewNameIffNoClash(keys, prefix, n);
    } else {
      if ClashesBefore(keys, prefix, n) {
        RepeatClashesNoMore(keys, prefix, n);
      }
      if DottedAt(keys, prefix, n) {
        RepeatIsNoMoreDotted(keys, prefix, n);
      }
    }
  }

  /** A file whose path starts with a dot component puts a second dot into the listing. */
  lemma {:induction false} DotIsListedTwice()
    ensures Listing(["p/./b"], "p/", 1) ==
            [DirEntry(".", Directory, 1), DirEntry("..", Directory, 2), DirEntry(".", Directory, 3)]
  {
    var keys := ["p/./b"];
    assert "p/./b"[2..] == "./b" && "./b"[0] != "p/"[0];
    assert TrimPrefix(keys[0], "p/") == "./b";
    FirstOf(".", "b");
    assert "." + "/" + "b" == "./b" && "./b"[1] == '/';
    ListingStep(keys, "p/", 0);
  }

  /** A file and a directory named like its stub are listed under one name. */
  lemma {:induction false} StubAndDirectoryClash()
    ensures Listing(["p/a", "p/a.tc/b"], "p/", 2)[2..] ==
            [DirEntry("a.tc", RegularFile, 3), DirEntry("a.tc", Directory, 4)]
  {
    var keys := ["p/a", "p/a.tc/b"];
    assert "p/a"[2..] == "a" && "p/a.tc/b"[2..] == "a.tc/b";
    assert "a"[0] != "p/"[0] && "a.tc/b"[0] != "p/"[0];
    assert TrimPrefix(keys[0], "p/") == "a" && TrimPrefix(keys[1], "p/") == "a.tc/b";
    FirstOf("a.tc", "b");
    assert "a.tc" + "/" + "b" == "a.tc/b";
    FileThenDirectory(keys, "p/", "a", "a.tc/b");
  }

  lemma {:induction false} FileThenDirectory(keys: seq<string>, prefix: string, a: string, b: string)
    requires |keys| == 2 && Rel(keys[0], prefix) == a && Rel(keys[1], prefix) == b && a != "" && '/' !in a && '/' in b
    ensures Listing(keys, prefix, 2)[2..] == [DirEntry(a + ".tc", RegularFile, 3), DirEntry(First(b), Directory, 4)]
  {
    assert Directories(keys, prefix, 1) == {};
    ListingStep(keys, prefix, 0);
    ListingStep(keys, prefix, 1);
  }

  lemma {:induction false} FirstOf(name: string, rest: string)
    requires '/' !in name
    ensures First(name + "/" + rest) == name
  {
    var path := name + "/" + rest;
    if name != "" {
      assert path[1..] == name[1..] + "/" + rest;
      FirstOf(name[1..], rest);
      assert name == [name[0]] + name[1..];
    }
  }
}
