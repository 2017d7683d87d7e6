/** Directory listing in pages: one reply per offset, and what a reader that resumes sees altogether. */
module Readdir {
  import opened Basics
  import StubText

  datatype Kind = Directory | RegularFile

  datatype DirEntry = DirEntry(name: string, kind: Kind, offset: int)

  // ---- From a stored index key to the name shown ----

  /** Strips the prefix as often as it occurs at the front. */
  function TrimPrefix(s: string, prefix: string): string
    decreases |s|
  {
    if prefix != "" && prefix <= s then TrimPrefix(s[|prefix|..], prefix) else s
  }

  function TrimSlashes(s: string): string
  {
    if s != "" && s[0] == '/' then TrimSlashes(s[1..]) else s
  }

  function Rel(key: string, prefix: string): string
  {
    TrimSlashes(TrimPrefix(key, prefix))
  }

  function First(rel: string): (f: string)
    ensures '/' !in f
    ensures f <= rel
    ensures if '/' in rel then f + "/" <= rel else f == rel
  {
    if rel == "" || rel[0] == '/' then ""
    else
      assert rel == [rel[0]] + rel[1..];
      [rel[0]] + First(rel[1..])
  }

  function Shown(rel: string): (string, Kind)
  {
    if '/' in rel then (First(rel), Directory) else (rel + ".tc", RegularFile)
  }

  /** A key shows its relative path, except when that path itself begins with the prefix or a slash. */
  lemma RelOfKey(prefix: string, rel: string)
    requires prefix != ""
    ensures Rel(prefix + rel, prefix) == rel <==> !(prefix <= rel) && !("/" <= rel)
  {
    assert (prefix + rel)[|prefix|..] == rel;
    TrimShortens(rel, prefix);
  }

  /** A file kept under a path that repeats the prefix is shown as if it lay at the top. */
  lemma {:induction false} RepeatedPrefixIsLost()
    ensures Rel("p/" + "p/notes", "p/") == "notes" && Shown("notes") != Shown("p/notes")
  {
    var key := "p/" + "p/notes";
    assert key[2..] == "p/notes" && "p/notes"[2..] == "notes";
    assert "notes"[0] != "p/"[0];
    assert TrimPrefix("notes", "p/") == "notes";
    assert TrimPrefix("p/notes", "p/") == "notes";
    assert TrimPrefix(key, "p/") == "notes";
    assert TrimSlashes("notes") == "notes";
    assert '/' !in "notes" && "p/notes"[1] == '/';
  }

  lemma TrimShortens(s: string, prefix: string)
    ensures |Rel(s, prefix)| <= |s|
    ensures prefix != "" && prefix <= s ==> |Rel(s, prefix)| < |s|
    ensures prefix == "" || !(prefix <= s) ==> (Rel(s, prefix) == s <==> !("/" <= s))
  {
    TrimPrefixShortens(s, prefix);
    TrimSlashesShortens(TrimPrefix(s, prefix));
    assert "/" <= s <==> s != "" && s[0] == '/';
  }

  lemma {:induction false} TrimPrefixShortens(s: string, prefix: string)
    ensures |TrimPrefix(s, prefix)| <= |s|
    ensures prefix != "" && prefix <= s ==> |TrimPrefix(s, prefix)| < |s|
    decreases |s|
  {
    if prefix != "" && prefix <= s {
      TrimPrefixShortens(s[|prefix|..], prefix);
    }
  }

  lemma {:induction false} TrimSlashesShortens(s: string)
    ensures |TrimSlashes(s)| <= |s|
    ensures s != "" && s[0] == '/' ==> |TrimSlashes(s)| < |s|
  {
    if s != "" && s[0] == '/' {
      TrimSlashesShortens(s[1..]);
    }
  }

  // ---- The whole listing ----

  /** Whether the key adds an entry, after those before it: an empty name adds none, a directory only once. */
  predicate Adds(keys: seq<string>, prefix: string, i: nat)
    requires i < |keys|
  {
    var rel := Rel(keys[i], prefix);
    rel != "" && ('/' in rel ==> First(rel) !in Directories(keys, prefix, i))
  }

  /** The directories the first `n` keys lie in. */
  function Directories(keys: seq<string>, prefix: string, n: nat): (ds: set<string>)
    requires n <= |keys|
    ensures forall d :: d in ds <==> exists i | 0 <= i < n ::
            '/' in Rel(keys[i], prefix) && First(Rel(keys[i], prefix)) == d
  {
    if n == 0 then {} else
      var rel := Rel(keys[n - 1], prefix);
      Directories(keys, prefix, n - 1) + if '/' in rel then {First(rel)} else {}
  }

  function Entry(x: (string, Kind), offset: int): DirEntry
  {
    DirEntry(x.0, x.1, offset)
  }

  /** The whole listing for the first `n` keys; entry number i carries offset i + 1. */
  function Listing(keys: seq<string>, prefix: string, n: nat): (all: seq<DirEntry>)
    requires n <= |keys|
    ensures 2 <= |all|
  {
    if n == 0 then [DirEntry(".", Directory, 1), DirEntry("..", Directory, 2)] else
      var all := Listing(keys, prefix, n - 1);
      if Adds(keys, prefix, n - 1) then all + [Entry(Shown(Rel(keys[n - 1], prefix)), |all| + 1)] else all
  }

  ghost predicate Consecutive(all: seq<DirEntry>)
  {
    forall i | 0 <= i < |all| :: all[i].offset == i + 1
  }

  lemma {:induction false} ListingIsConsecutive(keys: seq<string>, prefix: string, n: nat)
    requires n <= |keys|
    ensures Consecutive(Listing(keys, prefix, n))
  {
    if 0 < n {
      ListingIsConsecutive(keys, prefix, n - 1);
    }
  }

  // ---- The reply ----

  /** Where a reply starts. */
  function Start(offset: int, count: nat): (k: nat)
    requires 2 <= count
    ensures k <= count
  {
    if offset == 0 then 0 else if offset <= 1 then 1 else if offset <= count then offset else count
  }

  function Reply<T>(all: seq<T>, offset: int): seq<T>
    requires 2 <= |all|
  {
    all[Start(offset, |all|)..]
  }

  method ReadDots(offset: int) returns (entries: seq<DirEntry>)
    ensures IsReply(entries, [DirEntry(".", Directory, 1), DirEntry("..", Directory, 2)], offset)
  {
    entries := [];
    if offset == 0 {
      entries := entries + [DirEntry(".", Directory, 1)];
    }
    if offset <= 1 {
      entries := entries + [DirEntry("..", Directory, 2)];
    }
  }

  /** What one key adds to the listing, and the directories seen with it. */
  method Visit(keys: seq<string>, prefix: string, i: nat,
               seen: set<string>) returns (shown: Option<(string, Kind)>, more: set<string>)
    requires i < |keys| && seen == Directories(keys, prefix, i)
    ensures shown == if Adds(keys, prefix, i) then Some(Shown(Rel(keys[i], prefix))) else None
    ensures more == Directories(keys, prefix, i + 1)
  {
    var rel := Rel(keys[i], prefix);
    more := seen;
    if rel == "" {
      return None, more;
    }
    if '/' in rel {
      var name := First(rel);
      if name in seen {
        return None, more;
      }
      more := seen + {name};
      return Some((name, Directory)), more;
    }
    return Some((rel + ".tc", RegularFile)), more;
  }

  method Read(keys: seq<string>, prefix: string, offset: int) returns (entries: seq<DirEntry>)
    ensures entries == Reply(Listing(keys, prefix, |keys|), offset)
  {
    var seen: set<string> := {};
    entries := ReadDots(offset);
    ghost var all := Listing(keys, prefix, 0);
    var next, i := 3, 0;
    while i < |keys|
      invariant 0 <= i <= |keys|
      invariant all == Listing(keys, prefix, i) && next == |all| + 1
      invariant seen == Directories(keys, prefix, i)
      invariant IsReply(entries, all, offset)
    {
      var shown, more := Visit(keys, prefix, i, seen);
      ListingStep(keys, prefix, i);
      if shown.Some? {
        var e := DirEntry(shown.value.0, shown.value.1, next);
        ReplyGrows(entries, all, offset, e);
        if offset < next {
          entries := entries + [e];
        }
        all, next := all + [e], next + 1;
      }
      seen, i := more, i + 1;
    }
    ReplyByEntry(entries, all, offset);
  }

  lemma ListingStep(keys: seq<string>, prefix: string, i: nat)
    requires i < |keys|
    ensures var all, shown := Listing(keys, prefix, i), Shown(Rel(keys[i], prefix));
            Listing(keys, prefix, i + 1) ==
            if Adds(keys, prefix, i) then all + [DirEntry(shown.0, shown.1, |all| + 1)] else all
  {
  }

  /** `Reply`, entry by entry. */
  ghost predicate IsReply<T>(entries: seq<T>, all: seq<T>, offset: int)
    requires 2 <= |all|
  {
    var k := Start(offset, |all|);
    |entries| == |all| - k && forall i | 0 <= i < |entries| :: entries[i] == all[k + i]
  }

  lemma ReplyByEntry<T>(entries: seq<T>, all: seq<T>, offset: int)
    requires 2 <= |all| && IsReply(entries, all, offset)
    ensures entries == Reply(all, offset)
  {
  }

  lemma ReplyGrows<T>(entries: seq<T>, all: seq<T>, offset: int, e: T)
    requires 2 <= |all| && IsReply(entries, all, offset)
    ensures IsReply(if offset < |all| + 1 then entries + [e] else entries, all + [e], offset)
  {
  }

  /** What a reply for this offset should hold: the entries with larger offsets, in order. */
  function Beyond(all: seq<DirEntry>, offset: int): seq<DirEntry>
  {
    if all == [] then []
    else
      var last := |all| - 1;
      Beyond(all[..last], offset) + if offset < all[last].offset then [all[last]] else []
  }

  /** `r` is the part of `all` from `j` to `l`, entry by entry. */
  ghost predicate IsPart(r: seq<DirEntry>, all: seq<DirEntry>, j: nat, l: nat)
    requires j <= l <= |all|
  {
    |r| == l - j && forall i | 0 <= i < |r| :: r[i] == all[j + i]
  }

  /** How many of `n` entries have offsets up to this one. */
  function Upto(offset: int, n: nat): (k: nat)
    ensures k <= n
  {
    if offset < 0 then 0 else if offset <= n then offset else n
  }

  lemma {:induction false} BeyondIsTail(all: seq<DirEntry>, offset: int)
    requires Consecutive(all)
    ensures IsPart(Beyond(all, offset), all, Upto(offset, |all|), |all|)
  {
    if all != [] {
      var front, e := all[..|all| - 1], all[|all| - 1];
      BeyondIsTail(front, offset);
      PartGrows(Beyond(front, offset), front, e, offset);
      assert all == front + [e];
    }
  }

  lemma PartGrows(r: seq<DirEntry>, front: seq<DirEntry>, e: DirEntry, offset: int)
    requires IsPart(r, front, Upto(offset, |front|), |front|)
    ensures var all := front + [e];
            IsPart(r + if offset < |all| then [e] else [], all, Upto(offset, |all|), |all|)
  {
  }

  /** A reply holds the entries beyond its offset exactly when the offset is not negative. */
  lemma ReplyIsBeyond(all: seq<DirEntry>, offset: int)
    requires 2 <= |all| && Consecutive(all)
    ensures Reply(all, offset) == Beyond(all, offset) <==> 0 <= offset
  {
    BeyondIsTail(all, offset);
    if offset < 0 {
      assert |Reply(all, offset)| < |Beyond(all, offset)|;
    } else {
      assert Start(offset, |all|) == Upto(offset, |all|);
      ReplyByEntry(Beyond(all, offset), all, offset);
    }
  }

  // ---- The extended call ----

  /** An entry with the size it reports; directories report 0. */
  datatype PlusEntry = PlusEntry(entry: DirEntry, size: nat)

  /** The size in a key's index text, or 0 if there is none to be read. */
  function IndexedSize(texts: map<string, string>, key: string): nat
  {
    if key !in texts then 0 else
      match StubText.ParsedIndex(texts[key])
      case Ok(e) => e.size
      case Err(_) => 0
  }

  function Plus(key: string, x: (string, Kind), offset: int, texts: map<string, string>): PlusEntry
  {
    PlusEntry(Entry(x, offset), if x.1 == Directory then 0 else IndexedSize(texts, key))
  }

  function PlusListing(keys: seq<string>, prefix: string, texts: map<string, string>, n: nat): (all: seq<PlusEntry>)
    requires n <= |keys|
    ensures 2 <= |all|
  {
    if n == 0 then [PlusEntry(DirEntry(".", Directory, 1), 0), PlusEntry(DirEntry("..", Directory, 2), 0)] else
      var all := PlusListing(keys, prefix, texts, n - 1);
      if Adds(keys, prefix, n - 1) then all + [Plus(keys[n - 1], Shown(Rel(keys[n - 1], prefix)), |all| + 1,
        texts)] else all
  }

  /** A file is shown with the size the engine wrote into its index text. */
  lemma {:induction false} SizeIsIndexed(texts: map<string, string>, key: string, e: StubText.IndexEntry)
    requires StubText.LineSafe(e.manifestHash)
    requires key in texts && texts[key] == StubText.PrintIndex(e.manifestHash, e.size, e.chunks)
    ensures IndexedSize(texts, key) == e.size
  {
    StubText.IndexRoundTrip(e);
  }

  /** The key's path is the file shown as `name`, and the size is the one its index text gives: that of every index
      entry of which the text is the printed form, and none if the text is missing or unreadable. */
  ghost predicate GivesSize(key: string, prefix: string, texts: map<string, string>, name: string, size: nat)
  {
    && '/' !in Rel(key, prefix) && Rel(key, prefix) != "" && name == Rel(key, prefix) + ".tc"
    && (key !in texts || StubText.ParsedIndex(texts[key]).Err? ==> size == 0)
    && forall e: StubText.IndexEntry | StubText.LineSafe(e.manifestHash) && key in texts
         && texts[key] == StubText.PrintIndex(e.manifestHash, e.size, e.chunks) :: size == e.size
  }

  /** A directory has size 0, a file the size that the index text of a key showing it gives. */
  ghost predicate SizedRight(keys: seq<string>, prefix: string, texts: map<string, string>, x: PlusEntry)
  {
    if x.entry.kind == Directory then x.size == 0
    else exists k | 0 <= k < |keys| :: GivesSize(keys[k], prefix, texts, x.entry.name, x.size)
  }

  ghost predicate AllSized(keys: seq<string>, prefix: string, texts: map<string, string>, entries: seq<PlusEntry>)
  {
    forall i | 0 <= i < |entries| :: SizedRight(keys, prefix, texts, entries[i])
  }

  lemma {:induction false} ShownWithSize(keys: seq<string>, prefix: string, texts: map<string, string>, k: nat,
                                         offset: int)
    requires k < |keys| && Rel(keys[k], prefix) != ""
    ensures SizedRight(keys, prefix, texts, Plus(keys[k], Shown(Rel(keys[k], prefix)), offset, texts))
  {
    var key, size := keys[k], IndexedSize(texts, keys[k]);
    forall e: StubText.IndexEntry | StubText.LineSafe(e.manifestHash) && key in texts
      && texts[key] == StubText.PrintIndex(e.manifestHash, e.size, e.chunks)
      ensures size == e.size
    {
      SizeIsIndexed(texts, key, e);
    }
    assert '/' !in Rel(key, prefix) ==> GivesSize(key, prefix, texts, Rel(key, prefix) + ".tc", size);
  }

  lemma {:induction false} ListedWithSize(keys: seq<string>, prefix: string, texts: map<string, string>, n: nat)
    requires n <= |keys|
    ensures AllSized(keys, prefix, texts, PlusListing(keys, prefix, texts, n))
  {
    if 0 < n {
      var all := PlusListing(keys, prefix, texts, n - 1);
      ListedWithSize(keys, prefix, texts, n - 1);
      PlusListingStep(keys, prefix, texts, n - 1);
      if Adds(keys, prefix, n - 1) {
        ShownWithSize(keys, prefix, texts, n - 1, |all| + 1);
      }
    }
  }

  /** Every entry of an extended reply is shown with the right size. */
  lemma {:induction false} ReplyWithSizes(keys: seq<string>, prefix: string, texts: map<string, string>, offset: int)
    ensures AllSized(keys, prefix, texts, Reply(PlusListing(keys, prefix, texts, |keys|), offset))
  {
    ListedWithSize(keys, prefix, texts, |keys|);
  }

  /** The entry is what key `k` shows: the file with the size its text gives, or the directory its path lies in. */
  ghost predicate KeyShows(keys: seq<string>, prefix: string, texts: map<string, string>, k: nat, x: PlusEntry)
    requires k < |keys|
  {
    var rel := Rel(keys[k], prefix);
    if '/' in rel then x.entry.kind == Directory && x.entry.name + "/" <= rel && '/' !in x.entry.name && x.size == 0
    else x.entry.kind == RegularFile && GivesSize(keys[k], prefix, texts, x.entry.name, x.size)
  }

  lemma {:induction false} AddedIsShown(keys: seq<string>, prefix: string, texts: map<string, string>, k: nat,
                                        offset: int)
    requires k < |keys| && Rel(keys[k], prefix) != ""
    ensures KeyShows(keys, prefix, texts, k, Plus(keys[k], Shown(Rel(keys[k], prefix)), offset, texts))
  {
    ShownWithSize([keys[k]], prefix, texts, 0, offset);
  }

  /** The entries after the two dots come in the order of the keys: what stands before is shown by an earlier key. */
  lemma {:induction false} ListedInKeyOrder(keys: seq<string>, prefix: string, texts: map<string, string>, n: nat,
                                            i: nat, j: nat) returns (a: nat, b: nat)
    requires n <= |keys| && 2 <= i < j < |PlusListing(keys, prefix, texts, n)|
    ensures var all := PlusListing(keys, prefix, texts, n);
            a < b < n && KeyShows(keys, prefix, texts, a, all[i]) && KeyShows(keys, prefix, texts, b, all[j])
  {
    var all := PlusListing(keys, prefix, texts, n - 1);
    PlusListingStep(keys, prefix, texts, n - 1);
    if j < |all| {
      a, b := ListedInKeyOrder(keys, prefix, texts, n - 1, i, j);
    } else {
      AddedIsShown(keys, prefix, texts, n - 1, |all| + 1);
      a := ShowingKey(keys, prefix, texts, n - 1, i);
      b := n - 1;
    }
  }

  lemma {:induction false} ShowingKey(keys: seq<string>, prefix: string, texts: map<string, string>, n: nat,
                                      i: nat) returns (a: nat)
    requires n <= |keys| && 2 <= i < |PlusListing(keys, prefix, texts, n)|
    ensures a < n && KeyShows(keys, prefix, texts, a, PlusListing(keys, prefix, texts, n)[i])
  {
    var all := PlusListing(keys, prefix, texts, n - 1);
    PlusListingStep(keys, prefix, texts, n - 1);
    if i < |all| {
      a := ShowingKey(keys, prefix, texts, n - 1, i);
    } else {
      AddedIsShown(keys, prefix, texts, n - 1, |all| + 1);
      a := n - 1;
    }
  }

  /** The extended call casts its unsigned offset to a signed one. */
  function AsI64(n: nat): int
  {
    if n < 0x8000_0000_0000_0000 then n else n - 0x1_0000_0000_0000_0000
  }

  method ReadPlus(keys: seq<string>, prefix: string, texts: map<string, string>,
                  unsigned: nat) returns (entries: seq<PlusEntry>)
    requires unsigned < 0x1_0000_0000_0000_0000
    ensures entries == Reply(PlusListing(keys, prefix, texts, |keys|), AsI64(unsigned))
    ensures AllSized(keys, prefix, texts, entries)
  {
    var seen: set<string>, offset := {}, AsI64(unsigned);
    entries := ReadPlusDots(offset);
    ghost var all := PlusListing(keys, prefix, texts, 0);
    var next, i := 3, 0;
    while i < |keys|
      invariant 0 <= i <= |keys|
      invariant all == PlusListing(keys, prefix, texts, i) && next == |all| + 1
      invariant seen == Directories(keys, prefix, i)
      invariant IsReply(entries, all, offset)
    {
      var shown, more := Visit(keys, prefix, i, seen);
      PlusListingStep(keys, prefix, texts, i);
      if shown.Some? {
        var e := Plus(keys[i], shown.value, next, texts);
        ReplyGrows(entries, all, offset, e);
        if offset < next {
          entries := entries + [e];
        }
        all, next := all + [e], next + 1;
      }
      seen, i := more, i + 1;
    }
    ReplyByEntry(entries, all, offset);
    ReplyWithSizes(keys, prefix, texts, offset);
  }

  method ReadPlusDots(offset: int) returns (entries: seq<PlusEntry>)
    ensures IsReply(entries, [PlusEntry(DirEntry(".", Directory, 1), 0), PlusEntry(DirEntry("..", Directory, 2), 0)],
            offset)
  {
    entries := [];
    if offset == 0 {
      entries := entries + [PlusEntry(DirEntry(".", Directory, 1), 0)];
    }
    if offset <= 1 {
      entries := entries + [PlusEntry(DirEntry("..", Directory, 2), 0)];
    }
  }

  lemma PlusListingStep(keys: seq<string>, prefix: string, texts: map<string, string>, i: nat)
    requires i < |keys|
    ensures var all, shown := PlusListing(keys, prefix, texts, i), Shown(Rel(keys[i], prefix));
            PlusListing(keys, prefix, texts, i + 1) ==
            if Adds(keys, prefix, i) then all + [Plus(keys[i], shown, |all| + 1, texts)] else all
  {
  }

  function Plain(all: seq<PlusEntry>): (r: seq<DirEntry>)
    ensures |r| == |all|
    ensures forall i | 0 <= i < |r| :: r[i] == all[i].entry
  {
    if all == [] then [] else Plain(all[..|all| - 1]) + [all[|all| - 1].entry]
  }

  /** The two listings agree entry by entry. */
  ghost predicate Same(plus: seq<PlusEntry>, all: seq<DirEntry>)
  {
    |plus| == |all| && forall i | 0 <= i < |all| :: plus[i].entry == all[i]
  }

  lemma SameMore(plus: seq<PlusEntry>, all: seq<DirEntry>, x: PlusEntry)
    requires Same(plus, all)
    ensures Same(plus + [x], all + [x.entry])
  {
  }

  lemma {:induction false} PlusListingIsSame(keys: seq<string>, prefix: string, texts: map<string, string>, n: nat)
    requires n <= |keys|
    ensures Same(PlusListing(keys, prefix, texts, n), Listing(keys, prefix, n))
  {
    if 0 < n {
      PlusListingIsSame(keys, prefix, texts, n - 1);
      var plus, all := PlusListing(keys, prefix, texts, n - 1), Listing(keys, prefix, n - 1);
      SameMore(plus, all, Plus(keys[n - 1], Shown(Rel(keys[n - 1], prefix)), |plus| + 1, texts));
      PlusListingStep(keys, prefix, texts, n - 1);
      ListingStep(keys, prefix, n - 1);
    }
  }

  lemma {:induction false} SameIsPlain(plus: seq<PlusEntry>, all: seq<DirEntry>)
    requires Same(plus, all)
    ensures Plain(plus) == all
  {
  }

  lemma {:induction false} PlusListingIsListing(keys: seq<string>, prefix: string, texts: map<string, string>, n: nat)
    requires n <= |keys|
    ensures Plain(PlusListing(keys, prefix, texts, n)) == Listing(keys, prefix, n)
  {
    PlusListingIsSame(keys, prefix, texts, n);
    SameIsPlain(PlusListing(keys, prefix, texts, n), Listing(keys, prefix, n));
  }

  /** The two calls show the same names, kinds and offsets, and the extended one is right, exactly below the sign bit.
      */
  lemma {:induction false} ExtendedReplyIsBeyond(keys: seq<string>, prefix: string, texts: map<string, string>,
                                                 unsigned: nat)
    requires unsigned < 0x1_0000_0000_0000_0000 && |Listing(keys, prefix, |keys|)| < 0x8000_0000_0000_0000
    ensures var all, r := Listing(keys, prefix, |keys|), Plain(Reply(PlusListing(keys, prefix, texts, |keys|),
            AsI64(unsigned)));
            && r == Reply(all, AsI64(unsigned))
            && (r == Beyond(all, unsigned) <==> unsigned < 0x8000_0000_0000_0000)
  {
    var all, plus := Listing(keys, prefix, |keys|), PlusListing(keys, prefix, texts, |keys|);
    ListingIsConsecutive(keys, prefix, |keys|);
    PlusListingIsListing(keys, prefix, texts, |keys|);
    ReplyByEntry(Plain(Reply(plus, AsI64(unsigned))), all, AsI64(unsigned));
    ReplyIsBeyond(all, AsI64(unsigned));
    BeyondIsTail(all, unsigned);
  }

  // ---- Resuming ----

  /** A reader that takes some entries of each reply and resumes at the last offset it saw. */
  function Resumed(reply: int -> seq<DirEntry>, offset: int, sizes: seq<nat>): seq<DirEntry>
    decreases |sizes|
  {
    if sizes == [] then [] else
      var page := Page(reply(offset), sizes[0]);
      page + Resumed(reply, ResumeAt(page, offset), sizes[1..])
  }

  function Sum(sizes: seq<nat>): nat
  {
    if sizes == [] then 0 else sizes[0] + Sum(sizes[1..])
  }

  /** The page a reader takes of a reply, and where it resumes. */
  function Page(r: seq<DirEntry>, size: nat): seq<DirEntry>
  {
    if size <= |r| then r[..size] else r
  }

  function ResumeAt(page: seq<DirEntry>, offset: int): int
  {
    if page == [] then offset else page[|page| - 1].offset
  }

  lemma {:induction false} PageIsPart(all: seq<DirEntry>, j: nat, size: nat)
    requires Consecutive(all) && j <= |all|
    ensures var page, k := Page(all[j..], size), Min(|all|, j + size);
            IsPart(page, all, j, k) && ResumeAt(page, j) == k
  {
    var page, k := Page(all[j..], size), Min(|all|, j + size);
    assert page != [] ==> page[|page| - 1] == all[k - 1];
  }

  lemma ResumedStep(reply: int -> seq<DirEntry>, j: int, sizes: seq<nat>, page: seq<DirEntry>, k: int)
    requires sizes != [] && page == Page(reply(j), sizes[0]) && k == ResumeAt(page, j)
    ensures Resumed(reply, j, sizes) == page + Resumed(reply, k, sizes[1..])
  {
  }

  lemma PartsJoin(a: seq<DirEntry>, b: seq<DirEntry>, all: seq<DirEntry>, j: nat, k: nat, l: nat)
    requires j <= k <= l <= |all| && IsPart(a, all, j, k) && IsPart(b, all, k, l)
    ensures IsPart(a + b, all, j, l)
  {
  }

  lemma {:induction false} ResumedFrom(all: seq<DirEntry>, reply: int -> seq<DirEntry>, j: nat, sizes: seq<nat>)
    requires Consecutive(all) && j <= |all| && forall i {:trigger reply(i)} | 0 <= i <= |all| :: reply(i) == all[i..]
    ensures IsPart(Resumed(reply, j, sizes), all, j, Min(|all|, j + Sum(sizes)))
    decreases |sizes|
  {
    if sizes != [] {
      var k, l := Min(|all|, j + sizes[0]), Min(|all|, j + Sum(sizes));
      var page := Page(reply(j), sizes[0]);
      PageIsPart(all, j, sizes[0]);
      ResumedStep(reply, j, sizes, page, k);
      ResumedFrom(all, reply, k, sizes[1..]);
      MinOfRest(|all|, j, sizes);
      PartsJoin(page, Resumed(reply, k, sizes[1..]), all, j, k, l);
    }
  }

  lemma MinOfRest(n: nat, j: nat, sizes: seq<nat>)
    requires sizes != []
    ensures Min(n, Min(n, j + sizes[0]) + Sum(sizes[1..])) == Min(n, j + Sum(sizes))
  {
  }

  function Replies(all: seq<DirEntry>): int -> seq<DirEntry>
    requires 2 <= |all|
  {
    offset => Reply(all, offset)
  }

  lemma RepliesFrom(all: seq<DirEntry>, i: nat)
    requires 2 <= |all| && i <= |all|
    ensures Replies(all)(i) == all[i..]
  {
  }

  /** Whatever the page sizes, a reader that starts at 0 and reads on to the end sees every entry once and in order. */
  lemma PagesEnumerateOnce(keys: seq<string>, prefix: string, sizes: seq<nat>)
    requires |Listing(keys, prefix, |keys|)| <= Sum(sizes)
    ensures Resumed(Replies(Listing(keys, prefix, |keys|)), 0, sizes) == Listing(keys, prefix, |keys|)
  {
    ListingIsConsecutive(keys, prefix, |keys|);
    AllPages(Listing(keys, prefix, |keys|), sizes);
  }

  lemma AllPages(all: seq<DirEntry>, sizes: seq<nat>)
    requires 2 <= |all| <= Sum(sizes) && Consecutive(all)
    ensures Resumed(Replies(all), 0, sizes) == all
  {
    forall i | 0 <= i <= |all|
      ensures Replies(all)(i) == all[i..]
    {
      RepliesFrom(all, i);
    }
    ResumedFrom(all, Replies(all), 0, sizes);
  }
}
