/** What every step of the fleet protocol keeps.

    For each path the published events form a chain of strictly growing clocks
    that ends at the remote manifest.  Each device stands at an anchor on that
    chain (or before it): its clock is the anchor's clock, plus possibly own writes
    that were never published. */
module FleetInvariant {
  import opened Basics
  import opened Clocks
  import opened Conflicts
  import opened Fleet

  /** Every event counts some write, and later events of a path count strictly more. */
  ghost predicate Chain(es: seq<Event>)
  {
    && (forall i | 0 <= i < |es| :: Lt(map[], es[i].clock))
    && forall i, j | 0 <= i < j < |es| && es[i].path == es[j].path :: Lt(es[i].clock, es[j].clock)
  }

  /** No clock in the fleet has an explicit zero. */
  ghost predicate Clean(s: State)
  {
    && (forall d, p | d in s.machines && p in s.machines[d].files :: Positive(s.machines[d].files[p].clock))
    && (forall i | 0 <= i < |s.events| :: Positive(s.events[i].clock))
  }

  ghost predicate IsLast(es: seq<Event>, p: Path, l: int)
  {
    && 0 <= l < |es|
    && es[l].path == p
    && forall i | l < i < |es| :: es[i].path != p
  }

  predicate Describes(m: Manifest, e: Event)
  {
    m == Manifest(e.hash, [e.hash], e.clock, e.device)
  }

  /** The remote manifest of a path is its last event, and every event's path has a manifest. */
  ghost predicate Published(s: State)
  {
    && (forall p | p in s.manifests :: exists l :: IsLast(s.events, p, l) && Describes(s.manifests[p], s.events[l]))
    && (forall i | 0 <= i < |s.events| :: s.events[i].path in s.manifests)
  }

  /** Every chunk a manifest lists is stored. */
  ghost predicate Stored(s: State)
  {
    forall p, c | p in s.manifests && c in s.manifests[p].chunks :: c in s.chunks
  }

  /** The clock at an anchor; anchor -1 stands before the first event. */
  function Base(es: seq<Event>, a: int): Clock
    requires a < |es|
  {
    if a < 0 then map[] else es[a].clock
  }

  /** Device `d`, holding `f` for path `p`, stands at event `a`. */
  ghost predicate Anchored(es: seq<Event>, d: DeviceId, p: Path, f: Option<Version>, a: int)
  {
    && -1 <= a < |es|
    && (0 <= a ==> es[a].path == p)
    && (forall i | 0 <= i < |es| && es[i].path == p :: Get(es[i].clock, d) <= Get(Base(es, a), d))
    && (forall i | 0 <= i < |es| && es[i].path == p && es[i].device == d :: i <= a)
    && (f.None? ==> a == -1)
    && (f.Some? ==>
          && (forall x | x != d :: Get(f.value.clock, x) == Get(Base(es, a), x))
          && Get(Base(es, a), d) <= Get(f.value.clock, d)
          && (Get(f.value.clock, d) == Get(Base(es, a), d) ==> 0 <= a && f.value.hash == es[a].hash))
  }

  /** All events of the path among the first `k` lie at or before the anchor. */
  ghost predicate SeenUpTo(es: seq<Event>, p: Path, k: int, a: int)
  {
    forall i | 0 <= i < k && i < |es| && es[i].path == p :: i <= a
  }

  ghost predicate TracksPath(es: seq<Event>, d: DeviceId, p: Path, f: Option<Version>, k: int)
  {
    exists a :: Anchored(es, d, p, f, a) && SeenUpTo(es, p, k, a)
  }

  ghost predicate Tracks(es: seq<Event>, d: DeviceId, files: map<Path, Version>, k: int)
  {
    forall p :: TracksPath(es, d, p, Lookup(files, p), k)
  }

  ghost predicate Inv(s: State)
  {
    && WellFormed(s)
    && Chain(s.events)
    && Clean(s)
    && Published(s)
    && Stored(s)
    && forall d | d in s.machines :: Tracks(s.events, d, s.machines[d].files, Cursor(s, d))
  }

  // ---- Standing at an anchor ----

  lemma {:induction false} ChainLeq(es: seq<Event>, i: int, j: int)
    requires Chain(es) && 0 <= i <= j < |es| && es[i].path == es[j].path
    ensures Leq(es[i].clock, es[j].clock)
    ensures i < j ==> !Leq(es[j].clock, es[i].clock)
  {
    if i < j {
      assert Lt(es[i].clock, es[j].clock);
    }
  }

  lemma BaseLeqClock(es: seq<Event>, d: DeviceId, p: Path, f: Option<Version>, a: int)
    requires Anchored(es, d, p, f, a)
    ensures Leq(Base(es, a), ClockOf(f))
  {
  }

  /** A device's clock covers exactly the events up to its anchor. */
  lemma {:induction false} SeenIff(es: seq<Event>, d: DeviceId, p: Path, f: Option<Version>, a: int, i: int)
    requires Chain(es) && Anchored(es, d, p, f, a)
    requires 0 <= i < |es| && es[i].path == p
    ensures Leq(es[i].clock, ClockOf(f)) <==> i <= a
  {
    BaseLeqClock(es, d, p, f, a);
    if i <= a {
      ChainLeq(es, i, a);
      LeqTransitive(es[i].clock, Base(es, a), ClockOf(f));
    } else {
      UnseenNotCovered(es, d, p, f, a, i);
    }
  }

  lemma {:induction false} UnseenNotCovered(es: seq<Event>, d: DeviceId, p: Path, f: Option<Version>, a: int, i: int)
    requires Chain(es) && Anchored(es, d, p, f, a)
    requires 0 <= i < |es| && es[i].path == p && a < i
    ensures !Leq(es[i].clock, ClockOf(f))
  {
    if 0 <= a {
      ChainLeq(es, a, i);
    }
    var x :| Get(Base(es, a), x) < Get(es[i].clock, x);
    assert Get(ClockOf(f), x) < Get(es[i].clock, x);
  }

  /** Taking over the content of an event at or past the anchor moves the anchor there. */
  lemma {:induction false} AcceptEvent(es: seq<Event>, d: DeviceId, p: Path, f: Option<Version>, a: int, i: int)
    requires Chain(es) && Anchored(es, d, p, f, a)
    requires 0 <= i < |es| && es[i].path == p && a <= i
    ensures Anchored(es, d, p, Some(Version(es[i].hash, Merged(ClockOf(f), es[i].clock))), i)
  {
    var v := Version(es[i].hash, Merged(ClockOf(f), es[i].clock));
    if 0 <= a {
      ChainLeq(es, a, i);
    }
    assert Leq(Base(es, a), es[i].clock);
    assert Get(Base(es, a), d) == Get(es[i].clock, d);
    forall x
      ensures x != d ==> Get(v.clock, x) == Get(es[i].clock, x)
      ensures Get(es[i].clock, x) <= Get(v.clock, x)
    {
      GetMerged(ClockOf(f), es[i].clock, x);
      assert Get(Base(es, a), x) <= Get(es[i].clock, x);
    }
  }

  /** An event at or before the anchor is recognised as old: delivering it changes nothing. */
  lemma ReplayIsNoop(es: seq<Event>, d: DeviceId, files: map<Path, Version>, a: int, i: int)
    requires Chain(es) && 0 <= i < |es|
    requires Anchored(es, d, es[i].path, Lookup(files, es[i].path), a) && i <= a
    requires Positive(es[i].clock) && Positive(ClockOf(Lookup(files, es[i].path)))
    ensures ApplyEvent(files, d, es[i]) == files
  {
    var e := es[i];
    var v := files[e.path];
    SeenIff(es, d, e.path, Some(v), a, i);
    MergeAbsorbs(v.clock, e.clock);
    if v.hash != e.hash {
      if Leq(v.clock, e.clock) {
        EqualClockEqualHash(es, d, e.path, v, a, i);
      }
      OutcomeMeaning(v.clock, e.clock, v.hash, e.hash, e.path, d, e.device, 0);
    }
  }

  /** A device whose clock counts just what an event counts holds that event's content. */
  lemma {:induction false} EqualClockEqualHash(es: seq<Event>, d: DeviceId, p: Path, v: Version, a: int, i: int)
    requires Chain(es) && Anchored(es, d, p, Some(v), a)
    requires 0 <= i < |es| && es[i].path == p
    requires Same(v.clock, es[i].clock) || (Leq(es[i].clock, v.clock) && Leq(v.clock, es[i].clock))
    ensures i == a && v.hash == es[i].hash
  {
    SeenIff(es, d, p, Some(v), a, i);
    BaseLeqClock(es, d, p, Some(v), a);
    ChainLeq(es, i, a);
    LeqTransitive(Base(es, a), v.clock, es[i].clock);
  }

  /** An event past the anchor is taken over, whatever the comparison says. */
  lemma UnseenIsAccepted(es: seq<Event>, d: DeviceId, files: map<Path, Version>, a: int, i: int)
    requires Chain(es) && 0 <= i < |es| && es[i].device != d
    requires Anchored(es, d, es[i].path, Lookup(files, es[i].path), a) && a < i
    ensures var e := es[i];
            ApplyEvent(files, d, e) ==
            files[e.path := Version(e.hash, Merged(ClockOf(Lookup(files, e.path)), e.clock))]
  {
    var e := es[i];
    if e.path in files {
      var v := files[e.path];
      UnseenNotCovered(es, d, e.path, Some(v), a, i);
      OutcomeMeaning(v.clock, e.clock, v.hash, e.hash, e.path, d, e.device, 0);
    } else {
      assert Merged(map[], e.clock) == e.clock;
    }
  }

  ghost predicate CleanFiles(files: map<Path, Version>)
  {
    forall p | p in files :: Positive(files[p].clock)
  }

  lemma DeliverAtPath(es: seq<Event>, d: DeviceId, files: map<Path, Version>, k: int)
    requires Chain(es) && 0 <= k < |es|
    requires Positive(es[k].clock)
    requires CleanFiles(files) && TracksPath(es, d, es[k].path, Lookup(files, es[k].path), k)
    ensures var files' := ApplyEvent(files, d, es[k]);
            CleanFiles(files') && TracksPath(es, d, es[k].path, Lookup(files', es[k].path), k + 1)
  {
    var e := es[k];
    var f := Lookup(files, e.path);
    var a :| Anchored(es, d, e.path, f, a) && SeenUpTo(es, e.path, k, a);
    if e.device != d && a < k {
      DeliverUnseen(es, d, files, a, k);
    } else {
      OwnEventIsAnchored(es, d, e.path, f, a, k);
      ReplayIsNoop(es, d, files, a, k);
      assert SeenUpTo(es, e.path, k + 1, a);
    }
  }

  lemma OwnEventIsAnchored(es: seq<Event>, d: DeviceId, p: Path, f: Option<Version>, a: int, k: int)
    requires Chain(es) && 0 <= k < |es| && es[k].path == p && Anchored(es, d, p, f, a)
    ensures es[k].device == d ==> k <= a
  {
  }

  lemma DeliverUnseen(es: seq<Event>, d: DeviceId, files: map<Path, Version>, a: int, k: int)
    requires Chain(es) && 0 <= k < |es| && es[k].device != d && Positive(es[k].clock) && CleanFiles(files) && a < k
    requires var p := es[k].path; Anchored(es, d, p, Lookup(files, p), a) && SeenUpTo(es, p, k, a)
    ensures var files' := ApplyEvent(files, d, es[k]);
            CleanFiles(files') && TracksPath(es, d, es[k].path, Lookup(files', es[k].path), k + 1)
  {
    var e := es[k];
    var f := Lookup(files, e.path);
    UnseenIsAccepted(es, d, files, a, k);
    MergedPositive(ClockOf(f), e.clock);
    AcceptEvent(es, d, e.path, f, a, k);
    assert SeenUpTo(es, e.path, k + 1, k);
  }

  /** Delivering event `k` moves a device that has seen the first `k` events to `k + 1`. */
  lemma DeliverNext(es: seq<Event>, d: DeviceId, files: map<Path, Version>, k: int)
    requires Chain(es) && 0 <= k < |es|
    requires Positive(es[k].clock)
    requires CleanFiles(files) && Tracks(es, d, files, k)
    ensures var files' := ApplyEvent(files, d, es[k]);
            CleanFiles(files') && Tracks(es, d, files', k + 1)
  {
    var files' := ApplyEvent(files, d, es[k]);
    assert TracksPath(es, d, es[k].path, Lookup(files, es[k].path), k);
    DeliverAtPath(es, d, files, k);
    forall p
      ensures TracksPath(es, d, p, Lookup(files', p), k + 1)
    {
      if p != es[k].path {
        assert TracksPath(es, d, p, Lookup(files, p), k);
        OtherPathUnmoved(es, d, files, k, p);
      }
    }
  }

  lemma {:induction false} OtherPathUnmoved(es: seq<Event>, d: DeviceId, files: map<Path, Version>, k: int, p: Path)
    requires 0 <= k < |es| && p != es[k].path
    requires TracksPath(es, d, p, Lookup(files, p), k)
    ensures Lookup(ApplyEvent(files, d, es[k]), p) == Lookup(files, p)
    ensures TracksPath(es, d, p, Lookup(files, p), k + 1)
  {
    var a :| Anchored(es, d, p, Lookup(files, p), a) && SeenUpTo(es, p, k, a);
    assert SeenUpTo(es, p, k + 1, a);
  }

  lemma ApplyOneMore(files: map<Path, Version>, d: DeviceId, es: seq<Event>, k: int, n: int)
    requires 0 <= k < n <= |es|
    ensures ApplyEvents(files, d, es[k..n]) == ApplyEvent(ApplyEvents(files, d, es[k..n - 1]), d, es[n - 1])
  {
    assert es[k..n][..n - 1 - k] == es[k..n - 1];
  }

  /** The files after events `k` to `n`. */
  function ApplyRange(files: map<Path, Version>, d: DeviceId, es: seq<Event>, k: int, n: int): map<Path, Version>
    requires 0 <= k <= n <= |es|
    decreases n - k
  {
    if k == n then files else ApplyEvent(ApplyRange(files, d, es, k, n - 1), d, es[n - 1])
  }

  lemma {:induction false} RangeIsSlice(files: map<Path, Version>, d: DeviceId, es: seq<Event>, k: int, n: int)
    requires 0 <= k <= n <= |es|
    ensures ApplyEvents(files, d, es[k..n]) == ApplyRange(files, d, es, k, n)
    decreases n - k
  {
    if k < n {
      RangeIsSlice(files, d, es, k, n - 1);
      ApplyOneMore(files, d, es, k, n);
    }
  }

  /** What every event of a range keeps, the whole range keeps. */
  lemma {:induction false} RangeKeeps(es: seq<Event>, d: DeviceId, files: map<Path, Version>, k: int, n: int,
                                      ok: (map<Path, Version>, int) -> bool)
    requires 0 <= k <= n <= |es| && ok(files, k)
    requires forall fs, i {:trigger ApplyEvent(fs, d, es[i])} | k <= i < n && ok(fs, i) ::
             ok(ApplyEvent(fs, d, es[i]), i + 1)
    ensures ok(ApplyRange(files, d, es, k, n), n)
    decreases n - k
  {
    if k < n {
      RangeKeeps(es, d, files, k, n - 1, ok);
    }
  }

  lemma {:induction false} DeliverRange(es: seq<Event>, d: DeviceId, files: map<Path, Version>, k: int, n: int)
    requires Chain(es) && 0 <= k <= n <= |es|
    requires forall i | 0 <= i < |es| :: Positive(es[i].clock)
    requires CleanFiles(files) && Tracks(es, d, files, k)
    ensures var files' := ApplyRange(files, d, es, k, n);
            CleanFiles(files') && Tracks(es, d, files', n)
  {
    var ok := (fs: map<Path, Version>, i: int) => CleanFiles(fs) && Tracks(es, d, fs, i);
    forall fs, i | k <= i < n && ok(fs, i)
      ensures ok(ApplyEvent(fs, d, es[i]), i + 1)
    {
      DeliverNext(es, d, fs, i);
    }
    RangeKeeps(es, d, files, k, n, ok);
  }

  lemma DeliverAll(es: seq<Event>, d: DeviceId, files: map<Path, Version>, k: int, n: int)
    requires Chain(es) && 0 <= k <= n <= |es|
    requires forall i | 0 <= i < |es| :: Positive(es[i].clock)
    requires CleanFiles(files) && Tracks(es, d, files, k)
    ensures var files' := ApplyEvents(files, d, es[k..n]);
            CleanFiles(files') && Tracks(es, d, files', n)
  {
    DeliverRange(es, d, files, k, n);
    RangeIsSlice(files, d, es, k, n);
  }

  // ---- The steps ----

  lemma AnchorOf(s: State, d: DeviceId, p: Path) returns (a: int)
    requires Inv(s) && d in s.machines
    ensures Anchored(s.events, d, p, FileOf(s, d, p), a) && SeenUpTo(s.events, p, Cursor(s, d), a)
  {
    assert Tracks(s.events, d, s.machines[d].files, Cursor(s, d));
    assert TracksPath(s.events, d, p, Lookup(s.machines[d].files, p), Cursor(s, d));
    a :| Anchored(s.events, d, p, FileOf(s, d, p), a) && SeenUpTo(s.events, p, Cursor(s, d), a);
  }

  lemma LastEventOf(s: State, p: Path) returns (l: int)
    requires Inv(s) && p in s.manifests
    ensures IsLast(s.events, p, l) && Describes(s.manifests[p], s.events[l])
  {
    l :| IsLast(s.events, p, l) && Describes(s.manifests[p], s.events[l]);
  }

  lemma WriteKeepsInv(s: State, d: DeviceId, p: Path, h: Hash)
    requires Inv(s) && d in s.machines
    ensures Inv(Written(s, d, p, h))
  {
    var s' := Written(s, d, p, h);
    var f := FileOf(s, d, p);
    TickAdvances(ClockOf(f), d);
    SetFileKeepsRest(s, d, p, s'.machines[d].files[p]);
    var a := AnchorOf(s, d, p);
    assert Anchored(s.events, d, p, FileOf(s', d, p), a);
  }

  /** Replacing one device's copy by one that is still anchored keeps everything else. */
  lemma SetFileKeepsRest(s: State, d: DeviceId, p: Path, v: Version)
    requires Inv(s) && d in s.machines && Positive(v.clock)
    ensures TracksPath(s.events, d, p, Some(v), Cursor(s, d)) ==> Inv(SetFile(s, d, p, v))
    ensures Clean(SetFile(s, d, p, v))
  {
    var s' := SetFile(s, d, p, v);
    if TracksPath(s.events, d, p, Some(v), Cursor(s, d)) {
      forall x | x in s'.machines
        ensures Tracks(s'.events, x, s'.machines[x].files, Cursor(s', x))
      {
        assert Tracks(s.events, x, s.machines[x].files, Cursor(s, x));
        if x == d {
          forall q
            ensures TracksPath(s.events, d, q, Lookup(s'.machines[d].files, q), Cursor(s, d))
          {
            assert TracksPath(s.events, d, q, Lookup(s.machines[d].files, q), Cursor(s, d));
          }
        }
      }
    }
  }

  lemma PullKeepsInv(s: State, d: DeviceId, p: Path)
    requires Inv(s) && d in s.machines
    ensures Inv(Pulled(s, d, p))
  {
    if s.machines[d].online && p in s.manifests {
      var f, m := FileOf(s, d, p), s.manifests[p];
      var l := LastEventOf(s, p);
      var a := AnchorOf(s, d, p);
      AcceptEvent(s.events, d, p, f, a, l);
      assert SeenUpTo(s.events, p, Cursor(s, d), l);
      MergedPositive(ClockOf(f), m.clock);
      SetFileKeepsRest(s, d, p, Version(m.fileHash, Merged(ClockOf(f), m.clock)));
    }
  }

  /** A device that has not published through this push still stands at its anchor. */
  lemma {:induction false} AppendKeepsAnchor(es: seq<Event>, e: Event, x: DeviceId, p: Path, f: Option<Version>,
                                             a: int, k: int)
    requires Anchored(es, x, p, f, a) && SeenUpTo(es, p, k, a) && k <= |es|
    requires e.path == p ==> e.device != x && Get(e.clock, x) <= Get(Base(es, a), x)
    ensures Anchored(es + [e], x, p, f, a) && SeenUpTo(es + [e], p, k, a)
  {
    var es' := es + [e];
    assert Base(es', a) == Base(es, a);
    forall i | 0 <= i < |es'| && es'[i].path == p
      ensures Get(es'[i].clock, x) <= Get(Base(es', a), x)
      ensures es'[i].device == x ==> i <= a
    {
      if i < |es| {
        assert es'[i] == es[i];
      }
    }
    forall i | 0 <= i < k && i < |es'| && es'[i].path == p
      ensures i <= a
    {
      assert es'[i] == es[i];
    }
  }

  lemma SetSameFile(s: State, d: DeviceId, p: Path)
    requires d in s.machines && p in s.machines[d].files
    ensures SetFile(s, d, p, s.machines[d].files[p]) == s
  {
    var m := s.machines[d];
    assert m.files[p := m.files[p]] == m.files;
    assert m.(files := m.files) == m;
    assert s.machines[d := m] == s.machines;
  }

  /** The pusher's own clock is what gets published, and it extends the chain. */
  lemma PushPublishesOwnClock(s: State, d: DeviceId, p: Path)
    requires Inv(s) && d in s.machines && PushProceeds(s, d, p)
    ensures var v := s.machines[d].files[p];
            && Positive(v.clock)
            && Pushed(s, d, p).events == s.events + [Event(d, p, v.hash, v.clock)]
            && Pushed(s, d, p).machines == s.machines
            && Lt(map[], v.clock)
            && forall i | 0 <= i < |s.events| && s.events[i].path == p :: Lt(s.events[i].clock, v.clock)
  {
    var v := s.machines[d].files[p];
    SetSameFile(s, d, p);
    var a := AnchorOf(s, d, p);
    BaseLeqClock(s.events, d, p, Some(v), a);
    if 0 <= a {
      LeqTransitive(map[], s.events[a].clock, v.clock);
    } else {
      assert Get(map[], d) < Get(v.clock, d);
    }
    if p in s.manifests {
      var m := s.manifests[p];
      var l := LastEventOf(s, p);
      OutcomeMeaning(v.clock, m.clock, v.hash, m.fileHash, p, d, m.writtenBy, 0);
      MergeAbsorbs(v.clock, m.clock);
      forall i | 0 <= i < |s.events| && s.events[i].path == p
        ensures Lt(s.events[i].clock, v.clock)
      {
        ChainLeq(s.events, i, l);
        LeqTransitive(s.events[i].clock, m.clock, v.clock);
      }
    }
  }

  /** Everyone but the pusher at the pushed path: the new event lies beyond their anchor. */
  lemma OthersStandWhereTheyWere(es: seq<Event>, d: DeviceId, p: Path, v: Version, b: int,
                                 x: DeviceId, q: Path, f: Option<Version>, k: int)
    requires Anchored(es, d, p, Some(v), b)
    requires TracksPath(es, x, q, f, k) && k <= |es|
    requires x != d || q != p
    ensures TracksPath(es + [Event(d, p, v.hash, v.clock)], x, q, f, k)
  {
    var a :| Anchored(es, x, q, f, a) && SeenUpTo(es, q, k, a);
    if q == p {
      assert Get(v.clock, x) == Get(Base(es, b), x);
    }
    AppendKeepsAnchor(es, Event(d, p, v.hash, v.clock), x, q, f, a, k);
  }

  lemma PusherStandsAtNewEvent(es: seq<Event>, e: Event, d: DeviceId, p: Path, v: Version, a: int, k: int)
    requires e == Event(d, p, v.hash, v.clock)
    requires Anchored(es, d, p, Some(v), a) && k <= |es|
    ensures TracksPath(es + [e], d, p, Some(v), k)
  {
    var es', n := es + [e], |es|;
    forall i | 0 <= i < |es'| && es'[i].path == p
      ensures Get(es'[i].clock, d) <= Get(v.clock, d)
    {
      if i < n {
        assert es'[i] == es[i];
      }
    }
    assert Base(es', n) == v.clock;
    assert Anchored(es', d, p, Some(v), n) && SeenUpTo(es', p, k, n);
  }

  /** An event whose clock is beyond those of its path extends the chain. */
  lemma {:induction false} AppendKeepsChain(es: seq<Event>, e: Event)
    requires Chain(es) && Lt(map[], e.clock)
    requires forall i | 0 <= i < |es| && es[i].path == e.path :: Lt(es[i].clock, e.clock)
    ensures Chain(es + [e])
  {
    var es' := es + [e];
    forall i, j | 0 <= i < j < |es'| && es'[i].path == es'[j].path
      ensures Lt(es'[i].clock, es'[j].clock)
    {
      assert es'[i] == es[i];
      if j < |es| {
        assert es'[j] == es[j];
      }
    }
    forall i | 0 <= i < |es'|
      ensures Lt(map[], es'[i].clock)
    {
      if i < |es| {
        assert es'[i] == es[i];
      }
    }
  }

  lemma {:induction false} PushKeepsChain(s: State, d: DeviceId, p: Path)
    requires Inv(s) && d in s.machines && PushProceeds(s, d, p)
    ensures Chain(Pushed(s, d, p).events)
  {
    PushPublishesOwnClock(s, d, p);
    var v := s.machines[d].files[p];
    AppendKeepsChain(s.events, Event(d, p, v.hash, v.clock));
  }

  lemma PushKeepsPublished(s: State, d: DeviceId, p: Path)
    requires Inv(s) && d in s.machines && PushProceeds(s, d, p)
    ensures Published(Pushed(s, d, p))
  {
    var s' := Pushed(s, d, p);
    var e := s'.events[|s.events|];
    forall q | q in s'.manifests
      ensures exists l :: IsLast(s'.events, q, l) && Describes(s'.manifests[q], s'.events[l])
    {
      if q == p {
        NewEventIsLast(s.events, e);
        assert Describes(s'.manifests[p], e);
      } else {
        var l := LastEventOf(s, q);
        LastStaysLast(s.events, e, q, l);
        assert Describes(s'.manifests[q], s'.events[l]);
      }
    }
  }

  lemma NewEventIsLast(es: seq<Event>, e: Event)
    ensures IsLast(es + [e], e.path, |es|)
  {
  }

  lemma LastStaysLast(es: seq<Event>, e: Event, q: Path, l: int)
    requires IsLast(es, q, l) && e.path != q
    ensures IsLast(es + [e], q, l) && (es + [e])[l] == es[l]
  {
  }

  lemma PushKeepsTracking(s: State, d: DeviceId, p: Path, x: DeviceId)
    requires Inv(s) && d in s.machines && PushProceeds(s, d, p) && x in s.machines
    ensures var v := s.machines[d].files[p];
            Tracks(s.events + [Event(d, p, v.hash, v.clock)], x, s.machines[x].files, Cursor(s, x))
  {
    var v := s.machines[d].files[p];
    var es' := s.events + [Event(d, p, v.hash, v.clock)];
    var b := AnchorOf(s, d, p);
    forall q
      ensures TracksPath(es', x, q, Lookup(s.machines[x].files, q), Cursor(s, x))
    {
      if x == d && q == p {
        PusherStandsAtNewEvent(s.events, Event(d, p, v.hash, v.clock), d, p, v, b, Cursor(s, d));
      } else {
        var a := AnchorOf(s, x, q);
        OthersStandWhereTheyWere(s.events, d, p, v, b, x, q, FileOf(s, x, q), Cursor(s, x));
      }
    }
  }

  lemma PushKeepsClean(s: State, d: DeviceId, p: Path)
    requires Inv(s) && d in s.machines && PushProceeds(s, d, p)
    ensures var s' := Pushed(s, d, p); WellFormed(s') && Clean(s') && Stored(s') && s'.machines == s.machines
  {
    PushPublishesOwnClock(s, d, p);
  }

  lemma PushKeepsInv(s: State, d: DeviceId, p: Path)
    requires Inv(s) && d in s.machines
    ensures Inv(Pushed(s, d, p))
  {
    if PushProceeds(s, d, p) {
      var s' := Pushed(s, d, p);
      PushPublishesOwnClock(s, d, p);
      PushKeepsChain(s, d, p);
      PushKeepsPublished(s, d, p);
      PushKeepsClean(s, d, p);
      forall x | x in s'.machines
        ensures Tracks(s'.events, x, s'.machines[x].files, Cursor(s', x))
      {
        PushKeepsTracking(s, d, p, x);
      }
    }
  }

  lemma {:induction false} ReplaceFilesKeepsInv(s: State, s': State, d: DeviceId, files: map<Path, Version>, k: nat)
    requires Inv(s) && d in s.machines && k <= |s.events|
    requires s' == s.(machines := s.machines[d := s.machines[d].(files := files)], cursors := s.cursors[d := k])
    requires CleanFiles(files) && Tracks(s.events, d, files, k)
    ensures Inv(s')
  {
    forall x | x in s'.machines
      ensures Tracks(s'.events, x, s'.machines[x].files, Cursor(s', x))
    {
      if x != d {
        assert Cursor(s', x) == Cursor(s, x);
        assert Tracks(s.events, x, s.machines[x].files, Cursor(s, x));
      }
    }
  }

  lemma ProcessKeepsInv(s: State, d: DeviceId)
    requires Inv(s) && d in s.machines
    ensures Inv(Processed(s, d))
  {
    if s.machines[d].online {
      var k, n := Cursor(s, d), |s.events|;
      assert s.events[k..] == s.events[k..n];
      DeliverAll(s.events, d, s.machines[d].files, k, n);
      ReplaceFilesKeepsInv(s, Processed(s, d), d, ApplyEvents(s.machines[d].files, d, s.events[k..]), n);
    }
  }

  lemma {:induction false} OnlineKeepsInv(s: State, d: DeviceId, online: bool)
    requires Inv(s) && d in s.machines
    ensures Inv(WithOnline(s, d, online))
  {
    var s' := WithOnline(s, d, online);
    forall x | x in s'.machines
      ensures Tracks(s'.events, x, s'.machines[x].files, Cursor(s', x))
    {
      assert s'.machines[x].files == s.machines[x].files && Cursor(s', x) == Cursor(s, x);
    }
  }

  lemma StepKeepsInv(s: State, op: Op)
    requires Inv(s) && op.device in s.machines
    ensures Inv(Step(s, op))
  {
    match op
    case WriteFile(d, p, h) => WriteKeepsInv(s, d, p, h);
    case Push(d, p) => PushKeepsInv(s, d, p);
    case Pull(d, p) => PullKeepsInv(s, d, p);
    case GoOffline(d) => OnlineKeepsInv(s, d, false);
    case GoOnline(d) => OnlineKeepsInv(s, d, true);
    case ProcessEvents(d) => ProcessKeepsInv(s, d);
  }

  lemma {:induction false} RunKeepsInv(s: State, ops: seq<Op>)
    requires Inv(s) && Known(s, ops)
    ensures Inv(Run(s, ops))
  {
    if ops != [] {
      RunKeepsInv(s, ops[..|ops| - 1]);
      StepKeepsInv(Run(s, ops[..|ops| - 1]), ops[|ops| - 1]);
    }
  }

  lemma InitInv(devices: set<DeviceId>)
    ensures Inv(Init(devices))
  {
    var s := Init(devices);
    forall d | d in s.machines
      ensures Tracks(s.events, d, s.machines[d].files, Cursor(s, d))
    {
      forall p
        ensures TracksPath(s.events, d, p, Lookup(s.machines[d].files, p), Cursor(s, d))
      {
        assert Anchored(s.events, d, p, None, -1) && SeenUpTo(s.events, p, 0, -1);
      }
    }
  }

  /** A state some run of some fleet leads to. */
  ghost predicate Reachable(s: State)
  {
    exists devices, ops :: Known(Init(devices), ops) && s == Run(Init(devices), ops)
  }

  lemma ReachableInv(s: State)
    requires Reachable(s)
    ensures Inv(s)
  {
    var devices, ops :| Known(Init(devices), ops) && s == Run(Init(devices), ops);
    InitInv(devices);
    RunKeepsInv(Init(devices), ops);
  }
}
