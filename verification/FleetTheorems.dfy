/** What the fleet protocol guarantees in every reachable state and over whole runs. */
module FleetTheorems {
  import opened Basics
  import opened Clocks
  import opened Conflicts
  import opened Fleet
  import opened FleetInvariant

  // ---- Equal clocks mean equal content ----

  ghost predicate HeldLocally(s: State, p: Path, v: Version)
  {
    exists d :: d in s.machines && FileOf(s, d, p) == Some(v)
  }

  ghost predicate EverPublished(s: State, p: Path, v: Version)
  {
    exists i :: 0 <= i < |s.events| && s.events[i].path == p && v == Version(s.events[i].hash, s.events[i].clock)
  }

  /** `v` is some device's copy of the path, its remote manifest or a published event. */
  ghost predicate Present(s: State, p: Path, v: Version)
  {
    || HeldLocally(s, p, v)
    || EverPublished(s, p, v)
    || (p in s.manifests && v == Version(s.manifests[p].fileHash, s.manifests[p].clock))
  }

  lemma {:induction false} ManifestWasPublished(s: State, p: Path)
    requires Inv(s) && p in s.manifests
    ensures EverPublished(s, p, Version(s.manifests[p].fileHash, s.manifests[p].clock))
  {
    var l := LastEventOf(s, p);
  }

  lemma {:induction false} SameClockSameEvent(es: seq<Event>, i: int, j: int)
    requires Chain(es) && 0 <= i < |es| && 0 <= j < |es| && es[i].path == es[j].path
    requires Same(es[i].clock, es[j].clock)
    ensures i == j
  {
    assert !Lt(es[i].clock, es[j].clock) && !Lt(es[j].clock, es[i].clock);
  }

  lemma {:induction false} PublishedAgree(s: State, p: Path, v: Version, w: Version)
    requires Chain(s.events) && EverPublished(s, p, v) && EverPublished(s, p, w) && Same(v.clock, w.clock)
    ensures v.hash == w.hash
  {
    var i :| 0 <= i < |s.events| && s.events[i].path == p && v == Version(s.events[i].hash, s.events[i].clock);
    var j :| 0 <= j < |s.events| && s.events[j].path == p && w == Version(s.events[j].hash, s.events[j].clock);
    SameClockSameEvent(s.events, i, j);
  }

  lemma {:induction false} HeldAgreesWithPublished(s: State, d: DeviceId, p: Path, v: Version, w: Version)
    requires Inv(s) && d in s.machines && FileOf(s, d, p) == Some(v)
    requires EverPublished(s, p, w) && Same(v.clock, w.clock)
    ensures v.hash == w.hash
  {
    var i :| 0 <= i < |s.events| && s.events[i].path == p && w == Version(s.events[i].hash, s.events[i].clock);
    var a := AnchorOf(s, d, p);
    EqualClockEqualHash(s.events, d, p, v, a, i);
  }

  /** Two devices with the same clock stand at the same event, so neither has unpublished writes. */
  lemma {:induction false} HeldAgree(es: seq<Event>, d: DeviceId, x: DeviceId, p: Path, v: Version, w: Version,
                                     a: int, b: int)
    requires Chain(es) && d != x && Same(v.clock, w.clock)
    requires Anchored(es, d, p, Some(v), a) && Anchored(es, x, p, Some(w), b)
    ensures v.hash == w.hash
  {
    AnchorsOrdered(es, d, x, p, v, w, a, b);
    AnchorsOrdered(es, x, d, p, w, v, b, a);
    assert Get(v.clock, d) == Get(w.clock, d) && Get(v.clock, x) == Get(w.clock, x);
  }

  lemma {:induction false} AnchorsOrdered(es: seq<Event>, d: DeviceId, x: DeviceId, p: Path, v: Version,
                                          w: Version, a: int, b: int)
    requires Chain(es) && Anchored(es, d, p, Some(v), a) && Anchored(es, x, p, Some(w), b)
    requires Leq(w.clock, v.clock)
    ensures b <= a
  {
    if 0 <= b {
      SeenIff(es, x, p, Some(w), b, b);
      LeqTransitive(es[b].clock, w.clock, v.clock);
      SeenIff(es, d, p, Some(v), a, b);
    }
  }

  /** In every reachable state two versions of a path with equal clocks are the same version. */
  lemma EqualClocksEqualContent(s: State, p: Path, v: Version, w: Version)
    requires Reachable(s) && Present(s, p, v) && Present(s, p, w) && Same(v.clock, w.clock)
    ensures v.hash == w.hash
  {
    ReachableInv(s);
    if p in s.manifests {
      ManifestWasPublished(s, p);
    }
    if EverPublished(s, p, v) && EverPublished(s, p, w) {
      PublishedAgree(s, p, v, w);
    } else if EverPublished(s, p, w) {
      var d :| d in s.machines && FileOf(s, d, p) == Some(v);
      HeldAgreesWithPublished(s, d, p, v, w);
    } else {
      var x :| x in s.machines && FileOf(s, x, p) == Some(w);
      if EverPublished(s, p, v) {
        HeldAgreesWithPublished(s, x, p, w, v);
      } else {
        var d :| d in s.machines && FileOf(s, d, p) == Some(v);
        if d != x {
          var a := AnchorOf(s, d, p);
          var b := AnchorOf(s, x, p);
          HeldAgree(s.events, d, x, p, v, w, a, b);
        }
      }
    }
  }

  /** So a conflict always means two versions neither of which has seen the other:
      the equal-clock arm of the comparison is never taken. */
  lemma ConflictMeansConcurrent(s: State, p: Path, v: Version, w: Version, d: DeviceId, x: DeviceId, now: nat)
    requires Reachable(s) && Present(s, p, v) && Present(s, p, w)
    ensures CompareClocks(v.clock, w.clock, v.hash, w.hash, p, d, x, now).Conflict?
            <==> !Leq(v.clock, w.clock) && !Leq(w.clock, v.clock) && v.hash != w.hash
  {
    OutcomeMeaning(v.clock, w.clock, v.hash, w.hash, p, d, x, now);
    if Same(v.clock, w.clock) {
      EqualClocksEqualContent(s, p, v, w);
    }
  }

  lemma EventIsCovered(es: seq<Event>, d: DeviceId, p: Path, f: Option<Version>, a: int, i: int)
    requires Anchored(es, d, p, f, a) && 0 <= i < |es| && es[i].path == p
    ensures Get(es[i].clock, d) <= Get(ClockOf(f), d)
  {
  }

  lemma {:induction false} PublishedIsCovered(s: State, d: DeviceId, p: Path, v: Version)
    requires Inv(s) && d in s.machines && EverPublished(s, p, v)
    ensures Get(v.clock, d) <= Get(ClockOf(FileOf(s, d, p)), d)
  {
    var a := AnchorOf(s, d, p);
    var i :| 0 <= i < |s.events| && s.events[i].path == p && v == Version(s.events[i].hash, s.events[i].clock);
    EventIsCovered(s.events, d, p, FileOf(s, d, p), a, i);
  }

  lemma {:induction false} HeldIsCovered(s: State, d: DeviceId, p: Path, x: DeviceId, v: Version)
    requires Inv(s) && d in s.machines && x in s.machines && x != d && FileOf(s, x, p) == Some(v)
    ensures Get(v.clock, d) <= Get(ClockOf(FileOf(s, d, p)), d)
  {
    var a := AnchorOf(s, d, p);
    var b := AnchorOf(s, x, p);
    assert Get(v.clock, d) == Get(Base(s.events, b), d);
    if 0 <= b {
      EventIsCovered(s.events, d, p, FileOf(s, d, p), a, b);
    }
  }

  /** No clock anywhere exceeds device `d`'s own entry for `d`. */
  lemma OwnEntryIsLargest(s: State, d: DeviceId, p: Path, v: Version)
    requires Reachable(s) && d in s.machines && Present(s, p, v)
    ensures Get(v.clock, d) <= Get(ClockOf(FileOf(s, d, p)), d)
  {
    ReachableInv(s);
    if p in s.manifests {
      ManifestWasPublished(s, p);
    }
    if EverPublished(s, p, v) {
      PublishedIsCovered(s, d, p, v);
    } else {
      var x :| x in s.machines && FileOf(s, x, p) == Some(v);
      if x != d {
        HeldIsCovered(s, d, p, x, v);
      }
    }
  }

  // ---- Pushing ----

  /** Comparing a device's copy with the last event: the clocks say exactly who has seen whom. */
  lemma {:induction false} CompareWithLast(es: seq<Event>, d: DeviceId, p: Path, v: Version, a: int, l: int)
    requires Chain(es) && Anchored(es, d, p, Some(v), a) && IsLast(es, p, l)
    requires v.hash != es[l].hash
    ensures var e := es[l];
            var o := CompareClocks(v.clock, e.clock, v.hash, e.hash, p, d, e.device, 0);
            && (o.LocalNewer? <==> Leq(e.clock, v.clock))
            && (o.Conflict? <==> !Leq(e.clock, v.clock) && Get(e.clock, d) < Get(v.clock, d))
  {
    var e := es[l];
    OutcomeMeaning(v.clock, e.clock, v.hash, e.hash, p, d, e.device, 0);
    AheadOnlyInOwnEntry(es, d, p, v, a, l);
    if Leq(e.clock, v.clock) && Leq(v.clock, e.clock) {
      EqualClockEqualHash(es, d, p, v, a, l);
    }
  }

  /** A push replaces the manifest just when the pusher has seen it and holds other content.
      It reports a conflict just when the pusher has not seen it, holds other content and has
      written since; in every other case the remote is left as it was. */
  lemma PushIsExact(s: State, d: DeviceId, p: Path)
    requires Reachable(s) && d in s.machines
    requires s.machines[d].online && p in s.machines[d].files && p in s.manifests
    ensures var v, m := s.machines[d].files[p], s.manifests[p];
            && (PushProceeds(s, d, p) <==> v.hash != m.fileHash && Leq(m.clock, v.clock))
            && (PushConflicts(s, d, p) <==>
                  v.hash != m.fileHash && !Leq(m.clock, v.clock) && Get(m.clock, d) < Get(v.clock, d))
            && (!PushProceeds(s, d, p) ==> Pushed(s, d, p) == s)
            && (PushProceeds(s, d, p) ==>
                  Pushed(s, d, p).manifests == s.manifests[p := Manifest(v.hash, [v.hash], v.clock, d)])
  {
    ReachableInv(s);
    var v := s.machines[d].files[p];
    var l := LastEventOf(s, p);
    var a := AnchorOf(s, d, p);
    if v.hash != s.manifests[p].fileHash {
      CompareWithLast(s.events, d, p, v, a, l);
    }
    if PushProceeds(s, d, p) {
      PushWritesOwnClock(s, d, p);
    }
  }

  lemma {:induction false} PushWritesOwnClock(s: State, d: DeviceId, p: Path)
    requires Inv(s) && d in s.machines && PushProceeds(s, d, p)
    ensures var v := s.machines[d].files[p];
            && Pushed(s, d, p).manifests == s.manifests[p := Manifest(v.hash, [v.hash], v.clock, d)]
            && (p in s.manifests ==> Lt(s.manifests[p].clock, v.clock))
  {
    var v := s.machines[d].files[p];
    if p in s.manifests {
      var m := s.manifests[p];
      var l := LastEventOf(s, p);
      OutcomeMeaning(v.clock, m.clock, v.hash, m.fileHash, p, d, m.writtenBy, 0);
      MergeAbsorbs(v.clock, m.clock);
    }
  }

  /** A device can be ahead of the last event only through its own entry. */
  lemma {:induction false} AheadOnlyInOwnEntry(es: seq<Event>, d: DeviceId, p: Path, v: Version, a: int, l: int)
    requires Chain(es) && Anchored(es, d, p, Some(v), a) && IsLast(es, p, l)
    ensures Leq(v.clock, es[l].clock) <==> Get(v.clock, d) <= Get(es[l].clock, d)
  {
    if 0 <= a {
      ChainLeq(es, a, l);
    }
    forall x | x != d
      ensures Get(v.clock, x) <= Get(es[l].clock, x)
    {
      assert Get(Base(es, a), x) <= Get(es[l].clock, x);
    }
  }

  // ---- The remote only moves forward ----

  ghost predicate RemoteExtends(s: State, t: State)
  {
    && s.events <= t.events
    && s.chunks.Keys <= t.chunks.Keys
    && forall p | p in s.manifests ::
         && p in t.manifests
         && (t.manifests[p] == s.manifests[p] || Lt(s.manifests[p].clock, t.manifests[p].clock))
  }

  lemma {:induction false} PushExtendsRemote(s: State, d: DeviceId, p: Path)
    requires Inv(s) && d in s.machines
    ensures RemoteExtends(s, Pushed(s, d, p))
  {
    if PushProceeds(s, d, p) {
      var t := Pushed(s, d, p);
      PushWritesOwnClock(s, d, p);
      assert t.events[..|s.events|] == s.events;
      assert s.chunks.Keys <= t.chunks.Keys;
    }
  }

  /** Only a push touches the remote or the log. */
  lemma OtherStepsKeepRemote(s: State, op: Op)
    requires WellFormed(s) && op.device in s.machines && !op.Push?
    ensures var t := Step(s, op);
            t.manifests == s.manifests && t.events == s.events && t.chunks == s.chunks
  {
  }

  lemma {:induction false} StepExtendsRemote(s: State, op: Op)
    requires Inv(s) && op.device in s.machines
    ensures RemoteExtends(s, Step(s, op))
  {
    if op.Push? {
      PushExtendsRemote(s, op.device, op.path);
    } else {
      OtherStepsKeepRemote(s, op);
    }
  }

  lemma {:induction false} RemoteExtendsTransitive(s: State, t: State, u: State)
    requires RemoteExtends(s, t) && RemoteExtends(t, u)
    ensures RemoteExtends(s, u)
  {
    forall p | p in s.manifests
      ensures p in u.manifests
      ensures u.manifests[p] == s.manifests[p] || Lt(s.manifests[p].clock, u.manifests[p].clock)
    {
      if t.manifests[p] != s.manifests[p] && u.manifests[p] != t.manifests[p] {
        LeqTransitive(s.manifests[p].clock, t.manifests[p].clock, u.manifests[p].clock);
      }
    }
  }

  /** No lost update: over any run the log only grows, a manifest is only ever replaced by one
      that has seen it, and the log of a path is a strictly growing chain ending at its manifest. */
  lemma NoLostUpdate(s: State, ops: seq<Op>)
    requires Reachable(s) && Known(s, ops)
    ensures RemoteExtends(s, Run(s, ops))
    ensures var t := Run(s, ops);
            && Chain(t.events)
            && forall p | p in t.manifests ::
                 exists l :: IsLast(t.events, p, l) && Describes(t.manifests[p], t.events[l])
  {
    ReachableInv(s);
    RunKeepsInv(s, ops);
    RunExtendsRemote(s, ops);
  }

  lemma {:induction false} RunExtendsRemote(s: State, ops: seq<Op>)
    requires Inv(s) && Known(s, ops)
    ensures RemoteExtends(s, Run(s, ops))
  {
    if ops != [] {
      var t := Run(s, ops[..|ops| - 1]);
      RunExtendsRemote(s, ops[..|ops| - 1]);
      RunKeepsInv(s, ops[..|ops| - 1]);
      StepExtendsRemote(t, ops[|ops| - 1]);
      RemoteExtendsTransitive(s, t, Run(s, ops));
    }
  }

  /** No silent data loss: the chunks of every manifest are stored. */
  lemma ManifestsAreRetrievable(s: State, p: Path, c: Hash)
    requires Reachable(s) && p in s.manifests && c in s.manifests[p].chunks
    ensures c in s.chunks && c == s.manifests[p].fileHash
  {
    ReachableInv(s);
    var l := LastEventOf(s, p);
  }

  // ---- Delivery ----

  ghost predicate Consumed(s: State, d: DeviceId, e: Event)
  {
    exists i :: 0 <= i < Cursor(s, d) && i < |s.events| && s.events[i] == e
  }

  lemma ReplayOne(s: State, d: DeviceId, e: Event)
    requires Inv(s) && d in s.machines && Consumed(s, d, e)
    ensures ApplyEvent(s.machines[d].files, d, e) == s.machines[d].files
  {
    var i :| 0 <= i < Cursor(s, d) && i < |s.events| && s.events[i] == e;
    var a := AnchorOf(s, d, e.path);
    ReplayIsNoop(s.events, d, s.machines[d].files, a, i);
  }

  /** Redelivery safety: consumed events delivered again, any of them, in any order and number,
      change neither the content nor the clock of any file. */
  lemma {:induction false} RedeliveryIsHarmless(s: State, d: DeviceId, again: seq<Event>)
    requires Reachable(s) && d in s.machines
    requires forall k | 0 <= k < |again| :: Consumed(s, d, again[k])
    ensures ApplyEvents(s.machines[d].files, d, again) == s.machines[d].files
  {
    ReachableInv(s);
    if again != [] {
      RedeliveryIsHarmless(s, d, again[..|again| - 1]);
      ReplayOne(s, d, again[|again| - 1]);
    }
  }

  lemma {:induction false} EventsOnlyAdvanceClocks(files: map<Path, Version>, d: DeviceId, es: seq<Event>, p: Path)
    ensures Leq(ClockOf(Lookup(files, p)), ClockOf(Lookup(ApplyEvents(files, d, es), p)))
  {
    if es != [] {
      var e := es[|es| - 1];
      var mid := ApplyEvents(files, d, es[..|es| - 1]);
      EventsOnlyAdvanceClocks(files, d, es[..|es| - 1], p);
      MergeIsLub(ClockOf(Lookup(mid, p)), e.clock, map[]);
      LeqTransitive(ClockOf(Lookup(files, p)), ClockOf(Lookup(mid, p)), ClockOf(Lookup(ApplyEvent(mid, d, e), p)));
    }
  }

  lemma StepAdvancesClocks(s: State, op: Op, d: DeviceId, p: Path)
    requires WellFormed(s) && op.device in s.machines && d in s.machines
    ensures Leq(ClockOf(FileOf(s, d, p)), ClockOf(FileOf(Step(s, op), d, p)))
  {
    if op.device == d {
      var c := ClockOf(FileOf(s, d, p));
      match op
      case WriteFile(_, _, _) => TickAdvances(c, d);
      case Push(_, q) => MergeIsLub(c, if q in s.manifests then s.manifests[q].clock else map[], map[]);
      case Pull(_, q) => MergeIsLub(c, if q in s.manifests then s.manifests[q].clock else map[], map[]);
      case ProcessEvents(_) => EventsOnlyAdvanceClocks(s.machines[d].files, d, s.events[Cursor(s, d)..], p);
      case _ =>
    }
  }

  /** Clock monotonicity over whole runs, for every device and path and every entry of the clock. */
  lemma {:induction false} ClocksNeverGoBack(s: State, ops: seq<Op>, d: DeviceId, p: Path)
    requires WellFormed(s) && Known(s, ops) && d in s.machines
    ensures Leq(ClockOf(FileOf(s, d, p)), ClockOf(FileOf(Run(s, ops), d, p)))
  {
    if ops != [] {
      var t := Run(s, ops[..|ops| - 1]);
      ClocksNeverGoBack(s, ops[..|ops| - 1], d, p);
      StepAdvancesClocks(t, ops[|ops| - 1], d, p);
      LeqTransitive(ClockOf(FileOf(s, d, p)), ClockOf(FileOf(t, d, p)), ClockOf(FileOf(Run(s, ops), d, p)));
    }
  }

  // ---- Convergence ----

  /** Device `d` holds the remote content of `p` and has seen the remote version. */
  ghost predicate Synced(s: State, d: DeviceId, p: Path)
    requires d in s.machines
  {
    && p in s.manifests
    && p in s.machines[d].files
    && s.machines[d].files[p].hash == s.manifests[p].fileHash
    && Leq(s.manifests[p].clock, s.machines[d].files[p].clock)
  }

  predicate Quiet(op: Op)
  {
    !op.WriteFile? && !op.Push?
  }

  lemma {:induction false} PullSyncs(s: State, d: DeviceId, p: Path)
    requires d in s.machines && s.machines[d].online && p in s.manifests
    ensures Synced(Pulled(s, d, p), d, p)
  {
    MergeIsLub(ClockOf(FileOf(s, d, p)), s.manifests[p].clock, map[]);
  }

  lemma EventTouchesOwnPath(files: map<Path, Version>, d: DeviceId, e: Event, p: Path)
    requires e.path != p
    ensures Lookup(ApplyEvent(files, d, e), p) == Lookup(files, p)
  {
  }

  lemma SeenEventKeepsFile(es: seq<Event>, d: DeviceId, p: Path, files: map<Path, Version>, a: int, i: int)
    requires Chain(es) && 0 <= i < |es| && Positive(es[i].clock)
    requires Anchored(es, d, p, Lookup(files, p), a) && (es[i].path == p ==> i <= a)
    requires Positive(ClockOf(Lookup(files, p)))
    ensures Lookup(ApplyEvent(files, d, es[i]), p) == Lookup(files, p)
  {
    if es[i].path == p {
      ReplayIsNoop(es, d, files, a, i);
    } else {
      EventTouchesOwnPath(files, d, es[i], p);
    }
  }

  /** Events up to the anchor leave the device's copy of the path alone, however often they come. */
  lemma {:induction false} EventsKeepSynced(es: seq<Event>, d: DeviceId, p: Path, files: map<Path, Version>,
                                            a: int, k: int, n: int)
    requires Chain(es) && 0 <= k <= n <= |es|
    requires forall i | 0 <= i < |es| :: Positive(es[i].clock)
    requires Anchored(es, d, p, Lookup(files, p), a) && SeenUpTo(es, p, |es|, a)
    requires Positive(ClockOf(Lookup(files, p)))
    ensures Lookup(ApplyEvents(files, d, es[k..n]), p) == Lookup(files, p)
    decreases n - k
  {
    if k < n {
      EventsKeepSynced(es, d, p, files, a, k, n - 1);
      var mid := ApplyEvents(files, d, es[k..n - 1]);
      assert Lookup(mid, p) == Lookup(files, p);
      SeenEventKeepsFile(es, d, p, mid, a, n - 1);
      ApplyOneMore(files, d, es, k, n);
    }
  }

  /** A device that has seen the last event for a path has seen them all. */
  lemma SyncedHasSeenAll(s: State, d: DeviceId, p: Path) returns (a: int)
    requires Inv(s) && d in s.machines && Synced(s, d, p)
    ensures Anchored(s.events, d, p, FileOf(s, d, p), a) && SeenUpTo(s.events, p, |s.events|, a)
  {
    a := AnchorOf(s, d, p);
    var l := LastEventOf(s, p);
    SeenIff(s.events, d, p, FileOf(s, d, p), a, l);
  }

  lemma ProcessKeepsSynced(s: State, d: DeviceId, p: Path)
    requires Inv(s) && d in s.machines && Synced(s, d, p)
    ensures Synced(Processed(s, d), d, p)
  {
    var a := SyncedHasSeenAll(s, d, p);
    ProcessKeepsFile(s, d, p, a);
  }

  lemma ProcessKeepsFile(s: State, d: DeviceId, p: Path, a: int)
    requires d in s.machines && Cursor(s, d) <= |s.events| && Chain(s.events) && Clean(s)
    requires Anchored(s.events, d, p, FileOf(s, d, p), a) && SeenUpTo(s.events, p, |s.events|, a)
    ensures FileOf(Processed(s, d), d, p) == FileOf(s, d, p)
  {
    var k := Cursor(s, d);
    assert s.events[k..] == s.events[k..|s.events|];
    EventsKeepSynced(s.events, d, p, s.machines[d].files, a, k, |s.events|);
  }

  lemma StepTouchesOwnMachine(s: State, op: Op, d: DeviceId)
    requires WellFormed(s) && op.device in s.machines && d in s.machines && d != op.device
    ensures Step(s, op).machines[d] == s.machines[d]
  {
  }

  lemma {:induction false} QuietStepKeepsSynced(s: State, op: Op, d: DeviceId, p: Path)
    requires Inv(s) && op.device in s.machines && d in s.machines
    requires Quiet(op) && Synced(s, d, p)
    ensures Synced(Step(s, op), d, p)
  {
    if op.device != d {
      OtherStepsKeepRemote(s, op);
      StepTouchesOwnMachine(s, op, d);
    } else {
      match op
      case ProcessEvents(_) => ProcessKeepsSynced(s, d, p);
      case Pull(_, q) => PullKeepsSynced(s, d, q, p);
      case GoOnline(_) =>
      case GoOffline(_) =>
    }
  }

  lemma {:induction false} PullKeepsSynced(s: State, d: DeviceId, q: Path, p: Path)
    requires d in s.machines && Synced(s, d, p)
    ensures Synced(Pulled(s, d, q), d, p)
  {
    if q == p && s.machines[d].online {
      PullSyncs(s, d, p);
    }
  }

  /** Convergence: once writing and pushing stop, a device that pulls a path at some point while it is
      online ends with exactly the remote content, whatever other pulls and deliveries come before,
      between or after. */
  lemma {:induction false} Convergence(s: State, ops: seq<Op>, d: DeviceId, p: Path, k: int)
    requires Reachable(s) && Known(s, ops) && d in s.machines && p in s.manifests
    requires forall j | 0 <= j < |ops| :: Quiet(ops[j])
    requires 0 <= k < |ops| && ops[k] == Pull(d, p) && Run(s, ops[..k]).machines[d].online
    ensures Run(s, ops).manifests == s.manifests
    ensures Synced(Run(s, ops), d, p)
  {
    ReachableInv(s);
    QuietRun(s, ops);
    SyncedAfterPull(s, ops, d, p, k);
    StaysSynced(s, ops, d, p, k + 1);
  }

  lemma SyncedAfterPull(s: State, ops: seq<Op>, d: DeviceId, p: Path, k: int)
    requires WellFormed(s) && Known(s, ops) && d in s.machines && p in s.manifests
    requires forall k | 0 <= k < |ops| :: Quiet(ops[k])
    requires 0 <= k < |ops| && ops[k] == Pull(d, p) && Run(s, ops[..k]).machines[d].online
    ensures Synced(Run(s, ops[..k + 1]), d, p)
  {
    RunOneMore(s, ops, k);
    QuietRun(s, ops[..k]);
    PullSyncs(Run(s, ops[..k]), d, p);
  }

  lemma {:induction false} RunOneMore(s: State, ops: seq<Op>, k: int)
    requires WellFormed(s) && Known(s, ops) && 0 <= k < |ops|
    ensures Known(s, ops[..k]) && Known(s, ops[..k + 1])
    ensures Run(s, ops[..k + 1]) == Step(Run(s, ops[..k]), ops[k])
  {
    assert ops[..k + 1][..k] == ops[..k];
  }

  lemma {:induction false} QuietRun(s: State, ops: seq<Op>)
    requires WellFormed(s) && Known(s, ops)
    requires forall k | 0 <= k < |ops| :: Quiet(ops[k])
    ensures Run(s, ops).manifests == s.manifests && Run(s, ops).events == s.events
  {
    if ops != [] {
      QuietRun(s, ops[..|ops| - 1]);
      OtherStepsKeepRemote(Run(s, ops[..|ops| - 1]), ops[|ops| - 1]);
    }
  }

  lemma {:induction false} StaysSynced(s: State, ops: seq<Op>, d: DeviceId, p: Path, k: int)
    requires Inv(s) && Known(s, ops) && d in s.machines && 0 <= k <= |ops|
    requires forall j | 0 <= j < |ops| :: Quiet(ops[j])
    requires Synced(Run(s, ops[..k]), d, p)
    ensures Synced(Run(s, ops), d, p)
    decreases |ops| - k
  {
    if k < |ops| {
      var front := ops[..|ops| - 1];
      assert front[..k] == ops[..k];
      StaysSynced(s, front, d, p, k);
      RunKeepsInv(s, front);
      QuietStepKeepsSynced(Run(s, front), ops[|ops| - 1], d, p);
    } else {
      assert ops[..k] == ops;
    }
  }

  /** So any two devices that have pulled agree. */
  lemma {:induction false} DevicesAgree(s: State, ops: seq<Op>, p: Path, d: DeviceId, k: int, x: DeviceId, j: int)
    requires Reachable(s) && Known(s, ops) && d in s.machines && x in s.machines && p in s.manifests
    requires forall i | 0 <= i < |ops| :: Quiet(ops[i])
    requires 0 <= k < |ops| && ops[k] == Pull(d, p) && Run(s, ops[..k]).machines[d].online
    requires 0 <= j < |ops| && ops[j] == Pull(x, p) && Run(s, ops[..j]).machines[x].online
    ensures var t := Run(s, ops);
            && p in t.machines[d].files && p in t.machines[x].files
            && t.machines[d].files[p].hash == t.machines[x].files[p].hash == s.manifests[p].fileHash
  {
    Convergence(s, ops, d, p, k);
    Convergence(s, ops, x, p, j);
  }

  /** Draining events alone never leaves a device behind: it then holds the remote content, or a
      newer version of its own that its next push publishes without conflict. */
  lemma DrainedIsNeverBehind(s: State, d: DeviceId, p: Path)
    requires Reachable(s) && d in s.machines && s.machines[d].online && p in s.manifests
    ensures var t := Processed(s, d);
            && p in t.machines[d].files
            && Leq(t.manifests[p].clock, t.machines[d].files[p].clock)
            && !PushConflicts(t, d, p)
            && Synced(Pushed(t, d, p), d, p)
  {
    ReachableInv(s);
    ProcessKeepsInv(s, d);
    var t := Processed(s, d);
    var a := AnchorOf(t, d, p);
    var l := LastEventOf(t, p);
    SeenIff(t.events, d, p, FileOf(t, d, p), a, l);
    var v, m := t.machines[d].files[p], t.manifests[p];
    OutcomeMeaning(v.clock, m.clock, v.hash, m.fileHash, p, d, m.writtenBy, 0);
    if Same(v.clock, m.clock) {
      EqualClockEqualHash(t.events, d, p, v, a, l);
    }
    if PushProceeds(t, d, p) {
      PushPublishesOwnClock(t, d, p);
    } else if Leq(v.clock, m.clock) {
      assert Same(v.clock, m.clock);
    }
  }
}
