/** When the protocol itself discards local work: exactly which pulls and deliveries replace a write that was
    never published. */
module FleetLosses {
  import opened Basics
  import opened Clocks
  import opened Conflicts
  import opened Fleet
  import opened FleetInvariant
  import opened FleetTheorems

  /** Device `d` has written the path since anything it published: no event counts its last write. */
  ghost predicate Unsent(s: State, d: DeviceId, p: Path)
    requires d in s.machines
  {
    && p in s.machines[d].files
    && forall i | 0 <= i < |s.events| && s.events[i].path == p ::
         Get(s.events[i].clock, d) < Get(s.machines[d].files[p].clock, d)
  }

  predicate ContentChanges(s: State, t: State, d: DeviceId, p: Path)
    requires d in s.machines && d in t.machines
  {
    p in s.machines[d].files && !(p in t.machines[d].files
      && t.machines[d].files[p].hash == s.machines[d].files[p].hash)
  }

  // ---- Draining ----

  /** A device holding `f` has seen no event of the path from `l` on. */
  ghost predicate Before(es: seq<Event>, d: DeviceId, p: Path, f: Option<Version>, l: int)
  {
    Positive(ClockOf(f)) && exists a :: Anchored(es, d, p, f, a) && a < l
  }

  lemma {:induction false} StaysBefore(es: seq<Event>, d: DeviceId, p: Path, files: map<Path, Version>, i: int, l: int)
    requires Chain(es) && 0 <= i < l < |es| && Positive(es[i].clock) && Before(es, d, p, Lookup(files, p), l)
    ensures Before(es, d, p, Lookup(ApplyEvent(files, d, es[i]), p), l)
  {
    var a :| Anchored(es, d, p, Lookup(files, p), a) && a < l;
    if es[i].path == p && a < i {
      OwnEventIsAnchored(es, d, p, Lookup(files, p), a, i);
      UnseenIsAccepted(es, d, files, a, i);
      AcceptEvent(es, d, p, Lookup(files, p), a, i);
      MergedPositive(ClockOf(Lookup(files, p)), es[i].clock);
    } else {
      SeenEventKeepsFile(es, d, p, files, a, i);
    }
  }

  /** Delivering the events before `l` does not show a device event `l`. */
  lemma {:induction false} RangeStaysBefore(es: seq<Event>, d: DeviceId, p: Path, files: map<Path, Version>,
                                            k: int, l: int)
    requires Chain(es) && 0 <= k <= l < |es| && Before(es, d, p, Lookup(files, p), l)
    requires forall i | 0 <= i < |es| :: Positive(es[i].clock)
    ensures Before(es, d, p, Lookup(ApplyRange(files, d, es, k, l), p), l)
  {
    var ok := (fs: map<Path, Version>, i: int) => Before(es, d, p, Lookup(fs, p), l);
    forall fs, i | k <= i < l && ok(fs, i)
      ensures ok(ApplyEvent(fs, d, es[i]), i + 1)
    {
      StaysBefore(es, d, p, fs, i, l);
    }
    RangeKeeps(es, d, files, k, l, ok);
  }

  lemma {:induction false} LaterEventsAreElsewhere(es: seq<Event>, d: DeviceId, p: Path, files: map<Path, Version>,
                                                   l: int, k: int, n: int)
    requires IsLast(es, p, l) && 0 <= k && l < n <= |es| && k <= l
    ensures Lookup(ApplyRange(files, d, es, k, n), p) == Lookup(ApplyRange(files, d, es, k, l + 1), p)
    decreases n
  {
    if l + 1 < n {
      LaterEventsAreElsewhere(es, d, p, files, l, k, n - 1);
      EventTouchesOwnPath(ApplyRange(files, d, es, k, n - 1), d, es[n - 1], p);
    }
  }

  /** The last event of the path, if the device has not seen it, is what it ends with. */
  lemma {:induction false} UnseenLastIsTaken(es: seq<Event>, d: DeviceId, p: Path, files: map<Path, Version>,
                                             a: int, k: int, l: int)
    requires Chain(es) && IsLast(es, p, l) && 0 <= k <= l
    requires (forall i | 0 <= i < |es| :: Positive(es[i].clock)) && Positive(ClockOf(Lookup(files, p)))
    requires Anchored(es, d, p, Lookup(files, p), a) && a < l
    ensures var f := Lookup(ApplyRange(files, d, es, k, |es|), p);
            f.Some? && f.value.hash == es[l].hash
  {
    var mid := ApplyRange(files, d, es, k, l);
    RangeStaysBefore(es, d, p, files, k, l);
    var b :| Anchored(es, d, p, Lookup(mid, p), b) && b < l;
    OwnEventIsAnchored(es, d, p, Lookup(mid, p), b, l);
    UnseenIsAccepted(es, d, mid, b, l);
    LaterEventsAreElsewhere(es, d, p, files, l, k, |es|);
  }

  lemma {:induction false} ProcessTakesUnseen(s: State, d: DeviceId, p: Path, a: int, l: int)
    requires d in s.machines && s.machines[d].online && Cursor(s, d) <= |s.events| && Chain(s.events) && Clean(s)
    requires IsLast(s.events, p, l) && Anchored(s.events, d, p, FileOf(s, d, p), a)
    requires SeenUpTo(s.events, p, Cursor(s, d), a) && a < l
    ensures var f := FileOf(Processed(s, d), d, p); f.Some? && f.value.hash == s.events[l].hash
  {
    var k, n := Cursor(s, d), |s.events|;
    UnseenLastIsTaken(s.events, d, p, s.machines[d].files, a, k, l);
    assert s.events[k..] == s.events[k..n];
    RangeIsSlice(s.machines[d].files, d, s.events, k, n);
  }

  /** What a device holds after draining: its own content if it has seen the remote version, otherwise the remote's. */
  lemma {:induction false} DrainedContent(s: State, d: DeviceId, p: Path)
    requires Reachable(s) && d in s.machines && s.machines[d].online && p in s.manifests
    ensures var f, m, f' := FileOf(s, d, p), s.manifests[p], FileOf(Processed(s, d), d, p);
            f'.Some? && f'.value.hash == if f.Some? && Leq(m.clock, f.value.clock) then f.value.hash else m.fileHash
  {
    ReachableInv(s);
    var a := AnchorOf(s, d, p);
    var l := LastEventOf(s, p);
    SeenIff(s.events, d, p, FileOf(s, d, p), a, l);
    if l <= a {
      ProcessKeepsFile(s, d, p, a);
    } else {
      ProcessTakesUnseen(s, d, p, a, l);
    }
  }

  lemma {:induction false} NoRemoteNothingDelivered(s: State, d: DeviceId, p: Path)
    requires Reachable(s) && d in s.machines && p !in s.manifests
    ensures FileOf(Processed(s, d), d, p) == FileOf(s, d, p)
  {
    ReachableInv(s);
    var a := AnchorOf(s, d, p);
    ProcessKeepsFile(s, d, p, a);
  }

  lemma {:induction false} UnsentExceedsRemote(s: State, d: DeviceId, p: Path)
    requires Reachable(s) && d in s.machines && Unsent(s, d, p) && p in s.manifests
    ensures Get(s.manifests[p].clock, d) < Get(s.machines[d].files[p].clock, d)
  {
    ReachableInv(s);
    var l := LastEventOf(s, p);
  }

  /** Draining discards an unpublished write exactly when a push would have been refused as a conflict. */
  lemma {:induction false} DeliveryDiscardsIff(s: State, d: DeviceId, p: Path)
    requires Reachable(s) && d in s.machines && Unsent(s, d, p)
    ensures ContentChanges(s, Processed(s, d), d, p) <==> PushConflicts(s, d, p)
  {
    if p !in s.manifests {
      NoRemoteNothingDelivered(s, d, p);
    } else if s.machines[d].online {
      DrainedContent(s, d, p);
      PushIsExact(s, d, p);
      UnsentExceedsRemote(s, d, p);
    }
  }

  // ---- Pulling ----

  /** A pull discards an unpublished write exactly when the remote content differs, even if the remote version is
      older.  The clock goes on counting the write, and the next push finds nothing to publish. */
  lemma {:induction false} PullDiscardsIff(s: State, d: DeviceId, p: Path)
    requires d in s.machines && Unsent(s, d, p)
    ensures var t, v := Pulled(s, d, p), s.machines[d].files[p];
            && (ContentChanges(s, t, d, p) <==>
              s.machines[d].online && p in s.manifests && s.manifests[p].fileHash != v.hash)
            && (ContentChanges(s, t, d, p) ==> Unsent(t, d, p) && !PushProceeds(t, d, p) && !PushConflicts(t, d, p))
  {
    if p in s.manifests {
      GetMerged(s.machines[d].files[p].clock, s.manifests[p].clock, d);
    }
  }

  // ---- Every step ----

  lemma {:induction false} OtherStepsKeepContent(s: State, op: Op, d: DeviceId, p: Path)
    requires WellFormed(s) && op.device in s.machines && d in s.machines
    requires op != Pull(d, p) && op != ProcessEvents(d) && !(op.WriteFile? && op.device == d && op.path == p)
    ensures !ContentChanges(s, Step(s, op), d, p)
  {
    if op.device != d {
      StepTouchesOwnMachine(s, op, d);
    }
  }

  /** Over every step but a new write of the same file: an unpublished write is discarded exactly by a pull of
      different content, or by a delivery at a moment when a push would conflict. */
  lemma {:induction false} UnsentIsDiscardedIff(s: State, op: Op, d: DeviceId, p: Path)
    requires Reachable(s) && op.device in s.machines && d in s.machines && Unsent(s, d, p)
    requires !(op.WriteFile? && op.device == d && op.path == p)
    ensures ContentChanges(s, Step(s, op), d, p) <==>
            || (&& op == Pull(d, p) && s.machines[d].online
                && p in s.manifests && s.manifests[p].fileHash != s.machines[d].files[p].hash)
            || (op == ProcessEvents(d) && PushConflicts(s, d, p))
  {
    if op == Pull(d, p) {
      PullDiscardsIff(s, d, p);
    } else if op == ProcessEvents(d) {
      DeliveryDiscardsIff(s, d, p);
    } else {
      OtherStepsKeepContent(s, op, d, p);
    }
  }

  /** One device, no one else: it publishes "1", writes "2", and its own pull takes "2" away. */
  lemma {:induction false} OwnPullDiscards()
    ensures var ops := [WriteFile("a", "p", "1"), Push("a", "p"), WriteFile("a", "p", "2"), Pull("a", "p")];
            && Known(Init({"a"}), ops)
            && FileOf(Run(Init({"a"}), ops[..3]), "a", "p") == Some(Version("2", map["a" := 2]))
            && FileOf(Run(Init({"a"}), ops), "a", "p") == Some(Version("1", map["a" := 2]))
  {
    RunOfFour(Init({"a"}), WriteFile("a", "p", "1"), Push("a", "p"), WriteFile("a", "p", "2"), Pull("a", "p"));
    OneDeviceRun();
  }

  lemma {:induction false} RunThen(s: State, ops: seq<Op>, op: Op)
    requires WellFormed(s) && Known(s, ops) && op.device in s.machines
    ensures Known(s, ops + [op]) && Run(s, ops + [op]) == Step(Run(s, ops), op)
  {
    assert (ops + [op])[..|ops|] == ops;
  }

  lemma {:induction false} RunOfFour(s: State, o1: Op, o2: Op, o3: Op, o4: Op)
    requires WellFormed(s) && {o1.device, o2.device, o3.device, o4.device} <= s.machines.Keys
    ensures var ops := [o1, o2, o3, o4];
            && Known(s, ops) && Known(s, ops[..3])
            && Run(s, ops[..3]) == Step(Step(Step(s, o1), o2), o3)
            && Run(s, ops) == Step(Run(s, ops[..3]), o4)
  {
    RunThen(s, [], o1);
    assert [] + [o1] == [o1];
    RunThen(s, [o1], o2);
    assert [o1] + [o2] == [o1, o2];
    RunThen(s, [o1, o2], o3);
    assert [o1, o2] + [o3] == [o1, o2, o3] == [o1, o2, o3, o4][..3];
    RunThen(s, [o1, o2, o3], o4);
    assert [o1, o2, o3] + [o4] == [o1, o2, o3, o4];
  }

  lemma {:induction false} OneDeviceRun()
    ensures var s0 := Init({"a"});
            var s2 := Pushed(Written(s0, "a", "p", "1"), "a", "p");
            var s3 := Written(s2, "a", "p", "2");
            && FileOf(s3, "a", "p") == Some(Version("2", map["a" := 2]))
            && FileOf(Pulled(s3, "a", "p"), "a", "p") == Some(Version("1", map["a" := 2]))
  {
    var s0 := Init({"a"});
    var s1 := Written(s0, "a", "p", "1");
    assert FileOf(s1, "a", "p") == Some(Version("1", map["a" := 1]));
    var s2 := Pushed(s1, "a", "p");
    assert s2.manifests["p"] == Manifest("1", ["1"], map["a" := 1], "a");
    assert FileOf(s2, "a", "p") == Some(Version("1", map["a" := 1]));
    var s3 := Written(s2, "a", "p", "2");
    assert Ticked(map["a" := 1], "a") == map["a" := 2];
    assert Merged(map["a" := 2], map["a" := 1]) == map["a" := 2];
  }

  /** Two devices: "a" publishes "1" while "b" writes "2", and the delivery takes "2" away. */
  lemma {:induction false} DeliveryDiscards()
    ensures var ops := [WriteFile("a", "p", "1"), Push("a", "p"), WriteFile("b", "p", "2"), ProcessEvents("b")];
            && Known(Init({"a", "b"}), ops)
            && FileOf(Run(Init({"a", "b"}), ops[..3]), "b", "p") == Some(Version("2", map["b" := 1]))
            && FileOf(Run(Init({"a", "b"}), ops), "b", "p") == Some(Version("1", map["a" := 1, "b" := 1]))
  {
    RunOfFour(Init({"a", "b"}), WriteFile("a", "p", "1"), Push("a", "p"), WriteFile("b", "p", "2"), ProcessEvents("b"));
    TwoDeviceRun();
  }

  lemma {:induction false} FirstPublished()
    ensures var s2 := Pushed(Written(Init({"a", "b"}), "a", "p", "1"), "a", "p");
            && "b" in s2.machines && s2.machines["b"] == Machine(map[], true)
            && s2.events == [Event("a", "p", "1", map["a" := 1])] && Cursor(s2, "b") == 0
  {
    var s1 := Written(Init({"a", "b"}), "a", "p", "1");
    assert FileOf(s1, "a", "p") == Some(Version("1", map["a" := 1]));
  }

  lemma {:induction false} OneDelivered(s: State, d: DeviceId, e: Event)
    requires d in s.machines && s.machines[d].online && s.events == [e] && Cursor(s, d) == 0
    ensures Processed(s, d).machines[d].files == ApplyEvent(s.machines[d].files, d, e)
  {
    assert s.events[0..] == [e] && [e][..0] == [];
    assert ApplyEvents(s.machines[d].files, d, [e]) == ApplyEvent(ApplyEvents(s.machines[d].files, d, []), d, e);
  }

  lemma {:induction false} TwoDeviceRun()
    ensures var s2 := Pushed(Written(Init({"a", "b"}), "a", "p", "1"), "a", "p");
            "b" in s2.machines &&
            var s3 := Written(s2, "b", "p", "2");
            && FileOf(s3, "b", "p") == Some(Version("2", map["b" := 1])) && Cursor(s3, "b") <= |s3.events|
            && FileOf(Processed(s3, "b"), "b", "p") == Some(Version("1", map["a" := 1, "b" := 1]))
  {
    FirstPublished();
    var e := Event("a", "p", "1", map["a" := 1]);
    var s3 := Written(Pushed(Written(Init({"a", "b"}), "a", "p", "1"), "a", "p"), "b", "p", "2");
    assert s3.machines["b"] == Machine(map["p" := Version("2", map["b" := 1])], true);
    OneDelivered(s3, "b", e);
    TakeConflicting(s3.machines["b"].files, e);
  }

  lemma {:induction false} TakeConflicting(files: map<Path, Version>, e: Event)
    requires e == Event("a", "p", "1", map["a" := 1]) && Lookup(files, "p") == Some(Version("2", map["b" := 1]))
    ensures ApplyEvent(files, "b", e)["p"] == Version("1", map["a" := 1, "b" := 1])
  {
    var mine, theirs := map["b" := 1], map["a" := 1];
    assert Get(theirs, "b") < Get(mine, "b") && Get(mine, "a") < Get(theirs, "a");
    OutcomeMeaning(mine, theirs, "2", "1", "p", "b", "a", 0);
    assert Merged(mine, theirs) == map["a" := 1, "b" := 1];
  }
}
