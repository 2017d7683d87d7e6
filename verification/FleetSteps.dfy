/** What each step of the fleet changes and what it leaves alone, stated on the state itself, and what that means for
    whole runs: only a device that is online touches the remote or hears of others. */
module FleetSteps {
  import opened Basics
  import opened Clocks
  import opened Conflicts
  import opened Fleet
  import FleetTheorems

  /** The states agree on everything shared: remote, log, and how far each device has read the log. */
  predicate SameShared(s: State, t: State)
  {
    t.manifests == s.manifests && t.chunks == s.chunks && t.events == s.events && t.cursors == s.cursors
  }

  /** The states agree on every device but `d`. */
  ghost predicate SameElsewhere(s: State, t: State, d: DeviceId)
  {
    t.machines.Keys == s.machines.Keys && forall x | x in s.machines && x != d :: t.machines[x] == s.machines[x]
  }

  /** Device `d` is as it was, except for its copy of `p`. */
  ghost predicate OnlyFile(s: State, t: State, d: DeviceId, p: Path)
    requires d in s.machines
  {
    && SameElsewhere(s, t, d) && t.machines[d].online == s.machines[d].online
    && forall q | q != p :: FileOf(t, d, q) == FileOf(s, d, q)
  }

  /** Each entry of `c` is the larger of those of `a` and `b`. */
  ghost predicate Joins(c: Clock, a: Clock, b: Clock)
  {
    forall x :: Get(c, x) == Max(Get(a, x), Get(b, x))
  }

  /** Writing works online and offline: the device holds the new content and has counted one more write of its own. */
  lemma {:induction false} WriteIsExact(s: State, d: DeviceId, p: Path, h: Hash)
    requires WellFormed(s) && d in s.machines
    ensures var t := Step(s, WriteFile(d, p, h));
            && SameShared(s, t) && OnlyFile(s, t, d, p) && p in t.machines[d].files
            && var v, c := t.machines[d].files[p], ClockOf(FileOf(s, d, p));
               v.hash == h && forall x :: Get(v.clock, x) == Get(c, x) + if x == d then 1 else 0
    ensures Reply(s, WriteFile(d, p, h)) == None
  {
  }

  /** An offline device that pushes, pulls or processes events changes nothing at all, and meets no conflict. */
  lemma {:induction false} OfflineIsCutOff(s: State, op: Op)
    requires WellFormed(s) && op.device in s.machines && !s.machines[op.device].online
    requires op.Push? || op.Pull? || op.ProcessEvents?
    ensures Step(s, op) == s && Reply(s, op) == if op.Push? then Some(false) else None
  {
  }

  /** Going offline and coming back set the flag of that device and nothing else. */
  lemma {:induction false} FlagIsExact(s: State, op: Op)
    requires WellFormed(s) && op.device in s.machines && (op.GoOffline? || op.GoOnline?)
    ensures var d, t := op.device, Step(s, op);
            && SameShared(s, t) && SameElsewhere(s, t, d)
            && t.machines[d].files == s.machines[d].files && (t.machines[d].online <==> op.GoOnline?)
    ensures Reply(s, op) == None
  {
  }

  /** When a push publishes: nothing is there yet, or other content that the device has seen. */
  ghost predicate Publishes(s: State, d: DeviceId, p: Path)
    requires d in s.machines
  {
    && s.machines[d].online && p in s.machines[d].files
    && (p in s.manifests ==> var v, m := s.machines[d].files[p], s.manifests[p];
                             v.hash != m.fileHash && Lt(m.clock, v.clock))
  }

  /** When a push is refused as a conflict: there is other content, and neither version is newer. */
  ghost predicate Refused(s: State, d: DeviceId, p: Path)
    requires d in s.machines
  {
    && s.machines[d].online && p in s.machines[d].files && p in s.manifests
    && var v, m := s.machines[d].files[p], s.manifests[p];
       v.hash != m.fileHash && (Same(v.clock, m.clock) || (!Leq(v.clock, m.clock) && !Leq(m.clock, v.clock)))
  }

  lemma {:induction false} PushDecides(s: State, d: DeviceId, p: Path)
    requires d in s.machines
    ensures PushProceeds(s, d, p) <==> Publishes(s, d, p)
    ensures PushConflicts(s, d, p) <==> Refused(s, d, p)
  {
    if p in s.machines[d].files && p in s.manifests {
      var v, m := s.machines[d].files[p], s.manifests[p];
      OutcomeMeaning(v.clock, m.clock, v.hash, m.fileHash, p, d, m.writtenBy, 0);
    }
  }

  /** A push that publishes stores the chunk, replaces the manifest and appends one event, all with the device's content
      and a clock that joins both sides, and the device takes over that clock.  Any other push changes nothing.  The
      reply says whether it was refused as a conflict. */
  lemma {:induction false} PushIsExactAnywhere(s: State, d: DeviceId, p: Path)
    requires WellFormed(s) && d in s.machines
    ensures Reply(s, Push(d, p)) == Some(Refused(s, d, p))
    ensures !Publishes(s, d, p) ==> Step(s, Push(d, p)) == s
    ensures Publishes(s, d, p) ==>
              var v, t := s.machines[d].files[p], Step(s, Push(d, p));
              var before := if p in s.manifests then s.manifests[p].clock else map[];
              && OnlyFile(s, t, d, p) && t.cursors == s.cursors && p in t.machines[d].files
              && var c := t.machines[d].files[p].clock;
                 && Joins(c, v.clock, before) && t.machines[d].files[p].hash == v.hash
                 && t.manifests == s.manifests[p := Manifest(v.hash, [v.hash], c, d)]
                 && t.chunks == s.chunks[v.hash := v.hash]
                 && t.events == s.events + [Event(d, p, v.hash, c)]
  {
    PushDecides(s, d, p);
  }

  /** A pull takes over the remote content and joins the clocks, whichever is newer; without a manifest it does
      nothing. */
  lemma {:induction false} PullIsExact(s: State, d: DeviceId, p: Path)
    requires WellFormed(s) && d in s.machines && s.machines[d].online
    ensures Reply(s, Pull(d, p)) == None
    ensures p !in s.manifests ==> Step(s, Pull(d, p)) == s
    ensures p in s.manifests ==>
              var m, t := s.manifests[p], Step(s, Pull(d, p));
              && SameShared(s, t) && OnlyFile(s, t, d, p) && p in t.machines[d].files
              && var v := t.machines[d].files[p];
                 v.hash == m.fileHash && Joins(v.clock, ClockOf(FileOf(s, d, p)), m.clock)
  {
  }

  /** Processing events reads the log to its end, and changes no other device and nothing shared. */
  lemma {:induction false} DrainReadsToTheEnd(s: State, d: DeviceId)
    requires WellFormed(s) && d in s.machines && s.machines[d].online
    ensures var t := Step(s, ProcessEvents(d));
            && SameElsewhere(s, t, d) && t.machines[d].online
            && t.manifests == s.manifests && t.chunks == s.chunks && t.events == s.events
            && Cursor(t, d) == |s.events| && (forall x | x != d :: Cursor(t, x) == Cursor(s, x))
            && Step(t, ProcessEvents(d)) == t
    ensures Reply(s, ProcessEvents(d)) == None
  {
    var t := Step(s, ProcessEvents(d));
    assert t.events[Cursor(t, d)..] == [];
    assert Step(t, ProcessEvents(d)).machines == t.machines;
  }

  // ---- Whole runs ----

  /** In any run, what is stored and announced changes only at a push by a device that is online at that moment. */
  lemma {:induction false} OnlyOnlinePushesChangeRemote(s: State, ops: seq<Op>, k: nat)
    requires WellFormed(s) && Known(s, ops) && k < |ops|
    ensures Known(s, ops[..k]) && Known(s, ops[..k + 1])
    ensures var before, after, op := Run(s, ops[..k]), Run(s, ops[..k + 1]), ops[k];
            && op.device in before.machines
            && (after.manifests != before.manifests || after.chunks != before.chunks || after.events != before.events
                ==> op.Push? && before.machines[op.device].online)
  {
    FleetTheorems.RunOneMore(s, ops, k);
    var before, op := Run(s, ops[..k]), ops[k];
    if op.Push? {
      PushIsExactAnywhere(before, op.device, op.path);
    } else {
      FleetTheorems.OtherStepsKeepRemote(before, op);
    }
  }

  /** The events after the first `n` are all by others than `d`. */
  ghost predicate ByOthers(es: seq<Event>, n: nat, d: DeviceId)
  {
    forall i | n <= i < |es| :: es[i].device != d
  }

  /** While a device stays offline, the log grows only by others' events, it reads none of it, and its files change
      only by its own writes. */
  lemma {:induction false} OfflineDeviceIsIsolated(s: State, ops: seq<Op>, d: DeviceId, p: Path)
    requires WellFormed(s) && Known(s, ops) && d in s.machines && !s.machines[d].online && GoOnline(d) !in ops
    requires forall h :: WriteFile(d, p, h) !in ops
    ensures var t := Run(s, ops);
            && !t.machines[d].online && Cursor(t, d) == Cursor(s, d) && FileOf(t, d, p) == FileOf(s, d, p)
            && s.events <= t.events && ByOthers(t.events, |s.events|, d)
  {
    if ops != [] {
      var front, op := ops[..|ops| - 1], ops[|ops| - 1];
      assert forall x | x in front :: x in ops;
      OfflineDeviceIsIsolated(s, front, d, p);
      OfflineStep(Run(s, front), op, d, p);
    }
  }

  lemma {:induction false} OfflineStep(s: State, op: Op, d: DeviceId, p: Path)
    requires WellFormed(s) && op.device in s.machines && d in s.machines && !s.machines[d].online && op != GoOnline(d)
    requires !(op.WriteFile? && op.device == d && op.path == p)
    ensures var t := Step(s, op);
            && !t.machines[d].online && Cursor(t, d) == Cursor(s, d) && FileOf(t, d, p) == FileOf(s, d, p)
            && s.events <= t.events && ByOthers(t.events, |s.events|, d)
  {
    if op.device != d {
      FleetTheorems.StepTouchesOwnMachine(s, op, d);
    }
  }
}
