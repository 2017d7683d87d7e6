/** What the daemon does with the resolutions that other devices announce, and with the events it ignores. */
module Resolutions {
  import opened Basics
  import opened Clocks
  import opened Conflicts
  import opened ObjectStore
  import opened Upload
  import opened UploadTheorems
  import opened World
  import opened AutoPull
  import opened Agreement
  import opened AutoPullTheorems

  /** The events that leave a host alone: its own, those without a place here, notices, resolutions of files it does
      not know, and announcements in another mode or without storage. */
  lemma {:induction false} IgnoredLeavesHost(env: Env, store: Store, host: Host, self: DeviceId, mode: Mode,
                                             ev: StateEvent, p: Option<Path>, w: Weather)
    requires || ev.device == self || p.None? || ev.Notice?
             || (ev.ConflictResolved? && p.value !in host.cache)
             || (ev.FileSynced? && (mode != Auto || !w.ready))
    ensures Handled(env, store, host, self, mode, ev, p, w) == host
  {
  }

  /** A file that is not in the cache is fetched whatever its clock, and then known by the announced manifest. */
  lemma {:induction false} UnknownIsFetched(env: Env, store: Store, host: Host, self: DeviceId, ev: StateEvent, p: Path,
                                            w: Weather)
    requires ev.FileSynced? && ev.device != self && self != "" && Fair(w) && p !in host.cache
    requires Downloaded(env, store, ev.manifest, None).Ok?
    ensures var host', data := Handled(env, store, host, self, Auto, ev, Some(p), w),
                               Downloaded(env, store, ev.manifest, None).value;
            && p in host'.files && host'.files == host.files[p := host'.files[p]] && host'.files[p].data == data
            && p in host'.cache && host'.cache == host.cache[p := host'.cache[p]]
            && host'.cache[p].blake3 == env.hash(data) && host'.cache[p].remote == ev.manifest
            && Same(host'.cache[p].clock, FromBytes(store.manifests[ev.manifest]).value.clock)
            && Stat(host'.cache[p].size, host'.cache[p].mtime) == w.examined.value && host'.files[p].mtime == w.mtime
            && host'.cache[p].lastSynced == w.now && host'.cache[p].device == self
  {
    var m := FromBytes(store.manifests[ev.manifest]).value;
    assert Merged(map[], m.clock) == m.clock;
  }

  /** Another device's resolution of a file in the cache, in any mode: every entry of the cached clock becomes the
      larger of its own and the resolution's.  Nothing else changes, neither of this entry nor of any other file. */
  lemma {:induction false} ResolutionMerges(env: Env, store: Store, host: Host, self: DeviceId, mode: Mode,
                                            ev: StateEvent, p: Path, w: Weather)
    requires ev.ConflictResolved? && ev.device != self && p in host.cache
    ensures var host' := Handled(env, store, host, self, mode, ev, Some(p), w);
            && host'.files == host.files && p in host'.cache && host'.cache == host.cache[p := host'.cache[p]]
            && host'.cache[p] == host.cache[p].(clock := host'.cache[p].clock)
            && forall d :: Get(host'.cache[p].clock, d) == Max(Get(host.cache[p].clock, d), Get(ev.clock, d))
  {
  }

  /** A host's copy after a resolution: the same content under the merged clock. */
  function Settled(mine: Copy, merged: Clock): Copy
  {
    mine.(clock := Merged(mine.clock, merged))
  }

  lemma {:induction false} HandlerResolves(env: Env, store: Store, host: Host, self: DeviceId, ev: StateEvent, p: Path,
                                           w: Weather, mine: Copy)
    requires ev.ConflictResolved? && ev.device != self && Holds(env, host, p, mine)
    ensures Holds(env, Handled(env, store, host, self, Auto, ev, Some(p), w), p, Settled(mine, ev.clock))
  {
  }

  /** A host that has handled a resolution covering a version ends with that version's content exactly if it had it
      already, or the clocks are the same and the author's name is smaller; otherwise nothing happens to it. */
  lemma {:induction false} HostIsNotReopened(env: Env, host: Host, self: DeviceId, p: Path, mine: Copy,
                                             resolution: Delivery, again: Delivery)
    requires self != "" && Holds(env, host, p, mine) && Deliverable(env, self, again)
    requires resolution.ev.ConflictResolved? && resolution.ev.device != self
    requires Leq(again.ev.clock, resolution.ev.clock)
    ensures var settled := HandledTo(env, host, self, p, [resolution, again], 1);
            var end := HandledTo(env, host, self, p, [resolution, again], 2);
            && p in settled.cache && p in end.files
            && (env.hash(end.files[p].data) == again.ev.hash <==>
                  || mine.hash == again.ev.hash
                  || (Same(settled.cache[p].clock, again.ev.clock) && !LexLeq(self, again.ev.device)))
            && (env.hash(end.files[p].data) != again.ev.hash ==> end == settled)
  {
    var ds := [resolution, again];
    assert HandledTo(env, host, self, p, ds, 0) == host;
    var settled := HandledTo(env, host, self, p, ds, 1);
    HandlerResolves(env, resolution.store, host, self, resolution.ev, p, resolution.w, mine);
    ResolvedIsNotReopened(self, mine, resolution.ev.clock, Announced(again.ev));
    HandlerReacts(env, again.store, settled, self, again.ev, p, again.w, Settled(mine, resolution.ev.clock));
  }

  /** A host that has handled a resolution beyond the winner's version is not changed by the winner's announcement,
      whatever other announcements it handles first. */
  lemma {:induction false} HostIsStranded(env: Env, host: Host, self: DeviceId, p: Path, mine: Copy,
                                          resolution: Delivery, ds: seq<Delivery>, vs: seq<Announcement>,
                                          winner: Delivery)
    requires self != "" && Holds(env, host, p, mine) && Carry(env, self, ds, vs) && Deliverable(env, self, winner)
    requires resolution.ev.ConflictResolved? && resolution.ev.device != self
    requires Lt(winner.ev.clock, resolution.ev.clock)
    ensures var settled := Handled(env, resolution.store, host, self, Auto, resolution.ev, Some(p), resolution.w);
            var held := HandledTo(env, settled, self, p, ds, |ds|);
            Handled(env, winner.store, held, self, Auto, winner.ev, Some(p), winner.w) == held
  {
    var settled := Handled(env, resolution.store, host, self, Auto, resolution.ev, Some(p), resolution.w);
    var held, copy := HandledTo(env, settled, self, p, ds, |ds|), Settled(mine, resolution.ev.clock);
    HandlerResolves(env, resolution.store, host, self, resolution.ev, p, resolution.w, mine);
    HandlerReactsToAll(env, settled, self, p, ds, vs, copy, |ds|);
    ResolutionStrandsLoser(self, mine, resolution.ev.clock, Announced(winner.ev), vs);
    HandlerReacts(env, winner.store, held, self, winner.ev, p, winner.w, ReactedAll(self, copy, vs));
    TakenChangesCopy(self, ReactedAll(self, copy, vs), Announced(winner.ev));
  }

  lemma TakenChangesCopy(self: DeviceId, mine: Copy, v: Announcement)
    ensures Yields(self, mine, v) <==> Reacted(self, mine, v) != mine
  {
  }
}
