/** What the daemon's reactions do to the files of real hosts. */
module AutoPullTheorems {
  import opened Basics
  import opened Clocks
  import opened Conflicts
  import opened ObjectStore
  import opened Upload
  import opened UploadTheorems
  import opened World
  import opened AutoPull
  import opened Agreement
  import StateCache

  // ---- Two hosts ----

  predicate Holds(env: Env, host: Host, p: Path, c: Copy)
  {
    && p in host.files && p in host.cache
    && host.cache[p].blake3 == c.hash && host.cache[p].clock == c.clock
    && env.hash(host.files[p].data) == c.hash
  }

  /** The event's manifest is the announced version, stored in clear and readable. */
  ghost predicate Fetchable(env: Env, store: Store, ev: StateEvent)
    requires ev.FileSynced?
  {
    && Downloaded(env, store, ev.manifest, None).Ok?
    && env.hash(Downloaded(env, store, ev.manifest, None).value) == ev.hash
    && FromBytes(store.manifests[ev.manifest]).value.clock == ev.clock
  }

  predicate Fair(w: Weather)
  {
    w.ready && w.writable && w.examined.Some?
  }

  /** The event's version as an announcement. */
  function Announced(ev: StateEvent): Announcement
    requires ev.FileSynced?
  {
    Announcement(ev.device, ev.hash, ev.clock)
  }

  /** The daemon's handler does to the real host what `Reacted` does to the copy it holds; only a version that is
      taken need be fetchable. */
  lemma HandlerReacts(env: Env, store: Store, host: Host, self: DeviceId, ev: StateEvent, p: Path, w: Weather,
                      mine: Copy)
    requires ev.FileSynced? && ev.device != self && self != "" && Fair(w)
    requires Holds(env, host, p, mine) && (Yields(self, mine, Announced(ev)) ==> Fetchable(env, store, ev))
    ensures var host' := Handled(env, store, host, self, Auto, ev, Some(p), w);
            && Holds(env, host', p, Reacted(self, mine, Announced(ev)))
            && host'.files[p].data == (if Yields(self, mine, Announced(ev))
                                       then Downloaded(env, store, ev.manifest, None).value else host.files[p].data)
            && (!Yields(self, mine, Announced(ev)) ==> host' == host)
  {
  }

  /** The event announces the copy that its device holds. */
  predicate Announces(ev: StateEvent, device: DeviceId, c: Copy)
  {
    ev.FileSynced? && ev.device == device && ev.hash == c.hash && ev.clock == c.clock
  }

  /** The announced version can be fetched, and what is fetched is in play. */
  ghost predicate Available(env: Env, inPlay: iset<Bytes>, store: Store, ev: StateEvent)
    requires ev.FileSynced?
  {
    Fetchable(env, store, ev) && Downloaded(env, store, ev.manifest, None).value in inPlay
  }

  /** Whether the version of `b` wins against that of `a`: it is causally newer, or neither is and its name is smaller.
      */
  ghost predicate Wins(b: DeviceId, cb: Copy, a: DeviceId, ca: Copy)
  {
    Lt(ca.clock, cb.clock) || (!Lt(cb.clock, ca.clock) && LexLeq(b, a))
  }

  lemma {:induction false} LoserYields(a: DeviceId, ca: Copy, b: DeviceId, cb: Copy)
    requires a != b
    ensures Yields(a, ca, Announcement(b, cb.hash, cb.clock)) <==> ca.hash != cb.hash && Wins(b, cb, a, ca)
    ensures Wins(a, ca, b, cb) <==> !Wins(b, cb, a, ca)
  {
    LexTotalOrder(a, b);
    CmpDecidesOrder(ca.clock, cb.clock);
  }

  /** Two hosts that handle each other's announcement end with the same bytes: those of the causally newer
      version, or of the smaller name's when neither is newer.  Only the winner's version need be available. */
  lemma {:induction false} TwoHostsAgree(env: Env, inPlay: iset<Bytes>, store: Store,
                                         a: DeviceId, ha: Host, pa: Path, ca: Copy, eva: StateEvent, wa: Weather,
                                         b: DeviceId, hb: Host, pb: Path, cb: Copy, evb: StateEvent, wb: Weather)
    requires CollisionFree(env, inPlay) && a != b && a != "" && b != "" && Fair(wa) && Fair(wb)
    requires Holds(env, ha, pa, ca) && ha.files[pa].data in inPlay && Holds(env, hb, pb, cb)
    requires hb.files[pb].data in inPlay
    requires Announces(eva, a, ca) && Announces(evb, b, cb)
    requires ca.hash != cb.hash ==> Available(env, inPlay, store, if Wins(b, cb, a, ca) then evb else eva)
    ensures var ha' := Handled(env, store, ha, a, Auto, evb, Some(pa), wa);
            var hb' := Handled(env, store, hb, b, Auto, eva, Some(pb), wb);
            && pa in ha'.files && pb in hb'.files
            && ha'.files[pa].data == hb'.files[pb].data
            && ha'.files[pa].data == if Wins(b, cb, a, ca) then hb.files[pb].data else ha.files[pa].data
  {
    LoserYields(a, ca, b, cb);
    LoserYields(b, cb, a, ca);
    HandlerReacts(env, store, ha, a, evb, pa, wa, ca);
    HandlerReacts(env, store, hb, b, eva, pb, wb, cb);
  }

  // ---- Many hosts ----

  /** One announcement as it reaches a host: with the store and the circumstances of that moment. */
  datatype Delivery = Delivery(ev: StateEvent, store: Store, w: Weather)

  /** The host after the first `n` deliveries. */
  function HandledTo(env: Env, host: Host, self: DeviceId, p: Path, ds: seq<Delivery>, n: nat): Host
    requires n <= |ds|
  {
    if n == 0 then host else
      var d := ds[n - 1];
      Handled(env, d.store, HandledTo(env, host, self, p, ds, n - 1), self, Auto, d.ev, Some(p), d.w)
  }

  ghost predicate Deliverable(env: Env, self: DeviceId, d: Delivery)
  {
    d.ev.FileSynced? && d.ev.device != self && Fair(d.w) && Fetchable(env, d.store, d.ev)
  }

  /** The deliveries carry these announcements. */
  ghost predicate Carry(env: Env, self: DeviceId, ds: seq<Delivery>, vs: seq<Announcement>)
  {
    |ds| == |vs| && forall i | 0 <= i < |ds| :: Deliverable(env, self, ds[i]) && Announced(ds[i].ev) == vs[i]
  }

  /** Any number of announcements does to the real host what they do to the copy it holds. */
  lemma {:induction false} HandlerReactsToAll(env: Env, host: Host, self: DeviceId, p: Path, ds: seq<Delivery>,
                                              vs: seq<Announcement>, mine: Copy, n: nat)
    requires self != "" && Holds(env, host, p, mine) && Carry(env, self, ds, vs) && n <= |ds|
    ensures Holds(env, HandledTo(env, host, self, p, ds, n), p, ReactedTo(self, mine, vs, n))
  {
    if 0 < n {
      HandlerReactsToAll(env, host, self, p, ds, vs, mine, n - 1);
      var d, before := ds[n - 1], HandledTo(env, host, self, p, ds, n - 1);
      assert Deliverable(env, self, d) && Announced(d.ev) == vs[n - 1];
      HandlerReacts(env, d.store, before, self, d.ev, p, d.w, ReactedTo(self, mine, vs, n - 1));
    }
  }

  /** Among forked versions, a host's file ends with the content of announcement `m`, from a name smaller than its
      own, exactly if no announcement from a smaller name comes after that one. */
  lemma {:induction false} HostEndsWithSmallestName(env: Env, host: Host, self: DeviceId, p: Path, ds: seq<Delivery>,
                                                    vs: seq<Announcement>, mine: Copy, m: nat)
    requires self != "" && Holds(env, host, p, mine) && Carry(env, self, ds, vs) && m < |vs|
    requires Forked(self, mine.clock, vs) && Different(mine.hash, vs) && !LexLeq(self, vs[m].author)
    ensures var end := HandledTo(env, host, self, p, ds, |ds|);
            && p in end.files
            && (env.hash(end.files[p].data) == vs[m].hash <==> forall i | m < i < |vs| :: LexLeq(self, vs[i].author))
  {
    HandlerReactsToAll(env, host, self, p, ds, vs, mine, |ds|);
    EndsWithSmallestName(self, mine, vs, m);
  }

  // ---- When a pull happens, and to what ----

  /** On a sound store an event that is to be pulled replaces the file exactly when its version is in clear and not
      empty; otherwise file and cache stay as they were. */
  lemma {:induction false} PullReplacesIff(env: Env, mk: Key, inPlay: iset<Bytes>, store: Store, host: Host,
                                           self: DeviceId,
                                           ev: StateEvent, p: Path, w: Weather)
    requires Contracts(env) && StoreInv(env, mk, inPlay, store)
    requires ev.FileSynced? && ev.manifest in store.manifests && store.manifests[ev.manifest].V2?
    requires ev.device != self && Fair(w) && Pulls(self, Entry(host.cache, p), ev, w.now)
    ensures var host', m := Handled(env, store, host, self, Auto, ev, Some(p), w),
            store.manifests[ev.manifest].manifest;
            if m.wrappedKey.None? && m.fileSize != 0 then
              && p in host'.files && env.hash(host'.files[p].data) == ev.manifest
              && Downloaded(env, store, ev.manifest, Some(mk)) == Ok(host'.files[p].data)
            else host' == host
  {
    ReadableInClearIff(env, mk, inPlay, store, ev.manifest);
    assert Sound(env, mk, inPlay, store.chunks, ev.manifest, store.manifests[ev.manifest].manifest);
  }

  /** A new file uploaded with encryption is announced in vain: no host's file or cache changes. */
  lemma {:induction false} EncryptedUploadIsNotPulled(env: Env, mk: Key, inPlay: iset<Bytes>, store: Store,
                                                      file: LocalFile, req: Request,
                                                      host: Host, self: DeviceId, mode: Mode, ev: StateEvent,
                                                      p: Option<Path>, w: Weather)
    requires Contracts(env) && CollisionFree(env, inPlay) && StoreInv(env, mk, inPlay, store)
    requires InPlay(env, inPlay, file, req)
    requires req.master == Some(mk) && env.hash(file.data) !in store.manifests
    requires ev.FileSynced? && ev.manifest == env.hash(file.data)
    ensures var store' := Attempted(env, store, None, file, req, Steps(env, file, req));
            Handled(env, store', host, self, mode, ev, p, w) == host
  {
    var store' := Attempted(env, store, None, file, req, Steps(env, file, req));
    EveryWriteKeepsStore(env, mk, inPlay, store, None, file, req, Steps(env, file, req));
    ReadableInClearIff(env, mk, inPlay, store', ev.manifest);
  }

  /** The daemon goes by its cache, not by the file: a local file that differs from the announced content is
      overwritten exactly when the cached version would be, whether or not it was edited since. */
  lemma {:induction false} FileIsOverwrittenIff(env: Env, store: Store, host: Host, self: DeviceId, ev: StateEvent,
                                                p: Path, w: Weather)
    requires ev.FileSynced? && ev.device != self && w.ready && w.writable && p in host.files
    requires Downloaded(env, store, ev.manifest, None).Ok?
    requires Downloaded(env, store, ev.manifest, None).value != host.files[p].data
    ensures var host' := Handled(env, store, host, self, Auto, ev, Some(p), w);
            && p in host'.files
            && (host'.files[p].data != host.files[p].data <==> Pulls(self, Entry(host.cache, p), ev, w.now))
  {
  }

  /** A file edited since its last sync is replaced when another device announces its next version of it. */
  lemma {:induction false} UnpushedEditIsReplaced(env: Env, store: Store, host: Host, ev: StateEvent, p: Path,
                                                  w: Weather)
    requires ev.FileSynced? && ev.device == "b" && ev.clock == map["b" := 2] && w.ready && w.writable
    requires p in host.files && p in host.cache && host.cache[p].clock == map["b" := 1]
    requires host.cache[p].blake3 != ev.hash
    requires env.hash(host.files[p].data) != host.cache[p].blake3 && Downloaded(env, store, ev.manifest, None).Ok?
    ensures var host' := Handled(env, store, host, "a", Auto, ev, Some(p), w);
            p in host'.files && host'.files[p].data == Downloaded(env, store, ev.manifest, None).value
  {
    var mine, theirs := map["b" := 1], map["b" := 2];
    assert Get(mine, "b") < Get(theirs, "b");
    CmpDecidesOrder(mine, theirs);
  }

  // ---- Finding the file without a sync root ----

  /** Without a sync root the file of an announcement is found exactly if its relative path is one of the names of
      some entry's manifest path. */
  lemma {:induction false} FoundWithoutRootIff(setup: Setup, cache: Cache, ev: StateEvent, p: Option<Path>)
    requires setup.root.None? && ev.FileSynced? && Located(setup, cache, ev, p)
    requires forall k | k in cache :: Hex(cache[k].remote)
    ensures p.Some? <==> exists k | k in cache :: StateCache.NamesManifest(setup.prefix, cache[k].remote, ev.rel)
  {
    forall k | k in cache
      ensures Matches(setup, cache[k], ev.rel) <==> StateCache.NamesManifest(setup.prefix, cache[k].remote, ev.rel)
    {
      StateCache.LookupFindsIff(setup.prefix, cache[k].remote, ev.rel);
    }
  }

  /** Otherwise the announcement changes nothing. */
  lemma {:induction false} UnfoundLeavesHost(env: Env, store: Store, host: Host, self: DeviceId, mode: Mode,
                                             setup: Setup,
                                             ev: StateEvent, p: Option<Path>, w: Weather)
    requires setup.root.None? && ev.FileSynced? && Located(setup, host.cache, ev, p)
    requires forall k | k in host.cache :: Hex(host.cache[k].remote)
    requires forall k | k in host.cache :: !StateCache.NamesManifest(setup.prefix, host.cache[k].remote, ev.rel)
    ensures Handled(env, store, host, self, mode, ev, p, w) == host
  {
    FoundWithoutRootIff(setup, host.cache, ev, p);
  }

  /** So without a sync root no announcement of a file called notes.txt is ever pulled. */
  lemma {:induction false} OrdinaryNameIsNotFound(env: Env, store: Store, host: Host, self: DeviceId, mode: Mode,
                                                  setup: Setup,
                                                  ev: StateEvent, p: Option<Path>, w: Weather)
    requires setup.root.None? && ev.FileSynced? && ev.rel == "notes.txt" && Located(setup, host.cache, ev, p)
    requires forall k | k in host.cache :: Hex(host.cache[k].remote)
    ensures Handled(env, store, host, self, mode, ev, p, w) == host
  {
    forall k | k in host.cache
      ensures !StateCache.NamesManifest(setup.prefix, host.cache[k].remote, ev.rel)
    {
      var h := host.cache[k].remote;
      assert h[|h| - 1] in h;
      assert h[|h| - 1] != ev.rel[|ev.rel| - 1];
      if StateCache.NamesManifest(setup.prefix, h, ev.rel) {
        StateCache.NamesEndLikeHash(setup.prefix, h, ev.rel);
      }
    }
    UnfoundLeavesHost(env, store, host, self, mode, setup, ev, p, w);
  }
}
