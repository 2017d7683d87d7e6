/** Which version devices end up with when they react to each other's announcements. */
module Agreement {
  import opened Basics
  import opened Clocks
  import opened Conflicts
  import Fleet

  // ---- What a device ends up holding ----

  /** One device's copy of one file. */
  type Copy = Fleet.Version

  /** A version as its author announces it; fetching it yields that content and merges that clock. */
  datatype Announcement = Announcement(author: DeviceId, hash: Hash, clock: Clock)

  predicate Yields(self: DeviceId, mine: Copy, v: Announcement)
  {
    && mine.hash != v.hash
    && (Cmp(mine.clock, v.clock) == Some(Less)
        || (Cmp(mine.clock, v.clock) in {None, Some(Equal)} && !LexLeq(self, v.author)))
  }

  function Reacted(self: DeviceId, mine: Copy, v: Announcement): Copy
  {
    if Yields(self, mine, v) then Fleet.Version(v.hash, Merged(mine.clock, v.clock)) else mine
  }

  /** Two devices that handle each other's announcement agree: on the causally newer content, and on the
      smaller name's content when neither is newer. */
  lemma TwoDevicesAgree(a: DeviceId, b: DeviceId, ca: Copy, cb: Copy)
    requires a != b
    ensures var va, vb := Announcement(a, ca.hash, ca.clock), Announcement(b, cb.hash, cb.clock);
            var winner := if Lt(ca.clock, cb.clock) || (!Lt(cb.clock, ca.clock) && LexLeq(b, a)) then cb else ca;
            Reacted(a, ca, vb).hash == Reacted(b, cb, va).hash == winner.hash
  {
    LexTotalOrder(a, b);
    CmpDecidesOrder(ca.clock, cb.clock);
  }

  /** Handling the same announcement again changes nothing, and no announcement takes the clock back. */
  lemma {:induction false} ReactingTwice(self: DeviceId, mine: Copy, v: Announcement)
    ensures Reacted(self, Reacted(self, mine, v), v) == Reacted(self, mine, v)
    ensures Leq(mine.clock, Reacted(self, mine, v).clock)
    ensures Reacted(self, mine, v).hash in {mine.hash, v.hash}
    ensures mine.hash != v.hash && Reacted(self, mine, v).hash == v.hash ==> !Lt(v.clock, mine.clock)
  {
    MergeIsLub(mine.clock, v.clock, mine.clock);
    CmpDecidesOrder(mine.clock, v.clock);
  }

  /** Once a resolution that covers a version is merged in, that version is pulled exactly if the clocks end up
      the same although the contents differ, and its author's name is smaller. */
  lemma {:induction false} ResolvedIsNotReopened(self: DeviceId, mine: Copy, merged: Clock, v: Announcement)
    requires Leq(v.clock, merged)
    ensures var mine' := mine.(clock := Merged(mine.clock, merged));
            Yields(self, mine', v) <==> mine.hash != v.hash && Same(mine'.clock, v.clock) && !LexLeq(self, v.author)
  {
    var c := Merged(mine.clock, merged);
    MergeIsLub(mine.clock, merged, merged);
    LeqTransitive(v.clock, merged, c);
    CmpDecidesOrder(c, v.clock);
  }

  lemma {:induction false} ClockOnlyGrows(self: DeviceId, mine: Copy, vs: seq<Announcement>)
    ensures Leq(mine.clock, ReactedAll(self, mine, vs).clock)
  {
    forall d
      ensures Get(mine.clock, d) <= Get(ReactedAll(self, mine, vs).clock, d)
    {
      EntryOnlyGrows(self, mine, vs, |vs|, d);
    }
  }

  /** The other side of that: a device that merges the clock of a resolution beyond the winner's version, as the
      resolving device publishes it, never takes the winner, whatever else it hears first. */
  lemma {:induction false} ResolutionStrandsLoser(self: DeviceId, mine: Copy, merged: Clock, winner: Announcement,
                                                  vs: seq<Announcement>)
    requires Lt(winner.clock, merged)
    ensures var held := ReactedAll(self, mine.(clock := Merged(mine.clock, merged)), vs);
            Reacted(self, held, winner) == held
  {
    var mine' := mine.(clock := Merged(mine.clock, merged));
    var held := ReactedAll(self, mine', vs);
    MergeIsLub(mine.clock, merged, merged);
    ClockOnlyGrows(self, mine', vs);
    LeqTransitive(merged, mine'.clock, held.clock);
    LeqTransitive(winner.clock, merged, held.clock);
    CmpDecidesOrder(held.clock, winner.clock);
  }

  /** The loser "z" of a conflict with "a" hears the resolution, then the winner, and keeps its own content. */
  lemma {:induction false} StrandedLoser()
    ensures var mine := Fleet.Version("Z", Merged(map["z" := 1], map["a" := 2, "z" := 1]));
            Reacted("z", mine, Announcement("a", "A", map["a" := 1])).hash == "Z"
  {
    var winner, merged := map["a" := 1], map["a" := 2, "z" := 1];
    assert Get(winner, "z") < Get(merged, "z");
    var mine := Fleet.Version("Z", map["z" := 1]);
    ResolutionStrandsLoser("z", mine, merged, Announcement("a", "A", winner), []);
  }

  // ---- Many devices ----

  /** A device's copy after the first `n` announcements. */
  function ReactedTo(self: DeviceId, mine: Copy, vs: seq<Announcement>, n: nat): Copy
    requires n <= |vs|
  {
    if n == 0 then mine else Reacted(self, ReactedTo(self, mine, vs, n - 1), vs[n - 1])
  }

  function ReactedAll(self: DeviceId, mine: Copy, vs: seq<Announcement>): Copy
  {
    ReactedTo(self, mine, vs, |vs|)
  }

  /** Each author's version counts a write of its author that the clock `c` and no other version counts. */
  ghost predicate Forked(self: DeviceId, c: Clock, vs: seq<Announcement>)
  {
    && (forall i | 0 <= i < |vs| :: vs[i].author != self)
    && (forall i | 0 <= i < |vs| :: Get(c, vs[i].author) < Get(vs[i].clock, vs[i].author))
    && (forall i | 0 <= i < |vs| :: Get(vs[i].clock, self) < Get(c, self))
    && (forall i, j | 0 <= i < |vs| && 0 <= j < |vs| && i != j ::
          Get(vs[j].clock, vs[i].author) < Get(vs[i].clock, vs[i].author))
  }

  ghost predicate Different(mine: Hash, vs: seq<Announcement>)
  {
    && (forall i | 0 <= i < |vs| :: vs[i].hash != mine)
    && (forall i, j | 0 <= i < j < |vs| :: vs[i].hash != vs[j].hash)
  }

  /** The announcement that decides: the last of the first `n` whose author's name is smaller than one's own. */
  function Decider(self: DeviceId, vs: seq<Announcement>, n: nat): (r: Option<nat>)
    requires n <= |vs|
    ensures r.Some? ==> r.value < n && !LexLeq(self, vs[r.value].author)
    ensures forall i | 0 <= i < n && !LexLeq(self, vs[i].author) :: r.Some? && i <= r.value
  {
    if n == 0 then None
    else if !LexLeq(self, vs[n - 1].author) then Some(n - 1)
    else Decider(self, vs, n - 1)
  }

  lemma {:induction false} ReactedEntry(self: DeviceId, mine: Copy, v: Announcement, d: DeviceId)
    ensures Get(mine.clock, d) <= Get(Reacted(self, mine, v).clock, d) <= Max(Get(mine.clock, d), Get(v.clock, d))
  {
    GetMerged(mine.clock, v.clock, d);
  }

  /** Announcements of versions that count fewer of `d`'s writes than `bound` leave a device below it, too. */
  lemma {:induction false} EntryStaysBelow(self: DeviceId, mine: Copy, vs: seq<Announcement>, n: nat, d: DeviceId,
                                           bound: nat)
    requires n <= |vs| && Get(mine.clock, d) < bound && forall j | 0 <= j < n :: Get(vs[j].clock, d) < bound
    ensures Get(ReactedTo(self, mine, vs, n).clock, d) < bound
  {
    if 0 < n {
      EntryStaysBelow(self, mine, vs, n - 1, d, bound);
      ReactedEntry(self, ReactedTo(self, mine, vs, n - 1), vs[n - 1], d);
    }
  }

  lemma {:induction false} EntryOnlyGrows(self: DeviceId, mine: Copy, vs: seq<Announcement>, n: nat, d: DeviceId)
    requires n <= |vs|
    ensures Get(mine.clock, d) <= Get(ReactedTo(self, mine, vs, n).clock, d)
  {
    if 0 < n {
      EntryOnlyGrows(self, mine, vs, n - 1, d);
      ReactedEntry(self, ReactedTo(self, mine, vs, n - 1), vs[n - 1], d);
    }
  }

  /** After any number of announcements of forked versions, a device and the next one have each counted a write that
      the other has not. */
  lemma {:induction false} NextIsForked(self: DeviceId, mine: Copy, vs: seq<Announcement>, n: nat)
    requires Forked(self, mine.clock, vs) && n < |vs|
    ensures var c, v := ReactedTo(self, mine, vs, n).clock, vs[n];
            Get(v.clock, self) < Get(c, self) && Get(c, v.author) < Get(v.clock, v.author)
  {
    EntryOnlyGrows(self, mine, vs, n, self);
    EntryStaysBelow(self, mine, vs, n, vs[n].author, Get(vs[n].clock, vs[n].author));
  }

  /** Between versions that have each counted a write the other has not, the smaller name decides. */
  lemma {:induction false} NameDecides(self: DeviceId, before: Copy, v: Announcement)
    requires before.hash != v.hash
    requires Get(v.clock, self) < Get(before.clock, self) && Get(before.clock, v.author) < Get(v.clock, v.author)
    ensures Reacted(self, before, v).hash == if LexLeq(self, v.author) then before.hash else v.hash
  {
    CmpDecidesOrder(before.clock, v.clock);
    assert !Leq(v.clock, before.clock) && !Leq(before.clock, v.clock);
  }

  /** The content after announcement `k` is its own or the one before, by name. */
  predicate DecidedByName(hash: nat -> Hash, self: DeviceId, vs: seq<Announcement>, k: nat)
    requires k < |vs|
  {
    hash(k + 1) == if LexLeq(self, vs[k].author) then hash(k) else vs[k].hash
  }

  lemma {:induction false} LastDecides(hash: nat -> Hash, self: DeviceId, vs: seq<Announcement>, n: nat)
    requires n <= |vs| && forall k | 0 <= k < n :: DecidedByName(hash, self, vs, k)
    ensures var d := Decider(self, vs, n);
            hash(n) == if d.None? then hash(0) else vs[d.value].hash
  {
    if 0 < n {
      LastDecides(hash, self, vs, n - 1);
      assert DecidedByName(hash, self, vs, n - 1);
    }
  }

  /** What a device holds after so many announcements. */
  function HashOver(self: DeviceId, mine: Copy, vs: seq<Announcement>): nat -> Hash
  {
    (k: nat) => if k <= |vs| then ReactedTo(self, mine, vs, k).hash else ""
  }

  lemma {:induction false} ForkedIsDecidedByName(self: DeviceId, mine: Copy, vs: seq<Announcement>, k: nat)
    requires Forked(self, mine.clock, vs) && k < |vs| && ReactedTo(self, mine, vs, k).hash != vs[k].hash
    ensures DecidedByName(HashOver(self, mine, vs), self, vs, k)
  {
    NextIsForked(self, mine, vs, k);
    NameDecides(self, ReactedTo(self, mine, vs, k), vs[k]);
  }

  /** What a device holds is its own content or that of an announcement it has heard. */
  lemma {:induction false} HoldsWhatItHeard(self: DeviceId, mine: Copy, vs: seq<Announcement>, n: nat)
    requires n <= |vs|
    ensures var h := ReactedTo(self, mine, vs, n).hash;
            h == mine.hash || exists i | 0 <= i < n :: h == vs[i].hash
  {
    if 0 < n {
      HoldsWhatItHeard(self, mine, vs, n - 1);
    }
  }

  lemma {:induction false} NextIsDifferent(self: DeviceId, mine: Copy, vs: seq<Announcement>, n: nat)
    requires Different(mine.hash, vs) && n < |vs|
    ensures ReactedTo(self, mine, vs, n).hash != vs[n].hash
  {
    HoldsWhatItHeard(self, mine, vs, n);
  }

  /** Among forked versions a device ends with the content of the last announcement from a smaller name,
      or its own if there is none. */
  lemma {:induction false} LastSmallerNameWins(self: DeviceId, mine: Copy, vs: seq<Announcement>, n: nat)
    requires Forked(self, mine.clock, vs) && Different(mine.hash, vs) && n <= |vs|
    ensures var d := Decider(self, vs, n);
            ReactedTo(self, mine, vs, n).hash == if d.None? then mine.hash else vs[d.value].hash
  {
    var hash := HashOver(self, mine, vs);
    forall k | 0 <= k < n
      ensures DecidedByName(hash, self, vs, k)
    {
      NextIsDifferent(self, mine, vs, k);
      ForkedIsDecidedByName(self, mine, vs, k);
    }
    LastDecides(hash, self, vs, n);
  }

  /** The exact condition for agreement: a device ends with the smallest name's content if and only if no
      announcement from a name between that one and its own arrives later. */
  lemma {:induction false} EndsWithSmallestName(self: DeviceId, mine: Copy, vs: seq<Announcement>, m: nat)
    requires Forked(self, mine.clock, vs) && Different(mine.hash, vs) && m < |vs| && !LexLeq(self, vs[m].author)
    ensures ReactedAll(self, mine, vs).hash == vs[m].hash <==>
            forall i | m < i < |vs| :: LexLeq(self, vs[i].author)
  {
    LastSmallerNameWins(self, mine, vs, |vs|);
    var d := Decider(self, vs, |vs|).value;
    assert m <= d;
    assert vs[d].hash == vs[m].hash <==> d == m;
  }

  /** The version of a device's first and only write. */
  function FirstWrite(device: DeviceId, hash: Hash): Announcement
  {
    Announcement(device, hash, map[device := 1])
  }

  /** A device with one write of its own that hears of the first writes of two others. */
  lemma {:induction false} DecidedByLast(self: DeviceId, mine: Hash, v: DeviceId, hv: Hash, w: DeviceId, hw: Hash)
    requires self != v && self != w && v != w && mine != hv && mine != hw && hv != hw
    ensures ReactedAll(self, Fleet.Version(mine, map[self := 1]), [FirstWrite(v, hv), FirstWrite(w, hw)]).hash ==
            if !LexLeq(self, w) then hw else if !LexLeq(self, v) then hv else mine
  {
    var vs := [FirstWrite(v, hv), FirstWrite(w, hw)];
    assert Forked(self, map[self := 1], vs) && Different(mine, vs);
    LastSmallerNameWins(self, Fleet.Version(mine, map[self := 1]), vs, 2);
    assert Decider(self, vs, 1) == if !LexLeq(self, v) then Some(0) else None;
  }

  /** Three devices can disagree although each hears the two others: the third hears the first, then the second. */
  lemma {:induction false} ThreeDevicesCanDisagree()
    ensures var va, vb, vc := FirstWrite("a", "A"), FirstWrite("b", "B"), FirstWrite("c", "C");
            && ReactedAll("a", Fleet.Version("A", map["a" := 1]), [vb, vc]).hash == "A"
            && ReactedAll("b", Fleet.Version("B", map["b" := 1]), [va, vc]).hash == "A"
            && ReactedAll("c", Fleet.Version("C", map["c" := 1]), [va, vb]).hash == "B"
  {
    assert "a"[0] < "b"[0] < "c"[0];
    assert "A"[0] < "B"[0] < "C"[0];
    DecidedByLast("a", "A", "b", "B", "c", "C");
    DecidedByLast("b", "B", "a", "A", "c", "C");
    DecidedByLast("c", "C", "a", "A", "b", "B");
  }
}
