/** Vector clocks against causal histories.

    Each run is shadowed by a history that numbers every write and lets the sets of
    writes seen travel with the versions: a write adds its own number; a push that goes
    through, a pull or a delivery hands a set over.  The sets are built without looking at a
    clock's entries.  The theorem is that comparing clocks gives exactly their inclusion. */
module FleetHistory {
  import opened Basics
  import opened Clocks
  import opened Conflicts
  import opened Fleet
  import opened FleetTheorems
  import FleetInvariant

  datatype Write = Write(device: DeviceId, path: Path)

  type Seen = set<nat>

  type Holdings = map<(DeviceId, Path), Seen>

  datatype History = History(writes: seq<Write>, held: Holdings, remote: map<Path, Seen>, published: seq<Seen>)

  function HeldBy(held: Holdings, d: DeviceId, p: Path): Seen
  {
    if (d, p) in held then held[(d, p)] else {}
  }

  function RemoteSeen(h: History, p: Path): Seen
  {
    if p in h.remote then h.remote[p] else {}
  }

  /** Delivering events `k..n`: everything but the device's own events hands its past over. */
  function Delivered(held: Holdings, es: seq<Event>, pasts: seq<Seen>, d: DeviceId, k: nat, n: nat): Holdings
    requires k <= n <= |es| && |pasts| == |es|
    decreases n
  {
    if k == n then held else
      var held' := Delivered(held, es, pasts, d, k, n - 1);
      var e := es[n - 1];
      if e.device == d then held'
      else held'[(d, e.path) := HeldBy(held', d, e.path) + pasts[n - 1]]
  }

  function Record(s: State, h: History, op: Op): History
    requires WellFormed(s) && op.device in s.machines
  {
    match op
    case WriteFile(d, p, _) =>
      h.(writes := h.writes + [Write(d, p)],
         held := h.held[(d, p) := HeldBy(h.held, d, p) + {|h.writes|}])
    case Push(d, p) =>
      if !PushProceeds(s, d, p) then h else
        var past := HeldBy(h.held, d, p) + RemoteSeen(h, p);
        h.(held := h.held[(d, p) := past], remote := h.remote[p := past], published := h.published + [past])
    case Pull(d, p) =>
      if !s.machines[d].online || p !in s.manifests then h else
        h.(held := h.held[(d, p) := HeldBy(h.held, d, p) + RemoteSeen(h, p)])
    case ProcessEvents(d) =>
      if !s.machines[d].online || |h.published| != |s.events| then h else
        h.(held := Delivered(h.held, s.events, h.published, d, Cursor(s, d), |s.events|))
    case _ => h
  }

  function Past(devices: set<DeviceId>, ops: seq<Op>): History
    requires Known(Init(devices), ops)
  {
    if ops == [] then History([], map[], map[], []) else
      var front := ops[..|ops| - 1];
      Record(Run(Init(devices), front), Past(devices, front), ops[|ops| - 1])
  }

  // ---- How a clock encodes a set of writes ----

  function Count(ws: seq<Write>, d: DeviceId, p: Path): nat
  {
    if ws == [] then 0
    else Count(ws[..|ws| - 1], d, p) + (if ws[|ws| - 1] == Write(d, p) then 1 else 0)
  }

  /** The how-manieth write of its device to its path a write is. */
  function Rank(ws: seq<Write>, w: nat): nat
    requires w < |ws|
  {
    Count(ws[..w + 1], ws[w].device, ws[w].path)
  }

  /** Write `w` is among those that clock `c` counts for path `p`. */
  predicate Counted(ws: seq<Write>, p: Path, c: Clock, w: nat)
  {
    w < |ws| && ws[w].path == p && Rank(ws, w) <= Get(c, ws[w].device)
  }

  ghost predicate Encodes(ws: seq<Write>, p: Path, c: Clock, seen: Seen)
  {
    && (forall w: nat :: w in seen <==> Counted(ws, p, c, w))
    && (forall d :: Get(c, d) <= Count(ws, d, p))
  }

  lemma {:induction false} CountPrefix(ws: seq<Write>, n: nat, d: DeviceId, p: Path)
    requires n <= |ws|
    ensures Count(ws[..n], d, p) <= Count(ws, d, p)
  {
    if n < |ws| {
      var front := ws[..|ws| - 1];
      assert front[..n] == ws[..n];
      CountPrefix(front, n, d, p);
    } else {
      assert ws[..n] == ws;
    }
  }

  /** Every count up to the total is the rank of some write. */
  lemma {:induction false} WriteOfRank(ws: seq<Write>, d: DeviceId, p: Path, k: nat) returns (w: nat)
    requires 1 <= k <= Count(ws, d, p)
    ensures w < |ws| && ws[w] == Write(d, p) && Rank(ws, w) == k
  {
    var n := |ws| - 1;
    var front := ws[..n];
    if k <= Count(front, d, p) {
      w := WriteOfRank(front, d, p, k);
      assert front[..w + 1] == ws[..w + 1];
    } else {
      w := n;
      assert ws[..n + 1] == ws;
    }
  }

  /** The heart of the matter: counting no more writes is the same as having seen no others. */
  lemma LeqIffSubset(ws: seq<Write>, p: Path, a: Clock, sa: Seen, b: Clock, sb: Seen)
    requires Encodes(ws, p, a, sa) && Encodes(ws, p, b, sb)
    ensures Leq(a, b) <==> sa <= sb
  {
    if Leq(a, b) {
      forall w | w in sa
        ensures w in sb
      {
        assert Counted(ws, p, a, w);
        assert Get(a, ws[w].device) <= Get(b, ws[w].device);
        assert Counted(ws, p, b, w);
      }
    }
    if sa <= sb {
      forall d
        ensures Get(a, d) <= Get(b, d)
      {
        if 0 < Get(a, d) {
          var w := WriteOfRank(ws, d, p, Get(a, d));
          assert Counted(ws, p, a, w);
          assert Counted(ws, p, b, w);
        }
      }
    }
  }

  lemma {:induction false} MergeEncodesUnion(ws: seq<Write>, p: Path, a: Clock, sa: Seen, b: Clock, sb: Seen)
    requires Encodes(ws, p, a, sa) && Encodes(ws, p, b, sb)
    ensures Encodes(ws, p, Merged(a, b), sa + sb)
  {
    var c := Merged(a, b);
    forall w: nat
      ensures w in sa + sb <==> Counted(ws, p, c, w)
    {
      if w < |ws| {
        GetMerged(a, b, ws[w].device);
      }
      assert w in sa <==> Counted(ws, p, a, w);
      assert w in sb <==> Counted(ws, p, b, w);
    }
    forall d
      ensures Get(c, d) <= Count(ws, d, p)
    {
      GetMerged(a, b, d);
    }
  }

  lemma {:induction false} CountAppend(ws: seq<Write>, x: Write, d: DeviceId, p: Path)
    ensures Count(ws + [x], d, p) == Count(ws, d, p) + (if x == Write(d, p) then 1 else 0)
  {
    assert (ws + [x])[..|ws|] == ws;
  }

  lemma RankAppend(ws: seq<Write>, x: Write, w: nat)
    requires w <= |ws|
    ensures w < |ws| ==> Rank(ws + [x], w) == Rank(ws, w)
    ensures w == |ws| ==> Rank(ws + [x], w) == Count(ws, x.device, x.path) + 1
  {
    if w < |ws| {
      assert (ws + [x])[..w + 1] == ws[..w + 1];
    } else {
      assert (ws + [x])[..w + 1] == ws + [x];
      CountAppend(ws, x, x.device, x.path);
    }
  }

  /** A write elsewhere leaves what a clock encodes alone. */
  lemma AppendKeepsEncoding(ws: seq<Write>, x: Write, p: Path, c: Clock, seen: Seen)
    requires Encodes(ws, p, c, seen)
    ensures Encodes(ws + [x], p, c, seen)
  {
    forall w: nat
      ensures w in seen <==> Counted(ws + [x], p, c, w)
    {
      assert w in seen <==> Counted(ws, p, c, w);
      if w <= |ws| {
        RankAppend(ws, x, w);
        assert Get(c, x.device) <= Count(ws, x.device, p);
      }
    }
    forall d
      ensures Get(c, d) <= Count(ws + [x], d, p)
    {
      CountAppend(ws, x, d, p);
    }
  }

  /** The ticked clock counts the new write and the ones counted before, nothing else. */
  lemma {:induction false} TickCounts(ws: seq<Write>, d: DeviceId, p: Path, c: Clock, w: nat)
    requires Get(c, d) == Count(ws, d, p)
    ensures Counted(ws + [Write(d, p)], p, Ticked(c, d), w) <==> w == |ws| || Counted(ws, p, c, w)
  {
    if w < |ws| {
      RankAppend(ws, Write(d, p), w);
      if ws[w] == Write(d, p) {
        CountPrefix(ws, w + 1, d, p);
      }
    } else if w == |ws| {
      RankAppend(ws, Write(d, p), w);
    }
  }

  lemma {:induction false} TickEncodesNewWrite(ws: seq<Write>, d: DeviceId, p: Path, c: Clock, seen: Seen)
    requires Encodes(ws, p, c, seen) && Get(c, d) == Count(ws, d, p)
    ensures Encodes(ws + [Write(d, p)], p, Ticked(c, d), seen + {|ws|})
    ensures Get(Ticked(c, d), d) == Count(ws + [Write(d, p)], d, p)
  {
    CountAppend(ws, Write(d, p), d, p);
    forall w: nat
      ensures w in seen + {|ws|} <==> Counted(ws + [Write(d, p)], p, Ticked(c, d), w)
    {
      TickCounts(ws, d, p, c, w);
    }
    forall y
      ensures Get(Ticked(c, d), y) <= Count(ws + [Write(d, p)], y, p)
    {
      CountAppend(ws, Write(d, p), y, p);
    }
  }

  // ---- What every step keeps ----

  /** Device `d`'s copy of `p` encodes its past and counts all of its own writes. */
  ghost predicate FileEncoded(ws: seq<Write>, d: DeviceId, p: Path, f: Option<Version>, seen: Seen)
  {
    Encodes(ws, p, ClockOf(f), seen) && Get(ClockOf(f), d) == Count(ws, d, p)
  }

  ghost predicate FilesEncoded(ws: seq<Write>, d: DeviceId, files: map<Path, Version>, held: Holdings)
  {
    forall p :: FileEncoded(ws, d, p, Lookup(files, p), HeldBy(held, d, p))
  }

  ghost predicate RemoteEncoded(s: State, h: History, p: Path)
  {
    Encodes(h.writes, p, if p in s.manifests then s.manifests[p].clock else map[], RemoteSeen(h, p))
  }

  ghost predicate EventsEncoded(ws: seq<Write>, es: seq<Event>, pasts: seq<Seen>)
  {
    && |pasts| == |es|
    && forall i | 0 <= i < |es| :: Encodes(ws, es[i].path, es[i].clock, pasts[i])
  }

  ghost predicate Shadows(s: State, h: History)
  {
    && WellFormed(s)
    && (forall d | d in s.machines :: FilesEncoded(h.writes, d, s.machines[d].files, h.held))
    && (forall p :: RemoteEncoded(s, h, p))
    && EventsEncoded(h.writes, s.events, h.published)
  }

  lemma {:induction false} MergeKeepsFileEncoded(ws: seq<Write>, d: DeviceId, p: Path, f: Option<Version>, seen: Seen,
                              c: Clock, past: Seen, v: Version)
    requires FileEncoded(ws, d, p, f, seen) && Encodes(ws, p, c, past)
    requires v.clock == Merged(ClockOf(f), c)
    ensures FileEncoded(ws, d, p, Some(v), seen + past)
  {
    MergeEncodesUnion(ws, p, ClockOf(f), seen, c, past);
    GetMerged(ClockOf(f), c, d);
  }

  /** A delivered event hands over its clock whatever the comparison says. */
  lemma {:induction false} EventMergesClock(files: map<Path, Version>, d: DeviceId, e: Event)
    requires e.device != d
    ensures var files' := ApplyEvent(files, d, e);
            && e.path in files'
            && files'[e.path].clock == Merged(ClockOf(Lookup(files, e.path)), e.clock)
            && forall q | q != e.path :: Lookup(files', q) == Lookup(files, q)
  {
    assert Merged(map[], e.clock) == e.clock;
  }

  lemma DeliveryKeepsEncoded(ws: seq<Write>, d: DeviceId, files: map<Path, Version>, held: Holdings, e: Event,
                             past: Seen)
    requires FilesEncoded(ws, d, files, held) && Encodes(ws, e.path, e.clock, past) && e.device != d
    ensures FilesEncoded(ws, d, ApplyEvent(files, d, e), held[(d, e.path) := HeldBy(held, d, e.path) + past])
  {
    var files' := ApplyEvent(files, d, e);
    var held' := held[(d, e.path) := HeldBy(held, d, e.path) + past];
    EventMergesClock(files, d, e);
    forall p
      ensures FileEncoded(ws, d, p, Lookup(files', p), HeldBy(held', d, p))
    {
      assert FileEncoded(ws, d, p, Lookup(files, p), HeldBy(held, d, p));
      if p == e.path {
        MergeKeepsFileEncoded(ws, d, p, Lookup(files, p), HeldBy(held, d, p), e.clock, past, files'[p]);
      }
    }
  }

  lemma {:induction false} NextDelivery(ws: seq<Write>, d: DeviceId, files: map<Path, Version>, held: Holdings,
                                        es: seq<Event>, pasts: seq<Seen>, k: nat, i: nat)
    requires k <= i < |es| && EventsEncoded(ws, es, pasts)
    requires FilesEncoded(ws, d, files, Delivered(held, es, pasts, d, k, i))
    ensures FilesEncoded(ws, d, ApplyEvent(files, d, es[i]), Delivered(held, es, pasts, d, k, i + 1))
  {
    if es[i].device != d {
      DeliveryKeepsEncoded(ws, d, files, Delivered(held, es, pasts, d, k, i), es[i], pasts[i]);
    }
  }

  lemma {:induction false} DeliveriesKeepEncoded(ws: seq<Write>, d: DeviceId, files: map<Path, Version>, held: Holdings,
                                                 es: seq<Event>, pasts: seq<Seen>, k: nat, n: nat)
    requires k <= n <= |es| && EventsEncoded(ws, es, pasts) && FilesEncoded(ws, d, files, held)
    ensures FilesEncoded(ws, d, ApplyEvents(files, d, es[k..n]), Delivered(held, es, pasts, d, k, n))
  {
    var ok := (fs: map<Path, Version>, i: int) =>
      k <= i <= n && FilesEncoded(ws, d, fs, Delivered(held, es, pasts, d, k, i));
    forall fs, i | k <= i < n && ok(fs, i)
      ensures ok(ApplyEvent(fs, d, es[i]), i + 1)
    {
      NextDelivery(ws, d, fs, held, es, pasts, k, i);
    }
    FleetInvariant.RangeKeeps(es, d, files, k, n, ok);
    FleetInvariant.RangeIsSlice(files, d, es, k, n);
  }

  lemma {:induction false} DeliveryIsOwn(held: Holdings, es: seq<Event>, pasts: seq<Seen>, d: DeviceId,
                                         k: nat, n: nat, x: DeviceId, p: Path)
    requires k <= n <= |es| && |pasts| == |es| && x != d
    ensures HeldBy(Delivered(held, es, pasts, d, k, n), x, p) == HeldBy(held, x, p)
    decreases n
  {
    if k < n {
      DeliveryIsOwn(held, es, pasts, d, k, n - 1, x, p);
    }
  }

  /** One device's copy of one path changes; every other copy keeps its encoding. */
  lemma SetHeldKeepsFiles(ws: seq<Write>, machines: map<DeviceId, Machine>, held: Holdings,
                          d: DeviceId, p: Path, v: Version, past: Seen)
    requires d in machines && FileEncoded(ws, d, p, Some(v), past)
    requires forall x | x in machines :: FilesEncoded(ws, x, machines[x].files, held)
    ensures var machines' := machines[d := machines[d].(files := machines[d].files[p := v])];
            forall x | x in machines' :: FilesEncoded(ws, x, machines'[x].files, held[(d, p) := past])
  {
    var machines' := machines[d := machines[d].(files := machines[d].files[p := v])];
    var held' := held[(d, p) := past];
    forall x | x in machines'
      ensures FilesEncoded(ws, x, machines'[x].files, held')
    {
      forall q
        ensures FileEncoded(ws, x, q, Lookup(machines'[x].files, q), HeldBy(held', x, q))
      {
        assert FilesEncoded(ws, x, machines[x].files, held);
        assert FileEncoded(ws, x, q, Lookup(machines[x].files, q), HeldBy(held, x, q));
      }
    }
  }

  lemma WriteShadows(s: State, h: History, d: DeviceId, p: Path, hash: Hash)
    requires Shadows(s, h) && d in s.machines
    ensures Shadows(Written(s, d, p, hash), Record(s, h, WriteFile(d, p, hash)))
  {
    var s', h' := Written(s, d, p, hash), Record(s, h, WriteFile(d, p, hash));
    var x := Write(d, p);
    forall q
      ensures RemoteEncoded(s', h', q)
    {
      assert RemoteEncoded(s, h, q);
      AppendKeepsEncoding(h.writes, x, q, if q in s.manifests then s.manifests[q].clock else map[], RemoteSeen(h, q));
    }
    forall i | 0 <= i < |s.events|
      ensures Encodes(h'.writes, s.events[i].path, s.events[i].clock, h.published[i])
    {
      AppendKeepsEncoding(h.writes, x, s.events[i].path, s.events[i].clock, h.published[i]);
    }
    forall y | y in s.machines
      ensures FilesEncoded(h'.writes, y, s'.machines[y].files, h'.held)
    {
      assert FilesEncoded(h.writes, y, s.machines[y].files, h.held);
      WriteKeepsFiles(h.writes, d, p, hash, y, s.machines[y].files, h.held);
    }
  }

  /** The files of device `y` after device `d` wrote `p`. */
  lemma WriteKeepsFiles(ws: seq<Write>, d: DeviceId, p: Path, hash: Hash,
                        y: DeviceId, files: map<Path, Version>, held: Holdings)
    requires FilesEncoded(ws, y, files, held)
    ensures var files' := if y == d then files[p := Version(hash, Ticked(ClockOf(Lookup(files, p)), d))] else files;
            FilesEncoded(ws + [Write(d, p)], y, files', held[(d, p) := HeldBy(held, d, p) + {|ws|}])
  {
    var files' := if y == d then files[p := Version(hash, Ticked(ClockOf(Lookup(files, p)), d))] else files;
    var held' := held[(d, p) := HeldBy(held, d, p) + {|ws|}];
    forall q
      ensures FileEncoded(ws + [Write(d, p)], y, q, Lookup(files', q), HeldBy(held', y, q))
    {
      assert FileEncoded(ws, y, q, Lookup(files, q), HeldBy(held, y, q));
      var c := ClockOf(Lookup(files, q));
      if y == d && q == p {
        TickEncodesNewWrite(ws, d, p, c, HeldBy(held, d, p));
      } else {
        AppendKeepsEncoding(ws, Write(d, p), q, c, HeldBy(held, y, q));
        CountAppend(ws, Write(d, p), y, q);
      }
    }
  }

  lemma HandOver(s: State, h: History, d: DeviceId, p: Path, hash: Hash)
    requires Shadows(s, h) && d in s.machines
    ensures var c := if p in s.manifests then s.manifests[p].clock else map[];
            var v := Version(hash, Merged(ClockOf(FileOf(s, d, p)), c));
            FileEncoded(h.writes, d, p, Some(v), HeldBy(h.held, d, p) + RemoteSeen(h, p))
  {
    assert RemoteEncoded(s, h, p);
    var c := if p in s.manifests then s.manifests[p].clock else map[];
    assert FilesEncoded(h.writes, d, s.machines[d].files, h.held);
    assert FileEncoded(h.writes, d, p, Lookup(s.machines[d].files, p), HeldBy(h.held, d, p));
    MergeKeepsFileEncoded(h.writes, d, p, FileOf(s, d, p), HeldBy(h.held, d, p), c, RemoteSeen(h, p),
                          Version(hash, Merged(ClockOf(FileOf(s, d, p)), c)));
  }

  lemma PullShadows(s: State, h: History, d: DeviceId, p: Path)
    requires Shadows(s, h) && d in s.machines
    ensures Shadows(Pulled(s, d, p), Record(s, h, Pull(d, p)))
  {
    if s.machines[d].online && p in s.manifests {
      var s', h' := Pulled(s, d, p), Record(s, h, Pull(d, p));
      HandOver(s, h, d, p, s.manifests[p].fileHash);
      SetHeldKeepsFiles(h.writes, s.machines, h.held, d, p, s'.machines[d].files[p], HeldBy(h'.held, d, p));
      forall q
        ensures RemoteEncoded(s', h', q)
      {
        assert RemoteEncoded(s, h, q);
      }
    }
  }

  lemma PushShadows(s: State, h: History, d: DeviceId, p: Path)
    requires Shadows(s, h) && d in s.machines
    ensures Shadows(Pushed(s, d, p), Record(s, h, Push(d, p)))
  {
    if PushProceeds(s, d, p) {
      var s', h' := Pushed(s, d, p), Record(s, h, Push(d, p));
      var v := s'.machines[d].files[p];
      if p !in s.manifests {
        var c := s.machines[d].files[p].clock;
        assert Merged(c, map[]) == c;
      }
      HandOver(s, h, d, p, v.hash);
      SetHeldKeepsFiles(h.writes, s.machines, h.held, d, p, v, HeldBy(h'.held, d, p));
      PushShadowsRemote(s, h, d, p);
    }
  }

  lemma PushShadowsRemote(s: State, h: History, d: DeviceId, p: Path)
    requires Shadows(s, h) && d in s.machines && PushProceeds(s, d, p)
    ensures var s', h' := Pushed(s, d, p), Record(s, h, Push(d, p));
            (forall q :: RemoteEncoded(s', h', q)) && EventsEncoded(h'.writes, s'.events, h'.published)
  {
    var s', h' := Pushed(s, d, p), Record(s, h, Push(d, p));
    if p !in s.manifests {
      var c := s.machines[d].files[p].clock;
      assert Merged(c, map[]) == c;
    }
    HandOver(s, h, d, p, s.machines[d].files[p].hash);
    forall q
      ensures RemoteEncoded(s', h', q)
    {
      assert RemoteEncoded(s, h, q);
    }
    assert EventsEncoded(h'.writes, s'.events, h'.published);
  }

  lemma ProcessShadows(s: State, h: History, d: DeviceId)
    requires Shadows(s, h) && d in s.machines
    ensures Shadows(Processed(s, d), Record(s, h, ProcessEvents(d)))
  {
    if s.machines[d].online {
      var s', h' := Processed(s, d), Record(s, h, ProcessEvents(d));
      var k, n := Cursor(s, d), |s.events|;
      assert s.events[k..] == s.events[k..n];
      assert FilesEncoded(h.writes, d, s.machines[d].files, h.held);
      DeliveriesKeepEncoded(h.writes, d, s.machines[d].files, h.held, s.events, h.published, k, n);
      forall x | x in s'.machines
        ensures FilesEncoded(h'.writes, x, s'.machines[x].files, h'.held)
      {
        if x != d {
          forall p
            ensures HeldBy(h'.held, x, p) == HeldBy(h.held, x, p)
          {
            DeliveryIsOwn(h.held, s.events, h.published, d, k, n, x, p);
          }
          OthersKeepEncoding(h.writes, x, s.machines[x].files, h.held, h'.held);
        }
      }
      forall q
        ensures RemoteEncoded(s', h', q)
      {
        assert RemoteEncoded(s, h, q);
      }
    }
  }

  lemma {:induction false} OthersKeepEncoding(ws: seq<Write>, x: DeviceId, files: map<Path, Version>,
                                              held: Holdings, held': Holdings)
    requires FilesEncoded(ws, x, files, held)
    requires forall p :: HeldBy(held', x, p) == HeldBy(held, x, p)
    ensures FilesEncoded(ws, x, files, held')
  {
    forall p
      ensures FileEncoded(ws, x, p, Lookup(files, p), HeldBy(held', x, p))
    {
      assert FileEncoded(ws, x, p, Lookup(files, p), HeldBy(held, x, p));
    }
  }

  lemma OnlineShadows(s: State, h: History, d: DeviceId, online: bool)
    requires Shadows(s, h) && d in s.machines
    ensures Shadows(WithOnline(s, d, online), h)
  {
    forall q
      ensures RemoteEncoded(WithOnline(s, d, online), h, q)
    {
      assert RemoteEncoded(s, h, q);
    }
  }

  lemma StepShadows(s: State, h: History, op: Op)
    requires Shadows(s, h) && op.device in s.machines
    ensures Shadows(Step(s, op), Record(s, h, op))
  {
    match op
    case WriteFile(d, p, hash) => WriteShadows(s, h, d, p, hash);
    case Push(d, p) => PushShadows(s, h, d, p);
    case Pull(d, p) => PullShadows(s, h, d, p);
    case GoOffline(d) => OnlineShadows(s, h, d, false);
    case GoOnline(d) => OnlineShadows(s, h, d, true);
    case ProcessEvents(d) => ProcessShadows(s, h, d);
  }

  lemma EmptyEncodes(p: Path)
    ensures Encodes([], p, map[], {})
  {
  }

  lemma {:induction false} RunShadows(devices: set<DeviceId>, ops: seq<Op>)
    requires Known(Init(devices), ops)
    ensures Shadows(Run(Init(devices), ops), Past(devices, ops))
  {
    if ops == [] {
      forall p
        ensures Encodes([], p, map[], {})
      {
        EmptyEncodes(p);
      }
    } else {
      var front := ops[..|ops| - 1];
      RunShadows(devices, front);
      StepShadows(Run(Init(devices), front), Past(devices, front), ops[|ops| - 1]);
    }
  }

  // ---- The theorem ----

  /** `v` is a version of `p` somewhere in the fleet, and `past` the writes it has seen. */
  ghost predicate KnownVersion(s: State, h: History, p: Path, v: Version, past: Seen)
  {
    || (exists d :: d in s.machines && FileOf(s, d, p) == Some(v) && past == HeldBy(h.held, d, p))
    || (p in s.manifests && v == Version(s.manifests[p].fileHash, s.manifests[p].clock) && past == RemoteSeen(h, p))
    || (exists i :: 0 <= i < |s.events| && i < |h.published| && s.events[i].path == p
                    && v == Version(s.events[i].hash, s.events[i].clock) && past == h.published[i])
  }

  lemma KnownVersionEncodes(s: State, h: History, p: Path, v: Version, past: Seen)
    requires Shadows(s, h) && KnownVersion(s, h, p, v, past)
    ensures Encodes(h.writes, p, v.clock, past)
  {
    if d :| d in s.machines && FileOf(s, d, p) == Some(v) && past == HeldBy(h.held, d, p) {
      assert FilesEncoded(h.writes, d, s.machines[d].files, h.held);
      assert FileEncoded(h.writes, d, p, Lookup(s.machines[d].files, p), HeldBy(h.held, d, p));
    } else if p in s.manifests && past == RemoteSeen(h, p) {
      assert RemoteEncoded(s, h, p);
    }
  }

  lemma CompareEncoded(ws: seq<Write>, p: Path, a: Clock, sa: Seen, b: Clock, sb: Seen)
    requires Encodes(ws, p, a, sa) && Encodes(ws, p, b, sb)
    ensures Cmp(a, b) == Some(Less) <==> sa < sb
    ensures Cmp(a, b) == Some(Equal) <==> sa == sb
    ensures Cmp(a, b) == Some(Greater) <==> sb < sa
    ensures Cmp(a, b) == None <==> !(sa <= sb) && !(sb <= sa)
  {
    LeqIffSubset(ws, p, a, sa, b, sb);
    LeqIffSubset(ws, p, b, sb, a, sa);
    CmpDecidesOrder(a, b);
    assert Leq(a, b) && Leq(b, a) <==> Same(a, b);
  }

  /** In every run, for any two versions of a path found on a device, in the remote or in the log,
      comparing clocks answers exactly how the sets of writes they have seen are related. */
  lemma {:induction false} ClocksAreCausalHistories(devices: set<DeviceId>, ops: seq<Op>, p: Path,
                                 v: Version, seen: Seen, w: Version, seen': Seen)
    requires Known(Init(devices), ops)
    requires KnownVersion(Run(Init(devices), ops), Past(devices, ops), p, v, seen)
    requires KnownVersion(Run(Init(devices), ops), Past(devices, ops), p, w, seen')
    ensures Cmp(v.clock, w.clock) == Some(Less) <==> seen < seen'
    ensures Cmp(v.clock, w.clock) == Some(Equal) <==> seen == seen'
    ensures Cmp(v.clock, w.clock) == Some(Greater) <==> seen' < seen
    ensures Cmp(v.clock, w.clock) == None <==> !(seen <= seen') && !(seen' <= seen)
  {
    var s, h := Run(Init(devices), ops), Past(devices, ops);
    RunShadows(devices, ops);
    KnownVersionEncodes(s, h, p, v, seen);
    KnownVersionEncodes(s, h, p, w, seen');
    CompareEncoded(h.writes, p, v.clock, seen, w.clock, seen');
  }

  /** Conflict detection: a push from an online device is refused as a conflict exactly when the content
      differs and each side has seen a write the other has not. */
  lemma ConflictsAreConcurrentWrites(devices: set<DeviceId>, ops: seq<Op>, d: DeviceId, p: Path)
    requires Known(Init(devices), ops) && d in devices
    requires var s := Run(Init(devices), ops);
             s.machines[d].online && p in s.machines[d].files && p in s.manifests
    ensures var s, h := Run(Init(devices), ops), Past(devices, ops);
            var mine, theirs := HeldBy(h.held, d, p), RemoteSeen(h, p);
            PushConflicts(s, d, p) <==>
              && s.machines[d].files[p].hash != s.manifests[p].fileHash
              && !(mine <= theirs) && !(theirs <= mine)
  {
    var s, h := Run(Init(devices), ops), Past(devices, ops);
    var v, m := s.machines[d].files[p], s.manifests[p];
    assert KnownVersion(s, h, p, v, HeldBy(h.held, d, p));
    assert KnownVersion(s, h, p, Version(m.fileHash, m.clock), RemoteSeen(h, p));
    ClocksAreCausalHistories(devices, ops, p, v, HeldBy(h.held, d, p), Version(m.fileHash, m.clock), RemoteSeen(h, p));
    CmpDecidesOrder(v.clock, m.clock);
    assert FileOf(s, d, p) == Some(v);
    assert Present(s, p, v) && Present(s, p, Version(m.fileHash, m.clock));
    ConflictMeansConcurrent(s, p, v, Version(m.fileHash, m.clock), d, m.writtenBy, 0);
  }
}
