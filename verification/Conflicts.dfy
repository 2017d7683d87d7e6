/** Deciding between a local and a remote version of a file, and breaking ties
    between devices. */
module Conflicts {
  import opened Basics
  import opened Clocks

  type Path = string

  type Hash = string

  datatype ConflictInfo = ConflictInfo(
    relPath: Path,
    localClock: Clock, remoteClock: Clock,
    localHash: Hash, remoteHash: Hash,
    localDevice: DeviceId, remoteDevice: DeviceId,
    detectedAt: nat)

  datatype SyncOutcome = LocalNewer | RemoteNewer | UpToDate | Conflict(info: ConflictInfo)

  datatype Resolution = KeepLocal | KeepRemote | KeepBoth | Defer

  /** `now` stands for the wall clock read when a conflict is recorded. */
  function CompareClocks(local: Clock, remote: Clock, localHash: Hash, remoteHash: Hash,
                         relPath: Path, localDevice: DeviceId, remoteDevice: DeviceId, now: nat): SyncOutcome
  {
    if localHash == remoteHash then
      UpToDate
    else
      match Cmp(local, remote)
      case Some(Greater) => LocalNewer
      case Some(Less) => RemoteNewer
      case _ =>
        Conflict(ConflictInfo(relPath, local, remote, localHash, remoteHash, localDevice, remoteDevice, now))
  }

  /** Byte-wise order on device names. */
  predicate LexLeq(a: DeviceId, b: DeviceId)
  {
    if a == "" then true
    else if b == "" then false
    else if a[0] != b[0] then a[0] < b[0]
    else LexLeq(a[1..], b[1..])
  }

  function AutoResolve(c: ConflictInfo): Resolution
  {
    if LexLeq(c.localDevice, c.remoteDevice) then KeepLocal else KeepRemote
  }

  /** The outcome the other side sees. */
  predicate Dual(mine: SyncOutcome, theirs: SyncOutcome)
  {
    match mine
    case LocalNewer => theirs.RemoteNewer?
    case RemoteNewer => theirs.LocalNewer?
    case UpToDate => theirs.UpToDate?
    case Conflict(_) => theirs.Conflict?
  }

  /** Which versions an outcome separates: identical content, one causally newer, or neither. */
  lemma {:induction false} OutcomeMeaning(a: Clock, b: Clock, ha: Hash, hb: Hash, p: Path, da: DeviceId,
                                          db: DeviceId, now: nat)
    ensures var o := CompareClocks(a, b, ha, hb, p, da, db, now);
            && (o.UpToDate? <==> ha == hb)
            && (o.LocalNewer? <==> ha != hb && Lt(b, a))
            && (o.RemoteNewer? <==> ha != hb && Lt(a, b))
            && (o.Conflict? <==> ha != hb && (Same(a, b) || (!Leq(a, b) && !Leq(b, a))))
            && (o.Conflict? ==> && o.info.relPath == p && o.info.detectedAt == now
                                && o.info.localClock == a && o.info.localHash == ha && o.info.localDevice == da
                                && o.info.remoteClock == b && o.info.remoteHash == hb && o.info.remoteDevice == db)
  {
    CmpDecidesOrder(a, b);
  }

  lemma {:induction false} OutcomesAreDual(a: Clock, b: Clock, ha: Hash, hb: Hash, p: Path, da: DeviceId,
                                           db: DeviceId, now: nat, now': nat)
    ensures Dual(CompareClocks(a, b, ha, hb, p, da, db, now), CompareClocks(b, a, hb, ha, p, db, da, now'))
  {
    CmpDecidesOrder(a, b);
  }

  /** The names agree up to `i`, where `a` has the smaller character. */
  predicate SmallerAt(a: DeviceId, b: DeviceId, i: nat)
  {
    i < |a| && i < |b| && a[..i] == b[..i] && a[i] < b[i]
  }

  lemma {:induction false} SmallerAtNext(a: DeviceId, b: DeviceId, i: nat)
    requires a != "" && b != "" && a[0] == b[0]
    ensures SmallerAt(a, b, i + 1) <==> SmallerAt(a[1..], b[1..], i)
  {
    if i + 1 < |a| && i + 1 < |b| {
      assert a[..i + 1] == [a[0]] + a[1..][..i] && b[..i + 1] == [b[0]] + b[1..][..i];
    }
  }

  /** The order of names is decided by the first character in which they differ, or by which of them ends first. */
  lemma {:induction false} LexIsFirstDifference(a: DeviceId, b: DeviceId)
    ensures LexLeq(a, b) <==> a <= b || exists i: nat :: SmallerAt(a, b, i)
  {
    if a != "" && b != "" {
      if a[0] == b[0] {
        LexIsFirstDifference(a[1..], b[1..]);
        assert a == [a[0]] + a[1..] && b == [b[0]] + b[1..];
        assert a <= b <==> a[1..] <= b[1..];
        if i: nat :| SmallerAt(a[1..], b[1..], i) {
          SmallerAtNext(a, b, i);
        }
        if i: nat :| SmallerAt(a, b, i) {
          SmallerAtNext(a, b, i - 1);
        }
      } else {
        assert a[0] < b[0] <==> SmallerAt(a, b, 0);
        assert forall i: nat | 0 < i && i < |a| && i < |b| :: a[..i][0] != b[..i][0];
      }
    }
  }

  lemma {:induction false} LexTotalOrder(a: DeviceId, b: DeviceId)
    ensures LexLeq(a, b) || LexLeq(b, a)
    ensures LexLeq(a, b) && LexLeq(b, a) ==> a == b
  {
    if a != "" && b != "" && a[0] == b[0] {
      LexTotalOrder(a[1..], b[1..]);
      assert a == [a[0]] + a[1..] && b == [b[0]] + b[1..];
    }
  }

  lemma {:induction false} LexTransitive(a: DeviceId, b: DeviceId, c: DeviceId)
    requires LexLeq(a, b) && LexLeq(b, c)
    ensures LexLeq(a, c)
  {
    if a != "" && b != "" && c != "" && a[0] == b[0] && b[0] == c[0] {
      LexTransitive(a[1..], b[1..], c[1..]);
    }
  }

  /** On a conflict a device keeps its own version exactly if its name has the smaller character where the two first
      differ, or the other's name only continues it.  So of two different devices one keeps and the other yields. */
  lemma {:induction false} OneSideYields(mine: ConflictInfo, theirs: ConflictInfo)
    requires mine.localDevice == theirs.remoteDevice && mine.remoteDevice == theirs.localDevice
    ensures var a, b := mine.localDevice, mine.remoteDevice;
            AutoResolve(mine) == if a <= b || exists i | 0 <= i < |a| && i < |b| :: a[..i] == b[..i] && a[i] < b[i]
                                 then KeepLocal else KeepRemote
    ensures mine.localDevice != mine.remoteDevice ==>
              (AutoResolve(mine) == KeepLocal <==> AutoResolve(theirs) == KeepRemote)
  {
    var a, b := mine.localDevice, mine.remoteDevice;
    LexTotalOrder(a, b);
    LexIsFirstDifference(a, b);
    assert forall i | 0 <= i < |a| && i < |b| :: SmallerAt(a, b, i) <==> a[..i] == b[..i] && a[i] < b[i];
  }
}
