/** Vector clocks: the values devices exchange, the pointwise order on them and
    the in-place operations that tick, merge and compare them.

    A clock maps a device to the number of its writes that a version has seen;
    an absent device counts as zero.  Counters are unbounded here. */
module Clocks {
  import opened Basics

  type DeviceId = string

  type Clock = map<DeviceId, nat>

  datatype Ordering = Less | Equal | Greater

  function Get(c: Clock, d: DeviceId): nat
  {
    if d in c then c[d] else 0
  }

  /** Every write counted by `a` is counted by `b`. */
  ghost predicate Leq(a: Clock, b: Clock)
  {
    forall d :: Get(a, d) <= Get(b, d)
  }

  ghost predicate Lt(a: Clock, b: Clock)
  {
    Leq(a, b) && !Leq(b, a)
  }

  /** The two clocks count the same writes (they may still differ in explicit zeros). */
  ghost predicate Same(a: Clock, b: Clock)
  {
    forall d :: Get(a, d) == Get(b, d)
  }

  /** No explicit zeros: true of every clock built by ticks and merges. */
  ghost predicate Positive(c: Clock)
  {
    forall d | d in c :: 0 < c[d]
  }

  function Ticked(c: Clock, d: DeviceId): Clock
  {
    c[d := Get(c, d) + 1]
  }

  function Merged(a: Clock, b: Clock): Clock
  {
    map d | d in a.Keys + b.Keys :: Max(Get(a, d), Get(b, d))
  }

  /** Some entry of `a` exceeds the entry of `b`. */
  predicate Exceeds(a: Clock, b: Clock)
  {
    exists d | d in a.Keys :: Get(b, d) < a[d]
  }

  /** The same, looking only at the devices of `keys`. */
  predicate ExceedsOn(a: Clock, b: Clock, keys: set<DeviceId>)
  {
    exists d | d in keys :: Get(b, d) < Get(a, d)
  }

  lemma {:induction false} ExceedsOnStep(a: Clock, b: Clock, keys: set<DeviceId>, key: DeviceId)
    ensures ExceedsOn(a, b, keys + {key}) <==> ExceedsOn(a, b, keys) || Get(b, key) < Get(a, key)
  {
    if Get(b, key) < Get(a, key) {
      assert key in keys + {key};
    }
  }

  lemma {:induction false} ExceedsOnAll(a: Clock, b: Clock, keys: set<DeviceId>)
    ensures ExceedsOn(a, b, keys) ==> Exceeds(a, b)
    ensures a.Keys <= keys && Exceeds(a, b) ==> ExceedsOn(a, b, keys)
  {
    if ExceedsOn(a, b, keys) {
      var d :| d in keys && Get(b, d) < Get(a, d);
      assert d in a.Keys;
    }
    if a.Keys <= keys && Exceeds(a, b) {
      var d :| d in a.Keys && Get(b, d) < a[d];
      assert d in keys && Get(b, d) < Get(a, d);
    }
  }

  /** The comparison in closed form, against which the loop of `VectorClock.PartialCmp` is proved. */
  function Cmp(a: Clock, b: Clock): Option<Ordering>
  {
    if Exceeds(a, b) then
      if Exceeds(b, a) then None else Some(Greater)
    else
      if Exceeds(b, a) then Some(Less) else Some(Equal)
  }

  /** What swapping the two sides does to the result of a comparison. */
  function Flip(o: Option<Ordering>): Option<Ordering>
  {
    match o
    case Some(Less) => Some(Greater)
    case Some(Greater) => Some(Less)
    case _ => o
  }

  lemma GetMerged(a: Clock, b: Clock, d: DeviceId)
    ensures Get(Merged(a, b), d) == Max(Get(a, d), Get(b, d))
  {
  }

  /** `c` is `a` with the entries of `b` merged in, except those still to do. */
  ghost predicate PartlyMerged(a: Clock, b: Clock, todo: set<DeviceId>, c: Clock)
  {
    && c.Keys == a.Keys + (b.Keys - todo)
    && forall d | d in c :: c[d] == Max(Get(a, d), if d in todo then 0 else Get(b, d))
  }

  /** Merging in the entry of one more device. */
  lemma {:induction false} MergeOneMore(a: Clock, b: Clock, todo: set<DeviceId>, c: Clock, d: DeviceId)
    requires d in todo && todo <= b.Keys && PartlyMerged(a, b, todo, c)
    ensures PartlyMerged(a, b, todo - {d}, c[d := Max(Get(c, d), b[d])])
  {
    var c' := c[d := Max(Get(c, d), b[d])];
    assert c'.Keys == a.Keys + (b.Keys - (todo - {d}));
  }

  lemma MergeComplete(a: Clock, b: Clock, c: Clock)
    requires PartlyMerged(a, b, {}, c)
    ensures c == Merged(a, b)
  {
  }

  /** The clock object: the operations that change it do so in place. */
  class VectorClock {
    var clocks: Clock

    constructor (c: Clock)
      ensures clocks == c
    {
      clocks := c;
    }

    method Tick(device: DeviceId)
      modifies this
      ensures clocks == Ticked(old(clocks), device)
    {
      if device !in clocks {
        clocks := clocks[device := 0];
      }
      clocks := clocks[device := clocks[device] + 1];
    }

    /** Visits the other clock's devices one by one, in any order. */
    method Merge(other: Clock)
      modifies this
      ensures clocks == Merged(old(clocks), other)
    {
      var todo := other.Keys;
      while todo != {}
        invariant todo <= other.Keys
        invariant PartlyMerged(old(clocks), other, todo, clocks)
        decreases |todo|
      {
        var device :| device in todo;
        MergeOneMore(old(clocks), other, todo, clocks, device);
        var entry := if device in clocks then clocks[device] else 0;
        clocks := clocks[device := Max(entry, other[device])];
        todo := todo - {device};
      }
      MergeComplete(old(clocks), other, clocks);
    }

    /** Visits the devices of both clocks, stopping as soon as both flags are up. */
    method PartialCmp(other: Clock) returns (r: Option<Ordering>)
      ensures r == Cmp(clocks, other)
    {
      var keys := clocks.Keys + other.Keys;
      var todo := keys;
      var hasGreater, hasLess := false, false;
      while todo != {}
        invariant todo <= keys
        invariant hasGreater == ExceedsOn(clocks, other, keys - todo)
        invariant hasLess == ExceedsOn(other, clocks, keys - todo)
        invariant !(hasGreater && hasLess)
        decreases |todo|
      {
        var key :| key in todo;
        ExceedsOnStep(clocks, other, keys - todo, key);
        ExceedsOnStep(other, clocks, keys - todo, key);
        assert keys - (todo - {key}) == keys - todo + {key};
        var a, b := Get(clocks, key), Get(other, key);
        if b < a {
          hasGreater := true;
        } else if a < b {
          hasLess := true;
        }
        todo := todo - {key};
        if hasGreater && hasLess {
          ExceedsOnAll(clocks, other, keys - todo);
          ExceedsOnAll(other, clocks, keys - todo);
          return None;
        }
      }
      ExceedsOnAll(clocks, other, keys - todo);
      ExceedsOnAll(other, clocks, keys - todo);
      r := if hasGreater then Some(Greater) else if hasLess then Some(Less) else Some(Equal);
    }
  }

  /** `Merged` is the least upper bound of the pointwise order. */
  lemma {:induction false} MergeIsLub(a: Clock, b: Clock, c: Clock)
    ensures Leq(a, Merged(a, b)) && Leq(b, Merged(a, b))
    ensures Leq(Merged(a, b), c) <==> Leq(a, c) && Leq(b, c)
  {
    forall d
      ensures Get(Merged(a, b), d) == Max(Get(a, d), Get(b, d))
      ensures Get(a, d) <= Get(Merged(a, b), d) && Get(b, d) <= Get(Merged(a, b), d)
    {
      GetMerged(a, b, d);
    }
    if Leq(Merged(a, b), c) {
      forall d
        ensures Get(a, d) <= Get(c, d) && Get(b, d) <= Get(c, d)
      {
        assert Get(Merged(a, b), d) <= Get(c, d);
      }
    }
  }

  lemma {:induction false} MergeAssociative(a: Clock, b: Clock, c: Clock)
    ensures Merged(Merged(a, b), c) == Merged(a, Merged(b, c))
  {
    var l, r := Merged(Merged(a, b), c), Merged(a, Merged(b, c));
    assert l.Keys == r.Keys;
    forall d | d in l.Keys
      ensures l[d] == r[d]
    {
      GetMerged(a, b, d);
      GetMerged(b, c, d);
      assert l[d] == Max(Get(Merged(a, b), d), Get(c, d));
      assert r[d] == Max(Get(a, d), Get(Merged(b, c), d));
    }
  }

  /** Merging is commutative, associative and idempotent on the clock maps themselves. */
  lemma {:induction false} MergeLaws(a: Clock, b: Clock, c: Clock)
    ensures Merged(a, b) == Merged(b, a)
    ensures Merged(Merged(a, b), c) == Merged(a, Merged(b, c))
    ensures Merged(a, a) == a
  {
    assert Merged(a, b) == Merged(b, a) by {
      assert a.Keys + b.Keys == b.Keys + a.Keys;
    }
    MergeAssociative(a, b, c);
  }

  lemma {:induction false} ExceedsIffNotLeq(a: Clock, b: Clock)
    ensures Exceeds(a, b) <==> !Leq(a, b)
  {
    if !Leq(a, b) {
      var d :| Get(b, d) < Get(a, d);
      assert d in a.Keys;
    }
    if Exceeds(a, b) {
      var d :| d in a.Keys && Get(b, d) < a[d];
      assert Get(b, d) < Get(a, d);
    }
  }

  /** The comparison decides the pointwise order exactly, and swapping sides flips it. */
  lemma {:induction false} CmpDecidesOrder(a: Clock, b: Clock)
    ensures Cmp(a, b) == Some(Less) <==> Lt(a, b)
    ensures Cmp(a, b) == Some(Greater) <==> Lt(b, a)
    ensures Cmp(a, b) == Some(Equal) <==> Same(a, b)
    ensures Cmp(a, b) == None <==> !Leq(a, b) && !Leq(b, a)
    ensures Cmp(b, a) == Flip(Cmp(a, b))
  {
    ExceedsIffNotLeq(a, b);
    ExceedsIffNotLeq(b, a);
    if Leq(a, b) && Leq(b, a) {
      assert Same(a, b);
    }
  }

  lemma {:induction false} LeqTransitive(a: Clock, b: Clock, c: Clock)
    requires Leq(a, b) && Leq(b, c)
    ensures Leq(a, c)
    ensures !Leq(b, a) || !Leq(c, b) ==> !Leq(c, a)
  {
    if Leq(c, a) {
      forall d
        ensures Get(b, d) <= Get(a, d) && Get(c, d) <= Get(b, d)
      {
        assert Get(a, d) <= Get(b, d) <= Get(c, d) <= Get(a, d);
      }
    }
  }

  ghost predicate Forward(c: nat -> Clock, k: nat)
  {
    Leq(c(k), c(k + 1))
  }

  /** Clocks that never go back from one moment to the next never go back at all. */
  lemma {:induction false} StepwiseLeq(c: nat -> Clock, i: nat, j: nat)
    requires i <= j && forall k: nat | i <= k < j :: Forward(c, k)
    ensures Leq(c(i), c(j))
    decreases j
  {
    if i < j {
      StepwiseLeq(c, i, j - 1);
      assert Forward(c, j - 1);
      LeqTransitive(c(i), c(j - 1), c(j));
    }
  }

  /** A write strictly advances the clock, in the writer's entry only. */
  lemma {:induction false} TickAdvances(c: Clock, d: DeviceId)
    ensures Lt(c, Ticked(c, d))
    ensures Positive(c) ==> Positive(Ticked(c, d))
    ensures forall x | x != d :: Get(Ticked(c, d), x) == Get(c, x)
  {
    assert Get(c, d) < Get(Ticked(c, d), d);
  }

  lemma {:induction false} MergedPositive(a: Clock, b: Clock)
    requires Positive(a) && Positive(b)
    ensures Positive(Merged(a, b))
  {
    forall d | d in Merged(a, b)
      ensures 0 < Merged(a, b)[d]
    {
      assert d in a || d in b;
    }
  }

  /** Merging in a clock that is already counted changes nothing, not even the map. */
  lemma {:induction false} MergeAbsorbs(a: Clock, b: Clock)
    requires Positive(a) && Positive(b) && Leq(b, a)
    ensures Merged(a, b) == a
  {
    forall d | d in b
      ensures d in a
    {
      assert Get(b, d) <= Get(a, d);
    }
    assert Merged(a, b).Keys == a.Keys;
    forall d | d in a
      ensures Merged(a, b)[d] == a[d]
    {
      assert Get(b, d) <= Get(a, d);
    }
  }
}
