/**
 * The per-event-type handler list: six priority buckets of subscription ids,
 * kept in registration order, plus a cached "baked" snapshot that flattens the
 * buckets in ascending slot order. Also the process-wide directory of every
 * handler list and the bulk operations over it.
 */
module HandlerList {
  import opened Wrappers
  import opened EventPriority

  /** A subscription's identity: registries compare subscriptions by reference. */
  type SubId = nat

  /** One bucket per priority, indexed by slot. */
  type Buckets = b: seq<seq<SubId>> | |b| == Count witness [[], [], [], [], [], []]

  /** `slots` are the unbaked buckets; `baked` is the cached snapshot, `None`
      when it has been invalidated. */
  datatype Registry = Registry(slots: Buckets, baked: Option<seq<SubId>>) {

    /** The bucket of priority `p`. */
    function Bucket(p: Priority): seq<SubId> {
      slots[p.Slot()]
    }
  }

  /** The error raised when a subscription is already in its priority's bucket
      (an IllegalStateException naming the priority). */
  datatype Duplicate = AlreadyRegistered(priority: Priority)

  /** The central invariant: a present cache equals the flattened buckets. */
  predicate Coherent(r: Registry) {
    r.baked.Some? ==> r.baked.value == Concat(r.slots)
  }

  /** Whether `id` is in some bucket of `r`. */
  predicate Occurs(r: Registry, id: SubId) {
    exists k :: 0 <= k < Count && id in r.slots[k]
  }

  /** A freshly constructed handler list: six empty buckets, nothing baked. */
  const Fresh: Registry := Registry([[], [], [], [], [], []], None)

  // ---------------------------------------------------------------------------
  // Sequence helpers

  /** The buckets concatenated in order. */
  function Concat(ss: seq<seq<SubId>>): (r: seq<SubId>)
    ensures forall x :: x in r <==> exists k :: 0 <= k < |ss| && x in ss[k]
  {
    if |ss| == 0 then [] else ss[0] + Concat(ss[1..])
  }

  /** `s` with every occurrence of `x` removed, the rest kept in order. */
  function Remove(s: seq<SubId>, x: SubId): (r: seq<SubId>)
    ensures x !in r
    ensures multiset(r) == multiset(s)[x := 0]
    ensures x !in s ==> r == s
  {
    if |s| == 0 then []
    else
      assert s == [s[0]] + s[1..];
      if s[0] == x then Remove(s[1..], x)
    else [s[0]] + Remove(s[1..], x)
  }

  /** Removal keeps relative order: it distributes over concatenation. */
  lemma {:induction false} RemoveDistributes(a: seq<SubId>, b: seq<SubId>, x: SubId)
    ensures Remove(a + b, x) == Remove(a, x) + Remove(b, x)
  {
    if |a| == 0 {
      assert a + b == b;
    } else {
      assert (a + b)[1..] == a[1..] + b;
      RemoveDistributes(a[1..], b, x);
    }
  }

  /** Concatenation of a split sequence of buckets. */
  lemma {:induction false} ConcatAppend(a: seq<seq<SubId>>, b: seq<seq<SubId>>)
    ensures Concat(a + b) == Concat(a) + Concat(b)
  {
    if |a| == 0 {
      assert a + b == b;
    } else {
      assert (a + b)[1..] == a[1..] + b;
      ConcatAppend(a[1..], b);
    }
  }

  /** A sequence without duplicates. */
  predicate Distinct(s: seq<SubId>) {
    forall i, j :: 0 <= i < j < |s| ==> s[i] != s[j]
  }

  // ---------------------------------------------------------------------------
  // Single-registry operations

  /** `register`: append `id` to the end of priority `p`'s bucket and drop the
      cache, or fail if `id` is already in that bucket. */
  function Register(r: Registry, id: SubId, p: Priority): (res: Result<Registry, Duplicate>)
    ensures res.Failure? <==> id in r.Bucket(p)
    ensures res.Failure? ==> res.error == AlreadyRegistered(p)
    ensures res.Success? ==> res.value.Bucket(p) == r.Bucket(p) + [id]
    ensures res.Success? ==> forall q :: q != p ==> res.value.Bucket(q) == r.Bucket(q)
    ensures res.Success? ==> res.value.baked.None? && Coherent(res.value)
  {
    if id in r.Bucket(p) then Failure(AlreadyRegistered(p))
    else Success(Registry(r.slots[p.Slot() := r.Bucket(p) + [id]], None))
  }

  /** The outcome of `registerAll`: the registry as the loop left it, and the
      position of the element whose registration threw, if any. */
  datatype Batch = Batch(registry: Registry, failedAt: Option<nat>)

  /** `registerAll`: register the entries one by one in order; a duplicate
      throws at that element, leaving the earlier ones registered. */
  function RegisterAll(r: Registry, entries: seq<(SubId, Priority)>): (b: Batch)
    ensures b.failedAt.Some? ==> b.failedAt.value < |entries|
    decreases |entries|
  {
    if |entries| == 0 then Batch(r, None)
    else
      match Register(r, entries[0].0, entries[0].1)
      case Failure(_) => Batch(r, Some(0))
      case Success(r1) =>
        var rest := RegisterAll(r1, entries[1..]);
        Batch(rest.registry, if rest.failedAt.Some? then Some(rest.failedAt.value + 1) else None)
  }

  /** Registration never removes anything. */
  lemma {:induction false} RegisterAllKeeps(r: Registry, entries: seq<(SubId, Priority)>, id: SubId)
    requires Occurs(r, id)
    ensures Occurs(RegisterAll(r, entries).registry, id)
    decreases |entries|
  {
    if |entries| > 0 {
      var res := Register(r, entries[0].0, entries[0].1);
      if res.Success? {
        var k :| 0 <= k < Count && id in r.slots[k];
        assert id in res.value.slots[k] by {
          if k == entries[0].1.Slot() {
            assert res.value.slots[k] == r.slots[k] + [entries[0].0];
          } else {
            assert res.value.slots[k] == r.Bucket(FromSlot(k));
          }
        }
        RegisterAllKeeps(res.value, entries[1..], id);
      }
    }
  }

  /** When `registerAll` completes, every entry is registered. */
  lemma {:induction false} RegisterAllRegistersEach(r: Registry, entries: seq<(SubId, Priority)>)
    requires RegisterAll(r, entries).failedAt.None?
    ensures forall i :: 0 <= i < |entries| ==> Occurs(RegisterAll(r, entries).registry, entries[i].0)
    decreases |entries|
  {
    if |entries| > 0 {
      var r1 := Register(r, entries[0].0, entries[0].1).value;
      assert Occurs(r1, entries[0].0) by {
        assert entries[0].0 in r1.slots[entries[0].1.Slot()];
      }
      RegisterAllKeeps(r1, entries[1..], entries[0].0);
      RegisterAllRegistersEach(r1, entries[1..]);
      forall i | 1 <= i < |entries|
        ensures Occurs(RegisterAll(r, entries).registry, entries[i].0)
      {
        assert entries[i] == entries[1..][i - 1];
      }
    }
  }

  /** When `registerAll` throws at position `k`, the registry is exactly what
      registering the first `k` entries produced, and entry `k` was a duplicate. */
  lemma {:induction false} RegisterAllStopsAtDuplicate(r: Registry, entries: seq<(SubId, Priority)>)
    requires RegisterAll(r, entries).failedAt.Some?
    ensures var k := RegisterAll(r, entries).failedAt.value;
            && RegisterAll(r, entries[..k]).failedAt.None?
            && RegisterAll(r, entries[..k]).registry == RegisterAll(r, entries).registry
            && Register(RegisterAll(r, entries).registry, entries[k].0, entries[k].1).Failure?
    decreases |entries|
  {
    var res := Register(r, entries[0].0, entries[0].1);
    var k := RegisterAll(r, entries).failedAt.value;
    if res.Success? {
      var tail := entries[1..];
      RegisterAllStopsAtDuplicate(res.value, tail);
      var k' := RegisterAll(res.value, tail).failedAt.value;
      assert k == k' + 1;
      assert entries[..k][1..] == tail[..k'];
      assert entries[k] == tail[k'];
    } else {
      assert entries[..k] == [];
    }
  }

  /** `registerAll` works through the collection in order: extending a completed
      batch by one entry registers exactly that entry on the registry the batch
      left, and a duplicate there stops the batch at that position. */
  lemma {:induction false} RegisterAllStep(r: Registry, entries: seq<(SubId, Priority)>, e: (SubId, Priority))
    requires RegisterAll(r, entries).failedAt.None?
    ensures var done := RegisterAll(r, entries).registry;
            RegisterAll(r, entries + [e]) == match Register(done, e.0, e.1)
              case Failure(_) => Batch(done, Some(|entries|))
              case Success(r') => Batch(r', None)
    decreases |entries|
  {
    if |entries| == 0 {
      assert entries + [e] == [e];
    } else {
      var r1 := Register(r, entries[0].0, entries[0].1).value;
      assert (entries + [e])[0] == entries[0];
      assert (entries + [e])[1..] == entries[1..] + [e];
      RegisterAllStep(r1, entries[1..], e);
    }
  }

  /** `unregister`: remove every occurrence of `id` from every bucket; the cache
      is dropped only if something was removed. */
  function Unregister(r: Registry, id: SubId): (r': Registry)
    ensures forall k :: 0 <= k < Count ==> r'.slots[k] == Remove(r.slots[k], id)
    ensures !Occurs(r', id)
    ensures Occurs(r, id) ==> r'.baked.None?
    ensures !Occurs(r, id) ==> r' == r
    ensures Coherent(r) ==> Coherent(r')
  {
    var slots: Buckets := seq(Count, k requires 0 <= k < Count => Remove(r.slots[k], id));
    if Occurs(r, id) then Registry(slots, None)
    else
      assert slots == r.slots;
      r
  }

  /** Unregistering one id keeps every other id where it was. */
  lemma UnregisterKeepsOthers(r: Registry, id: SubId, x: SubId)
    requires Occurs(r, x) && x != id
    ensures Occurs(Unregister(r, id), x)
  {
    var k :| 0 <= k < Count && x in r.slots[k];
    assert x in multiset(r.slots[k]);
    assert x in multiset(Unregister(r, id).slots[k]);
  }

  /** Registering an id that was nowhere, then unregistering it, restores the
      buckets; the snapshot content is the same as before. */
  lemma RegisterThenUnregister(r: Registry, id: SubId, p: Priority)
    requires !Occurs(r, id)
    ensures Register(r, id, p).Success?
    ensures Unregister(Register(r, id, p).value, id).slots == r.slots
    ensures Listeners(Unregister(Register(r, id, p).value, id)).snapshot == Concat(r.slots)
  {
    var r1 := Register(r, id, p).value;
    var r2 := Unregister(r1, id);
    forall k | 0 <= k < Count
      ensures r2.slots[k] == r.slots[k]
    {
      assert id !in r.slots[k];
      if k == p.Slot() {
        RemoveDistributes(r.slots[k], [id], id);
        assert Remove([id], id) == [];
      }
    }
  }

  /** `bake`: rebuild the cache from the buckets unless it is already present. */
  function Bake(r: Registry): (r': Registry)
    ensures r'.slots == r.slots
    ensures r'.baked.Some?
    ensures r.baked.None? ==> r'.baked.value == Concat(r.slots)
    ensures r.baked.Some? ==> r' == r
    ensures Coherent(r) ==> Coherent(r')
  {
    if r.baked.Some? then r else Registry(r.slots, Some(Concat(r.slots)))
  }

  /** Baking twice is baking once. */
  lemma BakeIdempotent(r: Registry)
    ensures Bake(Bake(r)) == Bake(r)
  {
  }

  /** What `getRegisteredListeners` returns, and the registry it leaves behind. */
  datatype Listing = Listing(snapshot: seq<SubId>, registry: Registry)

  /** `getRegisteredListeners`: bake if needed and return the cached snapshot.
      With no other thread around, the retry loop runs `bake` at most once. */
  function Listeners(r: Registry): (l: Listing)
    ensures l.registry.slots == r.slots
    ensures l.registry.baked == Some(l.snapshot)
    ensures Coherent(r) ==> l.snapshot == Concat(r.slots) && Coherent(l.registry)
  {
    var r' := Bake(r);
    Listing(r'.baked.value, r')
  }

  /** A registry's buckets, read through their priorities, determine its slots. */
  lemma SlotsByBucket(a: Registry, b: Registry)
    requires forall q: Priority :: a.Bucket(q) == b.Bucket(q)
    ensures a.slots == b.slots
  {
    forall k | 0 <= k < Count
      ensures a.slots[k] == b.slots[k]
    {
      assert a.slots[k] == a.Bucket(FromSlot(k));
    }
  }

  /** Flattening six buckets lays them end to end, LOWEST first and MONITOR last. */
  lemma ConcatSix(s: Buckets)
    ensures Concat(s) == s[0] + s[1] + s[2] + s[3] + s[4] + s[5]
  {
    var t1 := s[1..];
    var t2 := t1[1..];
    var t3 := t2[1..];
    var t4 := t3[1..];
    var t5 := t4[1..];
    assert t5[1..] == [];
    assert Concat(t5) == s[5];
    assert Concat(t4) == s[4] + s[5];
    assert Concat(t3) == s[3] + (s[4] + s[5]);
    assert Concat(t2) == s[2] + (s[3] + (s[4] + s[5]));
    assert Concat(t1) == s[1] + (s[2] + (s[3] + (s[4] + s[5])));
  }

  /** Every id in bucket `k` has a priority with slot `k`. */
  ghost predicate Bucketed(slots: Buckets, prio: SubId -> Priority) {
    forall k, j :: 0 <= k < Count && 0 <= j < |slots[k]| ==> prio(slots[k][j]).Slot() == k
  }

  /** Number of entries in the first `k` buckets: where bucket `k` starts. */
  function Offset(ss: seq<seq<SubId>>, k: nat): (n: nat)
    requires k <= |ss|
    ensures n == |Concat(ss[..k])|
  {
    if k == 0 then 0
    else
      ConcatAppend(ss[..k-1], [ss[k-1]]);
      assert ss[..k] == ss[..k-1] + [ss[k-1]];
      Offset(ss, k - 1) + |ss[k-1]|
  }

  /** The snapshot is the buckets laid end to end: bucket `k` occupies the
      positions from `Offset(k)`, in registration order. */
  lemma {:induction false} SnapshotSegments(ss: seq<seq<SubId>>, k: nat)
    requires k < |ss|
    ensures Offset(ss, k) + |ss[k]| <= |Concat(ss)|
    ensures Concat(ss)[Offset(ss, k)..Offset(ss, k) + |ss[k]|] == ss[k]
  {
    assert ss == ss[..k] + ([ss[k]] + ss[k+1..]);
    ConcatAppend(ss[..k], [ss[k]] + ss[k+1..]);
    ConcatAppend([ss[k]], ss[k+1..]);
    var single: seq<seq<SubId>> := [ss[k]];
    assert single[1..] == [];
    assert Concat(single) == ss[k];
  }

  /** The slot of the priority of every entry of `Concat(ss)` never decreases
      along the sequence, when bucket `base + i` only holds slot `base + i`. */
  lemma {:induction false} ConcatSorted(ss: seq<seq<SubId>>, base: nat, prio: SubId -> Priority)
    requires forall k, j :: 0 <= k < |ss| && 0 <= j < |ss[k]| ==> prio(ss[k][j]).Slot() == base + k
    ensures forall x :: x in Concat(ss) ==> base <= prio(x).Slot()
    ensures forall i, j :: 0 <= i <= j < |Concat(ss)| ==> prio(Concat(ss)[i]).Slot() <= prio(Concat(ss)[j]).Slot()
    decreases |ss|
  {
    if |ss| > 0 {
      var rest := ss[1..];
      ConcatSorted(rest, base + 1, prio);
      var c := Concat(ss);
      assert c == ss[0] + Concat(rest);
      forall x | x in c
        ensures base <= prio(x).Slot()
      {
        if x in ss[0] {
          var j :| 0 <= j < |ss[0]| && ss[0][j] == x;
        } else {
          assert x in Concat(rest);
        }
      }
      forall i, j | 0 <= i <= j < |c|
        ensures prio(c[i]).Slot() <= prio(c[j]).Slot()
      {
        if j < |ss[0]| {
          assert prio(c[i]).Slot() == base && prio(c[j]).Slot() == base;
        } else if i < |ss[0]| {
          assert prio(c[i]).Slot() == base;
          assert c[j] == Concat(rest)[j - |ss[0]|];
          assert c[j] in Concat(rest);
        } else {
          assert c[i] == Concat(rest)[i - |ss[0]|];
          assert c[j] == Concat(rest)[j - |ss[0]|];
        }
      }
    }
  }

  /** The snapshot handed to dispatch is ordered by non-decreasing priority
      slot, and within one slot it keeps registration order. */
  lemma SnapshotOrdered(r: Registry, prio: SubId -> Priority)
    requires Coherent(r) && Bucketed(r.slots, prio)
    ensures var s := Listeners(r).snapshot;
            forall i, j :: 0 <= i <= j < |s| ==> prio(s[i]).Slot() <= prio(s[j]).Slot()
    ensures forall p: Priority :: var s := Listeners(r).snapshot;
            && Offset(r.slots, p.Slot()) + |r.Bucket(p)| <= |s|
            && s[Offset(r.slots, p.Slot())..Offset(r.slots, p.Slot()) + |r.Bucket(p)|] == r.Bucket(p)
  {
    ConcatSorted(r.slots, 0, prio);
    forall p: Priority {
      SnapshotSegments(r.slots, p.Slot());
    }
  }

  // ---------------------------------------------------------------------------
  // The directory of all handler lists

  /** Every handler list created so far, in creation order. */
  type Directory = seq<Registry>

  /** The HandlerList constructor: a fresh list, appended to the directory. */
  function Create(d: Directory): (res: (Directory, nat))
    ensures res.1 == |d| && |res.0| == |d| + 1 && res.0[..|d|] == d
    ensures forall k :: 0 <= k < Count ==> res.0[res.1].slots[k] == []
    ensures res.0[res.1].baked.None?
    // a new list is coherent and its snapshot lists no subscription
    ensures Coherent(res.0[res.1]) && Listeners(res.0[res.1]).snapshot == []
  {
    ConcatSix(Fresh.slots);
    (d + [Fresh], |d|)
  }

  /** `bakeAll`: bake every handler list. */
  function BakeAll(d: Directory): (d': Directory)
    ensures |d'| == |d|
    ensures forall i :: 0 <= i < |d| ==> d'[i].slots == d[i].slots && d'[i].baked.Some?
    ensures forall i :: 0 <= i < |d| && Coherent(d[i]) ==> d'[i].baked == Some(Concat(d[i].slots))
  {
    seq(|d|, i requires 0 <= i < |d| => Bake(d[i]))
  }

  /** `unregisterAll()`: empty every bucket of every handler list and drop
      every cache. */
  function UnregisterAll(d: Directory): (d': Directory)
    ensures |d'| == |d|
    ensures forall i :: 0 <= i < |d| ==> d'[i].baked.None? && Coherent(d'[i])
    ensures forall i, k :: 0 <= i < |d| && 0 <= k < Count ==> d'[i].slots[k] == []
    ensures forall i, id :: 0 <= i < |d| ==> !Occurs(d'[i], id)
  {
    seq(|d|, i requires 0 <= i < |d| => Fresh)
  }

  /** `unregisterAll(subscription)`: remove one subscription from every
      handler list. */
  function UnregisterAllOf(d: Directory, id: SubId): (d': Directory)
    ensures |d'| == |d|
    ensures forall i :: 0 <= i < |d| ==> d'[i] == Unregister(d[i], id)
    ensures forall i :: 0 <= i < |d| ==> !Occurs(d'[i], id)
    ensures forall i :: 0 <= i < |d| && Coherent(d[i]) ==> Coherent(d'[i])
  {
    seq(|d|, i requires 0 <= i < |d| => Unregister(d[i], id))
  }
}
