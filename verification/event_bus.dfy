/**
 * The dispatcher: resolves a subscription's handler list, delegates
 * registration to it, and posts events by executing every entry of the
 * handler list's snapshot in order, swallowing whatever escapes.
 */
module EventBus {
  import opened Wrappers
  import opened EventPriority
  import opened EventModel
  import opened HandlerList
  import opened Subscription

  /** The whole sequential state the dispatcher works on:
      `lists` is the directory of handler lists; `handlerLists` maps an event
      type to the position of its handler list (the per-type accessor; a type
      missing here is one whose lookup fails); `subs` holds every subscription
      object created so far, by identity; ids from `nextId` on are unused. */
  datatype Bus = Bus(lists: Directory, handlerLists: map<EventType, nat>,
                     subs: map<SubId, Subscription>, nextId: nat)

  /** A handler list is sound against the subscription objects when its cache is
      coherent, every id in bucket `k` is a known subscription of slot `k`, and
      no bucket holds an id twice. */
  ghost predicate Sound(r: Registry, subs: map<SubId, Subscription>) {
    && Coherent(r)
    && (forall k, j :: 0 <= k < Count && 0 <= j < |r.slots[k]| ==>
          r.slots[k][j] in subs && subs[r.slots[k][j]].priority.Slot() == k)
    && (forall k :: 0 <= k < Count ==> Distinct(r.slots[k]))
  }

  ghost predicate Valid(b: Bus) {
    && (forall t :: t in b.handlerLists ==> b.handlerLists[t] < |b.lists|)
    && (forall id :: id in b.subs ==> id < b.nextId)
    && (forall i :: 0 <= i < |b.lists| ==> Sound(b.lists[i], b.subs))
  }

  /** Soundness only depends on the priorities of the known subscriptions. */
  lemma SoundUnderUpdate(r: Registry, subs: map<SubId, Subscription>, subs': map<SubId, Subscription>)
    requires Sound(r, subs)
    requires subs.Keys <= subs'.Keys
    requires forall id :: id in subs ==> subs'[id].priority == subs[id].priority
    ensures Sound(r, subs')
  {
  }

  // ---------------------------------------------------------------------------
  // Registration

  /** `registerListener`: delegate to the handler list of the subscription's
      type. A failed lookup is swallowed (nothing changes); a duplicate
      registration propagates to the caller. */
  function RegisterListener(b: Bus, id: SubId): (res: Result<Bus, Duplicate>)
    requires Valid(b) && id in b.subs
    ensures res.Success? ==> Valid(res.value)
    ensures res.Success? ==> res.value.subs == b.subs && res.value.handlerLists == b.handlerLists
                             && res.value.nextId == b.nextId && |res.value.lists| == |b.lists|
    ensures b.subs[id].eventType !in b.handlerLists ==> res == Success(b)
    ensures b.subs[id].eventType in b.handlerLists ==>
              var i, p := b.handlerLists[b.subs[id].eventType], b.subs[id].priority;
              && (res.Failure? <==> id in b.lists[i].Bucket(p))
              && (res.Failure? ==> res.error == AlreadyRegistered(p))
              && (res.Success? ==> && res.value.lists[i].Bucket(p) == b.lists[i].Bucket(p) + [id]
                                   && (forall q :: q != p ==> res.value.lists[i].Bucket(q) == b.lists[i].Bucket(q))
                                   && res.value.lists[i].baked.None?
                                   && (forall j :: 0 <= j < |b.lists| && j != i ==> res.value.lists[j] == b.lists[j]))
  {
    var s := b.subs[id];
    if s.eventType !in b.handlerLists then Success(b)
    else
      var i := b.handlerLists[s.eventType];
      match Register(b.lists[i], id, s.priority)
      case Failure(e) => Failure(e)
      case Success(r) =>
        var b' := b.(lists := b.lists[i := r]);
        assert Sound(r, b.subs) by {
          forall k | 0 <= k < Count
            ensures Distinct(r.slots[k])
          {
            if k != s.priority.Slot() {
              assert r.slots[k] == b.lists[i].Bucket(FromSlot(k));
            }
          }
          forall k, j | 0 <= k < Count && 0 <= j < |r.slots[k]|
            ensures r.slots[k][j] in b.subs && b.subs[r.slots[k][j]].priority.Slot() == k
          {
            if k != s.priority.Slot() {
              assert r.slots[k] == b.lists[i].Bucket(FromSlot(k));
            }
          }
        }
        Success(b')
  }

  /** `unregisterListener`: delegate to the handler list of the subscription's
      type; a failed lookup is swallowed. */
  function UnregisterListener(b: Bus, id: SubId): (b': Bus)
    requires Valid(b) && id in b.subs
    ensures Valid(b')
    ensures b'.subs == b.subs && b'.handlerLists == b.handlerLists && b'.nextId == b.nextId
    ensures |b'.lists| == |b.lists|
    ensures b.subs[id].eventType !in b.handlerLists ==> b' == b
    ensures b.subs[id].eventType in b.handlerLists ==>
              var i := b.handlerLists[b.subs[id].eventType];
              && b'.lists[i] == Unregister(b.lists[i], id)
              && (forall j :: 0 <= j < |b.lists| && j != i ==> b'.lists[j] == b.lists[j])
    // unregistration never adds an entry anywhere
    ensures forall j, x :: 0 <= j < |b.lists| && Occurs(b'.lists[j], x) ==> Occurs(b.lists[j], x)
  {
    var s := b.subs[id];
    if s.eventType !in b.handlerLists then b
    else
      var i := b.handlerLists[s.eventType];
      var r := Unregister(b.lists[i], id);
      assert Sound(r, b.subs) by { UnregisterSound(b.lists[i], b.subs, id); }
      forall x | Occurs(r, x)
        ensures Occurs(b.lists[i], x)
      {
        var k :| 0 <= k < Count && x in r.slots[k];
        assert x in multiset(r.slots[k]);
        assert x in b.lists[i].slots[k];
      }
      b.(lists := b.lists[i := r])
  }

  lemma UnregisterSound(r: Registry, subs: map<SubId, Subscription>, id: SubId)
    requires Sound(r, subs)
    ensures Sound(Unregister(r, id), subs)
  {
    var r' := Unregister(r, id);
    forall k | 0 <= k < Count
      ensures Distinct(r'.slots[k])
      ensures forall j :: 0 <= j < |r'.slots[k]| ==>
                r'.slots[k][j] in subs && subs[r'.slots[k][j]].priority.Slot() == k
    {
      RemoveKeepsDistinct(r.slots[k], id);
      forall j | 0 <= j < |r'.slots[k]|
        ensures r'.slots[k][j] in subs && subs[r'.slots[k][j]].priority.Slot() == k
      {
        assert r'.slots[k][j] in multiset(r'.slots[k]);
      }
    }
  }

  lemma {:induction false} RemoveKeepsDistinct(s: seq<SubId>, x: SubId)
    requires Distinct(s)
    ensures Distinct(Remove(s, x))
  {
    if |s| > 0 {
      var tail := s[1..];
      assert Distinct(tail);
      RemoveKeepsDistinct(tail, x);
      if s[0] != x {
        var t := Remove(tail, x);
        assert s[0] !in tail;
        assert s[0] !in multiset(t);
        PrependDistinct(s[0], t);
      }
    }
  }

  lemma PrependDistinct(a: SubId, t: seq<SubId>)
    requires Distinct(t) && a !in t
    ensures Distinct([a] + t)
  {
    var u := [a] + t;
    forall i, j | 0 <= i < j < |u|
      ensures u[i] != u[j]
    {
      assert u[j] == t[j - 1];
      if i > 0 {
        assert u[i] == t[i - 1];
      }
    }
  }

  // ---------------------------------------------------------------------------
  // Dispatch

  /** One entry of a dispatch trace: which subscription ran and how. */
  datatype Visit = Visit(id: SubId, path: Path)

  /** The state after one loop iteration, and the path `execute` took. */
  datatype Step = Step(bus: Bus, event: Event, path: Path)

  /** One iteration of the dispatch loop: execute the subscription; its requests
      to be unregistered go through `unregisterListener`; anything that escapes
      is caught and dropped. */
  function Deliver(b: Bus, id: SubId, ev: Event): (st: Step)
    requires Valid(b) && id in b.subs
    ensures Valid(st.bus)
    ensures st.bus.subs.Keys == b.subs.Keys && st.bus.handlerLists == b.handlerLists
    ensures st.bus.nextId == b.nextId && |st.bus.lists| == |b.lists|
    ensures st.bus.subs[id].SameConfig(b.subs[id])
    ensures st.event.eventType == ev.eventType && st.event.cancellable == ev.cancellable
    ensures st.bus.subs[id].callCount == b.subs[id].callCount + (if st.path.Delivered? then 1 else 0)
    ensures st.bus.subs[id].active <==> b.subs[id].active && !st.path.ExpiredBy?
    ensures forall other :: other in b.subs && other != id ==> st.bus.subs[other] == b.subs[other]
    ensures forall j, x :: 0 <= j < |b.lists| && Occurs(st.bus.lists[j], x) ==> Occurs(b.lists[j], x)
    // the visit is exactly one `execute` of the entry on the current event
    ensures var x := Execute(b.subs[id], ev);
            st.path == x.path && st.event == x.event && st.bus.subs[id] == x.sub
    // a requested unregistration is `unregister` on the resolved list, and nothing else
    ensures st.path.RequestsUnregister() && b.subs[id].eventType in b.handlerLists ==>
              var i := b.handlerLists[b.subs[id].eventType];
              && st.bus.lists == b.lists[i := Unregister(b.lists[i], id)]
              && !Occurs(st.bus.lists[i], id)
    ensures st.path.RequestsUnregister() && b.subs[id].eventType !in b.handlerLists ==> st.bus.lists == b.lists
    ensures !st.path.RequestsUnregister() ==> st.bus.lists == b.lists
  {
    var x := Execute(b.subs[id], ev);
    var b1 := b.(subs := b.subs[id := x.sub]);
    assert Valid(b1) by {
      forall i | 0 <= i < |b.lists|
        ensures Sound(b.lists[i], b1.subs)
      {
        SoundUnderUpdate(b.lists[i], b.subs, b1.subs);
      }
    }
    var b2 := if x.path.RequestsUnregister() then UnregisterListener(b1, id) else b1;
    Step(b2, x.event, x.path)
  }

  /** Dispatch over a captured snapshot: every entry, in order, exactly once,
      threading the (mutable) event from one subscription to the next. */
  datatype Fired = Fired(bus: Bus, event: Event, trace: seq<Visit>)

  /** The ids of a trace, in order. */
  function Ids(trace: seq<Visit>): (ids: seq<SubId>)
    ensures |ids| == |trace|
    ensures forall i :: 0 <= i < |trace| ==> ids[i] == trace[i].id
  {
    if |trace| == 0 then [] else [trace[0].id] + Ids(trace[1..])
  }

  function DeliverAll(b: Bus, snapshot: seq<SubId>, ev: Event): (f: Fired)
    requires Valid(b)
    requires forall i :: 0 <= i < |snapshot| ==> snapshot[i] in b.subs
    ensures Valid(f.bus)
    ensures f.bus.subs.Keys == b.subs.Keys && f.bus.handlerLists == b.handlerLists
    ensures f.bus.nextId == b.nextId && |f.bus.lists| == |b.lists|
    // later unregistrations do not change which entries are visited
    ensures Ids(f.trace) == snapshot
    ensures f.event.eventType == ev.eventType && f.event.cancellable == ev.cancellable
    decreases |snapshot|
  {
    if |snapshot| == 0 then Fired(b, ev, [])
    else
      var st := Deliver(b, snapshot[0], ev);
      var rest := DeliverAll(st.bus, snapshot[1..], st.event);
      Fired(rest.bus, rest.event, [Visit(snapshot[0], st.path)] + rest.trace)
  }

  /** A dispatch changes no subscription's configuration: only active flags
      and counters move. */
  lemma {:induction false} DispatchKeepsConfig(b: Bus, snapshot: seq<SubId>, ev: Event, id: SubId)
    requires Valid(b)
    requires forall i :: 0 <= i < |snapshot| ==> snapshot[i] in b.subs
    requires id in b.subs
    ensures DeliverAll(b, snapshot, ev).bus.subs[id].SameConfig(b.subs[id])
    decreases |snapshot|
  {
    if |snapshot| > 0 {
      var st := Deliver(b, snapshot[0], ev);
      DispatchKeepsConfig(st.bus, snapshot[1..], st.event, id);
    }
  }

  /** A dispatch over `s + t` is the dispatch over `s` continued over `t` from
      the bus and event it left. */
  lemma {:induction false} DeliverAllSplit(b: Bus, s: seq<SubId>, t: seq<SubId>, ev: Event)
    requires Valid(b)
    requires forall i :: 0 <= i < |s| ==> s[i] in b.subs
    requires forall i :: 0 <= i < |t| ==> t[i] in b.subs
    ensures var p := DeliverAll(b, s, ev);
            (forall i :: 0 <= i < |t| ==> t[i] in p.bus.subs)
            && var q := DeliverAll(p.bus, t, p.event);
               DeliverAll(b, s + t, ev) == Fired(q.bus, q.event, p.trace + q.trace)
    decreases |s|
  {
    if |s| == 0 {
      assert s + t == t;
    } else {
      var st := Deliver(b, s[0], ev);
      assert (s + t)[0] == s[0] && (s + t)[1..] == s[1..] + t;
      DeliverAllSplit(st.bus, s[1..], t, st.event);
      var p' := DeliverAll(st.bus, s[1..], st.event);
      var q := DeliverAll(p'.bus, t, p'.event);
      ConsAppend(Visit(s[0], st.path), p'.trace, q.trace);
    }
  }

  lemma ConsAppend<T>(v: T, a: seq<T>, c: seq<T>)
    ensures [v] + (a + c) == ([v] + a) + c
  {
  }

  /** Visit `i` of a dispatch is `execute` of snapshot entry `i`, on the bus and
      event that the first `i` visits left behind. */
  lemma DispatchRunsExecute(b: Bus, snapshot: seq<SubId>, ev: Event, i: nat)
    requires Valid(b)
    requires forall j :: 0 <= j < |snapshot| ==> snapshot[j] in b.subs
    requires i < |snapshot|
    ensures var p := DeliverAll(b, snapshot[..i], ev);
            && snapshot[i] in p.bus.subs
            && DeliverAll(b, snapshot, ev).trace[i]
               == Visit(snapshot[i], Execute(p.bus.subs[snapshot[i]], p.event).path)
  {
    var s, t := snapshot[..i], snapshot[i..];
    SplitAt(snapshot, i);
    DeliverAllSplit(b, s, t, ev);
    var p := DeliverAll(b, s, ev);
    var q := DeliverAll(p.bus, t, p.event);
    assert |p.trace| == i;
    assert DeliverAll(b, snapshot, ev).trace[i] == q.trace[0];
  }

  /** After visit `i`, the event and entry `i`'s subscription are what that
      `execute` left. */
  lemma DispatchStepState(b: Bus, snapshot: seq<SubId>, ev: Event, i: nat)
    requires Valid(b)
    requires forall j :: 0 <= j < |snapshot| ==> snapshot[j] in b.subs
    requires i < |snapshot|
    ensures var p := DeliverAll(b, snapshot[..i], ev);
            && snapshot[i] in p.bus.subs
            && var x := Execute(p.bus.subs[snapshot[i]], p.event);
               && DeliverAll(b, snapshot[..i + 1], ev).event == x.event
               && DeliverAll(b, snapshot[..i + 1], ev).bus.subs[snapshot[i]] == x.sub
  {
    var one := [snapshot[i]];
    SplitAt(snapshot, i);
    DeliverAllSplit(b, snapshot[..i], one, ev);
    assert one[1..] == [];
  }

  lemma SplitAt<T>(a: seq<T>, i: nat)
    requires i < |a|
    ensures a == a[..i] + a[i..] && a[..i + 1] == a[..i] + [a[i]]
    ensures a[i..][0] == a[i]
  {
  }

  /** Subscriptions that are not in the snapshot are not touched by the dispatch. */
  lemma {:induction false} DispatchSkipsOthers(b: Bus, snapshot: seq<SubId>, ev: Event, id: SubId)
    requires Valid(b)
    requires forall i :: 0 <= i < |snapshot| ==> snapshot[i] in b.subs
    requires id in b.subs && id !in snapshot
    ensures DeliverAll(b, snapshot, ev).bus.subs[id] == b.subs[id]
    decreases |snapshot|
  {
    if |snapshot| > 0 {
      var st := Deliver(b, snapshot[0], ev);
      DispatchSkipsOthers(st.bus, snapshot[1..], st.event, id);
    }
  }

  /** A dispatch only ever removes entries from handler lists. */
  lemma {:induction false} DispatchOnlyRemoves(b: Bus, snapshot: seq<SubId>, ev: Event)
    requires Valid(b)
    requires forall i :: 0 <= i < |snapshot| ==> snapshot[i] in b.subs
    ensures forall j, x :: 0 <= j < |b.lists| && Occurs(DeliverAll(b, snapshot, ev).bus.lists[j], x) ==>
              Occurs(b.lists[j], x)
    decreases |snapshot|
  {
    if |snapshot| > 0 {
      var st := Deliver(b, snapshot[0], ev);
      DispatchOnlyRemoves(st.bus, snapshot[1..], st.event);
    }
  }

  /** One visit keeps every entry of every handler list, except the visited id
      when its execution asked to be unregistered. */
  lemma DeliverKeepsOthers(b: Bus, id: SubId, ev: Event, j: nat, x: SubId)
    requires Valid(b) && id in b.subs
    requires j < |b.lists| && Occurs(b.lists[j], x)
    requires x == id ==> !Deliver(b, id, ev).path.RequestsUnregister()
    ensures Occurs(Deliver(b, id, ev).bus.lists[j], x)
  {
    var st := Deliver(b, id, ev);
    if st.path.RequestsUnregister() && b.subs[id].eventType in b.handlerLists
       && j == b.handlerLists[b.subs[id].eventType] {
      UnregisterKeepsOthers(b.lists[j], id, x);
    }
  }

  /** The converse: an entry stays in a handler list unless one of its own
      visits in the dispatch asked for its unregistration. */
  lemma {:induction false} DispatchKeepsUnrequested(b: Bus, snapshot: seq<SubId>, ev: Event, j: nat, x: SubId)
    requires Valid(b)
    requires forall i :: 0 <= i < |snapshot| ==> snapshot[i] in b.subs
    requires j < |b.lists| && Occurs(b.lists[j], x)
    requires forall k :: 0 <= k < |snapshot| && snapshot[k] == x ==>
               !DeliverAll(b, snapshot, ev).trace[k].path.RequestsUnregister()
    ensures Occurs(DeliverAll(b, snapshot, ev).bus.lists[j], x)
    decreases |snapshot|
  {
    if |snapshot| > 0 {
      var y := snapshot[0];
      var st := Deliver(b, y, ev);
      var rest := DeliverAll(st.bus, snapshot[1..], st.event);
      var trace := DeliverAll(b, snapshot, ev).trace;
      assert trace == [Visit(y, st.path)] + rest.trace;
      assert trace[0].path == st.path;
      DeliverKeepsOthers(b, y, ev, j, x);
      forall k | 0 <= k < |snapshot| - 1 && snapshot[1..][k] == x
        ensures !rest.trace[k].path.RequestsUnregister()
      {
        assert snapshot[k + 1] == x && trace[k + 1] == rest.trace[k];
      }
      DispatchKeepsUnrequested(st.bus, snapshot[1..], st.event, j, x);
    }
  }

  /** Number of normal handler returns of `id` recorded in a trace. */
  function DeliveriesOf(trace: seq<Visit>, id: SubId): (n: nat)
    ensures n <= |trace|
  {
    if |trace| == 0 then 0
    else (if trace[0].id == id && trace[0].path.Delivered? then 1 else 0) + DeliveriesOf(trace[1..], id)
  }

  /** Each subscription's counter grows by exactly the number of its executions
      in the dispatch whose handler returned normally. */
  lemma {:induction false} CountersMatchDeliveries(b: Bus, snapshot: seq<SubId>, ev: Event, id: SubId)
    requires Valid(b)
    requires forall i :: 0 <= i < |snapshot| ==> snapshot[i] in b.subs
    requires id in b.subs
    ensures DeliverAll(b, snapshot, ev).bus.subs[id].callCount
            == b.subs[id].callCount + DeliveriesOf(DeliverAll(b, snapshot, ev).trace, id)
    decreases |snapshot|
  {
    if |snapshot| > 0 {
      var st := Deliver(b, snapshot[0], ev);
      CountersMatchDeliveries(st.bus, snapshot[1..], st.event, id);
    }
  }

  /** During a dispatch no subscription goes from inactive back to active. */
  lemma {:induction false} DispatchNeverReactivates(b: Bus, snapshot: seq<SubId>, ev: Event, id: SubId)
    requires Valid(b)
    requires forall i :: 0 <= i < |snapshot| ==> snapshot[i] in b.subs
    requires id in b.subs && !b.subs[id].active
    ensures !DeliverAll(b, snapshot, ev).bus.subs[id].active
    decreases |snapshot|
  {
    if |snapshot| > 0 {
      var st := Deliver(b, snapshot[0], ev);
      DispatchNeverReactivates(st.bus, snapshot[1..], st.event, id);
    }
  }

  /** Every entry of the dispatch whose execution asked to be unregistered is
      gone from its resolved handler list once the dispatch is over. */
  lemma {:induction false} RequestedUnregistrationsTakeEffect(b: Bus, snapshot: seq<SubId>, ev: Event)
    requires Valid(b)
    requires forall i :: 0 <= i < |snapshot| ==> snapshot[i] in b.subs
    ensures var f := DeliverAll(b, snapshot, ev);
            forall i :: 0 <= i < |snapshot| && f.trace[i].path.RequestsUnregister()
                        && b.subs[snapshot[i]].eventType in b.handlerLists ==>
                        !Occurs(f.bus.lists[b.handlerLists[b.subs[snapshot[i]].eventType]], snapshot[i])
    decreases |snapshot|
  {
    if |snapshot| > 0 {
      var st := Deliver(b, snapshot[0], ev);
      RequestedUnregistrationsTakeEffect(st.bus, snapshot[1..], st.event);
      var f := DeliverAll(b, snapshot, ev);
      var rest := DeliverAll(st.bus, snapshot[1..], st.event);
      forall i | 0 <= i < |snapshot| && f.trace[i].path.RequestsUnregister()
                 && b.subs[snapshot[i]].eventType in b.handlerLists
        ensures !Occurs(f.bus.lists[b.handlerLists[b.subs[snapshot[i]].eventType]], snapshot[i])
      {
        if i == 0 {
          var j := b.handlerLists[b.subs[snapshot[0]].eventType];
          assert !Occurs(st.bus.lists[j], snapshot[0]);
          DispatchOnlyRemoves(st.bus, snapshot[1..], st.event);
        } else {
          assert f.trace[i] == rest.trace[i - 1];
          assert snapshot[i] == snapshot[1..][i - 1];
          assert st.bus.subs[snapshot[i]].eventType == b.subs[snapshot[i]].eventType;
        }
      }
    }
  }

  /** `fireEvent`: take the snapshot of the event's handler list (baking it if
      needed) and deliver to every entry of it. */
  function FireEvent(b: Bus, ev: Event): (f: Fired)
    requires Valid(b) && ev.eventType in b.handlerLists
    ensures Valid(f.bus)
    ensures f.bus.subs.Keys == b.subs.Keys && f.bus.handlerLists == b.handlerLists
    ensures f.bus.nextId == b.nextId && |f.bus.lists| == |b.lists|
    ensures Ids(f.trace) == Concat(b.lists[b.handlerLists[ev.eventType]].slots)
    ensures f.event.eventType == ev.eventType && f.event.cancellable == ev.cancellable
  {
    var i := b.handlerLists[ev.eventType];
    SnapshotOfKnown(b, i);
    DeliverAll(Baked(b, i), Listeners(b.lists[i]).snapshot, ev)
  }

  /** `fireEvent` is the dispatch over the concatenated buckets of the event's
      handler list, on the bus where that list has been baked. */
  lemma FireDispatchesBuckets(b: Bus, ev: Event)
    requires Valid(b) && ev.eventType in b.handlerLists
    ensures var i := b.handlerLists[ev.eventType];
            && (forall j :: 0 <= j < |Concat(b.lists[i].slots)| ==> Concat(b.lists[i].slots)[j] in Baked(b, i).subs)
            && FireEvent(b, ev) == DeliverAll(Baked(b, i), Concat(b.lists[i].slots), ev)
  {
    SnapshotOfKnown(b, b.handlerLists[ev.eventType]);
  }

  /** The bus after `getRegisteredListeners` baked handler list `i`. */
  function Baked(b: Bus, i: nat): (b': Bus)
    requires Valid(b) && i < |b.lists|
    ensures Valid(b')
    ensures b'.subs == b.subs && b'.handlerLists == b.handlerLists && b'.nextId == b.nextId
    ensures |b'.lists| == |b.lists| && b'.lists[i].slots == b.lists[i].slots
    ensures forall j :: 0 <= j < |b.lists| ==> b'.lists[j].slots == b.lists[j].slots
    // list `i` now caches its flattened buckets; every other list is untouched
    ensures b'.lists[i].baked == Some(Concat(b.lists[i].slots))
    ensures forall j :: 0 <= j < |b.lists| && j != i ==> b'.lists[j] == b.lists[j]
  {
    var l := Listeners(b.lists[i]);
    assert Sound(l.registry, b.subs);
    b.(lists := b.lists[i := l.registry])
  }

  /** The snapshot of a sound handler list holds exactly its registered,
      known subscriptions. */
  lemma SnapshotOfKnown(b: Bus, i: nat)
    requires Valid(b) && i < |b.lists|
    ensures Listeners(b.lists[i]).snapshot == Concat(b.lists[i].slots)
    ensures forall x :: x in Listeners(b.lists[i]).snapshot <==> Occurs(b.lists[i], x)
    ensures forall j :: 0 <= j < |Listeners(b.lists[i]).snapshot| ==> Listeners(b.lists[i]).snapshot[j] in b.subs
  {
    var l := Listeners(b.lists[i]);
    var ss := b.lists[i].slots;
    forall x | x in l.snapshot
      ensures Occurs(b.lists[i], x) && x in b.subs
    {
      var k :| 0 <= k < |ss| && x in ss[k];
      var n :| 0 <= n < |ss[k]| && ss[k][n] == x;
    }
    forall x | Occurs(b.lists[i], x)
      ensures x in l.snapshot
    {
      var k :| 0 <= k < Count && x in ss[k];
    }
  }

  /** A dispatch leaves alone every subscription its handler list does not hold. */
  lemma FireSkipsUnregistered(b: Bus, ev: Event, id: SubId)
    requires Valid(b) && ev.eventType in b.handlerLists && id in b.subs
    requires !Occurs(b.lists[b.handlerLists[ev.eventType]], id)
    ensures FireEvent(b, ev).bus.subs[id] == b.subs[id]
    ensures id !in Ids(FireEvent(b, ev).trace)
  {
    var i := b.handlerLists[ev.eventType];
    SnapshotOfKnown(b, i);
    DispatchSkipsOthers(Baked(b, i), Listeners(b.lists[i]).snapshot, ev, id);
  }

  /** `call(event, async)`: both modes dispatch on the calling thread. */
  function Call(b: Bus, ev: Event, async: bool): (f: Fired)
    requires Valid(b) && ev.eventType in b.handlerLists
    ensures Valid(f.bus)
    ensures f.bus.handlerLists == b.handlerLists && f.bus.subs.Keys == b.subs.Keys
    ensures f.bus.nextId == b.nextId && |f.bus.lists| == |b.lists|
    ensures Ids(f.trace) == Concat(b.lists[b.handlerLists[ev.eventType]].slots)
    ensures f.event.eventType == ev.eventType
  {
    FireEvent(b, ev)
  }

  /** Either mode of `call` is the dispatch over the concatenated buckets of the
      event's handler list, on the bus where that list has been baked: every
      visit is an `execute` of the entry. */
  lemma CallDispatches(b: Bus, ev: Event, async: bool)
    requires Valid(b) && ev.eventType in b.handlerLists
    ensures var i := b.handlerLists[ev.eventType];
            && (forall j :: 0 <= j < |Concat(b.lists[i].slots)| ==> Concat(b.lists[i].slots)[j] in Baked(b, i).subs)
            && Call(b, ev, async) == DeliverAll(Baked(b, i), Concat(b.lists[i].slots), ev)
  {
    FireDispatchesBuckets(b, ev);
  }

  /** The async flag makes no difference to what a call does. */
  lemma SyncAndAsyncAgree(b: Bus, ev: Event)
    requires Valid(b) && ev.eventType in b.handlerLists
    ensures Call(b, ev, true) == Call(b, ev, false)
  {
  }

  /** A subscription whose handler throws on every event never has its counter
      raised by a dispatch, and the dispatch still visits every entry. */
  lemma ThrowingHandlerNeverCounts(b: Bus, ev: Event, id: SubId)
    requires Valid(b) && ev.eventType in b.handlerLists && id in b.subs
    requires forall e :: !b.subs[id].handler(e).Completed()
    ensures FireEvent(b, ev).bus.subs[id].callCount == b.subs[id].callCount
    ensures |FireEvent(b, ev).trace| == |Concat(b.lists[b.handlerLists[ev.eventType]].slots)|
  {
    var i := b.handlerLists[ev.eventType];
    SnapshotOfKnown(b, i);
    var snapshot := Listeners(b.lists[i]).snapshot;
    CountersMatchDeliveries(Baked(b, i), snapshot, ev, id);
    NoDeliveriesOfThrowing(Baked(b, i), snapshot, ev, id);
  }

  lemma {:induction false} NoDeliveriesOfThrowing(b: Bus, snapshot: seq<SubId>, ev: Event, id: SubId)
    requires Valid(b)
    requires forall i :: 0 <= i < |snapshot| ==> snapshot[i] in b.subs
    requires id in b.subs && forall e :: !b.subs[id].handler(e).Completed()
    ensures DeliveriesOf(DeliverAll(b, snapshot, ev).trace, id) == 0
    decreases |snapshot|
  {
    if |snapshot| > 0 {
      var st := Deliver(b, snapshot[0], ev);
      assert st.bus.subs[id].handler == b.subs[id].handler;
      NoDeliveriesOfThrowing(st.bus, snapshot[1..], st.event, id);
    }
  }
}
