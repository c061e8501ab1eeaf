/**
 * End-to-end behaviour of the bus on the event types and subscriptions the
 * repository's tests use: priority order across all six levels, expiry after
 * two calls, filter suppression, cancelled-event suppression, and
 * unregister-then-publish.
 */
module Scenarios {
  import opened Wrappers
  import opened EventPriority
  import opened EventModel
  import opened HandlerList
  import opened Subscription
  import opened EventBus
  import opened SubscriptionBuilder

  const TestEvent: EventType := "TestEvent"
  const TestCancellableEvent: EventType := "TestCancellableEvent"

  /** A bus on which both test event types have their (empty) handler list. */
  function Start(): (b: Bus)
    ensures Valid(b)
    ensures |b.lists| == 2 && b.lists[0] == Fresh && b.lists[1] == Fresh
    ensures b.handlerLists.Keys == {TestEvent, TestCancellableEvent}
    ensures b.handlerLists[TestEvent] == 0 && b.handlerLists[TestCancellableEvent] == 1
    ensures b.subs == map[] && b.nextId == 0
  {
    assert TestEvent[4] != TestCancellableEvent[4];
    var (d1, i) := Create([]);
    var (d2, j) := Create(d1);
    Bus(d2, map[TestEvent := i, TestCancellableEvent := j], map[], 0)
  }

  /** A plain test event with every field at its default. */
  const Plain: Event := Event(TestEvent, false, EventState(false, map[]))

  /** An assertion inside a handler: the effect `after` happens, then the
      handler throws unless `ok`. */
  function Assert(ok: bool, after: EventState): Run {
    Run(after, if ok then None else Some(Thrown("AssertionError")))
  }

  /** The handler list of type `t` resolves and holds no subscription. */
  ghost predicate Empty(b: Bus, t: EventType) {
    && Valid(b) && t in b.handlerLists
    && Concat(b.lists[b.handlerLists[t]].slots) == []
  }

  /** The fresh bus has both test types resolving to empty handler lists. */
  lemma StartIsEmpty()
    ensures Empty(Start(), TestEvent) && Empty(Start(), TestCancellableEvent)
  {
    ConcatSix(Fresh.slots);
  }

  /** A registry whose only entry is `id`, in bucket `k`, snapshots to `[id]`. */
  lemma SingleEntry(s: Buckets, k: nat, id: SubId)
    requires k < Count
    requires forall j :: 0 <= j < Count ==> s[j] == if j == k then [id] else []
    ensures Concat(s) == [id]
  {
    ConcatSix(s);
    assert s[0] + s[1] + s[2] + s[3] + s[4] + s[5] == [id] by {
      if k == 0 { assert s[0] == [id]; }
      else if k == 1 { assert s[1] == [id]; }
      else if k == 2 { assert s[2] == [id]; }
      else if k == 3 { assert s[3] == [id]; }
      else if k == 4 { assert s[4] == [id]; }
      else { assert s[5] == [id]; }
    }
  }

  /** A subscription registered on an empty handler list is its only entry. */
  lemma AttachToEmpty(bld: Builder, h: Handler, b: Bus, now: int)
    requires Empty(b, bld.eventType)
    ensures var r := AttachHandler(bld, h, b, now);
            Concat(r.bus.lists[b.handlerLists[bld.eventType]].slots) == [r.id]
  {
    var r := AttachHandler(bld, h, b, now);
    var i := b.handlerLists[bld.eventType];
    var before := b.lists[i].slots;
    var after := r.bus.lists[i].slots;
    ConcatSix(before);
    forall q: Priority
      ensures r.bus.lists[i].Bucket(q) == if q == bld.priority then [r.id] else []
    {
      assert before[q.Slot()] == [];
    }
    assert after[bld.priority.Slot()] == [r.id];
    forall k | 0 <= k < Count
      ensures after[k] == if k == bld.priority.Slot() then [r.id] else []
    {
      assert after[k] == r.bus.lists[i].Bucket(FromSlot(k));
    }
    SingleEntry(after, bld.priority.Slot(), r.id);
  }

  /** One publish to a bus whose handler list for the event's type only holds `id`. */
  lemma PublishToSole(b: Bus, id: SubId, ev: Event)
    requires Valid(b) && ev.eventType in b.handlerLists
    requires Concat(b.lists[b.handlerLists[ev.eventType]].slots) == [id]
    ensures id in b.subs
    ensures var f := FireEvent(b, ev);
            var x := Execute(b.subs[id], ev);
            && f.trace == [Visit(id, x.path)]
            && f.event == x.event
            && f.bus.subs[id] == x.sub
            && (!x.path.RequestsUnregister() ==> f.bus.lists[b.handlerLists[ev.eventType]].slots
                                                 == b.lists[b.handlerLists[ev.eventType]].slots)
            && (x.path.RequestsUnregister() && b.subs[id].eventType == ev.eventType ==>
                  !Occurs(f.bus.lists[b.handlerLists[ev.eventType]], id))
  {
    var i := b.handlerLists[ev.eventType];
    SnapshotOfKnown(b, i);
    var b1 := Baked(b, i);
    assert Listeners(b.lists[i]).snapshot == [id];
    assert Listeners(b.lists[i]).snapshot[0] == id;
    var st := Deliver(b1, id, ev);
    var one: seq<SubId> := [id];
    assert one[1..] == [];
    assert DeliverAll(b1, [id], ev) == Fired(st.bus, st.event, [Visit(id, st.path)]);
  }

  /** One publish to the sole subscription of a handler list whose expiries
      all pass and whose first filter rejects the event: only the filter runs. */
  lemma PublishFiltered(b: Bus, id: SubId, ev: Event)
    requires Valid(b) && ev.eventType in b.handlerLists
    requires Concat(b.lists[b.handlerLists[ev.eventType]].slots) == [id]
    requires id in b.subs && b.subs[id].active && b.subs[id].eventType == ev.eventType
    requires ScanAll(b.subs[id].expiries, b.subs[id].Observed(), true) == Clear
    requires ScanAll(b.subs[id].filters, ev, false) == StopAt(0)
    ensures var f := Call(b, ev, false);
            && f.trace == [Visit(id, FilteredBy(0))]
            && f.event == ev
            && f.bus.subs[id].callCount == b.subs[id].callCount
  {
    PublishToSole(b, id, ev);
  }

  // ---------------------------------------------------------------------------
  // Priority order

  /** The handler of the priority test for slot `k`: check that the shared
      counter equals `k`, post-incrementing it. */
  function CheckSlot(k: nat): Handler {
    (ev: Event) => Assert(ev.Field("priority") == k, ev.state.WithField("priority", ev.Field("priority") + 1))
  }

  /** The first `n` subscriptions of the priority test, registered lowest first. */
  function PriorityBus(n: nat): (b: Bus)
    requires n <= Count
    ensures Valid(b)
  {
    if n == 0 then Start()
    else AttachHandler(NewBuilder(TestEvent, FromSlot(n - 1)), CheckSlot(n - 1), PriorityBus(n - 1), 0).bus
  }

  /** Subscription `j` is the priority test's subscription for slot `j`, untouched. */
  ghost predicate SlotChecker(subs: map<SubId, Subscription>, j: nat) {
    && j in subs
    && subs[j].eventType == TestEvent
    && subs[j].active
    && subs[j].filters == [] && subs[j].expiries == []
    && subs[j].handler == CheckSlot(j)
  }

  /** The shape of the priority bus after `n` registrations: the ids `0 .. n-1`,
      each the not-yet-called checker of its own slot and alone in its bucket of
      the test event's handler list. */
  ghost predicate Shaped(b: Bus, n: nat) {
    && b.nextId == n
    && TestEvent in b.handlerLists && b.handlerLists[TestEvent] == 0 && 0 < |b.lists|
    && (forall j :: j in b.subs <==> 0 <= j < n)
    && (forall j :: 0 <= j < n ==> SlotChecker(b.subs, j) && b.subs[j].callCount == 0)
    && SlotsShaped(b.lists[0].slots, n)
  }

  ghost predicate SlotsShaped(s: Buckets, n: nat) {
    forall k :: 0 <= k < Count ==> s[k] == if k < n then [k] else []
  }

  /** Registering the checker of slot `n - 1` extends the shape by one. */
  lemma AttachChecker(prev: Bus, n: nat)
    requires Valid(prev) && 0 < n <= Count && Shaped(prev, n - 1)
    ensures Shaped(AttachHandler(NewBuilder(TestEvent, FromSlot(n - 1)), CheckSlot(n - 1), prev, 0).bus, n)
  {
    var r := AttachHandler(NewBuilder(TestEvent, FromSlot(n - 1)), CheckSlot(n - 1), prev, 0);
    var subs := r.bus.subs;
    assert r.id == n - 1 && subs.Keys == prev.subs.Keys + {n - 1};
    forall j
      ensures j in subs <==> 0 <= j < n
    {
    }
    forall j | 0 <= j < n
      ensures SlotChecker(subs, j) && subs[j].callCount == 0
    {
      if j < n - 1 {
        assert SlotChecker(prev.subs, j) && prev.subs[j].callCount == 0;
        assert subs[j] == prev.subs[j];
      }
    }
    AppendChecker(prev.lists[0], r.bus.lists[0], n);
  }

  /** Bucket `n - 1` gains id `n - 1` and the rest stay as they were. */
  lemma AppendChecker(before: Registry, after: Registry, n: nat)
    requires 0 < n <= Count && SlotsShaped(before.slots, n - 1)
    requires after.Bucket(FromSlot(n - 1)) == before.Bucket(FromSlot(n - 1)) + [n - 1]
    requires forall q :: q != FromSlot(n - 1) ==> after.Bucket(q) == before.Bucket(q)
    ensures SlotsShaped(after.slots, n)
  {
    forall k | 0 <= k < Count
      ensures after.slots[k] == if k < n then [k] else []
    {
      assert after.slots[k] == after.Bucket(FromSlot(k));
      assert before.slots[k] == before.Bucket(FromSlot(k));
    }
  }

  lemma {:induction false} PriorityBusShaped(n: nat)
    requires n <= Count
    ensures Shaped(PriorityBus(n), n)
    decreases n
  {
    if n > 0 {
      PriorityBusShaped(n - 1);
      AttachChecker(PriorityBus(n - 1), n);
    }
  }

  /** The checker of slot `k`, seeing the counter at `k`, returns normally and
      leaves the counter at `k + 1`. */
  lemma CheckerStep(b: Bus, k: nat, ev: Event)
    requires Valid(b) && SlotChecker(b.subs, k)
    requires ev.eventType == TestEvent && ev.Field("priority") == k
    ensures var st := Deliver(b, k, ev);
            && st.path == Delivered
            && st.event.eventType == TestEvent
            && st.event.Field("priority") == k + 1
  {
    var s := b.subs[k];
    assert ScanAll(s.expiries, s.Observed(), true) == Clear;
    assert ScanAll(s.filters, ev, false) == Clear;
    assert s.handler(ev).Completed();
  }

  /** `ids` lists the slots `k .. 5` in order. */
  ghost predicate SlotsFrom(ids: seq<SubId>, k: nat) {
    && |ids| + k == Count
    && forall i :: 0 <= i < |ids| ==> ids[i] == k + i
  }

  /** Every execution recorded in `trace` returned normally. */
  ghost predicate AllDelivered(trace: seq<Visit>) {
    forall i :: 0 <= i < |trace| ==> trace[i].path == Delivered
  }

  lemma DeliveredCons(v: Visit, rest: seq<Visit>)
    requires v.path == Delivered && AllDelivered(rest)
    ensures AllDelivered([v] + rest)
  {
  }

  /** The slots from `k` on all hold their checker, so the snapshot only names
      known subscriptions. */
  lemma CheckersKnown(b: Bus, k: nat, snap: seq<SubId>)
    requires SlotsFrom(snap, k)
    requires forall j :: k <= j < Count ==> SlotChecker(b.subs, j)
    ensures forall i :: 0 <= i < |snap| ==> snap[i] in b.subs
  {
    forall i | 0 <= i < |snap|
      ensures snap[i] in b.subs
    {
      assert SlotChecker(b.subs, snap[i]);
    }
  }

  /** From slot `k` on, each checker sees the counter equal to its own slot and
      returns normally; the counter ends at 6. */
  lemma {:induction false} PriorityChain(b: Bus, k: nat, snap: seq<SubId>, ev: Event)
    requires Valid(b) && SlotsFrom(snap, k)
    requires forall j :: k <= j < Count ==> SlotChecker(b.subs, j)
    requires forall i :: 0 <= i < |snap| ==> snap[i] in b.subs
    requires ev.eventType == TestEvent && ev.Field("priority") == k
    ensures AllDelivered(DeliverAll(b, snap, ev).trace)
    ensures DeliverAll(b, snap, ev).event.Field("priority") == Count
    decreases |snap|
  {
    if k < Count {
      CheckerStep(b, k, ev);
      var st := Deliver(b, k, ev);
      assert forall j :: k < j < Count ==> SlotChecker(b.subs, j) && st.bus.subs[j] == b.subs[j];
      assert SlotsFrom(snap[1..], k + 1);
      CheckersKnown(st.bus, k + 1, snap[1..]);
      PriorityChain(st.bus, k + 1, snap[1..], st.event);
      var rest := DeliverAll(st.bus, snap[1..], st.event);
      assert DeliverAll(b, snap, ev).trace == [Visit(k, Delivered)] + rest.trace;
      DeliveredCons(Visit(k, Delivered), rest.trace);
    }
  }

  /** In a trace visiting the slots `k .. 5` in order, all delivered, each of
      those ids counts once and every other id not at all. */
  lemma {:induction false} DeliveriesInRange(trace: seq<Visit>, k: nat, j: nat)
    requires SlotsFrom(Ids(trace), k) && AllDelivered(trace)
    ensures DeliveriesOf(trace, j) == if k <= j < Count then 1 else 0
    decreases |trace|
  {
    if k < Count {
      assert Ids(trace[1..]) == Ids(trace)[1..];
      DeliveriesInRange(trace[1..], k + 1, j);
    }
  }

  /** From slot `k` on, each checker counts exactly one call in the dispatch. */
  lemma ChainCounts(b: Bus, k: nat, snap: seq<SubId>, ev: Event)
    requires Valid(b) && SlotsFrom(snap, k)
    requires forall j :: k <= j < Count ==> SlotChecker(b.subs, j) && b.subs[j].callCount == 0
    requires ev.eventType == TestEvent && ev.Field("priority") == k
    ensures forall i :: 0 <= i < |snap| ==> snap[i] in b.subs
    ensures forall j :: k <= j < Count ==>
              j in DeliverAll(b, snap, ev).bus.subs && DeliverAll(b, snap, ev).bus.subs[j].callCount == 1
  {
    CheckersKnown(b, k, snap);
    PriorityChain(b, k, snap, ev);
    forall j | k <= j < Count
      ensures j in DeliverAll(b, snap, ev).bus.subs && DeliverAll(b, snap, ev).bus.subs[j].callCount == 1
    {
      ChainCountOne(b, k, snap, ev, j);
    }
  }

  /** One checker of the chain: after the run it has counted one call. */
  lemma ChainCountOne(b: Bus, k: nat, snap: seq<SubId>, ev: Event, j: nat)
    requires Valid(b) && SlotsFrom(snap, k) && k <= j < Count
    requires SlotChecker(b.subs, j) && b.subs[j].callCount == 0
    requires forall i :: 0 <= i < |snap| ==> snap[i] in b.subs
    requires AllDelivered(DeliverAll(b, snap, ev).trace)
    ensures j in DeliverAll(b, snap, ev).bus.subs && DeliverAll(b, snap, ev).bus.subs[j].callCount == 1
  {
    CountersMatchDeliveries(b, snap, ev, j);
    DeliveriesInRange(DeliverAll(b, snap, ev).trace, k, j);
  }

  /** The priority bus's handler list flattens to the checkers in slot order. */
  lemma ShapedSnapshot(b: Bus)
    requires Shaped(b, Count)
    ensures Concat(b.lists[0].slots) == [0, 1, 2, 3, 4, 5]
    ensures SlotsFrom(Concat(b.lists[0].slots), 0)
  {
    var s := b.lists[0].slots;
    ConcatSix(s);
    assert s[0] == [0] && s[1] == [1] && s[2] == [2] && s[3] == [3] && s[4] == [4] && s[5] == [5];
  }

  /** On the priority bus a publish of the test event dispatches over that
      handler list. */
  lemma PriorityFire(b: Bus, ev: Event)
    requires Valid(b) && Shaped(b, Count) && ev.eventType == TestEvent
    ensures forall i :: 0 <= i < |Concat(b.lists[0].slots)| ==> Concat(b.lists[0].slots)[i] in Baked(b, 0).subs
    ensures Call(b, ev, false) == DeliverAll(Baked(b, 0), Concat(b.lists[0].slots), ev)
  {
    assert b.handlerLists[ev.eventType] == 0;
    assert Call(b, ev, false) == FireEvent(b, ev);
    FireDispatchesBuckets(b, ev);
  }

  /** A publish on a bus with the priority test's six subscriptions, starting
      the counter at 0, visits them lowest to highest and every check passes. */
  lemma PriorityOrder(b: Bus, ev: Event)
    requires Valid(b) && Shaped(b, Count)
    requires ev.eventType == TestEvent && ev.Field("priority") == 0
    ensures Ids(Call(b, ev, false).trace) == [0, 1, 2, 3, 4, 5]
    ensures AllDelivered(Call(b, ev, false).trace)
    ensures Call(b, ev, false).event.Field("priority") == 6
  {
    ShapedSnapshot(b);
    PriorityFire(b, ev);
    PriorityChain(Baked(b, 0), 0, Concat(b.lists[0].slots), ev);
  }

  /** After that publish each checker counted one call. */
  lemma PriorityCounts(b: Bus, ev: Event)
    requires Valid(b) && Shaped(b, Count)
    requires ev.eventType == TestEvent && ev.Field("priority") == 0
    ensures forall j :: 0 <= j < Count ==> j in Call(b, ev, false).bus.subs && Call(b, ev, false).bus.subs[j].callCount == 1
  {
    ShapedSnapshot(b);
    PriorityFire(b, ev);
    ChainCounts(Baked(b, 0), 0, Concat(b.lists[0].slots), ev);
  }

  /** The priority test end to end: registering the six checkers lowest first
      and publishing the plain event runs them lowest to highest, every check
      passes, the counter ends at 6 and each checker counts one call. The
      parameter is the number of checkers registered, fixed to the six
      priorities; taking it as a parameter keeps the bus construction symbolic
      for the verifier instead of unfolding six registrations at once. */
  lemma PriorityOrderEndToEnd(n: nat)
    requires n == Count
    ensures Valid(PriorityBus(n)) && TestEvent in PriorityBus(n).handlerLists
    ensures var f := Call(PriorityBus(n), Plain, false);
            && Ids(f.trace) == [0, 1, 2, 3, 4, 5]
            && (forall i :: 0 <= i < |f.trace| ==> f.trace[i].path == Delivered)
            && f.event.Field("priority") == 6
            && (forall j :: 0 <= j < Count ==> j in f.bus.subs && f.bus.subs[j].callCount == 1)
  {
    var b := PriorityBus(n);
    PriorityBusShaped(n);
    PriorityOrder(b, Plain);
    PriorityCounts(b, Plain);
  }

  // ---------------------------------------------------------------------------
  // Register, then publish

  /** The handler of the registration test: it records that it ran. */
  function MarkTest(ev: Event): (run: Run)
    ensures run.Completed() && run.state.Field("test") == 1
  {
    Run(ev.state.WithField("test", 1), None)
  }

  /** The registration test: on a bus whose handler list for the test event is
      empty, a subscription built with the marking handler runs on the next
      publish, which leaves the mark set and counts one call. */
  lemma RegisterThenPublish(b: Bus, ev: Event, now: int)
    requires Empty(b, TestEvent) && ev.eventType == TestEvent
    ensures var r := AttachHandler(NewBuilder(TestEvent, Normal), MarkTest, b, now);
            var f := Call(r.bus, ev, false);
            && f.trace == [Visit(r.id, Delivered)]
            && f.event.Field("test") == 1
            && f.bus.subs[r.id].callCount == 1
  {
    var r := AttachHandler(NewBuilder(TestEvent, Normal), MarkTest, b, now);
    AttachToEmpty(NewBuilder(TestEvent, Normal), MarkTest, b, now);
    PublishToSole(r.bus, r.id, ev);
    var s := r.bus.subs[r.id];
    assert ScanAll(s.expiries, s.Observed(), true) == Clear;
    assert ScanAll(s.filters, ev, false) == Clear;
  }

  // ---------------------------------------------------------------------------
  // expireAfter(2)

  /** The handler of the expiry test: count the calls in the event. */
  function CountCall(ev: Event): (run: Run)
    ensures run.Completed() && run.state.Field("expire") == ev.Field("expire") + 1
  {
    Run(ev.state.WithField("expire", ev.Field("expire") + 1), None)
  }

  /** The expiry test's subscription `id`, alone in the test event's handler
      list, has returned normally `calls` times. */
  ghost predicate Counting(b: Bus, id: SubId, calls: nat) {
    && Valid(b) && TestEvent in b.handlerLists
    && Concat(b.lists[b.handlerLists[TestEvent]].slots) == [id]
    && id in b.subs
    && b.subs[id].eventType == TestEvent
    && b.subs[id].filters == [] && b.subs[id].expiries == [CallsAtLeast(2)]
    && b.subs[id].handler == CountCall
    && b.subs[id].active && b.subs[id].callCount == calls
  }

  /** `expireAfter(2)` with the counting handler, on a bus whose handler list
      for the test event is empty. */
  lemma ExpiryAttached(b: Bus, now: int)
    requires Empty(b, TestEvent)
    ensures ExpireAfter(NewBuilder(TestEvent, Normal), 2).Success?
    ensures Counting(AttachHandler(ExpireAfter(NewBuilder(TestEvent, Normal), 2).value, CountCall, b, now).bus, b.nextId, 0)
  {
    var bld := ExpireAfter(NewBuilder(TestEvent, Normal), 2).value;
    assert bld.expiries == [CallsAtLeast(2)];
    AttachToEmpty(bld, CountCall, b, now);
  }

  /** Below two calls, a publish runs the handler. */
  lemma ExpiryDelivers(b: Bus, id: SubId, ev: Event, calls: nat)
    requires Counting(b, id, calls) && calls < 2 && ev.eventType == TestEvent
    ensures Call(b, ev, false).trace == [Visit(id, Delivered)]
    ensures Call(b, ev, false).event.Field("expire") == ev.Field("expire") + 1
    ensures Counting(Call(b, ev, false).bus, id, calls + 1)
  {
    PublishToSole(b, id, ev);
    var s := b.subs[id];
    assert ScanAll(s.expiries, s.Observed(), true) == Clear;
    assert Execute(s, ev).path == Delivered;
  }

  /** At two calls, a publish expires the subscription instead: the handler
      does not run, the subscription goes inactive and leaves the handler list. */
  lemma ExpiryExpires(b: Bus, id: SubId, ev: Event)
    requires Counting(b, id, 2) && ev.eventType == TestEvent
    ensures Call(b, ev, false).trace == [Visit(id, ExpiredBy(0))]
    ensures Call(b, ev, false).event == ev
    ensures id in Call(b, ev, false).bus.subs
    ensures !Call(b, ev, false).bus.subs[id].active && Call(b, ev, false).bus.subs[id].callCount == 2
    ensures !Occurs(Call(b, ev, false).bus.lists[b.handlerLists[TestEvent]], id)
  {
    PublishToSole(b, id, ev);
    var s := b.subs[id];
    assert ScanAll(s.expiries, s.Observed(), true) == StopAt(0);
    assert Execute(s, ev).path == ExpiredBy(0);
  }

  /** The first two publishes each run the handler once. */
  lemma ExpiryTwice(b: Bus, id: SubId, ev: Event)
    requires Counting(b, id, 0) && ev.eventType == TestEvent
    ensures var f1 := Call(b, ev, false);
            var f2 := Call(f1.bus, f1.event, false);
            && f1.trace == [Visit(id, Delivered)]
            && f2.trace == [Visit(id, Delivered)]
            && f2.event.eventType == TestEvent
            && f2.event.Field("expire") == ev.Field("expire") + 2
            && Counting(f2.bus, id, 2)
  {
    ExpiryDelivers(b, id, ev, 0);
    var f1 := Call(b, ev, false);
    ExpiryDelivers(f1.bus, id, f1.event, 1);
  }

  /** The expiry test: `expireAfter(2)` and three publishes of the same event.
      The handler runs on the first two; the third finds the counter at 2,
      expires the subscription, which is then inactive and unregistered. */
  lemma ExpireAfterTwoOverThreePublishes(b: Bus, ev: Event, now: int)
    requires Empty(b, TestEvent) && ev.eventType == TestEvent
    ensures ExpireAfter(NewBuilder(TestEvent, Normal), 2).Success?
    ensures var r := AttachHandler(ExpireAfter(NewBuilder(TestEvent, Normal), 2).value, CountCall, b, now);
            var f1 := Call(r.bus, ev, false);
            var f2 := Call(f1.bus, f1.event, false);
            var f3 := Call(f2.bus, f2.event, false);
            && f1.trace == [Visit(r.id, Delivered)]
            && f2.trace == [Visit(r.id, Delivered)]
            && f3.trace == [Visit(r.id, ExpiredBy(0))]
            && f3.event.Field("expire") == ev.Field("expire") + 2
            && r.id in f3.bus.subs && f3.bus.subs[r.id].callCount == 2
            && !f3.bus.subs[r.id].active
            && !Occurs(f3.bus.lists[b.handlerLists[TestEvent]], r.id)
  {
    ExpiryAttached(b, now);
    var r := AttachHandler(ExpireAfter(NewBuilder(TestEvent, Normal), 2).value, CountCall, b, now);
    ExpiryTwice(r.bus, r.id, ev);
    var f1 := Call(r.bus, ev, false);
    var f2 := Call(f1.bus, f1.event, false);
    ExpiryExpires(f2.bus, r.id, f2.event);
  }

  // ---------------------------------------------------------------------------
  // Filters

  /** The filter of the filter test. */
  function Positive(ev: Event): Verdict<bool> {
    Returns(ev.Field("filter") > 0)
  }

  /** The handler of the filter test: it asserts the value is 1. */
  function ExpectOne(ev: Event): Run {
    Assert(ev.Field("filter") == 1, ev.state)
  }

  /** The filter test: with the filter `value > 0`, publishing an event whose
      value is not positive neither runs the handler nor the error action,
      leaves the event and the counter alone, and raises nothing. */
  lemma FilterSuppresses(b: Bus, ev: Event, now: int)
    requires Empty(b, TestEvent) && ev.eventType == TestEvent && ev.Field("filter") <= 0
    ensures var r := AttachHandler(AddFilter(NewBuilder(TestEvent, Normal), Positive), ExpectOne, b, now);
            var x := Execute(r.bus.subs[r.id], ev);
            && Call(r.bus, ev, false).trace == [Visit(r.id, FilteredBy(0))]
            && !x.path.InvokedHandler() && !x.path.ReportedError() && x.escaped.None?
            && Call(r.bus, ev, false).event == ev
            && Call(r.bus, ev, false).bus.subs[r.id].callCount == 0
  {
    var bld := AddFilter(NewBuilder(TestEvent, Normal), Positive);
    AttachToEmpty(bld, ExpectOne, b, now);
    var r := AttachHandler(bld, ExpectOne, b, now);
    var s := r.bus.subs[r.id];
    assert s.filters == [Positive] && s.expiries == [];
    assert ScanAll(s.filters, ev, false) == StopAt(0);
    PublishFiltered(r.bus, r.id, ev);
  }

  // ---------------------------------------------------------------------------
  // Cancelled events

  /** The handler of the cancellation and unregistration tests: it always fails. */
  function AlwaysFail(ev: Event): (run: Run)
    ensures !run.Completed()
  {
    Assert(false, ev.state)
  }

  /** The cancellation test: a subscription with `ignoreCancelled` never runs its
      handler on a cancelled event. */
  lemma IgnoreCancelledSuppresses(b: Bus, ev: Event, now: int)
    requires Empty(b, TestCancellableEvent)
    requires ev.eventType == TestCancellableEvent && ev.cancellable && ev.state.cancelled
    ensures var r := AttachHandler(IgnoreCancelled(NewBuilder(TestCancellableEvent, Normal)), AlwaysFail, b, now);
            && Call(r.bus, ev, false).trace == [Visit(r.id, FilteredBy(0))]
            && Call(r.bus, ev, false).event == ev
            && Call(r.bus, ev, false).bus.subs[r.id].callCount == 0
  {
    var bld := IgnoreCancelled(NewBuilder(TestCancellableEvent, Normal));
    AttachToEmpty(bld, AlwaysFail, b, now);
    var r := AttachHandler(bld, AlwaysFail, b, now);
    var s := r.bus.subs[r.id];
    assert s.filters == [NotCancelled] && s.expiries == [];
    assert ScanAll(s.filters, ev, false) == StopAt(0);
    PublishFiltered(r.bus, r.id, ev);
  }

  // ---------------------------------------------------------------------------
  // Unregister, then publish

  /** The unregister test: a subscription unregistered right after it was built
      is not run by a later publish, its state is untouched, and the handler
      list holds what it held before the registration. */
  lemma UnregisterThenPublish(b: Bus, ev: Event, now: int)
    requires Valid(b) && TestEvent in b.handlerLists && ev.eventType == TestEvent
    ensures var r := AttachHandler(NewBuilder(TestEvent, Normal), AlwaysFail, b, now);
            var b' := UnregisterListener(r.bus, r.id);
            && r.id !in Ids(Call(b', ev, false).trace)
            && Call(b', ev, false).bus.subs[r.id] == r.bus.subs[r.id]
            && b'.lists[b.handlerLists[TestEvent]].slots == b.lists[b.handlerLists[TestEvent]].slots
  {
    var i := b.handlerLists[TestEvent];
    var r := AttachHandler(NewBuilder(TestEvent, Normal), AlwaysFail, b, now);
    var b' := UnregisterListener(r.bus, r.id);
    assert !Occurs(b'.lists[i], r.id);
    FireSkipsUnregistered(b', ev, r.id);
    SnapshotOfKnown(b, i);
    assert !Occurs(b.lists[i], r.id);
    SlotsByBucket(r.bus.lists[i], Register(b.lists[i], r.id, Normal).value);
    RegisterThenUnregister(b.lists[i], r.id, Normal);
  }
}
