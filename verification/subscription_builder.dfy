/**
 * The fluent builder that assembles a subscription: it accumulates filters
 * and expiries in the order they are added, offers the `ignoreCancelled` and
 * `expireAfter(maxCalls)` conveniences, and finally builds the subscription
 * and registers it with the bus.
 */
module SubscriptionBuilder {
  import opened Wrappers
  import opened EventPriority
  import opened EventModel
  import opened HandlerList
  import opened Subscription
  import opened EventBus

  datatype Builder = Builder(eventType: EventType, priority: Priority, filters: seq<Filter>,
                             expiries: seq<Expiry>, handler: Handler, onError: ErrorAction)

  /** The default handler does nothing. */
  function NoOp(ev: Event): (run: Run)
    ensures ev.After(run) == ev && run.Completed()
  {
    Run(ev.state, None)
  }

  /** The default error action prints the stack trace, which changes nothing here. */
  function PrintStackTrace(ev: Event, f: Failure): (run: Run)
    ensures ev.After(run) == ev && run.Completed()
  {
    Run(ev.state, None)
  }

  /** The builder's constructor: no filters, no expiries, the no-op handler and
      the printing error action. */
  function NewBuilder(eventType: EventType, priority: Priority): (b: Builder)
    ensures b.eventType == eventType && b.priority == priority
    ensures b.filters == [] && b.expiries == []
    ensures forall ev :: b.handler(ev) == Run(ev.state, None)
    ensures forall ev, f :: b.onError(ev, f) == Run(ev.state, None)
  {
    Builder(eventType, priority, [], [], NoOp, PrintStackTrace)
  }

  /** `filter`: append a filter. */
  function AddFilter(b: Builder, f: Filter): (b': Builder)
    ensures |b'.filters| == |b.filters| + 1 && b'.filters[|b.filters|] == f
    ensures forall i :: 0 <= i < |b.filters| ==> b'.filters[i] == b.filters[i]
    ensures b'.expiries == b.expiries && b'.eventType == b.eventType && b'.priority == b.priority
    ensures b'.handler == b.handler && b'.onError == b.onError
  {
    b.(filters := b.filters + [f])
  }

  /** `expireIf`: append an expiry. */
  function ExpireIf(b: Builder, e: Expiry): (b': Builder)
    ensures |b'.expiries| == |b.expiries| + 1 && b'.expiries[|b.expiries|] == e
    ensures forall i :: 0 <= i < |b.expiries| ==> b'.expiries[i] == b.expiries[i]
    ensures b'.filters == b.filters && b'.eventType == b.eventType && b'.priority == b.priority
    ensures b'.handler == b.handler && b'.onError == b.onError
  {
    b.(expiries := b.expiries + [e])
  }

  /** The filter `ignoreCancelled` adds: a Cancellable event passes only when it
      is not cancelled; every other event passes. */
  function NotCancelled(ev: Event): (v: Verdict<bool>)
    ensures v.Returns?
    ensures v.value <==> !ev.IsCancelled()
  {
    if ev.cancellable then Returns(!ev.state.cancelled)
    else Returns(true)
  }

  /** `ignoreCancelled`. */
  function IgnoreCancelled(b: Builder): (b': Builder)
    ensures |b'.filters| == |b.filters| + 1 && b'.filters[..|b.filters|] == b.filters
    ensures forall ev :: b'.filters[|b.filters|](ev) == Returns(!ev.IsCancelled())
    ensures b'.expiries == b.expiries && b'.eventType == b.eventType && b'.priority == b.priority
    ensures b'.handler == b.handler && b'.onError == b.onError
  {
    AddFilter(b, NotCancelled)
  }

  /** The expiry `expireAfter(maxCalls)` adds: expired once the counter reached `maxCalls`. */
  function CallsAtLeast(maxCalls: nat): Expiry {
    (v: View) => Returns(v.callCount >= maxCalls)
  }

  /** The IllegalArgumentException raised by a failed argument check. */
  datatype IllegalArgument = IllegalArgument(message: string)

  /** `expireAfter(maxCalls)`: rejects a bound below one, otherwise adds the
      counter expiry. */
  function ExpireAfter(b: Builder, maxCalls: int): (res: Result<Builder, IllegalArgument>)
    ensures res.Failure? <==> maxCalls < 1
    ensures res.Success? ==> && res.value == ExpireIf(b, CallsAtLeast(maxCalls))
                             && forall v: View :: res.value.expiries[|b.expiries|](v) == Returns(v.callCount >= maxCalls)
  {
    if maxCalls < 1 then Failure(IllegalArgument("maxCalls < 1"))
    else Success(ExpireIf(b, CallsAtLeast(maxCalls)))
  }

  /** `onError`: replace the error action. */
  function OnError(b: Builder, a: ErrorAction): (b': Builder)
    ensures b'.onError == a && b'.filters == b.filters && b'.expiries == b.expiries
    ensures b'.eventType == b.eventType && b'.priority == b.priority && b'.handler == b.handler
  {
    b.(onError := a)
  }

  /** The bus after `handler(h)`, and the identity of the new subscription. */
  datatype Built = Built(bus: Bus, id: SubId)

  /** `handler(h)`: build a new subscription from everything accumulated (with
      the clock reading `now`) and register it. A new subscription cannot be in
      any bucket yet, so registration never raises the duplicate error. */
  function AttachHandler(b: Builder, h: Handler, bus: Bus, now: int): (r: Built)
    requires Valid(bus)
    ensures Valid(r.bus)
    ensures r.id == bus.nextId && r.bus.nextId == bus.nextId + 1
    ensures r.id !in bus.subs && r.bus.subs.Keys == bus.subs.Keys + {r.id}
    ensures forall id :: id in bus.subs ==> r.bus.subs[id] == bus.subs[id]
    ensures r.bus.subs[r.id] == New(b.eventType, b.priority, b.filters, b.expiries, h, b.onError, now)
    ensures r.bus.handlerLists == bus.handlerLists && |r.bus.lists| == |bus.lists|
    ensures b.eventType in bus.handlerLists ==>
              var i := bus.handlerLists[b.eventType];
              && r.bus.lists[i].Bucket(b.priority) == bus.lists[i].Bucket(b.priority) + [r.id]
              && (forall q :: q != b.priority ==> r.bus.lists[i].Bucket(q) == bus.lists[i].Bucket(q))
              && r.bus.lists[i].baked.None?
              && (forall j :: 0 <= j < |bus.lists| && j != i ==> r.bus.lists[j] == bus.lists[j])
    ensures b.eventType !in bus.handlerLists ==> r.bus.lists == bus.lists
  {
    var s := New(b.eventType, b.priority, b.filters, b.expiries, h, b.onError, now);
    var id := bus.nextId;
    var bus1 := bus.(subs := bus.subs[id := s], nextId := id + 1);
    assert Valid(bus1) by {
      forall i | 0 <= i < |bus.lists|
        ensures Sound(bus.lists[i], bus1.subs)
      {
        SoundUnderUpdate(bus.lists[i], bus.subs, bus1.subs);
      }
    }
    assert b.eventType in bus.handlerLists ==> id !in bus.lists[bus.handlerLists[b.eventType]].Bucket(b.priority);
    Built(RegisterListener(bus1, id).value, id)
  }

  /** The error action set with `onError` is the one the built subscription
      reports to, whatever filters and expiries are added after it. */
  lemma ErrorActionReachesSubscription(b: Builder, a: ErrorAction, f: Filter, e: Expiry,
                                       h: Handler, bus: Bus, now: int)
    requires Valid(bus)
    ensures var r := AttachHandler(ExpireIf(AddFilter(OnError(b, a), f), e), h, bus, now);
            var s := r.bus.subs[r.id];
            && s.onError == a && s.handler == h
            && s.filters == b.filters + [f] && s.expiries == b.expiries + [e]
            && s.eventType == b.eventType && s.priority == b.priority
  {
  }

  /** Filters and expiries are evaluated in the order they were added: a filter
      added last is only consulted when every earlier one passed. */
  lemma FiltersRunInOrderAdded(b: Builder, f: Filter, ev: Event)
    ensures var before := ScanAll(b.filters, ev, false);
            var after := ScanAll(AddFilter(b, f).filters, ev, false);
            && (!before.Clear? ==> after == before)
            && (before.Clear? && f(ev) == Returns(false) ==> after == StopAt(|b.filters|))
            && (before.Clear? && f(ev) == Returns(true) ==> after == Clear)
  {
    ScanAppend(b.filters, f, ev, false);
  }

  lemma ExpiriesRunInOrderAdded(b: Builder, e: Expiry, v: View)
    ensures var before := ScanAll(b.expiries, v, true);
            var after := ScanAll(ExpireIf(b, e).expiries, v, true);
            && (!before.Clear? ==> after == before)
            && (before.Clear? && e(v) == Returns(true) ==> after == StopAt(|b.expiries|))
            && (before.Clear? && e(v) == Returns(false) ==> after == Clear)
  {
    ScanAppend(b.expiries, e, v, true);
  }
}
