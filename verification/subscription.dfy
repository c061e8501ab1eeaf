/**
 * A subscription and its execution state machine. A subscription is bound to
 * one event type and one priority, carries ordered filters, ordered expiries,
 * a handler and an error action, and keeps two pieces of mutable state: the
 * active flag (Active, or the terminal Inactive) and the call counter.
 */
module Subscription {
  import opened Wrappers
  import opened EventPriority
  import opened EventModel

  /** What an expiry predicate can observe of its own subscription (its getters). */
  datatype View = View(eventType: EventType, priority: Priority, active: bool, callCount: nat, registerTime: int)

  /** A predicate over the (cast) event; `false` suppresses the handler. */
  type Filter = Event -> Verdict<bool>

  /** A predicate over the subscription itself; `true` expires it. */
  type Expiry = View -> Verdict<bool>

  /** The event handler. */
  type Handler = Event -> Run

  /** The error action, given the event and the throwable. */
  type ErrorAction = (Event, Failure) -> Run

  datatype Subscription = Subscription(
    eventType: EventType,
    priority: Priority,
    filters: seq<Filter>,
    expiries: seq<Expiry>,
    handler: Handler,
    onError: ErrorAction,
    registerTime: int,
    active: bool,
    callCount: nat)
  {
    /** The subscription as its expiry predicates see it. */
    function Observed(): (v: View)
      ensures v.active == active && v.callCount == callCount
      ensures v.eventType == eventType && v.priority == priority && v.registerTime == registerTime
    {
      View(eventType, priority, active, callCount, registerTime)
    }

    /** Same immutable configuration: only the active flag and counter may differ. */
    ghost predicate SameConfig(other: Subscription) {
      && eventType == other.eventType
      && priority == other.priority
      && filters == other.filters
      && expiries == other.expiries
      && handler == other.handler
      && onError == other.onError
      && registerTime == other.registerTime
    }
  }

  /** The constructor: active, counter zero, register time taken from the clock
      reading `now`. */
  function New(eventType: EventType, priority: Priority, filters: seq<Filter>, expiries: seq<Expiry>,
               handler: Handler, onError: ErrorAction, now: int): (s: Subscription)
    ensures s.active && s.callCount == 0
    ensures s.eventType == eventType && s.priority == priority && s.registerTime == now
    ensures s.filters == filters && s.expiries == expiries && s.handler == handler && s.onError == onError
  {
    Subscription(eventType, priority, filters, expiries, handler, onError, now, true, 0)
  }

  // ---------------------------------------------------------------------------
  // Ordered evaluation of a predicate list

  /** Where an in-order scan of a predicate list stopped. */
  datatype Scan = Clear | StopAt(index: nat) | RaisedAt(index: nat, failure: Failure) {
    function Shift(): Scan {
      match this
      case Clear => Clear
      case StopAt(i) => StopAt(i + 1)
      case RaisedAt(i, f) => RaisedAt(i + 1, f)
    }
  }

  /** The first `n` predicates all returned `value` on `x`. */
  ghost predicate AllReturn<X>(tests: seq<X -> Verdict<bool>>, x: X, value: bool, n: nat)
    requires n <= |tests|
  {
    forall i :: 0 <= i < n ==> tests[i](x) == Returns(value)
  }

  /** Test the predicates in order, stopping at the first that returns `stopOn`
      or throws. Expiries stop on `true`, filters on `false`. */
  function ScanAll<X>(tests: seq<X -> Verdict<bool>>, x: X, stopOn: bool): (r: Scan)
    ensures r.Clear? <==> AllReturn(tests, x, !stopOn, |tests|)
    ensures r.StopAt? ==> r.index < |tests| && tests[r.index](x) == Returns(stopOn)
                           && AllReturn(tests, x, !stopOn, r.index)
    ensures r.RaisedAt? ==> r.index < |tests| && tests[r.index](x) == Throws(r.failure)
                             && AllReturn(tests, x, !stopOn, r.index)
  {
    if |tests| == 0 then Clear
    else
      match tests[0](x)
      case Throws(f) => RaisedAt(0, f)
      case Returns(b) =>
        if b == stopOn then StopAt(0)
        else
          var rest := ScanAll(tests[1..], x, stopOn);
          assert forall i :: 1 <= i < |tests| ==> tests[i] == tests[1..][i - 1];
          rest.Shift()
  }

  /** Predicates are evaluated in list order: appending one leaves the earlier
      outcome alone, and the new one is reached only if all earlier ones passed. */
  lemma {:induction false} ScanAppend<X>(tests: seq<X -> Verdict<bool>>, t: X -> Verdict<bool>, x: X, stopOn: bool)
    ensures var before := ScanAll(tests, x, stopOn);
            var after := ScanAll(tests + [t], x, stopOn);
            && (!before.Clear? ==> after == before)
            && (before.Clear? ==> match t(x)
                                  case Throws(f) => after == RaisedAt(|tests|, f)
                                  case Returns(b) => after == if b == stopOn then StopAt(|tests|) else Clear)
    decreases |tests|
  {
    var all := tests + [t];
    if |tests| == 0 {
      assert all == [t] && all[1..] == [];
    } else {
      assert all[0] == tests[0] && all[1..] == tests[1..] + [t];
      ScanAppend(tests[1..], t, x, stopOn);
    }
  }

  // ---------------------------------------------------------------------------
  // execute

  /** Which way an execution went. */
  datatype Path =
    | SkippedInactive                          // inactive: asked to be unregistered
    | CastRejected                             // event of another type: ClassCastException
    | ExpiryRaised(index: nat, failure: Failure)
    | ExpiredBy(index: nat)                    // deactivated, asked to be unregistered
    | FilteredBy(index: nat)                   // silently suppressed
    | FilterRaised(index: nat, failure: Failure)
    | Delivered                                // handler returned normally
    | HandlerRaised(failure: Failure)
  {
    predicate RequestsUnregister() { SkippedInactive? || ExpiredBy? }
    predicate InvokedHandler() { Delivered? || HandlerRaised? }
    predicate ReportedError() { FilterRaised? || HandlerRaised? }
    predicate PassedExpiries() { FilteredBy? || FilterRaised? || InvokedHandler() }
  }

  /** The subscription and event after one execution, the path taken, and the
      throwable that escaped `execute`, if any. */
  datatype Execution = Execution(sub: Subscription, event: Event, path: Path, escaped: Option<Failure>)

  /** The error action's run on a failure raised inside the guarded block. */
  function Report(s: Subscription, ev: Event, f: Failure, path: Path): Execution {
    var run := s.onError(ev, f);
    Execution(s, ev.After(run), path, run.failure)
  }

  /** `execute(event)`: the active check, the cast, the expiries over the
      subscription's own state, the filters over the event, the handler, the
      error action, and the call counter. */
  function Execute(s: Subscription, ev: Event): (x: Execution)
    ensures x.sub.SameConfig(s)
    ensures x.event.eventType == ev.eventType && x.event.cancellable == ev.cancellable
    // the counter moves only on a normal handler return, and by exactly one
    ensures x.sub.callCount == s.callCount + (if x.path.Delivered? then 1 else 0)
    // Inactive is terminal; the only way to leave Active is a true expiry
    ensures x.sub.active <==> s.active && !x.path.ExpiredBy?
    ensures x.path.SkippedInactive? <==> !s.active
    ensures x.path.SkippedInactive? ==> x.event == ev && x.escaped.None?
    ensures x.path.CastRejected? <==> s.active && ev.eventType != s.eventType
    ensures x.path.CastRejected? ==> x.escaped == Some(ClassCast) && x.event == ev
    // expiries run in order, over the subscription itself, before any filter
    ensures x.path.ExpiredBy? ==>
              && s.active && ev.eventType == s.eventType
              && x.path.index < |s.expiries|
              && s.expiries[x.path.index](s.Observed()) == Returns(true)
              && AllReturn(s.expiries, s.Observed(), false, x.path.index)
              && x.event == ev && x.escaped.None?
    ensures x.path.ExpiryRaised? ==>
              && x.path.index < |s.expiries|
              && s.expiries[x.path.index](s.Observed()) == Throws(x.path.failure)
              && AllReturn(s.expiries, s.Observed(), false, x.path.index)
              && x.event == ev && x.escaped == Some(x.path.failure)
    ensures x.path.PassedExpiries() ==>
              s.active && ev.eventType == s.eventType && AllReturn(s.expiries, s.Observed(), false, |s.expiries|)
    // filters run in order; the first false suppresses silently
    ensures x.path.FilteredBy? ==>
              && x.path.index < |s.filters|
              && s.filters[x.path.index](ev) == Returns(false)
              && AllReturn(s.filters, ev, true, x.path.index)
              && x.event == ev && x.escaped.None?
    ensures x.path.FilterRaised? ==>
              && x.path.index < |s.filters|
              && s.filters[x.path.index](ev) == Throws(x.path.failure)
              && AllReturn(s.filters, ev, true, x.path.index)
              && x.event == ev.After(s.onError(ev, x.path.failure))
              && x.escaped == s.onError(ev, x.path.failure).failure
    // the handler runs only after every filter passed
    ensures x.path.InvokedHandler() ==> AllReturn(s.filters, ev, true, |s.filters|)
    ensures x.path.Delivered? <==>
              && s.active && ev.eventType == s.eventType
              && AllReturn(s.expiries, s.Observed(), false, |s.expiries|)
              && AllReturn(s.filters, ev, true, |s.filters|)
              && s.handler(ev).Completed()
    ensures x.path.Delivered? ==> x.event == ev.After(s.handler(ev)) && x.escaped.None?
    // a throwing handler goes to the error action, with the event as it left the handler
    ensures x.path.HandlerRaised? ==>
              && s.handler(ev).failure == Some(x.path.failure)
              && var handled := ev.After(s.handler(ev));
                 && x.event == handled.After(s.onError(handled, x.path.failure))
                 && x.escaped == s.onError(handled, x.path.failure).failure
    ensures x.escaped.Some? ==> x.path.CastRejected? || x.path.ExpiryRaised? || x.path.ReportedError()
  {
    if !s.active then Execution(s, ev, SkippedInactive, None)
    else if ev.eventType != s.eventType then Execution(s, ev, CastRejected, Some(ClassCast))
    else
      match ScanAll(s.expiries, s.Observed(), true)
      case StopAt(i) => Execution(s.(active := false), ev, ExpiredBy(i), None)
      case RaisedAt(i, f) => Execution(s, ev, ExpiryRaised(i, f), Some(f))
      case Clear =>
        match ScanAll(s.filters, ev, false)
        case StopAt(i) => Execution(s, ev, FilteredBy(i), None)
        case RaisedAt(i, f) => Report(s, ev, f, FilterRaised(i, f))
        case Clear =>
          var run := s.handler(ev);
          if run.failure.None? then Execution(s.(callCount := s.callCount + 1), ev.After(run), Delivered, None)
          else Report(s, ev.After(run), run.failure.value, HandlerRaised(run.failure.value))
  }

  // ---------------------------------------------------------------------------
  // Repeated execution of one subscription

  /** The subscription after executing it on each event in turn, and the paths taken. */
  datatype History = History(sub: Subscription, paths: seq<Path>)

  function Replay(s: Subscription, evs: seq<Event>): (h: History)
    ensures |h.paths| == |evs|
    ensures h.sub.SameConfig(s)
    decreases |evs|
  {
    if |evs| == 0 then History(s, [])
    else
      var x := Execute(s, evs[0]);
      var rest := Replay(x.sub, evs[1..]);
      History(rest.sub, [x.path] + rest.paths)
  }

  /** Number of `Delivered` paths. */
  function Deliveries(paths: seq<Path>): (n: nat)
    ensures n <= |paths|
  {
    if |paths| == 0 then 0
    else (if paths[0].Delivered? then 1 else 0) + Deliveries(paths[1..])
  }

  /** The counter counts exactly the normal handler returns; it never decreases. */
  lemma {:induction false} CounterCountsDeliveries(s: Subscription, evs: seq<Event>)
    ensures Replay(s, evs).sub.callCount == s.callCount + Deliveries(Replay(s, evs).paths)
    ensures Replay(s, evs).sub.callCount >= s.callCount
    decreases |evs|
  {
    if |evs| > 0 {
      CounterCountsDeliveries(Execute(s, evs[0]).sub, evs[1..]);
    }
  }

  /** Inactive is terminal: once inactive, every later execution only asks to be
      unregistered, and nothing changes. */
  lemma {:induction false} InactiveIsTerminal(s: Subscription, evs: seq<Event>)
    requires !s.active
    ensures Replay(s, evs).sub == s
    ensures forall i :: 0 <= i < |evs| ==> Replay(s, evs).paths[i] == SkippedInactive
  {
    if |evs| > 0 {
      InactiveIsTerminal(s, evs[1..]);
    }
  }

  /** No execution sequence sets the active flag back to true. */
  lemma {:induction false} NeverReactivated(s: Subscription, evs: seq<Event>)
    ensures Replay(s, evs).sub.active ==> s.active
    ensures Replay(s, evs).sub.active ==> forall i :: 0 <= i < |evs| ==> !Replay(s, evs).paths[i].ExpiredBy?
    decreases |evs|
  {
    if |evs| > 0 {
      NeverReactivated(Execute(s, evs[0]).sub, evs[1..]);
    }
  }
}
