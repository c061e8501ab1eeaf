/**
 * The abstract events that flow through the bus, and the outcomes of the
 * user-supplied code (filters, expiries, handlers, error actions) that the
 * core calls. Java exceptions become `Failure` values.
 */
module EventModel {
  import opened Wrappers

  /** The runtime class of an event, as a tag. */
  type EventType = string

  /** The mutable part of an event: the cancelled flag (meaningful only for a
      Cancellable event) and the event's own integer fields. */
  datatype EventState = EventState(cancelled: bool, fields: map<string, int>) {

    /** The integer field `name`, with Java's default of 0 when never assigned. */
    function Field(name: string): int {
      if name in fields then fields[name] else 0
    }

    /** This state after assigning `v` to field `name`. */
    function WithField(name: string, v: int): (s: EventState)
      ensures s.Field(name) == v
      ensures forall other :: other != name ==> s.Field(other) == Field(other)
      ensures s.cancelled == cancelled
    {
      this.(fields := fields[name := v])
    }
  }

  /** An event instance: its class, whether that class is Cancellable (both
      fixed for the object's lifetime) and its mutable state. */
  datatype Event = Event(eventType: EventType, cancellable: bool, state: EventState) {

    function Field(name: string): int {
      state.Field(name)
    }

    /** Whether the event is Cancellable and has been cancelled. */
    predicate IsCancelled() {
      cancellable && state.cancelled
    }

    /** The same event object after an action left its state as `run` says. */
    function After(run: Run): (e: Event)
      ensures e.eventType == eventType && e.cancellable == cancellable && e.state == run.state
    {
      this.(state := run.state)
    }
  }

  /** A throwable: the ClassCastException raised by a failed cast, or anything
      raised by user code. */
  datatype Failure = ClassCast | Thrown(reason: string)

  /** What a predicate (filter or expiry) does when tested: return a value or throw. */
  datatype Verdict<+T> = Returns(value: T) | Throws(failure: Failure)

  /** What a handler or error action does: the event state as the action left
      it, and the throwable it raised, if any (changes made before a throw stay). */
  datatype Run = Run(state: EventState, failure: Option<Failure>) {
    predicate Completed() { failure.None? }
  }
}
