/**
 * The six dispatch priorities of the event system. Each priority owns a slot,
 * and slots fix both the bucket a subscription lives in and the order in which
 * buckets are flattened for dispatch (ascending, MONITOR last).
 */
module EventPriority {

  /** Number of priority levels, and so of buckets in every handler list. */
  const Count: nat := 6

  datatype Priority = Lowest | Low | Normal | High | Highest | Monitor {

    /** The slot given to the constant at its declaration. */
    function Slot(): (s: nat)
      ensures s < Count
    {
      match this
      case Lowest => 0
      case Low => 1
      case Normal => 2
      case High => 3
      case Highest => 4
      case Monitor => 5
    }
  }

  /** The constants in declaration order. */
  const Declared: seq<Priority> := [Lowest, Low, Normal, High, Highest, Monitor]

  /** The priority owning a given slot: the inverse of `Slot`. */
  function FromSlot(k: nat): (p: Priority)
    requires k < Count
    ensures p.Slot() == k
  {
    Declared[k]
  }

  /** `FromSlot` undoes `Slot`, so distinct priorities have distinct slots. */
  lemma SlotRoundTrip(p: Priority)
    ensures FromSlot(p.Slot()) == p
  {
  }

  /** Slot `i` belongs to the `i`-th declared constant: slots increase strictly
      in declaration order and cover exactly 0..5. */
  lemma SlotsFollowDeclaration()
    ensures |Declared| == Count
    ensures forall i :: 0 <= i < |Declared| ==> Declared[i].Slot() == i
    ensures forall p: Priority :: p in Declared
    ensures forall p: Priority, q: Priority :: p.Slot() == q.Slot() ==> p == q
  {
    forall p: Priority
      ensures p in Declared
    {
      SlotRoundTrip(p);
    }
  }

  /** MONITOR has the greatest slot, so its bucket is flattened last. */
  lemma MonitorIsLast(p: Priority)
    ensures p.Slot() <= Monitor.Slot()
    ensures p != Monitor ==> p.Slot() < Monitor.Slot()
  {
  }
}
