/** One subscriber's bounded queue between the engine thread and its pump thread. */
module StreamSlot {

  datatype EvictionReason = NotEvicted | SlowConsumer | Canceled | Fault

  /** What the slot holds. A payload is represented by T. */
  datatype Slot<T> = Slot(queue: seq<T>, eviction: EvictionReason, dropped: nat)

  predicate Accepts<T>(s: Slot<T>, capacity: nat) {
    s.eviction.NotEvicted? && |s.queue| < capacity
  }

  function Pushed<T>(s: Slot<T>, capacity: nat, x: T): Slot<T> {
    if Accepts(s, capacity) then s.(queue := s.queue + [x])
    else if s.eviction.NotEvicted? then s.(dropped := s.dropped + 1)
    else s
  }

  /** Only the first eviction counts. */
  function Evicted<T>(s: Slot<T>, reason: EvictionReason): Slot<T> {
    if s.eviction.NotEvicted? then s.(eviction := reason) else s
  }

  class SubscriberSlot<T> {
    const capacity: nat
    var queue: seq<T>
    var eviction: EvictionReason
    var dropped: nat

    /** The queue never outgrows the capacity. */
    ghost predicate Valid()
      reads this
    {
      |queue| <= capacity
    }

    ghost function State(): Slot<T>
      reads this
    {
      Slot(queue, eviction, dropped)
    }

    constructor (capacity: nat)
      ensures Valid() && State() == Slot([], NotEvicted, 0) && this.capacity == capacity
    {
      this.capacity := capacity;
      queue, eviction, dropped := [], NotEvicted, 0;
    }

    method TryPush(payload: T) returns (ok: bool)
      requires Valid()
      modifies this
      ensures Valid() && State() == Pushed(old(State()), capacity, payload)
      ensures ok <==> eviction.NotEvicted? && |old(queue)| < capacity
      ensures queue == (if ok then old(queue) + [payload] else old(queue)) && eviction == old(eviction)
      ensures dropped == old(dropped) + if !ok && eviction.NotEvicted? then 1 else 0
    {
      if !eviction.NotEvicted? {
        return false;
      }
      if |queue| >= capacity {
        dropped := dropped + 1;
        return false;
      }
      queue := queue + [payload];
      return true;
    }

    /** The step the consumer takes once it is woken; got is false when evicted and drained. */
    method BlockingPop(fallback: T) returns (got: bool, payload: T)
      requires Valid() && (queue != [] || !eviction.NotEvicted?)
      modifies this
      ensures Valid()
      ensures got <==> old(queue) != []
      ensures got ==> [payload] + queue == old(queue)
      ensures !got ==> queue == [] && !eviction.NotEvicted?
      ensures eviction == old(eviction) && dropped == old(dropped)
    {
      if queue != [] {
        payload := queue[0];
        queue := queue[1..];
        return true, payload;
      }
      return false, fallback;
    }

    method Evict(reason: EvictionReason)
      requires Valid()
      modifies this
      ensures Valid() && State() == Evicted(old(State()), reason)
      ensures eviction == (if old(eviction).NotEvicted? then reason else old(eviction))
      ensures queue == old(queue) && dropped == old(dropped)
    {
      if eviction.NotEvicted? {
        eviction := reason;
      }
    }
  }
}
