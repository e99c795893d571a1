/** `queue.Queue` (internal/queue/queue.go) as an object whose methods update
    its fields in place. `Put` and `Get` are each one critical section of the
    source; `Await` is the caller's `select`, which holds no lock. Each method
    is proved to perform exactly the step `QueueSpec` defines. */
module Queues {
  import opened Types
  import QueueSpec

  class Queue {
    var items: seq<Message>
    var subscribers: seq<WaiterId>
    const maxMessages: int
    /** The value buffered in each served waiter's channel. */
    var slots: map<WaiterId, Message>
    /** The next fresh channel identity. */
    var nextWaiter: WaiterId
    /** The waiters whose caller is still blocked in its `select`. */
    ghost var pending: set<WaiterId>

    ghost function Abs(): QueueSpec.QState
      reads this
    {
      QueueSpec.QState(items, subscribers, slots, pending, nextWaiter, maxMessages)
    }

    ghost predicate Valid()
      reads this
    {
      QueueSpec.Inv(Abs())
    }

    /** `queue.New(max)`. */
    constructor (max: int)
      ensures Valid()
      ensures Abs() == QueueSpec.New(max)
    {
      items := [];
      subscribers := [];
      maxMessages := max;
      slots := map[];
      nextWaiter := 0;
      pending := {};
    }

    /** `Queue.Put`: hand the message to the oldest waiter, or buffer it
        within the cap. */
    method Put(m: Message) returns (r: PutOutcome)
      modifies this
      ensures old(Valid()) ==> Valid()
      ensures (r, Abs()) == QueueSpec.Put(old(Abs()), m)
    {
      if Valid() {
        QueueSpec.PutKeepsInv(Abs(), m);
      }
      if |subscribers| > 0 {
        var w := subscribers[0];
        subscribers := subscribers[1..];
        slots := slots[w := m];
        return Accepted;
      }
      if maxMessages > 0 && |items| >= maxMessages {
        return Rejected(MessageLimitExceeded);
      }
      items := items + [m];
      r := Accepted;
    }

    /** The part of `Queue.Get` done under the mutex: pop the head, or
        register a fresh waiter at the tail of the line. */
    method Get() returns (r: GetStart)
      modifies this
      ensures old(Valid()) ==> Valid()
      ensures (r, Abs()) == QueueSpec.Get(old(Abs()))
    {
      if Valid() {
        QueueSpec.GetKeepsInv(Abs());
      }
      if |items| > 0 {
        var m := items[0];
        items := items[1..];
        return Popped(m);
      }
      var w := nextWaiter;
      nextWaiter := nextWaiter + 1;
      subscribers := subscribers + [w];
      pending := pending + {w};
      r := Registered(w);
    }

    /** The `select` of a blocked `Queue.Get`: receive from the slot, or give
        up with the context's error without leaving the line. */
    method Await(w: WaiterId, fired: Option<CtxErr>, ctxFirst: bool) returns (r: WaitOutcome)
      requires w in pending
      modifies this
      ensures old(Valid()) ==> Valid()
      ensures (r, Abs()) == QueueSpec.Await(old(Abs()), w, fired, ctxFirst)
    {
      if Valid() {
        QueueSpec.AwaitKeepsInv(Abs(), w, fired, ctxFirst);
      }
      if w in slots && (fired.None? || !ctxFirst) {
        var m := slots[w];
        slots := slots - {w};
        pending := pending - {w};
        return Received(m);
      }
      if fired.Some? {
        pending := pending - {w};
        return Failed(fired.value);
      }
      r := Blocked;
    }
  }
}
