/** `broker.Broker` (internal/broker/broker.go) as an object holding a map
    from names to `Queue` objects. Each method is proved to perform exactly
    the step `BrokerSpec` defines. `Put` and `Get` each run two critical
    sections of the source (the registry's lock, then the queue's own) back
    to back; `Await` is the caller's `select`, which holds no lock. */
module Brokers {
  import opened Types
  import QueueSpec
  import BrokerSpec
  import opened Queues

  class Broker {
    var queues: map<string, Queue>
    const maxQueues: int
    const qMaxMessages: int

    ghost function Abs(): BrokerSpec.BState
      reads this, queues.Values
    {
      BrokerSpec.BState(map n | n in queues :: queues[n].Abs(), maxQueues, qMaxMessages)
    }

    /** Every queue has the per-queue cap, no queue object is shared by two
        names, and a positive cap bounds the number of names. */
    ghost predicate Valid()
      reads this, queues.Values
    {
      && (forall n | n in queues :: queues[n].maxMessages == qMaxMessages)
      && (forall n, n' | n in queues && n' in queues && n != n' :: queues[n] != queues[n'])
      && (maxQueues > 0 ==> |queues| <= maxQueues)
    }

    /** With every queue valid as well, the broker's value keeps the
        registry's invariant. Since each method performs exactly a
        `BrokerSpec` step, and `BrokerSpec` proves that every step keeps
        that invariant, queue validity is tracked on the abstract value. */
    lemma ValidKeepsInv()
      requires Valid()
      requires forall n | n in queues :: queues[n].Valid()
      ensures BrokerSpec.Inv(Abs())
    {
      assert Abs().queues.Keys == queues.Keys;
    }

    /** `broker.New(maxQ, maxPerQ)`. */
    constructor (maxQ: int, maxPerQ: int)
      ensures Valid()
      ensures Abs() == BrokerSpec.New(maxQ, maxPerQ)
    {
      queues := map[];
      maxQueues := maxQ;
      qMaxMessages := maxPerQ;
    }

    /** `Broker.getOrCreate`: the present queue, or a new one within the cap. */
    method GetOrCreate(name: string) returns (q: Queue?)
      requires Valid()
      modifies this
      ensures Valid()
      ensures old(queues).Keys <= queues.Keys
      ensures forall n | n in old(queues) :: queues[n] == old(queues)[n]
      ensures q != null ==> name in queues && queues[name] == q
      ensures q != null && name !in old(queues) ==> fresh(q)
      ensures BrokerSpec.GetOrCreate(old(Abs()), name) ==
        (if q == null then Err(QueueLimitExceeded) else Ok(q.Abs()), Abs())
    {
      if name in queues {
        return queues[name];
      }
      assert Abs().queues.Keys == queues.Keys;
      if maxQueues > 0 && |queues| >= maxQueues {
        return null;
      }
      ghost var before := Abs();
      q := Insert(name);
      OnlyOneQueueChanged(name, q, before);
    }

    /** The creating branch of `Broker.getOrCreate`. */
    method Insert(name: string) returns (q: Queue)
      requires Valid()
      requires name !in queues
      requires maxQueues > 0 ==> |queues| < maxQueues
      modifies this
      ensures Valid()
      ensures fresh(q)
      ensures queues == old(queues)[name := q]
      ensures q.Abs() == QueueSpec.New(qMaxMessages)
    {
      q := new Queue(qMaxMessages);
      queues := queues[name := q];
    }

    /** `Broker.Put`: resolve or create the queue, then `Queue.Put` on it. */
    method Put(name: string, m: Message) returns (r: PutOutcome)
      requires Valid()
      modifies this, queues.Values
      ensures Valid()
      ensures (r, Abs()) == BrokerSpec.Put(old(Abs()), name, m)
    {
      var q := GetOrCreate(name);
      if q == null {
        return Rejected(QueueLimitExceeded);
      }
      ghost var before := Abs();
      r := q.Put(m);
      OnlyOneQueueChanged(name, q, before);
    }

    /** The fast path of `Broker.Get`: a present name delegates to
        `Queue.Get`; an unknown name leaves the broker for the polling branch. */
    method Get(name: string) returns (r: GetStart)
      requires Valid()
      modifies queues.Values
      ensures Valid()
      ensures (r, Abs()) == BrokerSpec.Get(old(Abs()), name)
    {
      if name !in queues {
        return PollForQueue;
      }
      var q := queues[name];
      ghost var before := Abs();
      r := q.Get();
      OnlyOneQueueChanged(name, q, before);
    }

    /** The `select` of a consumer blocked in the queue under `name`. */
    method Await(name: string, w: WaiterId, fired: Option<CtxErr>, ctxFirst: bool) returns (r: WaitOutcome)
      requires Valid()
      requires name in queues && w in queues[name].pending
      modifies queues.Values
      ensures Valid()
      ensures (r, Abs()) == BrokerSpec.Await(old(Abs()), name, w, fired, ctxFirst)
    {
      var q := queues[name];
      ghost var before := Abs();
      r := q.Await(w, fired, ctxFirst);
      OnlyOneQueueChanged(name, q, before);
    }

    /** After a step that changed only the queue object under `name`, the
        broker's value is the former one with that entry replaced. */
    lemma OnlyOneQueueChanged(name: string, q: Queue, before: BrokerSpec.BState)
      requires name in queues && queues[name] == q
      requires before.maxQueues == maxQueues && before.qMaxMessages == qMaxMessages
      requires queues.Keys == before.queues.Keys + {name}
      requires forall n | n in queues && n != name :: n in before.queues && before.queues[n] == queues[n].Abs()
      ensures Abs() == before.(queues := before.queues[name := q.Abs()])
    {
    }
  }
}
