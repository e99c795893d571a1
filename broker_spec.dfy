/** The registry of package `broker` (internal/broker/broker.go) as a state
    machine on values: a map from queue names to queues that grows lazily,
    is capped by `maxQueues`, and never shrinks. */
module BrokerSpec {
  import opened Types
  import QueueSpec

  /** The abstract value of a `broker.Broker`; a cap of zero or less means
      unlimited. */
  datatype BState = BState(
    queues: map<string, QueueSpec.QState>,
    maxQueues: int,
    qMaxMessages: int)

  /** No new name may be added: the cap is positive and already reached. */
  predicate Full(b: BState) {
    b.maxQueues > 0 && |b.queues| >= b.maxQueues
  }

  /** The invariant every reachable broker keeps. */
  predicate Inv(b: BState) {
    && (b.maxQueues > 0 ==> |b.queues| <= b.maxQueues)
    && forall n | n in b.queues ::
         QueueSpec.Inv(b.queues[n]) && b.queues[n].maxMessages == b.qMaxMessages
  }

  /** `broker.New(maxQ, maxPerQ)`. */
  function New(maxQ: int, maxPerQ: int): (b: BState)
    ensures Inv(b) && b.queues == map[]
    ensures b.maxQueues == maxQ && b.qMaxMessages == maxPerQ
  {
    BState(map[], maxQ, maxPerQ)
  }

  /** The queue a successful lookup of `name` resolves to: the present one,
      or a new empty one with the per-queue cap. */
  function Resolved(b: BState, name: string): QueueSpec.QState {
    if name in b.queues then b.queues[name] else QueueSpec.New(b.qMaxMessages)
  }

  /** `Broker.getOrCreate`. */
  function GetOrCreate(b: BState, name: string): (r: (Result<QueueSpec.QState, Limit>, BState))
    // a present name: its queue, no limit check, nothing changes
    ensures name in b.queues ==> r == (Ok(b.queues[name]), b)
    // an unknown name at the cap: refused, nothing changes
    ensures name !in b.queues && Full(b) ==> r == (Err(QueueLimitExceeded), b)
    // otherwise a new empty queue under the name; every other entry unchanged
    ensures name !in b.queues && !Full(b) ==>
      && r.0 == Ok(QueueSpec.New(b.qMaxMessages))
      && r.1 == b.(queues := b.queues[name := QueueSpec.New(b.qMaxMessages)])
    ensures b.queues.Keys <= r.1.queues.Keys
  {
    if name in b.queues then
      (Ok(b.queues[name]), b)
    else if Full(b) then
      (Err(QueueLimitExceeded), b)
    else
      var q := QueueSpec.New(b.qMaxMessages);
      (Ok(q), b.(queues := b.queues[name := q]))
  }

  /** `Broker.Put`. */
  function Put(b: BState, name: string, m: Message): (r: (PutOutcome, BState))
    // the queue-count failure happens exactly for an unknown name at the cap,
    // and touches nothing
    ensures r.0 == Rejected(QueueLimitExceeded) <==> name !in b.queues && Full(b)
    ensures r.0 == Rejected(QueueLimitExceeded) ==> r.1 == b
    // otherwise the outcome and the new queue are those of `Queue.Put` on
    // the resolved queue, and no other entry changes
    ensures r.0 != Rejected(QueueLimitExceeded) ==>
      && name in r.1.queues
      && (r.0, r.1.queues[name]) == QueueSpec.Put(Resolved(b, name), m)
      && r.1.queues - {name} == b.queues - {name}
      && r.1.maxQueues == b.maxQueues && r.1.qMaxMessages == b.qMaxMessages
    ensures b.queues.Keys <= r.1.queues.Keys
  {
    var (res, b1) := GetOrCreate(b, name);
    match res
    case Err(e) => (Rejected(e), b1)
    case Ok(_) => PutOnQueue(b1, name, m)
  }

  /** The second critical section of `Broker.Put`: `Queue.Put` under the
      queue's own lock, on the queue that `getOrCreate` returned. The
      registry's lock is released in between, so other calls on the same
      queue may run after `GetOrCreate` and before this step. */
  function PutOnQueue(b: BState, name: string, m: Message): (r: (PutOutcome, BState))
    requires name in b.queues
    ensures name in r.1.queues
    ensures (r.0, r.1.queues[name]) == QueueSpec.Put(b.queues[name], m)
    ensures r.1.queues - {name} == b.queues - {name}
    ensures b.queues.Keys == r.1.queues.Keys
    ensures r.1.maxQueues == b.maxQueues && r.1.qMaxMessages == b.qMaxMessages
  {
    var (o, q1) := QueueSpec.Put(b.queues[name], m);
    (o, b.(queues := b.queues[name := q1]))
  }

  /** The fast path of `Broker.Get`: a present name behaves as `Queue.Get` on
      its queue; an unknown name sends the caller to the polling branch, which
      only reads the map. */
  function Get(b: BState, name: string): (r: (GetStart, BState))
    ensures name !in b.queues ==> r == (PollForQueue, b)
    ensures name in b.queues ==>
      && name in r.1.queues
      && (r.0, r.1.queues[name]) == QueueSpec.Get(b.queues[name])
      && r.1.queues - {name} == b.queues - {name}
      && r.1.maxQueues == b.maxQueues && r.1.qMaxMessages == b.qMaxMessages
    ensures b.queues.Keys == r.1.queues.Keys
  {
    if name in b.queues then
      var (g, q1) := QueueSpec.Get(b.queues[name]);
      (g, b.(queues := b.queues[name := q1]))
    else
      (PollForQueue, b)
  }

  /** The `select` of a consumer blocked in the queue it found on the fast
      path. */
  function Await(b: BState, name: string, w: WaiterId, fired: Option<CtxErr>, ctxFirst: bool): (r: (WaitOutcome, BState))
    requires name in b.queues && w in b.queues[name].pending
    ensures name in r.1.queues
    ensures (r.0, r.1.queues[name]) == QueueSpec.Await(b.queues[name], w, fired, ctxFirst)
    ensures r.1.queues - {name} == b.queues - {name}
    ensures b.queues.Keys == r.1.queues.Keys
    ensures r.1.maxQueues == b.maxQueues && r.1.qMaxMessages == b.qMaxMessages
  {
    var (o, q1) := QueueSpec.Await(b.queues[name], w, fired, ctxFirst);
    (o, b.(queues := b.queues[name := q1]))
  }

  // ---------------------------------------------------------------------
  // The invariant is kept by every step

  /** Storing a valid queue with the per-queue cap under a present name, or
      under a new name below the cap, keeps the invariant. */
  lemma StoreKeepsInv(b: BState, name: string, q: QueueSpec.QState)
    requires Inv(b) && QueueSpec.Inv(q) && q.maxMessages == b.qMaxMessages
    requires name in b.queues || !Full(b)
    ensures Inv(b.(queues := b.queues[name := q]))
  {
  }

  /** getOrCreate keeps the cap on the number of names and creates queues
      with the per-queue cap. */
  lemma GetOrCreateKeepsInv(b: BState, name: string)
    requires Inv(b)
    ensures Inv(GetOrCreate(b, name).1)
  {
    if name !in b.queues && !Full(b) {
      StoreKeepsInv(b, name, QueueSpec.New(b.qMaxMessages));
    }
  }

  /** Put keeps the invariant. */
  lemma PutKeepsInv(b: BState, name: string, m: Message)
    requires Inv(b)
    ensures Inv(Put(b, name, m).1)
  {
    if !(name !in b.queues && Full(b)) {
      var q := Resolved(b, name);
      QueueSpec.PutKeepsInv(q, m);
      var q1 := QueueSpec.Put(q, m).1;
      StoreKeepsInv(b, name, q1);
      assert Put(b, name, m).1 == b.(queues := b.queues[name := q1]);
    }
  }

  /** Get keeps the invariant. */
  lemma GetKeepsInv(b: BState, name: string)
    requires Inv(b)
    ensures Inv(Get(b, name).1)
  {
    if name in b.queues {
      QueueSpec.GetKeepsInv(b.queues[name]);
      StoreKeepsInv(b, name, QueueSpec.Get(b.queues[name]).1);
    }
  }

  /** Await keeps the invariant. */
  lemma AwaitKeepsInv(b: BState, name: string, w: WaiterId, fired: Option<CtxErr>, ctxFirst: bool)
    requires Inv(b) && name in b.queues && w in b.queues[name].pending
    ensures Inv(Await(b, name, w, fired, ctxFirst).1)
  {
    QueueSpec.AwaitKeepsInv(b.queues[name], w, fired, ctxFirst);
    StoreKeepsInv(b, name, QueueSpec.Await(b.queues[name], w, fired, ctxFirst).1);
  }

  // ---------------------------------------------------------------------
  // Scenarios

  /** On a new broker, a Put creates the queue and stores the message, and a
      Get on the same name returns it at once. */
  lemma PutThenGetOnNewBroker(maxQ: int, maxPerQ: int, name: string, m: Message)
    ensures Put(New(maxQ, maxPerQ), name, m).0 == Accepted
    ensures Get(Put(New(maxQ, maxPerQ), name, m).1, name).0 == Popped(m)
  {
  }

  /** With a cap of one message per queue and no queue cap: Put "x" succeeds,
      Put "y" fails on the message limit, Get returns "x", Put "y" now
      succeeds, and Get returns "y". */
  lemma MessageLimitScenario(name: string, x: Message, y: Message)
    ensures var b0 := New(0, 1);
      var p1 := Put(b0, name, x);
      var p2 := Put(p1.1, name, y);
      var g1 := Get(p2.1, name);
      var p3 := Put(g1.1, name, y);
      var g2 := Get(p3.1, name);
      && p1.0 == Accepted
      && p2.0 == Rejected(MessageLimitExceeded)
      && g1.0 == Popped(x)
      && p3.0 == Accepted
      && g2.0 == Popped(y)
  {
    var b0 := New(0, 1);
    var p1 := Put(b0, name, x);
    assert p1.1.queues[name].items == [x];
    var p2 := Put(p1.1, name, y);
    assert p2.1 == p1.1;
    var g1 := Get(p2.1, name);
    assert g1.1.queues[name].items == [];
    var p3 := Put(g1.1, name, y);
    assert p3.1.queues[name].items == [y];
  }

  /** Between the two sections of the first `Put` on a name, a consumer on
      the fast path of `Get` finds the queue `getOrCreate` has just created,
      registers, and gives up when its context fires, staying in line. The
      `Queue.Put` that follows then succeeds into the slot of that returned
      caller and buffers nothing, whereas a `Put` run without the
      interleaving would have buffered the message. */
  lemma GetBetweenPutSections(maxQ: int, maxPerQ: int, name: string, m: Message, e: CtxErr, ctxFirst: bool)
    ensures var c := GetOrCreate(New(maxQ, maxPerQ), name);
      && c.0 == Ok(QueueSpec.New(maxPerQ))
      && var g := Get(c.1, name);
      && g.0 == Registered(0)
      && var x := Await(g.1, name, 0, Some(e), ctxFirst);
      && x.0 == Failed(e)
      && var p := PutOnQueue(x.1, name, m);
      && p.0 == Accepted
      && p.1.queues[name].items == []
      && 0 in p.1.queues[name].slots && p.1.queues[name].slots[0] == m
      && 0 !in p.1.queues[name].pending
    ensures Put(New(maxQ, maxPerQ), name, m).1.queues[name].items == [m]
  {
    var c := GetOrCreate(New(maxQ, maxPerQ), name);
    var g := Get(c.1, name);
    assert g.1.queues[name].subscribers == [0];
    var x := Await(g.1, name, 0, Some(e), ctxFirst);
    assert x.1.queues[name].subscribers == [0];
  }

  /** The registry never deletes a name: with a cap of one queue, a name that
      was used and then drained still occupies the only place, so a second
      name is refused for good. */
  lemma DrainedNameStillCounts(a: string, c: string, m: Message, m': Message)
    requires a != c
    ensures var b0 := New(1, 0);
      var p1 := Put(b0, a, m);
      var g1 := Get(p1.1, a);
      && p1.0 == Accepted
      && g1.0 == Popped(m)
      && a in g1.1.queues && g1.1.queues[a].items == [] && g1.1.queues[a].subscribers == []
      && Put(g1.1, c, m').0 == Rejected(QueueLimitExceeded)
  {
    var b0 := New(1, 0);
    var p1 := Put(b0, a, m);
    assert p1.1.queues.Keys == {a} && p1.1.queues[a].items == [m];
    var g1 := Get(p1.1, a);
    assert g1.1.queues.Keys == {a};
    assert Full(g1.1);
  }
}
