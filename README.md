# queue-broker: a verified model of the queue engine

queue-broker is an HTTP message broker written in Go. Producers `PUT` a message
onto a named queue. Consumers `GET` from a named queue and may wait, up to a
deadline, for a message to arrive. This project models the engine behind those
calls. The engine exists in three versions, and each one is a small state
machine whose calls do their work in short sections under a mutex:

- **`queue.Queue`** (internal/queue/queue.go) is a single named queue. It holds
  a FIFO buffer of messages, a FIFO line of waiting consumers (one channel
  each), and an optional cap on the buffer. `Put` hands the message straight
  to the oldest waiter when there is one; otherwise it checks the cap and
  appends. `Get` pops the head of the buffer, or joins the line and blocks.
- **`broker.Broker`** (internal/broker/broker.go) is the registry. It maps
  names to queues, creates queues lazily, and caps the number of names. It
  never deletes a name, so a queue that has been drained still counts against
  the cap for good. Unlike `memory.Repo`, which deletes a queue once it is
  idle, the broker keeps every name (`BrokerSpec.DrainedNameStillCounts`).
  `Put` runs two critical sections: `getOrCreate` under the registry's lock,
  then `Queue.Put` under the queue's own lock.
- **`memory.Repo`** (internal/adapters/memory/repo.go) is a second engine that
  stands on its own. It keeps one map of items (buffer plus waiter line), and
  an `active` counter of the items that hold messages or waiters. The queue cap
  is checked only when an item turns from idle to active. An item is deleted
  as soon as it falls idle. The cancel path splices the caller's channel out of
  the line.

Each engine comes in two layers:

- A **spec module** (`QueueSpec`, `BrokerSpec`, `RepoSpec`) defines each
  operation as a pure step function on a datatype. The step returns the call's
  outcome and the new state. Lemmas in the same module prove the properties:
  - the invariant every step keeps;
  - FIFO order and exactly-once hand-off;
  - the limit checks, in both directions;
  - runs of several calls, and concrete scenarios.
- A **class module** (`Queues`, `Brokers`, `Memory`) is the imperative form.
  It is an object with the source's fields, updated in place. The methods that
  model a source call are the constructors, `Put`, `Get`, `Await`, `Enqueue`,
  `Dequeue` and `Brokers.Broker.GetOrCreate`. Each of them is one critical
  section of the source, with three kinds of exception:
  - `Brokers.Broker.Put` and `Brokers.Broker.Get` each run two sections back
    to back: the registry's lock, then the queue's own lock.
  - For `Get`, nothing is lost by this. A name, once present, keeps its queue
    object for good (`Brokers.Broker.GetOrCreate` keeps every old entry, and
    no step of `BrokerSpec` removes a key). So the queue the lookup finds is
    still the name's queue when `Queue.Get` runs.
  - The `Await` methods model the caller's `select`, which holds no lock.
    Only the cancel path of `Repo.Dequeue` takes the repository's lock again.

  Each of these methods is proved to perform exactly the spec step:
  `(r, Abs()) == Spec.Step(old(Abs()), …)`. It also keeps the class's
  `Valid()` invariant, except that `Memory.Repo.Await` keeps it only outside
  the race described below (see "## Left out").

  The helper methods `Memory.Repo.Cleanup`, `Memory.Repo.GetOrCreate`,
  `Memory.Repo.Subscribe` and `Brokers.Broker.Insert` are pieces of one
  section. They take no lock of their own and promise only their spec step.
  `Cleanup` cannot keep `Valid()` on its own, because the counter it lowers
  is kept exact only by the call around it.

**Blocking.** A blocking `Get`/`Dequeue` is split into two steps:

- The first step, done under the lock, either returns a message
  (`Popped`), refuses on the queue cap (`Refused`), or registers a fresh
  waiter id (`Registered(w)`).
- The caller's later `select` is the `Await` step. Its parameters say what
  the context reports (`fired`: nothing yet, `Canceled`, or
  `DeadlineExceeded`). They also give the scheduler's choice when both the
  channel and the context are ready (`ctxFirst`), since Go's `select` picks
  at random between ready cases.
- Each waiter's channel has a one-message buffer. It is modelled as a slot in
  `slots: map<WaiterId, Message>`, filled by a hand-off. `pending` holds the
  callers still blocked in their `select`.

**Source behaviour kept as written.** Each case is proved as a lemma:

- `Queue.Get`'s context branch does not take its waiter out of the line. A
  later `Put` hands its message to a caller that has already returned, and the
  message is lost (`QueueSpec.CanceledWaiterSwallowsNextPut`).
- Both `Repo` queue-limit failures leave an empty entry for the name in the
  map (`RepoSpec.QueueLimitLeavesEmptyEntry`, and the `Enqueue`/`Dequeue`
  contracts).
- `Repo`'s cancel path runs `cleanup` on the name's item even when the waiter
  is no longer in its line. Suppose a hand-off has already filled the waiter's
  slot, the scheduler takes the context branch, and the name now holds an
  empty entry left by a refused call. Then `cleanup` deletes that entry, which
  was never counted. `active` drops one below the number of active queues.
  The cap can then be passed, and the delivered message is lost:
  - `RepoSpec.StaleCancelUndercounts` proves this step;
  - `RepoSpec.RaceBypassesQueueCap` gives a complete trace under a cap of one;
  - every other step keeps the invariant, and `RepoSpec.RunKeepsInv` shows the
    cap holds along any run that avoids this race.

## Model

| member | source | states |
|---|---|---|
| QueueSpec.New | internal/queue/queue.go:20 | a new queue has an empty buffer and line, no blocked callers, the given cap, and satisfies the invariant |
| QueueSpec.Put | internal/queue/queue.go:22-39 | fails exactly when nobody waits and a positive cap is reached, with nothing changed; with a waiter, removes the oldest one and fills its slot without touching the buffer, even at the cap; otherwise appends at the tail and changes nothing else |
| QueueSpec.Get | internal/queue/queue.go:41-52 | a non-empty buffer: returns and removes its head and registers nobody; an empty buffer: one new waiter joins the tail of the line and blocks, and the buffer is unchanged |
| QueueSpec.Await | internal/queue/queue.go:54-59 | the caller receives exactly when its slot is filled and the scheduler does not pick the context, and then gets the slot's message; it fails with the context's error exactly otherwise when the context fired, and then stays in the line; else it stays blocked with nothing changed |
| QueueSpec.PutKeepsInv | internal/queue/queue.go:26-38 | Put keeps the invariant: never a backlog and waiters at once, a positive cap bounds the buffer, and waiters are distinct with empty slots |
| QueueSpec.GetKeepsInv | internal/queue/queue.go:43-52 | Get keeps the invariant, and the waiter it registers is fresh: not in the line, no slot, not blocked |
| QueueSpec.AwaitKeepsInv | internal/queue/queue.go:54-59 | the resolution of a blocked caller keeps the invariant |
| QueueSpec.PutAll | internal/queue/queue.go:22-39 | definition: Puts of each message in turn, one outcome per message; its properties are `PutAllBuffers`, `PutAllHandsOff` and `Fifo` |
| QueueSpec.GetAll | internal/queue/queue.go:41-52 | definition: n Gets in turn, one result each; its properties are `GetAllPops` and `Fifo` |
| QueueSpec.Pops | internal/queue/queue.go:43-48 | definition: the reference results of Gets that each pop the i-th message, against which `GetAllPops` and `Fifo` compare |
| QueueSpec.PutAllBuffers | internal/queue/queue.go:34-38 | with nobody waiting and room for all, Puts all succeed and append the messages in order, changing nothing else |
| QueueSpec.GetAllPops | internal/queue/queue.go:43-48 | n Gets on a buffer of at least n messages return its first n in order and leave the rest |
| QueueSpec.Fifo | internal/queue/queue_test.go:52-67 | on a new queue, N Puts then N Gets return the messages in Put order and leave the queue as new |
| QueueSpec.PutAllHandsOff | internal/queue/queue.go:26-32 | with waiters in line, successive Puts all succeed and serve the waiters in registration order, one message each, without touching the buffer or any earlier delivery |
| QueueSpec.HandOffIsExactlyOnce | internal/queue/queue_test.go:162-194 | a hand-off fills only the oldest waiter's empty slot, the buffer stays empty, and the next Get must wait |
| QueueSpec.CanceledWaiterSwallowsNextPut | internal/queue/queue.go:57-58 | a cancelled Get stays in line, so the next Put succeeds into the slot of a caller that has returned, the buffer stays empty, and the next Get must wait |
| Queues.Queue.constructor | internal/queue/queue.go:20 | the new object is valid and its value is `QueueSpec.New` |
| Queues.Queue.Put | internal/queue/queue.go:22-39 | the in-place update performs exactly `QueueSpec.Put` and keeps the invariant |
| Queues.Queue.Get | internal/queue/queue.go:41-52 | the in-place update performs exactly `QueueSpec.Get`, the locked first half of `Queue.Get`, and keeps the invariant |
| Queues.Queue.Await | internal/queue/queue.go:54-59 | the `select` performs exactly `QueueSpec.Await` and keeps the invariant |
| BrokerSpec.New | internal/broker/broker.go:23-29 | a new broker has no names, the given caps, and satisfies the invariant |
| BrokerSpec.GetOrCreate | internal/broker/broker.go:31-44 | a present name: its queue, no limit check, nothing changes; an unknown name at a positive cap: the queue limit error, nothing changes; otherwise a new empty queue with the per-queue cap is added and every other entry is kept |
| BrokerSpec.Put | internal/broker/broker.go:46-52 | the queue limit error exactly for an unknown name at the cap, with nothing changed; otherwise the outcome and new queue are those of `Queue.Put` on the resolved queue, no other entry changes, and no name is removed; it is `GetOrCreate` followed by `PutOnQueue` |
| BrokerSpec.PutOnQueue | internal/broker/broker.go:51 | the second section of `Put`: outcome and new queue are those of `Queue.Put` on the named queue as it is now; no other entry, name or cap changes |
| BrokerSpec.GetBetweenPutSections | internal/broker/broker.go:46-62 | a fast-path Get that registers between the two sections of the first Put on a name and then gives up makes that Put succeed into a returned caller's slot with nothing buffered, while the Put without the interleaving buffers the message |
| BrokerSpec.Get | internal/broker/broker.go:57-62 | a present name behaves as `Queue.Get` on its queue and no other entry changes; an unknown name goes to polling with nothing changed |
| BrokerSpec.Await | internal/queue/queue.go:54-59 | a consumer blocked in a broker's queue resolves as `Queue.Await` on that queue, and no other entry changes |
| BrokerSpec.StoreKeepsInv | internal/broker/broker.go:38-43 | storing a valid queue under a present name, or a new name below the cap, keeps the invariant |
| BrokerSpec.GetOrCreateKeepsInv | internal/broker/broker.go:38-43 | getOrCreate keeps the number of names within a positive cap, and every queue valid with the per-queue cap |
| BrokerSpec.PutKeepsInv | internal/broker/broker.go:46-52 | Put keeps the invariant |
| BrokerSpec.GetKeepsInv | internal/broker/broker.go:57-62 | the fast path of Get keeps the invariant |
| BrokerSpec.AwaitKeepsInv | internal/queue/queue.go:54-59 | the resolution of a consumer blocked in a broker's queue keeps the invariant |
| BrokerSpec.PutThenGetOnNewBroker | internal/broker/broker_test.go:29-39 | on a new broker a Put succeeds and a Get on the same name returns its message at once |
| BrokerSpec.MessageLimitScenario | internal/queue/queue.go:34-48 | with one message per queue: Put x succeeds, Put y fails on the message limit, Get returns x, Put y succeeds, Get returns y |
| BrokerSpec.DrainedNameStillCounts | internal/broker/broker.go:31-44 | with a cap of one queue, a name that was used and drained keeps its empty entry, and a second name is refused |
| Brokers.Broker.ValidKeepsInv | internal/broker/broker.go:16-21 | a valid broker whose queues are valid has a value that satisfies the registry invariant |
| Brokers.Broker.constructor | internal/broker/broker.go:23-29 | the new object is valid and its value is `BrokerSpec.New` |
| Brokers.Broker.GetOrCreate | internal/broker/broker.go:31-44 | performs exactly `BrokerSpec.GetOrCreate`, returns the present or a fresh queue object, and keeps every existing entry |
| Brokers.Broker.Insert | internal/broker/broker.go:41-43 | adds a fresh queue object with the per-queue cap under the new name, keeping the other entries and the cap on names |
| Brokers.Broker.Put | internal/broker/broker.go:46-52 | performs exactly `BrokerSpec.Put` (both sections, with nothing in between) on the objects and keeps the broker valid |
| Brokers.Broker.Get | internal/broker/broker.go:57-62 | performs exactly `BrokerSpec.Get` on the objects and keeps the broker valid |
| Brokers.Broker.Await | internal/queue/queue.go:54-59 | performs exactly `BrokerSpec.Await` on the objects and keeps the broker valid |
| RepoSpec.New | internal/adapters/memory/repo.go:24-30 | a new repository has no items, a zero counter, the given caps, and satisfies the invariant |
| RepoSpec.Cleanup | internal/adapters/memory/repo.go:32-37 | the name is deleted and the counter drops by one exactly when its item has no messages and no waiters; nothing else changes |
| RepoSpec.GetOrCreate | internal/adapters/memory/repo.go:39-46 | the name is present afterwards; a missing name gets an idle item; every other entry is kept |
| RepoSpec.IndexOf | internal/adapters/memory/repo.go:112-113 | the position of the first occurrence of the channel in the line |
| RepoSpec.Without | internal/adapters/memory/repo.go:111-117 | a line without the channel is returned as is; otherwise it loses exactly one entry |
| RepoSpec.Enqueue | internal/adapters/memory/repo.go:48-76 | the queue limit exactly for a new or idle item at a positive cap, leaving only an empty entry; the message limit exactly for a present item with no waiters and a full buffer, with nothing changed; with waiters, the oldest is handed the message, nothing is buffered, and the item is deleted when that was its last waiter; otherwise the message joins the tail and the counter grows exactly when the item was new or idle |
| RepoSpec.Dequeue | internal/adapters/memory/repo.go:78-103 | pops exactly when the item has messages, deleting it when that was its last; refuses exactly for a new or idle item at a positive cap, leaving an empty entry and the counter unchanged; otherwise a fresh waiter joins the tail and the counter grows exactly when the item was new or idle |
| RepoSpec.Await | internal/adapters/memory/repo.go:105-122 | receives exactly when the slot is filled and the context is not picked; otherwise, when the context fired, fails with its error, splices the waiter out of the name's item if present, and runs cleanup on that item whether or not the waiter was there, deleting it exactly when it is idle after the splice; the caps are kept; else stays blocked |
| RepoSpec.CountAfterUpdate | internal/adapters/memory/repo.go:21 | replacing one item changes the number of active items by the change in that item's activity |
| RepoSpec.CountAfterRemove | internal/adapters/memory/repo.go:21 | deleting an item lowers the number of active items by one exactly when it was active |
| RepoSpec.CleanupKeepsCount | internal/adapters/memory/repo.go:32-37 | cleanup leaves the counter equal to the number of active items when the named item's idleness is still counted |
| RepoSpec.WithoutIsSplice | internal/adapters/memory/repo.go:111-117 | the unsubscribe removes exactly the first occurrence of the channel, and the waiters before and after it keep their order |
| RepoSpec.WithoutAt | internal/adapters/memory/repo.go:114 | each remaining waiter's position: before the removed one it is kept, after it it moves up by one |
| RepoSpec.WithoutKeepsDistinct | internal/adapters/memory/repo.go:111-117 | removing one waiter from a line without repeats leaves a line without repeats |
| RepoSpec.WithoutMembers | internal/adapters/memory/repo.go:111-117 | from a line without repeats, the unsubscribe keeps exactly the other waiters |
| RepoSpec.EnqueueKeepsInv | internal/adapters/memory/repo.go:48-76 | Enqueue keeps the invariant: items well formed, the counter equal to the number of active items and within the cap, and every blocked caller tracked |
| RepoSpec.EnqueueKeepsShape | internal/adapters/memory/repo.go:61-75 | Enqueue keeps every item well formed: never messages and waiters at once, within the message cap, distinct waiters |
| RepoSpec.EnqueueKeepsCount | internal/adapters/memory/repo.go:54-68 | Enqueue keeps the counter equal to the number of active items and within a positive cap |
| RepoSpec.EnqueueKeepsTracked | internal/adapters/memory/repo.go:61-75 | Enqueue keeps every listed waiter a blocked caller of that name with an empty slot |
| RepoSpec.EnqueueHandOffTracked | internal/adapters/memory/repo.go:61-68 | the hand-off fills only the served waiter's slot and keeps the waiter bookkeeping |
| RepoSpec.DequeueKeepsInv | internal/adapters/memory/repo.go:78-103 | Dequeue keeps the invariant, and the waiter it registers is fresh |
| RepoSpec.DequeueKeepsShape | internal/adapters/memory/repo.go:89-102 | Dequeue keeps every item well formed |
| RepoSpec.DequeueKeepsCount | internal/adapters/memory/repo.go:80-102 | Dequeue keeps the counter equal to the number of active items and within a positive cap |
| RepoSpec.DequeueKeepsTracked | internal/adapters/memory/repo.go:89-102 | Dequeue keeps the waiter bookkeeping |
| RepoSpec.DequeueRegisterTracked | internal/adapters/memory/repo.go:94-102 | registering a waiter keeps the waiter bookkeeping |
| RepoSpec.AwaitKeepsInv | internal/adapters/memory/repo.go:105-122 | the `select` keeps the invariant except in the race where cleanup meets an uncounted empty entry |
| RepoSpec.AwaitCancelTracked | internal/adapters/memory/repo.go:108-119 | the unsubscribe path keeps the waiter bookkeeping |
| RepoSpec.CleanupKeepsTracked | internal/adapters/memory/repo.go:32-37 | cleanup deletes only items with no waiters, so the waiter bookkeeping is kept |
| RepoSpec.Step | internal/adapters/memory/repo.go:48-122 | definition: one call, an Enqueue, the first half of a Dequeue, or a blocked caller's `select`; its properties are `StepKeepsInv` and `ActiveMovesByOne` |
| RepoSpec.Run | internal/adapters/memory/repo.go:48-122 | definition: the calls of a sequence in turn, with the caps fixed; its property is `RunKeepsInv` |
| RepoSpec.StepKeepsInv | internal/adapters/memory/repo.go:48-122 | every call that does not meet the race keeps the invariant |
| RepoSpec.ActiveMovesByOne | internal/adapters/memory/repo.go:21 | every call moves the counter by at most one, race or not |
| RepoSpec.RunKeepsInv | internal/adapters/memory/repo.go:54-59 | along any run avoiding the race, the counter equals the number of active items and a positive cap bounds them |
| RepoSpec.StaleCancelUndercounts | internal/adapters/memory/repo.go:111-118 | in the race, cleanup deletes an uncounted empty entry: the counter ends one below the number of active items, and the delivered message stays in a slot no caller reads |
| RepoSpec.RaceBypassesQueueCap | internal/adapters/memory/repo.go:105-122 | the race is reachable from a new repository with a cap of one queue, after which two queues are active at once and a delivered message is never received |
| RepoSpec.RaceSetup | internal/adapters/memory/repo.go:48-103 | the first four calls of the race trace and the state they reach |
| RepoSpec.RaceSubscribe | internal/adapters/memory/repo.go:89-102 | a consumer on an unknown name below the cap is registered and counted |
| RepoSpec.RaceServe | internal/adapters/memory/repo.go:61-68 | in the trace, a producer serving waiter 0, the only waiter of its item, deletes the item |
| RepoSpec.RaceRefuse | internal/adapters/memory/repo.go:52-57 | a producer on an unknown name at the cap is refused and leaves an empty entry |
| RepoSpec.RaceCancel | internal/adapters/memory/repo.go:108-119 | in the trace, waiter 0, already served, takes the context branch; cleanup deletes the empty entry of its name and lowers the counter |
| RepoSpec.DrainFreesQueue | internal/adapters/memory/repo_test.go:11-24 | with a cap of one queue, a message put and taken back leaves no entry, and a second name is then accepted |
| RepoSpec.QueueLimitLeavesEmptyEntry | internal/adapters/memory/repo_test.go:37-44 | with a cap of one queue, a second name is refused while the first is active, and leaves an empty, uncounted entry |
| RepoSpec.SubscribeDelivery | internal/adapters/memory/repo_test.go:46-68 | a consumer that subscribes first receives the message enqueued later, and the queue is gone afterwards |
| Memory.Unsubscribe | internal/adapters/memory/repo.go:111-117 | the scanning loop computes exactly `RepoSpec.Without` |
| Memory.Repo.constructor | internal/adapters/memory/repo.go:24-30 | the new object is valid and its value is `RepoSpec.New` |
| Memory.Repo.Cleanup | internal/adapters/memory/repo.go:32-37 | performs exactly `RepoSpec.Cleanup` in place |
| Memory.Repo.GetOrCreate | internal/adapters/memory/repo.go:39-46 | performs exactly `RepoSpec.GetOrCreate` on the map and returns the name's item |
| Memory.Repo.Enqueue | internal/adapters/memory/repo.go:48-76 | performs exactly `RepoSpec.Enqueue` in place and keeps the invariant |
| Memory.Repo.Dequeue | internal/adapters/memory/repo.go:78-103 | performs exactly `RepoSpec.Dequeue`, the locked first half of `Repo.Dequeue`, in place and keeps the invariant |
| Memory.Repo.Subscribe | internal/adapters/memory/repo.go:89-102 | the subscribing branch performs exactly `RepoSpec.Dequeue` on an item without messages |
| Memory.Repo.Await | internal/adapters/memory/repo.go:105-122 | the `select` performs exactly `RepoSpec.Await` in place, and keeps the invariant except in the race |

## Left out

- HTTP transport is not modelled: request decoding, URL and query parsing, and
  mapping errors to status codes (internal/broker/http.go,
  internal/adapters/httpapi/handler.go). These carry no engine state.
- Process start-up is not modelled (cmd/server/main.go).
- The application service in internal/app is not modelled. It is one-line
  delegation to the repository.
- The polling branch of `Broker.Get` (internal/broker/broker.go:64-91) is not
  modelled. It is a goroutine with a 20 ms ticker, and it reads the map without
  the lock. The model ends an unknown name's `Get` at the `PollForQueue`
  outcome.
- Goroutines, mutexes, timers and contexts are not modelled. Each locked
  section is one step on values, with one exception. The two sections of
  the fast path of `Broker.Get` are one step, `BrokerSpec.Get`; this loses
  nothing, because a present name keeps its queue for good. The two sections
  of `Broker.Put` are two steps on values, `BrokerSpec.GetOrCreate` and
  `BrokerSpec.PutOnQueue`, but `Brokers.Broker.Put` runs them back to back. A caller's
  lock-free `select` is the `Await` step. What a context reports is the `fired` parameter. The
  random choice of Go's `select` is the `ctxFirst` parameter.
- Closing a waiter's channel after a hand-off is not modelled. The closed
  channel is never read again in the source, because the caller has either
  taken the value or left its `select`.
- Go's `int` is modelled as unbounded. The counters and lengths do not come
  near its range.
- Identity of `*queueItem` pointers in the repository is not modelled: items
  are map values. The source reads an item and updates it under the same
  lock, so no other caller can observe the difference.
- Brokers.Broker: the class's `Valid()` does not carry each queue object's
  own invariant. Each queue object's value is the abstract queue, so that
  invariant is proved on the values by `BrokerSpec`'s lemmas, and
  `Brokers.Broker.ValidKeepsInv` joins the two.
- Brokers.Broker.Put: runs `getOrCreate` and `Queue.Put` with no other call
  in between, so on the objects it does not capture a call that interleaves
  between the two sections. That interleaving is stated on values by
  `BrokerSpec.PutOnQueue` and `BrokerSpec.GetBetweenPutSections`.
- Memory.Repo.Subscribe: the fresh channel identity is consumed even when the
  queue limit refuses the caller. In the source that channel is simply
  dropped.
- Memory.Repo.Await: the invariant is promised only outside the race that
  `RepoSpec.StaleCancelUndercounts` exhibits, because the source breaks the
  counter there.
- Message bodies are opaque text. JSON encoding is not modelled.
