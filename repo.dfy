/** `memory.Repo` (internal/adapters/memory/repo.go) as an object whose methods
    update its fields in place. `Enqueue`, `Dequeue` and their helpers run
    under the repository's lock; `Await` is the caller's `select`, which holds
    no lock until its cancel path takes it again. Each method is proved to
    perform exactly the step `RepoSpec` defines. */
module Memory {
  import opened Types
  import RepoSpec

  /** The unsubscribe loop of `Repo.Dequeue`: scan the line for the caller's
      channel and splice out the first match. */
  method Unsubscribe(subs: seq<WaiterId>, w: WaiterId) returns (r: seq<WaiterId>)
    ensures r == RepoSpec.Without(subs, w)
  {
    var i := 0;
    while i < |subs| && subs[i] != w
      invariant 0 <= i <= |subs|
      invariant w !in subs[..i]
    {
      i := i + 1;
    }
    if i == |subs| {
      assert subs[..i] == subs;
      return subs;
    }
    r := subs[..i] + subs[i + 1..];
    RepoSpec.WithoutIsSplice(subs, w);
  }

  class Repo {
    var queues: map<string, RepoSpec.Item>
    var active: int
    const maxQueues: int
    const maxMessages: int
    /** The value buffered in each served waiter's channel. */
    var slots: map<WaiterId, Message>
    /** The next fresh channel identity. */
    var nextWaiter: WaiterId
    /** The callers blocked in their `select`, with the name each subscribed
        under; in the source this lives on the callers' own stacks. */
    ghost var pending: map<WaiterId, string>

    ghost function Abs(): RepoSpec.RState
      reads this
    {
      RepoSpec.RState(queues, active, slots, pending, nextWaiter, maxQueues, maxMessages)
    }

    ghost predicate Valid()
      reads this
    {
      RepoSpec.Inv(Abs())
    }

    /** `NewRepo(maxQ, maxPerQ)`. */
    constructor (maxQ: int, maxPerQ: int)
      ensures Valid()
      ensures Abs() == RepoSpec.New(maxQ, maxPerQ)
    {
      queues := map[];
      active := 0;
      maxQueues := maxQ;
      maxMessages := maxPerQ;
      slots := map[];
      nextWaiter := 0;
      pending := map[];
    }

    /** `Repo.cleanup`. */
    method Cleanup(name: string)
      requires name in queues
      modifies this
      ensures Abs() == RepoSpec.Cleanup(old(Abs()), name)
    {
      var it := queues[name];
      if |it.messages| == 0 && |it.subs| == 0 {
        queues := queues - {name};
        active := active - 1;
      }
    }

    /** `Repo.getOrCreate`. */
    method GetOrCreate(name: string) returns (it: RepoSpec.Item)
      modifies this
      ensures Abs() == old(Abs()).(queues := RepoSpec.GetOrCreate(old(queues), name))
      ensures name in queues && it == queues[name]
    {
      if name in queues {
        return queues[name];
      }
      it := RepoSpec.Item([], []);
      queues := queues[name := it];
    }

    /** `Repo.Enqueue`. */
    method Enqueue(name: string, m: Message) returns (r: PutOutcome)
      modifies this
      ensures old(Valid()) ==> Valid()
      ensures (r, Abs()) == RepoSpec.Enqueue(old(Abs()), name, m)
    {
      if Valid() {
        RepoSpec.EnqueueKeepsInv(Abs(), name, m);
      }
      var it := GetOrCreate(name);
      if |it.messages| == 0 && |it.subs| == 0 {
        if maxQueues > 0 && active >= maxQueues {
          return Rejected(QueueLimitExceeded);
        }
        active := active + 1;
      }
      if |it.subs| > 0 {
        var w := it.subs[0];
        queues := queues[name := it.(subs := it.subs[1..])];
        slots := slots[w := m];
        Cleanup(name);
        return Accepted;
      }
      if maxMessages > 0 && |it.messages| >= maxMessages {
        return Rejected(MessageLimitExceeded);
      }
      queues := queues[name := it.(messages := it.messages + [m])];
      r := Accepted;
    }

    /** The part of `Repo.Dequeue` done before the `select`: pop the head, or
        subscribe a fresh channel at the tail of the line. */
    method Dequeue(name: string) returns (r: GetStart)
      modifies this
      ensures old(Valid()) ==> Valid()
      ensures (r, Abs()) == RepoSpec.Dequeue(old(Abs()), name)
    {
      ghost var before := Abs();
      if name in queues && |queues[name].messages| > 0 {
        var it := queues[name];
        var m := it.messages[0];
        queues := queues[name := it.(messages := it.messages[1..])];
        Cleanup(name);
        r := Popped(m);
      } else {
        r := Subscribe(name);
      }
      if RepoSpec.Inv(before) {
        RepoSpec.DequeueKeepsInv(before, name);
      }
    }

    /** The subscribing branch of `Repo.Dequeue`. */
    method Subscribe(name: string) returns (r: GetStart)
      requires !(name in queues && |queues[name].messages| > 0)
      modifies this
      ensures (r, Abs()) == RepoSpec.Dequeue(old(Abs()), name)
    {
      var w := nextWaiter;
      nextWaiter := nextWaiter + 1;
      var it;
      if name in queues {
        it := queues[name];
      } else {
        it := GetOrCreate(name);
      }
      ghost var found := it;
      it := it.(subs := it.subs + [w]);
      queues := queues[name := it];
      if |it.subs| == 1 && |it.messages| == 0 {
        if maxQueues > 0 && active >= maxQueues {
          it := it.(subs := it.subs[..|it.subs| - 1]);
          assert it == found;
          queues := queues[name := it];
          assert queues == RepoSpec.GetOrCreate(old(queues), name);
          return Refused(QueueLimitExceeded);
        }
        active := active + 1;
      }
      pending := pending[w := name];
      r := Registered(w);
    }

    /** The `select` of a consumer blocked in `Repo.Dequeue` on `name`:
        receive from the slot, or, once the context is done, unsubscribe
        and clean up. */
    method Await(name: string, w: WaiterId, fired: Option<CtxErr>, ctxFirst: bool) returns (r: WaitOutcome)
      requires w in pending && pending[w] == name
      modifies this
      ensures old(Valid()) && !RepoSpec.Stale(old(Abs()), w, fired, ctxFirst) ==> Valid()
      ensures (r, Abs()) == RepoSpec.Await(old(Abs()), w, fired, ctxFirst)
    {
      if Valid() && !RepoSpec.Stale(Abs(), w, fired, ctxFirst) {
        RepoSpec.AwaitKeepsInv(Abs(), w, fired, ctxFirst);
      }
      if w in slots && (fired.None? || !ctxFirst) {
        var m := slots[w];
        slots := slots - {w};
        pending := pending - {w};
        return Received(m);
      }
      if fired.Some? {
        pending := pending - {w};
        if name in queues {
          var it := queues[name];
          var subs := Unsubscribe(it.subs, w);
          queues := queues[name := it.(subs := subs)];
          Cleanup(name);
        }
        return Failed(fired.value);
      }
      r := Blocked;
    }
  }
}
