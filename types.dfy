/** Values shared by the three queue engines: the opaque message, waiter
    identities, and the outcomes the engines report to their callers. */
module Types {

  datatype Option<T> = None | Some(value: T)

  datatype Result<T, E> = Ok(value: T) | Err(error: E)

  /** The payload a producer deposits; the engines never look inside it. */
  datatype Message = Message(text: string)

  /** Identity of one blocked consumer. It stands for the single-use channel
      that the engine allocates for that consumer (`make(chan Message, 1)`). */
  type WaiterId = nat

  /** What `ctx.Err()` reports once the consumer's context is done. */
  datatype CtxErr = Canceled | DeadlineExceeded

  /** The two capacity failures the engines distinguish. */
  datatype Limit = QueueLimitExceeded | MessageLimitExceeded

  /** Result of a producer call. */
  datatype PutOutcome = Accepted | Rejected(failure: Limit)

  /** Result of the non-blocking first half of a consumer call. */
  datatype GetStart =
    | Popped(msg: Message)          // the head of the buffer, returned at once
    | Registered(waiter: WaiterId)  // the caller is now blocked on its own slot
    | Refused(failure: Limit)       // the caller could not even register
    | PollForQueue                  // the name is unknown and the caller polls for it

  /** Result of the consumer's `select` between its slot and its context. */
  datatype WaitOutcome =
    | Received(msg: Message)        // the slot held a handed-off message
    | Failed(err: CtxErr)           // the context fired first
    | Blocked                       // neither is ready: the caller keeps waiting

  /** No value occurs twice in `s`. */
  predicate Distinct(s: seq<WaiterId>) {
    forall i, j | 0 <= i < j < |s| :: s[i] != s[j]
  }
}
