/** An abstract future. The executor never looks inside a future: it only
    polls it and learns whether it is still pending. A future is therefore
    modelled by how many more polls answer Pending before one answers Ready,
    and by whether it invokes its waker while answering Pending. */
module Futures {

  /** A future that answers Pending to its next `pendingPolls` polls and Ready
      to the one after; when `wakesSelf` holds, each Pending poll invokes the
      waker it was given before returning. */
  datatype Future = Future(pendingPolls: nat, wakesSelf: bool)

  /** The answer of one poll; a Pending answer carries the advanced future. */
  datatype Poll = Ready | Pending(rest: Future)

  /** One call of the future's poll step. */
  function PollOnce(f: Future): (r: Poll)
    ensures r.Ready? <==> f.pendingPolls == 0
    ensures r.Pending? ==> r.rest.wakesSelf == f.wakesSelf
    ensures r.Pending? ==> r.rest.pendingPolls + 1 == f.pendingPolls
  {
    if f.pendingPolls == 0 then Ready
    else Pending(Future(f.pendingPolls - 1, f.wakesSelf))
  }

  /** Whether polling `f` wakes the host: only a Pending poll of a future
      that wakes itself does. */
  predicate WakesOnPoll(f: Future) {
    PollOnce(f).Pending? && f.wakesSelf
  }
}
