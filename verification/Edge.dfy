/**
  The bounded single-producer, single-consumer edge of src/edge.rs, as a state
  machine whose steps are the program's accesses to shared memory: the two counters,
  the `waiting` and `closed` flags, the mutex, the condition variable and the FIFO
  channel. Memory is sequentially consistent. A schedule is any sequence of actions;
  an action that is not possible in a state does nothing.
*/
module Edge {
  /** What the sender does after `wait_until`: push the message that did not fit, or return from a hand-off. */
  datatype Why<M> = ToPush(msg: M) | HandOff

  /** Where the sender is. Comments name the access the next step performs. */
  datatype Sender<M> =
    | SIdle                                              // between calls
    | SCheck(msg: M, try_: bool)                         // has_room, from the cached counter
    | SRefresh(msg: M, try_: bool)                       // has_room: load `received`
    | SSpin(target: nat, round: nat, why: Why<M>)        // wait_until: load `received`, then `closed`
    | SSpinClosed(target: nat, round: nat, why: Why<M>)
    | SLock(target: nat, why: Why<M>)                    // lock the mutex
    | SAnnounce(target: nat, why: Why<M>)                // store `waiting`
    | SRecheck(target: nat, why: Why<M>)                 // load `received`
    | SRecheckClosed(target: nat, why: Why<M>)           // load `closed`
    | SSleep(target: nat, why: Why<M>)                   // Condvar::wait: release the mutex and sleep
    | SAsleep(target: nat, why: Why<M>)                  // asleep
    | SWoken(target: nat, why: Why<M>)                   // Condvar::wait: lock the mutex again
    | SClear(ok: bool, why: Why<M>)                      // clear `waiting`
    | SUnlock(ok: bool, why: Why<M>)                     // unlock the mutex
    | SPush(msg: M)                                      // mpsc send
    | SGone                                              // dropped

  datatype Then = ToIdle | ToBlock | ToDie

  datatype Receiver =
    | RIdle                                              // between calls
    | RTook                                              // took: is a batch complete?
    | RStore(then_: Then)                                // publish: store `received`
    | RWaiting(then_: Then)                              // notify: load `waiting`
    | RLock(then_: Then)                                 // notify: lock the mutex
    | RSignal(then_: Then)                               // notify_one
    | RUnlock(then_: Then)                               // unlock the mutex
    | RBlocked                                           // mpsc recv, waiting
    | RClose                                             // drop: store `closed`
    | RDying                                             // drop the channel
    | RDead

  datatype Holder = Nobody | TheSender | TheReceiver

  /**
    `pushed` and `taken` are the messages sent and taken so far; their lengths are the
    private counters `sent` and the receiver's `received`. `pub` is the shared count.
  */
  datatype Edge<M> = Edge(
    capacity: nat, s: Sender<M>, r: Receiver, queue: seq<M>, pushed: seq<M>, taken: seq<M>,
    seen: nat, pub: nat, waiting: bool, closed: bool, holder: Holder)

  datatype Action<M> =
    | Send(msg: M) | TrySend(msg: M) | DropSender | SenderStep | SpuriousWake
    | Recv | ReceiverStep | Timeout | DropReceiver

  function Max(a: nat, b: nat): nat { if a < b then b else a }

  function Limit(capacity: nat): nat { Max(capacity, 1) }

  function Room(capacity: nat): nat { Max(Limit(capacity) / 4, 1) }

  /** The receiver publishes after this many messages. */
  function Batch(capacity: nat): nat { Max(capacity / 16, 1) }

  function Init<M>(capacity: nat): Edge<M> {
    Edge(capacity, SIdle, RIdle, [], [], [], 0, 0, false, false, Nobody)
  }

  // ---------------------------------------------------------------- the sender

  const SPINS: nat := 96

  function Resume<M>(e: Edge<M>, ok: bool, why: Why<M>): Edge<M> {
    match why
    case ToPush(msg) => if ok then e.(s := SPush(msg)) else e.(s := SIdle)
    case HandOff => e.(s := SIdle)
  }

  function StepSender<M>(e: Edge<M>): Edge<M> {
    match e.s
    case SIdle => e
    case SGone => e
    case SAsleep(_, _) => e
    case SCheck(msg, try_) =>
      if try_ && (e.closed || e.capacity == 0) then e.(s := SIdle)
      else if |e.pushed| - e.seen < Limit(e.capacity) then e.(s := SPush(msg))
      else e.(s := SRefresh(msg, try_))
    case SRefresh(msg, try_) =>
      var e' := e.(seen := e.pub);
      if |e'.pushed| - e'.seen < Limit(e'.capacity) then e'.(s := SPush(msg))
      else if try_ then e'.(s := SIdle)
      else
        var target := (if |e.pushed| < Limit(e.capacity) then 0 else |e.pushed| - Limit(e.capacity)) + Room(e.capacity);
        e'.(s := SSpin(target, 0, ToPush(msg)))
    case SSpin(target, round, why) =>
      if target <= e.pub then Resume(e, true, why) else e.(s := SSpinClosed(target, round, why))
    case SSpinClosed(target, round, why) =>
      if e.closed then Resume(e, false, why)
      else if round + 1 < SPINS then e.(s := SSpin(target, round + 1, why))
      else e.(s := SLock(target, why))
    case SLock(target, why) =>
      if e.holder == Nobody then e.(s := SAnnounce(target, why), holder := TheSender) else e
    case SAnnounce(target, why) => e.(s := SRecheck(target, why), waiting := true)
    case SRecheck(target, why) =>
      if target <= e.pub then e.(s := SClear(true, why)) else e.(s := SRecheckClosed(target, why))
    case SRecheckClosed(target, why) =>
      if e.closed then e.(s := SClear(false, why)) else e.(s := SSleep(target, why))
    case SSleep(target, why) => e.(s := SAsleep(target, why), holder := Nobody)
    case SWoken(target, why) =>
      if e.holder == Nobody then e.(s := SAnnounce(target, why), holder := TheSender) else e
    case SClear(ok, why) => e.(s := SUnlock(ok, why), waiting := false)
    case SUnlock(ok, why) => Resume(e.(holder := Nobody), ok, why)
    case SPush(msg) =>
      if e.r == RDead then e.(s := SIdle)
      else
        var e' := e.(queue := e.queue + [msg], pushed := e.pushed + [msg]);
        if e.capacity == 0 then e'.(s := SSpin(|e'.pushed|, 0, HandOff)) else e'.(s := SIdle)
  }

  // ---------------------------------------------------------------- the receiver

  function Continue<M>(e: Edge<M>, then_: Then): Edge<M> {
    match then_
    case ToIdle => e.(r := RIdle)
    case ToBlock => e.(r := RBlocked)
    case ToDie => e.(r := RDying)
  }

  /** `publish`: nothing happens if the count is already out. */
  function Publish<M>(e: Edge<M>, then_: Then): Edge<M> {
    if e.pub == |e.taken| then Continue(e, then_) else e.(r := RStore(then_))
  }

  function Take<M>(e: Edge<M>): Edge<M>
    requires e.queue != []
  {
    e.(r := RTook, queue := e.queue[1..], taken := e.taken + [e.queue[0]])
  }

  function Wake<M>(e: Edge<M>): Edge<M> {
    match e.s
    case SAsleep(target, why) => e.(s := SWoken(target, why))
    case _ => e
  }

  function StepReceiver<M>(e: Edge<M>): Edge<M> {
    match e.r
    case RIdle => e
    case RDead => e
    case RTook =>
      if |e.taken| - e.pub >= Batch(e.capacity) then Publish(e, ToIdle) else e.(r := RIdle)
    case RStore(then_) => e.(r := RWaiting(then_), pub := |e.taken|)
    case RWaiting(then_) => if e.waiting then e.(r := RLock(then_)) else Continue(e, then_)
    case RLock(then_) => if e.holder == Nobody then e.(r := RSignal(then_), holder := TheReceiver) else e
    case RSignal(then_) => Wake(e).(r := RUnlock(then_))
    case RUnlock(then_) => Continue(e.(holder := Nobody), then_)
    case RBlocked =>
      if e.queue != [] then Take(e) else if e.s == SGone then e.(r := RIdle) else e
    case RClose => e.(r := RWaiting(ToDie), closed := true)
    case RDying => e.(r := RDead, queue := [])
  }

  // ---------------------------------------------------------------- runs

  function Apply<M>(e: Edge<M>, a: Action<M>): Edge<M> {
    match a
    case Send(msg) => if e.s == SIdle then e.(s := SCheck(msg, false)) else e
    case TrySend(msg) => if e.s == SIdle then e.(s := SCheck(msg, true)) else e
    case DropSender => if e.s == SIdle then e.(s := SGone) else e
    case SenderStep => StepSender(e)
    case SpuriousWake => Wake(e)
    case Recv =>
      if e.r != RIdle then e
      else if e.queue != [] then Take(e)
      else if e.s == SGone then e
      else Publish(e, ToBlock)
    case ReceiverStep => StepReceiver(e)
    case Timeout => if e.r == RBlocked then e.(r := RIdle) else e
    case DropReceiver => if e.r == RIdle then e.(r := RClose) else e
  }

  function Run<M>(capacity: nat, acts: seq<Action<M>>): Edge<M> {
    if acts == [] then Init(capacity) else Apply(Run(capacity, acts[..|acts| - 1]), acts[|acts| - 1])
  }
}
