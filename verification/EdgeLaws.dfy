/**
  What every reachable state of an edge satisfies, for every capacity and every
  schedule: the bound, the order of messages, mutual exclusion, and that no wake-up
  is lost.
*/
module EdgeLaws {
  import opened Edge

  // ---------------------------------------------------------------- the invariant

  predicate SenderHolds<M>(s: Sender<M>) {
    s.SAnnounce? || s.SRecheck? || s.SRecheckClosed? || s.SSleep? || s.SClear? || s.SUnlock?
  }

  predicate ReceiverHolds(r: Receiver) { r.RSignal? || r.RUnlock? }

  /** The receiver still has the notification for its last store ahead of it. */
  predicate Notifying(r: Receiver) { r.RWaiting? || r.RLock? || r.RSignal? }

  predicate Waits<M>(s: Sender<M>) {
    s.SSpin? || s.SSpinClosed? || s.SLock? || s.SAnnounce? || s.SRecheck? || s.SRecheckClosed? || s.SSleep? ||
    s.SAsleep? || s.SWoken?
  }

  /** The mutex is held by the one party that is inside its critical section. */
  ghost predicate LockOk<M>(e: Edge<M>) {
    && (e.holder == TheSender <==> SenderHolds(e.s))
    && (e.holder == TheReceiver <==> ReceiverHolds(e.r))
    && (e.s.SRecheck? || e.s.SRecheckClosed? || e.s.SSleep? || e.s.SAsleep? || e.s.SWoken? || e.s.SClear? ==>
      e.waiting)
  }

  /** Messages leave in the order they came, and the counters lag behind the truth. */
  ghost predicate CountsOk<M>(e: Edge<M>) {
    && e.seen <= e.pub <= |e.taken| <= |e.pushed|
    && e.taken <= e.pushed
    && (e.r != RDead ==> e.pushed == e.taken + e.queue)
    && (e.r == RDead ==> e.queue == [])
    && |e.pushed| <= e.pub + Limit(e.capacity)
  }

  /** The receiver is past its store to `closed`. */
  predicate Leaving(r: Receiver) {
    r.RDying? || r.RDead? || ((r.RWaiting? || r.RLock? || r.RSignal? || r.RUnlock?) && r.then_ == ToDie)
  }

  /** What the receiver owes at each point: publication, and the `closed` flag. */
  ghost predicate ReceiverOk<M>(e: Edge<M>) {
    && |e.taken| - e.pub <= Batch(e.capacity)
    && (!e.r.RTook? && !e.r.RStore? ==> |e.taken| - e.pub < Batch(e.capacity))
    && (e.r.RStore? ==> e.r.then_ != ToDie && e.pub < |e.taken|)
    && (e.r.RBlocked? ==> e.pub == |e.taken|)
    && ((e.r.RWaiting? || e.r.RLock? || e.r.RSignal? || e.r.RUnlock?) && e.r.then_ != ToDie ==> e.pub == |e.taken|)
    && (e.closed <==> Leaving(e.r))
  }

  /** The count the sender waits for: room for a run of messages, or its own message taken. */
  predicate TargetOk<M>(e: Edge<M>, target: nat, why: Why<M>) {
    match why
    case ToPush(_) => target + Limit(e.capacity) == |e.pushed| + Room(e.capacity)
    case HandOff => e.capacity == 0 && target == |e.pushed|
  }

  /** What the end of a wait tells the sender. */
  predicate OutcomeOk<M>(e: Edge<M>, ok: bool, why: Why<M>) {
    if !ok then e.closed
    else match why
      case ToPush(_) => |e.pushed| < e.pub + Limit(e.capacity)
      case HandOff => |e.pushed| == e.pub
  }

  ghost predicate SenderOk<M>(e: Edge<M>) {
    && (Waits(e.s) ==> TargetOk(e, e.s.target, e.s.why))
    && (e.s.SClear? || e.s.SUnlock? ==> OutcomeOk(e, e.s.ok, e.s.why))
    && (e.s.SPush? ==> |e.pushed| < e.pub + Limit(e.capacity))
  }

  /** The sender's wait is over: its target is published, or the receiver is gone. */
  predicate Due<M>(e: Edge<M>)
    requires Waits(e.s)
  {
    e.closed || e.s.target <= e.pub
  }

  /** No wake-up is lost: whoever is past its last check will still be signalled. */
  ghost predicate WakeOk<M>(e: Edge<M>) {
    && (e.s.SRecheckClosed? && e.s.target <= e.pub ==> e.r.RWaiting? || e.r.RLock?)
    && (e.s.SSleep? && Due(e) ==> e.r.RWaiting? || e.r.RLock?)
    && (e.s.SAsleep? && Due(e) ==> Notifying(e.r))
  }

  ghost predicate Inv<M>(e: Edge<M>) {
    LockOk(e) && CountsOk(e) && ReceiverOk(e) && SenderOk(e) && WakeOk(e)
  }

  // ---------------------------------------------------------------- every step keeps it

  lemma RoomFits(capacity: nat)
    ensures 1 <= Room(capacity) && 1 <= Batch(capacity) && Room(capacity) + Batch(capacity) <= Limit(capacity) + 1
  {}

  lemma CheckKeeps<M>(e: Edge<M>)
    requires Inv(e) && (e.s.SCheck?)
    ensures Inv(StepSender(e))
  {
    RoomFits(e.capacity);
    hide Room, Batch, Limit;
  }

  lemma RefreshKeeps<M>(e: Edge<M>)
    requires Inv(e) && (e.s.SRefresh?)
    ensures Inv(StepSender(e))
  {
    RoomFits(e.capacity);
    hide Room, Batch, Limit;
  }

  /** What holds of messages and receiver does not depend on where the sender is. */
  lemma SenderMoves<M>(e: Edge<M>, s: Sender<M>)
    requires CountsOk(e) && ReceiverOk(e)
    ensures CountsOk(e.(s := s)) && ReceiverOk(e.(s := s))
  {
    hide Room, Batch, Limit;
  }

  lemma SpinKeeps<M>(e: Edge<M>)
    requires Inv(e) && (e.s.SSpin?)
    ensures Inv(StepSender(e))
  {
    RoomFits(e.capacity);
    hide Room, Batch, Limit, CountsOk, ReceiverOk;
    SenderMoves(e, StepSender(e).s);
    assert StepSender(e) == e.(s := StepSender(e).s);
  }

  lemma SpinClosedKeeps<M>(e: Edge<M>)
    requires Inv(e) && (e.s.SSpinClosed?)
    ensures Inv(StepSender(e))
  {
    RoomFits(e.capacity);
    hide Room, Batch, Limit;
  }

  lemma RecheckKeeps<M>(e: Edge<M>)
    requires Inv(e) && (e.s.SRecheck? || e.s.SRecheckClosed?)
    ensures Inv(StepSender(e))
  {
    RoomFits(e.capacity);
    hide Room, Batch, Limit;
  }

  lemma LockKeeps<M>(e: Edge<M>)
    requires Inv(e) && (e.s.SLock? || e.s.SAnnounce? || e.s.SSleep? || e.s.SWoken? || e.s.SClear?)
    ensures Inv(StepSender(e))
  {
    RoomFits(e.capacity);
    hide Room, Batch, Limit;
  }

  lemma UnlockKeeps<M>(e: Edge<M>)
    requires Inv(e) && (e.s.SUnlock?)
    ensures Inv(StepSender(e))
  {
    RoomFits(e.capacity);
    hide Room, Batch, Limit;
  }

  lemma PushKeeps<M>(e: Edge<M>)
    requires Inv(e) && (e.s.SPush?)
    ensures Inv(StepSender(e))
  {
    RoomFits(e.capacity);
    hide Room, Batch, Limit;
  }

  lemma SenderKeeps<M>(e: Edge<M>)
    requires Inv(e)
    ensures Inv(StepSender(e))
  {
    hide Inv;
    match e.s
    case SCheck(_, _) => CheckKeeps(e);
    case SRefresh(_, _) => RefreshKeeps(e);
    case SPush(_) => PushKeeps(e);
    case SUnlock(_, _) => UnlockKeeps(e);
    case SSpin(_, _, _) => SpinKeeps(e);
    case SRecheck(_, _) => RecheckKeeps(e);
    case SSpinClosed(_, _, _) => SpinClosedKeeps(e);
    case SRecheckClosed(_, _) => RecheckKeeps(e);
    case SIdle => assert StepSender(e) == e;
    case SGone => assert StepSender(e) == e;
    case SAsleep(_, _) => assert StepSender(e) == e;
    case _ => LockKeeps(e);
  }

  lemma TakeKeeps<M>(e: Edge<M>)
    requires Inv(e) && e.queue != [] && (e.r == RIdle || e.r == RBlocked)
    ensures Inv(Take(e))
  {
    assert e.pushed == (e.taken + [e.queue[0]]) + e.queue[1..];
  }

  lemma TookKeeps<M>(e: Edge<M>)
    requires Inv(e) && (e.r.RTook? || e.r.RStore?)
    ensures Inv(StepReceiver(e))
  {
    RoomFits(e.capacity);
    hide Room, Batch, Limit;
  }

  lemma NotifyKeeps<M>(e: Edge<M>)
    requires Inv(e) && (e.r.RWaiting? || e.r.RLock? || e.r.RSignal?)
    ensures Inv(StepReceiver(e))
  {
    RoomFits(e.capacity);
    hide Room, Batch, Limit;
  }

  lemma LeaveKeeps<M>(e: Edge<M>)
    requires Inv(e) && (e.r.RUnlock? || e.r.RClose? || e.r.RDying?)
    ensures Inv(StepReceiver(e))
  {
    RoomFits(e.capacity);
    hide Room, Batch, Limit;
  }

  lemma ReceiverKeeps<M>(e: Edge<M>)
    requires Inv(e)
    ensures Inv(StepReceiver(e))
  {
    if e.r.RBlocked? {
      if e.queue != [] { TakeKeeps(e); } else { IdleKeeps(e); }
    } else {
      hide Inv;
      match e.r
      case RIdle => assert StepReceiver(e) == e;
      case RDead => assert StepReceiver(e) == e;
      case RTook => TookKeeps(e);
      case RStore(_) => TookKeeps(e);
      case RWaiting(_) => NotifyKeeps(e);
      case RLock(_) => NotifyKeeps(e);
      case RSignal(_) => NotifyKeeps(e);
      case _ => LeaveKeeps(e);
    }
  }

  /** The receiver starts to block, times out or finds the sender gone. */
  lemma IdleKeeps<M>(e: Edge<M>)
    requires Inv(e)
    ensures e.r.RIdle? && e.queue == [] ==> Inv(Publish(e, ToBlock))
    ensures e.r.RBlocked? ==> Inv(e.(r := RIdle))
    ensures e.r.RIdle? ==> Inv(e.(r := RClose))
  {
    RoomFits(e.capacity);
    hide Room, Batch, Limit;
  }

  lemma CallKeeps<M>(e: Edge<M>, msg: M, try_: bool)
    requires Inv(e) && e.s.SIdle?
    ensures Inv(e.(s := SCheck(msg, try_)))
  {
    hide Room, Batch, Limit;
  }

  lemma DropKeeps<M>(e: Edge<M>)
    requires Inv(e)
    ensures e.s.SIdle? ==> Inv(e.(s := SGone))
    ensures Inv(Wake(e))
  {
    hide Room, Batch, Limit;
  }

  lemma StepKeeps<M>(e: Edge<M>, a: Action<M>)
    requires Inv(e)
    ensures Inv(Apply(e, a)) && Apply(e, a).capacity == e.capacity
  {
    hide Inv;
    match a
    case SenderStep => SenderKeeps(e);
    case ReceiverStep => ReceiverKeeps(e);
    case Recv => if e.r.RIdle? { if e.queue != [] { TakeKeeps(e); } else { IdleKeeps(e); } }
    case Timeout => IdleKeeps(e);
    case DropReceiver => IdleKeeps(e);
    case Send(msg) => if e.s.SIdle? { CallKeeps(e, msg, false); }
    case TrySend(msg) => if e.s.SIdle? { CallKeeps(e, msg, true); }
    case DropSender => DropKeeps(e);
    case SpuriousWake => DropKeeps(e);
  }

  lemma {:induction false} Reachable<M>(capacity: nat, acts: seq<Action<M>>)
    ensures Inv(Run(capacity, acts)) && Run(capacity, acts).capacity == capacity
  {
    if acts != [] {
      var last := |acts| - 1;
      Reachable(capacity, acts[..last]);
      StepKeeps(Run(capacity, acts[..last]), acts[last]);
    }
  }

  // ---------------------------------------------------------------- what it means

  /**
    The edge never holds more than max(capacity, 1) untaken messages, they come out in
    the order they went in, and cached count <= shared count <= taken <= sent.
  */
  lemma {:induction false} BoundedAndInOrder<M>(capacity: nat, acts: seq<Action<M>>)
    ensures var e := Run(capacity, acts);
      && |e.queue| <= Max(capacity, 1)
      && e.seen <= e.pub <= |e.taken| <= |e.pushed|
      && (e.r != RDead ==> e.pushed == e.taken + e.queue)
      && e.taken <= e.pushed
      && |e.pushed| - e.pub <= Max(capacity, 1)
  {
    Reachable(capacity, acts);
  }

  /**
    No wake-up is lost: a sender is never asleep with its target reached or the receiver
    gone unless the receiver's notification is still ahead, and sender and receiver are
    never both blocked.
  */
  lemma NoWakeUpIsLost<M>(capacity: nat, acts: seq<Action<M>>)
    ensures var e := Run(capacity, acts);
      && (e.s.SAsleep? && (e.closed || e.s.target <= e.pub) ==> Notifying(e.r))
      && !(e.s.SAsleep? && e.r.RBlocked? && e.queue == [])
      && !(e.s.SAsleep? && (e.r.RDying? || e.r.RDead?))
  {
    Reachable(capacity, acts);
    RoomFits(capacity);
    hide Room, Batch, Limit;
  }

  /**
    A waiting sender is released soon: as long as its target is not published the
    receiver has taken at most a quarter of the edge and one batch beyond the full edge
    the sender saw, and a receiver that has taken that many has published the target.
  */
  lemma WaitIsShort<M>(capacity: nat, acts: seq<Action<M>>)
    ensures var e := Run(capacity, acts);
      Waits(e.s) && e.s.why.ToPush? ==>
        var full, quarter, batch :=
          |e.pushed| - Max(capacity, 1), Max(Max(capacity, 1) / 4, 1), Max(capacity / 16, 1);
        && e.s.target == full + quarter && full <= |e.taken|
        && (e.s.target > e.pub ==> |e.taken| <= full + quarter + batch - 1)
        && (|e.taken| >= full + quarter + batch - 1 && !e.r.RTook? && !e.r.RStore? ==> e.s.target <= e.pub)
        && full + quarter + batch - 1 <= |e.pushed|
  {
    Reachable(capacity, acts);
    RoomFits(capacity);
  }

  /**
    To the threads that use it, the edge is a FIFO queue of at most max(capacity, 1)
    messages: every step leaves it alone, or appends one message to a queue with room, or
    takes the oldest one, or drops what is left with the receiver.
  */
  lemma {:induction false} IsBoundedFifo<M>(capacity: nat, acts: seq<Action<M>>, a: Action<M>)
    ensures var e := Run(capacity, acts);
      var e' := Apply(e, a);
      || (e'.queue == e.queue && e'.taken == e.taken)
      || (e'.taken == e.taken && |e.queue| < Max(capacity, 1) && e.s.SPush? && e'.queue == e.queue + [e.s.msg])
      || (e.queue != [] && e'.taken == e.taken + [e.queue[0]] && e'.queue == e.queue[1..])
      || (e'.r.RDead? && e'.queue == [] && e'.taken == e.taken)
  {
    var e := Run(capacity, acts);
    Reachable(capacity, acts);
    assert e.s.SPush? && e.r != RDead ==> |e.queue| < Max(capacity, 1);
    hide Inv, Room, Batch;
    if a.SenderStep? { SenderQueue(e); }
  }

  lemma SenderQueue<M>(e: Edge<M>)
    ensures var e' := StepSender(e);
      && e'.taken == e.taken
      && e'.queue == if e.s.SPush? && e.r != RDead then e.queue + [e.s.msg] else e.queue
  {}

  // ---------------------------------------------------------------- no message is lost

  /** A call of the sender starts: its message, if `a` is one and the sender is between calls. */
  function Offer<M>(e: Edge<M>, a: Action<M>): seq<M> {
    match a
    case Send(msg) => if e.s == SIdle then [msg] else []
    case TrySend(msg) => if e.s == SIdle then [msg] else []
    case _ => []
  }

  /**
    The call under way is refused in this step: a `try_send` that finds the receiver gone, a
    hand-off edge, or no room; or any call that finds the receiver gone while it waits for room
    or when it hands its message over.
  */
  predicate Refused<M>(e: Edge<M>, a: Action<M>) {
    && a == SenderStep
    && match e.s
       case SCheck(_, try_) => try_ && (e.closed || e.capacity == 0)
       case SRefresh(_, try_) => try_ && |e.pushed| - e.pub >= Max(e.capacity, 1)
       case SSpinClosed(_, _, why) => why.ToPush? && e.closed
       case SRecheckClosed(_, why) => why.ToPush? && e.closed
       case SPush(_) => e.r == RDead
       case _ => false
  }

  /** The messages of all calls in order, without those of the calls that were refused. */
  function Accepted<M>(capacity: nat, acts: seq<Action<M>>): seq<M> {
    if acts == [] then []
    else
      var before, a := acts[..|acts| - 1], acts[|acts| - 1];
      var e, kept := Run(capacity, before), Accepted(capacity, before);
      if Refused(e, a) && kept != [] then kept[..|kept| - 1] else kept + Offer(e, a)
  }

  /** The messages of all calls in order. */
  function Offered<M>(capacity: nat, acts: seq<Action<M>>): seq<M> {
    if acts == [] then []
    else
      var before, a := acts[..|acts| - 1], acts[|acts| - 1];
      Offered(capacity, before) + Offer(Run(capacity, before), a)
  }

  /** The message of the call under way, until it is in the queue or refused. */
  function InHand<M>(s: Sender<M>): seq<M> {
    match s
    case SCheck(msg, _) => [msg]
    case SRefresh(msg, _) => [msg]
    case SPush(msg) => [msg]
    case SClear(ok, why) => if ok then Carried(why) else []
    case SUnlock(ok, why) => if ok then Carried(why) else []
    case SIdle => []
    case SGone => []
    case _ => Carried(s.why)
  }

  function Carried<M>(why: Why<M>): seq<M> {
    match why
    case ToPush(msg) => [msg]
    case HandOff => []
  }

  /** The step that refuses a call drops its message; no other step of the sender loses or makes one. */
  ghost predicate Carries<M>(e: Edge<M>, e': Edge<M>) {
    if Refused(e, SenderStep) then e'.pushed == e.pushed && InHand(e'.s) == [] && |InHand(e.s)| == 1
    else e'.pushed + InHand(e'.s) == e.pushed + InHand(e.s)
  }

  lemma StartCarries<M>(e: Edge<M>)
    requires e.s.SCheck? || e.s.SRefresh?
    ensures Carries(e, StepSender(e))
  {
    hide Room, Batch;
  }

  lemma WaitCarries<M>(e: Edge<M>)
    requires Waits(e.s)
    ensures Carries(e, StepSender(e))
  {
    hide Room, Batch, Limit;
  }

  lemma EndCarries<M>(e: Edge<M>)
    requires !Waits(e.s) && !e.s.SCheck? && !e.s.SRefresh?
    ensures Carries(e, StepSender(e))
  {
    hide Room, Batch, Limit;
    if e.s.SPush? && e.r != RDead { assert e.pushed + [e.s.msg] + [] == e.pushed + [e.s.msg]; }
  }

  lemma StepCarries<M>(e: Edge<M>)
    ensures Carries(e, StepSender(e))
  {
    hide StepSender, Carries;
    if Waits(e.s) { WaitCarries(e); } else if e.s.SCheck? || e.s.SRefresh? { StartCarries(e); } else { EndCarries(e); }
  }

  lemma OthersCarry<M>(e: Edge<M>, a: Action<M>)
    requires !a.SenderStep?
    ensures var e' := Apply(e, a); e'.pushed == e.pushed && InHand(e'.s) == InHand(e.s) + Offer(e, a)
  {
    hide Room, Batch, Limit;
  }

  /**
    No message is lost and none is made: over any schedule, what has been sent, followed by the
    message of the call under way, is exactly the messages of the calls that were not refused,
    in order. So when the sender is between calls, exactly those have been sent.
  */
  lemma {:induction false} NothingIsLost<M>(capacity: nat, acts: seq<Action<M>>)
    ensures var e := Run(capacity, acts); e.pushed + InHand(e.s) == Accepted(capacity, acts)
    ensures var e := Run(capacity, acts); e.s == SIdle ==> e.pushed == Accepted(capacity, acts)
  {
    hide Apply, InHand, Refused, Offer;
    if acts != [] {
      var before, a := acts[..|acts| - 1], acts[|acts| - 1];
      NothingIsLost(capacity, before);
      GoesOn(Run(capacity, before), a, Accepted(capacity, before));
    }
    if Run(capacity, acts).s == SIdle { BetweenCalls(Run(capacity, acts)); }
  }

  lemma BetweenCalls<M>(e: Edge<M>)
    requires e.s == SIdle
    ensures e.pushed + InHand(e.s) == e.pushed
  {}

  lemma GoesOn<M>(e: Edge<M>, a: Action<M>, kept: seq<M>)
    requires e.pushed + InHand(e.s) == kept
    ensures var e' := Apply(e, a);
      e'.pushed + InHand(e'.s) == if Refused(e, a) && kept != [] then kept[..|kept| - 1] else kept + Offer(e, a)
  {
    if a.SenderStep? {
      StepCarries(e);
      hide StepSender, InHand;
      if Refused(e, a) {
        hide Refused;
        assert kept[..|kept| - 1] == e.pushed;
        assert e.pushed + [] == e.pushed;
      } else {
        hide Refused;
        assert kept + [] == kept;
      }
    } else {
      OthersCarry(e, a);
      hide Apply, InHand;
      assert (e.pushed + InHand(e.s)) + Offer(e, a) == e.pushed + (InHand(e.s) + Offer(e, a));
    }
  }

  /**
    A call is refused only if the receiver has gone, or if it is a `try_send` on a hand-off edge
    or on one that is full as far as the receiver has published; and a `try_send` that sees this
    is refused.
  */
  lemma RefusedOnlyIf<M>(capacity: nat, acts: seq<Action<M>>, a: Action<M>)
    ensures var e := Run(capacity, acts);
      var tries := (e.s.SCheck? || e.s.SRefresh?) && e.s.try_;
      Refused(e, a) ==> e.closed || (tries && (capacity == 0 || |e.pushed| - e.pub >= Max(capacity, 1)))
    ensures var e := Run(capacity, acts);
      e.s.SRefresh? && e.s.try_ && |e.pushed| - e.pub >= Max(capacity, 1) ==> Refused(e, SenderStep)
  {
    Reachable(capacity, acts);
    hide Room, Batch, Limit;
  }

  /** Without `try_send`, as long as the receiver is there, everything is sent that the sender was called with. */
  lemma {:induction false} AllIsSent<M>(capacity: nat, acts: seq<Action<M>>)
    requires forall i :: 0 <= i < |acts| ==> !acts[i].TrySend?
    ensures !Run(capacity, acts).closed ==> Accepted(capacity, acts) == Offered(capacity, acts)
    ensures var e := Run(capacity, acts); e.s == SIdle && !e.closed ==> e.pushed == Offered(capacity, acts)
    ensures var s := Run(capacity, acts).s; s.SCheck? || s.SRefresh? ==> !s.try_
  {
    if acts != [] {
      var before, a := acts[..|acts| - 1], acts[|acts| - 1];
      AllIsSent(capacity, before);
      RefusedOnlyIf(capacity, before, a);
      NeverReopens(Run(capacity, before), a);
      NoTry(Run(capacity, before), a);
      hide Refused, Offer, Apply;
    }
    NothingIsLost(capacity, acts);
  }

  lemma NeverReopens<M>(e: Edge<M>, a: Action<M>)
    ensures e.closed ==> Apply(e, a).closed
  {
    hide Room, Batch, Limit;
  }

  lemma NoTry<M>(e: Edge<M>, a: Action<M>)
    requires !a.TrySend? && (e.s.SCheck? || e.s.SRefresh? ==> !e.s.try_)
    ensures var s := Apply(e, a).s; s.SCheck? || s.SRefresh? ==> !s.try_
  {
    hide Room, Batch, Limit, StepReceiver, Publish;
    if a.ReceiverStep? { ReceiverLeavesCalls(e); } else if a.Recv? { PublishLeavesSender(e); }
  }

  lemma ReceiverLeavesCalls<M>(e: Edge<M>)
    ensures StepReceiver(e).s == e.s || StepReceiver(e).s.SWoken?
  {
    hide Room, Batch, Limit;
  }

  lemma PublishLeavesSender<M>(e: Edge<M>)
    ensures Publish(e, ToBlock).s == e.s
  {}

  // ---------------------------------------------------------------- every wait ends

  /** How far the receiver is from blocking or being gone. */
  function ReceiverRank(r: Receiver): nat {
    match r
    case RTook => 12
    case RStore(then_) => 5 + Offset(then_)
    case RWaiting(then_) => 4 + Offset(then_)
    case RLock(then_) => 3 + Offset(then_)
    case RSignal(then_) => 2 + Offset(then_)
    case RUnlock(then_) => 1 + Offset(then_)
    case RIdle => 6
    case RClose => 6
    case RDying => 1
    case RBlocked => 0
    case RDead => 0
  }

  function Offset(then_: Then): nat {
    match then_
    case ToIdle => 6
    case ToDie => 1
    case ToBlock => 0
  }

  /** How far a waiting sender is from sleeping. */
  function SenderRank<M>(s: Sender<M>): nat {
    match s
    case SSpin(_, round, _) => 2 * (if round < SPINS then SPINS - round else 0) + 9
    case SSpinClosed(_, round, _) => 2 * (if round < SPINS then SPINS - round else 0) + 8
    case SLock(_, _) => 7
    case SWoken(_, _) => 6
    case SAnnounce(_, _) => 5
    case SRecheck(_, _) => 4
    case SRecheckClosed(_, _) => 3
    case SSleep(_, _) => 2
    case SAsleep(_, _) => 1
    case _ => 0
  }

  function Effort<M>(e: Edge<M>): nat {
    6 * (13 * |e.queue| + ReceiverRank(e.r)) + SenderRank(e.s)
  }

  /** A receiver that keeps receiving: a new call when it is idle, else its next step. */
  function ReceiverMove<M>(e: Edge<M>): Edge<M> {
    if e.r == RIdle then Apply(e, Recv) else StepReceiver(e)
  }

  lemma SenderGetsOn<M>(e: Edge<M>)
    requires Inv(e) && Waits(e.s)
    ensures SenderStuck(e) || !Waits(StepSender(e).s) || Effort(StepSender(e)) < Effort(e)
  {
    hide Room, Batch, Limit, ReceiverRank, CountsOk, ReceiverOk, SenderOk, WakeOk;
  }

  /** The sender cannot move: it sleeps, or the receiver holds the mutex. */
  predicate SenderStuck<M>(e: Edge<M>) {
    e.s.SAsleep? || ((e.s.SLock? || e.s.SWoken?) && e.holder == TheReceiver)
  }

  predicate ReceiverStuck<M>(e: Edge<M>) {
    e.r.RDead? || (e.r.RBlocked? && e.queue == []) || (e.r.RLock? && e.holder == TheSender)
  }

  lemma TakeGetsOn<M>(e: Edge<M>)
    requires e.queue != [] && (e.r.RIdle? || e.r.RBlocked?)
    ensures Effort(Take(e)) < Effort(e)
  {
    hide SenderRank;
  }

  lemma StepGetsOn<M>(e: Edge<M>)
    requires LockOk(e) && ReceiverOk(e) && !e.r.RIdle? && !e.r.RBlocked?
    ensures ReceiverStuck(e) || Effort(StepReceiver(e)) < Effort(e)
    ensures Waits(e.s) ==> Waits(StepReceiver(e).s)
  {
    hide Room, Batch, Limit;
  }

  lemma CallGetsOn<M>(e: Edge<M>)
    requires Waits(e.s) && (e.r.RIdle? || e.r.RBlocked?)
    ensures ReceiverStuck(e) || Effort(ReceiverMove(e)) < Effort(e)
    ensures Waits(ReceiverMove(e).s)
  {
    if e.queue != [] { TakeGetsOn(e); }
  }

  lemma ReceiverGetsOn<M>(e: Edge<M>)
    requires Inv(e) && Waits(e.s)
    ensures ReceiverStuck(e) || Effort(ReceiverMove(e)) < Effort(e)
    ensures Waits(ReceiverMove(e).s)
  {
    hide Effort, StepReceiver, ReceiverStuck, Waits, LockOk, ReceiverOk;
    if e.r.RIdle? || e.r.RBlocked? { CallGetsOn(e); } else { StepGetsOn(e); }
  }

  /** While the sender waits, one of the two can always move. */
  lemma NeverBothStuck<M>(e: Edge<M>)
    requires Inv(e) && Waits(e.s)
    ensures !(SenderStuck(e) && ReceiverStuck(e))
  {
    RoomFits(e.capacity);
    hide Room, Batch, Limit;
  }

  /** Who moves next: one of the two, or the outside world with a spurious wake-up or a receive timeout. */
  datatype Turn = BySender | ByReceiver | Spurious | TimesOut

  function AfterTurn<M>(e: Edge<M>, turn: Turn): Edge<M> {
    match turn
    case BySender => StepSender(e)
    case ByReceiver => ReceiverMove(e)
    case Spurious => Wake(e)
    case TimesOut => Apply(e, Timeout)
  }

  /** No move of the two is wasted, and the sender waits throughout. */
  ghost predicate StillWaiting<M>(e: Edge<M>, turns: seq<Turn>)
    decreases |turns|
  {
    turns == [] ||
    (Waits(e.s) && (turns[0].BySender? ==> !SenderStuck(e)) && (turns[0].ByReceiver? ==> !ReceiverStuck(e)) &&
     Waits(AfterTurn(e, turns[0]).s) && StillWaiting(AfterTurn(e, turns[0]), turns[1..]))
  }

  /** The turns of the outside world. */
  function Disturbances(turns: seq<Turn>): nat {
    if turns == [] then 0
    else (if turns[0].Spurious? || turns[0].TimesOut? then 1 else 0) + Disturbances(turns[1..])
  }

  /** A wake-up or a timeout costs the two at most 36 moves. */
  lemma DisturbanceCosts<M>(e: Edge<M>)
    ensures Effort(Wake(e)) <= Effort(e) + 36 && Effort(Apply(e, Timeout)) <= Effort(e) + 36
  {}

  lemma {:induction false} EffortBoundsWaiting<M>(e: Edge<M>, turns: seq<Turn>)
    requires Inv(e) && Waits(e.s) && StillWaiting(e, turns)
    ensures |turns| <= Effort(e) + 37 * Disturbances(turns)
    decreases |turns|
  {
    hide Inv, Effort, Waits, SenderStuck, ReceiverStuck;
    if turns != [] {
      match turns[0]
      case BySender =>
        SenderGetsOn(e);
        SenderKeeps(e);
        EffortBoundsWaiting(StepSender(e), turns[1..]);
      case ByReceiver =>
        ReceiverGetsOn(e);
        StepKeeps(e, if e.r == RIdle then Recv else ReceiverStep);
        EffortBoundsWaiting(ReceiverMove(e), turns[1..]);
      case Spurious =>
        DisturbanceCosts(e);
        StepKeeps(e, SpuriousWake);
        EffortBoundsWaiting(Wake(e), turns[1..]);
      case TimesOut =>
        DisturbanceCosts(e);
        StepKeeps(e, Timeout);
        EffortBoundsWaiting(Apply(e, Timeout), turns[1..]);
    }
  }

  /**
    Every wait ends: against a receiver that keeps receiving or goes away, however the two
    are scheduled, the sender leaves its wait within a number of moves fixed by the capacity
    and the spurious wake-ups and timeouts on the way, and until then one of the two can
    always move.
  */
  lemma {:induction false} EveryWaitEnds<M>(capacity: nat, acts: seq<Action<M>>, turns: seq<Turn>)
    ensures var e := Run(capacity, acts);
      Waits(e.s) ==>
        && !(SenderStuck(e) && ReceiverStuck(e))
        && (StillWaiting(e, turns) ==> |turns| <= 78 * Max(capacity, 1) + 300 + 37 * Disturbances(turns))
  {
    var e := Run(capacity, acts);
    Reachable(capacity, acts);
    BoundedAndInOrder(capacity, acts);
    if Waits(e.s) {
      NeverBothStuck(e);
      if StillWaiting(e, turns) { EffortBoundsWaiting(e, turns); }
    }
  }

  // ---------------------------------------------------------------- capacity 0

  /** Between the sends of a hand-off edge nothing is in flight to a live receiver. */
  ghost predicate HandOk<M>(e: Edge<M>) {
    e.capacity == 0 && !e.closed && !Waits(e.s) && !e.s.SClear? && !e.s.SUnlock? ==> e.pub == |e.pushed|
  }

  lemma HandKeeps<M>(e: Edge<M>, a: Action<M>)
    requires Inv(e) && HandOk(e)
    ensures HandOk(Apply(e, a))
  {
    RoomFits(e.capacity);
    hide Room, Batch, LockOk, WakeOk;
  }

  lemma {:induction false} HandReachable<M>(capacity: nat, acts: seq<Action<M>>)
    ensures HandOk(Run(capacity, acts))
  {
    if acts != [] {
      var last := |acts| - 1;
      HandReachable(capacity, acts[..last]);
      Reachable(capacity, acts[..last]);
      hide Inv, HandOk, Apply;
      HandKeeps(Run(capacity, acts[..last]), acts[last]);
    }
  }

  /**
    With capacity 0, whenever the sender is between calls and the receiver is not gone,
    the receiver has taken every message: a send returns only after its message was taken.
  */
  lemma HandOffIsTaken<M>(capacity: nat, acts: seq<Action<M>>)
    requires capacity == 0
    ensures var e := Run(capacity, acts); e.s.SIdle? && !e.closed ==> e.taken == e.pushed && e.queue == []
  {
    HandReachable(capacity, acts);
    Reachable(capacity, acts);
  }
}
