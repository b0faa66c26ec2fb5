/**
  Every threaded run comes to its end (src/threaded.rs:139-187, src/pipeline.rs:422-450):
  once the source delivers nothing more, as long as some thread is not done one of them can
  move, and no schedule that only makes such moves goes on forever. So the source thread's
  wait for all segments always ends, and the source is closed.
*/
module ThreadedEnds {
  import opened Segments
  import opened Threaded
  import opened ThreadedLaws

  /** The next step of thread `i` when the source delivers nothing more and no idle tick fires. */
  ghost function Next<S, V>(p: Chain<S, V>, sys: System<S, V>, i: nat): System<S, V>
    requires |sys.nodes| == |p.caps| && i < |sys.nodes|
  {
    if i == 0 && Pulling(sys) then Apply(p, sys, Stop) else StepThread(p, sys, i)
  }

  /** Thread `i` has found no room, and still not enough places of the edge are free. */
  ghost predicate Waiting<S, V>(p: Chain<S, V>, sys: System<S, V>, i: nat, op: Op<V>)
    requires |sys.nodes| == |p.caps| && i < |sys.nodes|
  {
    Deliver(p, sys, i, op) == Blocked && sys.nodes[i].waits
  }

  /** The edge out of thread `i` is empty, and the sender knows it; or it has no receiver. */
  ghost predicate NothingAhead<S, V>(sys: System<S, V>, i: nat)
    requires i < |sys.nodes|
  {
    Last(sys, i) || !sys.nodes[i + 1].rx || (sys.nodes[i + 1].inq == [] && sys.nodes[i + 1].unpub == 0)
  }

  /** Thread `i` cannot move. */
  ghost predicate Stuck<S, V>(p: Chain<S, V>, sys: System<S, V>, i: nat)
    requires |sys.nodes| == |p.caps| && i < |sys.nodes|
  {
    var nd := sys.nodes[i];
    match nd.mode
    case Ready => i > 0 && nd.inq == [] && nd.unpub == 0 && sys.nodes[i - 1].mode != Ended
    case Busy(_, outs, _) => if outs == [] then !Settled(p, sys, i) else Waiting(p, sys, i, outs[0])
    case Aborting(rest, _) => if rest == [] then !Settled(p, sys, i) else Waiting(p, sys, i, rest[0])
    case Ended => nd.exit == Out || (i == 0 && nd.exit == Inside && SomeoneInside(sys))
  }

  /** Every chain is dropped, every `_done` too, and the source is closed. */
  ghost predicate AllDone<S, V>(sys: System<S, V>) {
    forall i :: 0 <= i < |sys.nodes| ==> sys.nodes[i].mode == Ended && sys.nodes[i].exit == Out
  }

  // ---------------------------------------------------------------- someone can always move

  /** With no operation on its outgoing edge a thread is not held up by the next one. */
  lemma FreeAhead<S(!new), V(!new)>(p: Chain<S, V>, sys: System<S, V>, i: nat)
    requires Inv(p, sys) && i < |sys.nodes| && !sys.nodes[i].mode.Ended? && !sys.nodes[i].mode.Ready?
    requires NothingAhead(sys, i)
    ensures !Stuck(p, sys, i)
  {}

  lemma {:induction false} SomeoneBefore<S(!new), V(!new)>(p: Chain<S, V>, sys: System<S, V>, i: nat) returns (j: nat)
    requires Inv(p, sys) && i < |sys.nodes| && !sys.nodes[i].mode.Ended?
    requires NothingAhead(sys, i)
    ensures j <= i && !Stuck(p, sys, j)
  {
    if !sys.nodes[i].mode.Ready? {
      FreeAhead(p, sys, i);
      j := i;
    } else if Stuck(p, sys, i) {
      j := SomeoneBefore(p, sys, i - 1);
    } else {
      j := i;
    }
  }

  lemma {:induction false} SomeoneRuns<S(!new), V(!new)>(p: Chain<S, V>, sys: System<S, V>, i: nat) returns (j: nat)
    requires Inv(p, sys) && i < |sys.nodes| && !sys.nodes[i].mode.Ended?
    ensures j < |sys.nodes| && !Stuck(p, sys, j)
    decreases |sys.nodes| - i
  {
    if i + 1 < |sys.nodes| && !sys.nodes[i + 1].mode.Ended? {
      j := SomeoneRuns(p, sys, i + 1);
    } else {
      if i + 1 < |sys.nodes| { assert NodeOk(p, i + 1, sys.nodes[i + 1], sys.failed); }
      j := SomeoneBefore(p, sys, i);
    }
  }

  /** No deadlock: unless every thread is done, some thread can move. */
  lemma {:induction false} SomeoneMoves<S(!new), V(!new)>(p: Chain<S, V>, sys: System<S, V>) returns (j: nat)
    requires Inv(p, sys) && !AllDone(sys)
    ensures j < |sys.nodes| && !Stuck(p, sys, j)
  {
    if i: nat :| i < |sys.nodes| && !sys.nodes[i].mode.Ended? {
      j := SomeoneRuns(p, sys, i);
    } else if i: nat :| 0 < i < |sys.nodes| && sys.nodes[i].exit != Out {
      j := i;
    } else {
      j := 0;
    }
  }

  // ---------------------------------------------------------------- the measure

  /** What thread `i` still has to take in: the operations on its edge, or the source's flush and close. */
  function Left<S, V>(i: nat, nd: Node<S, V>): nat {
    if i > 0 then |nd.inq| else if Phase(nd.consumed) >= 2 then 0 else 2 - Phase(nd.consumed)
  }

  function Rank<S, V>(nd: Node<S, V>): nat {
    match nd.mode
    case Ended => (
      match nd.exit
      case Out => 0
      case Closing(closed) => if closed then 1 else 2
      case Inside => 3)
    case Aborting(_, _) => 4
    case Ready => 5
    case Busy(_, _, _) => 6
  }

  /** What it has to hand on or to publish; whether it has found out that there is no room counts too. */
  function Pending<S, V>(nd: Node<S, V>): nat {
    var asks := if nd.waits then 0 else 1;
    match nd.mode
    case Busy(_, outs, _) => 2 * |outs| + asks
    case Aborting(rest, Own) => 2 * |rest| + asks + 4 * 7
    case Aborting(rest, Drop(left)) => 2 * |rest| + asks + 4 * left
    case Ready => nd.unpub
    case Ended => 0
  }

  /** Lexicographic: what it has to take in, where it stands, what it has to hand on. */
  ghost predicate Less<S, V>(i: nat, a: Node<S, V>, b: Node<S, V>) {
    || Left(i, a) < Left(i, b)
    || (Left(i, a) == Left(i, b) && Rank(a) < Rank(b))
    || (Left(i, a) == Left(i, b) && Rank(a) == Rank(b) && Pending(a) < Pending(b))
  }

  lemma BusyLessens<S(!new), V(!new)>(p: Chain<S, V>, sys: System<S, V>, i: nat)
    requires Inv(p, sys) && i < |sys.nodes| && !Stuck(p, sys, i) && sys.nodes[i].mode.Busy?
    ensures |Work(p, sys, i).nodes| == |sys.nodes|
    ensures Less(i, Work(p, sys, i).nodes[i], sys.nodes[i])
    ensures Work(p, sys, i).nodes[..i] == sys.nodes[..i]
  {
    var nd := sys.nodes[i];
    if nd.mode.outs == [] {
      hide Inv, Phase, Limit, Deliver, Settled, Finish, Less;
      FinishLessens(p, i, nd, nd.mode.op, nd.mode.end);
    } else {
      SendLessens(p, sys, i);
    }
  }

  lemma FinishLessens<S(!new), V(!new)>(p: Chain<S, V>, i: nat, nd: Node<S, V>, op: Op<V>, end: Outcome)
    requires nd.mode.Busy?
    ensures Less(i, Finish(p, i, nd, op, end), nd)
  {
    hide Phase;
  }

  lemma SendLessens<S(!new), V(!new)>(p: Chain<S, V>, sys: System<S, V>, i: nat)
    requires Inv(p, sys) && i < |sys.nodes| && !Stuck(p, sys, i) && sys.nodes[i].mode.Busy?
    requires sys.nodes[i].mode.outs != []
    ensures |Work(p, sys, i).nodes| == |sys.nodes|
    ensures Less(i, Work(p, sys, i).nodes[i], sys.nodes[i])
    ensures Work(p, sys, i).nodes[..i] == sys.nodes[..i]
  {
    var nd := sys.nodes[i];
    var Busy(op, outs, end) := nd.mode;
    var nd' := nd.(mode := Busy(op, outs[1..], end));
    hide Inv, Phase, Limit, Deliver, Settled, AtTheSink, Less;
    match Deliver(p, sys, i, outs[0])
    case Blocked => WaitLessens(p, sys, i, outs[0]);
    case Gone => FailingLessens(p, i, nd, op);
    case Dropped => HandedOnLessens(i, nd, nd');
    case Sent =>
      if Last(sys, i) {
        SinkTakesLessens(p, i, nd);
      } else {
        HandedOnLessens(i, nd, Record(nd', outs[0]).(waits := false));
      }
  }

  lemma WaitLessens<S(!new), V(!new)>(p: Chain<S, V>, sys: System<S, V>, i: nat, op: Op<V>)
    requires |sys.nodes| == |p.caps| && i < |sys.nodes| && !Waiting(p, sys, i, op) && Deliver(p, sys, i, op) == Blocked
    requires sys.nodes[i].mode.Busy? || sys.nodes[i].mode.Aborting?
    ensures Less(i, sys.nodes[i].(waits := true), sys.nodes[i])
  {
    hide Deliver, Phase;
  }

  lemma FailingLessens<S(!new), V(!new)>(p: Chain<S, V>, i: nat, nd: Node<S, V>, op: Op<V>)
    requires nd.mode.Busy?
    ensures Less(i, Failing(p, i, nd, op), nd)
  {
    hide Phase;
  }

  lemma HandedOnLessens<S, V>(i: nat, nd: Node<S, V>, nd': Node<S, V>)
    requires nd.mode.Busy? && nd'.mode.Busy? && |nd'.mode.outs| + 1 == |nd.mode.outs|
    requires nd'.inq == nd.inq && nd'.consumed == nd.consumed
    ensures Less(i, nd', nd)
  {
    hide Phase;
  }

  lemma SinkTakesLessens<S(!new), V(!new)>(p: Chain<S, V>, i: nat, nd: Node<S, V>)
    requires nd.mode.Busy? && nd.mode.outs != []
    ensures var Busy(op, outs, end) := nd.mode;
      Less(i, AtTheSink(p, i, nd, nd.(mode := Busy(op, outs[1..], end)), outs[0]), nd)
  {
    hide Phase, AbortSink, SinkStep;
  }

  lemma AbortLessens<S(!new), V(!new)>(p: Chain<S, V>, sys: System<S, V>, i: nat)
    requires Inv(p, sys) && i < |sys.nodes| && !Stuck(p, sys, i) && sys.nodes[i].mode.Aborting?
    ensures |WorkAbort(p, sys, i).nodes| == |sys.nodes|
    ensures Less(i, WorkAbort(p, sys, i).nodes[i], sys.nodes[i])
    ensures WorkAbort(p, sys, i).nodes[..i] == sys.nodes[..i]
  {
    var nd := sys.nodes[i];
    assert Untimed(p);
    if Last(sys, i) && nd.mode.rest != [] {
      var a := AtTheSink(p, i, nd, nd.(mode := Aborting(nd.mode.rest[1..], nd.mode.how)), nd.mode.rest[0]);
      hide Inv, Untimed, AtTheSink, Less;
      SinkLessens(p, i, nd, nd.mode.rest[0]);
      assert WorkAbort(p, sys, i) == Put(sys, i, a);
    } else if nd.mode.rest == [] {
      hide Inv, Untimed, Phase, AtTheSink, Limit, Deliver, Settled;
    } else {
      var nd' := nd.(mode := Aborting(nd.mode.rest[1..], nd.mode.how));
      hide Inv, Untimed, Phase, AtTheSink, Limit, Deliver, Settled, Less;
      match Deliver(p, sys, i, nd.mode.rest[0])
      case Blocked => WaitLessens(p, sys, i, nd.mode.rest[0]);
      case Sent => AbortSentLessens(i, nd, Record(nd', nd.mode.rest[0]).(waits := false));
      case _ => AbortSentLessens(i, nd, nd');
    }
  }

  lemma AbortSentLessens<S, V>(i: nat, nd: Node<S, V>, nd': Node<S, V>)
    requires nd.mode.Aborting? && nd.mode.rest != [] && nd'.mode == Aborting(nd.mode.rest[1..], nd.mode.how)
    requires nd'.inq == nd.inq && nd'.consumed == nd.consumed
    ensures Less(i, nd', nd)
  {
    hide Phase;
  }

  /** An abort of the sink that panics costs an attempt. */
  lemma SinkLessens<S(!new), V(!new)>(p: Chain<S, V>, i: nat, nd: Node<S, V>, op: Op<V>)
    requires Untimed(p) && nd.mode.Aborting? && nd.mode.rest != []
    ensures Less(i, AtTheSink(p, i, nd, nd.(mode := Aborting(nd.mode.rest[1..], nd.mode.how)), op), nd)
  {
    assert p.react(i, nd.state, Abort).outs == [Abort];
    hide Untimed, Phase, AbortSink, SinkStep;
  }

  lemma SourceLessens<S(!new), V(!new)>(p: Chain<S, V>, sys: System<S, V>)
    requires Inv(p, sys) && sys.nodes[0].mode.Ready?
    ensures |Next(p, sys, 0).nodes| == |sys.nodes|
    ensures Less(0, Next(p, sys, 0).nodes[0], sys.nodes[0])
  {
    var nd := sys.nodes[0];
    assert Phase(nd.consumed) <= 1 by { assert NodeOk(p, 0, nd, sys.failed); }
    hide Inv;
    var op := if Pulling(sys) then Flush else Close;
    assert (nd.consumed + [op])[..|nd.consumed + [op]| - 1] == nd.consumed;
  }

  lemma ReceiverLessens<S(!new), V(!new)>(p: Chain<S, V>, sys: System<S, V>, i: nat)
    requires Inv(p, sys) && 0 < i < |sys.nodes| && !Stuck(p, sys, i) && sys.nodes[i].mode.Ready?
    ensures |Receive(p, sys, i).nodes| == |sys.nodes|
    ensures Less(i, Receive(p, sys, i).nodes[i], sys.nodes[i])
    ensures Receive(p, sys, i).nodes[..i] == sys.nodes[..i]
  {
    hide Inv, Phase;
  }

  lemma ExitLessens<S(!new), V(!new)>(p: Chain<S, V>, sys: System<S, V>, i: nat)
    requires Inv(p, sys) && i < |sys.nodes| && !Stuck(p, sys, i) && sys.nodes[i].mode.Ended?
    ensures |StepThread(p, sys, i).nodes| == |sys.nodes|
    ensures Less(i, StepThread(p, sys, i).nodes[i], sys.nodes[i])
    ensures StepThread(p, sys, i).nodes[..i] == sys.nodes[..i]
  {
    hide Inv, Phase, SomeoneInside;
  }

  /** A step makes its thread's measure smaller and touches no thread before it. */
  lemma StepLessens<S(!new), V(!new)>(p: Chain<S, V>, sys: System<S, V>, i: nat)
    requires Inv(p, sys) && i < |sys.nodes| && !Stuck(p, sys, i)
    ensures |Next(p, sys, i).nodes| == |sys.nodes|
    ensures Less(i, Next(p, sys, i).nodes[i], sys.nodes[i])
    ensures Next(p, sys, i).nodes[..i] == sys.nodes[..i]
  {
    assert |sys.nodes| == |p.caps|;
    assert sys.nodes[i].mode.Ended? ==> Next(p, sys, i) == StepThread(p, sys, i);
    assert sys.nodes[i].mode.Busy? ==> Next(p, sys, i) == Work(p, sys, i);
    assert sys.nodes[i].mode.Aborting? ==> Next(p, sys, i) == WorkAbort(p, sys, i);
    assert sys.nodes[i].mode.Ready? && i > 0 ==> Next(p, sys, i) == Receive(p, sys, i);
    hide *;
    match sys.nodes[i].mode
    case Ready => if i == 0 { SourceLessens(p, sys); } else { ReceiverLessens(p, sys, i); }
    case Busy(_, _, _) => BusyLessens(p, sys, i);
    case Aborting(_, _) => AbortLessens(p, sys, i);
    case Ended => ExitLessens(p, sys, i);
  }

  lemma NextKeeps<S(!new), V(!new)>(p: Chain<S, V>, sys: System<S, V>, i: nat)
    requires Inv(p, sys) && i < |sys.nodes|
    ensures Inv(p, Next(p, sys, i))
  {
    assert |sys.nodes| == |p.caps|;
    hide Inv, StepThread;
    ApplyKeeps(p, sys, Stop);
    StepKeeps(p, sys, i);
  }

  // ---------------------------------------------------------------- every schedule ends

  /** The system after `k` moves of a schedule, which picks a thread at every point in time. */
  ghost function At<S(!new), V(!new)>(
      p: Chain<S, V>, sys: System<S, V>, schedule: nat -> nat, k: nat): (r: System<S, V>)
    requires Inv(p, sys)
    ensures Inv(p, r) && |r.nodes| == |sys.nodes|
  {
    if k == 0 then sys
    else
      var before := At(p, sys, schedule, k - 1);
      var i := schedule(k - 1);
      if i < |before.nodes| then NextKeeps(p, before, i); Next(p, before, i) else before
  }

  /** The schedule wastes no move while some thread has not ended. */
  ghost predicate Busily<S(!new), V(!new)>(p: Chain<S, V>, sys: System<S, V>, schedule: nat -> nat)
    requires Inv(p, sys)
  {
    forall k: nat :: !AllDone(At(p, sys, schedule, k)) ==>
      schedule(k) < |sys.nodes| && !Stuck(p, At(p, sys, schedule, k), schedule(k))
  }

  /** From time `t` on only threads from `low` on move. */
  ghost predicate OnlyFrom(schedule: nat -> nat, t: nat, low: nat) { forall k: nat :: t <= k ==> schedule(k) >= low }

  /** The schedule moves thread `low` again. */
  ghost predicate MovesAgain(schedule: nat -> nat, t: nat, low: nat) { exists k: nat :: t <= k && schedule(k) == low }

  lemma AtNext<S(!new), V(!new)>(p: Chain<S, V>, sys: System<S, V>, schedule: nat -> nat, k: nat)
    requires Inv(p, sys) && Busily(p, sys, schedule) && !AllDone(At(p, sys, schedule, k))
    ensures schedule(k) < |sys.nodes| == |p.caps|
    ensures At(p, sys, schedule, k + 1) == Next(p, At(p, sys, schedule, k), schedule(k))
    ensures !Stuck(p, At(p, sys, schedule, k), schedule(k))
  {
    hide Stuck, Next, AllDone;
  }

  /** While only later threads move, an earlier one stays as it is. */
  lemma {:induction false} Unmoved<S(!new), V(!new)>(
      p: Chain<S, V>, sys: System<S, V>, schedule: nat -> nat, t: nat, k: nat, low: nat)
    requires Inv(p, sys) && Busily(p, sys, schedule) && low < |sys.nodes| && t <= k
    requires forall j :: t <= j < k ==> schedule(j) > low
    requires forall j: nat :: t <= j < k ==> !AllDone(At(p, sys, schedule, j))
    ensures At(p, sys, schedule, k).nodes[low] == At(p, sys, schedule, t).nodes[low]
    decreases k
  {
    hide *;
    if t < k {
      Unmoved(p, sys, schedule, t, k - 1, low);
      AtNext(p, sys, schedule, k - 1);
      var before, i := At(p, sys, schedule, k - 1), schedule(k - 1);
      StepLessens(p, before, i);
      assert At(p, sys, schedule, k).nodes[..i][low] == before.nodes[..i][low];
    }
  }

  lemma First(schedule: nat -> nat, t: nat, low: nat) returns (k: nat)
    requires MovesAgain(schedule, t, low)
    ensures t <= k && schedule(k) == low && forall j :: t <= j < k ==> schedule(j) != low
  {
    var m: nat :| t <= m && schedule(m) == low;
    k := t;
    while schedule(k) != low
      invariant t <= k <= m
      invariant forall j :: t <= j < k ==> schedule(j) != low
      decreases m - k
    {
      k := k + 1;
    }
  }

  /** A busy schedule moves some thread as long as not all have ended. */
  lemma SomeThread<S(!new), V(!new)>(p: Chain<S, V>, sys: System<S, V>, schedule: nat -> nat, t: nat, low: nat)
    requires Inv(p, sys) && Busily(p, sys, schedule) && OnlyFrom(schedule, t, low)
    requires !AllDone(At(p, sys, schedule, t))
    ensures low < |sys.nodes|
    ensures !MovesAgain(schedule, t, low) ==> OnlyFrom(schedule, t, low + 1)
    ensures forall k: nat :: t <= k ==> OnlyFrom(schedule, k, low)
  {
    AtNext(p, sys, schedule, t);
    hide At, Inv, Busily;
    assert schedule(t) >= low;
  }

  lemma OnlyLater(schedule: nat -> nat, t: nat, k: nat, low: nat)
    requires OnlyFrom(schedule, t, low) && forall j: nat :: t <= j < k ==> schedule(j) != low
    ensures forall j: nat :: t <= j < k ==> schedule(j) > low
  {}

  lemma LessMeans<S, V>(i: nat, a: Node<S, V>, b: Node<S, V>)
    requires Less(i, a, b)
    ensures Left(i, a) < Left(i, b) || (Left(i, a) == Left(i, b) && Rank(a) < Rank(b))
      || (Left(i, a) == Left(i, b) && Rank(a) == Rank(b) && Pending(a) < Pending(b))
  {}

  /**
    By induction on the threads: a schedule that from some time on moves only threads from
    `low` on comes to the end, since the first of them moves only so often and in between
    only later ones do.
  */
  lemma {:induction false} EndsFrom<S(!new), V(!new)>(
      p: Chain<S, V>, sys: System<S, V>, schedule: nat -> nat, t: nat, low: nat) returns (end: nat)
    requires Inv(p, sys) && Busily(p, sys, schedule) && OnlyFrom(schedule, t, low)
    ensures AllDone(At(p, sys, schedule, end))
    decreases |sys.nodes| - low,
      if low < |sys.nodes| then Left(low, At(p, sys, schedule, t).nodes[low]) else 0,
      if low < |sys.nodes| then Rank(At(p, sys, schedule, t).nodes[low]) else 0,
      if low < |sys.nodes| then Pending(At(p, sys, schedule, t).nodes[low]) else 0
  {
    hide *;
    if AllDone(At(p, sys, schedule, t)) {
      end := t;
    } else {
      SomeThread(p, sys, schedule, t, low);
      if !MovesAgain(schedule, t, low) {
        end := EndsFrom(p, sys, schedule, t, low + 1);
      } else {
        var k := First(schedule, t, low);
        if j: nat :| t <= j <= k && AllDone(At(p, sys, schedule, j)) {
          end := j;
        } else {
          OnlyLater(schedule, t, k, low);
          Unmoved(p, sys, schedule, t, k, low);
          AtNext(p, sys, schedule, k);
          StepLessens(p, At(p, sys, schedule, k), low);
          LessMeans(low, At(p, sys, schedule, k + 1).nodes[low], At(p, sys, schedule, k).nodes[low]);
          end := EndsFrom(p, sys, schedule, k + 1, low);
        }
      }
    }
  }

  lemma DoneMeans<S(!new), V(!new)>(p: Chain<S, V>, sys: System<S, V>)
    requires Inv(p, sys) && AllDone(sys)
    ensures AllEnded(sys) && sys.sourceCloses == 1
  {
    assert sys.nodes[0].exit == Out;
    hide Untimed, NodesOk;
  }

  /**
    Every run ends: from any state the run can get into, once the source delivers nothing
    more, some thread can move unless all are done, and every schedule that only makes
    moves that are possible brings all of them to their end, with the source closed once.
  */
  lemma {:induction false} EveryRunEnds<S(!new), V(!new)>(p: Chain<S, V>, moves: seq<Move<V>>, schedule: nat -> nat)
    requires Untimed(p)
    ensures Inv(p, Run(p, moves))
    ensures var sys := Run(p, moves);
      && (!AllDone(sys) ==> exists i :: 0 <= i < |sys.nodes| && !Stuck(p, sys, i))
      && (Busily(p, sys, schedule) ==> exists k: nat ::
        var end := At(p, sys, schedule, k);
        AllDone(end) && AllEnded(end) && end.sourceCloses == 1)
  {
    var sys := Run(p, moves);
    Reachable(p, moves);
    hide *;
    if !AllDone(sys) {
      var j := SomeoneMoves(p, sys);
    }
    if Busily(p, sys, schedule) {
      AnyThread(schedule);
      var k := EndsFrom(p, sys, schedule, 0, 0);
      DoneMeans(p, At(p, sys, schedule, k));
    }
  }

  lemma AnyThread(schedule: nat -> nat)
    ensures OnlyFrom(schedule, 0, 0)
  {}
}
