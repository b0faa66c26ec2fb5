/**
  The threaded run is determinate: whatever the schedule and the capacities, the sink sees
  a beginning of the single-threaded output, and all of it once the run has ended without a
  failure. It is flushed and closed exactly once, but for one case that is stated exactly. A
  failure is never an effect of the schedule.
*/
module ThreadedRuns {
  import opened Segments
  import opened Threaded
  import opened ThreadedLaws

  /** The operations of a complete run over `items`. */
  function Whole<V>(items: seq<V>): seq<Op<V>> { Processes(items) + [Flush, Close] }

  function Processes<V>(items: seq<V>): seq<Op<V>> {
    if items == [] then [] else Processes(items[..|items| - 1]) + [Process(items[|items| - 1])]
  }

  lemma {:induction false} HistoryShape<V>(ops: seq<Op<V>>)
    requires Phase(ops) <= 2
    ensures ops == Processes(Items(ops)) + (if Phase(ops) >= 1 then [Flush] else [])
      + if Phase(ops) == 2 then [Close] else []
    decreases |ops|
  {
    if ops != [] {
      var front, op := ops[..|ops| - 1], ops[|ops| - 1];
      assert ops == front + [op];
      HistoryShape(front);
      match op
      case Process(item) =>
        assert Items(ops)[..|Items(ops)| - 1] == Items(front);
        assert Processes(Items(ops)) == Processes(Items(front)) + [Process(item)];
      case Flush => assert Items(ops) == Items(front);
      case Close => assert Items(ops) == Items(front);
      case _ =>
    }
  }

  lemma WholeHistory<V>(ops: seq<Op<V>>)
    requires Phase(ops) <= 2
    ensures ops <= Whole(Items(ops)) && (Phase(ops) == 2 ==> ops == Whole(Items(ops)))
  {
    HistoryShape(ops);
  }

  // ---------------------------------------------------------------- from the sink back to the source

  /** What the sink has seen is a beginning of the single-threaded run from segment `i` on of what `i` consumed. */
  lemma {:induction false} Upstream<S(!new), V(!new)>(p: Chain<S, V>, sys: System<S, V>, i: nat)
    requires Inv(p, sys) && i < |sys.nodes|
    ensures var sent := sys.nodes[|sys.nodes| - 1].sent;
      var f := Feed(p, i, p.init[i..], sys.nodes[i].consumed);
      && sent <= f.log
      && (AllEnded(sys) && !sys.failed ==> sent == f.log && f.end == Done)
    decreases |sys.nodes| - i
  {
    var nd, s := sys.nodes[i], p.init[i..];
    assert NodeOk(p, i, nd, sys.failed);
    var t := Alone(p, i, nd);
    assert s[0] == p.init[i] && s[1..] == p.init[i + 1..];
    Fuse(p, i, s, nd.consumed);
    if i + 1 == |sys.nodes| {
      assert s[1..] == [];
      FeedSink(p, i + 1, t.outs);
    } else {
      var next := sys.nodes[i + 1];
      Upstream(p, sys, i + 1);
      assert LinkOk(p, sys.nodes, i + 1, sys.failed);
      assert next.consumed <= nd.sent <= t.outs;
      FeedMonotone(p, i + 1, s[1..], next.consumed, t.outs);
      if AllEnded(sys) && !sys.failed { NothingLost(p, sys, i); }
    }
  }

  /** After a clean end the next segment has consumed everything. */
  lemma NothingLost<S(!new), V(!new)>(p: Chain<S, V>, sys: System<S, V>, i: nat)
    requires Inv(p, sys) && i + 1 < |sys.nodes| && AllEnded(sys) && !sys.failed
    ensures sys.nodes[i + 1].consumed == sys.nodes[i].sent == Alone(p, i, sys.nodes[i]).outs
  {
    var nd, next := sys.nodes[i], sys.nodes[i + 1];
    assert NodeOk(p, i, nd, sys.failed) && NodeOk(p, i + 1, next, sys.failed);
    assert LinkOk(p, sys.nodes, i + 1, sys.failed);
    SentShape(p, i, nd, sys.failed);
    var rest := nd.sent[|next.consumed|..];
    assert nd.sent == next.consumed + rest;
    PhaseSplit(next.consumed, rest);
  }

  lemma SourceFinished<S(!new), V(!new)>(p: Chain<S, V>, sys: System<S, V>)
    requires Inv(p, sys) && AllEnded(sys) && !sys.failed
    ensures Phase(sys.nodes[0].consumed) == 2
  {
    assert NodeOk(p, 0, sys.nodes[0], sys.failed);
  }

  // ---------------------------------------------------------------- what the source delivers

  /** The items the source delivers in a schedule: those of the pulls made while its thread pulls. */
  ghost function Delivered<S(!new), V(!new)>(p: Chain<S, V>, moves: seq<Move<V>>): seq<V>
    requires Untimed(p)
  {
    if moves == [] then []
    else
      var before, m := moves[..|moves| - 1], moves[|moves| - 1];
      Delivered(p, before) + if m.Pull? && Pulling(Run(p, before)) then [m.item] else []
  }

  lemma ItemsMore<V>(ops: seq<Op<V>>, op: Op<V>)
    ensures Items(ops + [op]) == Items(ops) + if op.Process? then [op.item] else []
  {
    assert (ops + [op])[..|ops + [op]| - 1] == ops;
  }

  /** What a move makes the source thread begin. */
  lemma SourceBegins<S(!new), V(!new)>(p: Chain<S, V>, sys: System<S, V>, m: Move<V>)
    requires |sys.nodes| == |p.caps| > 0
    ensures var before, after := sys.nodes[0].consumed, Apply(p, sys, m).nodes[0].consumed;
      if m.Pull? && Pulling(sys) then after == before + [Process(m.item)]
      else after == before || after == before + [Flush] || after == before + [Close]
  {
    hide Work, WorkAbort, Phase, SomeoneInside;
    if m.Step? && m.i < |sys.nodes| {
      match sys.nodes[m.i].mode
      case Busy(_, _, _) => WorkConsumesNothing(p, sys, m.i, 0);
      case Aborting(_, _) => AbortConsumesNothing(p, sys, m.i, 0);
      case _ =>
    }
  }

  /** The source thread begins exactly the items the source delivers, in order. */
  lemma {:induction false} SourceTakesAll<S(!new), V(!new)>(p: Chain<S, V>, moves: seq<Move<V>>)
    requires Untimed(p)
    ensures Items(Run(p, moves).nodes[0].consumed) == Delivered(p, moves)
  {
    if moves != [] {
      var before, m := moves[..|moves| - 1], moves[|moves| - 1];
      var sys := Run(p, before);
      SourceTakesAll(p, before);
      assert Run(p, moves) == Apply(p, sys, m);
      hide Apply, Pulling, Items;
      SourceBegins(p, sys, m);
      var consumed := sys.nodes[0].consumed;
      ItemsMore(consumed, Flush);
      ItemsMore(consumed, Close);
      if m.Pull? { ItemsMore(consumed, Process(m.item)); }
    }
  }

  lemma DeterminateAt<S(!new), V(!new)>(p: Chain<S, V>, sys: System<S, V>)
    requires Inv(p, sys)
    ensures var sent := sys.nodes[|sys.nodes| - 1].sent;
      var single := Feed(p, 0, p.init, Whole(Items(sys.nodes[0].consumed)));
      && sent <= single.log
      && (AllEnded(sys) && !sys.failed ==> sent == single.log && single.end == Done)
  {
    Upstream(p, sys, 0);
    assert p.init[0..] == p.init;
    var consumed := sys.nodes[0].consumed;
    assert NodeOk(p, 0, sys.nodes[0], sys.failed);
    WholeHistory(consumed);
    hide *;
    FeedMonotone(p, 0, p.init, consumed, Whole(Items(consumed)));
    if AllEnded(sys) && !sys.failed {
      SourceFinished(p, sys);
    }
  }

  /**
    For every chain, capacities and schedule: the sink has seen a beginning of the
    single-threaded output on the items the source has delivered, and after an end without
    failure all of it.
  */
  lemma {:induction false} Determinate<S(!new), V(!new)>(p: Chain<S, V>, moves: seq<Move<V>>)
    requires Untimed(p)
    ensures var sys := Run(p, moves);
      var sent := sys.nodes[|sys.nodes| - 1].sent;
      var single := Feed(p, 0, p.init, Whole(Delivered(p, moves)));
      && sent <= single.log
      && (AllEnded(sys) && !sys.failed ==> sent == single.log && single.end == Done)
  {
    hide *;
    Reachable(p, moves);
    SourceTakesAll(p, moves);
    DeterminateAt(p, Run(p, moves));
  }

  // ---------------------------------------------------------------- the sink's teardown

  lemma {:induction false} OnlyWrites<V>(items: seq<V>)
    ensures FlushSink !in Writes(items) && CloseSink !in Writes(items)
  {
    if items != [] { OnlyWrites(items[..|items| - 1]); }
  }

  lemma {:induction false} SinkCallsItems<V>(items: seq<V>)
    ensures SinkCalls(Processes(items)) == Writes(items)
  {
    if items != [] {
      var ops := Processes(items);
      assert ops[..|ops| - 1] == Processes(items[..|items| - 1]);
      SinkCallsItems(items[..|items| - 1]);
    }
  }

  lemma FlushThenClose<V>(ops: seq<Op<V>>)
    requires FlushSink !in SinkCalls(ops) && CloseSink !in SinkCalls(ops)
    ensures SinkCalls(ops + [Flush]) == SinkCalls(ops) + [FlushSink]
    ensures SinkCalls(ops + [Flush] + [Close]) == SinkCalls(ops) + [FlushSink] + [CloseSink]
  {
    assert (ops + [Flush])[..|ops + [Flush]| - 1] == ops;
    assert (ops + [Flush] + [Close])[..|ops + [Flush] + [Close]| - 1] == ops + [Flush];
  }

  lemma SinkCallsShape<V>(ops: seq<Op<V>>)
    requires Phase(ops) <= 2
    ensures SinkCalls(ops) == Writes(Items(ops)) + (if Phase(ops) >= 1 then [FlushSink] else [])
      + if Phase(ops) == 2 then [CloseSink] else []
  {
    hide *;
    var items := Items(ops);
    HistoryShape(ops);
    SinkCallsItems(items);
    OnlyWrites(items);
    FlushThenClose(Processes(items));
    assert Phase(ops) == 2 || ops == Processes(items) + [Flush] || ops == Processes(items);
  }

  /** An abort makes up for whatever of flush and close is still missing. */
  lemma AbortCompletes<V>(ops: seq<Op<V>>)
    requires Phase(ops) <= 2
    ensures AllCalls(ops) == Writes(Items(ops)) + [FlushSink, CloseSink]
  {
    SinkCallsShape(ops);
    OnlyWrites(Items(ops));
    hide SinkCalls, Writes, Items, Phase;
  }

  /**
    The segment of the sink has aborted its chain by itself, which is not repeated, before
    anything was flushed, and the sink's flush panics there.
  */
  ghost predicate CutOff<S, V>(p: Chain<S, V>, sink: Node<S, V>) {
    sink.own && Phase(sink.sent) == 0 && p.panics(|sink.sent|)
  }

  lemma SinkNode<S(!new), V(!new)>(p: Chain<S, V>, sink: Node<S, V>, failed: bool)
    requires Untimed(p) && NodeOk(p, |p.init| - 1, sink, failed)
    ensures var writes := Writes(Items(sink.sent));
      && sink.calls <= writes + [FlushSink, CloseSink]
      && (sink.mode == Ended ==> sink.calls == writes + if CutOff(p, sink) then [FlushSink] else [FlushSink, CloseSink])
  {
    var sent := sink.sent;
    SentShape(p, |p.init| - 1, sink, failed);
    CallsOf(sent);
    SinkCallsShape(sent);
    AbortCompletes(sent);
    assert CutShort(p, sink) <==> CutOff(p, sink);
    assert SinkOk(p, sink);
    hide Untimed, HistoryOk, Phase, SinkCalls, Writes, Items, CutShort, CutOff;
  }

  lemma TornDownAt<S(!new), V(!new)>(p: Chain<S, V>, sys: System<S, V>)
    requires Inv(p, sys)
    ensures var sink := sys.nodes[|sys.nodes| - 1];
      var writes := Writes(Items(sink.sent));
      && AtSink(sys) <= writes + [FlushSink, CloseSink]
      && (sink.mode == Ended ==>
        AtSink(sys) == writes + if CutOff(p, sink) then [FlushSink] else [FlushSink, CloseSink])
  {
    hide NodeOk, LinkOk, Phase, Writes, Items, CutOff, TickOk, FlushOk;
    assert NodeOk(p, |sys.nodes| - 1, sys.nodes[|sys.nodes| - 1], sys.failed);
    SinkNode(p, sys.nodes[|sys.nodes| - 1], sys.failed);
  }

  /** Source::close is called by its thread after it has seen every segment drop its `_done`, which each does last. */
  lemma ClosedLast<S(!new), V(!new)>(p: Chain<S, V>, sys: System<S, V>)
    requires Inv(p, sys)
    ensures sys.sourceCloses <= 1 && (sys.sourceCloses == 1 ==> AllEnded(sys))
    ensures sys.nodes[0].exit == Out ==> sys.sourceCloses == 1
  {
    hide Untimed, HistoryOk, SinkOk, LinkOk;
    forall i | 0 <= i < |sys.nodes| && sys.sourceCloses == 1 ensures sys.nodes[i].mode == Ended {
      assert NodeOk(p, i, sys.nodes[i], sys.failed);
    }
  }

  /**
    In every schedule the sink is only ever written to, then flushed, then closed, each of
    the last two at most once. When its thread has ended each was called exactly once if
    and only if its segment was not cut off in an abort of its own; otherwise it was flushed
    and not closed. Source::close runs at most once, once when its thread is done, and only
    after every thread is done with its part of the chain.
  */
  lemma {:induction false} TornDownOnce<S(!new), V(!new)>(p: Chain<S, V>, moves: seq<Move<V>>)
    requires Untimed(p)
    ensures var sys := Run(p, moves);
      var sink := sys.nodes[|sys.nodes| - 1];
      var all := Writes(Items(sink.sent)) + [FlushSink, CloseSink];
      && AtSink(sys) <= all
      && (sink.mode == Ended ==>
        && (AtSink(sys) == all <==> !CutOff(p, sink))
        && (CutOff(p, sink) ==> AtSink(sys) == Writes(Items(sink.sent)) + [FlushSink]))
      && sys.sourceCloses <= 1
      && (sys.nodes[0].exit == Out ==> sys.sourceCloses == 1)
      && (sys.sourceCloses == 1 ==> AllEnded(sys))
  {
    hide *;
    var sys := Run(p, moves);
    Reachable(p, moves);
    ClosedLast(p, sys);
    TornDownAt(p, sys);
  }

  /** A chain whose second segment fails on every item, with a sink whose flush and close panic in an abort. */
  function PanickyChain(): Chain<int, int> {
    Chain([0, 0],
      (i: nat, s: int, op: Op<int>) =>
        if op.Process? && i > 0 then Reaction([], s, Fail)
        else if op == Tick then Reaction([], s, Done)
        else Reaction([op], s, Done),
      [1, 1], n => true, false)
  }

  /** One item, handed over, on which the segment fails and aborts itself: the sink is flushed and never closed. */
  function PanickyMoves(): seq<Move<int>> { [Pull(7), Step(0), Step(1), Step(1), Step(1)] }

  lemma PanickyIsUntimed()
    ensures Untimed(PanickyChain())
  {
    var p := PanickyChain();
    forall v: int ensures Phase([Process(v)]) == 0 {
      assert [Process(v)][..0] == [];
    }
    assert [Op<int>.Flush][..0] == [] && Phase([Op<int>.Flush]) == 1;
    assert forall i: nat, s: int :: p.react(i, s, Flush) == Reaction([Flush], s, Done);
    assert forall i: nat, s: int :: FlushOk(p.react(i, s, Flush));
  }

  lemma {:induction false} CloseCanBeSkipped()
    ensures Untimed(PanickyChain())
    ensures var sys := Run(PanickyChain(), PanickyMoves());
      sys.nodes[1].mode == Ended && CutOff(PanickyChain(), sys.nodes[1]) && AtSink(sys) == [FlushSink]
  {
    var p, moves := PanickyChain(), PanickyMoves();
    PanickyIsUntimed();
    assert moves[..5] == moves && |moves| == 5;
    assert moves[0] == Pull(7) && moves[1] == Step(0) && moves[2] == Step(1) && moves[3] == Step(1)
      && moves[4] == Step(1);
    hide *;
    RunStep(p, moves, 0);
    RunStep(p, moves, 1);
    RunStep(p, moves, 2);
    RunStep(p, moves, 3);
    RunStep(p, moves, 4);
    PanickySource();
    PanickySegment();
    PanickySink();
  }

  function Fresh(): Node<int, int> { Node(0, Ready, [], 0, true, false, [], [], [], false, Inside) }

  function Sender(): Node<int, int> {
    Fresh().(mode := Busy(Process(7), [], Done), consumed := [Process(7)], sent := [Process(7)])
  }

  function Failer(): Node<int, int> { Fresh().(consumed := [Process(7)]) }

  lemma PanickySource()
    ensures var p := PanickyChain();
      Apply(p, Apply(p, Start(p), Pull(7)), Step(0)) == System([Sender(), Fresh().(inq := [Process(7)])], false, 0)
  {
    var p, item: seq<Op<int>> := PanickyChain(), [Process(7)];
    assert Start(p).nodes == [Fresh(), Fresh()];
    assert [] + item == item && item[1..] == [];
    var s1 := Apply(p, Start(p), Pull(7));
    assert s1.nodes == [Fresh().(mode := Busy(Process(7), item, Done), consumed := item), Fresh()];
    assert s1 == System(s1.nodes, false, 0);
    hide Phase;
    var s2 := Apply(p, s1, Step(0));
    assert s2 == Push(p, s1, 0, s1.nodes[0].(mode := Busy(Process(7), [], Done)), Process(7));
    assert s2.nodes == [Sender(), Fresh().(inq := item)];
  }

  lemma PanickySegment()
    ensures var p := PanickyChain();
      Apply(p, System([Sender(), Fresh().(inq := [Process(7)])], false, 0), Step(1))
        == System([Sender(), Failer().(mode := Busy(Process(7), [], Fail))], false, 0)
  {
    var item: seq<Op<int>> := [Process(7)];
    assert [] + item == item && item[1..] == [];
    hide Phase;
    var s := Apply(PanickyChain(), System([Sender(), Fresh().(inq := item)], false, 0), Step(1));
    assert s.nodes == [Sender(), Failer().(mode := Busy(Process(7), [], Fail))];
  }

  lemma PanickySink()
    ensures var p, failer := PanickyChain(), Failer().(rx := false, own := true);
      var sys := Apply(p, Apply(p, System([Sender(), Failer().(mode := Busy(Process(7), [], Fail))], false, 0),
        Step(1)), Step(1));
      && sys.nodes == [Sender(), failer.(mode := Ended, calls := [FlushSink])]
      && sys.nodes[1].mode == Ended && CutOff(p, sys.nodes[1]) && AtSink(sys) == [FlushSink]
  {
    var p, failer := PanickyChain(), Failer().(rx := false, own := true);
    var s4 := Apply(p, System([Sender(), Failer().(mode := Busy(Process(7), [], Fail))], false, 0), Step(1));
    assert s4.nodes == [Sender(), failer.(mode := Aborting([Abort], Own))];
    var s5 := Apply(p, s4, Step(1));
    assert AbortSink(p, []) == SinkAbort([FlushSink], true);
    assert s5.nodes == [Sender(), failer.(mode := Ended, calls := [FlushSink])];
  }

  lemma RunStep<S(!new), V(!new)>(p: Chain<S, V>, moves: seq<Move<V>>, k: nat)
    requires Untimed(p) && k < |moves|
    ensures Run(p, moves[..k + 1]) == Apply(p, Run(p, moves[..k]), moves[k])
    ensures k == 0 ==> Run(p, moves[..k]) == Start(p)
  {
    assert moves[..k + 1][..|moves[..k + 1]| - 1] == moves[..k];
    hide Apply, Untimed;
  }

  // ---------------------------------------------------------------- failures are real

  /** Some segment fails on its own history. */
  ghost predicate SomeFails<S, V>(p: Chain<S, V>, sys: System<S, V>)
    requires |sys.nodes| == |p.init|
  {
    exists i :: 0 <= i < |sys.nodes| && Alone(p, i, sys.nodes[i]).end != Done
  }

  /** Nothing has failed that was not told to: neither a lost edge nor a missing close counts as a cause. */
  ghost predicate Blameless<S, V>(p: Chain<S, V>, sys: System<S, V>, sourceFailed: bool)
    requires |sys.nodes| == |p.init|
  {
    sys.failed ==> sourceFailed || SomeFails(p, sys)
  }

  /** Without a failure a sender never finds its receiver gone. */
  lemma NeverGone<S(!new), V(!new)>(p: Chain<S, V>, sys: System<S, V>, i: nat)
    requires Inv(p, sys) && i < |sys.nodes| && sys.nodes[i].mode.Busy? && sys.nodes[i].mode.outs != []
    requires Deliver(p, sys, i, sys.nodes[i].mode.outs[0]) == Gone
    ensures sys.failed
  {
    var nd, next := sys.nodes[i], sys.nodes[i + 1];
    assert NodeOk(p, i, nd, sys.failed) && NodeOk(p, i + 1, next, sys.failed);
    assert LinkOk(p, sys.nodes, i + 1, sys.failed);
    if !sys.failed {
      assert next.mode.Ended? && Phase(next.consumed) == 2 && next.consumed <= nd.sent <= Alone(p, i, nd).outs;
      NothingMore(p, i, nd, next.consumed);
    }
  }

  /** Who has consumed a close has consumed everything the segment before it can send. */
  lemma NothingMore<S(!new), V(!new)>(p: Chain<S, V>, i: nat, nd: Node<S, V>, consumed: seq<Op<V>>)
    requires Untimed(p) && i < |p.init| && Phase(nd.consumed) <= 2
    requires consumed <= Alone(p, i, nd).outs && Phase(consumed) == 2
    ensures consumed == Alone(p, i, nd).outs && Phase(nd.consumed) == 2
  {
    TransShape(p, i, p.init[i], nd.consumed);
    var t := Alone(p, i, nd);
    PhaseSplit(consumed, t.outs[|consumed|..]);
    assert t.outs == consumed + t.outs[|consumed|..];
  }

  /** Without a failure no segment finds its sender gone before the close. */
  lemma NeverOrphaned<S(!new), V(!new)>(p: Chain<S, V>, sys: System<S, V>, i: nat)
    requires Inv(p, sys) && 0 < i < |sys.nodes|
    requires sys.nodes[i].mode.Ready? && sys.nodes[i].inq == [] && sys.nodes[i - 1].mode.Ended?
    ensures sys.failed
  {
    var nd, up := sys.nodes[i], sys.nodes[i - 1];
    assert NodeOk(p, i, nd, sys.failed) && NodeOk(p, i - 1, up, sys.failed);
    assert LinkOk(p, sys.nodes, i, sys.failed);
    TransShape(p, i - 1, p.init[i - 1], up.consumed);
    assert nd.consumed + [] == nd.consumed;
  }

  lemma SinkConsumesNothing<S, V>(p: Chain<S, V>, i: nat, nd: Node<S, V>, mode: Mode<V>, op: Op<V>)
    ensures AtTheSink(p, i, nd, nd.(mode := mode), op).consumed == nd.consumed
  {
    hide AbortSink, SinkStep;
  }

  lemma WorkConsumesNothing<S, V>(p: Chain<S, V>, sys: System<S, V>, i: nat, j: nat)
    requires |sys.nodes| == |p.caps| && i < |sys.nodes| && j < |sys.nodes| && sys.nodes[i].mode.Busy?
    ensures Work(p, sys, i).nodes[j].consumed == sys.nodes[j].consumed
  {
    hide Deliver, Settled, AtTheSink, Limit;
    var Busy(op, outs, end) := sys.nodes[i].mode;
    if outs != [] { SinkConsumesNothing(p, i, sys.nodes[i], Busy(op, outs[1..], end), outs[0]); }
  }

  lemma AbortConsumesNothing<S, V>(p: Chain<S, V>, sys: System<S, V>, i: nat, j: nat)
    requires |sys.nodes| == |p.caps| && i < |sys.nodes| && j < |sys.nodes| && sys.nodes[i].mode.Aborting?
    ensures WorkAbort(p, sys, i).nodes[j].consumed == sys.nodes[j].consumed
  {
    hide Deliver, Settled, AtTheSink, Limit;
    var Aborting(rest, how) := sys.nodes[i].mode;
    if rest != [] { SinkConsumesNothing(p, i, sys.nodes[i], Aborting(rest[1..], how), rest[0]); }
  }

  /** A thread begins a new operation only at the top of its loop. */
  lemma ConsumesWhenReady<S, V>(p: Chain<S, V>, sys: System<S, V>, m: Move<V>, j: nat)
    requires |sys.nodes| == |p.caps| && j < |sys.nodes|
    ensures |Apply(p, sys, m).nodes| == |sys.nodes|
    ensures Apply(p, sys, m).nodes[j].consumed == sys.nodes[j].consumed || sys.nodes[j].mode.Ready?
  {
    hide Work, WorkAbort, Phase, SomeoneInside;
    if m.Step? && m.i < |sys.nodes| {
      match sys.nodes[m.i].mode
      case Busy(_, _, _) => WorkConsumesNothing(p, sys, m.i, j);
      case Aborting(_, _) => AbortConsumesNothing(p, sys, m.i, j);
      case _ =>
    }
  }

  lemma FailureHasCause<S(!new), V(!new)>(p: Chain<S, V>, sys: System<S, V>, i: nat)
    requires Inv(p, sys) && !sys.failed && i < |sys.nodes| && StepThread(p, sys, i).failed
    ensures |StepThread(p, sys, i).nodes| == |p.init| && SomeFails(p, StepThread(p, sys, i))
  {
    var nd := sys.nodes[i];
    assert NodeOk(p, i, nd, sys.failed);
    match nd.mode
    case Ready => NeverOrphaned(p, sys, i);
    case Busy(op, outs, end) =>
      if outs != [] {
        NeverGone(p, sys, i);
      } else {
        var nd' := StepThread(p, sys, i).nodes[i];
        assert Alone(p, i, nd').end != Done;
      }
  }

  lemma BlamelessKeeps<S(!new), V(!new)>(p: Chain<S, V>, sys: System<S, V>, m: Move<V>, sourceFailed: bool)
    requires Inv(p, sys) && Blameless(p, sys, sourceFailed)
    ensures |Apply(p, sys, m).nodes| == |p.init|
    ensures Blameless(p, Apply(p, sys, m), sourceFailed || m.SourceFails? || m.SourcePanics?)
  {
    var sys' := Apply(p, sys, m);
    if SomeFails(p, sys) {
      var i :| 0 <= i < |sys.nodes| && Alone(p, i, sys.nodes[i]).end != Done;
      assert NodeOk(p, i, sys.nodes[i], sys.failed);
      hide Apply;
      ConsumesWhenReady(p, sys, m, i);
      assert Alone(p, i, sys'.nodes[i]).end != Done;
    } else if sys'.failed && !sys.failed && !m.SourceFails? && !m.SourcePanics? {
      FailureHasCause(p, sys, m.i);
    } else {
      ConsumesWhenReady(p, sys, m, 0);
      hide *;
    }
  }

  ghost predicate SourceFailed<V>(moves: seq<Move<V>>) {
    exists m :: m in moves && (m.SourceFails? || m.SourcePanics?)
  }

  lemma {:induction false} NoFalseAlarm<S(!new), V(!new)>(p: Chain<S, V>, moves: seq<Move<V>>)
    requires Untimed(p)
    ensures Blameless(p, Run(p, moves), SourceFailed(moves))
  {
    if moves != [] {
      var front, m := moves[..|moves| - 1], moves[|moves| - 1];
      NoFalseAlarm(p, front);
      Reachable(p, front);
      assert moves == front + [m];
      hide Inv, Apply;
      BlamelessKeeps(p, Run(p, front), m, SourceFailed(front));
      if SourceFailed(front) {
        var x :| x in front && (x.SourceFails? || x.SourcePanics?);
        assert x in moves;
      }
      if m.SourceFails? || m.SourcePanics? { assert m in moves; }
    }
  }

  /** A history on which segment `i` or one after it fails makes the run from the source on fail. */
  lemma {:induction false} FailsFromSource<S(!new), V(!new)>(p: Chain<S, V>, sys: System<S, V>, i: nat)
    requires Inv(p, sys) && i < |sys.nodes|
    requires Feed(p, i, p.init[i..], sys.nodes[i].consumed).end != Done
    ensures Feed(p, 0, p.init, Whole(Items(sys.nodes[0].consumed))).end != Done
  {
    var nd := sys.nodes[i];
    assert NodeOk(p, i, nd, sys.failed);
    if i == 0 {
      assert p.init[0..] == p.init;
      WholeHistory(nd.consumed);
      FailsOnMore(p, 0, p.init, nd.consumed, Whole(Items(nd.consumed)));
    } else {
      var up, s := sys.nodes[i - 1], p.init[i - 1..];
      assert NodeOk(p, i - 1, up, sys.failed) && LinkOk(p, sys.nodes, i, sys.failed);
      assert s[0] == p.init[i - 1] && s[1..] == p.init[i..];
      var t := Alone(p, i - 1, up);
      assert nd.consumed <= up.sent <= t.outs;
      FailsOnMore(p, i, s[1..], nd.consumed, t.outs);
      Fuse(p, i - 1, s, up.consumed);
      FailsFromSource(p, sys, i - 1);
    }
  }

  lemma FailsOnMore<S, V>(p: Chain<S, V>, i: nat, st: seq<S>, xs: seq<Op<V>>, ys: seq<Op<V>>)
    requires xs <= ys && Feed(p, i, st, xs).end != Done
    ensures Feed(p, i, st, ys).end != Done
  {
    assert ys == xs + ys[|xs|..];
    FeedSplit(p, i, st, xs, ys[|xs|..]);
  }

  lemma SomeFailsAlone<S(!new), V(!new)>(p: Chain<S, V>, sys: System<S, V>)
    requires Inv(p, sys) && SomeFails(p, sys)
    ensures Feed(p, 0, p.init, Whole(Items(sys.nodes[0].consumed))).end != Done
  {
    var i :| 0 <= i < |sys.nodes| && Alone(p, i, sys.nodes[i]).end != Done;
    assert p.init[i..][0] == p.init[i];
    Fuse(p, i, p.init[i..], sys.nodes[i].consumed);
    FailsFromSource(p, sys, i);
  }

  lemma CleanSink<S(!new), V(!new)>(p: Chain<S, V>, sys: System<S, V>)
    requires Inv(p, sys) && !sys.failed
    ensures AtSink(sys) == SinkCalls(sys.nodes[|sys.nodes| - 1].sent)
  {
    var last := |sys.nodes| - 1;
    var sink := sys.nodes[last];
    assert NodeOk(p, last, sink, sys.failed);
    if sink.mode.Ended? {
      TransShape(p, last, p.init[last], sink.consumed);
      CallsOf(sink.sent);
    }
  }

  /**
    Failures do not depend on the schedule: if the single-threaded run over the items
    delivered does not fail and the source does not either, then no schedule makes the threaded run
    fail, and once it has ended the sink has seen exactly the single-threaded output.
  */
  lemma {:induction false} SucceedsLikeSingle<S(!new), V(!new)>(p: Chain<S, V>, moves: seq<Move<V>>)
    requires Untimed(p) && !SourceFailed(moves)
    ensures var sys := Run(p, moves);
      var single := Feed(p, 0, p.init, Whole(Delivered(p, moves)));
      single.end == Done ==>
        && !sys.failed
        && (AllEnded(sys) ==> AtSink(sys) == SinkCalls(single.log))
  {
    var sys := Run(p, moves);
    Reachable(p, moves);
    NoFalseAlarm(p, moves);
    assert sys.failed ==> SomeFails(p, sys);
    hide *;
    SourceTakesAll(p, moves);
    DeterminateAt(p, sys);
    if sys.failed { SomeFailsAlone(p, sys); } else { CleanSink(p, sys); }
  }
}
