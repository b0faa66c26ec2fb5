/**
  What every schedule of the threaded driver keeps: each thread has handed on a beginning
  of what its segment alone makes of what it consumed, each edge carries operations in
  order, and nothing is lost unless something failed.
*/
module ThreadedLaws {
  import opened Segments
  import opened Threaded

  // ---------------------------------------------------------------- the invariant

  ghost function Alone<S, V>(p: Chain<S, V>, i: nat, nd: Node<S, V>): Trace<S, V>
    requires i < |p.init|
  {
    Trans(p, i, p.init[i], nd.consumed)
  }

  ghost predicate Rest<V>(rest: seq<Op<V>>) { rest == [] || rest == [Abort] }

  ghost predicate ReadyOk<S, V>(nd: Node<S, V>, t: Trace<S, V>) {
    Phase(nd.consumed) <= 1 && t == Trace(nd.sent, nd.state, Done) && nd.rx
  }

  /** Inside the call for an item, flush or close, which is the last operation consumed. */
  ghost predicate WorkOk<S, V>(p: Chain<S, V>, i: nat, nd: Node<S, V>, t: Trace<S, V>)
    requires i < |p.init| && nd.mode.Busy?
  {
    && nd.rx
    && t == Trace(nd.sent + nd.mode.outs, nd.state, nd.mode.end)
    && nd.consumed != [] && nd.consumed[|nd.consumed| - 1] == nd.mode.op
    && Trans(p, i, p.init[i], nd.consumed[..|nd.consumed| - 1]).end == Done
  }

  ghost predicate TickingOk<S, V>(nd: Node<S, V>, t: Trace<S, V>)
    requires nd.mode.Busy?
  {
    ReadyOk(nd, t) && nd.mode.end == Done && (nd.mode.outs == [] || nd.mode.outs == [Tick])
  }

  ghost predicate EndedOk<S, V>(nd: Node<S, V>, t: Trace<S, V>, failed: bool) {
    !nd.rx && (!failed ==> Phase(nd.consumed) == 2 && t.outs == nd.sent && t.end == Done)
  }

  /** Where a thread stands in its own history. */
  ghost predicate HistoryOk<S, V>(p: Chain<S, V>, i: nat, nd: Node<S, V>, failed: bool)
    requires i < |p.init|
  {
    var t := Alone(p, i, nd);
    && Phase(nd.consumed) <= 2
    && nd.sent <= t.outs
    && match nd.mode
       case Ready => ReadyOk(nd, t)
       case Busy(op, outs, end) =>
         if op == Tick then TickingOk(nd, t)
         else if op == Abort then failed && nd.rx && Rest(outs) && end == Done
         else WorkOk(p, i, nd, t)
       case Aborting(rest, _) => failed && Rest(rest)
       case Ended => EndedOk(nd, t, failed)
  }

  /** Who tears down, and how far the thread is past its end. */
  ghost predicate TeardownOk<S, V>(i: nat, nd: Node<S, V>, failed: bool) {
    && (nd.own ==> failed && i > 0 && (nd.mode.Ended? || (nd.mode.Aborting? && nd.mode.how.Own?)))
    && (nd.mode.Aborting? && nd.mode.how.Own? && i > 0 ==> nd.own)
    && (nd.exit != Inside ==> nd.mode.Ended?)
  }

  // ---------------------------------------------------------------- the node that owns the sink

  function AllCalls<V(==)>(sent: seq<Op<V>>): seq<SinkCall<V>> {
    Once(Once(SinkCalls(sent), FlushSink), CloseSink)
  }

  /** The segment aborted its chain by itself, nothing had been flushed, and that flush panicked. */
  ghost predicate CutShort<S, V>(p: Chain<S, V>, nd: Node<S, V>) {
    nd.own && FlushSink !in SinkCalls(nd.sent) && p.panics(|SinkCalls(nd.sent)|)
  }

  /** How many of flush and close were called. */
  function Made<V(==)>(calls: seq<SinkCall<V>>): nat {
    (if FlushSink in calls then 1 else 0) + if CloseSink in calls then 1 else 0
  }

  ghost predicate SinkOk<S, V>(p: Chain<S, V>, nd: Node<S, V>) {
    var base, all := SinkCalls(nd.sent), AllCalls(nd.sent);
    match nd.mode
    case Ready => nd.calls == base
    case Busy(op, outs, _) => nd.calls == if op == Abort && outs == [] then all else base
    case Aborting(rest, how) =>
      if rest == [] then nd.calls == all && !CutShort(p, nd)
      else if how.Own? then nd.calls == base
      else nd.calls in {base, Once(base, FlushSink), all} && how.left + Made(nd.calls) >= 3
    case Ended => nd.calls == if CutShort(p, nd) then base + [FlushSink] else all
  }

  ghost predicate NodeOk<S, V>(p: Chain<S, V>, i: nat, nd: Node<S, V>, failed: bool)
    requires i < |p.init|
  {
    HistoryOk(p, i, nd, failed) && TeardownOk(i, nd, failed) && (i + 1 == |p.init| ==> SinkOk(p, nd))
  }

  /** Operations cross an edge in order, and only a dropped receiver loses any. */
  ghost predicate EdgeOk<S, V>(limit: nat, a: Node<S, V>, b: Node<S, V>, failed: bool) {
    && |b.inq| <= limit
    && (b.rx ==> a.sent == b.consumed + Norm(b.inq))
    && (!b.rx ==> b.consumed <= a.sent && b.inq == [])
    && (Abort in b.inq ==> failed)
    && (!b.rx && !failed ==> b.mode == Ended)
  }

  ghost predicate LinkOk<S, V>(p: Chain<S, V>, nodes: seq<Node<S, V>>, i: nat, failed: bool)
    requires |nodes| == |p.caps|
  {
    0 < i < |nodes| ==> EdgeOk(Limit(p, i), nodes[i - 1], nodes[i], failed)
  }

  ghost predicate NodesOk<S, V>(p: Chain<S, V>, nodes: seq<Node<S, V>>, failed: bool)
    requires |nodes| == |p.init| == |p.caps|
  {
    && (forall i :: 0 <= i < |nodes| ==> NodeOk(p, i, nodes[i], failed))
    && (forall i :: 0 <= i < |nodes| ==> LinkOk(p, nodes, i, failed))
  }

  ghost predicate Inv<S(!new), V(!new)>(p: Chain<S, V>, sys: System<S, V>) {
    && Untimed(p)
    && |sys.nodes| == |p.init|
    && NodesOk(p, sys.nodes, sys.failed)
    && sys.nodes[0].inq == []
    && ExitOk(sys)
  }

  /** The source is closed after every segment has dropped its `_done`, and its flag counts the calls. */
  ghost predicate ExitOk<S, V>(sys: System<S, V>)
    requires |sys.nodes| > 0
  {
    var exit := sys.nodes[0].exit;
    && sys.sourceCloses == (if exit == Inside || exit == Closing(false) then 0 else 1)
    && (exit != Inside ==> !SomeoneInside(sys))
  }

  // ---------------------------------------------------------------- one thread moves

  lemma SameExits<S, V>(a: System<S, V>, b: System<S, V>)
    requires |a.nodes| == |b.nodes| > 0 && ExitOk(a) && a.sourceCloses == b.sourceCloses
    requires forall j :: 0 <= j < |a.nodes| ==> a.nodes[j].exit == b.nodes[j].exit
    ensures ExitOk(b)
  {}

  lemma NodeMono<S, V>(p: Chain<S, V>, i: nat, nd: Node<S, V>, before: bool, after: bool)
    requires i < |p.init| && NodeOk(p, i, nd, before) && (before ==> after)
    ensures NodeOk(p, i, nd, after)
  {}

  lemma EdgeMono<S, V>(limit: nat, a: Node<S, V>, a': Node<S, V>, b: Node<S, V>, before: bool, after: bool)
    requires EdgeOk(limit, a, b, before) && (before ==> after) && a'.sent == a.sent
    ensures EdgeOk(limit, a', b, after)
  {}

  /** A thread that changes itself, keeps its side of both edges and forwards nothing. */
  lemma PutKeeps<S(!new), V(!new)>(p: Chain<S, V>, sys: System<S, V>, i: nat, nd: Node<S, V>, failed: bool)
    requires Inv(p, sys) && i < |sys.nodes| && (sys.failed ==> failed)
    requires NodeOk(p, i, nd, failed) && nd.exit == sys.nodes[i].exit
    requires i + 1 < |sys.nodes| ==> nd.sent == sys.nodes[i].sent
    requires i > 0 ==> EdgeOk(Limit(p, i), sys.nodes[i - 1], nd, failed)
    requires i == 0 ==> nd.inq == []
    ensures Inv(p, Put(sys, i, nd).(failed := failed))
  {
    var sys' := Put(sys, i, nd).(failed := failed);
    assert ExitOk(sys') by { SameExits(sys, sys'); }
    hide ExitOk, NodeOk, EdgeOk, Untimed, Limit;
    forall j | 0 <= j < |sys'.nodes|
      ensures NodeOk(p, j, sys'.nodes[j], failed) && LinkOk(p, sys'.nodes, j, failed)
    {
      assert NodeOk(p, j, sys.nodes[j], sys.failed) && LinkOk(p, sys.nodes, j, sys.failed);
      NodeMono(p, j, sys.nodes[j], sys.failed, failed);
      if 0 < j && j != i {
        EdgeMono(Limit(p, j), sys.nodes[j - 1], sys'.nodes[j - 1], sys.nodes[j], sys.failed, failed);
      }
    }
  }

  lemma EdgeGrows<S, V>(limit: nat, a: Node<S, V>, b: Node<S, V>, failed: bool, op: Op<V>)
    requires EdgeOk(limit, a, b, failed) && b.rx && |b.inq| < limit
    requires op == Abort ==> failed
    ensures EdgeOk(limit, Record(a, op), b.(inq := b.inq + [op]), failed)
  {
    NormSnoc(b.inq, op);
    assert b.consumed + (Norm(b.inq) + [op]) == (b.consumed + Norm(b.inq)) + [op];
  }

  lemma RecordSent<S, V>(a: Node<S, V>, b: Node<S, V>, op: Op<V>)
    requires a.sent == b.sent
    ensures Record(a, op).sent == Record(b, op).sent
  {}

  /** A thread's place in its own history does not depend on what waits for it. */
  lemma InputIsFree<S, V>(p: Chain<S, V>, i: nat, nd: Node<S, V>, failed: bool, inq: seq<Op<V>>, unpub: nat)
    requires i < |p.init| && NodeOk(p, i, nd, failed)
    ensures NodeOk(p, i, nd.(inq := inq, unpub := unpub), failed)
  {}

  /** Nor on whether it waits for room. */
  lemma WaitIsFree<S, V>(p: Chain<S, V>, i: nat, nd: Node<S, V>, failed: bool, waits: bool)
    requires i < |p.init| && NodeOk(p, i, nd, failed)
    ensures NodeOk(p, i, nd.(waits := waits), failed)
  {}

  /** A thread finds no room on the edge ahead. */
  lemma WaitKeeps<S(!new), V(!new)>(p: Chain<S, V>, sys: System<S, V>, i: nat)
    requires Inv(p, sys) && i < |sys.nodes| && !sys.nodes[i].mode.Ended?
    ensures Inv(p, Put(sys, i, sys.nodes[i].(waits := true)))
  {
    var nd := sys.nodes[i];
    assert NodeOk(p, i, nd, sys.failed) && LinkOk(p, sys.nodes, i, sys.failed);
    hide NodeOk, EdgeOk, Limit;
    WaitIsFree(p, i, nd, sys.failed, true);
    if i > 0 { EdgeSeesInput(Limit(p, i), sys.nodes[i - 1], nd, nd.(waits := true), sys.failed); }
    PutKeeps(p, sys, i, nd.(waits := true), sys.failed);
  }

  lemma EdgeSeesInput<S, V>(limit: nat, a: Node<S, V>, b: Node<S, V>, b': Node<S, V>, failed: bool)
    requires EdgeOk(limit, a, b, failed)
    requires b'.inq == b.inq && b'.consumed == b.consumed && b'.rx == b.rx && !b.mode.Ended?
    ensures EdgeOk(limit, a, b', failed)
  {}

  lemma PushedLinks<S, V>(p: Chain<S, V>, before: seq<Node<S, V>>, i: nat, a: Node<S, V>, b: Node<S, V>, failed: bool)
    requires i + 1 < |before| == |p.init| == |p.caps| && NodesOk(p, before, failed) && !before[i].mode.Ended?
    requires NodeOk(p, i, a, failed) && NodeOk(p, i + 1, b, failed)
    requires a.inq == before[i].inq && a.consumed == before[i].consumed && a.rx == before[i].rx
    requires EdgeOk(Limit(p, i + 1), a, b, failed) && b.sent == before[i + 1].sent
    ensures NodesOk(p, before[i := a][i + 1 := b], failed)
  {
    var nodes := before[i := a][i + 1 := b];
    hide NodeOk, EdgeOk, Limit;
    forall j | 0 <= j < |nodes|
      ensures NodeOk(p, j, nodes[j], failed) && LinkOk(p, nodes, j, failed)
    {
      assert NodeOk(p, j, before[j], failed) && LinkOk(p, before, j, failed);
      if j == i && i > 0 {
        EdgeSeesInput(Limit(p, i), before[i - 1], before[i], a, failed);
      } else if j == i + 2 {
        EdgeMono(Limit(p, j), before[i + 1], b, before[j], failed, failed);
      }
    }
  }

  /** The two nodes and the edge between them once the operation has crossed over. */
  lemma PushedEdge<S(!new), V(!new)>(p: Chain<S, V>, sys: System<S, V>, i: nat, nd: Node<S, V>, op: Op<V>)
    requires Inv(p, sys) && i + 1 < |sys.nodes|
    requires nd.sent == sys.nodes[i].sent && (op == Abort ==> sys.failed) && Deliver(p, sys, i, op) == Sent
    ensures var b := sys.nodes[i + 1];
      var b' := b.(inq := b.inq + [op]);
      NodeOk(p, i + 1, b', sys.failed) && EdgeOk(Limit(p, i + 1), Record(nd, op).(waits := false), b', sys.failed)
  {
    var failed, b := sys.failed, sys.nodes[i + 1];
    var b' := b.(inq := b.inq + [op]);
    assert LinkOk(p, sys.nodes, i + 1, failed) && NodeOk(p, i + 1, b, failed);
    assert b.rx && |b.inq| < Limit(p, i + 1);
    hide ExitOk, NodeOk, EdgeOk, Untimed, Limit, Norm, Normal, Record;
    EdgeGrows(Limit(p, i + 1), sys.nodes[i], b, failed, op);
    RecordSent(sys.nodes[i], nd, op);
    EdgeMono(Limit(p, i + 1), Record(sys.nodes[i], op), Record(nd, op).(waits := false), b', failed, failed);
    InputIsFree(p, i + 1, b, failed, b.inq + [op], b.unpub);
  }

  /** A thread that hands one operation on to the next. */
  lemma PushKeeps<S(!new), V(!new)>(p: Chain<S, V>, sys: System<S, V>, i: nat, nd: Node<S, V>, op: Op<V>)
    requires Inv(p, sys) && i + 1 < |sys.nodes| && !sys.nodes[i].mode.Ended?
    requires NodeOk(p, i, Record(nd, op), sys.failed)
    requires nd.(mode := sys.nodes[i].mode) == sys.nodes[i]
    requires op == Abort ==> sys.failed
    requires Deliver(p, sys, i, op) == Sent
    ensures Inv(p, Push(p, sys, i, nd, op))
  {
    var sys', sender, b := Push(p, sys, i, nd, op), Record(nd, op).(waits := false), sys.nodes[i + 1];
    var b' := b.(inq := b.inq + [op]);
    assert sender.inq == nd.inq && sender.consumed == nd.consumed && sender.rx == nd.rx && sender.exit == nd.exit;
    assert sys' == sys.(nodes := sys.nodes[i := sender][i + 1 := b']);
    hide ExitOk, NodesOk, NodeOk, EdgeOk, Untimed, Limit, Record, Push, Deliver;
    SameExits(sys, sys');
    WaitIsFree(p, i, Record(nd, op), sys.failed, false);
    PushedEdge(p, sys, i, nd, op);
    PushedLinks(p, sys.nodes, i, sender, b', sys.failed);
  }

  lemma BeginOk<S(!new), V(!new)>(p: Chain<S, V>, i: nat, nd: Node<S, V>, op: Op<V>, failed: bool)
    requires Untimed(p) && i < |p.init| && NodeOk(p, i, nd, failed) && nd.mode.Ready?
    requires Normal(op) ==> Phase(nd.consumed + [op]) <= 2
    requires op == Abort ==> failed
    ensures NodeOk(p, i, Begin(p, i, nd, op), failed)
  {
    var r := p.react(i, nd.state, op);
    if Normal(op) {
      assert (nd.consumed + [op])[..|nd.consumed + [op]| - 1] == nd.consumed;
    } else if op == Abort {
      assert r.outs == [Abort];
    } else {
      assert TickOk(r, nd.state);
    }
  }

  /** The thread aborts its chain by itself, or unwinds. */
  lemma AbortOk<S(!new), V(!new)>(p: Chain<S, V>, i: nat, nd: Node<S, V>, failed: bool)
    requires Untimed(p) && i < |p.init| && NodeOk(p, i, nd, failed)
    requires nd.mode.Ready? || (nd.mode.Busy? && !(nd.mode.op == Abort && nd.mode.outs == []))
    ensures NodeOk(p, i, AbortItself(p, i, nd), true) && NodeOk(p, i, AbortItself(p, i, Unplug(nd)), true)
    ensures NodeOk(p, i, Unwind(p, i, nd), true)
  {
    assert p.react(i, nd.state, Abort).outs == [Abort];
  }

  /** Flush and close are called exactly when their operations have reached the sink. */
  lemma {:induction false} CallsOf<V>(ops: seq<Op<V>>)
    requires Phase(ops) <= 2
    ensures FlushSink in SinkCalls(ops) <==> Phase(ops) >= 1
    ensures CloseSink in SinkCalls(ops) <==> Phase(ops) == 2
    ensures |SinkCalls(ops)| == |ops|
    decreases |ops|
  {
    if ops != [] { CallsOf(ops[..|ops| - 1]); }
  }

  /** A last operation other than a close leaves the history open. */
  lemma LastOp<V>(ops: seq<Op<V>>)
    requires Phase(ops) <= 2 && ops != []
    ensures ops[|ops| - 1] == Close <==> Phase(ops) == 2
  {}

  /** After a close the segment's history is complete, whether or not the close failed. */
  lemma CloseHistory<S(!new), V(!new)>(p: Chain<S, V>, i: nat, nd: Node<S, V>, failed: bool)
    requires Untimed(p) && i < |p.init| && HistoryOk(p, i, nd, failed)
    requires nd.mode.Busy? && nd.mode.outs == [] && nd.mode.op == Close
    ensures HistoryOk(p, i, End(nd), failed || nd.mode.end != Done)
    ensures Phase(nd.sent) == 2
  {
    hide Trans, Untimed, Phase, TickingOk, ReadyOk, Norm;
    var t := Alone(p, i, nd);
    assert WorkOk(p, i, nd, t);
    assert t.outs == nd.sent + [] == nd.sent;
    LastOp(nd.consumed);
    TransShape(p, i, p.init[i], nd.consumed);
  }

  lemma CloseOk<S(!new), V(!new)>(p: Chain<S, V>, i: nat, nd: Node<S, V>, failed: bool)
    requires Untimed(p) && i < |p.init| && NodeOk(p, i, nd, failed)
    requires nd.mode.Busy? && nd.mode.outs == [] && nd.mode.op == Close
    ensures NodeOk(p, i, End(nd), failed || nd.mode.end != Done)
  {
    CloseHistory(p, i, nd, failed);
    CallsOf(nd.sent);
    hide HistoryOk, Untimed, Phase, SinkCalls;
  }

  lemma OpenOk<S(!new), V(!new)>(p: Chain<S, V>, i: nat, nd: Node<S, V>, failed: bool)
    requires Untimed(p) && i < |p.init| && NodeOk(p, i, nd, failed)
    requires nd.mode.Busy? && nd.mode.outs == [] && nd.mode.end == Done && !Closes(nd.mode.op)
    ensures NodeOk(p, i, nd.(mode := Ready), failed)
  {
    if Normal(nd.mode.op) {
      var t := Alone(p, i, nd);
      assert t.outs == nd.sent + [] == nd.sent;
      LastOp(nd.consumed);
      hide Trans, Untimed, Phase;
    }
  }

  lemma FinishOk<S(!new), V(!new)>(p: Chain<S, V>, i: nat, nd: Node<S, V>, failed: bool)
    requires Untimed(p) && i < |p.init| && NodeOk(p, i, nd, failed) && nd.mode.Busy? && nd.mode.outs == []
    ensures NodeOk(p, i, Finish(p, i, nd, nd.mode.op, nd.mode.end), failed || nd.mode.end != Done)
  {
    var Busy(op, outs, end) := nd.mode;
    if end == Panicked || (end == Fail && !Closes(op)) {
      assert !(op == Abort && outs == []);
      hide NodeOk, Untimed;
      AbortOk(p, i, nd, failed);
    } else if op == Close {
      hide NodeOk, Untimed;
      CloseOk(p, i, nd, failed);
    } else if op != Abort {
      hide NodeOk, Untimed;
      OpenOk(p, i, nd, failed);
    } else {
      hide Trans, Untimed, Phase;
    }
  }

  lemma GoneOk<S(!new), V(!new)>(p: Chain<S, V>, i: nat, nd: Node<S, V>, failed: bool)
    requires Untimed(p) && i + 1 < |p.init| && NodeOk(p, i, nd, failed) && nd.mode.Busy? && nd.mode.outs != []
    ensures NodeOk(p, i, Failing(p, i, nd, nd.mode.op), true)
  {
    AbortOk(p, i, nd, failed);
  }

  /** What is left to hand on in the call for an item, flush or close is all of that kind. */
  lemma OutsNormal<S(!new), V(!new)>(p: Chain<S, V>, i: nat, nd: Node<S, V>, failed: bool)
    requires Untimed(p) && i < |p.init| && NodeOk(p, i, nd, failed)
    requires nd.mode.Busy? && Normal(nd.mode.op) && nd.mode.outs != []
    ensures Normal(nd.mode.outs[0])
  {
    var t := Alone(p, i, nd);
    TransShape(p, i, p.init[i], nd.consumed);
    PhaseNorm(t.outs);
    assert t.outs[|nd.sent|] == nd.mode.outs[0];
    assert nd.mode.outs[0] in t.outs;
  }

  lemma SentOk<S(!new), V(!new)>(p: Chain<S, V>, i: nat, nd: Node<S, V>, failed: bool)
    requires Untimed(p) && i < |p.init| && NodeOk(p, i, nd, failed) && nd.mode.Busy? && nd.mode.outs != []
    ensures var Busy(op, outs, end) := nd.mode;
      var nd' := nd.(mode := Busy(op, outs[1..], end));
      && (outs[0] == Abort ==> failed && op == Abort)
      && (i + 1 < |p.init| ==> NodeOk(p, i, Record(nd', outs[0]), failed))
      && (i + 1 < |p.init| && !Normal(outs[0]) ==> NodeOk(p, i, nd', failed))
  {
    var Busy(op, outs, end) := nd.mode;
    if Normal(op) {
      OutsNormal(p, i, nd, failed);
      assert nd.sent + outs == (nd.sent + [outs[0]]) + outs[1..];
    }
  }

  lemma TakenHistory<S(!new), V(!new)>(p: Chain<S, V>, i: nat, nd: Node<S, V>, failed: bool)
    requires i < |p.init| && HistoryOk(p, i, nd, failed) && nd.mode.Busy? && nd.mode.outs != [] && Normal(nd.mode.op)
    requires Normal(nd.mode.outs[0])
    ensures var Busy(op, outs, end) := nd.mode;
      HistoryOk(p, i, Record(nd.(mode := Busy(op, outs[1..], end)), outs[0]), failed)
  {
    assert nd.sent + nd.mode.outs == (nd.sent + [nd.mode.outs[0]]) + nd.mode.outs[1..];
    hide Trans, Phase;
  }

  /** The sink gets a write, a flush, a close or a tick. */
  lemma SinkTakes<S(!new), V(!new)>(p: Chain<S, V>, i: nat, nd: Node<S, V>, failed: bool)
    requires Untimed(p) && i + 1 == |p.init| && NodeOk(p, i, nd, failed)
    requires nd.mode.Busy? && nd.mode.outs != [] && nd.mode.op != Abort
    ensures var Busy(op, outs, end) := nd.mode;
      outs[0] != Abort && NodeOk(p, i, AtTheSink(p, i, nd, nd.(mode := Busy(op, outs[1..], end)), outs[0]), failed)
  {
    var Busy(op, outs, end) := nd.mode;
    var nd' := nd.(mode := Busy(op, outs[1..], end));
    if op == Tick {
      hide Untimed, Trans, Phase, SinkCalls;
    } else {
      OutsNormal(p, i, nd, failed);
      TakenHistory(p, i, nd, failed);
      SinkCalled(nd.sent, outs[0]);
      var sink := AtTheSink(p, i, nd, nd', outs[0]);
      assert sink == Record(nd', outs[0]).(calls := SinkStep(nd.calls, outs[0]));
      CallsAreFree(p, i, Record(nd', outs[0]), failed, sink.calls);
      hide Untimed, HistoryOk, SinkCalls, SinkStep, AtTheSink;
    }
  }

  lemma CallsAreFree<S, V>(p: Chain<S, V>, i: nat, nd: Node<S, V>, failed: bool, calls: seq<SinkCall<V>>)
    requires i < |p.init|
    ensures HistoryOk(p, i, nd.(calls := calls), failed) == HistoryOk(p, i, nd, failed)
  {}

  lemma SinkCalled<V>(sent: seq<Op<V>>, op: Op<V>)
    ensures SinkCalls(sent + [op]) == SinkStep(SinkCalls(sent), op)
  {
    assert (sent + [op])[..|sent + [op]| - 1] == sent;
  }

  /** One abort of the sink: it has been through both calls, or panicked in one more of them. */
  lemma AbortSinkMade<S, V>(p: Chain<S, V>, base: seq<SinkCall<V>>, calls: seq<SinkCall<V>>)
    requires calls in {base, Once(base, FlushSink), Once(Once(base, FlushSink), CloseSink)}
    ensures var a := AbortSink(p, calls);
      var all := Once(Once(base, FlushSink), CloseSink);
      && (!a.panicked ==> a.calls == all)
      && (a.panicked ==> a.calls in {Once(base, FlushSink), all} && Made(a.calls) > Made(calls))
    ensures calls == base ==>
      var a := AbortSink(p, calls);
      a.calls == if FlushSink !in base && p.panics(|base|) then base + [FlushSink]
        else Once(Once(base, FlushSink), CloseSink)
  {}

  /** The node is about to send its sink an abort, after which it would go on as `nd'`. */
  ghost predicate SendsAbort<S, V>(nd: Node<S, V>, nd': Node<S, V>) {
    && nd' == nd.(mode := nd'.mode)
    && match nd.mode
       case Busy(op, outs, _) => op == Abort && outs == [Abort] && nd'.mode == nd.mode.(outs := [])
       case Aborting(rest, _) => rest == [Abort] && nd'.mode == nd.mode.(rest := [])
       case _ => false
  }

  lemma AbortedHistory<S(!new), V(!new)>(p: Chain<S, V>, i: nat, nd: Node<S, V>, nd': Node<S, V>)
    requires Untimed(p) && i + 1 == |p.init| && SendsAbort(nd, nd')
    requires HistoryOk(p, i, nd, true) && TeardownOk(i, nd, true)
    ensures HistoryOk(p, i, AtTheSink(p, i, nd, nd', Abort), true)
    ensures TeardownOk(i, AtTheSink(p, i, nd, nd', Abort), true)
  {
    assert p.react(i, nd.state, Abort).outs == [Abort];
    hide Untimed, Trans, Phase, AbortSink;
  }

  lemma AbortedSink<S(!new), V(!new)>(p: Chain<S, V>, i: nat, nd: Node<S, V>, nd': Node<S, V>)
    requires Untimed(p) && i + 1 == |p.init| && SendsAbort(nd, nd')
    requires SinkOk(p, nd) && TeardownOk(i, nd, true)
    ensures SinkOk(p, AtTheSink(p, i, nd, nd', Abort))
  {
    AbortSinkMade(p, SinkCalls(nd.sent), nd.calls);
    assert p.react(i, nd.state, Abort).outs == [Abort];
    assert Made(nd.calls) <= 2;
    hide Untimed, SinkCalls, AbortSink;
    var a := AbortSink(p, nd.calls);
    assert !a.panicked ==> a.calls == AllCalls(nd.sent);
  }

  /** The sink gets an abort, from its segment's loop or from a teardown. */
  lemma SinkAborts<S(!new), V(!new)>(p: Chain<S, V>, i: nat, nd: Node<S, V>, nd': Node<S, V>)
    requires Untimed(p) && i + 1 == |p.init| && NodeOk(p, i, nd, true) && SendsAbort(nd, nd')
    ensures NodeOk(p, i, AtTheSink(p, i, nd, nd', Abort), true)
  {
    hide Untimed, HistoryOk, TeardownOk, SinkOk, AtTheSink;
    AbortedHistory(p, i, nd, nd');
    AbortedSink(p, i, nd, nd');
  }

  lemma SinkEdge<S, V>(
      p: Chain<S, V>, i: nat, limit: nat, a: Node<S, V>, b: Node<S, V>, b': Node<S, V>, op: Op<V>, failed: bool)
    requires EdgeOk(limit, a, b, failed) && b' == b.(mode := b'.mode) && !b.mode.Ended? && (op == Abort ==> failed)
    ensures EdgeOk(limit, a, AtTheSink(p, i, b, b', op), failed)
  {
    assert Abort !in Unplug(b).inq;
    hide AbortSink, Norm, SinkStep;
  }

  lemma SinkKeeps<S(!new), V(!new)>(p: Chain<S, V>, sys: System<S, V>, nd: Node<S, V>, op: Op<V>)
    requires Inv(p, sys)
    requires var i := |sys.nodes| - 1;
      && nd == sys.nodes[i].(mode := nd.mode) && !sys.nodes[i].mode.Ended? && (op == Abort ==> sys.failed)
      && NodeOk(p, i, AtTheSink(p, i, sys.nodes[i], nd, op), sys.failed)
    ensures Inv(p, Push(p, sys, |sys.nodes| - 1, nd, op))
  {
    var i := |sys.nodes| - 1;
    var b := sys.nodes[i];
    var nd' := AtTheSink(p, i, b, nd, op);
    assert nd'.exit == b.exit && (b.inq == [] ==> nd'.inq == []) by { hide AbortSink, SinkStep, Inv; }
    assert LinkOk(p, sys.nodes, i, sys.failed);
    hide NodeOk, EdgeOk, AtTheSink, Limit;
    if i > 0 { SinkEdge(p, i, Limit(p, i), sys.nodes[i - 1], b, nd, op, sys.failed); }
    PutKeeps(p, sys, i, nd', sys.failed);
  }

  /** The history on either side of an edge is the beginning of items, flush, close. */
  lemma SentShape<S(!new), V(!new)>(p: Chain<S, V>, i: nat, nd: Node<S, V>, failed: bool)
    requires Untimed(p) && i < |p.init| && NodeOk(p, i, nd, failed)
    ensures Phase(nd.sent) <= 2
  {
    var t := Alone(p, i, nd);
    TransShape(p, i, p.init[i], nd.consumed);
    assert t.outs == nd.sent + t.outs[|nd.sent|..];
    PhaseSplit(nd.sent, t.outs[|nd.sent|..]);
  }

  lemma UnplugOk<S, V>(limit: nat, a: Node<S, V>, b: Node<S, V>, failed: bool, mode: Mode<V>)
    requires EdgeOk(limit, a, b, failed) && (mode.Ended? || failed)
    ensures EdgeOk(limit, a, Unplug(b).(mode := mode), failed)
  {
    assert Abort !in Unplug(b).inq;
  }

  // ---------------------------------------------------------------- every move

  lemma WorkKeeps<S(!new), V(!new)>(p: Chain<S, V>, sys: System<S, V>, i: nat)
    requires Inv(p, sys) && i < |sys.nodes| && sys.nodes[i].mode.Busy?
    ensures Inv(p, Work(p, sys, i))
  {
    var nd := sys.nodes[i];
    var Busy(op, outs, end) := nd.mode;
    assert NodeOk(p, i, nd, sys.failed) && Untimed(p) && |sys.nodes| == |p.init| == |p.caps|;
    if outs == [] {
      if Settled(p, sys, i) {
        FinishLink(p, sys, i);
        hide Inv, NodeOk, EdgeOk, Untimed, Limit;
        FinishOk(p, i, nd, sys.failed);
        PutKeeps(p, sys, i, Finish(p, i, nd, op, end), sys.failed || end != Done);
      }
    } else {
      WorkSends(p, sys, i);
    }
  }

  lemma WorkSends<S(!new), V(!new)>(p: Chain<S, V>, sys: System<S, V>, i: nat)
    requires Inv(p, sys) && i < |sys.nodes| && sys.nodes[i].mode.Busy? && sys.nodes[i].mode.outs != []
    ensures Inv(p, Work(p, sys, i))
  {
    var nd := sys.nodes[i];
    var Busy(op, outs, end) := nd.mode;
    var nd' := nd.(mode := Busy(op, outs[1..], end));
    assert NodeOk(p, i, nd, sys.failed) && Untimed(p) && |sys.nodes| == |p.init| == |p.caps|;
    assert op == Abort ==> sys.failed && outs == [Abort];
    assert LinkOk(p, sys.nodes, i, sys.failed);
    assert i > 0 ==> EdgeOk(Limit(p, i), sys.nodes[i - 1], nd, sys.failed);
    assert i == 0 ==> nd.inq == [];
    FailingLink(p, sys, i);
    hide Inv, NodeOk, Untimed, Limit, AtTheSink;
    SentOk(p, i, nd, sys.failed);
    match Deliver(p, sys, i, outs[0])
    case Blocked => WaitKeeps(p, sys, i);
    case Gone =>
      GoneOk(p, i, nd, sys.failed);
      PutKeeps(p, sys, i, Failing(p, i, nd, op), true);
    case Dropped =>
      if i > 0 { EdgeSeesInput(Limit(p, i), sys.nodes[i - 1], nd, nd', sys.failed); }
      PutKeeps(p, sys, i, nd', sys.failed);
    case Sent =>
      if !Last(sys, i) {
        PushKeeps(p, sys, i, nd', outs[0]);
      } else {
        if op == Abort { SinkAborts(p, i, nd, nd'); } else { SinkTakes(p, i, nd, sys.failed); }
        SinkKeeps(p, sys, nd', outs[0]);
      }
  }

  lemma FailingLink<S(!new), V(!new)>(p: Chain<S, V>, sys: System<S, V>, i: nat)
    requires Inv(p, sys) && i < |sys.nodes| && sys.nodes[i].mode.Busy?
    ensures var nd := Failing(p, i, sys.nodes[i], sys.nodes[i].mode.op);
      && nd.sent == sys.nodes[i].sent && nd.inq == []
      && (i > 0 ==> EdgeOk(Limit(p, i), sys.nodes[i - 1], nd, true))
  {
    assert LinkOk(p, sys.nodes, i, sys.failed);
    if i > 0 {
      var nd := Failing(p, i, sys.nodes[i], sys.nodes[i].mode.op);
      UnplugOk(Limit(p, i), sys.nodes[i - 1], sys.nodes[i], true, nd.mode);
    }
  }

  lemma FinishLink<S(!new), V(!new)>(p: Chain<S, V>, sys: System<S, V>, i: nat)
    requires Inv(p, sys) && i < |sys.nodes| && sys.nodes[i].mode.Busy?
    ensures var Busy(op, _, end) := sys.nodes[i].mode;
      var nd := Finish(p, i, sys.nodes[i], op, end);
      && nd.sent == sys.nodes[i].sent && (i == 0 ==> nd.inq == [])
      && (i > 0 ==> EdgeOk(Limit(p, i), sys.nodes[i - 1], nd, sys.failed || end != Done))
  {
    var Busy(op, _, end) := sys.nodes[i].mode;
    FailingLink(p, sys, i);
    assert LinkOk(p, sys.nodes, i, sys.failed);
    if i > 0 && end == Done && Closes(op) {
      UnplugOk(Limit(p, i), sys.nodes[i - 1], sys.nodes[i], sys.failed, Ended);
    }
  }

  /** A teardown whose operation went out, was not wanted, or is over. */
  lemma AbortGoesOn<S, V>(p: Chain<S, V>, i: nat, nd: Node<S, V>, failed: bool)
    requires i < |p.init| && NodeOk(p, i, nd, failed) && nd.mode.Aborting?
    ensures failed && (nd.mode.rest == [] || nd.mode.rest == [Abort])
    ensures nd.mode.rest == [] ==> NodeOk(p, i, End(nd), failed)
    ensures nd.mode.rest != [] && i + 1 < |p.init| ==> NodeOk(p, i, nd.(mode := Aborting([], nd.mode.how)), failed)
  {
    hide Trans, Phase, SinkCalls, Once;
  }

  lemma WorkAbortKeeps<S(!new), V(!new)>(p: Chain<S, V>, sys: System<S, V>, i: nat)
    requires Inv(p, sys) && i < |sys.nodes| && sys.nodes[i].mode.Aborting?
    ensures Inv(p, WorkAbort(p, sys, i))
  {
    var nd, failed := sys.nodes[i], sys.failed;
    assert NodeOk(p, i, nd, failed) && LinkOk(p, sys.nodes, i, failed);
    assert Untimed(p) && |sys.nodes| == |p.init| == |p.caps|;
    assert i == 0 ==> nd.inq == [];
    hide Inv, NodeOk, EdgeOk, Untimed, Limit, AtTheSink, Push;
    AbortGoesOn(p, i, nd, failed);
    var nd' := nd.(mode := Aborting([], nd.mode.how));
    assert nd.mode.rest != [] ==> nd.mode.rest[1..] == [];
    if nd.mode.rest == [] {
      if Settled(p, sys, i) {
        if i > 0 { UnplugOk(Limit(p, i), sys.nodes[i - 1], nd, failed, Ended); }
        PutKeeps(p, sys, i, End(nd), failed);
      }
    } else if Deliver(p, sys, i, Abort) == Sent && Last(sys, i) {
      SinkAborts(p, i, nd, nd');
      SinkKeeps(p, sys, nd', Abort);
    } else if Deliver(p, sys, i, Abort) == Sent {
      assert Record(nd', Abort) == nd';
      PushKeeps(p, sys, i, nd', Abort);
    } else if Deliver(p, sys, i, Abort) == Blocked {
      WaitKeeps(p, sys, i);
    } else {
      if i > 0 { EdgeSeesInput(Limit(p, i), sys.nodes[i - 1], nd, nd', failed); }
      PutKeeps(p, sys, i, nd', failed);
    }
  }

  lemma EdgeShrinks<S, V>(limit: nat, a: Node<S, V>, b: Node<S, V>, b': Node<S, V>, failed: bool)
    requires EdgeOk(limit, a, b, failed) && b.rx && b'.rx && b.inq != [] && b'.inq == b.inq[1..]
    requires b'.consumed == if Normal(b.inq[0]) then b.consumed + [b.inq[0]] else b.consumed
    ensures EdgeOk(limit, a, b', failed)
    ensures b'.consumed <= a.sent
  {
    if Normal(b.inq[0]) {
      assert a.sent == (b.consumed + [b.inq[0]]) + Norm(b.inq[1..]);
    }
  }

  /** A segment takes the next operation off its edge. */
  lemma TakeKeeps<S(!new), V(!new)>(p: Chain<S, V>, sys: System<S, V>, i: nat)
    requires Inv(p, sys) && 0 < i < |sys.nodes| && sys.nodes[i].mode.Ready? && sys.nodes[i].inq != []
    ensures Inv(p, Receive(p, sys, i))
  {
    var a, nd := sys.nodes[i - 1], sys.nodes[i];
    assert NodeOk(p, i, nd, sys.failed) && NodeOk(p, i - 1, a, sys.failed) && LinkOk(p, sys.nodes, i, sys.failed);
    assert nd.rx && EdgeOk(Limit(p, i), a, nd, sys.failed);
    var op, nd' := nd.inq[0], nd.(inq := nd.inq[1..], unpub := Took(p, i, nd));
    assert op == Abort ==> sys.failed;
    assert Untimed(p) && |p.init| == |sys.nodes|;
    var began := Begin(p, i, nd', op);
    hide NodeOk, EdgeOk, Norm, Inv, Untimed, Limit, Trans;
    SentShape(p, i - 1, a, sys.failed);
    EdgeShrinks(Limit(p, i), a, nd, began, sys.failed);
    if Normal(op) {
      assert a.sent == began.consumed + a.sent[|began.consumed|..];
      PhaseSplit(began.consumed, a.sent[|began.consumed|..]);
    }
    hide Phase;
    InputIsFree(p, i, nd, sys.failed, nd'.inq, nd'.unpub);
    BeginOk(p, i, nd', op, sys.failed);
    PutKeeps(p, sys, i, began, sys.failed);
  }

  lemma ReceiveKeeps<S(!new), V(!new)>(p: Chain<S, V>, sys: System<S, V>, i: nat)
    requires Inv(p, sys) && 0 < i < |sys.nodes| && sys.nodes[i].mode.Ready?
    ensures Inv(p, Receive(p, sys, i))
  {
    var a, nd := sys.nodes[i - 1], sys.nodes[i];
    if nd.inq != [] {
      TakeKeeps(p, sys, i);
    } else if a.mode == Ended {
      assert NodeOk(p, i, nd, sys.failed) && LinkOk(p, sys.nodes, i, sys.failed);
      assert EdgeOk(Limit(p, i), a, nd, true);
      hide NodeOk, Norm, EdgeOk;
      AbortOk(p, i, nd, sys.failed);
      assert AbortItself(p, i, Unplug(nd)) == Unplug(nd).(mode := AbortItself(p, i, nd).mode, own := true);
      UnplugOk(Limit(p, i), a, nd, true, AbortItself(p, i, nd).mode);
      PutKeeps(p, sys, i, AbortItself(p, i, Unplug(nd)), true);
    } else {
      PublishKeeps(p, sys, i);
    }
  }

  /** A segment publishes how much it has taken. */
  lemma PublishKeeps<S(!new), V(!new)>(p: Chain<S, V>, sys: System<S, V>, i: nat)
    requires Inv(p, sys) && 0 < i < |sys.nodes| && sys.nodes[i].mode.Ready?
    ensures Inv(p, Put(sys, i, sys.nodes[i].(unpub := 0)))
  {
    var nd := sys.nodes[i];
    assert NodeOk(p, i, nd, sys.failed) && LinkOk(p, sys.nodes, i, sys.failed);
    hide NodeOk, EdgeOk, Limit;
    InputIsFree(p, i, nd, sys.failed, nd.inq, 0);
    EdgeSeesInput(Limit(p, i), sys.nodes[i - 1], nd, nd.(unpub := 0), sys.failed);
    PutKeeps(p, sys, i, nd.(unpub := 0), sys.failed);
  }

  /** The source thread begins an operation of its own. */
  lemma SourceKeeps<S(!new), V(!new)>(p: Chain<S, V>, sys: System<S, V>, op: Op<V>)
    requires Inv(p, sys) && sys.nodes[0].mode.Ready?
    requires op == Tick || (Normal(op) && NextPhase(Phase(sys.nodes[0].consumed), op) <= 2)
    ensures Inv(p, Put(sys, 0, Begin(p, 0, sys.nodes[0], op)))
  {
    var nd := sys.nodes[0];
    assert NodeOk(p, 0, nd, sys.failed);
    assert (nd.consumed + [op])[..|nd.consumed + [op]| - 1] == nd.consumed;
    BeginOk(p, 0, nd, op, sys.failed);
    PutKeeps(p, sys, 0, Begin(p, 0, nd, op), sys.failed);
  }

  /** A thread that has ended drops its `_done`; the source thread waits for that and closes the source. */
  lemma ExitKeeps<S(!new), V(!new)>(p: Chain<S, V>, sys: System<S, V>, i: nat)
    requires Inv(p, sys) && i < |sys.nodes| && sys.nodes[i].mode.Ended?
    ensures Inv(p, StepThread(p, sys, i))
  {
    var sys' := StepThread(p, sys, i);
    var nd := sys.nodes[i];
    var nd' := nd.(exit := sys'.nodes[i].exit);
    assert sys'.nodes == sys.nodes[i := nd'] && sys'.failed == sys.failed;
    ExitMoves(p, sys, i);
    assert NodeOk(p, i, nd', sys.failed) by {
      assert NodeOk(p, i, nd, sys.failed);
      hide HistoryOk, SinkOk, Inv;
      ExitIsFree(p, i, nd, sys.failed, nd'.exit);
    }
    hide Untimed, NodeOk, Limit, ExitOk, StepThread;
    forall j | 0 <= j < |sys'.nodes| ensures LinkOk(p, sys'.nodes, j, sys.failed) {
      assert LinkOk(p, sys.nodes, j, sys.failed);
    }
  }

  lemma ExitMoves<S(!new), V(!new)>(p: Chain<S, V>, sys: System<S, V>, i: nat)
    requires Inv(p, sys) && i < |sys.nodes| && sys.nodes[i].mode.Ended?
    ensures ExitOk(StepThread(p, sys, i))
  {
    var sys' := StepThread(p, sys, i);
    assert SomeoneInside(sys') ==> SomeoneInside(sys);
    hide Inv, Untimed;
  }

  lemma ExitIsFree<S, V>(p: Chain<S, V>, i: nat, nd: Node<S, V>, failed: bool, exit: Exit)
    requires i < |p.init|
    ensures HistoryOk(p, i, nd.(exit := exit), failed) == HistoryOk(p, i, nd, failed)
    ensures SinkOk(p, nd.(exit := exit)) == SinkOk(p, nd)
  {}

  lemma {:induction false} StepKeeps<S(!new), V(!new)>(p: Chain<S, V>, sys: System<S, V>, i: nat)
    requires Inv(p, sys) && i < |sys.nodes|
    ensures Inv(p, StepThread(p, sys, i))
  {
    assert NodeOk(p, i, sys.nodes[i], sys.failed);
    assert sys.nodes[i].mode.Ready? ==> Phase(sys.nodes[i].consumed) <= 1;
    hide Inv, Work, WorkAbort, Receive, NodeOk;
    match sys.nodes[i].mode
    case Ready =>
      if i > 0 {
        ReceiveKeeps(p, sys, i);
      } else if AfterFlush(p, sys) != sys {
        SourceKeeps(p, sys, Close);
      }
    case Busy(_, _, _) => WorkKeeps(p, sys, i);
    case Aborting(_, _) => WorkAbortKeeps(p, sys, i);
    case Ended => ExitKeeps(p, sys, i);
  }

  lemma SourceFailsKeeps<S(!new), V(!new)>(p: Chain<S, V>, sys: System<S, V>)
    requires Inv(p, sys) && Pulling(sys)
    ensures Inv(p, Apply(p, sys, SourceFails)) && Inv(p, Apply(p, sys, SourcePanics))
  {
    assert NodeOk(p, 0, sys.nodes[0], sys.failed);
    AbortOk(p, 0, sys.nodes[0], sys.failed);
    hide NodeOk;
    PutKeeps(p, sys, 0, AbortItself(p, 0, sys.nodes[0]), true);
    PutKeeps(p, sys, 0, Unwind(p, 0, sys.nodes[0]), true);
  }

  lemma SegmentIdleKeeps<S(!new), V(!new)>(p: Chain<S, V>, sys: System<S, V>, i: nat)
    requires Inv(p, sys) && 0 < i < |sys.nodes| && sys.nodes[i].mode.Ready?
    ensures Inv(p, Put(sys, i, Begin(p, i, sys.nodes[i].(unpub := 0), Tick)))
  {
    var nd := sys.nodes[i].(unpub := 0);
    assert NodeOk(p, i, sys.nodes[i], sys.failed) && LinkOk(p, sys.nodes, i, sys.failed);
    InputIsFree(p, i, sys.nodes[i], sys.failed, nd.inq, 0);
    BeginOk(p, i, nd, Tick, sys.failed);
    EdgeSeesInput(Limit(p, i), sys.nodes[i - 1], sys.nodes[i], Begin(p, i, nd, Tick), sys.failed);
    hide NodeOk, EdgeOk;
    PutKeeps(p, sys, i, Begin(p, i, nd, Tick), sys.failed);
  }

  lemma ApplyKeeps<S(!new), V(!new)>(p: Chain<S, V>, sys: System<S, V>, m: Move<V>)
    requires Inv(p, sys)
    ensures Inv(p, Apply(p, sys, m))
  {
    assert |sys.nodes| == |p.caps| > 0;
    hide Inv, StepThread;
    match m
    case Pull(item) => if Pulling(sys) { SourceKeeps(p, sys, Process(item)); }
    case SourceIdle => if Pulling(sys) { SourceKeeps(p, sys, Tick); }
    case Stop => if Pulling(sys) { SourceKeeps(p, sys, Flush); }
    case SourceFails => if Pulling(sys) { SourceFailsKeeps(p, sys); }
    case SourcePanics => if Pulling(sys) { SourceFailsKeeps(p, sys); }
    case SegmentIdle(i) => if 0 < i < |sys.nodes| && sys.nodes[i].mode.Ready? { SegmentIdleKeeps(p, sys, i); }
    case Step(i) => if i < |sys.nodes| { StepKeeps(p, sys, i); }
  }

  lemma {:induction false} Reachable<S(!new), V(!new)>(p: Chain<S, V>, moves: seq<Move<V>>)
    requires Untimed(p)
    ensures Inv(p, Run(p, moves))
  {
    if moves != [] {
      Reachable(p, moves[..|moves| - 1]);
      ApplyKeeps(p, Run(p, moves[..|moves| - 1]), moves[|moves| - 1]);
    }
  }
}
