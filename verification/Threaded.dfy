/**
  The threaded driver (src/threaded.rs) as a state machine: node 0 is the source thread
  with the stages before the first `buffer` edge, every later node is a `ChannelSegment`
  on its own thread, and the last node owns the sink. A step is one operation sent,
  received or begun by one thread; a schedule is any sequence of moves, and a move that is
  not possible changes nothing. An edge is a queue of at most max(capacity, 1) operations
  (`EdgeLaws.IsBoundedFifo` shows that of the real one). Its receiver publishes what it has
  taken in batches, and before it waits; a sender that finds no room waits until a quarter of
  the edge is free, and on a hand-off edge until the operation was taken.
*/
module Threaded {
  import Edge
  import opened Segments

  /**
    Who aborts the chain: the thread's own code, or, after a panic, the drop of the segment
    or runner, which has this many attempts left.
  */
  datatype Teardown = Own | Drop(left: nat)

  datatype Mode<V> =
    | Ready                                                   // at the top of its loop
    | Busy(op: Op<V>, outs: seq<Op<V>>, end: Outcome)         // inside chain(op): still to hand on, then the end
    | Aborting(rest: seq<Op<V>>, how: Teardown)               // inside chain(Abort), called by its teardown
    | Ended                                                   // chain dropped, and with it both ends of its edges

  /**
    What is left for a thread once its chain is dropped. A segment is `Inside` while it holds
    its `_done` sender. The source thread is `Inside` until it has seen that nobody does, and
    then closes the source, where `closed` is the flag `source_closed`.
  */
  datatype Exit = Inside | Closing(closed: bool) | Out

  /**
    `inq` is the edge into the node, `unpub` how many operations were taken from it since the
    last publication, and `rx` whether the node still holds its receiver. `waits`: the thread
    has found no room on the edge ahead, and waits for more than one place.
    `consumed` are the items, flush and close it has begun, and `sent` those it has handed
    on. `calls` is what the sink was called with, in the node that owns it. `own`: a segment
    has begun to abort its chain by itself.
  */
  datatype Node<S, V> = Node(
    state: S, mode: Mode<V>, inq: seq<Op<V>>, unpub: nat, rx: bool, waits: bool,
    consumed: seq<Op<V>>, sent: seq<Op<V>>, calls: seq<SinkCall<V>>, own: bool, exit: Exit)

  /** `failed`: something failed or panicked somewhere. `sourceCloses` counts calls of Source::close. */
  datatype System<S, V> = System(nodes: seq<Node<S, V>>, failed: bool, sourceCloses: nat)

  datatype SinkCall<V> = Write(item: V) | FlushSink | CloseSink

  datatype Move<V> =
    | Pull(item: V)          // the source delivers an item
    | SourceIdle             // the source's idle tick
    | Stop                   // the source ends, or the run is cancelled
    | SourceFails            // the source returns an error
    | SourcePanics           // the source panics
    | SegmentIdle(i: nat)    // recv_timeout times out in segment i
    | Step(i: nat)           // the next step of thread i

  function Start<S, V>(p: Chain<S, V>): System<S, V> {
    System(seq(|p.init|, i requires 0 <= i < |p.init| =>
      Node(p.init[i], Ready, [], 0, true, false, [], [], [], false, Inside)), false, 0)
  }

  predicate Closes<V>(op: Op<V>) { op.Close? || op.Abort? }

  function Limit<S, V>(p: Chain<S, V>, i: nat): nat
    requires i < |p.caps|
  {
    Edge.Limit(p.caps[i])
  }

  // ---------------------------------------------------------------- inside one thread

  /** The node calls its chain with `op`. */
  function Begin<S, V>(p: Chain<S, V>, i: nat, nd: Node<S, V>, op: Op<V>): Node<S, V> {
    var r := p.react(i, nd.state, op);
    nd.(mode := Busy(op, r.outs, r.end), state := r.state,
        consumed := if Normal(op) then nd.consumed + [op] else nd.consumed)
  }

  /** A segment's own abort clears `live`, so that its drop does nothing more; the runner's does not. */
  function AbortItself<S, V>(p: Chain<S, V>, i: nat, nd: Node<S, V>): Node<S, V> {
    nd.(mode := Aborting(p.react(i, nd.state, Abort).outs, Own), own := i > 0)
  }

  /** Something panicked: the segment or runner is dropped, and its drop tries so often to abort the chain. */
  function Unwind<S, V>(p: Chain<S, V>, i: nat, nd: Node<S, V>): Node<S, V> {
    nd.(mode := Aborting(p.react(i, nd.state, Abort).outs, Drop(if i == 0 then 6 else 3)))
  }

  function Unplug<S, V>(nd: Node<S, V>): Node<S, V> {
    nd.(rx := false, inq := [])
  }

  function End<S, V>(nd: Node<S, V>): Node<S, V> {
    Unplug(nd).(mode := Ended)
  }

  /** The chain returned an error: the receiver is dropped first, then the rest of the segment is torn down. */
  function Failing<S, V>(p: Chain<S, V>, i: nat, nd: Node<S, V>, op: Op<V>): Node<S, V> {
    if Closes(op) then End(nd) else AbortItself(p, i, Unplug(nd))
  }

  /** The call of the chain is over. A panic unwinds into the segment's drop, which still holds the receiver. */
  function Finish<S, V>(p: Chain<S, V>, i: nat, nd: Node<S, V>, op: Op<V>, end: Outcome): Node<S, V> {
    match end
    case Done => if Closes(op) then End(nd) else nd.(mode := Ready)
    case Fail => Failing(p, i, nd, op)
    case Panicked => Unwind(p, i, nd)
  }

  /** The operation was handed on. */
  function Record<S, V>(nd: Node<S, V>, op: Op<V>): Node<S, V> {
    if Normal(op) then nd.(sent := nd.sent + [op]) else nd
  }

  // ---------------------------------------------------------------- the sink

  /** `sink_fn`: what an operation reaching the sink calls; flush and close at most once each. */
  function SinkStep<V(==)>(calls: seq<SinkCall<V>>, op: Op<V>): seq<SinkCall<V>> {
    match op
    case Process(item) => calls + [Write(item)]
    case Flush => Once(calls, FlushSink)
    case Close => Once(calls, CloseSink)
    case _ => calls
  }

  function SinkCalls<V(==)>(ops: seq<Op<V>>): seq<SinkCall<V>> {
    if ops == [] then [] else SinkStep(SinkCalls(ops[..|ops| - 1]), ops[|ops| - 1])
  }

  function Once<V(==)>(calls: seq<SinkCall<V>>, c: SinkCall<V>): seq<SinkCall<V>> {
    if c in calls then calls else calls + [c]
  }

  datatype SinkAbort<V> = SinkAbort(calls: seq<SinkCall<V>>, panicked: bool)

  /** `sink_fn` on an abort: the flush if it was not tried, then the close, unless the flush panics. */
  function AbortSink<S, V(==)>(p: Chain<S, V>, calls: seq<SinkCall<V>>): SinkAbort<V> {
    var flushed := Once(calls, FlushSink);
    if flushed != calls && p.panics(|calls|) then SinkAbort(flushed, true)
    else
      var closed := Once(flushed, CloseSink);
      SinkAbort(closed, closed != flushed && p.panics(|flushed|))
  }

  /**
    A sink's flush or close panicked inside chain(Abort). The drop goes on to its next
    attempt; a segment's own abort is not repeated, since `live` is already cleared.
  */
  function SinkPanicked<S, V>(p: Chain<S, V>, i: nat, nd: Node<S, V>): Node<S, V> {
    match nd.mode
    case Aborting(_, Own) => if i == 0 then Unwind(p, i, nd) else End(nd)
    case Aborting(_, Drop(left)) =>
      if left <= 1 then End(nd) else nd.(mode := Aborting(p.react(i, nd.state, Abort).outs, Drop(left - 1)))
    case _ => Unwind(p, i, nd)
  }

  /** The sink gets `op` from its node, which would go on as `nd'`. */
  function AtTheSink<S, V(==)>(p: Chain<S, V>, i: nat, nd: Node<S, V>, nd': Node<S, V>, op: Op<V>): Node<S, V> {
    if op != Abort then Record(nd', op).(calls := SinkStep(nd.calls, op))
    else
      var a := AbortSink(p, nd.calls);
      (if a.panicked then SinkPanicked(p, i, nd) else nd').(calls := a.calls)
  }

  // ---------------------------------------------------------------- edges

  datatype Delivery = Blocked | Gone | Dropped | Sent

  predicate Last<S, V>(sys: System<S, V>, i: nat) { i + 1 == |sys.nodes| }

  /** As the sender sees it: operations sent and not yet published as taken. */
  predicate Full<S, V>(p: Chain<S, V>, sys: System<S, V>, i: nat)
    requires i < |sys.nodes| && |p.caps| == |sys.nodes|
  {
    |sys.nodes[i].inq| + sys.nodes[i].unpub >= Limit(p, i)
  }

  /** The target of a sender that waits: so many places of the edge are free. */
  predicate Roomy<S, V>(p: Chain<S, V>, sys: System<S, V>, i: nat)
    requires i < |sys.nodes| && |p.caps| == |sys.nodes|
  {
    |sys.nodes[i].inq| + sys.nodes[i].unpub + Edge.Room(p.caps[i]) <= Limit(p, i)
  }

  /** `send`: a tick never waits, an abort does not mind a missing receiver, the sink takes everything. */
  function Deliver<S, V>(p: Chain<S, V>, sys: System<S, V>, i: nat, op: Op<V>): Delivery
    requires i < |sys.nodes| && |p.caps| == |sys.nodes|
  {
    if Last(sys, i) then Sent
    else if !sys.nodes[i + 1].rx then (if op == Abort then Dropped else Gone)
    else if op == Tick then (if p.caps[i + 1] == 0 || Full(p, sys, i + 1) then Dropped else Sent)
    else if (if sys.nodes[i].waits then !Roomy(p, sys, i + 1) else Full(p, sys, i + 1)) then Blocked
    else Sent
  }

  /** A hand-off is over once the receiver has taken the operation or is gone. */
  predicate Settled<S, V>(p: Chain<S, V>, sys: System<S, V>, i: nat)
    requires i < |sys.nodes| && |p.caps| == |sys.nodes|
  {
    || Last(sys, i) || p.caps[i + 1] > 0 || !sys.nodes[i + 1].rx
    || (sys.nodes[i + 1].inq == [] && sys.nodes[i + 1].unpub == 0)
  }

  function Put<S, V>(sys: System<S, V>, i: nat, nd: Node<S, V>): System<S, V>
    requires i < |sys.nodes|
  {
    sys.(nodes := sys.nodes[i := nd])
  }

  /** `op` leaves node `i`, which becomes `nd`. */
  function Push<S, V(==)>(p: Chain<S, V>, sys: System<S, V>, i: nat, nd: Node<S, V>, op: Op<V>): (r: System<S, V>)
    requires i < |sys.nodes|
    ensures |r.nodes| == |sys.nodes|
  {
    if Last(sys, i) then Put(sys, i, AtTheSink(p, i, sys.nodes[i], nd, op))
    else
      var next := sys.nodes[i + 1];
      Put(Put(sys, i, Record(nd, op).(waits := false)), i + 1, next.(inq := next.inq + [op]))
  }

  // ---------------------------------------------------------------- the threads' steps

  /** Inside chain(op). */
  function Work<S, V(==)>(p: Chain<S, V>, sys: System<S, V>, i: nat): (r: System<S, V>)
    requires i < |sys.nodes| && |p.caps| == |sys.nodes| && sys.nodes[i].mode.Busy?
    ensures |r.nodes| == |sys.nodes|
  {
    var nd := sys.nodes[i];
    var Busy(op, outs, end) := nd.mode;
    if outs == [] then
      if !Settled(p, sys, i) then sys
      else Put(sys, i, Finish(p, i, nd, op, end)).(failed := sys.failed || end != Done)
    else
      var nd' := nd.(mode := Busy(op, outs[1..], end));
      match Deliver(p, sys, i, outs[0])
      case Blocked => Put(sys, i, nd.(waits := true))
      case Gone => Put(sys, i, Failing(p, i, nd, op)).(failed := true)
      case Dropped => Put(sys, i, nd')
      case Sent => Push(p, sys, i, nd', outs[0])
  }

  /** Inside chain(Abort), whose errors are ignored. */
  function WorkAbort<S, V(==)>(p: Chain<S, V>, sys: System<S, V>, i: nat): (r: System<S, V>)
    requires i < |sys.nodes| && |p.caps| == |sys.nodes| && sys.nodes[i].mode.Aborting?
    ensures |r.nodes| == |sys.nodes|
  {
    var nd := sys.nodes[i];
    var rest := nd.mode.rest;
    if rest == [] then
      if !Settled(p, sys, i) then sys else Put(sys, i, End(nd))
    else
      var nd' := nd.(mode := Aborting(rest[1..], nd.mode.how));
      match Deliver(p, sys, i, rest[0])
      case Blocked => Put(sys, i, nd.(waits := true))
      case Sent => Push(p, sys, i, nd', rest[0])
      case _ => Put(sys, i, nd')
  }

  /** The receiver's count after one more operation: published once a batch is complete. */
  function Took<S, V>(p: Chain<S, V>, i: nat, nd: Node<S, V>): nat
    requires i < |p.caps|
  {
    if nd.unpub + 1 >= Edge.Batch(p.caps[i]) then 0 else nd.unpub + 1
  }

  /**
    `recv`: the next operation, or the teardown of a segment whose upstream ended without a
    word; a segment that is about to wait publishes its count first.
  */
  function Receive<S, V>(p: Chain<S, V>, sys: System<S, V>, i: nat): (r: System<S, V>)
    requires 0 < i < |sys.nodes| && |p.caps| == |sys.nodes|
    ensures |r.nodes| == |sys.nodes|
  {
    var nd := sys.nodes[i];
    if nd.inq != [] then Put(sys, i, Begin(p, i, nd.(inq := nd.inq[1..], unpub := Took(p, i, nd)), nd.inq[0]))
    else if sys.nodes[i - 1].mode == Ended then Put(sys, i, AbortItself(p, i, Unplug(nd))).(failed := true)
    else Put(sys, i, nd.(unpub := 0))
  }

  /** The source thread after the flush went through: it closes the chain. */
  function AfterFlush<S, V>(p: Chain<S, V>, sys: System<S, V>): (r: System<S, V>)
    requires |sys.nodes| > 0
    ensures |r.nodes| == |sys.nodes|
  {
    var nd := sys.nodes[0];
    if nd.consumed != [] && nd.consumed[|nd.consumed| - 1] == Flush then Put(sys, 0, Begin(p, 0, nd, Close)) else sys
  }

  /** A segment still holds its `_done` sender. */
  ghost predicate SomeoneInside<S, V>(sys: System<S, V>) {
    exists j :: 0 < j < |sys.nodes| && sys.nodes[j].exit == Inside
  }

  /** `close_rest`: with its chain dropped the source thread waits for the segments, and then closes the source. */
  ghost function CloseRest<S, V>(p: Chain<S, V>, sys: System<S, V>): (r: System<S, V>)
    requires |sys.nodes| > 0
    ensures |r.nodes| == |sys.nodes|
  {
    var nd := sys.nodes[0];
    match nd.exit
    case Inside => if SomeoneInside(sys) then sys else Put(sys, 0, nd.(exit := Closing(false)))
    case Closing(false) =>
      Put(sys, 0, nd.(exit := if p.closePanics then Closing(true) else Out)).(sourceCloses := sys.sourceCloses + 1)
    case _ => Put(sys, 0, nd.(exit := Out))
  }

  ghost function StepThread<S, V>(p: Chain<S, V>, sys: System<S, V>, i: nat): (r: System<S, V>)
    requires i < |sys.nodes| && |p.caps| == |sys.nodes|
    ensures |r.nodes| == |sys.nodes|
  {
    match sys.nodes[i].mode
    case Ready => if i == 0 then AfterFlush(p, sys) else Receive(p, sys, i)
    case Busy(_, _, _) => Work(p, sys, i)
    case Aborting(_, _) => WorkAbort(p, sys, i)
    case Ended => if i == 0 then CloseRest(p, sys) else Put(sys, i, sys.nodes[i].(exit := Out))
  }

  predicate Pulling<S, V>(sys: System<S, V>)
    requires |sys.nodes| > 0
  {
    sys.nodes[0].mode == Ready && Phase(sys.nodes[0].consumed) == 0
  }

  ghost predicate AllEnded<S, V>(sys: System<S, V>) {
    forall i :: 0 <= i < |sys.nodes| ==> sys.nodes[i].mode == Ended
  }

  ghost function Apply<S, V>(p: Chain<S, V>, sys: System<S, V>, m: Move<V>): (r: System<S, V>)
    requires |sys.nodes| == |p.caps| > 0
    ensures |r.nodes| == |sys.nodes|
  {
    match m
    case Pull(item) => if Pulling(sys) then Put(sys, 0, Begin(p, 0, sys.nodes[0], Process(item))) else sys
    case SourceIdle => if Pulling(sys) then Put(sys, 0, Begin(p, 0, sys.nodes[0], Tick)) else sys
    case Stop => if Pulling(sys) then Put(sys, 0, Begin(p, 0, sys.nodes[0], Flush)) else sys
    case SourceFails => if Pulling(sys) then Put(sys, 0, AbortItself(p, 0, sys.nodes[0])).(failed := true) else sys
    case SourcePanics => if Pulling(sys) then Put(sys, 0, Unwind(p, 0, sys.nodes[0])).(failed := true) else sys
    case SegmentIdle(i) =>
      if 0 < i < |sys.nodes| && sys.nodes[i].mode == Ready && sys.nodes[i].inq == [] && sys.nodes[i - 1].mode != Ended
      then Put(sys, i, Begin(p, i, sys.nodes[i].(unpub := 0), Tick)) else sys
    case Step(i) => if i < |sys.nodes| then StepThread(p, sys, i) else sys
  }

  ghost function Run<S(!new), V(!new)>(p: Chain<S, V>, moves: seq<Move<V>>): (sys: System<S, V>)
    requires Untimed(p)
    ensures |sys.nodes| == |p.init|
  {
    if moves == [] then Start(p) else Apply(p, Run(p, moves[..|moves| - 1]), moves[|moves| - 1])
  }

  /** What the sink has been called with so far. */
  function AtSink<S, V>(sys: System<S, V>): seq<SinkCall<V>>
    requires |sys.nodes| > 0
  {
    sys.nodes[|sys.nodes| - 1].calls
  }

  /** The items of a history. */
  function Items<V>(ops: seq<Op<V>>): seq<V> {
    if ops == [] then []
    else Items(ops[..|ops| - 1]) + (if ops[|ops| - 1].Process? then [ops[|ops| - 1].item] else [])
  }

  function Writes<V>(items: seq<V>): seq<SinkCall<V>> {
    if items == [] then [] else Writes(items[..|items| - 1]) + [Write(items[|items| - 1])]
  }
}
