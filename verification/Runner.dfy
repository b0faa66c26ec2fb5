/**
  The lifecycle of a single-threaded run: `Runner` of src/pipeline.rs with the sink closure
  at the tail of its chain (`sink_fn`) and the dead-letter closure (`dead_letter`). What the
  user's source, stages and sinks do is left to an oracle: every call into user code is
  numbered, and the oracle says for each number whether the call returns, fails or panics.
*/
module Runner {
  import opened Options

  datatype Verdict = Ok | Err | Panic

  /** The calls into user code. */
  datatype Call = Pull | Stage | Write | SinkFlush | SinkClose | SourceClose | DlqFlush | DlqClose

  predicate IsTeardown(c: Call) { !c.Pull? && !c.Stage? && !c.Write? }

  datatype ChainOp = Process | Tick | Flush | Close | Abort

  /** How a call of the chain ends; a failure is named by the number of the call that failed. */
  datatype Halt = Fine(written: nat) | Halted(call: nat) | Unwinding

  function ErrorOf(h: Halt): Option<nat> { if h.Halted? then Some(h.call) else None }

  datatype Pulled = Item | Idle | End

  datatype Stepped = Got(pulled: Pulled) | Stopped(call: nat) | StepPanicked

  /** What a pull takes of the deliveries. */
  function Drawn(pulled: Pulled): nat { if pulled == End then 0 else 1 }

  datatype PumpEnd = Graceful | Cancelled | Failed(call: nat) | PumpPanicked

  /** The world the run is in: outcomes, what each operation makes the chain call, and the source's deliveries. */
  datatype World = World(
    outcome: nat -> Verdict, work: nat -> seq<bool>, item: nat -> bool, cancelled: nat -> bool, deliveries: nat)

  /** The first failing call among the calls `lo` to `hi`. */
  function FirstIn(w: World, lo: nat, hi: nat): Option<nat>
    decreases hi - lo
  {
    if lo >= hi then None
    else if w.outcome(lo) == Err then Some(lo)
    else FirstIn(w, lo + 1, hi)
  }

  function OrElse(a: Option<nat>, b: Option<nat>): Option<nat> { if a.Some? then a else b }

  lemma {:induction false} FirstSplit(w: World, lo: nat, mid: nat, hi: nat)
    requires lo <= mid <= hi
    ensures FirstIn(w, lo, hi) == OrElse(FirstIn(w, lo, mid), FirstIn(w, mid, hi))
    decreases mid - lo
  {
    if lo < mid { FirstSplit(w, lo + 1, mid, hi); }
  }

  /** Errors and panics of two stretches of calls, one after the other. */
  lemma Stretch(w: World, lo: nat, mid: nat, hi: nat)
    requires lo <= mid <= hi
    ensures FirstIn(w, lo, hi) == OrElse(FirstIn(w, lo, mid), FirstIn(w, mid, hi))
    ensures HasPanic(w, lo, hi) <==> HasPanic(w, lo, mid) || HasPanic(w, mid, hi)
  {
    FirstSplit(w, lo, mid, hi);
  }

  lemma NoCalls(w: World, n: nat)
    ensures FirstIn(w, n, n) == None && !HasPanic(w, n, n)
  {}

  /** The first failing call is a failing call, and no earlier one fails. */
  lemma {:induction false} FirstIsFirst(w: World, lo: nat, hi: nat)
    ensures match FirstIn(w, lo, hi)
      case Some(k) => lo <= k < hi && w.outcome(k) == Err && forall j :: lo <= j < k ==> w.outcome(j) != Err
      case None => forall j :: lo <= j < hi ==> w.outcome(j) != Err
    decreases hi - lo
  {
    if lo < hi && w.outcome(lo) != Err { FirstIsFirst(w, lo + 1, hi); }
  }

  /** Some call among the calls `lo` to `hi` panics. */
  ghost predicate HasPanic(w: World, lo: nat, hi: nat) { exists k: nat :: lo <= k < hi && w.outcome(k) == Panic }

  function CountWrites(calls: seq<Call>): nat {
    if calls == [] then 0 else CountWrites(calls[..|calls| - 1]) + if calls[|calls| - 1] == Write then 1 else 0
  }

  /** The five lifecycle calls in their documented order; without a dead-letter sink there are three. */
  function Order(hasDlq: bool): seq<Call> {
    [SinkFlush, SinkClose, SourceClose] + if hasDlq then [DlqFlush, DlqClose] else []
  }

  // ---------------------------------------------------------------- what a run should call

  /** The calls of one operation's work that nothing fails in. */
  function ScriptCalls(script: seq<bool>): (calls: seq<Call>)
    ensures |calls| == |script|
  {
    seq(|script|, i requires 0 <= i < |script| => if script[i] then Write else Stage)
  }

  /** The calls of the source and, if it delivers, of the operation that follows, after `n` calls. */
  function StepLog(w: World, n: nat, deliveries: nat): seq<Call> {
    [Pull] + if deliveries == 0 then [] else ScriptCalls(w.work(n + 1))
  }

  /** The calls of the pull loop, after `n` calls. */
  function PumpLog(w: World, n: nat, deliveries: nat): seq<Call>
    decreases deliveries
  {
    if w.cancelled(n) then []
    else
      var step := StepLog(w, n, deliveries);
      if deliveries == 0 then step else step + PumpLog(w, n + |step|, deliveries - 1)
  }

  /** The items delivered in it. */
  function PumpItems(w: World, n: nat, deliveries: nat): nat
    decreases deliveries
  {
    if w.cancelled(n) || deliveries == 0 then 0
    else (if w.item(n) then 1 else 0) + PumpItems(w, n + |StepLog(w, n, deliveries)|, deliveries - 1)
  }

  /** The calls of a graceful end: the flush, then the lifecycle calls. */
  function FinishLog(w: World, n: nat, hasDlq: bool): seq<Call> { ScriptCalls(w.work(n)) + Order(hasDlq) }

  /** The calls of a whole run in which nothing fails. */
  function RunLog(w: World, deliveries: nat, hasDlq: bool): seq<Call> {
    var pumped := PumpLog(w, 0, deliveries);
    pumped + FinishLog(w, |pumped|, hasDlq)
  }

  ghost predicate AllOk(w: World, n: nat) { forall k :: 0 <= k < n ==> w.outcome(k) == Ok }

  /** Up to the first one that fails or panics, the calls are those of `log`. */
  ghost predicate Follows(w: World, calls: seq<Call>, log: seq<Call>) {
    forall j :: 0 <= j < |calls| && AllOk(w, j) ==> j < |log| && calls[j] == log[j]
  }

  lemma PrefixFollows(w: World, calls: seq<Call>, log: seq<Call>)
    requires calls <= log
    ensures Follows(w, calls, log)
  {}

  lemma FollowsLonger(w: World, calls: seq<Call>, log: seq<Call>, log': seq<Call>)
    requires Follows(w, calls, log) && log <= log'
    ensures Follows(w, calls, log')
  {}

  /** Once a call has failed or panicked it does not matter what is called. */
  lemma FollowsOn(w: World, before: seq<Call>, calls: seq<Call>, log: seq<Call>, lo: nat)
    requires Follows(w, before, log) && before <= calls && (FirstIn(w, lo, |before|).Some? || HasPanic(w, lo, |before|))
    ensures Follows(w, calls, log)
  {
    FirstIsFirst(w, lo, |before|);
    var k: nat :| k < |before| && w.outcome(k) != Ok;
    forall j | 0 <= j < |calls| && AllOk(w, j) ensures j < |log| && calls[j] == log[j] {
      assert j <= k;
      assert calls[j] == before[j];
    }
  }

  class Runner {
    const w: World
    const hasDlq: bool
    var calls: seq<Call>
    var live: bool
    var sourceClosed: bool
    var dlqFinished: bool
    var flushed: bool          // sink_fn's flags
    var closed: bool
    var dlqFlushed: bool       // dead_letter's flags
    var dlqClosed: bool
    var deliveries: nat        // what the source will still deliver
    var itemsIn: nat
    var itemsOut: nat

    /** How many of the lifecycle calls have been made. */
    ghost function Progress(): nat
      reads this
    {
      if !flushed then 0 else if !closed then 1 else if !sourceClosed then 2
      else if !hasDlq || !dlqFlushed then 3 else if !dlqClosed then 4 else 5
    }

    /** The lifecycle calls come after all others, in order, each once. */
    ghost predicate Valid()
      reads this
    {
      && (closed ==> flushed) && (sourceClosed ==> closed)
      && (dlqFlushed ==> sourceClosed && hasDlq) && (dlqClosed ==> dlqFlushed)
      && (dlqFinished ==> sourceClosed && (hasDlq ==> dlqClosed))
      && (!live ==> Progress() == |Order(hasDlq)|)
      && Progress() <= |calls|
      && calls[|calls| - Progress()..] == Order(hasDlq)[..Progress()]
      && (forall i :: 0 <= i < |calls| - Progress() ==> !IsTeardown(calls[i]))
    }

    /** What every method here keeps: the log only grows, and no lifecycle call is forgotten. */
    twostate predicate Grows()
      reads this
    {
      old(calls) <= calls && old(Progress()) <= Progress() && (!old(live) ==> !live)
    }

    /** Nothing was pulled. */
    twostate predicate NoPull()
      reads this
    {
      forall i :: |old(calls)| <= i < |calls| ==> !calls[i].Pull?
    }

    /** Only lifecycle calls were made. */
    twostate predicate OnlyTeardown()
      reads this
    {
      |calls| - Progress() == old(|calls| - Progress())
    }

    constructor (w: World, hasDlq: bool)
      ensures Valid() && Exact() && live && Progress() == 0 && calls == []
      ensures this.w == w && this.hasDlq == hasDlq && deliveries == w.deliveries && itemsIn == 0 && itemsOut == 0
    {
      this.w, this.hasDlq := w, hasDlq;
      calls := [];
      live, sourceClosed, dlqFinished := true, false, false;
      flushed, closed, dlqFlushed, dlqClosed := false, false, false, false;
      deliveries := w.deliveries;
      itemsIn, itemsOut := 0, 0;
    }

    /** A call into user code. */
    method Enter(c: Call) returns (v: Verdict)
      modifies `calls
      ensures calls == old(calls) + [c] && v == w.outcome(|old(calls)|)
      ensures FirstIn(w, |old(calls)|, |calls|) == if v == Err then Some(|old(calls)|) else None
      ensures HasPanic(w, |old(calls)|, |calls|) <==> v == Panic
      ensures CountWrites(calls) == CountWrites(old(calls)) + if c == Write then 1 else 0
    {
      v := w.outcome(|calls|);
      calls := calls + [c];
      assert calls[..|calls| - 1] == old(calls);
      NoCalls(w, |calls|);
    }

    // ---------------------------------------------------------------- the chain

    /**
      The stages' part of an item, tick or flush: calls of stages and writes to the sink. After
      the first failure nothing more is written, but the stages still on the stack go on, their
      further results are ignored, and they may panic.
    */
    method Work() returns (h: Halt)
      requires Valid() && Progress() == 0
      modifies `calls
      ensures Valid() && old(calls) <= calls && Progress() == 0
      ensures h.Fine? ==>
        FirstIn(w, |old(calls)|, |calls|) == None && CountWrites(calls) == CountWrites(old(calls)) + h.written
      ensures h.Halted? ==> FirstIn(w, |old(calls)|, |calls|) == Some(h.call)
      ensures h == Unwinding <==> HasPanic(w, |old(calls)|, |calls|)
      ensures h.Fine? ==> calls == old(calls) + ScriptCalls(w.work(|old(calls)|))
      ensures Follows(w, calls, old(calls) + ScriptCalls(w.work(|old(calls)|))) && NoPull()
    {
      hide FirstIn, HasPanic, CountWrites, Order, Follows;
      NoCalls(w, |calls|);
      var script := w.work(|calls|);
      ghost var log := calls + ScriptCalls(script);
      PrefixFollows(w, calls, log);
      var written := 0;
      var i := 0;
      var failed: Option<nat> := None;
      ghost var n := |calls|;
      while i < |script|
        invariant 0 <= i <= |script|
        invariant Valid() && old(calls) <= calls && Progress() == 0
        invariant FirstIn(w, n, |calls|) == failed && !HasPanic(w, n, |calls|)
        invariant failed.None? ==> CountWrites(calls) == CountWrites(old(calls)) + written
        invariant failed.None? ==> calls == log[..n + i]
        invariant Follows(w, calls, log) && NoPull()
      {
        if !script[i] || failed.None? {
          ghost var before := calls;
          var v := Enter(if script[i] then Write else Stage);
          Stretch(w, n, |before|, |calls|);
          if failed.Some? {
            FollowsOn(w, before, calls, log, n);
          } else {
            assert calls == log[..n + i + 1];
            PrefixFollows(w, calls, log);
          }
          if v == Panic { return Unwinding; }
          if v == Err && failed.None? { failed := Some(|calls| - 1); }
          if script[i] { written := written + 1; }
        }
        i := i + 1;
      }
      h := if failed.Some? then Halted(failed.value) else Fine(written);
    }

    /** The sink closure's once-only flush: the flag is set before the call. */
    method TailFlush() returns (h: Halt)
      requires Valid()
      modifies `calls, `flushed
      ensures Valid() && Grows() && flushed
      ensures h == Unwinding ==> Progress() > old(Progress())
      ensures h.Fine? ==> h.written == 0 && FirstIn(w, |old(calls)|, |calls|) == None
      ensures h.Halted? ==> FirstIn(w, |old(calls)|, |calls|) == Some(h.call)
      ensures h == Unwinding <==> HasPanic(w, |old(calls)|, |calls|)
      ensures old(flushed) ==> calls == old(calls)
      ensures !old(flushed) ==> calls == old(calls) + [SinkFlush]
      ensures CountWrites(calls) == CountWrites(old(calls)) && NoPull() && OnlyTeardown()
    {
      hide FirstIn, HasPanic, CountWrites;
      NoCalls(w, |calls|);
      h := Fine(0);
      if !flushed {
        flushed := true;
        var v := Enter(SinkFlush);
        h := if v == Ok then Fine(0) else if v == Err then Halted(|calls| - 1) else Unwinding;
      }
    }

    method TailClose() returns (h: Halt)
      requires Valid() && flushed
      modifies `calls, `closed
      ensures Valid() && Grows() && closed
      ensures h == Unwinding ==> Progress() > old(Progress())
      ensures h.Fine? ==> h.written == 0 && FirstIn(w, |old(calls)|, |calls|) == None
      ensures h.Halted? ==> FirstIn(w, |old(calls)|, |calls|) == Some(h.call)
      ensures h == Unwinding <==> HasPanic(w, |old(calls)|, |calls|)
      ensures CountWrites(calls) == CountWrites(old(calls)) && NoPull() && OnlyTeardown()
    {
      hide FirstIn, HasPanic, CountWrites;
      NoCalls(w, |calls|);
      h := Fine(0);
      if !closed {
        closed := true;
        var v := Enter(SinkClose);
        h := if v == Ok then Fine(0) else if v == Err then Halted(|calls| - 1) else Unwinding;
      }
    }

    /** One operation through the whole chain. */
    method Chain(op: ChainOp) returns (h: Halt)
      requires Valid()
      requires op.Process? || op.Tick? || op.Flush? ==> Progress() == 0
      requires op.Close? ==> flushed
      modifies `calls, `flushed, `closed
      ensures Valid() && Grows()
      ensures op.Process? || op.Tick? ==> Progress() == 0
      ensures op.Flush? && h.Fine? ==> flushed
      ensures (op.Close? || op.Abort?) && h != Unwinding ==> closed
      ensures (op.Close? || op.Abort?) && h == Unwinding ==> Progress() > old(Progress())
      ensures h.Fine? ==>
        FirstIn(w, |old(calls)|, |calls|) == None && CountWrites(calls) == CountWrites(old(calls)) + h.written
      ensures h.Halted? ==> FirstIn(w, |old(calls)|, |calls|) == Some(h.call)
      ensures h == Unwinding <==> HasPanic(w, |old(calls)|, |calls|)
      ensures op.Process? || op.Tick? ==>
        && (h.Fine? ==> calls == old(calls) + ScriptCalls(w.work(|old(calls)|)))
        && Follows(w, calls, old(calls) + ScriptCalls(w.work(|old(calls)|)))
      ensures op.Flush? ==>
        var log := old(calls) + ScriptCalls(w.work(|old(calls)|));
        if flushed then calls == log + [SinkFlush] && Progress() == 1 else !h.Fine? && Follows(w, calls, log)
      ensures (op.Close? || op.Abort? ==> OnlyTeardown()) && NoPull()
    {
      hide Follows, ScriptCalls, HasPanic, CountWrites, FirstIn, Order;
      match op
      case Process => h := Work();
      case Tick => h := Work();
      case Flush =>
        h := Work();
        if h.Fine? {
          ghost var mid := |calls|;
          var t := TailFlush();
          Stretch(w, |old(calls)|, mid, |calls|);
          h := if t.Fine? then Fine(h.written) else t;
        }
      case Close => h := TailClose();
      case Abort =>
        h := TailFlush();
        if h != Unwinding {
          ghost var mid := |calls|;
          var t := TailClose();
          Stretch(w, |old(calls)|, mid, |calls|);
          h := if t == Unwinding || h.Fine? then t else h;
        }
    }

    /** `call`: one operation down the chain, counting what reached the sink. */
    method CallChain(op: ChainOp) returns (h: Halt)
      requires Valid() && Exact()
      requires op.Process? || op.Tick? || op.Flush? ==> Progress() == 0
      requires op.Close? ==> flushed
      modifies `calls, `flushed, `closed, `itemsOut
      ensures Valid() && Grows() && Exact()
      ensures op.Process? || op.Tick? ==> Progress() == 0
      ensures op.Flush? && h.Fine? ==> flushed
      ensures (op.Close? || op.Abort?) && h != Unwinding ==> closed
      ensures (op.Close? || op.Abort?) && h == Unwinding ==> Progress() > old(Progress())
      ensures h.Fine? ==> FirstIn(w, |old(calls)|, |calls|) == None
      ensures h.Halted? ==> FirstIn(w, |old(calls)|, |calls|) == Some(h.call)
      ensures h == Unwinding <==> HasPanic(w, |old(calls)|, |calls|)
      ensures op.Process? || op.Tick? ==>
        && (h.Fine? ==> calls == old(calls) + ScriptCalls(w.work(|old(calls)|)))
        && Follows(w, calls, old(calls) + ScriptCalls(w.work(|old(calls)|)))
      ensures op.Flush? ==>
        var log := old(calls) + ScriptCalls(w.work(|old(calls)|));
        if flushed then calls == log + [SinkFlush] && Progress() == 1 else !h.Fine? && Follows(w, calls, log)
      ensures (op.Close? || op.Abort? ==> OnlyTeardown()) && NoPull()
    {
      hide Follows, ScriptCalls, HasPanic, FirstIn, CountWrites, Order;
      ghost var n, before, out := |calls|, calls, itemsOut;
      h := Chain(op);
      if h.Fine? { itemsOut := itemsOut + h.written; }
      StaysExact(n, before, out, h);
    }

    lemma StaysExact(n: nat, before: seq<Call>, out: nat, h: Halt)
      requires n == |before| && before <= calls
      requires (forall k :: 0 <= k < n ==> w.outcome(k) == Ok) ==> out == CountWrites(before)
      requires h.Fine? ==> CountWrites(calls) == CountWrites(before) + h.written && itemsOut == out + h.written
      requires h.Halted? ==> FirstIn(w, n, |calls|).Some?
      requires h == Unwinding ==> HasPanic(w, n, |calls|)
      ensures Exact()
    {
      FirstIsFirst(w, n, |calls|);
    }

    /** As long as nothing fails or panics, `items_out` is the number of items written to the sink. */
    ghost predicate Exact()
      reads this
    {
      (forall k :: 0 <= k < |calls| ==> w.outcome(k) == Ok) ==> itemsOut == CountWrites(calls)
    }

    // ---------------------------------------------------------------- the pull loop

    /** What the source delivers in call `n`. */
    predicate Pulls(pulled: Pulled, n: nat, deliveries: nat) {
      pulled == if deliveries == 0 then End else if w.item(n) then Item else Idle
    }

    /** `pull`: one call of the source. */
    method PullOnce() returns (s: Stepped)
      requires Valid() && Exact() && Progress() == 0
      modifies `calls, `deliveries
      ensures Valid() && Exact() && Grows() && Progress() == 0 && calls == old(calls) + [Pull]
      ensures s.Got? ==> FirstIn(w, |old(calls)|, |calls|) == None
      ensures s.Stopped? ==> FirstIn(w, |old(calls)|, |calls|) == Some(s.call)
      ensures s == StepPanicked <==> HasPanic(w, |old(calls)|, |calls|)
      ensures deliveries <= old(deliveries)
      ensures s.Got? ==> Pulls(s.pulled, |old(calls)|, old(deliveries))
      ensures s.Got? ==> deliveries == old(deliveries) - Drawn(s.pulled)
    {
      var k := |calls|;
      var v := Enter(Pull);
      if v == Err { return Stopped(k); }
      if v == Panic { return StepPanicked; }
      if deliveries == 0 { return Got(End); }
      deliveries := deliveries - 1;
      s := Got(if w.item(k) then Item else Idle);
    }

    /**
      `step`: pull once and push the item, or an idle tick, through the chain. If nothing fails
      the calls are that of the source and exactly those of the operation, and an item is counted.
    */
    method Step() returns (s: Stepped)
      requires Valid() && Exact() && live && Progress() == 0
      modifies `calls, `flushed, `closed, `itemsIn, `itemsOut, `deliveries
      ensures Valid() && Exact() && Grows() && Progress() == 0
      ensures s.Got? ==> FirstIn(w, |old(calls)|, |calls|) == None
      ensures s.Stopped? ==> FirstIn(w, |old(calls)|, |calls|) == Some(s.call)
      ensures s == StepPanicked <==> HasPanic(w, |old(calls)|, |calls|)
      ensures deliveries <= old(deliveries)
      ensures s.Got? ==>
        && Pulls(s.pulled, |old(calls)|, old(deliveries)) && deliveries == old(deliveries) - Drawn(s.pulled)
        && calls == old(calls) + StepLog(w, |old(calls)|, old(deliveries))
        && itemsIn == old(itemsIn) + if s.pulled == Item then 1 else 0
      ensures Follows(w, calls, old(calls) + StepLog(w, |old(calls)|, old(deliveries)))
    {
      hide FirstIn, HasPanic, CountWrites, Follows, ScriptCalls;
      ghost var n, log := |calls|, calls + StepLog(w, |calls|, deliveries);
      s := PullOnce();
      assert calls + ScriptCalls(w.work(n + 1)) == old(calls) + ([Pull] + ScriptCalls(w.work(n + 1)));
      PrefixFollows(w, calls, log);
      if !s.Got? || s.pulled == End { return; }
      if s.pulled == Item { itemsIn := itemsIn + 1; }
      ghost var mid := |calls|;
      var h := CallChain(if s.pulled == Item then Process else Tick);
      Stretch(w, n, mid, |calls|);
      match h
      case Fine(_) =>
      case Halted(call) => s := Stopped(call);
      case Unwinding => s := StepPanicked;
    }

    /** `tick`: an idle tick from the caller. */
    method TickChain() returns (h: Halt)
      requires Valid() && Exact() && live && Progress() == 0
      modifies `calls, `flushed, `closed, `itemsOut
      ensures Valid() && Grows() && Progress() == 0 && Exact()
      ensures h.Fine? ==> FirstIn(w, |old(calls)|, |calls|) == None
      ensures h.Halted? ==> FirstIn(w, |old(calls)|, |calls|) == Some(h.call)
      ensures h == Unwinding <==> HasPanic(w, |old(calls)|, |calls|)
      ensures h.Fine? ==> calls == old(calls) + ScriptCalls(w.work(|old(calls)|))
      ensures Follows(w, calls, old(calls) + ScriptCalls(w.work(|old(calls)|))) && NoPull()
    {
      h := CallChain(Tick);
    }

    /** `pump`: pull until the source ends, something fails, or the run is cancelled. */
    method Pump() returns (end: PumpEnd)
      requires Valid() && Exact() && live && Progress() == 0
      modifies `calls, `flushed, `closed, `itemsIn, `itemsOut, `deliveries
      ensures Valid() && Grows() && Progress() == 0 && Exact()
      ensures end.Graceful? || end.Cancelled? ==> FirstIn(w, |old(calls)|, |calls|) == None
      ensures end.Failed? ==> FirstIn(w, |old(calls)|, |calls|) == Some(end.call)
      ensures end == PumpPanicked <==> HasPanic(w, |old(calls)|, |calls|)
      ensures end.Cancelled? ==> w.cancelled(|calls|)
      ensures end.Graceful? || end.Cancelled? ==>
        && calls == old(calls) + PumpLog(w, |old(calls)|, old(deliveries))
        && itemsIn == old(itemsIn) + PumpItems(w, |old(calls)|, old(deliveries))
      ensures Follows(w, calls, old(calls) + PumpLog(w, |old(calls)|, old(deliveries)))
    {
      hide Follows, StepLog, HasPanic, Runner.Valid, Runner.Exact;
      ghost var n, log := |calls|, calls + PumpLog(w, |calls|, deliveries);
      NoCalls(w, n);
      PrefixFollows(w, calls, log);
      while true
        invariant Valid() && Exact() && live && Progress() == 0 && old(calls) <= calls
        invariant FirstIn(w, n, |calls|) == None && !HasPanic(w, n, |calls|)
        invariant calls + PumpLog(w, |calls|, deliveries) == log
        invariant itemsIn + PumpItems(w, |calls|, deliveries) == old(itemsIn) + PumpItems(w, n, old(deliveries))
        decreases deliveries
      {
        if w.cancelled(|calls|) {
          PrefixFollows(w, calls, log);
          return Cancelled;
        }
        ghost var mid, step := |calls|, StepLog(w, |calls|, deliveries);
        ghost var rest := if deliveries == 0 then [] else PumpLog(w, mid + |step|, deliveries - 1);
        assert calls + (step + rest) == (calls + step) + rest;
        assert step + [] == step;
        var s := Step();
        Stretch(w, n, mid, |calls|);
        FollowsLonger(w, calls, log[..mid + |step|], log);
        match s
        case Got(pulled) => if pulled == End { return Graceful; }
        case Stopped(call) => return Failed(call);
        case StepPanicked => return PumpPanicked;
      }
    }

    // ---------------------------------------------------------------- teardown

    /** Source::close, at most once. */
    method CloseSourceOnce() returns (h: Halt)
      requires Valid() && Exact() && closed
      modifies `calls, `sourceClosed
      ensures Valid() && Exact() && Grows() && sourceClosed && NoPull() && OnlyTeardown()
      ensures h == Unwinding ==> Progress() > old(Progress())
      ensures h.Fine? ==> h.written == 0 && FirstIn(w, |old(calls)|, |calls|) == None
      ensures h.Halted? ==> FirstIn(w, |old(calls)|, |calls|) == Some(h.call)
      ensures h == Unwinding <==> HasPanic(w, |old(calls)|, |calls|)
    {
      hide FirstIn, HasPanic, CountWrites;
      NoCalls(w, |calls|);
      h := Fine(0);
      if !sourceClosed {
        sourceClosed := true;
        var v := Enter(SourceClose);
        h := if v == Ok then Fine(0) else if v == Err then Halted(|calls| - 1) else Unwinding;
      }
    }

    /** The dead-letter closure's once-only flush and close. */
    method FlushDlqOnce() returns (h: Halt)
      requires Valid() && Exact() && sourceClosed && hasDlq
      modifies `calls, `dlqFlushed
      ensures Valid() && Exact() && Grows() && dlqFlushed && NoPull() && OnlyTeardown()
      ensures h == Unwinding ==> Progress() > old(Progress())
      ensures h.Fine? ==> h.written == 0 && FirstIn(w, |old(calls)|, |calls|) == None
      ensures h.Halted? ==> FirstIn(w, |old(calls)|, |calls|) == Some(h.call)
      ensures h == Unwinding <==> HasPanic(w, |old(calls)|, |calls|)
    {
      hide FirstIn, HasPanic, CountWrites;
      NoCalls(w, |calls|);
      h := Fine(0);
      if !dlqFlushed {
        dlqFlushed := true;
        var v := Enter(DlqFlush);
        h := if v == Ok then Fine(0) else if v == Err then Halted(|calls| - 1) else Unwinding;
      }
    }

    method CloseDlqOnce() returns (h: Halt)
      requires Valid() && Exact() && dlqFlushed
      modifies `calls, `dlqClosed
      ensures Valid() && Exact() && Grows() && dlqClosed && NoPull() && OnlyTeardown()
      ensures h == Unwinding ==> Progress() > old(Progress())
      ensures h.Fine? ==> h.written == 0 && FirstIn(w, |old(calls)|, |calls|) == None
      ensures h.Halted? ==> FirstIn(w, |old(calls)|, |calls|) == Some(h.call)
      ensures h == Unwinding <==> HasPanic(w, |old(calls)|, |calls|)
    {
      hide FirstIn, HasPanic, CountWrites;
      NoCalls(w, |calls|);
      h := Fine(0);
      if !dlqClosed {
        dlqClosed := true;
        var v := Enter(DlqClose);
        h := if v == Ok then Fine(0) else if v == Err then Halted(|calls| - 1) else Unwinding;
      }
    }

    /** `Dlq::finish`: flush, then close; both are attempted, and the first error counts. */
    method FinishDlq() returns (panicked: bool, error: Option<nat>)
      requires Valid() && Exact() && sourceClosed && !dlqFinished
      modifies `calls, `dlqFlushed, `dlqClosed
      ensures Valid() && Exact() && Grows() && NoPull() && OnlyTeardown()
      ensures panicked <==> HasPanic(w, |old(calls)|, |calls|)
      ensures panicked ==> Progress() > old(Progress())
      ensures !panicked ==> (hasDlq ==> dlqClosed) && error == FirstIn(w, |old(calls)|, |calls|)
    {
      hide FirstIn, HasPanic, CountWrites, Order;
      NoCalls(w, |calls|);
      if !hasDlq { return false, None; }
      ghost var n := |calls|;
      var a := FlushDlqOnce();
      if a == Unwinding { return true, None; }
      ghost var mid := |calls|;
      var b := CloseDlqOnce();
      Stretch(w, n, mid, |calls|);
      panicked := b == Unwinding;
      error := OrElse(ErrorOf(a), ErrorOf(b));
    }

    /** `close_rest`: close the source, then finish the dead-letter sink. */
    method CloseRest(first: Option<nat>) returns (panicked: bool, first': Option<nat>)
      requires Valid() && Exact() && closed
      modifies `calls, `sourceClosed, `dlqFinished, `dlqFlushed, `dlqClosed
      ensures Valid() && Exact() && Grows() && NoPull() && OnlyTeardown()
      ensures panicked <==> HasPanic(w, |old(calls)|, |calls|)
      ensures panicked ==> Progress() > old(Progress())
      ensures !panicked ==> Progress() == |Order(hasDlq)|
      ensures !panicked ==> first' == OrElse(first, FirstIn(w, |old(calls)|, |calls|))
    {
      hide FirstIn, HasPanic, CountWrites;
      first' := first;
      ghost var n := |calls|;
      var h := CloseSourceOnce();
      if h == Unwinding { return true, first; }
      first' := OrElse(first', ErrorOf(h));
      ghost var mid := |calls|;
      if dlqFinished { return false, first'; }
      var error;
      panicked, error := FinishDlq();
      Stretch(w, n, mid, |calls|);
      if panicked { return; }
      dlqFinished := true;
      first' := OrElse(first', error);
    }

    /** `finish`: flush and close the chain, or abort it if the flush fails, then close the rest. */
    method Finish(first: Option<nat>) returns (panicked: bool, first': Option<nat>)
      requires Valid() && Exact() && live && Progress() == 0
      modifies this
      ensures itemsIn == old(itemsIn) && deliveries == old(deliveries)
      ensures Valid() && Exact() && Grows() && NoPull()
      ensures FirstIn(w, |old(calls)|, |calls|) == None && !panicked ==>
        calls == old(calls) + FinishLog(w, |old(calls)|, hasDlq)
      ensures Follows(w, calls, old(calls) + FinishLog(w, |old(calls)|, hasDlq))
      ensures panicked <==> HasPanic(w, |old(calls)|, |calls|)
      ensures panicked ==> live
      ensures !panicked ==> !live && first' == OrElse(first, FirstIn(w, |old(calls)|, |calls|))
    {
      hide FirstIn, HasPanic, CountWrites, Order, Exact, Follows, ScriptCalls;
      first' := first;
      ghost var n, base := |calls|, calls + ScriptCalls(w.work(|calls|));
      var a := CallChain(Flush);
      ghost var mid, sofar, done := |calls|, calls, flushed;
      assert base + Order(hasDlq) == old(calls) + FinishLog(w, n, hasDlq);
      if a == Unwinding {
        EndFollows(n, base, sofar, done);
        return true, first;
      }
      var b := CallChain(if a.Fine? then Close else ChainOp.Abort);
      Stretch(w, n, mid, |calls|);
      if b == Unwinding {
        EndFollows(n, base, sofar, done);
        return true, first;
      }
      panicked, first' := Rest(n, OrElse(ErrorOf(a), ErrorOf(b)), first);
      EndFollows(n, base, sofar, done);
    }

    /**
      The end of a run whose stages have done the work of the flush, or failed in it, by `sofar`:
      with that done, only lifecycle calls follow, in order.
    */
    lemma EndFollows(n: nat, base: seq<Call>, sofar: seq<Call>, done: bool)
      requires Valid() && n <= |sofar| && sofar <= calls
      requires done ==> base <= calls && |calls| - Progress() == |base|
      requires !done ==> Follows(w, sofar, base) && (FirstIn(w, n, |sofar|).Some? || HasPanic(w, n, |sofar|))
      ensures Follows(w, calls, base + Order(hasDlq))
      ensures done && !live ==> calls == base + Order(hasDlq)
      ensures !done ==> FirstIn(w, n, |calls|).Some? || HasPanic(w, n, |calls|)
    {
      if done {
        assert calls == calls[..|base|] + calls[|base|..];
        PrefixFollows(w, calls, base + Order(hasDlq));
        assert Order(hasDlq)[..|Order(hasDlq)|] == Order(hasDlq);
      } else {
        FollowsOn(w, sofar, calls, base, n);
        FollowsLonger(w, calls, base, base + Order(hasDlq));
        Stretch(w, n, |sofar|, |calls|);
      }
    }

    /** `abort`: the failure end. If it panics, one more lifecycle call is behind it. */
    method Abort(first: Option<nat>) returns (panicked: bool, first': Option<nat>)
      requires Valid() && Exact() && live
      modifies this
      ensures itemsIn == old(itemsIn) && deliveries == old(deliveries)
      ensures Valid() && Exact() && Grows() && NoPull() && OnlyTeardown()
      ensures panicked <==> HasPanic(w, |old(calls)|, |calls|)
      ensures panicked ==> live && Progress() > old(Progress())
      ensures !panicked ==> !live && first' == OrElse(first, FirstIn(w, |old(calls)|, |calls|))
    {
      hide FirstIn, HasPanic, CountWrites, Order, Exact;
      first' := first;
      ghost var n := |calls|;
      var a := CallChain(ChainOp.Abort);
      if a == Unwinding { return true, first; }
      panicked, first' := Rest(n, ErrorOf(a), first);
    }

    /** The common end of `finish` and `abort`; `error` is the first error since call `n`. */
    method Rest(ghost n: nat, error: Option<nat>, first: Option<nat>) returns (panicked: bool, first': Option<nat>)
      requires Valid() && Exact() && live && closed
      requires n <= |calls| && error == FirstIn(w, n, |calls|) && !HasPanic(w, n, |calls|)
      modifies this
      ensures itemsIn == old(itemsIn) && deliveries == old(deliveries)
      ensures Valid() && Exact() && Grows() && NoPull() && OnlyTeardown()
      ensures panicked <==> HasPanic(w, n, |calls|)
      ensures panicked ==> live && Progress() > old(Progress())
      ensures !panicked ==> !live && first' == OrElse(first, FirstIn(w, n, |calls|))
    {
      hide FirstIn, HasPanic, CountWrites;
      ghost var mid := |calls|;
      panicked, first' := CloseRest(OrElse(first, error));
      Stretch(w, n, mid, |calls|);
      if !panicked { live := false; }
    }

    /**
      Dropping a runner. Every attempt that panics has made one more of the at most five
      lifecycle calls, so six attempts always finish the teardown.
    */
    method Drop()
      requires Valid() && Exact()
      modifies this
      ensures itemsIn == old(itemsIn) && deliveries == old(deliveries)
      ensures Valid() && Exact() && Grows() && NoPull()
      ensures !live && Progress() == |Order(hasDlq)|
    {
      if !live { return; }
      var errors: Option<nat> := None;
      for attempt := 0 to 6
        invariant Valid() && Exact() && Grows() && NoPull()
        invariant itemsIn == old(itemsIn) && deliveries == old(deliveries)
        invariant live ==> Progress() >= attempt
      {
        if !live { break; }
        var panicked, e := Abort(errors);
        if !panicked { errors := e; }
      }
    }
  }
}
