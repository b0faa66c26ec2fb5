/**
  What a chain of untimed segments means (src/runtime.rs, src/threaded.rs): each segment
  is a deterministic machine that answers one operation with a list of operations for
  the next segment. `Feed` is the single-threaded run, where every operation is pushed
  down to the sink before the next one is looked at; `Trans` is one segment on its own,
  as a transformer of histories. `Fuse` shows that the first is the composition of the
  second, failures included.
*/
module Segments {

  datatype Op<V> = Process(item: V) | Tick | Flush | Close | Abort

  /** How one call of a segment's chain ends: Ok, Err(Halt) or a panic. */
  datatype Outcome = Done | Fail | Panicked

  /** The operations handed on before the call ended. */
  datatype Reaction<S, V> = Reaction(outs: seq<Op<V>>, state: S, end: Outcome)

  /**
    A chain cut at its `buffer` edges; `caps[i]` is the capacity of the edge into segment i.
    What the sink answers to a write, a flush or a close is part of the last segment's
    reaction. `panics(n)` says whether call number `n` of the sink panics if it is made in
    an abort, and `closePanics` whether Source::close does.
  */
  datatype Chain<!S, !V> = Chain(
    init: seq<S>, react: (nat, S, Op<V>) -> Reaction<S, V>, caps: seq<nat>, panics: nat -> bool, closePanics: bool)

  predicate Normal<V>(op: Op<V>) { op.Process? || op.Flush? || op.Close? }

  /** The operations that are neither a tick nor an abort. */
  function Norm<V>(ops: seq<Op<V>>): seq<Op<V>> {
    if ops == [] then [] else (if Normal(ops[0]) then [ops[0]] else []) + Norm(ops[1..])
  }

  /**
    Where in a run a history of operations stands: 0 while items come, 1 after the flush,
    2 after the close, 3 if it is not the beginning of items, flush, close.
  */
  function Phase<V>(ops: seq<Op<V>>): nat {
    if ops == [] then 0 else NextPhase(Phase(ops[..|ops| - 1]), ops[|ops| - 1])
  }

  function NextPhase<V>(phase: nat, op: Op<V>): nat {
    match op
    case Process(_) => if phase == 0 then 0 else 3
    case Flush => if phase == 0 then 1 else 3
    case Close => if phase == 1 then 2 else 3
    case _ => 3
  }

  /** What the stage closures guarantee for an untimed chain: see the forwarding arms of `stage_as`. */
  ghost predicate Untimed<S(!new), V(!new)>(p: Chain<S, V>) {
    && |p.init| >= 1 && |p.caps| == |p.init|
    && (forall i, s :: TickOk(p.react(i, s, Tick), s))
    && (forall i, s :: p.react(i, s, Abort).outs == [Abort] && p.react(i, s, Abort).end == Done)
    && (forall i, s :: p.react(i, s, Close).outs == [Close])
    && (forall i, s :: FlushOk(p.react(i, s, Flush)))
    && (forall i, s, v :: Phase(p.react(i, s, Process(v)).outs) == 0)
  }

  ghost predicate TickOk<S, V>(r: Reaction<S, V>, s: S) {
    r.state == s && r.end == Done && (r.outs == [] || r.outs == [Tick])
  }

  /** A flush that succeeds is handed on after everything it emitted; one that fails may not be. */
  predicate FlushOk<S, V>(r: Reaction<S, V>) {
    Phase(r.outs) <= 1 && (r.end == Done ==> Phase(r.outs) == 1)
  }

  // ---------------------------------------------------------------- one segment, and the whole chain

  datatype Trace<S, V> = Trace(outs: seq<Op<V>>, state: S, end: Outcome)

  /** Everything segment `i` hands on for a history of operations, up to its first failure. */
  function Trans<S, V>(p: Chain<S, V>, i: nat, s: S, ops: seq<Op<V>>): Trace<S, V> {
    if ops == [] then Trace([], s, Done)
    else
      var t := Trans(p, i, s, ops[..|ops| - 1]);
      if t.end != Done then t
      else
        var r := p.react(i, t.state, ops[|ops| - 1]);
        Trace(t.outs + r.outs, r.state, r.end)
  }

  datatype Fed<S, V> = Fed(log: seq<Op<V>>, st: seq<S>, end: Outcome)

  /** One operation pushed through the segments from `i` on, as nested calls; `log` reaches the sink's side. */
  function Call<S, V>(p: Chain<S, V>, i: nat, st: seq<S>, op: Op<V>): (r: Fed<S, V>)
    ensures |r.st| == |st|
    decreases |st|, 0
  {
    if st == [] then Fed([op], [], Done)
    else
      var r := p.react(i, st[0], op);
      var d := Feed(p, i + 1, st[1..], r.outs);
      Fed(d.log, [r.state] + d.st, if d.end != Done then d.end else r.end)
  }

  /** The single-threaded run from segment `i` on: operation after operation, stopping at the first failure. */
  function Feed<S, V>(p: Chain<S, V>, i: nat, st: seq<S>, ops: seq<Op<V>>): (r: Fed<S, V>)
    ensures |r.st| == |st|
    decreases |st|, |ops| + 1
  {
    if ops == [] then Fed([], st, Done)
    else
      var a := Feed(p, i, st, ops[..|ops| - 1]);
      if a.end != Done then a
      else
        var c := Call(p, i, a.st, ops[|ops| - 1]);
        Fed(a.log + c.log, c.st, c.end)
  }

  // ---------------------------------------------------------------- laws

  ghost function Then<S, V>(p: Chain<S, V>, i: nat, a: Fed<S, V>, ops: seq<Op<V>>): Fed<S, V> {
    if a.end != Done then a
    else
      var b := Feed(p, i, a.st, ops);
      Fed(a.log + b.log, b.st, b.end)
  }

  lemma {:induction false} FeedSplit<S, V>(p: Chain<S, V>, i: nat, st: seq<S>, xs: seq<Op<V>>, ys: seq<Op<V>>)
    ensures Feed(p, i, st, xs + ys) == Then(p, i, Feed(p, i, st, xs), ys)
    decreases |ys|
  {
    if ys == [] {
      assert xs + ys == xs;
      assert Feed(p, i, st, xs).log + [] == Feed(p, i, st, xs).log;
    } else {
      var front, op := ys[..|ys| - 1], ys[|ys| - 1];
      FeedSplit(p, i, st, xs, front);
      assert (xs + ys)[..|xs + ys| - 1] == xs + front;
      var a := Feed(p, i, st, xs);
      if a.end == Done {
        var b := Feed(p, i, a.st, front);
        if b.end == Done {
          var c := Call(p, i, b.st, op);
          assert (a.log + b.log) + c.log == a.log + (b.log + c.log);
        }
      }
    }
  }

  lemma FeedMonotone<S, V>(p: Chain<S, V>, i: nat, st: seq<S>, xs: seq<Op<V>>, ys: seq<Op<V>>)
    requires xs <= ys
    ensures Feed(p, i, st, xs).log <= Feed(p, i, st, ys).log
  {
    assert ys == xs + ys[|xs|..];
    FeedSplit(p, i, st, xs, ys[|xs|..]);
  }

  lemma {:induction false} FeedSink<S, V>(p: Chain<S, V>, i: nat, ops: seq<Op<V>>)
    ensures Feed(p, i, [], ops) == Fed(ops, [], Done)
  {
    if ops != [] {
      FeedSink(p, i, ops[..|ops| - 1]);
      assert ops == ops[..|ops| - 1] + [ops[|ops| - 1]];
    }
  }

  /**
    The push-style run through segment `i` and everything after it is the run of what comes
    after on everything segment `i` alone hands on: same operations at the sink, and it
    stops exactly when one of the two does.
  */
  lemma {:induction false} Fuse<S, V>(p: Chain<S, V>, i: nat, st: seq<S>, ops: seq<Op<V>>)
    requires st != []
    ensures var f, t := Feed(p, i, st, ops), Trans(p, i, st[0], ops);
      var d := Feed(p, i + 1, st[1..], t.outs);
      && f.log == d.log
      && (f.end == Done <==> d.end == Done && t.end == Done)
      && (f.end == Done ==> f.st == [t.state] + d.st)
    decreases |ops|
  {
    if ops != [] {
      var front, op := ops[..|ops| - 1], ops[|ops| - 1];
      Fuse(p, i, st, front);
      var t := Trans(p, i, st[0], front);
      if t.end == Done {
        var r := p.react(i, t.state, op);
        FeedSplit(p, i + 1, st[1..], t.outs, r.outs);
        if Feed(p, i + 1, st[1..], t.outs).end == Done {
          assert ([t.state] + Feed(p, i + 1, st[1..], t.outs).st)[1..] == Feed(p, i + 1, st[1..], t.outs).st;
        }
      }
    }
  }

  lemma {:induction false} TransSplit<S, V>(p: Chain<S, V>, i: nat, s: S, xs: seq<Op<V>>, ys: seq<Op<V>>)
    ensures Trans(p, i, s, xs).outs <= Trans(p, i, s, xs + ys).outs
    decreases |ys|
  {
    if ys == [] {
      assert xs + ys == xs;
    } else {
      TransSplit(p, i, s, xs, ys[..|ys| - 1]);
      assert (xs + ys)[..|xs + ys| - 1] == xs + ys[..|ys| - 1];
    }
  }

  // ---------------------------------------------------------------- shapes

  lemma {:induction false} PhaseSplit<V>(xs: seq<Op<V>>, ys: seq<Op<V>>)
    ensures Phase(xs) <= Phase(xs + ys)
    ensures Phase(xs) == 2 && ys != [] ==> Phase(xs + ys) == 3
    ensures Phase(xs) == 0 ==> Phase(xs + ys) == Phase(ys)
    decreases |ys|
  {
    if ys == [] {
      assert xs + ys == xs;
    } else {
      PhaseSplit(xs, ys[..|ys| - 1]);
      assert (xs + ys)[..|xs + ys| - 1] == xs + ys[..|ys| - 1];
    }
  }

  lemma {:induction false} PhaseNorm<V>(ops: seq<Op<V>>)
    requires Phase(ops) <= 2
    ensures Norm(ops) == ops && forall op :: op in ops ==> Normal(op)
    decreases |ops|
  {
    if ops != [] {
      var front, op := ops[..|ops| - 1], ops[|ops| - 1];
      PhaseNorm(front);
      NormSnoc(front, op);
      assert ops == front + [op];
    }
  }

  lemma {:induction false} NormSnoc<V>(ops: seq<Op<V>>, op: Op<V>)
    ensures Norm(ops + [op]) == Norm(ops) + (if Normal(op) then [op] else [])
  {
    if ops == [] {
      assert ops + [op] == [op];
    } else {
      NormSnoc(ops[1..], op);
      assert (ops + [op])[1..] == ops[1..] + [op];
    }
  }

  /** A segment turns items, flush, close into items, flush, close. */
  lemma {:induction false} TransShape<S(!new), V(!new)>(p: Chain<S, V>, i: nat, s: S, ops: seq<Op<V>>)
    requires Untimed(p) && Phase(ops) <= 2
    ensures var t := Trans(p, i, s, ops);
      && Phase(t.outs) <= Phase(ops)
      && (t.end == Done ==> Phase(t.outs) == Phase(ops))
      && (Phase(ops) == 2 && Trans(p, i, s, ops[..|ops| - 1]).end == Done ==> Phase(t.outs) == 2)
    decreases |ops|
  {
    if ops != [] {
      var front, op := ops[..|ops| - 1], ops[|ops| - 1];
      assert ops == front + [op];
      PhaseSplit(front, [op]);
      TransShape(p, i, s, front);
      var t := Trans(p, i, s, front);
      if t.end == Done {
        var r := p.react(i, t.state, op);
        if op.Close? {
          assert r.outs == [Close];
          assert (t.outs + r.outs)[..|t.outs + r.outs| - 1] == t.outs;
        } else {
          PhaseSplit(t.outs, r.outs);
        }
      }
    }
  }
}
