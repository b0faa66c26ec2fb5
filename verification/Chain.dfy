/**
  The push-style stage chain of src/pipeline.rs and src/runtime.rs: every stage hands each
  item it makes to the next one before it looks at its next input, down to the sink. The
  class `Assembly` is the assembled chain with its mutable state; `PushItem` and `PushFlush`
  say what one call does to it. Stage and sink outcomes come from functions and an oracle.
*/
module Chain {
  import opened Options

  datatype ErrorPolicy = FailFast | Continue | DeadLetter

  /** `Group` is a count batch whose flush may also fail, as that of a user stage may. */
  datatype Stage<!V> =
    | Map(f: V -> V)
    | Filter(keep: V -> bool)
    | FlatMap(expand: V -> seq<V>)
    | TryMap(attempt: V -> Option<V>, policy: ErrorPolicy)
    | Group(size: nat, pack: seq<V> -> V, flushFails: bool, policy: ErrorPolicy)

  /** Which writes, which dead-letter writes and whether the final flush fail. */
  datatype World = World(sinkFails: nat -> bool, dlqFails: nat -> bool, flushFails: bool)

  /** What the sink has accepted, and the tally's counters. */
  datatype Ctx<V> = Ctx(sink: seq<V>, errors: nat, dead: nat)

  /** `StageResult`: how many items the sink accepted because of the call, or Err. */
  datatype Result = Ok(written: nat) | Err

  datatype Pushed<V> = Pushed(open: seq<seq<V>>, ctx: Ctx<V>, result: Result)

  // ---------------------------------------------------------------- one stage

  /** What a stage makes of one item: the items it emits, its open batch after, and whether it then fails. */
  datatype Made<V> = Made(outs: seq<V>, open: seq<V>, failed: bool)

  function Limit(size: nat): nat { if size == 0 then 1 else size }

  function OnItem<V>(s: Stage<V>, open: seq<V>, x: V): Made<V> {
    match s
    case Map(f) => Made([f(x)], open, false)
    case Filter(keep) => Made(if keep(x) then [x] else [], open, false)
    case FlatMap(expand) => Made(expand(x), open, false)
    case TryMap(attempt, _) =>
      (match attempt(x)
       case Some(y) => Made([y], open, false)
       case None => Made([], open, true))
    case Group(size, pack, _, _) =>
      if |open| + 1 >= Limit(size) then Made([pack(open + [x])], [], false) else Made([], open + [x], false)
  }

  function OnFlush<V>(s: Stage<V>, open: seq<V>): Made<V> {
    match s
    case Group(_, pack, fails, _) => Made(if open == [] then [] else [pack(open)], [], fails)
    case _ => Made([], open, false)
  }

  function PolicyOf<V>(s: Stage<V>): ErrorPolicy {
    match s
    case TryMap(_, policy) => policy
    case Group(_, _, _, policy) => policy
    case _ => FailFast
  }

  /** `handle_failure`: count the error, then fail, go on, or write a dead-letter record. */
  function Handle<V>(w: World, c: Ctx<V>, policy: ErrorPolicy): (Ctx<V>, bool) {
    var c' := c.(errors := c.errors + 1);
    match policy
    case FailFast => (c', false)
    case Continue => (c', true)
    case DeadLetter => if w.dlqFails(c.dead) then (c', false) else (c'.(dead := c.dead + 1), true)
  }

  // ---------------------------------------------------------------- the chain

  /** One item through the stages `ss`, whose open batches are `open`, to the sink. */
  function PushItem<V>(w: World, ss: seq<Stage<V>>, open: seq<seq<V>>, c: Ctx<V>, x: V): (r: Pushed<V>)
    requires |ss| == |open|
    ensures |r.open| == |open|
    decreases |ss|, 0
  {
    if ss == [] then
      if w.sinkFails(|c.sink|) then Pushed([], c, Err) else Pushed([], c.(sink := c.sink + [x]), Ok(1))
    else Drive(w, ss, open, c, OnItem(ss[0], open[0], x))
  }

  /** `drive`: hand on what the stage emitted; if the stage itself failed, apply its policy. */
  function Drive<V>(w: World, ss: seq<Stage<V>>, open: seq<seq<V>>, c: Ctx<V>, m: Made<V>): (r: Pushed<V>)
    requires |ss| == |open| > 0
    ensures |r.open| == |open|
    decreases |ss| - 1, |m.outs| + 2
  {
    var d := PushEach(w, ss[1..], open[1..], c, m.outs);
    var open' := [m.open] + d.open;
    if d.result == Err || !m.failed then Pushed(open', d.ctx, d.result)
    else
      var (c', goesOn) := Handle(w, d.ctx, PolicyOf(ss[0]));
      Pushed(open', c', if goesOn then d.result else Err)
  }

  /** Items one after the other, until one call fails. */
  function PushEach<V>(w: World, ss: seq<Stage<V>>, open: seq<seq<V>>, c: Ctx<V>, xs: seq<V>): (r: Pushed<V>)
    requires |ss| == |open|
    ensures |r.open| == |open|
    decreases |ss|, |xs| + 1
  {
    if xs == [] then Pushed(open, c, Ok(0))
    else
      var d := PushEach(w, ss, open, c, xs[..|xs| - 1]);
      if d.result == Err then d
      else
        var e := PushItem(w, ss, d.open, d.ctx, xs[|xs| - 1]);
        Pushed(e.open, e.ctx, if e.result == Err then Err else Ok(d.result.written + e.result.written))
  }

  /** The flush: each stage emits what it holds, then the flush goes on to the next one, and to the sink. */
  function PushFlush<V>(w: World, ss: seq<Stage<V>>, open: seq<seq<V>>, c: Ctx<V>): (r: Pushed<V>)
    requires |ss| == |open|
    ensures |r.open| == |open|
    decreases |ss|
  {
    if ss == [] then Pushed([], c, if w.flushFails then Err else Ok(0))
    else
      var d := Drive(w, ss, open, c, OnFlush(ss[0], open[0]));
      if d.result == Err then d
      else
        var e := PushFlush(w, ss[1..], d.open[1..], d.ctx);
        Pushed([d.open[0]] + e.open, e.ctx, if e.result == Err then Err else Ok(d.result.written + e.result.written))
  }

  // ---------------------------------------------------------------- the assembled chain

  class Assembly<V> {
    const w: World
    const stages: seq<Stage<V>>
    var open: seq<seq<V>>
    var sink: seq<V>
    var errors: nat
    var dead: nat

    ghost predicate Valid()
      reads this
    {
      |open| == |stages|
    }

    ghost function Context(): Ctx<V>
      reads this
    {
      Ctx(sink, errors, dead)
    }

    constructor (w: World, stages: seq<Stage<V>>)
      ensures Valid() && this.w == w && this.stages == stages
      ensures open == Empty(|stages|) && Context() == Ctx([], 0, 0)
    {
      this.w, this.stages := w, stages;
      open := Empty(|stages|);
      sink, errors, dead := [], 0, 0;
    }

    /** What the call from stage `i` on has done: stages before `i` are untouched. */
    twostate predicate Did(i: nat, r: Pushed<V>)
      requires i <= |stages|
      reads this
    {
      Valid() && old(Valid()) && open == old(open)[..i] + r.open && Context() == r.ctx
    }

    /** The closure of stage `i`, or of the sink, called with an item. */
    method Process(i: nat, x: V) returns (r: Result)
      requires Valid() && i <= |stages|
      modifies this
      ensures var p := PushItem(w, stages[i..], old(open[i..]), old(Context()), x); Did(i, p) && r == p.result
      decreases |stages| - i, 0
    {
      if i == |stages| {
        if w.sinkFails(|sink|) { return Err; }
        sink := sink + [x];
        return Ok(1);
      }
      var m := OnItem(stages[i], open[i], x);
      r := RunStage(i, m);
    }

    /** The emit adapter of one call: it remembers a failure downstream and drops what is emitted after it. */
    method EmitAll(i: nat, outs: seq<V>) returns (r: Result)
      requires Valid() && i <= |stages|
      modifies this
      ensures var p := PushEach(w, stages[i..], old(open[i..]), old(Context()), outs); Did(i, p) && r == p.result
      decreases |stages| - i, |outs| + 1
    {
      hide PushItem;
      ghost var was := open;
      r := Ok(0);
      for k := 0 to |outs|
        invariant Valid() && open[..i] == was[..i]
        invariant var d := PushEach(w, stages[i..], was[i..], old(Context()), outs[..k]);
          open[i..] == d.open && Context() == d.ctx && d.result == r
      {
        assert outs[..k + 1][..k] == outs[..k];
        if r != Err {
          var e := Process(i, outs[k]);
          r := if e == Err then Err else Ok(r.written + e.written);
        }
      }
      assert outs[..|outs|] == outs;
      assert open == open[..i] + open[i..];
    }

    /** `drive`: one call of the stage, then its error policy. */
    method RunStage(i: nat, m: Made<V>) returns (r: Result)
      requires Valid() && i < |stages|
      modifies this
      ensures var p := Drive(w, stages[i..], old(open[i..]), old(Context()), m); Did(i, p) && r == p.result
      decreases |stages| - i - 1, |m.outs| + 2
    {
      hide PushEach, Handle;
      ghost var was := open;
      open := open[i := m.open];
      assert stages[i..][1..] == stages[i + 1..] && was[i..][1..] == open[i + 1..];
      r := EmitAll(i + 1, m.outs);
      assert open == was[..i] + ([m.open] + open[i + 1..]);
      if r != Err && m.failed {
        var goesOn := HandleFailure(PolicyOf(stages[i]));
        if !goesOn { r := Err; }
      }
    }

    /** The closure of stage `i`, or of the sink, called with a flush. */
    method Flush(i: nat) returns (r: Result)
      requires Valid() && i <= |stages|
      modifies this
      ensures var p := PushFlush(w, stages[i..], old(open[i..]), old(Context())); Did(i, p) && r == p.result
      decreases |stages| - i
    {
      hide Drive;
      if i == |stages| { return if w.flushFails then Err else Ok(0); }
      ghost var was := open;
      r := RunStage(i, OnFlush(stages[i], open[i]));
      if r == Err { return; }
      ghost var mid := open;
      assert mid == was[..i] + mid[i..];
      assert stages[i..][1..] == stages[i + 1..] && mid[i..][1..] == mid[i + 1..];
      var e := Flush(i + 1);
      assert open == was[..i] + ([mid[i..][0]] + open[i + 1..]);
      r := if e == Err then Err else Ok(r.written + e.written);
    }

    method HandleFailure(policy: ErrorPolicy) returns (goesOn: bool)
      modifies `errors, `dead
      ensures (Context(), goesOn) == Handle(w, old(Context()), policy)
    {
      errors := errors + 1;
      match policy
      case FailFast => goesOn := false;
      case Continue => goesOn := true;
      case DeadLetter =>
        if w.dlqFails(dead) { return false; }
        dead := dead + 1;
        goesOn := true;
    }
  }

  function Empty<V>(n: nat): (r: seq<seq<V>>)
    ensures |r| == n
  {
    if n == 0 then [] else [[]] + Empty(n - 1)
  }
}
