/**
  The chain of src/pipeline.rs on the threads of src/threaded.rs: stages cut at the `buffer`
  edges are untimed segments, each segment turns a whole history into that of the composed
  list functions of its stages, and so a threaded run leaves in its sink what the list
  functions of all stages make of the items, as `ChainRuns` shows of the single-threaded run.
*/
module ThreadedStages {
  import opened Chain
  import opened ChainMeaning
  import opened ChainRuns
  import Seg = Segments
  import T = Threaded
  import L = ThreadedLaws
  import R = ThreadedRuns

  // ---------------------------------------------------------------- a segment made of stages

  /** The state of a segment's stages; `ctx.sink` is everything they have handed on. */
  datatype Cell<V> = Cell(open: seq<seq<V>>, ctx: Ctx<V>)

  /** The world without the sink: what the stages of a segment see of it. */
  function Quietly(w: World): World { World(k => false, w.dlqFails, false) }

  /** Of `n` items on their way to the sink, the first being write number `from`: those up to the first refused one. */
  function Offered(w: World, from: nat, n: nat): (k: nat)
    ensures k <= n
    decreases n
  {
    if n == 0 then 0 else if w.sinkFails(from) then 1 else 1 + Offered(w, from + 1, n - 1)
  }

  predicate Refuses(w: World, from: nat, n: nat)
    decreases n
  {
    n > 0 && (w.sinkFails(from) || Refuses(w, from + 1, n - 1))
  }

  /** What a segment hands on after its stages have been through one call. */
  function HandOn<V(==)>(w: World, cell: Cell<V>, p: Pushed<V>): Seg.Reaction<Cell<V>, V> {
    var from := |cell.ctx.sink|;
    var more := if cell.ctx.sink <= p.ctx.sink then p.ctx.sink[from..] else [];
    Seg.Reaction(R.Processes(more[..Offered(w, from, |more|)]), Cell(p.open, p.ctx),
      if p.result == Err || Refuses(w, from, |more|) then Seg.Fail else Seg.Done)
  }

  function Fit<V>(open: seq<seq<V>>, n: nat): (r: seq<seq<V>>)
    ensures |r| == n
  {
    if |open| == n then open else Empty(n)
  }

  function React<V(==)>(w: World, ss: seq<Stage<V>>, cell: Cell<V>, op: Seg.Op<V>): Seg.Reaction<Cell<V>, V> {
    var open := Fit(cell.open, |ss|);
    match op
    case Process(x) => HandOn(w, cell, PushItem(Quietly(w), ss, open, cell.ctx, x))
    case Flush =>
      var r := HandOn(w, cell, PushFlush(Quietly(w), ss, open, cell.ctx));
      if r.end != Seg.Done then r
      else Seg.Reaction(r.outs + [Seg.Flush], r.state, if w.flushFails then Seg.Fail else Seg.Done)
    case _ => Seg.Reaction([op], cell, Seg.Done)
  }

  /**
    The stages of each segment, in order, and the world each segment sees: how the dead-letter
    sink answers it, and in the last segment also the sink.
  */
  datatype Plan<!V> = Plan(segs: seq<seq<Stage<V>>>, worlds: nat -> World, caps: seq<nat>,
    panics: nat -> bool, closePanics: bool)

  predicate PlanOk<V>(plan: Plan<V>) { |plan.segs| == |plan.caps| >= 1 }

  function StagesOf<V>(plan: Plan<V>, i: nat): seq<Stage<V>> { if i < |plan.segs| then plan.segs[i] else [] }

  function WorldOf<V>(plan: Plan<V>, i: nat): World {
    if i + 1 == |plan.segs| then plan.worlds(i) else Quietly(plan.worlds(i))
  }

  function Cut<V(==)>(plan: Plan<V>): Seg.Chain<Cell<V>, V> {
    Seg.Chain(seq(|plan.segs|, i requires 0 <= i < |plan.segs| => Cell(Empty(|plan.segs[i]|), Start())),
      (i, cell, op) => React(WorldOf(plan, i), StagesOf(plan, i), cell, op),
      plan.caps, plan.panics, plan.closePanics)
  }

  // ---------------------------------------------------------------- such a chain is untimed

  lemma {:induction false} ProcessesPhase<V>(xs: seq<V>)
    ensures Seg.Phase(R.Processes(xs)) == 0 && Seg.Phase(R.Processes(xs) + [Seg.Flush]) == 1
  {
    var ops := R.Processes(xs);
    assert (ops + [Seg.Flush])[..|ops + [Seg.Flush]| - 1] == ops;
    if xs != [] {
      ProcessesPhase(xs[..|xs| - 1]);
      assert ops[..|ops| - 1] == R.Processes(xs[..|xs| - 1]);
    }
  }

  lemma HandOnShape<V>(w: World, cell: Cell<V>, p: Pushed<V>)
    ensures var r := HandOn(w, cell, p);
      Seg.Phase(r.outs) == 0 && Seg.Phase(r.outs + [Seg.Flush]) == 1
  {
    var from := |cell.ctx.sink|;
    var more := if cell.ctx.sink <= p.ctx.sink then p.ctx.sink[from..] else [];
    ProcessesPhase(more[..Offered(w, from, |more|)]);
  }

  lemma ReactShape<V>(w: World, ss: seq<Stage<V>>, cell: Cell<V>)
    ensures Seg.TickOk(React(w, ss, cell, Seg.Tick), cell)
    ensures React(w, ss, cell, Seg.Abort) == Seg.Reaction([Seg.Abort], cell, Seg.Done)
    ensures React(w, ss, cell, Seg.Close).outs == [Seg.Close]
    ensures Seg.FlushOk(React(w, ss, cell, Seg.Flush))
    ensures forall v :: Seg.Phase(React(w, ss, cell, Seg.Process(v)).outs) == 0
  {
    var open := Fit(cell.open, |ss|);
    HandOnShape(w, cell, PushFlush(Quietly(w), ss, open, cell.ctx));
    forall v ensures Seg.Phase(React(w, ss, cell, Seg.Process(v)).outs) == 0 {
      HandOnShape(w, cell, PushItem(Quietly(w), ss, open, cell.ctx, v));
    }
    hide Seg.Phase, HandOn, PushFlush, PushItem;
  }

  /** Chains of these stages, cut anywhere, guarantee what the threaded driver's proofs rest on. */
  lemma {:induction false} StagesAreUntimed<V(!new)>(plan: Plan<V>)
    requires PlanOk(plan)
    ensures Seg.Untimed(Cut(plan))
  {
    var p := Cut(plan);
    assert |p.init| == |p.caps| >= 1;
    assert forall i: nat, s, op :: p.react(i, s, op) == React(WorldOf(plan, i), StagesOf(plan, i), s, op);
    hide React, Seg.TickOk, Seg.FlushOk, Seg.Phase, WorldOf, StagesOf, Cut;
    forall i: nat, s: Cell<V>
      ensures Seg.TickOk(p.react(i, s, Seg.Tick), s) && Seg.FlushOk(p.react(i, s, Seg.Flush))
      ensures p.react(i, s, Seg.Abort).outs == [Seg.Abort] && p.react(i, s, Seg.Abort).end == Seg.Done
      ensures p.react(i, s, Seg.Close).outs == [Seg.Close]
    {
      ReactShape(WorldOf(plan, i), StagesOf(plan, i), s);
    }
    forall i: nat, s: Cell<V>, v: V ensures Seg.Phase(p.react(i, s, Seg.Process(v)).outs) == 0 {
      ReactShape(WorldOf(plan, i), StagesOf(plan, i), s);
    }
  }

  lemma ReactOf<V>(plan: Plan<V>, i: nat, cell: Cell<V>, op: Seg.Op<V>)
    ensures Cut(plan).react(i, cell, op) == React(WorldOf(plan, i), StagesOf(plan, i), cell, op)
  {
    hide React;
  }

  /** How segment `i` reacts when its state fits its stages. */
  lemma ItemReacts<V>(plan: Plan<V>, i: nat, cell: Cell<V>, item: V)
    requires i < |plan.segs| && |cell.open| == |plan.segs[i]|
    ensures var w, ss := WorldOf(plan, i), plan.segs[i];
      Cut(plan).react(i, cell, Seg.Process(item)) ==
        HandOn(w, cell, PushItem(Quietly(w), ss, cell.open, cell.ctx, item))
  {
    hide PushItem, HandOn, Cut, WorldOf, Quietly;
    ReactOf(plan, i, cell, Seg.Process(item));
  }

  lemma FlushReacts<V>(plan: Plan<V>, i: nat, cell: Cell<V>)
    requires i < |plan.segs| && |cell.open| == |plan.segs[i]|
    ensures var w, ss := WorldOf(plan, i), plan.segs[i];
      var h := HandOn(w, cell, PushFlush(Quietly(w), ss, cell.open, cell.ctx));
      Cut(plan).react(i, cell, Seg.Flush) ==
        if h.end != Seg.Done then h
        else Seg.Reaction(h.outs + [Seg.Flush], h.state, if w.flushFails then Seg.Fail else Seg.Done)
  {
    hide PushFlush, HandOn, Cut, WorldOf, Quietly;
    ReactOf(plan, i, cell, Seg.Flush);
  }

  lemma CloseReacts<V>(plan: Plan<V>, i: nat, cell: Cell<V>)
    ensures Cut(plan).react(i, cell, Seg.Close) == Seg.Reaction([Seg.Close], cell, Seg.Done)
  {}

  // ---------------------------------------------------------------- one segment means list functions

  lemma {:induction false} ProcessesSplit<V>(xs: seq<V>, ys: seq<V>)
    ensures R.Processes(xs + ys) == R.Processes(xs) + R.Processes(ys)
    decreases |ys|
  {
    if ys == [] {
      assert xs + ys == xs;
    } else {
      ProcessesSplit(xs, ys[..|ys| - 1]);
      assert (xs + ys)[..|xs + ys| - 1] == xs + ys[..|ys| - 1];
    }
  }

  lemma ProcessesGrow<V>(xs: seq<V>, ys: seq<V>)
    requires xs <= ys
    ensures R.Processes(xs) <= R.Processes(ys)
  {
    assert ys == xs + ys[|xs|..];
    ProcessesSplit(xs, ys[|xs|..]);
  }

  lemma {:induction false} OffersAll(w: World, from: nat, n: nat)
    ensures !Refuses(w, from, n) ==> Offered(w, from, n) == n
    decreases n
  {
    if n > 0 { OffersAll(w, from + 1, n - 1); }
  }

  /** What is handed on continues what was handed on before, completely if the call succeeds. */
  lemma HandOnMeans<V>(w: World, cell: Cell<V>, p: Pushed<V>)
    requires cell.ctx.sink <= p.ctx.sink
    ensures var r := HandOn(w, cell, p);
      && R.Processes(cell.ctx.sink) + r.outs <= R.Processes(p.ctx.sink)
      && (r.end == Seg.Done ==>
        && p.result != Err && r.state == Cell(p.open, p.ctx)
        && R.Processes(cell.ctx.sink) + r.outs == R.Processes(p.ctx.sink))
  {
    var from := |cell.ctx.sink|;
    var more := p.ctx.sink[from..];
    var some := more[..Offered(w, from, |more|)];
    OffersAll(w, from, |more|);
    ProcessesSplit(cell.ctx.sink, some);
    assert more[..|more|] == more && cell.ctx.sink + more == p.ctx.sink;
    ProcessesGrow(cell.ctx.sink + some, p.ctx.sink);
  }

  /** Segment `i` on the items alone: it stands where its stages stand. */
  ghost predicate StandsAt<V>(plan: Plan<V>, i: nat, items: seq<V>, k: nat)
    requires i < |plan.segs| && k <= |items|
  {
    var ss := plan.segs[i];
    var t := Seg.Trans(Cut(plan), i, Cell(Empty(|ss|), Start()), R.Processes(items[..k]));
    && t.outs <= R.Processes(ListFns(ss, items))
    && (t.end == Seg.Done ==>
      var d := SoFar(Quietly(WorldOf(plan, i)), ss, items[..k]);
      d.result != Err && t.state == Cell(d.open, d.ctx) && t.outs == R.Processes(d.ctx.sink))
  }

  lemma {:induction false} ItemsOfSegment<V>(plan: Plan<V>, i: nat, items: seq<V>, k: nat)
    requires i < |plan.segs| && k <= |items|
    ensures StandsAt(plan, i, items, k)
  {
    var w, ss := WorldOf(plan, i), plan.segs[i];
    if k == 0 {
      assert items[..0] == [];
      NothingYet(Quietly(w), ss);
    } else {
      ItemsOfSegment(plan, i, items, k - 1);
      assert items[..k][..k - 1] == items[..k - 1];
      var ops := R.Processes(items[..k]);
      assert ops[..|ops| - 1] == R.Processes(items[..k - 1]) && ops[|ops| - 1] == Seg.Process(items[k - 1]);
      var p, cell := Cut(plan), Cell(Empty(|ss|), Start());
      var t := Seg.Trans(p, i, cell, R.Processes(items[..k - 1]));
      if t.end == Seg.Done {
        OneMore(Quietly(w), ss, items, k - 1);
        AfterItems(Quietly(w), ss, items, k);
        var d := SoFar(Quietly(w), ss, items[..k - 1]);
        var e := PushItem(Quietly(w), ss, d.open, d.ctx, items[k - 1]);
        ItemReacts(plan, i, t.state, items[k - 1]);
        hide PushItem, SoFar, HandOn, ListFns, React, Cut;
        HandOnMeans(w, t.state, e);
        ProcessesGrow(e.ctx.sink, ListFns(ss, items));
      }
    }
  }

  lemma TransTwice<S, V>(p: Seg.Chain<S, V>, i: nat, s: S, ops: seq<Seg.Op<V>>, a: Seg.Op<V>, b: Seg.Op<V>)
    ensures var t := Seg.Trans(p, i, s, ops);
      var u := if t.end != Seg.Done then t else
        var r := p.react(i, t.state, a); Seg.Trace(t.outs + r.outs, r.state, r.end);
      Seg.Trans(p, i, s, ops + [a, b]) == if u.end != Seg.Done then u else
        var r := p.react(i, u.state, b); Seg.Trace(u.outs + r.outs, r.state, r.end)
  {
    assert (ops + [a, b])[..|ops + [a, b]| - 1] == ops + [a];
    assert (ops + [a])[..|ops + [a]| - 1] == ops;
  }

  /** The flush of a segment that stands where its stages stand. */
  lemma FlushOfSegment<V>(plan: Plan<V>, i: nat, items: seq<V>)
    requires i < |plan.segs|
    requires SoFar(Quietly(WorldOf(plan, i)), plan.segs[i], items).result != Err
    ensures var ss, d := plan.segs[i], SoFar(Quietly(WorldOf(plan, i)), plan.segs[i], items);
      var r := Cut(plan).react(i, Cell(d.open, d.ctx), Seg.Flush);
      var outs, all := R.Processes(d.ctx.sink) + r.outs, R.Processes(ListFns(ss, items)) + [Seg.Flush];
      outs <= all && (r.end == Seg.Done ==> outs == all)
  {
    var w, ss := WorldOf(plan, i), plan.segs[i];
    hide PushFlush, SoFar, HandOn, ListFns, React, Cut, WorldOf, Quietly;
    var d := SoFar(Quietly(w), ss, items);
    var e := PushFlush(Quietly(w), ss, d.open, d.ctx);
    AfterFlush(Quietly(w), ss, items);
    FlushReacts(plan, i, Cell(d.open, d.ctx));
    HandOnMeans(w, Cell(d.open, d.ctx), e);
    ProcessesGrow(e.ctx.sink, ListFns(ss, items));
    var h := HandOn(w, Cell(d.open, d.ctx), e);
    assert R.Processes(d.ctx.sink) + (h.outs + [Seg.Flush]) == (R.Processes(d.ctx.sink) + h.outs) + [Seg.Flush];
  }

  /**
    A whole history of items, flush and close comes out of a segment as the whole history of
    what the list functions of its stages make of the items, up to where something fails.
  */
  lemma {:induction false} SegmentMeans<V>(plan: Plan<V>, i: nat, items: seq<V>)
    requires i < |plan.segs|
    ensures var ss := plan.segs[i];
      var t := Seg.Trans(Cut(plan), i, Cell(Empty(|ss|), Start()), R.Whole(items));
      t.outs <= R.Whole(ListFns(ss, items)) && (t.end == Seg.Done ==> t.outs == R.Whole(ListFns(ss, items)))
  {
    var ss, p := plan.segs[i], Cut(plan);
    var cell: Cell<V> := Cell(Empty(|ss|), Start());
    var t := Seg.Trans(p, i, cell, R.Processes(items));
    ItemsOfSegment(plan, i, items, |items|);
    assert items[..|items|] == items;
    assert R.Whole(ListFns(ss, items)) == R.Processes(ListFns(ss, items)) + [Seg.Flush] + [Seg.Close];
    hide SoFar, ListFns, Cut, Seg.Trans, WorldOf, R.Processes;
    TransTwice(p, i, cell, R.Processes(items), Seg.Flush, Seg.Close);
    if t.end == Seg.Done {
      FlushOfSegment(plan, i, items);
      CloseReacts(plan, i, p.react(i, t.state, Seg.Flush).state);
    }
  }

  /** Nothing fails in a segment whose stages forgive and whose world does not fail. */
  lemma {:induction false} SegmentForgives<V>(plan: Plan<V>, i: nat, items: seq<V>)
    requires i < |plan.segs| && Forgiving(WorldOf(plan, i), plan.segs[i])
    ensures Seg.Trans(Cut(plan), i, Cell(Empty(|plan.segs[i]|), Start()), R.Whole(items)).end == Seg.Done
  {
    var w, ss, p := WorldOf(plan, i), plan.segs[i], Cut(plan);
    var cell: Cell<V> := Cell(Empty(|ss|), Start());
    ItemsForgive(plan, i, items, |items|);
    ItemsOfSegment(plan, i, items, |items|);
    assert items[..|items|] == items;
    var t := Seg.Trans(p, i, cell, R.Processes(items));
    assert t.end == Seg.Done && |t.state.open| == |ss|;
    var e := PushFlush(Quietly(w), ss, t.state.open, t.state.ctx);
    assert Forgiving(Quietly(w), ss) && !w.flushFails && forall k :: !w.sinkFails(k);
    hide PushFlush, SoFar, Cut, Seg.Trans, HandOn, Forgiving;
    ForgivingFlushes(Quietly(w), ss, t.state.open, t.state.ctx);
    HandOnAccepted(w, t.state, e);
    FlushReacts(plan, i, t.state);
    TransTwice(p, i, cell, R.Processes(items), Seg.Flush, Seg.Close);
    CloseReacts(plan, i, HandOn(w, t.state, e).state);
  }

  /** A sink that refuses nothing does not make a call fail. */
  lemma HandOnAccepted<V>(w: World, cell: Cell<V>, p: Pushed<V>)
    requires p.result != Err && forall k :: !w.sinkFails(k)
    ensures HandOn(w, cell, p).end == Seg.Done
  {
    var from := |cell.ctx.sink|;
    RefusesNothing(w, from, if cell.ctx.sink <= p.ctx.sink then |p.ctx.sink| - from else 0);
  }

  lemma {:induction false} ItemsForgive<V>(plan: Plan<V>, i: nat, items: seq<V>, k: nat)
    requires i < |plan.segs| && k <= |items| && Forgiving(WorldOf(plan, i), plan.segs[i])
    ensures Seg.Trans(Cut(plan), i, Cell(Empty(|plan.segs[i]|), Start()), R.Processes(items[..k])).end == Seg.Done
  {
    var w, ss := WorldOf(plan, i), plan.segs[i];
    if k > 0 {
      ItemsForgive(plan, i, items, k - 1);
      ItemsOfSegment(plan, i, items, k - 1);
      assert items[..k][..k - 1] == items[..k - 1];
      var ops := R.Processes(items[..k]);
      assert ops[..|ops| - 1] == R.Processes(items[..k - 1]) && ops[|ops| - 1] == Seg.Process(items[k - 1]);
      var d := SoFar(Quietly(w), ss, items[..k - 1]);
      var e := PushItem(Quietly(w), ss, d.open, d.ctx, items[k - 1]);
      assert Forgiving(Quietly(w), ss) && forall k :: !w.sinkFails(k);
      assert SoFar(Quietly(w), ss, items[..k]) == PushEach(Quietly(w), ss, Empty(|ss|), Start(), items[..k]);
      hide PushItem, PushEach, SoFar, HandOn, Cut, Forgiving;
      OneMore(Quietly(w), ss, items, k - 1);
      ForgivingGoesOn(Quietly(w), ss, Empty(|ss|), Start(), items[..k]);
      ItemReacts(plan, i, Cell(d.open, d.ctx), items[k - 1]);
      HandOnAccepted(w, Cell(d.open, d.ctx), e);
    }
  }

  lemma {:induction false} RefusesNothing(w: World, from: nat, n: nat)
    requires forall k :: !w.sinkFails(k)
    ensures !Refuses(w, from, n)
    decreases n
  {
    if n > 0 { RefusesNothing(w, from + 1, n - 1); }
  }

  // ---------------------------------------------------------------- the whole chain

  /** All stages, as if no edge were there. */
  function AllStages<V>(segs: seq<seq<Stage<V>>>): seq<Stage<V>> {
    if segs == [] then [] else segs[0] + AllStages(segs[1..])
  }

  lemma {:induction false} ListFnsSplit<V>(ss: seq<Stage<V>>, tt: seq<Stage<V>>, xs: seq<V>)
    ensures ListFns(ss + tt, xs) == ListFns(tt, ListFns(ss, xs))
    decreases |ss|
  {
    if ss == [] {
      assert ss + tt == tt;
    } else {
      assert (ss + tt)[1..] == ss[1..] + tt;
      ListFnsSplit(ss[1..], tt, ListFn(ss[0], xs));
    }
  }

  /** The single-threaded run of the segments from `i` on is the list functions of all their stages. */
  lemma {:induction false} ChainMeans<V(!new)>(plan: Plan<V>, i: nat, items: seq<V>)
    requires PlanOk(plan) && i <= |plan.segs|
    ensures var f := Seg.Feed(Cut(plan), i, Cut(plan).init[i..], R.Whole(items));
      var all := R.Whole(ListFns(AllStages(plan.segs[i..]), items));
      && f.log <= all && (f.end == Seg.Done ==> f.log == all)
      && ((forall j :: i <= j < |plan.segs| ==> Forgiving(WorldOf(plan, j), plan.segs[j])) ==> f.end == Seg.Done)
    decreases |plan.segs| - i
  {
    var p, ops := Cut(plan), R.Whole(items);
    var s := p.init[i..];
    if i == |plan.segs| {
      assert s == [];
      Seg.FeedSink(p, i, ops);
    } else {
      var ss := plan.segs[i];
      assert s[0] == Cell(Empty(|ss|), Start()) && s[1..] == p.init[i + 1..];
      assert plan.segs[i..][0] == ss && plan.segs[i..][1..] == plan.segs[i + 1..];
      var t := Seg.Trans(p, i, s[0], ops);
      if Forgiving(WorldOf(plan, i), ss) { SegmentForgives(plan, i, items); }
      SegmentMeans(plan, i, items);
      ChainMeans(plan, i + 1, ListFns(ss, items));
      ListFnsSplit(ss, AllStages(plan.segs[i + 1..]), items);
      hide Seg.Feed, Seg.Trans, Cut, R.Whole, ListFns, Forgiving;
      Seg.Fuse(p, i, s, ops);
      Seg.FeedMonotone(p, i + 1, s[1..], t.outs, R.Whole(ListFns(ss, items)));
    }
  }

  lemma SingleThreaded<V(!new)>(plan: Plan<V>, items: seq<V>)
    requires PlanOk(plan)
    ensures var f := Seg.Feed(Cut(plan), 0, Cut(plan).init, R.Whole(items));
      var all := R.Whole(ListFns(AllStages(plan.segs), items));
      && f.log <= all && (f.end == Seg.Done ==> f.log == all)
      && ((forall j :: 0 <= j < |plan.segs| ==> Forgiving(WorldOf(plan, j), plan.segs[j])) ==> f.end == Seg.Done)
  {
    hide *;
    assert plan.segs[0..] == plan.segs && Cut(plan).init[0..] == Cut(plan).init;
    ChainMeans(plan, 0, items);
  }

  lemma {:induction false} ItemsOf<V>(xs: seq<V>)
    ensures T.Items(R.Processes(xs)) == xs
  {
    if xs != [] {
      ItemsOf(xs[..|xs| - 1]);
      var ops := R.Processes(xs);
      assert ops[..|ops| - 1] == R.Processes(xs[..|xs| - 1]);
    }
  }

  lemma WholeItems<V>(xs: seq<V>)
    ensures T.Items(R.Whole(xs)) == xs
  {
    ItemsOf(xs);
    hide R.Processes;
    var ops, all := R.Processes(xs), R.Whole(xs);
    assert all[..|all| - 1] == ops + [Seg.Flush] && (ops + [Seg.Flush])[..|ops + [Seg.Flush]| - 1] == ops;
  }

  lemma NoFailure<V(!new)>(plan: Plan<V>, moves: seq<T.Move<V>>)
    requires PlanOk(plan) && Seg.Untimed(Cut(plan)) && !R.SourceFailed(moves)
    requires forall j :: 0 <= j < |plan.segs| ==> Forgiving(WorldOf(plan, j), plan.segs[j])
    ensures !T.Run(Cut(plan), moves).failed
  {
    assert |Cut(plan).init| >= 1;
    hide *;
    var sys := T.Run(Cut(plan), moves);
    L.Reachable(Cut(plan), moves);
    R.DeterminateAt(Cut(plan), sys);
    R.SourceTakesAll(Cut(plan), moves);
    SingleThreaded(plan, R.Delivered(Cut(plan), moves));
    R.SucceedsLikeSingle(Cut(plan), moves);
  }

  /** What the sink has been handed, and after a clean end called with. */
  lemma SinkGets<V(!new)>(plan: Plan<V>, sys: T.System<Cell<V>, V>)
    requires PlanOk(plan) && L.Inv(Cut(plan), sys)
    ensures var all := ListFns(AllStages(plan.segs), T.Items(sys.nodes[0].consumed));
      && sys.nodes[|sys.nodes| - 1].sent <= R.Whole(all)
      && (T.AllEnded(sys) && !sys.failed ==> T.AtSink(sys) == T.Writes(all) + [T.FlushSink, T.CloseSink])
  {
    assert |sys.nodes| > 0;
    hide *;
    var items := T.Items(sys.nodes[0].consumed);
    SingleThreaded(plan, items);
    R.DeterminateAt(Cut(plan), sys);
    if !sys.failed {
      R.CleanSink(Cut(plan), sys);
      WholeCalls(ListFns(AllStages(plan.segs), items));
    }
  }

  /**
    For every cut into segments, capacities and schedule: what has been handed to the sink is
    a beginning of what the list functions of all stages make of the items delivered, followed
    by flush and close; after an end without failure the sink got all of it; and if nothing
    outside fails and every policy forgives, there is no failure.
  */
  lemma {:induction false} StagesOnThreads<V(!new)>(plan: Plan<V>, moves: seq<T.Move<V>>)
    requires PlanOk(plan)
    ensures Seg.Untimed(Cut(plan))
    ensures var sys := T.Run(Cut(plan), moves);
      var all := ListFns(AllStages(plan.segs), R.Delivered(Cut(plan), moves));
      && sys.nodes[|sys.nodes| - 1].sent <= R.Whole(all)
      && (T.AllEnded(sys) && !sys.failed ==> T.AtSink(sys) == T.Writes(all) + [T.FlushSink, T.CloseSink])
      && ((forall j :: 0 <= j < |plan.segs| ==> Forgiving(WorldOf(plan, j), plan.segs[j])) && !R.SourceFailed(moves) ==>
        !sys.failed)
  {
    assert |Cut(plan).init| >= 1;
    hide *;
    StagesAreUntimed(plan);
    L.Reachable(Cut(plan), moves);
    R.SourceTakesAll(Cut(plan), moves);
    SinkGets(plan, T.Run(Cut(plan), moves));
    if (forall j :: 0 <= j < |plan.segs| ==> Forgiving(WorldOf(plan, j), plan.segs[j])) && !R.SourceFailed(moves) {
      NoFailure(plan, moves);
    }
  }

  lemma WholeCalls<V>(xs: seq<V>)
    ensures T.SinkCalls(R.Whole(xs)) == T.Writes(xs) + [T.FlushSink, T.CloseSink]
  {
    var all := R.Whole(xs);
    WholePhase(xs);
    hide *;
    WholeItems(xs);
    R.SinkCallsShape(all);
  }

  lemma WholePhase<V>(xs: seq<V>)
    ensures Seg.Phase(R.Whole(xs)) == 2
  {
    ProcessesPhase(xs);
    assert R.Whole(xs)[..|R.Whole(xs)| - 1] == R.Processes(xs) + [Seg.Flush];
  }
}
