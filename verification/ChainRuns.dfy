/**
  Whole runs of a chain: what a run leaves in the sink and in the counters, and, when it
  fails, exactly when `items_out` still counts everything the sink has accepted.
*/
module ChainRuns {
  import opened Chain
  import opened ChainMeaning

  /** Nothing outside fails, and no stage that can fail is under `FailFast`. */
  ghost predicate Forgiving<V>(w: World, ss: seq<Stage<V>>) {
    && (forall k :: !w.sinkFails(k)) && (forall k :: !w.dlqFails(k)) && !w.flushFails
    && forall i :: 0 <= i < |ss| && (ss[i].TryMap? || ss[i].Group?) ==> ss[i].policy != FailFast
  }

  lemma ForgivingStage<V>(w: World, ss: seq<Stage<V>>, open: seq<seq<V>>, c: Ctx<V>, m: Made<V>)
    requires |ss| == |open| > 0 && Forgiving(w, ss)
    requires m.failed ==> ss[0].TryMap? || ss[0].Group?
    requires PushEach(w, ss[1..], open[1..], c, m.outs).result != Err
    ensures Drive(w, ss, open, c, m).result != Err && Forgiving(w, ss[1..])
  {
    assert forall i :: 0 <= i < |ss[1..]| ==> ss[1..][i] == ss[i + 1];
  }

  lemma {:induction false} ForgivingGoesOn<V>(w: World, ss: seq<Stage<V>>, open: seq<seq<V>>, c: Ctx<V>, xs: seq<V>)
    requires |ss| == |open| && Forgiving(w, ss)
    ensures PushEach(w, ss, open, c, xs).result != Err
    decreases |ss|, |xs|
  {
    if xs != [] {
      var front, x := xs[..|xs| - 1], xs[|xs| - 1];
      ForgivingGoesOn(w, ss, open, c, front);
      var d := PushEach(w, ss, open, c, front);
      if ss == [] {
        assert !w.sinkFails(|d.ctx.sink|);
      } else {
        var m := OnItem(ss[0], d.open[0], x);
        assert Forgiving(w, ss[1..]) by { assert forall i :: 0 <= i < |ss[1..]| ==> ss[1..][i] == ss[i + 1]; }
        ForgivingGoesOn(w, ss[1..], d.open[1..], d.ctx, m.outs);
        ForgivingStage(w, ss, d.open, d.ctx, m);
      }
      assert PushItem(w, ss, d.open, d.ctx, x).result != Err;
    }
  }

  lemma {:induction false} ForgivingFlushes<V>(w: World, ss: seq<Stage<V>>, open: seq<seq<V>>, c: Ctx<V>)
    requires |ss| == |open| && Forgiving(w, ss)
    ensures PushFlush(w, ss, open, c).result != Err
    decreases |ss|
  {
    if ss != [] {
      assert Forgiving(w, ss[1..]) by { assert forall i :: 0 <= i < |ss[1..]| ==> ss[1..][i] == ss[i + 1]; }
      var m := OnFlush(ss[0], open[0]);
      ForgivingGoesOn(w, ss[1..], open[1..], c, m.outs);
      var d := Drive(w, ss, open, c, m);
      ForgivingFlushes(w, ss[1..], d.open[1..], d.ctx);
    }
  }

  function Start<V>(): Ctx<V> { Ctx([], 0, 0) }

  /** The items of a run so far. */
  ghost function SoFar<V>(w: World, ss: seq<Stage<V>>, xs: seq<V>): (d: Pushed<V>)
    ensures |d.open| == |ss|
  {
    PushEach(w, ss, Empty(|ss|), Start(), xs)
  }

  /**
    When a run succeeds, read off the list functions: nothing fails under `FailFast`, the sink
    and the dead-letter queue accept all they are given, and the sink the flush.
  */
  ghost predicate Succeeds<V>(w: World, ss: seq<Stage<V>>, items: seq<V>) {
    && Failures(ss, {FailFast}, items) == 0 && !w.flushFails
    && (forall k :: 0 <= k < |ListFns(ss, items)| ==> !w.sinkFails(k))
    && (forall k :: 0 <= k < Failures(ss, {DeadLetter}, items) ==> !w.dlqFails(k))
  }

  /** What the items and what the flush come to. */
  lemma TwoParts<V>(w: World, ss: seq<Stage<V>>, items: seq<V>, a: Total<V>, b: Total<V>)
    requires a.outs + b.outs == ListFns(ss, items) && a.fatal + b.fatal == Failures(ss, {FailFast}, items)
    requires a.dead + b.dead == Failures(ss, {DeadLetter}, items)
    ensures Succeeds(w, ss, items) <==>
      !w.flushFails && Clear(w, Start(), a) && Clear(w, Ctx(a.outs, a.errors, a.dead), b)
  {
    hide Failures, ListFns;
    assert |a.outs + b.outs| == |a.outs| + |b.outs|;
  }

  lemma NotClearYet<V>(w: World, c: Ctx<V>, a: Total<V>, b: Total<V>)
    requires !Clear(w, c, a)
    ensures !Clear(w, c, Plus(a, b))
  {}

  lemma AfterItems<V>(w: World, ss: seq<Stage<V>>, items: seq<V>, k: nat)
    requires k <= |items|
    ensures var d := SoFar(w, ss, items[..k]);
      d.ctx.sink <= ListFns(ss, items)
        && if d.result == Err then !Succeeds(w, ss, items) else d.result.written == |d.ctx.sink|
  {
    hide PushEach, Compose, ComposeFlush, ListRun, ListFns, Empty, Failures, Clear, Succeeds;
    var open: seq<seq<V>> := Empty(|ss|);
    var front, rest := items[..k], items[k..];
    assert items == front + rest;
    EachMeans(w, ss, open, Start(), front);
    ComposeSplit(ss, open, front, rest);
    ItemsThenFlush(ss, open, items);
    ListRunIsListFns(ss, items);
    var a := Compose(ss, open, front);
    assert [] + a.outs == a.outs;
    var t := Compose(ss, open, items);
    RunFailures(ss, items);
    TwoParts(w, ss, items, t, ComposeFlush(ss, t.open));
    if SoFar(w, ss, front).result == Err { NotClearYet(w, Start(), a, Compose(ss, a.open, rest)); }
  }

  lemma AfterFlush<V>(w: World, ss: seq<Stage<V>>, items: seq<V>)
    requires SoFar(w, ss, items).result != Err
    ensures var d := SoFar(w, ss, items);
      var e := PushFlush(w, ss, d.open, d.ctx);
      && d.ctx.sink <= e.ctx.sink <= ListFns(ss, items) && (e.result == Err <==> !Succeeds(w, ss, items))
      && (e.result != Err ==>
        && e.ctx.errors == Failures(ss, AnyPolicy, items) && e.ctx.dead == Failures(ss, {DeadLetter}, items)
        && e.ctx.sink == ListFns(ss, items) && d.result.written + e.result.written == |e.ctx.sink|
        && (OneToOne(ss) ==> |items| == |e.ctx.sink| + e.ctx.errors)
        && (AllDeadLetter(ss) ==> e.ctx.dead == e.ctx.errors))
  {
    hide PushEach, PushFlush, Compose, ComposeFlush, ListRun, ListFns, OneToOne, AllDeadLetter, Empty, Failures, Clear,
      Succeeds;
    var open: seq<seq<V>> := Empty(|ss|);
    var d, a := SoFar(w, ss, items), Compose(ss, open, items);
    EachMeans(w, ss, open, Start(), items);
    FlushMeans(w, ss, d.open, d.ctx);
    ItemsThenFlush(ss, open, items);
    ListRunIsListFns(ss, items);
    RunFailures(ss, items);
    TwoParts(w, ss, items, a, ComposeFlush(ss, a.open));
    if OneToOne(ss) {
      OneToOneCounts(ss, open, items);
      OneToOneCounts(ss, d.open, items);
    }
    if AllDeadLetter(ss) {
      DeadIsErrors(ss, open, items);
      DeadIsErrors(ss, d.open, items);
    }
    assert [] + a.outs == a.outs;
  }

  // ---------------------------------------------------------------- how a call begins

  /**
    What a call does first, as far as the sink can tell: it writes, it fails before anything
    is written, or neither. Only the stages, their open batches and the number of dead
    letters are looked at, and nothing after the first output.
  */
  datatype Onset<V> = Quiet(open: seq<seq<V>>, dead: nat) | Writes | Fails

  function ItemOnset<V>(w: World, ss: seq<Stage<V>>, open: seq<seq<V>>, dead: nat, x: V): (o: Onset<V>)
    requires |ss| == |open|
    ensures o.Quiet? ==> |o.open| == |open|
    decreases |ss|, 0
  {
    if ss == [] then Writes else StageOnset(w, ss, open, dead, OnItem(ss[0], open[0], x))
  }

  function StageOnset<V>(w: World, ss: seq<Stage<V>>, open: seq<seq<V>>, dead: nat, m: Made<V>): (o: Onset<V>)
    requires |ss| == |open| > 0
    ensures o.Quiet? ==> |o.open| == |open|
    decreases |ss| - 1, |m.outs| + 2
  {
    match EachOnset(w, ss[1..], open[1..], dead, m.outs)
    case Writes => Writes
    case Fails => Fails
    case Quiet(rest, dead') =>
      if !m.failed || PolicyOf(ss[0]).Continue? then Quiet([m.open] + rest, dead')
      else if PolicyOf(ss[0]).FailFast? || w.dlqFails(dead') then Fails
      else Quiet([m.open] + rest, dead' + 1)
  }

  function EachOnset<V>(w: World, ss: seq<Stage<V>>, open: seq<seq<V>>, dead: nat, xs: seq<V>): (o: Onset<V>)
    requires |ss| == |open|
    ensures o.Quiet? ==> |o.open| == |open|
    decreases |ss|, |xs| + 1
  {
    if xs == [] then Quiet(open, dead)
    else
      match EachOnset(w, ss, open, dead, xs[..|xs| - 1])
      case Writes => Writes
      case Fails => Fails
      case Quiet(open', dead') => ItemOnset(w, ss, open', dead', xs[|xs| - 1])
  }

  function FlushOnset<V>(w: World, ss: seq<Stage<V>>, open: seq<seq<V>>, dead: nat): (o: Onset<V>)
    requires |ss| == |open|
    ensures o.Quiet? ==> |o.open| == |open|
    decreases |ss|
  {
    if ss == [] then (if w.flushFails then Fails else Quiet([], dead))
    else
      match StageOnset(w, ss, open, dead, OnFlush(ss[0], open[0]))
      case Writes => Writes
      case Fails => Fails
      case Quiet(open', dead') =>
        match FlushOnset(w, ss[1..], open'[1..], dead')
        case Quiet(open'', dead'') => Quiet([open'[0]] + open'', dead'')
        case o => o
  }

  /** The call that turned `c` into `p` began with `o`. */
  ghost predicate Begins<V>(o: Onset<V>, w: World, c: Ctx<V>, p: Pushed<V>) {
    match o
    case Quiet(open, dead) => p.result == Ok(0) && p.open == open && p.ctx.sink == c.sink && p.ctx.dead == dead
    case Fails => p.result == Err && p.ctx.sink == c.sink
    case Writes => if w.sinkFails(|c.sink|) then p.result == Err && p.ctx.sink == c.sink else c.sink < p.ctx.sink
  }

  lemma {:induction false} ItemBegins<V>(w: World, ss: seq<Stage<V>>, open: seq<seq<V>>, c: Ctx<V>, x: V)
    requires |ss| == |open|
    ensures Begins(ItemOnset(w, ss, open, c.dead, x), w, c, PushItem(w, ss, open, c, x))
    decreases |ss|, 0
  {
    if ss != [] { StageBegins(w, ss, open, c, OnItem(ss[0], open[0], x)); }
  }

  lemma StageBegins<V>(w: World, ss: seq<Stage<V>>, open: seq<seq<V>>, c: Ctx<V>, m: Made<V>)
    requires |ss| == |open| > 0
    ensures Begins(StageOnset(w, ss, open, c.dead, m), w, c, Drive(w, ss, open, c, m))
    decreases |ss| - 1, |m.outs| + 2
  {
    EachBegins(w, ss[1..], open[1..], c, m.outs);
  }

  lemma {:induction false} EachBegins<V>(w: World, ss: seq<Stage<V>>, open: seq<seq<V>>, c: Ctx<V>, xs: seq<V>)
    requires |ss| == |open|
    ensures Begins(EachOnset(w, ss, open, c.dead, xs), w, c, PushEach(w, ss, open, c, xs))
    decreases |ss|, |xs| + 1
  {
    if xs != [] {
      var front, x := xs[..|xs| - 1], xs[|xs| - 1];
      EachBegins(w, ss, open, c, front);
      var d := PushEach(w, ss, open, c, front);
      if d.result != Err {
        ItemMeans(w, ss, d.open, d.ctx, x);
        ItemBegins(w, ss, d.open, d.ctx, x);
      }
    }
  }

  lemma {:induction false} FlushBegins<V>(w: World, ss: seq<Stage<V>>, open: seq<seq<V>>, c: Ctx<V>)
    requires |ss| == |open|
    ensures Begins(FlushOnset(w, ss, open, c.dead), w, c, PushFlush(w, ss, open, c))
    decreases |ss|
  {
    if ss != [] {
      var m := OnFlush(ss[0], open[0]);
      StageBegins(w, ss, open, c, m);
      var d := Drive(w, ss, open, c, m);
      if d.result != Err {
        FlushMeans(w, ss[1..], d.open[1..], d.ctx);
        FlushBegins(w, ss[1..], d.open[1..], d.ctx);
      }
    }
  }

  /**
    The failing call, that of the item `items[k]` or of the flush if `k` is the number of items,
    writes nothing: its first output, if it has one, is refused by the sink.
  */
  ghost predicate FailsBeforeWriting<V>(w: World, ss: seq<Stage<V>>, items: seq<V>, k: nat)
    requires k <= |items|
  {
    var d := SoFar(w, ss, items[..k]);
    var o := if k < |items| then ItemOnset(w, ss, d.open, d.ctx.dead, items[k])
      else FlushOnset(w, ss, d.open, d.ctx.dead);
    o.Writes? ==> w.sinkFails(|d.ctx.sink|)
  }

  /** A chain in which every stage emits at most one item for an item. */
  predicate OnePath<V>(ss: seq<Stage<V>>) { forall i :: 0 <= i < |ss| ==> !ss[i].FlatMap? }

  /** In such a chain a call for an item that fails has written nothing. */
  lemma {:induction false} OnePathFailsFirst<V>(w: World, ss: seq<Stage<V>>, open: seq<seq<V>>, c: Ctx<V>, x: V)
    requires |ss| == |open| && OnePath(ss) && PushItem(w, ss, open, c, x).result == Err
    ensures PushItem(w, ss, open, c, x).ctx.sink == c.sink
    decreases |ss|
  {
    if ss != [] {
      var m := OnItem(ss[0], open[0], x);
      assert OnePath(ss[1..]) by { assert forall i :: 0 <= i < |ss[1..]| ==> ss[1..][i] == ss[i + 1]; }
      assert |m.outs| <= 1 && (m.failed ==> m.outs == []);
      assert PushEach(w, ss[1..], open[1..], c, []) == Pushed(open[1..], c, Ok(0));
      if m.outs != [] {
        assert m.outs == [m.outs[0]] && m.outs[..0] == [];
        OneIsEach(w, ss[1..], open[1..], c, m.outs[0]);
        OnePathFailsFirst(w, ss[1..], open[1..], c, m.outs[0]);
      }
    }
  }

  lemma OneIsEach<V>(w: World, ss: seq<Stage<V>>, open: seq<seq<V>>, c: Ctx<V>, x: V)
    requires |ss| == |open|
    ensures PushEach(w, ss, open, c, [x]).ctx == PushItem(w, ss, open, c, x).ctx
    ensures PushEach(w, ss, open, c, [x]).result == Err <==> PushItem(w, ss, open, c, x).result == Err
  {
    assert [x][..0] == [];
    assert PushEach(w, ss, open, c, []) == Pushed(open, c, Ok(0));
  }

  /**
    A whole run: every item through the chain, then the flush. A run that succeeds leaves the
    composed list function of the items in the sink, `items_out` is exact, and in a chain of
    one-to-one stages every item pulled was written or counted as an error. A run that fails
    leaves a beginning, and then `items_out` is exact if and only if the failing call failed
    before its first output, or at it. Which runs succeed, and how many errors and dead letters
    they count, is read off the list functions; in particular no run fails when nothing outside
    fails and every policy forgives.
  */
  method RunToEnd<V>(a: Assembly<V>, items: seq<V>) returns (ok: bool, itemsIn: nat, itemsOut: nat, ghost calls: nat)
    requires a.Valid() && a.open == Empty(|a.stages|) && a.Context() == Ctx([], 0, 0)
    modifies a
    ensures a.sink <= ListFns(a.stages, items) && itemsIn <= |items| && itemsOut <= |a.sink|
    ensures ok ==> a.sink == ListFns(a.stages, items) && itemsIn == |items| && itemsOut == |a.sink|
    ensures ok <==> Succeeds(a.w, a.stages, items)
    ensures ok ==> a.errors == Failures(a.stages, AnyPolicy, items) && a.dead == Failures(a.stages, {DeadLetter}, items)
    ensures ok && OneToOne(a.stages) ==> itemsIn == itemsOut + a.errors
    ensures ok && AllDeadLetter(a.stages) ==> a.dead == a.errors
    ensures Forgiving(a.w, a.stages) ==> ok
    ensures !ok ==> calls <= |items| && itemsIn == (if calls < |items| then calls + 1 else calls)
    ensures !ok ==> (itemsOut == |a.sink| <==> FailsBeforeWriting(a.w, a.stages, items, calls))
    ensures !ok && calls < |items| && OnePath(a.stages) ==> itemsOut == |a.sink|
  {
    hide PushEach, PushItem, PushFlush, ListFns, OneToOne, AllDeadLetter, Forgiving, ItemOnset, FlushOnset, OnePath,
      Failures, Succeeds;
    ghost var w, ss := a.w, a.stages;
    ok, itemsIn, itemsOut, calls := true, 0, 0, 0;
    NothingYet(w, ss);
    while itemsIn < |items|
      invariant itemsIn <= |items| && a.Valid()
      invariant SoFar(w, ss, items[..itemsIn]) == Pushed(a.open, a.Context(), Ok(itemsOut))
      invariant itemsOut == |a.sink|
    {
      var k := itemsIn;
      itemsIn := itemsIn + 1;
      ghost var before := a.sink;
      OneMore(w, ss, items, k);
      AfterItems(w, ss, items, k + 1);
      assert ss[0..] == ss && a.open[0..] == a.open;
      var r := a.Process(0, items[k]);
      assert a.open == a.open[0..];
      if Forgiving(w, ss) { ForgivingGoesOn(w, ss, Empty(|ss|), Start(), items[..k + 1]); }
      if r == Err {
        ItemFailure(w, ss, items, k);
        return false, itemsIn, itemsOut, k;
      }
      itemsOut := itemsOut + r.written;
    }
    assert items[..itemsIn] == items;
    AfterFlush(w, ss, items);
    if Forgiving(w, ss) { ForgivingFlushes(w, ss, a.open, a.Context()); }
    assert ss[0..] == ss && a.open[0..] == a.open;
    var r := a.Flush(0);
    if r == Err {
      FlushFailure(w, ss, items);
      return false, itemsIn, itemsOut, |items|;
    }
    itemsOut := itemsOut + r.written;
  }

  lemma NothingYet<V>(w: World, ss: seq<Stage<V>>)
    ensures SoFar(w, ss, []) == Pushed(Empty(|ss|), Start(), Ok(0))
  {}

  /** One more item: the step of the run, and that what the sink has only grows. */
  lemma OneMore<V>(w: World, ss: seq<Stage<V>>, items: seq<V>, k: nat)
    requires k < |items| && SoFar(w, ss, items[..k]).result != Err
    ensures var d := SoFar(w, ss, items[..k]);
      var e := PushItem(w, ss, d.open, d.ctx, items[k]);
      && SoFar(w, ss, items[..k + 1]) ==
         Pushed(e.open, e.ctx, if e.result == Err then Err else Ok(d.result.written + e.result.written))
      && d.ctx.sink <= e.ctx.sink
  {
    assert items[..k + 1][..k] == items[..k];
    var d := SoFar(w, ss, items[..k]);
    ItemMeans(w, ss, d.open, d.ctx, items[k]);
  }

  lemma ItemFailure<V>(w: World, ss: seq<Stage<V>>, items: seq<V>, k: nat)
    requires k < |items|
    requires var d := SoFar(w, ss, items[..k]);
      d.result != Err && PushItem(w, ss, d.open, d.ctx, items[k]).result == Err
    ensures var d := SoFar(w, ss, items[..k]);
      var e := PushItem(w, ss, d.open, d.ctx, items[k]);
      && (|d.ctx.sink| == |e.ctx.sink| <==> FailsBeforeWriting(w, ss, items, k))
      && (OnePath(ss) ==> |d.ctx.sink| == |e.ctx.sink|)
  {
    var d := SoFar(w, ss, items[..k]);
    ItemBegins(w, ss, d.open, d.ctx, items[k]);
    if OnePath(ss) { OnePathFailsFirst(w, ss, d.open, d.ctx, items[k]); }
  }

  lemma FlushFailure<V>(w: World, ss: seq<Stage<V>>, items: seq<V>)
    requires var d := SoFar(w, ss, items); d.result != Err && PushFlush(w, ss, d.open, d.ctx).result == Err
    ensures var d := SoFar(w, ss, items);
      |d.ctx.sink| == |PushFlush(w, ss, d.open, d.ctx).ctx.sink| <==> FailsBeforeWriting(w, ss, items, |items|)
  {
    assert items[..|items|] == items;
    var d := SoFar(w, ss, items);
    FlushBegins(w, ss, d.open, d.ctx);
  }

  function Twice(x: int): seq<int> { [x, x] }

  /**
    A call after which `items_out` misses an item: one `flat_map` stage makes two items of one,
    the sink accepts the first and refuses the second, and the failing call drops its count.
  */
  lemma PartialCountIsDropped()
    ensures var w, ss := World(k => k == 1, k => false, false), [FlatMap(Twice)];
      && PushItem(w, ss, [[]], Start(), 7) == Pushed([[]], Ctx([7], 0, 0), Err)
      && !FailsBeforeWriting(w, ss, [7], 0)
  {
    var w, ss := World(k => k == 1, k => false, false), [FlatMap(Twice)];
    var none: seq<Stage<int>>, c: Ctx<int> := [], Start();
    assert ss[1..] == none && OnItem(ss[0], [], 7).outs == [7, 7];
    assert PushItem(w, none, [], c, 7) == Pushed([], Ctx([7], 0, 0), Ok(1));
    assert PushItem(w, none, [], Ctx([7], 0, 0), 7) == Pushed([], Ctx([7], 0, 0), Err);
    assert [7, 7][..1] == [7] && [7][..0] == [];
    assert PushEach(w, none, [], c, []) == Pushed([], c, Ok(0));
    assert PushEach(w, none, [], c, [7]) == Pushed([], Ctx([7], 0, 0), Ok(1));
    assert PushEach(w, none, [], c, [7, 7]) == Pushed([], Ctx([7], 0, 0), Err);
    assert [7][..0] == [];
    assert Empty<int>(1) == [[]];
    assert SoFar(w, ss, []) == Pushed([[]], c, Ok(0));
    assert EachOnset(w, none, [], 0, []) == Quiet([], 0);
    assert EachOnset(w, none, [], 0, [7]) == Writes;
    assert EachOnset(w, none, [], 0, [7, 7]) == Writes;
    var open: seq<seq<int>> := [[]];
    assert open[1..] == [];
    assert StageOnset(w, ss, open, 0, OnItem(ss[0], [], 7)) == Writes;
    assert ItemOnset(w, ss, open, 0, 7) == Writes;
  }
}
