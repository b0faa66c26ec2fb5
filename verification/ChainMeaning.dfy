/**
  The push-style chain means list functions: a run that succeeds leaves in the sink exactly
  what the stages, each as a function of whole lists, make of the source's items one after
  the other; a run that fails leaves a beginning of it.
*/
module ChainMeaning {
  import opened Options
  import opened Chain

  // ---------------------------------------------------------------- stages over whole lists

  datatype Part<V> = Part(outs: seq<V>, open: seq<V>, errors: nat)

  /** A stage fed a whole list. */
  function OverList<V>(s: Stage<V>, open: seq<V>, xs: seq<V>): Part<V> {
    if xs == [] then Part([], open, 0)
    else
      var p := OverList(s, open, xs[..|xs| - 1]);
      var m := OnItem(s, p.open, xs[|xs| - 1]);
      Part(p.outs + m.outs, m.open, p.errors + if m.failed then 1 else 0)
  }

  /** What comes out, what stays open, and how many errors there are: in all, dead-lettered, and fatal. */
  datatype Total<V> = Total(outs: seq<V>, open: seq<seq<V>>, errors: nat, dead: nat, fatal: nat)

  /** The errors of `s`, if it can have any and `policy` is what it does with them. */
  function ErrorsUnder<V>(s: Stage<V>, policy: ErrorPolicy, errors: nat): nat {
    if (s.TryMap? || s.Group?) && s.policy == policy then errors else 0
  }

  /** Each stage fed the whole list the one before it made. */
  function Compose<V>(ss: seq<Stage<V>>, open: seq<seq<V>>, xs: seq<V>): (t: Total<V>)
    requires |ss| == |open|
    ensures |t.open| == |open|
  {
    if ss == [] then Total(xs, [], 0, 0, 0)
    else
      var p := OverList(ss[0], open[0], xs);
      var t := Compose(ss[1..], open[1..], p.outs);
      Total(t.outs, [p.open] + t.open, p.errors + t.errors, ErrorsUnder(ss[0], DeadLetter, p.errors) + t.dead,
            ErrorsUnder(ss[0], FailFast, p.errors) + t.fatal)
  }

  function Plus<V>(a: Total<V>, b: Total<V>): Total<V> {
    Total(a.outs + b.outs, b.open, a.errors + b.errors, a.dead + b.dead, a.fatal + b.fatal)
  }

  lemma {:induction false} OverSplit<V>(s: Stage<V>, open: seq<V>, xs: seq<V>, ys: seq<V>)
    ensures var a := OverList(s, open, xs);
      var b := OverList(s, a.open, ys);
      OverList(s, open, xs + ys) == Part(a.outs + b.outs, b.open, a.errors + b.errors)
    decreases |ys|
  {
    hide *;
    if ys == [] {
      assert xs + ys == xs && OverList(s, open, xs).outs + [] == OverList(s, open, xs).outs;
      OverNothing(s, OverList(s, open, xs).open);
    } else {
      var front, y := ys[..|ys| - 1], ys[|ys| - 1];
      OverSplit(s, open, xs, front);
      var a := OverList(s, open, xs);
      var b := OverList(s, a.open, front);
      assert front + [y] == ys && (xs + front) + [y] == xs + ys;
      OverMore(s, open, xs + front, y);
      OverMore(s, a.open, front, y);
      Assoc(a.outs, b.outs, OnItem(s, b.open, y).outs);
    }
  }

  lemma OverNothing<V>(s: Stage<V>, open: seq<V>)
    ensures OverList(s, open, []) == Part([], open, 0)
  {}

  lemma OverMore<V>(s: Stage<V>, open: seq<V>, xs: seq<V>, y: V)
    ensures var p := OverList(s, open, xs);
      var m := OnItem(s, p.open, y);
      OverList(s, open, xs + [y]) == Part(p.outs + m.outs, m.open, p.errors + if m.failed then 1 else 0)
  {
    assert (xs + [y])[..|xs|] == xs;
  }

  lemma {:induction false} ComposeSplit<V>(ss: seq<Stage<V>>, open: seq<seq<V>>, xs: seq<V>, ys: seq<V>)
    requires |ss| == |open|
    ensures var a := Compose(ss, open, xs); Compose(ss, open, xs + ys) == Plus(a, Compose(ss, a.open, ys))
  {
    if ss != [] {
      OverSplit(ss[0], open[0], xs, ys);
      var a := OverList(ss[0], open[0], xs);
      ComposeSplit(ss[1..], open[1..], a.outs, OverList(ss[0], a.open, ys).outs);
    }
  }

  lemma {:induction false} ComposeNothing<V>(ss: seq<Stage<V>>, open: seq<seq<V>>)
    requires |ss| == |open|
    ensures Compose(ss, open, []) == Total([], open, 0, 0, 0)
  {
    if ss != [] { ComposeNothing(ss[1..], open[1..]); }
  }

  // ---------------------------------------------------------------- pushing means composing

  /** None of the errors is fatal, and the sink and the dead-letter queue accept all there is for them. */
  ghost predicate Clear<V>(w: World, c: Ctx<V>, t: Total<V>) {
    && t.fatal == 0
    && (forall k :: |c.sink| <= k < |c.sink| + |t.outs| ==> !w.sinkFails(k))
    && (forall k :: c.dead <= k < c.dead + t.dead ==> !w.dlqFails(k))
  }

  /**
    What pushing did is what `t` says, completely if it succeeded and up to some point if not. It
    fails exactly if the end is refused or something on the way is not clear.
  */
  ghost predicate Means<V>(w: World, d: Pushed<V>, c: Ctx<V>, t: Total<V>, refused: bool) {
    && (d.result == Err <==> refused || !Clear(w, c, t))
    && match d.result
       case Ok(n) =>
         d.open == t.open && n == |t.outs| && d.ctx == Ctx(c.sink + t.outs, c.errors + t.errors, c.dead + t.dead)
       case Err => c.sink <= d.ctx.sink <= c.sink + t.outs
  }

  ghost function MadeTotal<V>(ss: seq<Stage<V>>, open: seq<seq<V>>, m: Made<V>): Total<V>
    requires |ss| == |open| > 0
  {
    var t, e := Compose(ss[1..], open[1..], m.outs), if m.failed then 1 else 0;
    Total(t.outs, [m.open] + t.open, e + t.errors, ErrorsUnder(ss[0], DeadLetter, e) + t.dead,
          ErrorsUnder(ss[0], FailFast, e) + t.fatal)
  }

  lemma {:induction false} ItemMeans<V>(w: World, ss: seq<Stage<V>>, open: seq<seq<V>>, c: Ctx<V>, x: V)
    requires |ss| == |open|
    ensures Means(w, PushItem(w, ss, open, c, x), c, Compose(ss, open, [x]), false)
    decreases |ss|, 0
  {
    hide MadeTotal, Drive, Compose;
    if ss == [] {
      assert open == [];
      ComposeEnd(open, [x]);
    } else {
      DriveMeans(w, ss, open, c, OnItem(ss[0], open[0], x));
      ComposeOne(ss, open, x);
    }
  }

  lemma ComposeEnd<V>(open: seq<seq<V>>, xs: seq<V>)
    requires open == []
    ensures Compose([], open, xs) == Total(xs, [], 0, 0, 0)
  {}

  lemma ComposeOne<V>(ss: seq<Stage<V>>, open: seq<seq<V>>, x: V)
    requires |ss| == |open| > 0
    ensures Compose(ss, open, [x]) == MadeTotal(ss, open, OnItem(ss[0], open[0], x))
  {
    hide OnItem;
    OverOne(ss[0], open[0], x);
  }

  lemma DriveMeans<V>(w: World, ss: seq<Stage<V>>, open: seq<seq<V>>, c: Ctx<V>, m: Made<V>)
    requires |ss| == |open| > 0 && (m.failed ==> ss[0].TryMap? || ss[0].Group?)
    ensures Means(w, Drive(w, ss, open, c, m), c, MadeTotal(ss, open, m), false)
    decreases |ss| - 1, |m.outs| + 2
  {
    EachMeans(w, ss[1..], open[1..], c, m.outs);
    hide PushEach, Compose, Means, Handle, PolicyOf;
    HandledMeans(w, ss[0], c, m, PushEach(w, ss[1..], open[1..], c, m.outs), Compose(ss[1..], open[1..], m.outs));
  }

  /** A stage's own failure, after what it has emitted went through. */
  lemma HandledMeans<V>(w: World, s: Stage<V>, c: Ctx<V>, m: Made<V>, d: Pushed<V>, t: Total<V>)
    requires Means(w, d, c, t, false) && (m.failed ==> s.TryMap? || s.Group?)
    ensures var open, e, h := [m.open] + d.open, if m.failed then 1 else 0, Handle(w, d.ctx, PolicyOf(s));
      var r := if d.result == Err || !m.failed then Pushed(open, d.ctx, d.result)
        else Pushed(open, h.0, if h.1 then d.result else Err);
      Means(w, r, c, Total(t.outs, [m.open] + t.open, e + t.errors, ErrorsUnder(s, DeadLetter, e) + t.dead,
        ErrorsUnder(s, FailFast, e) + t.fatal), false)
  {}

  lemma {:induction false} EachMeans<V>(w: World, ss: seq<Stage<V>>, open: seq<seq<V>>, c: Ctx<V>, xs: seq<V>)
    requires |ss| == |open|
    ensures Means(w, PushEach(w, ss, open, c, xs), c, Compose(ss, open, xs), false)
    decreases |ss|, |xs| + 1
  {
    if xs == [] {
      ComposeNothing(ss, open);
      assert c.sink + [] == c.sink;
    } else {
      var front, x := xs[..|xs| - 1], xs[|xs| - 1];
      EachMeans(w, ss, open, c, front);
      assert xs == front + [x];
      ComposeSplit(ss, open, front, [x]);
      var d := PushEach(w, ss, open, c, front);
      if d.result != Err { ItemMeans(w, ss, d.open, d.ctx, x); }
      hide PushItem, Compose;
      Continues(w, d, c, Compose(ss, open, front), Compose(ss, Compose(ss, open, front).open, [x]),
        PushItem(w, ss, d.open, d.ctx, x), false);
    }
  }

  /** Two steps one after the other. */
  lemma Continues<V>(w: World, d: Pushed<V>, c: Ctx<V>, a: Total<V>, b: Total<V>, e: Pushed<V>, refused: bool)
    requires Means(w, d, c, a, false) && (d.result != Err ==> Means(w, e, d.ctx, b, refused))
    ensures d.result == Err ==> Means(w, d, c, Plus(a, b), refused)
    ensures d.result != Err ==>
      Means(w, Pushed(e.open, e.ctx, if e.result == Err then Err else Ok(d.result.written + e.result.written)), c,
        Plus(a, b), refused)
  {
    assert (c.sink + a.outs) + b.outs == c.sink + (a.outs + b.outs);
  }

  // ---------------------------------------------------------------- the flush

  function ComposeFlush<V>(ss: seq<Stage<V>>, open: seq<seq<V>>): (t: Total<V>)
    requires |ss| == |open|
    ensures |t.open| == |open|
  {
    if ss == [] then Total([], [], 0, 0, 0)
    else
      var m := OnFlush(ss[0], open[0]);
      var a, e := Compose(ss[1..], open[1..], m.outs), if m.failed then 1 else 0;
      var b := ComposeFlush(ss[1..], a.open);
      Total(a.outs + b.outs, [m.open] + b.open, e + a.errors + b.errors,
            ErrorsUnder(ss[0], DeadLetter, e) + a.dead + b.dead, ErrorsUnder(ss[0], FailFast, e) + a.fatal + b.fatal)
  }

  /** The flush of one stage, then that of the stages after it. */
  lemma FlushUnfolds<V>(ss: seq<Stage<V>>, open: seq<seq<V>>)
    requires |ss| == |open| > 0
    ensures var a := MadeTotal(ss, open, OnFlush(ss[0], open[0]));
      |a.open| == |ss| && ComposeFlush(ss, open) ==
        Plus(a, ComposeFlush(ss[1..], a.open[1..])).(open := [a.open[0]] + ComposeFlush(ss[1..], a.open[1..]).open)
  {
    var a := MadeTotal(ss, open, OnFlush(ss[0], open[0]));
    assert a.open[1..] == Compose(ss[1..], open[1..], OnFlush(ss[0], open[0]).outs).open;
  }

  lemma WithHead<V>(w: World, d: Pushed<V>, c: Ctx<V>, t: Total<V>, head: seq<V>, refused: bool)
    requires Means(w, d, c, t, refused)
    ensures Means(w, d.(open := [head] + d.open), c, t.(open := [head] + t.open), refused)
    ensures Means(w, d, c, t.(open := [head] + t.open), refused) <== d.result == Err
  {}

  lemma {:induction false} FlushMeans<V>(w: World, ss: seq<Stage<V>>, open: seq<seq<V>>, c: Ctx<V>)
    requires |ss| == |open|
    ensures Means(w, PushFlush(w, ss, open, c), c, ComposeFlush(ss, open), w.flushFails)
    decreases |ss|
  {
    if ss == [] {
      assert c.sink + [] == c.sink;
    } else {
      var m := OnFlush(ss[0], open[0]);
      var d, a := Drive(w, ss, open, c, m), MadeTotal(ss, open, m);
      DriveMeans(w, ss, open, c, m);
      FlushUnfolds(ss, open);
      var b, e := ComposeFlush(ss[1..], a.open[1..]), PushFlush(w, ss[1..], d.open[1..], d.ctx);
      FlushMeans(w, ss[1..], d.open[1..], d.ctx);
      assert d.result != Err ==> d.open == a.open;
      hide Drive, MadeTotal, ComposeFlush, OnFlush, Means;
      Continues(w, d, c, a, b, e, w.flushFails);
      if d.result != Err {
        WithHead(w, Pushed(e.open, e.ctx, if e.result == Err then Err else Ok(d.result.written + e.result.written)),
          c, Plus(a, b), d.open[0], w.flushFails);
      } else {
        WithHead(w, d, c, Plus(a, b), a.open[0], w.flushFails);
      }
    }
  }

  // ---------------------------------------------------------------- whole lists

  /** What a stage makes of a whole list, its last batch included. */
  function Whole<V>(s: Stage<V>, open: seq<V>, xs: seq<V>): seq<V> {
    var p := OverList(s, open, xs);
    p.outs + OnFlush(s, p.open).outs
  }

  /** How often it fails then. */
  function StageErrors<V>(s: Stage<V>, open: seq<V>, xs: seq<V>): nat {
    var p := OverList(s, open, xs);
    p.errors + if OnFlush(s, p.open).failed then 1 else 0
  }

  function ListRun<V>(ss: seq<Stage<V>>, open: seq<seq<V>>, xs: seq<V>): seq<V>
    requires |ss| == |open|
  {
    if ss == [] then xs else ListRun(ss[1..], open[1..], Whole(ss[0], open[0], xs))
  }

  lemma Assoc<V>(xs: seq<V>, ys: seq<V>, zs: seq<V>)
    ensures xs + (ys + zs) == (xs + ys) + zs
  {}

  /** What the first stage holds at the end goes through the others after everything else. */
  lemma FirstStageLast<V>(ss: seq<Stage<V>>, open: seq<seq<V>>, xs: seq<V>)
    requires |ss| == |open| > 0
    ensures var t := Compose(ss, open, xs);
      var u := Compose(ss[1..], open[1..], Whole(ss[0], open[0], xs));
      var n, f, g := StageErrors(ss[0], open[0], xs), ComposeFlush(ss, t.open), ComposeFlush(ss[1..], u.open);
      && t.outs + f.outs == u.outs + g.outs && t.errors + f.errors == n + u.errors + g.errors
      && t.dead + f.dead == ErrorsUnder(ss[0], DeadLetter, n) + u.dead + g.dead
      && t.fatal + f.fatal == ErrorsUnder(ss[0], FailFast, n) + u.fatal + g.fatal
  {
    var p := OverList(ss[0], open[0], xs);
    var m := OnFlush(ss[0], p.open);
    var t := Compose(ss[1..], open[1..], p.outs);
    ComposeSplit(ss[1..], open[1..], p.outs, m.outs);
    var a := Compose(ss[1..], t.open, m.outs);
    assert ([p.open] + t.open)[1..] == t.open;
    Assoc(t.outs, a.outs, ComposeFlush(ss[1..], a.open).outs);
  }

  /** Items first and flush at the end, stage after stage, is the same as whole lists, stage after stage. */
  lemma {:induction false} ItemsThenFlush<V>(ss: seq<Stage<V>>, open: seq<seq<V>>, xs: seq<V>)
    requires |ss| == |open|
    ensures var t := Compose(ss, open, xs); t.outs + ComposeFlush(ss, t.open).outs == ListRun(ss, open, xs)
  {
    if ss == [] {
      assert xs + [] == xs;
    } else {
      hide Compose, ComposeFlush, Whole;
      FirstStageLast(ss, open, xs);
      ItemsThenFlush(ss[1..], open[1..], Whole(ss[0], open[0], xs));
    }
  }

  // ---------------------------------------------------------------- the list functions themselves

  function Mapped<V>(f: V -> V, xs: seq<V>): seq<V> { seq(|xs|, i requires 0 <= i < |xs| => f(xs[i])) }

  function Kept<V>(keep: V -> bool, xs: seq<V>): seq<V> {
    if xs == [] then [] else (if keep(xs[0]) then [xs[0]] else []) + Kept(keep, xs[1..])
  }

  function Expanded<V>(expand: V -> seq<V>, xs: seq<V>): seq<V> {
    if xs == [] then [] else expand(xs[0]) + Expanded(expand, xs[1..])
  }

  function Attempted<V>(attempt: V -> Option<V>, xs: seq<V>): seq<V> {
    if xs == [] then []
    else (match attempt(xs[0]) case Some(y) => [y] case None => []) + Attempted(attempt, xs[1..])
  }

  /** Batches of `n` and a shorter last one. */
  function Chunks<V>(n: nat, pack: seq<V> -> V, xs: seq<V>): seq<V>
    requires n > 0
  {
    if xs == [] then [] else if |xs| < n then [pack(xs)] else [pack(xs[..n])] + Chunks(n, pack, xs[n..])
  }

  function ListFn<V>(s: Stage<V>, xs: seq<V>): seq<V> {
    match s
    case Map(f) => Mapped(f, xs)
    case Filter(keep) => Kept(keep, xs)
    case FlatMap(expand) => Expanded(expand, xs)
    case TryMap(attempt, _) => Attempted(attempt, xs)
    case Group(size, pack, _, _) => Chunks(if size == 0 then 1 else size, pack, xs)
  }

  lemma OverOne<V>(s: Stage<V>, open: seq<V>, x: V)
    ensures var m := OnItem(s, open, x); OverList(s, open, [x]) == Part(m.outs, m.open, if m.failed then 1 else 0)
  {
    assert [x][..0] == [];
    assert OverList(s, open, []) == Part([], open, 0);
    assert [] + OnItem(s, open, x).outs == OnItem(s, open, x).outs;
  }

  lemma {:induction false} Batched<V>(s: Stage<V>, open: seq<V>, xs: seq<V>)
    requires s.Group? && |open| + |xs| <= Limit(s.size) && (xs == [] ==> |open| < Limit(s.size))
    ensures OverList(s, open, xs) ==
      if |open| + |xs| < Limit(s.size) then Part([], open + xs, 0) else Part([s.pack(open + xs)], [], 0)
    decreases |xs|
  {
    if xs == [] {
      assert open + xs == open;
    } else {
      Batched(s, open, xs[..|xs| - 1]);
      assert open + xs[..|xs| - 1] + [xs[|xs| - 1]] == open + xs;
    }
  }

  lemma WholeCons<V>(s: Stage<V>, xs: seq<V>)
    requires xs != [] && !s.Group?
    ensures Whole(s, [], xs) == OnItem(s, [], xs[0]).outs + Whole(s, [], xs[1..])
  {
    hide OverList;
    assert xs == [xs[0]] + xs[1..];
    OverOne(s, [], xs[0]);
    OverSplit(s, [], [xs[0]], xs[1..]);
    StaysClosed(s, xs[1..]);
    assert Whole(s, [], xs) == OverList(s, [], xs).outs + [] == OverList(s, [], xs).outs;
    assert Whole(s, [], xs[1..]) == OverList(s, [], xs[1..]).outs + [];
  }

  lemma {:induction false} StaysClosed<V>(s: Stage<V>, xs: seq<V>)
    requires !s.Group?
    ensures OverList(s, [], xs).open == []
    decreases |xs|
  {
    if xs != [] { StaysClosed(s, xs[..|xs| - 1]); }
  }

  lemma OverChunk<V>(s: Stage<V>, xs: seq<V>)
    requires s.Group? && |xs| >= Limit(s.size)
    ensures var n := Limit(s.size);
      var b := OverList(s, [], xs[n..]);
      OverList(s, [], xs) == Part([s.pack(xs[..n])] + b.outs, b.open, b.errors)
  {
    hide OverList, OnItem;
    var n := Limit(s.size);
    Batched(s, [], xs[..n]);
    assert [] + xs[..n] == xs[..n] && xs == xs[..n] + xs[n..];
    OverSplit(s, [], xs[..n], xs[n..]);
  }

  lemma WholeChunk<V>(s: Stage<V>, xs: seq<V>)
    requires s.Group? && |xs| >= Limit(s.size)
    ensures Whole(s, [], xs) == [s.pack(xs[..Limit(s.size)])] + Whole(s, [], xs[Limit(s.size)..])
  {
    hide OverList, OnFlush;
    var n := Limit(s.size);
    OverChunk(s, xs);
    var b := OverList(s, [], xs[n..]);
    Assoc([s.pack(xs[..n])], b.outs, OnFlush(s, b.open).outs);
  }

  lemma WholeRest<V>(s: Stage<V>, xs: seq<V>)
    requires s.Group? && |xs| < Limit(s.size)
    ensures Whole(s, [], xs) == if xs == [] then [] else [s.pack(xs)]
  {
    Batched(s, [], xs);
    assert [] + xs == xs;
  }

  /** Every stage alone, over a whole list, is the list function one would write down. */
  lemma {:induction false} WholeIsListFn<V>(s: Stage<V>, xs: seq<V>)
    ensures Whole(s, [], xs) == ListFn(s, xs)
    decreases |xs|
  {
    hide Whole;
    if s.Group? {
      var n := Limit(s.size);
      if |xs| < n {
        WholeRest(s, xs);
      } else {
        WholeChunk(s, xs);
        WholeIsListFn(s, xs[n..]);
      }
    } else if xs == [] {
      WholeOfNothing(s);
    } else {
      WholeCons(s, xs);
      WholeIsListFn(s, xs[1..]);
      if s.Map? { assert Mapped(s.f, xs) == [s.f(xs[0])] + Mapped(s.f, xs[1..]); }
    }
  }

  lemma WholeOfNothing<V>(s: Stage<V>)
    requires !s.Group?
    ensures Whole(s, [], []) == [] == ListFn(s, [])
  {}

  // ---------------------------------------------------------------- whole runs

  /** The stages as list functions, composed. */
  function ListFns<V>(ss: seq<Stage<V>>, xs: seq<V>): seq<V> {
    if ss == [] then xs else ListFns(ss[1..], ListFn(ss[0], xs))
  }

  lemma {:induction false} ListRunIsListFns<V>(ss: seq<Stage<V>>, xs: seq<V>)
    ensures ListRun(ss, Empty(|ss|), xs) == ListFns(ss, xs)
    decreases |ss|
  {
    if ss != [] {
      WholeIsListFn(ss[0], xs);
      assert Empty<V>(|ss|)[1..] == Empty(|ss| - 1);
      ListRunIsListFns(ss[1..], ListFn(ss[0], xs));
    }
  }

  function Refused<V>(attempt: V -> Option<V>, xs: seq<V>): nat {
    if xs == [] then 0 else (if attempt(xs[0]).None? then 1 else 0) + Refused(attempt, xs[1..])
  }

  /** How often a stage fails, given these items and a flush. */
  function FailuresOf<V>(s: Stage<V>, xs: seq<V>): nat {
    match s
    case TryMap(attempt, _) => Refused(attempt, xs)
    case Group(_, _, flushFails, _) => if flushFails then 1 else 0
    case _ => 0
  }

  /** How often the stages with these policies fail, each given what the list functions before it make. */
  function Failures<V>(ss: seq<Stage<V>>, policies: set<ErrorPolicy>, xs: seq<V>): nat {
    if ss == [] then 0
    else
      (if (ss[0].TryMap? || ss[0].Group?) && ss[0].policy in policies then FailuresOf(ss[0], xs) else 0)
      + Failures(ss[1..], policies, ListFn(ss[0], xs))
  }

  const AnyPolicy: set<ErrorPolicy> := {FailFast, Continue, DeadLetter}

  lemma {:induction false} StageFails<V>(s: Stage<V>, xs: seq<V>)
    ensures StageErrors(s, [], xs) == FailuresOf(s, xs)
    decreases |xs|
  {
    if !s.TryMap? {
      OnlySomeFail(s, [], xs);
    } else if xs != [] {
      assert xs == [xs[0]] + xs[1..];
      OverOne(s, [], xs[0]);
      OverSplit(s, [], [xs[0]], xs[1..]);
      StageFails(s, xs[1..]);
    }
  }

  /** The errors of a run are the failures of the list functions, policy by policy. */
  lemma {:induction false} RunFailures<V>(ss: seq<Stage<V>>, xs: seq<V>)
    ensures var t := Compose(ss, Empty(|ss|), xs);
      var f := ComposeFlush(ss, t.open);
      && t.errors + f.errors == Failures(ss, AnyPolicy, xs)
      && t.dead + f.dead == Failures(ss, {DeadLetter}, xs) && t.fatal + f.fatal == Failures(ss, {FailFast}, xs)
    decreases |ss|
  {
    hide Whole, ComposeFlush, StageErrors, FailuresOf, ListFn, OverList;
    if ss == [] {
      FlushOfNothing<V>([]);
    } else {
      FirstStageLast(ss, Empty(|ss|), xs);
      WholeIsListFn(ss[0], xs);
      StageFails(ss[0], xs);
      OnlyTheseFail(ss[0], xs);
      assert Empty<V>(|ss|)[1..] == Empty(|ss| - 1);
      RunFailures(ss[1..], ListFn(ss[0], xs));
    }
  }

  lemma FlushOfNothing<V>(open: seq<seq<V>>)
    requires open == []
    ensures ComposeFlush([], open) == Total([], [], 0, 0, 0)
  {}

  lemma OnlyTheseFail<V>(s: Stage<V>, xs: seq<V>)
    ensures !s.TryMap? && !s.Group? ==> FailuresOf(s, xs) == 0
  {}

  /** A chain of map and try_map stages. */
  predicate OneToOne<V>(ss: seq<Stage<V>>) { forall i :: 0 <= i < |ss| ==> ss[i].Map? || ss[i].TryMap? }

  lemma {:induction false} OverOneToOne<V>(s: Stage<V>, open: seq<V>, xs: seq<V>)
    requires s.Map? || s.TryMap?
    ensures var p := OverList(s, open, xs); |p.outs| + p.errors == |xs| && p.open == open
    decreases |xs|
  {
    if xs != [] { OverOneToOne(s, open, xs[..|xs| - 1]); }
  }

  /** In such a chain every item comes out or is an error. */
  lemma {:induction false} OneToOneCounts<V>(ss: seq<Stage<V>>, open: seq<seq<V>>, xs: seq<V>)
    requires |ss| == |open| && OneToOne(ss)
    ensures var t := Compose(ss, open, xs); |t.outs| + t.errors == |xs|
    ensures ComposeFlush(ss, open).outs == [] && ComposeFlush(ss, open).errors == 0
    decreases |ss|
  {
    if ss != [] {
      assert OneToOne(ss[1..]) by { assert forall i :: 0 <= i < |ss[1..]| ==> ss[1..][i] == ss[i + 1]; }
      OverOneToOne(ss[0], open[0], xs);
      OneToOneCounts(ss[1..], open[1..], OverList(ss[0], open[0], xs).outs);
      ComposeNothing(ss[1..], open[1..]);
    }
  }

  /** Every stage that can fail does so under `DeadLetter`. */
  predicate AllDeadLetter<V>(ss: seq<Stage<V>>) {
    forall i :: 0 <= i < |ss| && (ss[i].TryMap? || ss[i].Group?) ==> ss[i].policy == DeadLetter
  }

  lemma {:induction false} OnlySomeFail<V>(s: Stage<V>, open: seq<V>, xs: seq<V>)
    requires !s.TryMap?
    ensures OverList(s, open, xs).errors == 0
    decreases |xs|
  {
    if xs != [] { OnlySomeFail(s, open, xs[..|xs| - 1]); }
  }

  lemma {:induction false} DeadIsErrors<V>(ss: seq<Stage<V>>, open: seq<seq<V>>, xs: seq<V>)
    requires |ss| == |open| && AllDeadLetter(ss)
    ensures Compose(ss, open, xs).dead == Compose(ss, open, xs).errors
    ensures ComposeFlush(ss, open).dead == ComposeFlush(ss, open).errors
    decreases |ss|
  {
    if ss != [] {
      assert AllDeadLetter(ss[1..]) by { assert forall i :: 0 <= i < |ss[1..]| ==> ss[1..][i] == ss[i + 1]; }
      if !ss[0].TryMap? { OnlySomeFail(ss[0], open[0], xs); }
      DeadIsErrors(ss[1..], open[1..], OverList(ss[0], open[0], xs).outs);
      var m := OnFlush(ss[0], open[0]);
      DeadIsErrors(ss[1..], open[1..], m.outs);
      DeadIsErrors(ss[1..], Compose(ss[1..], open[1..], m.outs).open, []);
    }
  }
}
