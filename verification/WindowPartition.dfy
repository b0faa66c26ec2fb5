/**
  What the windows of an unkeyed stage contain.

  Tumbling and session windows partition the stream in arrival order, for any
  clock. With a clock that does not go back, a tumbling window lies on the grid and
  contains its items' arrival times, and sessions (without a cap in reach) are the
  maximal runs of items at most `idle` apart.
*/
module WindowPartition {
  import opened Options
  import opened WindowCore
  import opened WindowGrid
  import opened WindowLaws
  import opened WindowRuns

  /** The items that arrived in a run, in order. */
  function Arrivals<T>(es: seq<Event<T>>): seq<T> {
    if es == [] then []
    else Arrivals(es[..|es| - 1]) + if es[|es| - 1].Item? then [es[|es| - 1].x] else []
  }

  /** The items of windows, in order. */
  function ItemsOf<T>(out: seq<Window<T>>): seq<T> {
    if out == [] then [] else ItemsOf(out[..|out| - 1]) + out[|out| - 1].items
  }

  lemma {:induction false} ItemsOfAppends<T>(a: seq<Window<T>>, b: seq<Window<T>>)
    ensures ItemsOf(a + b) == ItemsOf(a) + ItemsOf(b)
  {
    if b == [] {
      assert a + b == a;
    } else {
      ItemsOfAppends(a, b[..|b| - 1]);
      assert (a + b)[..|a + b| - 1] == a + b[..|b| - 1] && (a + b)[|a + b| - 1] == b[|b| - 1];
      Assoc(ItemsOf(a), ItemsOf(b[..|b| - 1]), b[|b| - 1].items);
    }
  }

  /** The items a tumbling or session core has buffered. */
  function Buffered<T>(core: Core<T>): seq<T>
    requires !core.SlidingCore?
  {
    core.items
  }

  predicate Sized<T>(out: seq<Window<T>>, cap: nat) {
    forall i :: 0 <= i < |out| ==> 1 <= |out[i].items| <= Max(cap, 1)
  }

  /** The operation emits a prefix of what is buffered plus the item, in windows of the right size. */
  ghost predicate Conserves<T>(core: Core<T>, more: seq<T>, step: Step<T>, cap: nat) {
    && !core.SlidingCore? && !step.core.SlidingCore?
    && ItemsOf(step.out) + Buffered(step.core) == Buffered(core) + more
    && Sized(step.out, cap) && |Buffered(step.core)| < Max(cap, 1)
  }

  lemma ItemsOfOne<T>(w: Window<T>)
    ensures ItemsOf([w]) == w.items
  {
    assert [w][..0] == [];
  }

  lemma ItemConserves<T>(core: Core<T>, cap: nat, g: Grid, now: int, item: T)
    requires !core.SlidingCore? && |Buffered(core)| < Max(cap, 1)
    ensures Conserves(core, [item], OnItem(core, cap, g, now, item), cap)
  {
    hide Align, CheckedAdd, Since, Conserves, NonEmpty;
    if core.TumblingCore? {
      var current := core.start.GetOr(Align(g, now, core.size));
      var end := CheckedAdd(current, core.size, g.horizon);
      var passed := end.Some? && end.value <= now;
      var start := if passed then Align(g, now, core.size) else current;
      var w := Window((if passed then [] else core.items) + [item], start,
        CheckedAdd(start, core.size, g.horizon).GetOr(now));
      ClosedAndMore(core, passed, current, end.GetOr(now), item, w, OnItem(core, cap, g, now, item), cap);
    } else {
      var gap := core.last.Some? && Since(now, core.last.value) > core.idle;
      var start := if gap || core.last.None? then Some(now) else core.start;
      var w := Window((if gap then [] else core.items) + [item], start.GetOr(now), now);
      ClosedAndMore(core, gap, core.start.GetOr(core.last.GetOr(now)), core.last.GetOr(now), item, w,
        OnItem(core, cap, g, now, item), cap);
    }
  }

  /** What was open comes out or not, and then, if it is full, the window with the item. */
  lemma ClosedAndMore<T>(
      core: Core<T>, closes: bool, start: int, end: int, item: T, w: Window<T>, step: Step<T>, cap: nat)
    requires !core.SlidingCore? && !step.core.SlidingCore? && |Buffered(core)| < Max(cap, 1)
    requires w.items == (if closes then [] else Buffered(core)) + [item]
    requires var closed := if closes then NonEmpty(Buffered(core), start, end) else [];
      if |w.items| >= cap then step.out == closed + [w] && Buffered(step.core) == []
      else step.out == closed && Buffered(step.core) == w.items
    ensures Conserves(core, [item], step, cap)
  {
    var closed, before := if closes then NonEmpty(Buffered(core), start, end) else [], Buffered(core);
    ItemsOfClosed(before, closes, start, end);
    ItemsOfOne(w);
    ItemsOfAppends(closed, [w]);
    hide ItemsOf, Buffered, Sized, NonEmpty;
    assert w.items == (if closes then [] else before) + [item];
    assert ItemsOf(closed) + w.items == before + [item];
    if |w.items| >= cap {
      SizedMore(closed, w, cap);
      assert ItemsOf(step.out) + [] == ItemsOf(step.out);
    }
  }

  lemma SizedMore<T>(out: seq<Window<T>>, w: Window<T>, cap: nat)
    requires Sized(out, cap) && 1 <= |w.items| <= Max(cap, 1)
    ensures Sized(out + [w], cap)
  {}

  lemma ItemsOfClosed<T>(items: seq<T>, closes: bool, start: int, end: int)
    ensures var closed := if closes then NonEmpty(items, start, end) else [];
      && ItemsOf(closed) == (if closes then items else [])
      && forall cap: nat :: |items| < Max(cap, 1) ==> Sized(closed, cap)
  {
    if closes && items != [] { ItemsOfOne(Window(items, start, end)); }
  }

  lemma TickConserves<T>(core: Core<T>, cap: nat, g: Grid, now: int)
    requires !core.SlidingCore? && |Buffered(core)| < Max(cap, 1)
    ensures Conserves(core, [], OnTick(core, g, now), cap)
  {
    var step := OnTick(core, g, now);
    if |step.out| == 1 {
      ItemsOfOne(step.out[0]);
      assert step.out == [step.out[0]];
    }
  }

  lemma FlushConserves<T>(core: Core<T>, cap: nat, g: Grid, now: int)
    requires !core.SlidingCore? && |Buffered(core)| < Max(cap, 1)
    ensures Conserves(core, [], OnFlush(core, g, now), cap) && Buffered(OnFlush(core, g, now).core) == []
  {
    var step := OnFlush(core, g, now);
    if |step.out| == 1 {
      ItemsOfOne(step.out[0]);
      assert step.out == [step.out[0]];
    }
  }

  /** A stage of which `arrived` has been emitted or is buffered. */
  ghost predicate Holds<T>(s: Stage<T>, arrived: seq<T>, cap: nat) {
    && !s.core.SlidingCore? && |Buffered(s.core)| < Max(cap, 1) && Sized(s.out, cap)
    && ItemsOf(s.out) + Buffered(s.core) == arrived
  }

  lemma ConservingStepHolds<T>(s: Stage<T>, arrived: seq<T>, more: seq<T>, anchor: Option<int>, step: Step<T>, cap: nat)
    requires Holds(s, arrived, cap) && Conserves(s.core, more, step, cap)
    ensures Holds(Stage(anchor, step.core, s.out + step.out), arrived + more, cap)
  {
    ItemsOfAppends(s.out, step.out);
    Assoc(ItemsOf(s.out), ItemsOf(step.out), Buffered(step.core));
    Assoc(ItemsOf(s.out), Buffered(s.core), more);
  }

  lemma FeedConserves<T>(c: Config, s: Stage<T>, e: Event<T>, arrived: seq<T>)
    requires Holds(s, arrived, c.cap)
    ensures Holds(Feed(c, s, e), arrived + (if e.Item? then [e.x] else []), c.cap)
    ensures e.Flush? ==> Buffered(Feed(c, s, e).core) == []
  {
    hide OnItem, OnTick, OnFlush, Conserves, Sized;
    match e
    case Item(at, x) =>
      var g := Grid(s.anchor.GetOr(GridOrigin(c.policy, at, c.lowest)), c.horizon);
      ItemConserves(s.core, c.cap, g, at, x);
      ConservingStepHolds(s, arrived, [x], Some(g.anchor), OnItem(s.core, c.cap, g, at, x), c.cap);
    case Tick(at) =>
      assert arrived + [] == arrived;
      if s.anchor.Some? {
        var g := Grid(s.anchor.value, c.horizon);
        TickConserves(s.core, c.cap, g, at);
        ConservingStepHolds(s, arrived, [], s.anchor, OnTick(s.core, g, at), c.cap);
      }
    case Flush(at) =>
      var g := Grid(s.anchor.GetOr(at), c.horizon);
      FlushConserves(s.core, c.cap, g, at);
      ConservingStepHolds(s, arrived, [], s.anchor, OnFlush(s.core, g, at), c.cap);
  }

  /**
    Tumbling and session windows partition the stream: for any clock, what has been
    emitted, in order, followed by what is buffered is exactly what has arrived. No
    window is empty or longer than the cap. After a flush nothing is buffered.
  */
  lemma {:induction false} WindowsPartitionTheStream<T>(c: Config, es: seq<Event<T>>)
    requires !c.policy.Sliding?
    ensures Holds(Run(c, es), Arrivals(es), c.cap)
    ensures es != [] && es[|es| - 1].Flush? ==> ItemsOf(Run(c, es).out) == Arrivals(es)
  {
    if es != [] {
      WindowsPartitionTheStream(c, es[..|es| - 1]);
      FeedConserves(c, Run(c, es[..|es| - 1]), es[|es| - 1], Arrivals(es[..|es| - 1]));
    }
  }

  // ---------------------------------------------------------------- tumbling

  /** Every item of the run is stamped with its arrival time. */
  predicate Stamped<T>(es: seq<Event<T>>, stamp: T -> int) {
    forall i :: 0 <= i < |es| && es[i].Item? ==> stamp(es[i].x) == es[i].at
  }

  /** The window is a cell of the grid and holds only items that arrived in it. */
  ghost predicate IsCell<T>(w: Window<T>, g: Grid, size: nat, stamp: T -> int) {
    && OnGrid(g, size, w.start)
    && (w.start + size <= g.horizon ==> w.end == w.start + size)
    && (forall i :: 0 <= i < |w.items| ==> w.start <= stamp(w.items[i]) < w.start + size)
  }

  /** The buffered items arrived in the cell the core is in. */
  ghost predicate InCell<T>(core: Core<T>, stamp: T -> int) {
    && core.TumblingCore?
    && forall i :: 0 <= i < |core.items| ==>
         core.start.Some? && core.start.value <= stamp(core.items[i]) < core.start.value + core.size
  }

  ghost predicate AllCells<T>(out: seq<Window<T>>, g: Grid, size: nat, stamp: T -> int) {
    forall i :: 0 <= i < |out| ==> IsCell(out[i], g, size, stamp)
  }

  lemma TumblingCells<T>(core: Core<T>, policy: Policy, cap: nat, g: Grid, now: int, item: T, stamp: T -> int)
    requires ValidPolicy(policy) && Reached(g, now) && CoreInv(core, policy, g, now) && InCell(core, stamp)
    ensures InCell(OnTick(core, g, now).core, stamp) && AllCells(OnTick(core, g, now).out, g, core.size, stamp)
    ensures InCell(OnFlush(core, g, now).core, stamp) && AllCells(OnFlush(core, g, now).out, g, core.size, stamp)
    ensures stamp(item) == now ==>
              InCell(OnItem(core, cap, g, now, item).core, stamp)
                && AllCells(OnItem(core, cap, g, now, item).out, g, core.size, stamp)
  {
    AlignFindsGridPoint(g, now, core.size);
    hide Align, OnGrid;
  }

  ghost predicate TumblingInv<T>(s: Stage<T>, c: Config, stamp: T -> int, t: int) {
    && StageInv(c, s, t) && InCell(s.core, stamp)
    && if s.anchor.Some? then AllCells(s.out, Grid(s.anchor.value, c.horizon), c.policy.size, stamp) else s.out == []
  }

  lemma TumblingStep<T(!new)>(c: Config, s: Stage<T>, e: Event<T>, stamp: T -> int)
    requires c.policy.Tumbling? && ValidPolicy(c.policy) && e.at <= c.horizon
    requires TumblingInv(s, c, stamp, e.at) && (e.Item? ==> stamp(e.x) == e.at)
    ensures TumblingInv(Feed(c, s, e), c, stamp, e.at)
  {
    FeedKeepsInv(c, s, e);
    OriginIsBefore(c, e.at);
    assert s.core.size == c.policy.size;
    hide OnItem, OnTick, OnFlush, CoreInv, IsCell;
    if e.Item? {
      var g := Grid(s.anchor.GetOr(e.at), c.horizon);
      NewCoreInv<T>(c.policy, g, e.at);
      TumblingCells(s.core, c.policy, c.cap, g, e.at, e.x, stamp);
    } else if s.anchor.Some? && |s.core.items| > 0 {
      TumblingCells(s.core, c.policy, c.cap, Grid(s.anchor.value, c.horizon), e.at, s.core.items[0], stamp);
    } else {
      EmptyTumblingIsSilent(s.core, Grid(s.anchor.GetOr(e.at), c.horizon), e.at);
    }
  }

  lemma EmptyTumblingIsSilent<T>(core: Core<T>, g: Grid, now: int)
    requires core.TumblingCore? && |core.items| == 0
    ensures OnTick(core, g, now).out == [] && OnTick(core, g, now).core.TumblingCore?
    ensures OnTick(core, g, now).core.items == []
    ensures OnFlush(core, g, now).out == [] && OnFlush(core, g, now).core.TumblingCore?
    ensures OnFlush(core, g, now).core.items == []
  {
  }

  lemma NewCoreInv<T>(policy: Policy, g: Grid, now: int)
    ensures CoreInv(NewCore<T>(policy), policy, g, now)
  {
  }

  /**
    With a monotone clock every tumbling window is a cell of the grid that starts with the
    arrival of the first item, and contains its items' arrival times.
  */
  lemma {:induction false} TumblingWindowsAreCells<T(!new)>(c: Config, es: seq<Event<T>>, stamp: T -> int, t: int)
    requires c.policy.Tumbling? && ValidPolicy(c.policy) && Monotone(es, c) && EndsBy(es, t) && Stamped(es, stamp)
    ensures FirstItem(es).None? ==> Run(c, es).out == []
    ensures FirstItem(es).Some? ==>
              forall w :: w in Run(c, es).out ==>
                IsCell(w, Grid(FirstItem(es).value, c.horizon), c.policy.size, stamp)
  {
    StaysInCells(c, es, stamp, t);
    FirstItemFixesAnchor(c, es);
  }

  lemma {:induction false} StaysInCells<T(!new)>(c: Config, es: seq<Event<T>>, stamp: T -> int, t: int)
    requires c.policy.Tumbling? && ValidPolicy(c.policy) && Monotone(es, c) && EndsBy(es, t) && Stamped(es, stamp)
    ensures TumblingInv(Run(c, es), c, stamp, t)
  {
    if es != [] {
      var e, before := es[|es| - 1], es[..|es| - 1];
      StaysInCells(c, before, stamp, e.at);
      TumblingStep(c, Run(c, before), e, stamp);
      StageInvLater(c, Run(c, es), e.at, t);
    }
  }

  // ---------------------------------------------------------------- sessions

  /** A non-empty run of items with gaps of at most `idle`. */
  ghost predicate IsChain<T>(items: seq<T>, idle: nat, stamp: T -> int) {
    items != [] && forall i :: 0 <= i < |items| - 1 ==> stamp(items[i + 1]) - stamp(items[i]) <= idle
  }

  /** A session: a chain that reports its first and last instant. */
  ghost predicate IsSession<T>(w: Window<T>, idle: nat, stamp: T -> int) {
    && IsChain(w.items, idle, stamp)
    && w.start == stamp(w.items[0]) && w.end == stamp(w.items[|w.items| - 1])
  }

  /** Sessions none of which could be joined to the next: each is maximal. */
  ghost predicate AreSessions<T>(out: seq<Window<T>>, idle: nat, stamp: T -> int) {
    && (forall i :: 0 <= i < |out| ==> IsSession(out[i], idle, stamp))
    && (forall i :: 0 <= i < |out| - 1 ==> out[i + 1].start - out[i].end > idle)
  }

  /** A session or, if a full window was cut off it, a piece: it reports its last instant. */
  ghost predicate IsPiece<T>(w: Window<T>, idle: nat, stamp: T -> int) {
    IsChain(w.items, idle, stamp) && w.end == stamp(w.items[|w.items| - 1])
  }

  /**
    How a piece stands to the one before: after a longer gap than `idle` it begins a session, with
    its first instant; otherwise that one is full, and this one goes on from its end.
  */
  ghost predicate Succeeds<T>(prev: Window<T>, w: Window<T>, idle: nat, cap: nat, stamp: T -> int) {
    && w.items != []
    && if stamp(w.items[0]) - prev.end > idle then w.start == stamp(w.items[0])
       else |prev.items| == Max(cap, 1) && w.start == prev.end
  }

  ghost predicate BeginsWell<T>(out: seq<Window<T>>, w: Window<T>, idle: nat, cap: nat, stamp: T -> int) {
    && w.items != []
    && if out == [] then w.start == stamp(w.items[0]) else Succeeds(out[|out| - 1], w, idle, cap, stamp)
  }

  /** The sessions in order, each cut into pieces all of which but the last are full. */
  ghost predicate ArePieces<T>(out: seq<Window<T>>, idle: nat, cap: nat, stamp: T -> int) {
    forall i :: 0 <= i < |out| ==> IsPiece(out[i], idle, stamp) && BeginsWell(out[..i], out[i], idle, cap, stamp)
  }

  /** The open session, if there is one, and how it stands to the last piece emitted. */
  ghost predicate OpenSession<T>(core: Core<T>, out: seq<Window<T>>, cap: nat, stamp: T -> int, t: int) {
    && core.SessionCore? && |core.items| < Max(cap, 1)
    && (core.last.None? ==> core.start.None? && core.items == [] && (out != [] ==> t - out[|out| - 1].end > core.idle))
    && (core.last.Some? ==> core.last.value <= t && core.start.Some? && IsOpen(core, out, cap, stamp))
  }

  ghost predicate IsOpen<T>(core: Core<T>, out: seq<Window<T>>, cap: nat, stamp: T -> int)
    requires core.SessionCore? && core.start.Some? && core.last.Some?
  {
    if core.items == [] then
      && out != [] && |out[|out| - 1].items| == Max(cap, 1)
      && core.start.value == out[|out| - 1].end == core.last.value
    else
      var w := Window(core.items, core.start.value, core.last.value);
      IsPiece(w, core.idle, stamp) && BeginsWell(out, w, core.idle, cap, stamp)
  }

  lemma OneMorePiece<T>(out: seq<Window<T>>, w: Window<T>, idle: nat, cap: nat, stamp: T -> int)
    requires ArePieces(out, idle, cap, stamp) && IsPiece(w, idle, stamp) && BeginsWell(out, w, idle, cap, stamp)
    ensures ArePieces(out + [w], idle, cap, stamp)
  {
    hide IsPiece, BeginsWell;
    var more := out + [w];
    forall i | 0 <= i < |more|
      ensures IsPiece(more[i], idle, stamp) && BeginsWell(more[..i], more[i], idle, cap, stamp)
    {
      assert more[..i] == if i < |out| then out[..i] else out;
    }
  }

  lemma ChainExtends<T>(items: seq<T>, item: T, idle: nat, stamp: T -> int)
    requires items == [] || (IsChain(items, idle, stamp) && stamp(item) - stamp(items[|items| - 1]) <= idle)
    ensures IsChain(items + [item], idle, stamp)
  {
  }

  /** An item that finds its session over, or none open, begins one; the open one comes out. */
  lemma SessionBegins<T>(core: Core<T>, out: seq<Window<T>>, cap: nat, now: int, item: T, stamp: T -> int)
    requires OpenSession(core, out, cap, stamp, now) && ArePieces(out, core.idle, cap, stamp) && stamp(item) == now
    requires core.last.Some? ==> now - core.last.value > core.idle
    ensures var closed :=
        if core.last.None? then [] else NonEmpty(core.items, core.start.GetOr(core.last.value), core.last.value);
      && ArePieces(out + closed, core.idle, cap, stamp)
      && var w := Window([item], now, now);
         IsPiece(w, core.idle, stamp) && BeginsWell(out + closed, w, core.idle, cap, stamp)
  {
    assert out + [] == out;
    if core.items != [] {
      OneMorePiece(out, Window(core.items, core.start.value, core.last.value), core.idle, cap, stamp);
    }
  }

  /** An item that arrives in time joins the open session. */
  lemma SessionGoesOn<T>(core: Core<T>, out: seq<Window<T>>, cap: nat, now: int, item: T, stamp: T -> int)
    requires OpenSession(core, out, cap, stamp, now) && stamp(item) == now
    requires core.last.Some? && now - core.last.value <= core.idle
    ensures var w := Window(core.items + [item], core.start.value, now);
      IsPiece(w, core.idle, stamp) && BeginsWell(out, w, core.idle, cap, stamp)
  {
    ChainExtends(core.items, item, core.idle, stamp);
  }

  lemma SessionItemStep<T>(core: Core<T>, out: seq<Window<T>>, cap: nat, now: int, item: T, stamp: T -> int)
    requires OpenSession(core, out, cap, stamp, now) && ArePieces(out, core.idle, cap, stamp) && stamp(item) == now
    ensures var step := SessionItem(core, cap, now, item);
            && OpenSession(step.core, out + step.out, cap, stamp, now)
            && ArePieces(out + step.out, core.idle, cap, stamp) && step.core.idle == core.idle
  {
    var over := core.last.None? || now - core.last.value > core.idle;
    var closed := if over && core.last.Some?
      then NonEmpty(core.items, core.start.GetOr(core.last.value), core.last.value) else [];
    var w := Window((if over then [] else core.items) + [item], if over then now else core.start.GetOr(now), now);
    if over {
      SessionBegins(core, out, cap, now, item, stamp);
      assert w.items == [item];
    } else {
      SessionGoesOn(core, out, cap, now, item, stamp);
      assert out + [] == out;
    }
    ItemLeaves(core, cap, now, item, closed, w);
    assert core.last.None? ==> core.items == [];
    hide SessionItem, ArePieces, IsPiece, BeginsWell, OpenSession;
    PieceFollows(core, out + closed, w, cap, now, stamp);
    Assoc(out, closed, [w]);
  }

  /** Either way: what is closed comes out, and then the piece with the item, if that fills it. */
  lemma ItemLeaves<T>(core: Core<T>, cap: nat, now: int, item: T, closed: seq<Window<T>>, w: Window<T>)
    requires core.SessionCore? && (core.last.None? ==> core.items == []) && (core.last.Some? ==> core.last.value <= now)
    requires core.last.Some? ==> core.start.Some?
    requires var over := core.last.None? || now - core.last.value > core.idle;
      && closed == (if over && core.last.Some?
           then NonEmpty(core.items, core.start.GetOr(core.last.value), core.last.value) else [])
      && w == Window((if over then [] else core.items) + [item], if over then now else core.start.GetOr(now), now)
    ensures SessionItem(core, cap, now, item) ==
      if |w.items| >= cap then Step(SessionCore(core.idle, Some(now), Some(now), []), closed + [w])
      else Step(SessionCore(core.idle, Some(w.start), Some(now), w.items), closed)
  {}

  lemma PieceFollows<T>(core: Core<T>, out: seq<Window<T>>, w: Window<T>, cap: nat, now: int, stamp: T -> int)
    requires core.SessionCore? && ArePieces(out, core.idle, cap, stamp) && |w.items| <= Max(cap, 1) && w.end == now
    requires IsPiece(w, core.idle, stamp) && BeginsWell(out, w, core.idle, cap, stamp)
    ensures |w.items| < cap ==>
      OpenSession(SessionCore(core.idle, Some(w.start), Some(now), w.items), out, cap, stamp, now)
    ensures |w.items| >= cap ==>
      && OpenSession(SessionCore(core.idle, Some(now), Some(now), []), out + [w], cap, stamp, now)
      && ArePieces(out + [w], core.idle, cap, stamp)
  {
    OneMorePiece(out, w, core.idle, cap, stamp);
  }

  lemma SessionTickStep<T>(core: Core<T>, out: seq<Window<T>>, g: Grid, cap: nat, now: int, stamp: T -> int)
    requires OpenSession(core, out, cap, stamp, now) && ArePieces(out, core.idle, cap, stamp)
    ensures var step := OnTick(core, g, now);
            && OpenSession(step.core, out + step.out, cap, stamp, now)
            && ArePieces(out + step.out, core.idle, cap, stamp) && step.core.idle == core.idle
  {
    assert out + [] == out;
    if core.items != [] {
      OneMorePiece(out, Window(core.items, core.start.value, core.last.value), core.idle, cap, stamp);
    }
  }

  lemma SessionFlushStep<T>(core: Core<T>, out: seq<Window<T>>, g: Grid, cap: nat, now: int, stamp: T -> int)
    requires OpenSession(core, out, cap, stamp, now) && ArePieces(out, core.idle, cap, stamp)
    ensures ArePieces(out + OnFlush(core, g, now).out, core.idle, cap, stamp)
  {
    assert out + [] == out;
    if core.items != [] {
      OneMorePiece(out, Window(core.items, core.start.value, core.last.value), core.idle, cap, stamp);
    }
  }

  lemma {:induction false} SessionsStayOpen<T(!new)>(c: Config, es: seq<Event<T>>, stamp: T -> int, t: int)
    requires c.policy.Session? && Monotone(es, c) && EndsBy(es, t) && Stamped(es, stamp)
    requires forall i :: 0 <= i < |es| ==> !es[i].Flush?
    ensures var s := Run(c, es);
      && OpenSession(s.core, s.out, c.cap, stamp, t) && ArePieces(s.out, c.policy.idle, c.cap, stamp)
      && s.core.idle == c.policy.idle && (s.anchor.None? ==> s == Start(c))
  {
    hide IsOpen, SessionItem, OnTick, Since;
    if es != [] {
      var e, before := es[|es| - 1], es[..|es| - 1];
      SessionsStayOpen(c, before, stamp, e.at);
      SessionFeeds(c, Run(c, before), e, stamp);
      hide ArePieces, OpenSession, Monotone, Stamped, Feed;
      StaysOpenLater(Run(c, es).core, Run(c, es).out, c.cap, stamp, e.at, t);
    }
  }

  lemma StaysOpenLater<T>(core: Core<T>, out: seq<Window<T>>, cap: nat, stamp: T -> int, t: int, u: int)
    requires OpenSession(core, out, cap, stamp, t) && t <= u
    ensures OpenSession(core, out, cap, stamp, u)
  {
    hide IsOpen;
  }

  /** One item or tick. */
  lemma SessionFeeds<T(!new)>(c: Config, s: Stage<T>, e: Event<T>, stamp: T -> int)
    requires !e.Flush? && (e.Item? ==> stamp(e.x) == e.at)
    requires c.policy.Session? && ArePieces(s.out, c.policy.idle, c.cap, stamp)
    requires OpenSession(s.core, s.out, c.cap, stamp, e.at) && s.core.idle == c.policy.idle
    requires s.anchor.None? ==> s == Start(c)
    ensures var after := Feed(c, s, e);
            && OpenSession(after.core, after.out, c.cap, stamp, e.at)
            && ArePieces(after.out, c.policy.idle, c.cap, stamp) && after.core.idle == c.policy.idle
            && (after.anchor.None? ==> after == Start(c))
  {
    hide ArePieces, IsOpen, SessionItem, Since;
    if e.Item? {
      SessionItemStep(s.core, s.out, c.cap, e.at, e.x, stamp);
    } else if s.anchor.Some? {
      SessionTickStep(s.core, s.out, Grid(s.anchor.value, c.horizon), c.cap, e.at, stamp);
    }
  }

  /**
    For any cap: the windows of a run, in order, are its arrivals cut wherever two of them are more
    than `idle` apart, which makes the sessions, and within a session after every `cap` items.
    Without a cap in reach they are exactly the sessions: within one no gap is larger
    than `idle`, and between two every gap is.
  */
  lemma {:induction false} SessionsAreMaximalRuns<T(!new)>(c: Config, es: seq<Event<T>>, stamp: T -> int, t: int)
    requires c.policy.Session? && Monotone(es + [Event<T>.Flush(t)], c) && Stamped(es, stamp)
    requires forall i :: 0 <= i < |es| ==> !es[i].Flush?
    ensures var out := Run(c, es + [Event<T>.Flush(t)]).out;
            && ItemsOf(out) == Arrivals(es) && ArePieces(out, c.policy.idle, c.cap, stamp)
            && (|Arrivals(es)| < c.cap ==> AreSessions(out, c.policy.idle, stamp))
  {
    var run := es + [Event<T>.Flush(t)];
    assert forall i :: 0 <= i < |es| ==> run[i] == es[i] && run[i].at <= run[|es|].at;
    assert run[..|es|] == es;
    SessionsStayOpen(c, es, stamp, t);
    WindowsPartitionTheStream(c, run);
    RunExtends(c, es, Event<T>.Flush(t));
    var s := Run(c, es);
    SessionFlushStep(s.core, s.out, Grid(s.anchor.GetOr(t), c.horizon), c.cap, t, stamp);
    hide *;
    if |Arrivals(es)| < c.cap {
      forall i | 0 <= i < |Run(c, run).out| ensures |Run(c, run).out[i].items| < c.cap {
        ItemsOfHas(Run(c, run).out, i);
      }
      PiecesAreSessions(Run(c, run).out, c.policy.idle, c.cap, stamp);
    }
  }

  lemma {:induction false} ItemsOfHas<T>(out: seq<Window<T>>, i: nat)
    requires i < |out|
    ensures |out[i].items| <= |ItemsOf(out)|
  {
    if i < |out| - 1 { ItemsOfHas(out[..|out| - 1], i); }
  }

  lemma PiecesAreSessions<T>(out: seq<Window<T>>, idle: nat, cap: nat, stamp: T -> int)
    requires ArePieces(out, idle, cap, stamp) && forall i :: 0 <= i < |out| ==> |out[i].items| < cap
    ensures AreSessions(out, idle, stamp)
  {
    forall i | 0 <= i < |out| ensures IsSession(out[i], idle, stamp) {
      assert BeginsWell(out[..i], out[i], idle, cap, stamp);
    }
    forall i | 0 <= i < |out| - 1 ensures out[i + 1].start - out[i].end > idle {
      assert BeginsWell(out[..i + 1], out[i + 1], idle, cap, stamp) && out[..i + 1][i] == out[i];
    }
  }
}
