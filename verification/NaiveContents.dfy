/**
  What a key of the reference for keyed windows holds: over any run, what has come out for a key,
  and what is buffered for it, is what it was fed, although keys are released, evicted and created
  anew. So a key that is due is held after an event if and only if something it was fed has not
  come out: exactly the keys that hold nothing are released.
*/
module NaiveContents {
  import opened Options
  import opened WindowCore
  import opened WindowGrid
  import opened WindowLaws
  import opened WindowRuns
  import opened WindowPartition
  import opened SlidingExact
  import opened NaiveKeyed

  /** The events of a run without the items of other keys. */
  function OwnEvents<K(==), T>(s: Keyed<K, T>, es: seq<Event<T>>, k: K): seq<Event<T>> {
    if es == [] then []
    else
      var e := es[|es| - 1];
      OwnEvents(s, es[..|es| - 1], k) + if e.Item? && s.key(e.x) != k then [] else [e]
  }

  /** Nothing is buffered. */
  predicate HoldsNothing<T>(core: Core<T>) {
    match core
    case TumblingCore(_, _, items) => items == []
    case SessionCore(_, _, _, items) => items == []
    case SlidingCore(_, _, slots) => forall i :: 0 <= i < |slots| ==> slots[i].items == []
  }

  /** Everything key `k` was fed has come out; for sliding windows, for every window. */
  ghost predicate AllOut<K, T>(s: Keyed<K, T>, es: seq<Event<T>>, k: K)
    requires ValidPolicy(s.c.policy)
  {
    Complete(s.c, FirstItem(es), Total(s, es, k), OwnEvents(s, es, k))
  }

  ghost predicate Complete<T>(c: Config, first: Option<int>, out: seq<Window<T>>, own: seq<Event<T>>)
    requires ValidPolicy(c.policy)
  {
    if !c.policy.Sliding? then ItemsOf(out) == Arrivals(own)
    else first.Some? ==> forall j: nat :: WindowOut(c, out, own, GridStart(c, first.value), j)
  }

  /** Every item that arrived in window `j` has come out for it. */
  ghost predicate WindowOut<T>(c: Config, out: seq<Window<T>>, own: seq<Event<T>>, anchor: int, j: nat)
    requires c.policy.Sliding?
  {
    Pieces(out, GridPoint(Grid(anchor, c.horizon), c.policy.slide, j))
      == Joiners(own, anchor, c.policy.size, c.policy.slide, j)
  }

  // ---------------------------------------------------------------- one event, step by step

  /** The key is examined if it is due, and forgotten if it is empty then. */
  function Expired1<T>(c: Config, st: Stage<T>, at: int): Stage<T>
    requires st.anchor.Some?
  {
    var g := Grid(st.anchor.value, c.horizon);
    if !IsDue(st.core, c.horizon, at) then st
    else
      var ticked := Feed(c, st, Event.Tick(at));
      if IsEmpty(ticked.core) then ticked.(core := NewCore(c.policy)) else ticked
  }

  /** What an event does to key `k`, as steps of one unkeyed stage. */
  ghost function KeyFeed<K, T>(s: Keyed<K, T>, n: Naive<K, T>, e: Event<T>, k: K, st: Stage<T>): Stage<T> {
    match e
    case Tick(at) => if st.anchor.None? then st else Expired1(s.c, st, at)
    case Flush(at) => Feed(s.c, st, e)
    case Item(at, x) =>
      var g := GridOf(s.c, n, at);
      var expired := Expired1(s.c, st.(anchor := Some(g.anchor)), at);
      var kept := if Victim(TickAll(n.keys, g, at), s.maxKeys, s.key(x)) == Some(k)
        then Feed(s.c, expired, Event.Flush(at)) else expired;
      if s.key(x) == k then Feed(s.c, kept, e) else kept
  }

  lemma NewIsNotDue<T>(policy: Policy, horizon: int, at: int)
    ensures !IsDue(NewCore<T>(policy), horizon, at)
  {}

  lemma FlushedIsNew<T>(core: Core<T>, policy: Policy, g: Grid, at: int)
    requires Shaped(core, policy)
    ensures OnFlush(core, g, at).core == NewCore(policy)
  {}

  lemma TickedAsFed<K, T>(s: Keyed<K, T>, n: Naive<K, T>, g: Grid, at: int, k: K, out: seq<Window<T>>)
    requires g.horizon == s.c.horizon
    ensures Expired1(s.c, Stage(Some(g.anchor), CoreOf(n.keys, s.c.policy, k), out), at)
      == Stage(Some(g.anchor), CoreOf(TickAll(n.keys, g, at), s.c.policy, k), out + TickOut(n.keys, g, at, k))
  {
    NewIsNotDue<T>(s.c.policy, s.c.horizon, at);
    hide OnTick, IsEmpty, IsDue;
    assert out + [] == out;
    if k in n.keys && IsDue(n.keys[k].core, g.horizon, at) && IsEmpty(OnTick(n.keys[k].core, g, at).core) {
      assert k !in TickAll(n.keys, g, at);
    }
  }

  lemma EvictedAsFed<K, T>(
      s: Keyed<K, T>, ticked: map<K, Held<T>>, victim: Option<K>, g: Grid, at: int, k: K, out: seq<Window<T>>)
    requires g.horizon == s.c.horizon && (victim == Some(k) ==> k in ticked && Shaped(ticked[k].core, s.c.policy))
    ensures var st := Stage(Some(g.anchor), CoreOf(ticked, s.c.policy, k), out);
      var after := Stage(Some(g.anchor), CoreOf(NaiveKeyed.Without(ticked, victim), s.c.policy, k),
        out + if victim == Some(k) then OnFlush(ticked[k].core, g, at).out else []);
      after == if victim == Some(k) then Feed(s.c, st, Event.Flush(at)) else st
  {
    if victim == Some(k) { FlushedIsNew(ticked[k].core, s.c.policy, g, at); }
    hide OnFlush;
    assert out + [] == out;
  }

  ghost predicate AllShaped<K, T>(keys: map<K, Held<T>>, policy: Policy) {
    forall k :: k in keys ==> Shaped(keys[k].core, policy)
  }

  lemma TickedShape<K, T>(keys: map<K, Held<T>>, policy: Policy, g: Grid, at: int)
    requires AllShaped(keys, policy)
    ensures AllShaped(TickAll(keys, g, at), policy)
  {}

  /** The reference treats each key as these steps do. */
  lemma NextAsFed<K, T>(s: Keyed<K, T>, n: Naive<K, T>, e: Event<T>, k: K, out: seq<Window<T>>)
    requires AllShaped(n.keys, s.c.policy) && (n.anchor.None? ==> n.keys.Keys == {})
    ensures KeyStage(s.c, Next(s, n, e), k, out + Out(s, n, e, k))
      == KeyFeed(s, n, e, k, KeyStage(s.c, n, k, out))
  {
    match e
    case Tick(at) =>
      if n.anchor.Some? { TickedAsFed(s, n, Grid(n.anchor.value, s.c.horizon), at, k, out); }
      hide TickAll, TickOut, Expired1;
      assert out + [] == out;
    case Flush(at) =>
      var g := Grid(n.anchor.GetOr(at), s.c.horizon);
      NewFlushesNothing<T>(s.c.policy, g, at);
      if k in n.keys { FlushedIsNew(n.keys[k].core, s.c.policy, g, at); }
      hide OnFlush;
    case Item(at, x) => ItemAsFed(s, n, at, x, k, out);
  }

  lemma ItemAsFed<K, T>(s: Keyed<K, T>, n: Naive<K, T>, at: int, x: T, k: K, out: seq<Window<T>>)
    requires AllShaped(n.keys, s.c.policy) && (n.anchor.None? ==> n.keys.Keys == {})
    ensures KeyStage(s.c, Next(s, n, Item(at, x)), k, out + Out(s, n, Item(at, x), k))
      == KeyFeed(s, n, Item(at, x), k, KeyStage(s.c, n, k, out))
  {
    var g := GridOf(s.c, n, at);
    var ticked := TickAll(n.keys, g, at);
    var victim := Victim(ticked, s.maxKeys, s.key(x));
    var out1 := out + TickOut(n.keys, g, at, k);
    TickedShape(n.keys, s.c.policy, g, at);
    TickedAsFed(s, n, g, at, k, out);
    hide TickAll, TickOut, OnItem, OnFlush, Next, Out, Expired1, Feed, Shaped, GridOf, IsOldest;
    EvictedAsFed(s, ticked, victim, g, at, k, out1);
    ItemNext(s, n, at, x, k, out);
  }

  lemma ItemNext<K, T>(s: Keyed<K, T>, n: Naive<K, T>, at: int, x: T, k: K, out: seq<Window<T>>)
    ensures var g := GridOf(s.c, n, at);
      var ticked := TickAll(n.keys, g, at);
      var victim := Victim(ticked, s.maxKeys, s.key(x));
      var kept := CoreOf(NaiveKeyed.Without(ticked, victim), s.c.policy, k);
      var flushed := if victim == Some(k) then OnFlush(ticked[k].core, g, at).out else [];
      var st := Stage(Some(g.anchor), kept, (out + TickOut(n.keys, g, at, k)) + flushed);
      KeyStage(s.c, Next(s, n, Item(at, x)), k, out + Out(s, n, Item(at, x), k))
        == if s.key(x) == k then Feed(s.c, st, Item(at, x)) else st
  {
    var g := GridOf(s.c, n, at);
    var ticked := TickAll(n.keys, g, at);
    var victim := Victim(ticked, s.maxKeys, s.key(x));
    var kept := CoreOf(NaiveKeyed.Without(ticked, victim), s.c.policy, k);
    var tickOut := TickOut(n.keys, g, at, k);
    var flushed := if victim == Some(k) then OnFlush(ticked[k].core, g, at).out else [];
    var more := if s.key(x) == k then OnItem(kept, s.c.cap, g, at, x).out else [];
    hide TickAll, TickOut, Victim, OnFlush, OnItem, GridOrigin;
    OutParts(s, n, at, x, k);
    hide Out;
    SumOfParts(out, tickOut, flushed, more);
  }

  lemma OutParts<K, T>(s: Keyed<K, T>, n: Naive<K, T>, at: int, x: T, k: K)
    ensures var g := GridOf(s.c, n, at);
      var ticked := TickAll(n.keys, g, at);
      var victim := Victim(ticked, s.maxKeys, s.key(x));
      var kept := CoreOf(NaiveKeyed.Without(ticked, victim), s.c.policy, k);
      Out(s, n, Item(at, x), k) == (TickOut(n.keys, g, at, k)
        + (if victim == Some(k) then OnFlush(ticked[k].core, g, at).out else []))
        + if s.key(x) == k then OnItem(kept, s.c.cap, g, at, x).out else []
  {
    hide TickAll, TickOut, Victim, OnFlush, OnItem, GridOrigin;
  }

  lemma SumOfParts<X>(a: seq<X>, b: seq<X>, c: seq<X>, d: seq<X>)
    ensures a + ((b + c) + d) == ((a + b) + c) + d
    ensures d == [] ==> ((a + b) + c) + d == (a + b) + c
  {}

  lemma {:induction false} RunShape<K, T>(s: Keyed<K, T>, es: seq<Event<T>>)
    ensures var n := NaiveRun(s, es); AllShaped(n.keys, s.c.policy) && (n.anchor.None? ==> n.keys.Keys == {})
  {
    if es != [] {
      var n, e := NaiveRun(s, es[..|es| - 1]), es[|es| - 1];
      RunShape(s, es[..|es| - 1]);
      TickedShape(n.keys, s.c.policy, GridOf(s.c, n, e.at), e.at);
      if e.Item? {
        var ticked := TickAll(n.keys, GridOf(s.c, n, e.at), e.at);
        var kept := NaiveKeyed.Without(ticked, Victim(ticked, s.maxKeys, s.key(e.x)));
        hide TickAll, Victim;
        ItemShape(CoreOf(kept, s.c.policy, s.key(e.x)), s.c.policy, s.c.cap, GridOf(s.c, n, e.at), e.at, e.x);
      }
    }
  }

  lemma ItemShape<T>(core: Core<T>, policy: Policy, cap: nat, g: Grid, now: int, item: T)
    requires Shaped(core, policy)
    ensures Shaped(OnItem(core, cap, g, now, item).core, policy)
  {}

  /** The stage of a key after a run. */
  ghost function StageOf<K, T>(s: Keyed<K, T>, es: seq<Event<T>>, k: K): Stage<T> {
    KeyStage(s.c, NaiveRun(s, es), k, Total(s, es, k))
  }

  lemma StageSteps<K, T>(s: Keyed<K, T>, es: seq<Event<T>>, k: K)
    requires es != []
    ensures var before, e := es[..|es| - 1], es[|es| - 1];
      StageOf(s, es, k) == KeyFeed(s, NaiveRun(s, before), e, k, StageOf(s, before, k))
  {
    RunShape(s, es[..|es| - 1]);
    NextAsFed(s, NaiveRun(s, es[..|es| - 1]), es[|es| - 1], k, Total(s, es[..|es| - 1], k));
  }

  // ---------------------------------------------------------------- nothing is lost, key by key

  lemma ArrivalsMore<T>(own: seq<Event<T>>, e: Event<T>)
    ensures Arrivals(own + [e]) == Arrivals(own) + if e.Item? then [e.x] else []
  {
    assert (own + [e])[..|own|] == own;
  }

  lemma EmptyIsNew<T>(st: Stage<T>, policy: Policy, arrived: seq<T>, cap: nat)
    requires Holds(st, arrived, cap) && IsEmpty(st.core) && !policy.Sliding?
    ensures Holds(st.(core := NewCore(policy)), arrived, cap)
  {}

  lemma ExpiredConserves<T>(c: Config, st: Stage<T>, at: int, arrived: seq<T>)
    requires Holds(st, arrived, c.cap) && st.anchor.Some? && !c.policy.Sliding?
    ensures Holds(Expired1(c, st, at), arrived, c.cap)
  {
    FeedConserves(c, st, Event.Tick(at), arrived);
    assert arrived + [] == arrived;
    if IsEmpty(Feed(c, st, Event.Tick(at)).core) { EmptyIsNew(Feed(c, st, Event.Tick(at)), c.policy, arrived, c.cap); }
    hide Feed, IsEmpty, IsDue, Holds;
  }

  lemma KeyFeedConserves<K, T>(s: Keyed<K, T>, n: Naive<K, T>, e: Event<T>, k: K, st: Stage<T>, arrived: seq<T>)
    requires Holds(st, arrived, s.c.cap) && !s.c.policy.Sliding?
    ensures Holds(KeyFeed(s, n, e, k, st), arrived + (if e.Item? && s.key(e.x) == k then [e.x] else []), s.c.cap)
  {
    assert arrived + [] == arrived;
    hide Feed, Expired1, Victim, TickAll, GridOf;
    match e
    case Tick(at) => if st.anchor.Some? { ExpiredConserves(s.c, st, at, arrived); }
    case Flush(at) => FeedConserves(s.c, st, e, arrived);
    case Item(at, x) =>
      var g := GridOf(s.c, n, at);
      var fixed := st.(anchor := Some(g.anchor));
      assert Holds(fixed, arrived, s.c.cap);
      hide Holds;
      ExpiredConserves(s.c, fixed, at, arrived);
      var expired := Expired1(s.c, fixed, at);
      FeedConserves(s.c, expired, Event.Flush(at), arrived);
      var kept := if Victim(TickAll(n.keys, g, at), s.maxKeys, s.key(x)) == Some(k)
        then Feed(s.c, expired, Event.Flush(at)) else expired;
      FeedConserves(s.c, kept, e, arrived);
  }

  /**
    For any clock, every policy but sliding, item cap and key limit: what has come out for a
    key, followed by what is buffered for it, is what it was fed, in order.
  */
  lemma {:induction false} KeyIsPartitioned<K, T>(s: Keyed<K, T>, es: seq<Event<T>>, k: K)
    requires !s.c.policy.Sliding?
    ensures Holds(StageOf(s, es, k), Arrivals(OwnEvents(s, es, k)), s.c.cap)
  {
    if es != [] {
      var before, e := es[..|es| - 1], es[|es| - 1];
      hide *;
      KeyIsPartitioned(s, before, k);
      StageSteps(s, es, k);
      OwnArrivals(s, es, k);
      KeyFeedConserves(s, NaiveRun(s, before), e, k, StageOf(s, before, k), Arrivals(OwnEvents(s, before, k)));
    }
  }

  lemma OwnArrivals<K, T>(s: Keyed<K, T>, es: seq<Event<T>>, k: K)
    requires es != []
    ensures var before, e := es[..|es| - 1], es[|es| - 1];
      Arrivals(OwnEvents(s, es, k))
        == Arrivals(OwnEvents(s, before, k)) + if e.Item? && s.key(e.x) == k then [e.x] else []
  {
    var own := OwnEvents(s, es[..|es| - 1], k);
    ArrivalsMore(own, es[|es| - 1]);
    hide Arrivals;
    assert own + [] == own && Arrivals(own) + [] == Arrivals(own);
  }

  lemma JoinersMore<T>(own: seq<Event<T>>, e: Event<T>, anchor: int, size: nat, slide: nat, j: nat)
    requires !e.Item?
    ensures Joiners(own + [e], anchor, size, slide, j) == Joiners(own, anchor, size, slide, j)
  {
    assert (own + [e])[..|own|] == own;
  }

  /** A step of the key's stage that is not an item of its own leaves it exact for the same events. */
  lemma QuietStepIsExact<T(!new)>(c: Config, st: Stage<T>, own: seq<Event<T>>, e: Event<T>, anchor: int, j: nat)
    requires ValidPolicy(c.policy) && c.policy.Sliding? && st.anchor == Some(anchor) && StageInv(c, st, e.at)
    requires e.at <= c.horizon && !e.Item? && Exact(c, st, own, anchor, j)
    ensures Exact(c, Feed(c, st, e), own, anchor, j) && StageInv(c, Feed(c, st, e), e.at)
    ensures Feed(c, st, e).anchor == Some(anchor)
  {
    FeedKeepsInv(c, st, e);
    StepIsExact(c, st, own, e, anchor, j);
    JoinersMore(own, e, anchor, c.policy.size, c.policy.slide, j);
    hide StageInv, Joiners, Pieces, OnTick, OnFlush;
  }

  lemma ReleasedIsExact<T(!new)>(c: Config, st: Stage<T>, own: seq<Event<T>>, anchor: int, j: nat, at: int)
    requires c.policy.Sliding? && Exact(c, st, own, anchor, j) && IsEmpty(st.core)
    requires st.anchor == Some(anchor) && StageInv(c, st, at)
    ensures var after := st.(core := NewCore(c.policy)); Exact(c, after, own, anchor, j) && StageInv(c, after, at)
  {
    NoItemsAt(st.core.slots, j);
  }

  lemma {:induction false} NoItemsAt<T>(slots: seq<Slot<T>>, j: nat)
    requires forall i :: 0 <= i < |slots| ==> |slots[i].items| == 0
    ensures ItemsAt(slots, j) == []
  {
    if slots != [] { NoItemsAt(slots[1..], j); }
  }

  lemma ExpiredIsExact<T(!new)>(c: Config, st: Stage<T>, own: seq<Event<T>>, anchor: int, j: nat, at: int)
    requires ValidPolicy(c.policy) && c.policy.Sliding? && st.anchor == Some(anchor) && StageInv(c, st, at)
    requires at <= c.horizon && Exact(c, st, own, anchor, j)
    ensures var after := Expired1(c, st, at);
      Exact(c, after, own, anchor, j) && StageInv(c, after, at) && after.anchor == Some(anchor)
  {
    hide Exact, StageInv, Feed, IsEmpty, IsDue;
    QuietStepIsExact(c, st, own, Event.Tick(at), anchor, j);
    var ticked := Feed(c, st, Event.Tick(at));
    if IsEmpty(ticked.core) { ReleasedIsExact(c, ticked, own, anchor, j, at); }
  }

  lemma KeyFeedIsExact<K, T(!new)>(
      s: Keyed<K, T>, n: Naive<K, T>, e: Event<T>, k: K, st: Stage<T>, own: seq<Event<T>>, anchor: int, j: nat)
    requires ValidPolicy(s.c.policy) && s.c.policy.Sliding? && st.anchor == Some(anchor) && StageInv(s.c, st, e.at)
    requires e.at <= s.c.horizon && Exact(s.c, st, own, anchor, j)
    requires e.Item? ==> GridOf(s.c, n, e.at).anchor == anchor
    ensures Exact(s.c, KeyFeed(s, n, e, k, st), own + (if e.Item? && s.key(e.x) != k then [] else [e]), anchor, j)
  {
    hide Exact, StageInv, Feed, Expired1, Victim, TickAll, GridOf;
    var c := s.c;
    assert own + [] == own;
    match e
    case Tick(at) =>
      ExpiredIsExact(c, st, own, anchor, j, at);
      ExactAfterQuiet(c, Expired1(c, st, at), own, e, anchor, j);
    case Flush(at) =>
      QuietStepIsExact(c, st, own, e, anchor, j);
      ExactAfterQuiet(c, Feed(c, st, e), own, e, anchor, j);
    case Item(at, x) =>
      var g := GridOf(s.c, n, at);
      assert st.(anchor := Some(g.anchor)) == st;
      ExpiredIsExact(c, st, own, anchor, j, at);
      var expired := Expired1(c, st, at);
      QuietStepIsExact(c, expired, own, Event.Flush(at), anchor, j);
      var kept := if Victim(TickAll(n.keys, g, at), s.maxKeys, s.key(x)) == Some(k)
        then Feed(c, expired, Event.Flush(at)) else expired;
      if s.key(x) == k { StepIsExact(c, kept, own, e, anchor, j); }
  }

  lemma ExactAfterQuiet<T>(c: Config, st: Stage<T>, own: seq<Event<T>>, e: Event<T>, anchor: int, j: nat)
    requires Exact(c, st, own, anchor, j) && !e.Item?
    ensures Exact(c, st, own + [e], anchor, j)
  {
    JoinersMore(own, e, anchor, c.policy.size, c.policy.slide, j);
  }

  /** Until the first item of any key there is nothing. */
  lemma {:induction false} NothingFed<K, T>(s: Keyed<K, T>, es: seq<Event<T>>, k: K, anchor: int, j: nat)
    requires NaiveRun(s, es).anchor.None? && s.c.policy.Sliding?
    ensures StageOf(s, es, k) == Start(s.c)
    ensures Joiners(OwnEvents(s, es, k), anchor, s.c.policy.size, s.c.policy.slide, j) == []
  {
    NothingBeforeFirstItem(s, es, anchor, k);
    if es != [] {
      var before, e := es[..|es| - 1], es[|es| - 1];
      NothingFed(s, before, k, anchor, j);
      assert !e.Item?;
      JoinersMore(OwnEvents(s, before, k), e, anchor, s.c.policy.size, s.c.policy.slide, j);
    }
  }

  /**
    With a monotone clock, over any run: for every window the pieces that have come out for a
    key, followed by what is buffered for it, are the items of the key that arrived in it.
  */
  lemma {:induction false} KeyIsExact<K, T(!new)>(s: Keyed<K, T>, es: seq<Event<T>>, k: K, anchor: int, j: nat)
    requires ValidPolicy(s.c.policy) && s.c.policy.Sliding? && Monotone(es, s.c)
    requires NaiveRun(s, es).anchor == Some(anchor)
    ensures Exact(s.c, StageOf(s, es, k), OwnEvents(s, es, k), anchor, j)
  {
    var before, e := es[..|es| - 1], es[|es| - 1];
    var n, own := NaiveRun(s, before), OwnEvents(s, before, k);
    NaiveRunKeepsInv(s, before, e.at);
    KeyStageInv(s.c, n, k, Total(s, before, k), e.at);
    StageSteps(s, es, k);
    if n.anchor.Some? {
      KeyIsExact(s, before, k, anchor, j);
      KeyFeedIsExact(s, n, e, k, StageOf(s, before, k), own, anchor, j);
    } else {
      FirstIsExact(s, before, e, k, anchor, j);
    }
  }

  lemma FirstIsExact<K, T(!new)>(s: Keyed<K, T>, before: seq<Event<T>>, e: Event<T>, k: K, anchor: int, j: nat)
    requires ValidPolicy(s.c.policy) && s.c.policy.Sliding? && e.at <= s.c.horizon
    requires NaiveRun(s, before).anchor.None? && Next(s, NaiveRun(s, before), e).anchor == Some(anchor)
    ensures Exact(s.c, KeyFeed(s, NaiveRun(s, before), e, k, StageOf(s, before, k)),
      OwnEvents(s, before, k) + (if e.Item? && s.key(e.x) != k then [] else [e]), anchor, j)
  {
    var n, own, fixed := NaiveRun(s, before), OwnEvents(s, before, k), Start<T>(s.c).(anchor := Some(anchor));
    NothingFed(s, before, k, anchor, j);
    OriginIsBefore(s.c, e.at);
    assert e.Item? && GridOf(s.c, n, e.at).anchor == anchor;
    assert Exact(s.c, fixed, own, anchor, j) && StageInv(s.c, fixed, e.at);
    hide Exact, StageInv, Feed, Expired1, Victim, TickAll, StageOf;
    KeyFeedIsExact(s, n, e, k, fixed, own, anchor, j);
    assert KeyFeed(s, n, e, k, fixed) == KeyFeed(s, n, e, k, Start(s.c));
  }

  // ---------------------------------------------------------------- who is held

  /** A core from which everything has come out buffers nothing, and the other way round. */
  lemma NothingBuffered<T>(core: Core<T>, size: nat, slide: nat, g: Grid, t: int)
    requires core.SlidingCore? && SlotsInv(core.slots, size, slide, g, t)
    ensures HoldsNothing(core) <==> forall j: nat :: ItemsAt(core.slots, j) == []
  {
    if HoldsNothing(core) {
      forall j: nat ensures ItemsAt(core.slots, j) == [] {
        NoItemsAt(core.slots, j);
      }
    } else {
      var i :| 0 <= i < |core.slots| && core.slots[i].items != [];
      ItemsAtSlot(core.slots, i);
      assert ItemsAt(core.slots, core.slots[i].k) != [];
    }
  }

  lemma {:induction false} ItemsAtSlot<T>(slots: seq<Slot<T>>, i: nat)
    requires Sorted(slots) && i < |slots|
    ensures ItemsAt(slots, slots[i].k) == slots[i].items
  {
    if i == 0 {
      NoneAt(slots[1..], slots[0].k);
      assert slots[0].items + [] == slots[0].items;
    } else {
      assert slots[1..][i - 1] == slots[i];
      ItemsAtSlot(slots[1..], i - 1);
      assert [] + slots[i].items == slots[i].items;
    }
  }

  /** Everything a key was fed has come out if and only if nothing is buffered for it. */
  lemma {:induction false} AllOutMeans<K, T(!new)>(s: Keyed<K, T>, es: seq<Event<T>>, k: K, t: int)
    requires ValidPolicy(s.c.policy) && Monotone(es, s.c) && EndsBy(es, t)
    ensures AllOut(s, es, k) <==> k !in NaiveRun(s, es).keys || HoldsNothing(NaiveRun(s, es).keys[k].core)
  {
    var n := NaiveRun(s, es);
    NaiveRunKeepsInv(s, es, t);
    FirstItemFixesKeyedAnchor(s, es);
    RunShape(s, es);
    hide NaiveRun, Total, OwnEvents, NaiveInv, HoldsNothing, GridStart, AllOut, AllShaped;
    if !s.c.policy.Sliding? {
      PartAllOut(s, es, k);
    } else if n.anchor.Some? {
      SlidingAllOut(s, es, k, t, n.anchor.value);
    } else {
      NothingYetOut(s, es, k);
    }
  }

  lemma NothingYetOut<K, T>(s: Keyed<K, T>, es: seq<Event<T>>, k: K)
    requires ValidPolicy(s.c.policy) && s.c.policy.Sliding? && FirstItem(es).None?
    ensures AllOut(s, es, k)
  {}

  lemma PartAllOut<K, T>(s: Keyed<K, T>, es: seq<Event<T>>, k: K)
    requires ValidPolicy(s.c.policy) && !s.c.policy.Sliding?
    ensures AllOut(s, es, k) <==> k !in NaiveRun(s, es).keys || HoldsNothing(NaiveRun(s, es).keys[k].core)
  {
    KeyIsPartitioned(s, es, k);
    hide NaiveRun, Total, OwnEvents, ItemsOf, Arrivals, Sized;
    var st := StageOf(s, es, k);
    assert ItemsOf(st.out) + [] == ItemsOf(st.out);
    assert |ItemsOf(st.out) + Buffered(st.core)| == |ItemsOf(st.out)| + |Buffered(st.core)|;
  }

  lemma SlidingAllOut<K, T(!new)>(s: Keyed<K, T>, es: seq<Event<T>>, k: K, t: int, anchor: int)
    requires ValidPolicy(s.c.policy) && s.c.policy.Sliding? && Monotone(es, s.c)
    requires NaiveInv(s.c, NaiveRun(s, es), t) && NaiveRun(s, es).anchor == Some(anchor)
    requires FirstItem(es).Some? && GridStart(s.c, FirstItem(es).value) == anchor
    ensures AllOut(s, es, k) <==> k !in NaiveRun(s, es).keys || HoldsNothing(NaiveRun(s, es).keys[k].core)
  {
    var n, st := NaiveRun(s, es), StageOf(s, es, k);
    hide *;
    StageOfKey(s, es, k);
    KeyStageInv(s.c, n, k, Total(s, es, k), t);
    SlidingStage(s.c, st, t);
    NewHoldsNothing<T>(s.c.policy);
    NothingBuffered(st.core, s.c.policy.size, s.c.policy.slide, Grid(anchor, s.c.horizon), t);
    forall j: nat
      ensures WindowOut(s.c, st.out, OwnEvents(s, es, k), anchor, j) <==> ItemsAt(st.core.slots, j) == []
    {
      KeyIsExact(s, es, k, anchor, j);
      ExactMeans(s.c, st, OwnEvents(s, es, k), anchor, j);
    }
    AllOutIs(s, es, k);
    AllOutByWindow(s.c, FirstItem(es).value, st.out, OwnEvents(s, es, k));
    assert FirstItem(es) == Some(FirstItem(es).value);
    assert st.out == Total(s, es, k) && st.anchor == Some(anchor);
    assert HoldsNothing(st.core) <==> forall j: nat :: ItemsAt(st.core.slots, j) == [];
    assert AllOut(s, es, k)
      <==> forall j: nat :: WindowOut(s.c, st.out, OwnEvents(s, es, k), anchor, j);
  }

  lemma StageOfKey<K, T>(s: Keyed<K, T>, es: seq<Event<T>>, k: K)
    ensures var n := NaiveRun(s, es);
      && StageOf(s, es, k) == KeyStage(s.c, n, k, Total(s, es, k))
      && StageOf(s, es, k)
         == Stage(n.anchor, if k in n.keys then n.keys[k].core else NewCore(s.c.policy), Total(s, es, k))
  {}

  lemma AllOutByWindow<T>(c: Config, first: int, out: seq<Window<T>>, own: seq<Event<T>>)
    requires ValidPolicy(c.policy) && c.policy.Sliding?
    ensures Complete(c, Some(first), out, own) <==> forall j: nat :: WindowOut(c, out, own, GridStart(c, first), j)
  {
    hide WindowOut;
  }

  lemma AllOutIs<K, T>(s: Keyed<K, T>, es: seq<Event<T>>, k: K)
    requires ValidPolicy(s.c.policy)
    ensures AllOut(s, es, k) == Complete(s.c, FirstItem(es), Total(s, es, k), OwnEvents(s, es, k))
  {
    hide Complete;
  }

  lemma SlidingStage<T>(c: Config, st: Stage<T>, t: int)
    requires c.policy.Sliding? && st.anchor.Some? && StageInv(c, st, t)
    ensures st.core.SlidingCore?
    ensures SlotsInv(st.core.slots, c.policy.size, c.policy.slide, Grid(st.anchor.value, c.horizon), t)
  {}

  lemma NewHoldsNothing<T>(policy: Policy)
    ensures HoldsNothing(NewCore<T>(policy))
  {}

  lemma ExactMeans<T>(c: Config, st: Stage<T>, own: seq<Event<T>>, anchor: int, j: nat)
    requires Exact(c, st, own, anchor, j)
    ensures WindowOut(c, st.out, own, anchor, j) <==> ItemsAt(st.core.slots, j) == []
  {
    hide Pieces, Joiners, ItemsAt, GridPoint;
    var out := Pieces(st.out, GridPoint(Grid(anchor, c.horizon), c.policy.slide, j));
    assert out + [] == out;
    assert |out + ItemsAt(st.core.slots, j)| == |out| + |ItemsAt(st.core.slots, j)|;
  }

  lemma EmptyMeans<T>(core: Core<T>)
    ensures IsEmpty(core) <==> HoldsNothing(core)
  {}

  lemma KeyAfter<K, T>(s: Keyed<K, T>, n: Naive<K, T>, e: Event<T>, k: K)
    requires k in n.keys && IsDue(n.keys[k].core, s.c.horizon, e.at) && n.anchor.Some?
    requires !(e.Item? && s.key(e.x) == k) && k in Next(s, n, e).keys
    ensures !IsEmpty(Next(s, n, e).keys[k].core)
    ensures Next(s, n, e).keys[k].core == OnTick(n.keys[k].core, Grid(n.anchor.value, s.c.horizon), e.at).core
  {
    hide OnTick, OnItem, IsEmpty, IsDue, Victim;
  }

  /**
    Exactly the keys that hold something stay: with a monotone clock, a key that is due at an
    event, unless it is an item of its own, is held afterwards if and only if something it was fed
    has not come out.
  */
  lemma {:induction false} HeldExactlyWhen<K, T(!new)>(s: Keyed<K, T>, es: seq<Event<T>>, e: Event<T>, k: K)
    requires ValidPolicy(s.c.policy) && Monotone(es + [e], s.c)
    requires k in NaiveRun(s, es).keys && IsDue(NaiveRun(s, es).keys[k].core, s.c.horizon, e.at)
    requires !(e.Item? && s.key(e.x) == k)
    ensures k in NaiveRun(s, es + [e]).keys <==> !AllOut(s, es + [e], k)
  {
    var run := es + [e];
    assert run[..|es|] == es;
    RunShape(s, es);
    AllOutMeans(s, run, k, e.at);
    hide NaiveInv, AllOut, AllShaped, IsDue, OnTick;
    if k in NaiveRun(s, run).keys {
      assert NaiveRun(s, run) == Next(s, NaiveRun(s, es), e);
      hide Next;
      KeyAfter(s, NaiveRun(s, es), e, k);
      EmptyMeans(NaiveRun(s, run).keys[k].core);
    }
  }

  /**
    Who is held after a tick: the keys held before it, but those that are due and of which
    everything has come out.
  */
  lemma {:induction false} HeldAfterTick<K, T(!new)>(s: Keyed<K, T>, es: seq<Event<T>>, t: int, k: K)
    requires ValidPolicy(s.c.policy) && Monotone(es + [Event<T>.Tick(t)], s.c)
    ensures k in NaiveRun(s, es + [Event<T>.Tick(t)]).keys <==>
      && k in NaiveRun(s, es).keys
      && (IsDue(NaiveRun(s, es).keys[k].core, s.c.horizon, t) ==> !AllOut(s, es + [Event<T>.Tick(t)], k))
  {
    var run := es + [Event<T>.Tick(t)];
    assert run[..|es|] == es;
    RunShape(s, es);
    if k in NaiveRun(s, es).keys && IsDue(NaiveRun(s, es).keys[k].core, s.c.horizon, t) {
      HeldExactlyWhen(s, es, Event<T>.Tick(t), k);
    }
    hide AllOut, IsDue, OnTick, IsEmpty, AllShaped;
  }

  lemma DueHoldsNothing<T>(core: Core<T>, policy: Policy, g: Grid, now: int)
    requires ValidPolicy(policy) && Reached(g, now) && CoreInv(core, policy, g, now) && IsDue(core, g.horizon, now)
    requires !policy.Sliding?
    ensures IsEmpty(OnTick(core, g, now).core)
  {}

  /** So no tumbling or session key is held after a tick at which it was due. */
  lemma {:induction false} NoneStaysDue<K, T(!new)>(s: Keyed<K, T>, es: seq<Event<T>>, t: int, k: K)
    requires ValidPolicy(s.c.policy) && !s.c.policy.Sliding? && Monotone(es + [Event<T>.Tick(t)], s.c)
    requires k in NaiveRun(s, es).keys && IsDue(NaiveRun(s, es).keys[k].core, s.c.horizon, t)
    ensures k !in NaiveRun(s, es + [Event<T>.Tick(t)]).keys && AllOut(s, es + [Event<T>.Tick(t)], k)
  {
    var run, n := es + [Event<T>.Tick(t)], NaiveRun(s, es);
    assert run[..|es|] == es;
    assert forall i :: 0 <= i < |es| ==> run[i] == es[i] && run[i].at <= run[|es|].at;
    NaiveRunKeepsInv(s, es, t);
    DueHoldsNothing(n.keys[k].core, s.c.policy, Grid(n.anchor.value, s.c.horizon), t);
    HeldExactlyWhen(s, es, Event<T>.Tick(t), k);
    hide AllOut, IsDue, OnTick, IsEmpty, NaiveInv;
  }
}
