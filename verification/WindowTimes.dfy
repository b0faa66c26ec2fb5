/**
  When windows come out, and which interval they report: of an unkeyed stage over a whole run,
  for all three kinds, with a clock that does not go back. Nothing comes out early: before the
  end of the stream a window is full or over.
*/
module WindowTimes {
  import opened Options
  import opened WindowCore
  import opened WindowGrid
  import opened WindowLaws
  import opened WindowRuns

  /** Where the window lies: a cell, an interval of the sliding grid, or from one item to another. */
  ghost predicate InPlace<T>(w: Window<T>, policy: Policy, g: Grid, now: int) {
    match policy
    case Tumbling(size) => OnGrid(g, size, w.start) && w.end == EndOf(w.start, size, g, now)
    case Sliding(size, slide) => OnGrid(g, slide, w.start) && w.end == EndOf(w.start, size, g, now)
    case Session(_) => g.anchor <= w.start <= w.end <= now
  }

  /** `size` after the start, or, if that instant is not representable, the time of emission. */
  function EndOf(start: int, size: nat, g: Grid, now: int): int {
    if start + size <= g.horizon then start + size else now
  }

  /** No item that arrives from now on can belong to it. */
  predicate IsOver<T>(w: Window<T>, policy: Policy, now: int) {
    match policy
    case Tumbling(size) => w.start + size <= now
    case Sliding(size, _) => w.start + size <= now
    case Session(idle) => now - w.end > idle
  }

  /** A window that an operation at `now` emits: in its place, of the right size, and full, over, or the last. */
  ghost predicate IsTimely<T>(w: Window<T>, policy: Policy, cap: nat, g: Grid, now: int, last: bool) {
    && InPlace(w, policy, g, now)
    && 1 <= |w.items| <= Max(cap, 1)
    && (last || |w.items| == Max(cap, 1) || IsOver(w, policy, now))
  }

  ghost predicate AllTimely<T>(out: seq<Window<T>>, policy: Policy, cap: nat, g: Grid, now: int, last: bool) {
    forall i :: 0 <= i < |out| ==> IsTimely(out[i], policy, cap, g, now, last)
  }

  /** Fewer items are buffered for each window than fill it. */
  predicate Unfilled<T>(core: Core<T>, cap: nat) {
    match core
    case TumblingCore(_, _, items) => |items| < Max(cap, 1)
    case SessionCore(_, _, _, items) => |items| < Max(cap, 1)
    case SlidingCore(_, _, slots) => forall i :: 0 <= i < |slots| ==> |slots[i].items| < Max(cap, 1)
  }

  // ---------------------------------------------------------------- sliding windows

  ghost predicate SlotsFit<T>(slots: seq<Slot<T>>, size: nat, slide: nat, g: Grid, t: int, cap: nat) {
    forall i :: 0 <= i < |slots| ==> SlotFits(slots[i], size, slide, g, t, cap)
  }

  ghost predicate SlotFits<T>(slot: Slot<T>, size: nat, slide: nat, g: Grid, t: int, cap: nat) {
    SlotOk(slot, size, slide, g) && slot.start <= t && |slot.items| < Max(cap, 1)
  }

  lemma SlotIsOnGrid<T>(slot: Slot<T>, size: nat, slide: nat, g: Grid)
    requires 0 < slide && SlotOk(slot, size, slide, g)
    ensures OnGrid(g, slide, slot.start)
  {
    MulMonotone(1, slide, slot.k);
    assert slot.start == GridPoint(g, slide, slot.k) == g.anchor + slot.k * slide;
    assert slot.k <= slot.k * slide;
  }

  lemma AllTimelyTwice<T>(
      a: seq<Window<T>>, b: seq<Window<T>>, policy: Policy, cap: nat, g: Grid, now: int, last: bool)
    requires AllTimely(a, policy, cap, g, now, last) && AllTimely(b, policy, cap, g, now, last)
    ensures AllTimely(a + b, policy, cap, g, now, last)
  {}

  lemma SlotIsTimely<T>(
      slot: Slot<T>, policy: Policy, cap: nat, g: Grid, now: int, fallback: int, last: bool)
    requires policy.Sliding? && 0 < policy.slide && SlotFits(slot, policy.size, policy.slide, g, now, cap)
    requires slot.end.Some? || fallback == now
    requires last || slot.start + policy.size <= now
    ensures AllTimely(NonEmpty(slot.items, slot.start, slot.end.GetOr(fallback)), policy, cap, g, now, last)
  {
    SlotIsOnGrid(slot, policy.size, policy.slide, g);
  }

  lemma {:induction false} EmitIsTimely<T>(slots: seq<Slot<T>>, policy: Policy, cap: nat, g: Grid, now: int)
    requires policy.Sliding? && 0 < policy.slide && Reached(g, now)
    requires SlotsFit(slots, policy.size, policy.slide, g, now, cap)
    ensures AllTimely(EmitBefore(slots, KMin(g, now, policy.size, policy.slide)), policy, cap, g, now, false)
    ensures SlotsFit(DropBefore(slots, KMin(g, now, policy.size, policy.slide)), policy.size, policy.slide, g, now, cap)
  {
    var kMin := KMin(g, now, policy.size, policy.slide);
    if slots != [] && slots[0].k < kMin {
      assert SlotFits(slots[0], policy.size, policy.slide, g, now, cap);
      DueSlots(g, now, policy.size, policy.slide, slots[0].k);
      EmitIsTimely(slots[1..], policy, cap, g, now);
      SlotIsTimely(slots[0], policy, cap, g, now, slots[0].start, false);
      hide AllTimely, GridPoint, SlotFits, KMin;
      AllTimelyTwice(NonEmpty(slots[0].items, slots[0].start, slots[0].end.GetOr(slots[0].start)),
        EmitBefore(slots[1..], kMin), policy, cap, g, now, false);
    }
  }

  lemma {:induction false} FlushIsTimely<T>(slots: seq<Slot<T>>, policy: Policy, cap: nat, g: Grid, now: int)
    requires policy.Sliding? && 0 < policy.slide && SlotsFit(slots, policy.size, policy.slide, g, now, cap)
    ensures AllTimely(FlushSlots(slots, now), policy, cap, g, now, true)
  {
    if slots != [] {
      assert SlotFits(slots[0], policy.size, policy.slide, g, now, cap);
      FlushIsTimely(slots[1..], policy, cap, g, now);
      SlotIsTimely(slots[0], policy, cap, g, now, now, true);
      hide AllTimely, SlotFits;
      AllTimelyTwice(NonEmpty(slots[0].items, slots[0].start, slots[0].end.GetOr(now)), FlushSlots(slots[1..], now),
        policy, cap, g, now, true);
    }
  }

  /** The item joins the slot; if that fills it, its items come out. */
  lemma PushIsTimely<T>(a: Arrival<T>, slot: Slot<T>, policy: Policy, g: Grid)
    requires policy.Sliding? && 0 < policy.slide && SlotFits(slot, policy.size, policy.slide, g, a.now, a.cap)
    ensures AllTimely(PushedOut(a, slot), policy, a.cap, g, a.now, false)
    ensures SlotFits(Pushed(a, slot), policy.size, policy.slide, g, a.now, a.cap)
  {
    SlotIsOnGrid(slot, policy.size, policy.slide, g);
  }

  lemma {:induction false} PlaceOneIsTimely<T>(slots: seq<Slot<T>>, k: nat, a: Arrival<T>, policy: Policy, g: Grid)
    requires policy.Sliding? && 0 < policy.slide && SlotsFit(slots, policy.size, policy.slide, g, a.now, a.cap)
    requires SlotFits(a.create(k), policy.size, policy.slide, g, a.now, a.cap)
    ensures AllTimely(PlaceOne(slots, k, a).out, policy, a.cap, g, a.now, false)
    ensures SlotsFit(PlaceOne(slots, k, a).slots, policy.size, policy.slide, g, a.now, a.cap)
  {
    hide SlotFits, AllTimely;
    if slots == [] || k < slots[0].k {
      PushIsTimely(a, a.create(k), policy, g);
    } else if slots[0].k == k {
      PushIsTimely(a, slots[0], policy, g);
    } else {
      PlaceOneIsTimely(slots[1..], k, a, policy, g);
    }
  }

  lemma {:induction false} PlaceIsTimely<T>(
      slots: seq<Slot<T>>, k: nat, kMax: nat, a: Arrival<T>, policy: Policy, g: Grid)
    requires policy.Sliding? && 0 < policy.slide && SlotsFit(slots, policy.size, policy.slide, g, a.now, a.cap)
    requires forall j: nat :: k <= j <= kMax ==> SlotFits(a.create(j), policy.size, policy.slide, g, a.now, a.cap)
    ensures AllTimely(Place(slots, k, kMax, a).out, policy, a.cap, g, a.now, false)
    ensures SlotsFit(Place(slots, k, kMax, a).slots, policy.size, policy.slide, g, a.now, a.cap)
    decreases if k <= kMax then kMax + 1 - k else 0
  {
    if k <= kMax {
      hide SlotFits, IsTimely, PlaceOne, SlotsFit;
      var one := PlaceOne(slots, k, a);
      PlaceOneIsTimely(slots, k, a, policy, g);
      PlaceIsTimely(one.slots, k + 1, kMax, a, policy, g);
      AllTimelyTwice(one.out, Place(one.slots, k + 1, kMax, a).out, policy, a.cap, g, a.now, false);
    }
  }

  lemma SlidingItemIsTimely<T>(core: Core<T>, policy: Policy, cap: nat, g: Grid, now: int, item: T)
    requires policy.Sliding? && ValidPolicy(policy) && Reached(g, now) && core.SlidingCore? && Shaped(core, policy)
    requires SlotsFit(core.slots, policy.size, policy.slide, g, now, cap)
    ensures AllTimely(SlidingItem(core, cap, g, now, item).out, policy, cap, g, now, false)
    ensures SlotsFit(SlidingItem(core, cap, g, now, item).core.slots, policy.size, policy.slide, g, now, cap)
  {
    var size, slide := core.size, core.slide;
    var kMin, kMax := KMin(g, now, size, slide), KMax(g, now, slide);
    var a := Arrival(cap, now, item, FreshSlots(size, slide, g, now));
    EmitIsTimely(core.slots, policy, cap, g, now);
    forall j: nat | kMin <= j <= kMax ensures SlotFits(a.create(j), size, slide, g, now, cap) {
      FreshIsOnGrid<T>(size, slide, g, now, j);
    }
    hide SlotFits, SlotsFit, AllTimely, KMin, KMax;
    var open := DropBefore(core.slots, kMin);
    PlaceIsTimely(open, kMin, kMax, a, policy, g);
    AllTimelyTwice(EmitBefore(core.slots, kMin), Place(open, kMin, kMax, a).out, policy, cap, g, now, false);
  }

  // ---------------------------------------------------------------- the three operations

  ghost predicate Sound<T>(core: Core<T>, policy: Policy, cap: nat, g: Grid, t: int) {
    CoreInv(core, policy, g, t) && Unfilled(core, cap)
  }

  /** What an operation at `now` comes to. */
  ghost predicate StepIsTimely<T>(step: Step<T>, policy: Policy, cap: nat, g: Grid, now: int, last: bool) {
    AllTimely(step.out, policy, cap, g, now, last) && Unfilled(step.core, cap)
  }

  lemma SoundSlots<T>(core: Core<T>, policy: Policy, cap: nat, g: Grid, t: int)
    requires policy.Sliding? && Sound(core, policy, cap, g, t)
    ensures core.SlidingCore? && Shaped(core, policy) && SlotsFit(core.slots, policy.size, policy.slide, g, t, cap)
  {}

  lemma FitIsUnfilled<T>(core: Core<T>, size: nat, slide: nat, g: Grid, t: int, cap: nat)
    requires core.SlidingCore? && SlotsFit(core.slots, size, slide, g, t, cap)
    ensures Unfilled(core, cap)
  {}

  lemma ItemIsTimely<T>(core: Core<T>, policy: Policy, cap: nat, g: Grid, now: int, item: T)
    requires ValidPolicy(policy) && Reached(g, now) && Sound(core, policy, cap, g, now)
    ensures StepIsTimely(OnItem(core, cap, g, now, item), policy, cap, g, now, false)
  {
    if policy.Sliding? {
      hide CoreInv, SlotsFit, AllTimely, SlidingItem, Sound, Unfilled;
      SoundSlots(core, policy, cap, g, now);
      SlidingItemIsTimely(core, policy, cap, g, now, item);
      FitIsUnfilled(SlidingItem(core, cap, g, now, item).core, policy.size, policy.slide, g, now, cap);
    } else if policy.Tumbling? {
      AlignFindsGridPoint(g, now, policy.size);
      hide Align, OnGrid;
    }
  }

  lemma TickIsTimely<T>(core: Core<T>, policy: Policy, cap: nat, g: Grid, now: int)
    requires ValidPolicy(policy) && Reached(g, now) && Sound(core, policy, cap, g, now)
    ensures StepIsTimely(OnTick(core, g, now), policy, cap, g, now, false)
  {
    if policy.Sliding? {
      SoundSlots(core, policy, cap, g, now);
      EmitIsTimely(core.slots, policy, cap, g, now);
      hide CoreInv, SlotsFit, AllTimely, Unfilled, KMin;
      FitIsUnfilled(OnTick(core, g, now).core, policy.size, policy.slide, g, now, cap);
    } else {
      hide Align, OnGrid;
    }
  }

  lemma FlushedIsTimely<T>(core: Core<T>, policy: Policy, cap: nat, g: Grid, now: int)
    requires ValidPolicy(policy) && Sound(core, policy, cap, g, now)
    ensures StepIsTimely(OnFlush(core, g, now), policy, cap, g, now, true)
  {
    if policy.Sliding? {
      SoundSlots(core, policy, cap, g, now);
      FlushIsTimely(core.slots, policy, cap, g, now);
    } else {
      hide OnGrid;
    }
  }

  // ---------------------------------------------------------------- whole runs

  lemma {:induction false} RunIsUnfilled<T(!new)>(c: Config, es: seq<Event<T>>, t: int)
    requires ValidPolicy(c.policy) && Monotone(es, c) && EndsBy(es, t)
    ensures Unfilled(Run(c, es).core, c.cap) && (Run(c, es).anchor.None? ==> Run(c, es) == Start(c))
  {
    if es != [] {
      var before, e := es[..|es| - 1], es[|es| - 1];
      RunIsUnfilled(c, before, e.at);
      RunKeepsInv(c, before, e.at);
      FeedIsTimely(c, Run(c, before), e);
    }
  }

  /** The windows an event emits. */
  function EmittedBy<T>(c: Config, s: Stage<T>, e: Event<T>): seq<Window<T>> {
    match e
    case Item(at, x) =>
      OnItem(s.core, c.cap, Grid(s.anchor.GetOr(GridOrigin(c.policy, at, c.lowest)), c.horizon), at, x).out
    case Tick(at) => if s.anchor.None? then [] else OnTick(s.core, Grid(s.anchor.value, c.horizon), at).out
    case Flush(at) => OnFlush(s.core, Grid(s.anchor.GetOr(at), c.horizon), at).out
  }

  lemma FeedIsTimely<T(!new)>(c: Config, s: Stage<T>, e: Event<T>)
    requires ValidPolicy(c.policy) && StageInv(c, s, e.at) && e.at <= c.horizon && Unfilled(s.core, c.cap)
    requires s.anchor.None? ==> s == Start(c)
    ensures var after := Feed(c, s, e);
      && after.out == s.out + EmittedBy(c, s, e) && Unfilled(after.core, c.cap)
      && (after.anchor.None? ==> after == Start(c))
      && (after.anchor.Some? ==>
            AllTimely(EmittedBy(c, s, e), c.policy, c.cap, Grid(after.anchor.value, c.horizon), e.at, e.Flush?))
  {
    OriginIsBefore(c, e.at);
    var g := Grid(s.anchor.GetOr(GridOrigin(c.policy, e.at, c.lowest)), c.horizon);
    NewIsSound<T>(c.policy, c.cap, g, e.at);
    hide OnItem, OnTick, OnFlush, CoreInv, AllTimely, Unfilled, GridOrigin;
    assert s.out + [] == s.out;
    match e
    case Item(at, x) => ItemIsTimely(s.core, c.policy, c.cap, g, at, x);
    case Tick(at) => if s.anchor.Some? { TickIsTimely(s.core, c.policy, c.cap, g, at); }
    case Flush(at) =>
      if s.anchor.Some? {
        FlushedIsTimely(s.core, c.policy, c.cap, g, at);
      } else {
        NewFlushesNothing<T>(c.policy, Grid(at, c.horizon), at);
      }
  }

  lemma NewIsSound<T>(policy: Policy, cap: nat, g: Grid, t: int)
    ensures Sound(NewCore<T>(policy), policy, cap, g, t)
  {}

  /**
    With a monotone clock, over any run: every window an event emits lies on the grid the first
    item fixes and reports its interval (a session: from its first to its last item), holds
    between one item and the cap, and is full or over, unless the event is a flush.
  */
  lemma {:induction false} WindowsAreTimely<T(!new)>(c: Config, es: seq<Event<T>>, e: Event<T>)
    requires ValidPolicy(c.policy) && Monotone(es + [e], c)
    ensures Run(c, es).out <= Run(c, es + [e]).out
    ensures match FirstItem(es + [e])
      case None => Run(c, es + [e]).out == []
      case Some(first) =>
        AllTimely(Run(c, es + [e]).out[|Run(c, es).out|..], c.policy, c.cap, Grid(GridStart(c, first), c.horizon), e.at,
                  e.Flush?)
  {
    var run := es + [e];
    assert forall i :: 0 <= i < |es| ==> run[i] == es[i] && run[i].at <= run[|es|].at;
    assert run[|es|] == e;
    RunIsUnfilled(c, es, e.at);
    RunKeepsInv(c, es, e.at);
    RunExtends(c, es, e);
    FirstItemFixesAnchor(c, run);
    hide Run, FirstItem, GridStart, StageInv, Unfilled, AllTimely, EmittedBy, Feed;
    FeedIsTimely(c, Run(c, es), e);
    assert Run(c, run).out[|Run(c, es).out|..] == EmittedBy(c, Run(c, es), e);
  }
}
