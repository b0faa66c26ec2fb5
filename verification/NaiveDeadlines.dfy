/**
  Deadlines in the reference for keyed windows: while the clock does not go back, a key that
  gets an item is due no earlier than any other key. For tumbling and sliding windows all
  keys that are not due yet are due together; sessions end in the order of their last items.
*/
module NaiveDeadlines {
  import opened Options
  import opened WindowCore
  import opened WindowGrid
  import opened WindowLaws
  import opened NaiveKeyed

  /** The deadline of a key that gets an item at `t`. */
  function FreshDeadline(policy: Policy, g: Grid, t: int): Option<int> {
    match policy
    case Tumbling(size) => CheckedAdd(Align(g, t, size), size, g.horizon)
    case Sliding(size, slide) => CheckedAdd(GridPoint(g, slide, KMin(g, t, size, slide)), size, g.horizon)
    case Session(idle) => if CheckedAdd(t, idle, g.horizon).Some? then CheckedAdd(t + idle, 1, g.horizon) else None
  }

  /** `a` is not later than `b`, as far as both exist. */
  predicate NotAfter(a: Option<int>, b: Option<int>) { a.Some? && b.Some? ==> a.value <= b.value }

  predicate Consecutive<T>(slots: seq<Slot<T>>, k: int) {
    forall j :: 0 <= j < |slots| ==> slots[j].k == k + j
  }

  /** The slots of a sliding core are consecutive, and the first one not after the first open window. */
  predicate Steady<T>(core: Core<T>, g: Grid, t: int) {
    core.SlidingCore? && core.slots != [] ==>
      core.slots[0].k <= KMin(g, t, core.size, core.slide) && Consecutive(core.slots, core.slots[0].k)
  }

  /** Sessions whose keys got their last item earlier have an earlier last item. */
  predicate SessionsInOrder<K(==), T>(keys: map<K, Held<T>>) {
    forall k, l :: k in keys && l in keys && keys[k].touched < keys[l].touched ==>
      LastInOrder(keys[k].core, keys[l].core)
  }

  predicate LastInOrder<T>(a: Core<T>, b: Core<T>) {
    a.SessionCore? && b.SessionCore? && a.last.Some? && b.last.Some? ==> a.last.value <= b.last.value
  }

  predicate KeysSteady<K(==), T>(keys: map<K, Held<T>>, g: Grid, t: int) {
    (forall k :: k in keys ==> Steady(keys[k].core, g, t)) && SessionsInOrder(keys)
  }

  // ---------------------------------------------------------------- fresh deadlines only move forward

  lemma FreshLater(policy: Policy, g: Grid, t: int, u: int)
    requires ValidPolicy(policy) && Reached(g, t) && Reached(g, u) && t <= u
    ensures NotAfter(FreshDeadline(policy, g, t), FreshDeadline(policy, g, u))
    ensures FreshDeadline(policy, g, u).Some? ==> FreshDeadline(policy, g, t).Some?
  {
    match policy
    case Tumbling(size) => AlignLater(g, t, u, size);
    case Sliding(size, slide) =>
      RangeIsMonotone(g, t, u, size, slide);
      MulMonotone(KMin(g, t, size, slide), KMin(g, u, size, slide), slide);
    case Session(_) =>
  }

  lemma AlignLater(g: Grid, t: int, u: int, size: nat)
    requires 0 < size && Reached(g, t) && Reached(g, u) && t <= u
    ensures Align(g, t, size) <= Align(g, u, size)
  {
    AlignFindsGridPoint(g, t, size);
    AlignFindsGridPoint(g, u, size);
    if u < Align(g, t, size) + size {
      AlignIsUnique(g, u, size, Align(g, t, size));
    }
  }

  /** A held key that is not due is due no later than one that gets an item now, and with it unless it is a session. */
  lemma NotDueMeans<T>(core: Core<T>, policy: Policy, g: Grid, now: int)
    requires ValidPolicy(policy) && Reached(g, now) && CoreInv(core, policy, g, now) && Steady(core, g, now)
    requires !IsDue(core, g.horizon, now)
    ensures NotAfter(Deadline(core, g.horizon), FreshDeadline(policy, g, now))
    ensures !policy.Session? && Deadline(core, g.horizon).Some? ==>
      Deadline(core, g.horizon) == FreshDeadline(policy, g, now)
  {
    match core
    case TumblingCore(size, start, _) =>
      if start.Some? && Deadline(core, g.horizon).Some? { AlignIsUnique(g, now, size, start.value); }
    case SlidingCore(size, slide, slots) =>
      if slots != [] && slots[0].end.Some? { DueSlots(g, now, size, slide, slots[0].k); }
    case SessionCore(_, _, _, _) =>
  }

  // ---------------------------------------------------------------- an item

  lemma {:induction false} ConsecutiveOne<T>(slots: seq<Slot<T>>, first: nat, k: nat, a: Arrival<T>)
    requires Consecutive(slots, first) && first <= k <= first + |slots| && a.create(k).k == k
    ensures var after := PlaceOne(slots, k, a).slots;
      Consecutive(after, first) && k < first + |after| && |slots| <= |after|
  {
    if slots != [] && slots[0].k < k {
      ConsecutiveOne(slots[1..], first + 1, k, a);
    }
  }

  lemma {:induction false} ConsecutivePlace<T>(slots: seq<Slot<T>>, first: nat, k: nat, kMax: nat, a: Arrival<T>)
    requires Consecutive(slots, first) && first <= k <= first + |slots|
    requires forall j: nat :: k <= j <= kMax ==> a.create(j).k == j
    ensures var after := Place(slots, k, kMax, a).slots;
      Consecutive(after, first) && |slots| <= |after| && (k <= kMax ==> |after| > 0)
    decreases if k <= kMax then kMax + 1 - k else 0
  {
    if k <= kMax {
      ConsecutiveOne(slots, first, k, a);
      ConsecutivePlace(PlaceOne(slots, k, a).slots, first, k + 1, kMax, a);
    }
  }

  lemma {:induction false} ConsecutiveDrop<T>(slots: seq<Slot<T>>, m: nat)
    requires slots != [] ==> slots[0].k <= m && Consecutive(slots, slots[0].k)
    ensures Consecutive(DropBefore(slots, m), m)
  {
    if slots != [] && slots[0].k < m { ConsecutiveDrop(slots[1..], m); }
  }

  lemma SomeWindowIsOpen(g: Grid, now: int, size: nat, slide: nat)
    requires 0 < slide <= size && Reached(g, now)
    ensures KMin(g, now, size, slide) <= KMax(g, now, slide)
  {
    var k := KMax(g, now, slide);
    RangeIsExact(g, now, size, slide, k);
    RangeIsExact(g, now, size, slide, k + 1);
    assert (k + 1) * slide == k * slide + slide;
  }

  /** The slots of a sliding core after an item are those of all open windows. */
  lemma SlidingAfterItem<T(!new)>(core: Core<T>, policy: Policy, cap: nat, g: Grid, now: int, item: T)
    requires ValidPolicy(policy) && Reached(g, now) && CoreInv(core, policy, g, now) && core.SlidingCore?
    requires Steady(core, g, now)
    ensures var kMin := KMin(g, now, core.size, core.slide);
      var slots := SlidingItem(core, cap, g, now, item).core.slots;
      slots != [] && Consecutive(slots, kMin) && SlotsInv(slots, core.size, core.slide, g, now)
  {
    var size, slide := core.size, core.slide;
    var kMin, kMax := KMin(g, now, size, slide), KMax(g, now, slide);
    ConsecutiveDrop(core.slots, kMin);
    SomeWindowIsOpen(g, now, size, slide);
    ItemEmitsDueSlotsFirst(core, cap, g, now, item);
    hide SlotsInv;
    ConsecutivePlace(DropBefore(core.slots, kMin), kMin, kMin, kMax,
      Arrival(cap, now, item, FreshSlots(size, slide, g, now)));
  }

  /** After an item the key has the fresh deadline. */
  lemma {:induction false} ItemDeadline<T(!new)>(core: Core<T>, policy: Policy, cap: nat, g: Grid, now: int, item: T)
    requires ValidPolicy(policy) && Reached(g, now) && CoreInv(core, policy, g, now) && Steady(core, g, now)
    ensures var after := OnItem(core, cap, g, now, item).core;
      && Deadline(after, g.horizon) == FreshDeadline(policy, g, now)
      && Steady(after, g, now)
      && (after.SessionCore? ==> after.last == Some(now))
  {
    match core
    case TumblingCore(size, start, _) =>
      AlignFindsGridPoint(g, now, size);
      if start.Some? && now < start.value + size { AlignIsUnique(g, now, size, start.value); }
    case SlidingCore(_, _, _) => SlidingAfterItem(core, policy, cap, g, now, item);
    case SessionCore(_, _, _, _) =>
  }

  // ---------------------------------------------------------------- events

  lemma KeysSteadyLater<K, T>(keys: map<K, Held<T>>, policy: Policy, g: Grid, t: int, u: int)
    requires ValidPolicy(policy) && KeysSteady(keys, g, t) && KeysInv(keys, policy, g, t) && g.anchor <= t <= u
    ensures KeysSteady(keys, g, u)
  {
    forall k | k in keys ensures Steady(keys[k].core, g, u) {
      var core := keys[k].core;
      assert CoreInv(core, policy, g, t) && Steady(core, g, t);
      if core.SlidingCore? { RangeIsMonotone(g, t, u, core.size, core.slide); }
    }
  }

  lemma TickIsSteady<T>(core: Core<T>, g: Grid, now: int)
    requires Steady(core, g, now)
    ensures Steady(OnTick(core, g, now).core, g, now)
  {
    if core.SlidingCore? { ConsecutiveDrop(core.slots, KMin(g, now, core.size, core.slide)); }
  }

  lemma SteadyAfterTickAll<K, T>(keys: map<K, Held<T>>, g: Grid, now: int)
    requires KeysSteady(keys, g, now)
    ensures KeysSteady(TickAll(keys, g, now), g, now)
  {
    var after := TickAll(keys, g, now);
    forall k | k in after ensures Steady(after[k].core, g, now) {
      TickIsSteady(keys[k].core, g, now);
    }
    forall k, l | k in after && l in after && after[k].touched < after[l].touched
      ensures LastInOrder(after[k].core, after[l].core)
    {
      assert LastInOrder(keys[k].core, keys[l].core);
      SessionStays(keys[k].core, g, now);
      SessionStays(keys[l].core, g, now);
    }
  }

  lemma SessionStays<T>(core: Core<T>, g: Grid, now: int)
    requires Survives(core, g, now)
    ensures core.SessionCore? ==> Examined(core, g, now).core == core
    ensures Examined(core, g, now).core.SessionCore? ==> core.SessionCore?
  {}

  lemma SteadyWithout<K, T>(keys: map<K, Held<T>>, v: Option<K>, g: Grid, now: int)
    requires KeysSteady(keys, g, now)
    ensures KeysSteady(NaiveKeyed.Without(keys, v), g, now)
  {}

  lemma SteadyAfterItem<K, T(!new)>(
      kept: map<K, Held<T>>, key: K, policy: Policy, cap: nat, g: Grid, now: int, item: T, n: nat)
    requires ValidPolicy(policy) && Reached(g, now) && KeysSteady(kept, g, now) && KeysInv(kept, policy, g, now)
    requires CoreInv(CoreOf(kept, policy, key), policy, g, now)
    requires forall k :: k in kept ==> kept[k].touched <= n
    ensures KeysSteady(kept[key := Held(OnItem(CoreOf(kept, policy, key), cap, g, now, item).core, n + 1)], g, now)
  {
    var core := CoreOf(kept, policy, key);
    assert Steady(core, g, now);
    ItemDeadline(core, policy, cap, g, now, item);
    hide OnItem, Steady;
    var held := Held(OnItem(core, cap, g, now, item).core, n + 1);
    var after := kept[key := held];
    forall k, l | k in after && l in after && after[k].touched < after[l].touched
      ensures LastInOrder(after[k].core, after[l].core)
    {
      assert k != key;
      assert CoreInv(kept[k].core, policy, g, now);
    }
  }
}
