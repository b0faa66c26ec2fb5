/**
  Why ticks do not matter: the canonical form of a core.

  `Canon(core, t)` is what a core amounts to once everything due at `t` is out
  and everything without effect is dropped; `Pending(core, t)` is what is due.
  Ticking moves windows from `Pending` to the output and keeps `Canon`; items and
  flushes depend on the core only through the two. All laws assume that the clock
  does not go backwards, which `CoreInv` records.
*/
module WindowLaws {
  import opened Options
  import opened WindowCore
  import opened WindowGrid

  predicate Shaped<T>(core: Core<T>, policy: Policy) {
    match core
    case TumblingCore(size, _, _) => policy == Tumbling(size)
    case SlidingCore(size, slide, _) => policy == Sliding(size, slide)
    case SessionCore(idle, _, _, _) => policy == Session(idle)
  }

  predicate Sorted<T>(slots: seq<Slot<T>>) {
    forall i, j :: 0 <= i < j < |slots| ==> slots[i].k < slots[j].k
  }

  predicate SlotOk<T>(slot: Slot<T>, size: nat, slide: nat, g: Grid) {
    slot.start == GridPoint(g, slide, slot.k) && slot.end == CheckedAdd(slot.start, size, g.horizon)
  }

  predicate SlotsInv<T>(slots: seq<Slot<T>>, size: nat, slide: nat, g: Grid, t: int) {
    && Sorted(slots)
    && (forall i :: 0 <= i < |slots| ==> SlotOk(slots[i], size, slide, g) && slots[i].start <= t)
  }

  /** What holds of every core of a stage whose clock has reached `t`. */
  predicate CoreInv<T>(core: Core<T>, policy: Policy, g: Grid, t: int) {
    && Shaped(core, policy)
    && match core
       case TumblingCore(size, start, items) =>
         if start.Some? then start.value <= t && OnGrid(g, size, start.value) else items == []
       case SlidingCore(size, slide, slots) => SlotsInv(slots, size, slide, g, t)
       case SessionCore(idle, start, last, items) =>
         if last.Some? then start.Some? && g.anchor <= start.value <= last.value <= t else start.None? && items == []
  }

  predicate Reached(g: Grid, t: int) { g.anchor <= t <= g.horizon }

  // ---------------------------------------------------------------- sliding

  function Filled<T>(slots: seq<Slot<T>>): seq<Slot<T>> {
    if slots == [] then []
    else (if slots[0].items == [] then [] else [slots[0]]) + Filled(slots[1..])
  }

  lemma FilledUnfolds<T>(slots: seq<Slot<T>>)
    requires slots != []
    ensures slots[0].items == [] ==> Filled(slots) == Filled(slots[1..])
    ensures slots[0].items != [] ==> Filled(slots)[0] == slots[0] && Filled(slots)[1..] == Filled(slots[1..])
  {
  }

  lemma {:induction false} FilledTwice<T>(slots: seq<Slot<T>>)
    ensures Filled(Filled(slots)) == Filled(slots)
  {
    if slots != [] {
      FilledTwice(slots[1..]);
      FilledUnfolds(slots);
    }
  }

  lemma {:induction false} DropKeeps<T>(slots: seq<Slot<T>>, kMin: nat, size: nat, slide: nat, g: Grid, t: int)
    requires SlotsInv(slots, size, slide, g, t)
    ensures SlotsInv(DropBefore(slots, kMin), size, slide, g, t)
    ensures forall i :: 0 <= i < |DropBefore(slots, kMin)| ==> kMin <= DropBefore(slots, kMin)[i].k
  {
    if slots != [] && slots[0].k < kMin {
      DropKeeps(slots[1..], kMin, size, slide, g, t);
    }
  }

  lemma {:induction false} DropInStages<T>(slots: seq<Slot<T>>, k: nat, m: nat)
    requires k <= m
    ensures DropBefore(DropBefore(slots, k), m) == DropBefore(slots, m)
    ensures EmitBefore(slots, k) + EmitBefore(DropBefore(slots, k), m) == EmitBefore(slots, m)
  {
    if slots != [] && slots[0].k < k {
      DropInStages(slots[1..], k, m);
    }
  }

  /** Empty slots emit nothing when they are dropped ... */
  lemma {:induction false} EmptySlotsAreSilent<T>(slots: seq<Slot<T>>, m: nat)
    requires Sorted(slots)
    ensures EmitBefore(Filled(slots), m) == EmitBefore(slots, m)
  {
    if slots != [] {
      FilledUnfolds(slots);
      FilledStartsLater(slots);
      EmptySlotsAreSilent(slots[1..], m);
    }
  }

  lemma {:induction false} EmptySlotsDrop<T>(slots: seq<Slot<T>>, m: nat)
    requires Sorted(slots)
    ensures Filled(DropBefore(Filled(slots), m)) == Filled(DropBefore(slots, m))
  {
    if slots != [] {
      FilledUnfolds(slots);
      FilledStartsLater(slots);
      EmptySlotsDrop(slots[1..], m);
      if m <= slots[0].k {
        FilledTwice(slots);
      }
    }
  }

  /** ... or flushed. */
  lemma {:induction false} EmptySlotsFlushNothing<T>(slots: seq<Slot<T>>, now: int)
    ensures FlushSlots(Filled(slots), now) == FlushSlots(slots, now)
  {
    if slots != [] {
      FilledUnfolds(slots);
      EmptySlotsFlushNothing(slots[1..], now);
    }
  }

  lemma {:induction false} FilledStartsLater<T>(slots: seq<Slot<T>>)
    requires Sorted(slots)
    ensures Filled(slots) != [] ==> slots != [] && slots[0].k <= Filled(slots)[0].k
  {
    if slots != [] {
      FilledStartsLater(slots[1..]);
    }
  }

  // Adding an item to slots.

  /** The slots an arrival creates start at or before it, so no fallback instant is used. */
  lemma FreshIsOnGrid<T>(size: nat, slide: nat, g: Grid, now: int, k: nat)
    requires 0 < slide && Reached(g, now) && k <= KMax(g, now, slide)
    ensures FreshSlot<T>(size, slide, g, now, k)
      == Slot(k, GridPoint(g, slide, k), CheckedAdd(GridPoint(g, slide, k), size, g.horizon), [])
    ensures GridPoint(g, slide, k) <= now
  {
    RangeIsExact(g, now, size, slide, k);
  }

  lemma {:induction false} PlaceOneIsSorted<T>(slots: seq<Slot<T>>, k: nat, a: Arrival<T>)
    requires Sorted(slots) && a.create(k).k == k
    ensures Sorted(PlaceOne(slots, k, a).slots)
    ensures PlaceOne(slots, k, a).slots[0].k == if slots == [] || k < slots[0].k then k else slots[0].k
  {
    if slots != [] && slots[0].k < k {
      PlaceOneIsSorted(slots[1..], k, a);
    }
  }

  /** Whatever holds of the old slots and of the fresh one, and survives a push, holds of the new slots. */
  lemma {:induction false} PlaceOnePreserves<T(!new)>(slots: seq<Slot<T>>, k: nat, a: Arrival<T>, ok: Slot<T> -> bool)
    requires forall i :: 0 <= i < |slots| ==> ok(slots[i])
    requires ok(a.create(k))
    requires forall slot {:trigger Pushed(a, slot)} :: ok(slot) ==> ok(Pushed(a, slot))
    ensures forall i :: 0 <= i < |PlaceOne(slots, k, a).slots| ==> ok(PlaceOne(slots, k, a).slots[i])
  {
    if slots != [] && slots[0].k < k {
      PlaceOnePreserves(slots[1..], k, a, ok);
    }
  }

  /** A slot emptied by the item cap behaves like one that does not exist yet. */
  lemma {:induction false} PlaceOneIgnoresEmpty<T>(slots: seq<Slot<T>>, k: nat, a: Arrival<T>)
    requires Sorted(slots)
    requires a.create(k).k == k
    requires forall i :: 0 <= i < |slots| && slots[i].k == k ==> slots[i].(items := []) == a.create(k)
    ensures PlaceOne(Filled(slots), k, a).out == PlaceOne(slots, k, a).out
    ensures Filled(PlaceOne(Filled(slots), k, a).slots) == Filled(PlaceOne(slots, k, a).slots)
  {
    FilledStartsLater(slots);
    FilledTwice(slots);
    if slots != [] {
      FilledUnfolds(slots);
      FilledTwice(slots[1..]);
      FilledStartsLater(slots[1..]);
      FilledUnfolds(PlaceOne(slots, k, a).slots);
      FilledUnfolds(PlaceOne(Filled(slots), k, a).slots);
      if slots[0].k < k {
        PlaceOneIgnoresEmpty(slots[1..], k, a);
      }
    }
  }

  /** `ok` holds of the slots an arrival creates or changes, and fixes all of a slot but its items. */
  ghost predicate Describes<T(!new)>(ok: Slot<T> -> bool, k: nat, kMax: nat, a: Arrival<T>) {
    && (forall j: nat :: k <= j <= kMax ==> a.create(j).k == j && ok(a.create(j)))
    && (forall slot {:trigger Pushed(a, slot)} :: ok(slot) ==> ok(Pushed(a, slot)))
    && (forall slot {:trigger a.create(slot.k)} :: ok(slot) && k <= slot.k <= kMax ==>
      slot.(items := []) == a.create(slot.k))
  }

  lemma {:induction false} FilledIsTidy<T(!new)>(slots: seq<Slot<T>>, ok: Slot<T> -> bool)
    requires Tidy(slots, ok)
    ensures Tidy(Filled(slots), ok)
    ensures forall i :: 0 <= i < |Filled(slots)| ==> slots[0].k <= Filled(slots)[i].k
  {
    if slots != [] {
      FilledIsTidy(slots[1..], ok);
    }
  }

  /** Slots that an arrival described by `ok` may be added to. */
  ghost predicate Tidy<T(!new)>(slots: seq<Slot<T>>, ok: Slot<T> -> bool) {
    Sorted(slots) && forall i :: 0 <= i < |slots| ==> ok(slots[i])
  }

  lemma PlaceOneIsTidy<T(!new)>(slots: seq<Slot<T>>, k: nat, kMax: nat, a: Arrival<T>, ok: Slot<T> -> bool)
    requires k <= kMax && Describes(ok, k, kMax, a) && Tidy(slots, ok)
    ensures Tidy(PlaceOne(slots, k, a).slots, ok) && Describes(ok, k + 1, kMax, a)
  {
    PlaceOneIsSorted(slots, k, a);
    PlaceOnePreserves(slots, k, a, ok);
  }

  lemma PlaceOneAgrees<T(!new)>(
      s1: seq<Slot<T>>, s2: seq<Slot<T>>, k: nat, kMax: nat, a: Arrival<T>, ok: Slot<T> -> bool)
    requires k <= kMax && Describes(ok, k, kMax, a) && Tidy(s1, ok) && Tidy(s2, ok)
    requires Filled(s1) == Filled(s2)
    ensures PlaceOne(s1, k, a).out == PlaceOne(s2, k, a).out
    ensures Filled(PlaceOne(s1, k, a).slots) == Filled(PlaceOne(s2, k, a).slots)
  {
    PlaceOneIgnoresEmpty(s1, k, a);
    PlaceOneIgnoresEmpty(s2, k, a);
  }

  lemma {:induction false} PlaceAgrees<T(!new)>(
      s1: seq<Slot<T>>, s2: seq<Slot<T>>, k: nat, kMax: nat, a: Arrival<T>, ok: Slot<T> -> bool)
    requires Describes(ok, k, kMax, a) && Tidy(s1, ok) && Tidy(s2, ok)
    requires Filled(s1) == Filled(s2)
    ensures Place(s1, k, kMax, a).out == Place(s2, k, kMax, a).out
    ensures Filled(Place(s1, k, kMax, a).slots) == Filled(Place(s2, k, kMax, a).slots)
    decreases if k <= kMax then kMax + 1 - k else 0
  {
    hide Tidy, Describes, PlaceOne;
    if k <= kMax {
      var one1, one2 := PlaceOne(s1, k, a), PlaceOne(s2, k, a);
      assert one1.out == one2.out && Filled(one1.slots) == Filled(one2.slots) by {
        PlaceOneAgrees(s1, s2, k, kMax, a, ok);
      }
      assert Tidy(one1.slots, ok) && Tidy(one2.slots, ok) && Describes(ok, k + 1, kMax, a) by {
        PlaceOneIsTidy(s1, k, kMax, a, ok);
        PlaceOneIsTidy(s2, k, kMax, a, ok);
      }
      PlaceAgrees(one1.slots, one2.slots, k + 1, kMax, a, ok);
    }
  }

  lemma {:induction false} PlaceIsTidy<T(!new)>(
      slots: seq<Slot<T>>, k: nat, kMax: nat, a: Arrival<T>, ok: Slot<T> -> bool)
    requires Describes(ok, k, kMax, a) && Tidy(slots, ok)
    ensures Tidy(Place(slots, k, kMax, a).slots, ok)
    decreases if k <= kMax then kMax + 1 - k else 0
  {
    hide Tidy, Describes, PlaceOne;
    if k <= kMax {
      PlaceOneIsTidy(slots, k, kMax, a, ok);
      PlaceIsTidy(PlaceOne(slots, k, a).slots, k + 1, kMax, a, ok);
    }
  }

  /** The slots of a stage whose clock has reached `t`. */
  function OnGridBy<T>(size: nat, slide: nat, g: Grid, t: int): Slot<T> -> bool {
    slot => SlotOk(slot, size, slide, g) && slot.start <= t
  }

  lemma SlotsInvIsTidy<T(!new)>(slots: seq<Slot<T>>, size: nat, slide: nat, g: Grid, t: int)
    ensures SlotsInv(slots, size, slide, g, t) <==> Tidy(slots, OnGridBy(size, slide, g, t))
  {
    var ok := OnGridBy(size, slide, g, t);
    assert forall i :: 0 <= i < |slots| ==> (ok(slots[i]) <==> SlotOk(slots[i], size, slide, g) && slots[i].start <= t);
  }

  lemma GridDescribes<T(!new)>(size: nat, slide: nat, g: Grid, now: int, cap: nat, item: T, k: nat, kMax: nat)
    requires 0 < slide && Reached(g, now) && kMax <= KMax(g, now, slide)
    ensures Describes(OnGridBy(size, slide, g, now), k, kMax, Arrival(cap, now, item, FreshSlots(size, slide, g, now)))
  {
    forall j: nat | k <= j <= kMax
      ensures SlotOk(FreshSlot<T>(size, slide, g, now, j), size, slide, g)
      ensures FreshSlot<T>(size, slide, g, now, j).start <= now {
      FreshIsOnGrid<T>(size, slide, g, now, j);
    }
  }

  // ---------------------------------------------------------------- canonical form

  predicate IsDue<T>(core: Core<T>, horizon: int, t: int) {
    Deadline(core, horizon).Some? && Deadline(core, horizon).value <= t
  }

  function Canon<T>(core: Core<T>, g: Grid, t: int): Core<T> {
    match core
    case TumblingCore(size, _, items) =>
      if IsDue(core, g.horizon, t) || items == [] then TumblingCore(size, None, []) else core
    case SessionCore(idle, _, last, _) =>
      if last.Some? && Since(t, last.value) > idle then SessionCore(idle, None, None, []) else core
    case SlidingCore(size, slide, slots) =>
      core.(slots := Filled(DropBefore(slots, KMin(g, t, size, slide))))
  }

  function Pending<T>(core: Core<T>, g: Grid, t: int): seq<Window<T>> {
    OnTick(core, g, t).out
  }

  /** A slot is dropped at `t` exactly if its end is representable and has passed. */
  lemma DueSlots(g: Grid, t: int, size: nat, slide: nat, k: nat)
    requires 0 < slide && Reached(g, t)
    ensures k < KMin(g, t, size, slide)
       <==> CheckedAdd(GridPoint(g, slide, k), size, g.horizon).Some? && GridPoint(g, slide, k) + size <= t
  {
    RangeIsExact(g, t, size, slide, k);
  }

  lemma {:induction false} FlushIsDueThenRest<T>(slots: seq<Slot<T>>, m: nat, now: int)
    requires forall i :: 0 <= i < |slots| && slots[i].k < m ==> slots[i].end.Some?
    ensures FlushSlots(slots, now) == EmitBefore(slots, m) + FlushSlots(DropBefore(slots, m), now)
  {
    if slots != [] && slots[0].k < m {
      FlushIsDueThenRest(slots[1..], m, now);
    }
  }

  // ---------------------------------------------------------------- the laws

  /** Later time only adds to what is pending. */
  lemma Absorb<T>(core: Core<T>, policy: Policy, g: Grid, t: int, u: int)
    requires ValidPolicy(policy) && Reached(g, t) && t <= u <= g.horizon && CoreInv(core, policy, g, t)
    ensures Canon(Canon(core, g, t), g, u) == Canon(core, g, u)
    ensures Pending(core, g, u) == Pending(core, g, t) + Pending(Canon(core, g, t), g, u)
  {
    if core.SlidingCore? {
      var k, m := KMin(g, t, core.size, core.slide), KMin(g, u, core.size, core.slide);
      RangeIsMonotone(g, t, u, core.size, core.slide);
      AbsorbSlots(core.slots, k, m, core.size, core.slide, g, t, u);
    }
  }

  lemma AbsorbSlots<T>(slots: seq<Slot<T>>, k: nat, m: nat, size: nat, slide: nat, g: Grid, t: int, u: int)
    requires k <= m && SlotsInv(slots, size, slide, g, t)
    ensures Filled(DropBefore(Filled(DropBefore(slots, k)), m)) == Filled(DropBefore(slots, m))
    ensures EmitBefore(slots, m) == EmitBefore(slots, k) + EmitBefore(Filled(DropBefore(slots, k)), m)
  {
    DropKeeps(slots, k, size, slide, g, t);
    DropInStages(slots, k, m);
    EmptySlotsAreSilent(DropBefore(slots, k), m);
    EmptySlotsDrop(DropBefore(slots, k), m);
  }

  /** A tick moves what is pending to the output and changes nothing else. */
  lemma TickOnlyEmits<T>(core: Core<T>, policy: Policy, g: Grid, now: int)
    requires ValidPolicy(policy) && Reached(g, now) && CoreInv(core, policy, g, now)
    ensures var after := OnTick(core, g, now).core;
            CoreInv(after, policy, g, now) && Canon(after, g, now) == Canon(core, g, now)
              && Pending(after, g, now) == []
  {
    match core
    case TumblingCore(size, start, items) =>
      AlignFindsGridPoint(g, now, size);
    case SessionCore(_, _, _, _) =>
    case SlidingCore(size, slide, slots) =>
      var k := KMin(g, now, size, slide);
      DropKeeps(slots, k, size, slide, g, now);
      DropInStages(slots, k, k);
      assert forall x: seq<Window<T>>, y: seq<Window<T>> :: x + y == x ==> |y| == 0;
  }

  /** A flush emits what is pending first. */
  lemma {:induction false} FlushEmitsPendingFirst<T>(core: Core<T>, policy: Policy, g: Grid, now: int)
    requires ValidPolicy(policy) && Reached(g, now) && CoreInv(core, policy, g, now)
    ensures OnFlush(core, g, now).out == Pending(core, g, now) + OnFlush(Canon(core, g, now), g, now).out
    ensures OnFlush(core, g, now).core == NewCore(policy)
  {
    if core.SlidingCore? {
      var k := KMin(g, now, core.size, core.slide);
      forall i | 0 <= i < |core.slots| && core.slots[i].k < k ensures core.slots[i].end.Some? {
        DueSlots(g, now, core.size, core.slide, core.slots[i].k);
      }
      FlushIsDueThenRest(core.slots, k, now);
      DropKeeps(core.slots, k, core.size, core.slide, g, now);
      EmptySlotsFlushNothing(DropBefore(core.slots, k), now);
    }
  }

  /** An item first emits what is pending; after that only the canonical form matters. */
  lemma {:induction false} ItemEmitsPendingFirst<T(!new)>(
      core: Core<T>, policy: Policy, cap: nat, g: Grid, now: int, item: T)
    requires ValidPolicy(policy) && Reached(g, now) && CoreInv(core, policy, g, now)
    ensures var canon := Canon(core, g, now);
            var after, after' := OnItem(core, cap, g, now, item), OnItem(canon, cap, g, now, item);
            && after.out == Pending(core, g, now) + after'.out
            && Canon(after.core, g, now) == Canon(after'.core, g, now)
            && Pending(after.core, g, now) == []
            && CoreInv(after.core, policy, g, now)
  {
    match core
    case TumblingCore(size, start, items) =>
      AlignFindsGridPoint(g, now, size);
      if start.Some? && now < start.value + size {
        AlignIsUnique(g, now, size, start.value);
      }
    case SessionCore(_, _, _, _) =>
    case SlidingCore(size, slide, slots) =>
      ItemEmitsDueSlotsFirst(core, cap, g, now, item);
  }

  lemma ItemEmitsDueSlotsFirst<T(!new)>(core: Core<T>, cap: nat, g: Grid, now: int, item: T)
    requires core.SlidingCore? && 0 < core.slide && Reached(g, now)
    requires SlotsInv(core.slots, core.size, core.slide, g, now)
    ensures var canon := Canon(core, g, now);
            var after, after' := SlidingItem(core, cap, g, now, item), SlidingItem(canon, cap, g, now, item);
            && after.out == Pending(core, g, now) + after'.out
            && Canon(after.core, g, now) == Canon(after'.core, g, now)
            && Pending(after.core, g, now) == []
            && SlotsInv(after.core.slots, core.size, core.slide, g, now)
  {
    var size, slide := core.size, core.slide;
    var kMin, kMax := KMin(g, now, size, slide), KMax(g, now, slide);
    var a := Arrival(cap, now, item, FreshSlots(size, slide, g, now));
    var open := DropBefore(core.slots, kMin);
    DropKeeps(core.slots, kMin, size, slide, g, now);
    JoinsOpenSlots(open, kMin, kMax, size, slide, g, a);
    NothingDue(Filled(open), kMin);
    NothingDue(Place(open, kMin, kMax, a).slots, kMin);
    NothingDue(Place(Filled(open), kMin, kMax, a).slots, kMin);
  }

  lemma NothingDue<T>(slots: seq<Slot<T>>, m: nat)
    requires forall i :: 0 <= i < |slots| ==> m <= slots[i].k
    ensures DropBefore(slots, m) == slots && EmitBefore(slots, m) == []
  {
  }

  lemma JoinsOpenSlots<T(!new)>(open: seq<Slot<T>>, kMin: nat, kMax: nat, size: nat, slide: nat, g: Grid, a: Arrival<T>)
    requires 0 < slide && Reached(g, a.now) && kMax <= KMax(g, a.now, slide)
    requires SlotsInv(open, size, slide, g, a.now)
    requires forall i :: 0 <= i < |open| ==> kMin <= open[i].k
    requires a.create == FreshSlots(size, slide, g, a.now)
    ensures var placed, placed' := Place(open, kMin, kMax, a), Place(Filled(open), kMin, kMax, a);
            && placed.out == placed'.out && Filled(placed.slots) == Filled(placed'.slots)
            && SlotsInv(placed.slots, size, slide, g, a.now)
            && (forall i :: 0 <= i < |placed.slots| ==> kMin <= placed.slots[i].k)
            && (forall i :: 0 <= i < |placed'.slots| ==> kMin <= placed'.slots[i].k)
            && (forall i :: 0 <= i < |Filled(open)| ==> kMin <= Filled(open)[i].k)
  {
    var ok := OnGridBy(size, slide, g, a.now);
    SlotsInvIsTidy(open, size, slide, g, a.now);
    GridDescribes(size, slide, g, a.now, a.cap, a.item, kMin, kMax);
    assert a == Arrival(a.cap, a.now, a.item, FreshSlots(size, slide, g, a.now));
    FilledIsTidy(open, ok);
    FilledTwice(open);
    PlaceAgrees(open, Filled(open), kMin, kMax, a, ok);
    PlaceIsTidy(open, kMin, kMax, a, ok);
    PlaceIsTidy(Filled(open), kMin, kMax, a, ok);
    SlotsInvIsTidy(Place(open, kMin, kMax, a).slots, size, slide, g, a.now);
    PlaceStartsAt(open, kMin, kMin, kMax, a);
    PlaceStartsAt(Filled(open), kMin, kMin, kMax, a);
  }

  lemma {:induction false} PlaceOneStartsAt<T>(slots: seq<Slot<T>>, m: nat, k: nat, a: Arrival<T>)
    requires m <= k && a.create(k).k == k
    requires forall i :: 0 <= i < |slots| ==> m <= slots[i].k
    ensures forall i :: 0 <= i < |PlaceOne(slots, k, a).slots| ==> m <= PlaceOne(slots, k, a).slots[i].k
  {
    if slots != [] && slots[0].k < k {
      PlaceOneStartsAt(slots[1..], m, k, a);
    }
  }

  lemma {:induction false} PlaceStartsAt<T>(slots: seq<Slot<T>>, m: nat, k: nat, kMax: nat, a: Arrival<T>)
    requires m <= k && forall j: nat :: k <= j <= kMax ==> a.create(j).k == j
    requires forall i :: 0 <= i < |slots| ==> m <= slots[i].k
    ensures forall i :: 0 <= i < |Place(slots, k, kMax, a).slots| ==> m <= Place(slots, k, kMax, a).slots[i].k
    decreases if k <= kMax then kMax + 1 - k else 0
  {
    if k <= kMax {
      PlaceOneStartsAt(slots, m, k, a);
      PlaceStartsAt(PlaceOne(slots, k, a).slots, m, k + 1, kMax, a);
    }
  }

  lemma NewFlushesNothing<T>(policy: Policy, g: Grid, now: int)
    ensures OnFlush(NewCore<T>(policy), g, now) == Step(NewCore(policy), [])
  {}

  // ---------------------------------------------------------------- deadlines

  /** A core is due exactly when a tick would emit or reset something: its deadline is neither late nor early. */
  lemma DueExactlyWhen<T>(core: Core<T>, policy: Policy, g: Grid, now: int)
    requires ValidPolicy(policy) && Reached(g, now) && CoreInv(core, policy, g, now)
    ensures IsDue(core, g.horizon, now) <==> OnTick(core, g, now) != Step(core, [])
  {
    match core
    case TumblingCore(size, start, items) =>
      AlignFindsGridPoint(g, now, size);
    case SessionCore(_, _, _, _) =>
    case SlidingCore(size, slide, slots) =>
      if slots != [] {
        DueSlots(g, now, size, slide, slots[0].k);
        DropShortens(slots, KMin(g, now, size, slide));
      }
  }

  lemma {:induction false} DropShortens<T>(slots: seq<Slot<T>>, kMin: nat)
    ensures |DropBefore(slots, kMin)| <= |slots|
    ensures slots != [] && slots[0].k < kMin ==> |DropBefore(slots, kMin)| < |slots|
  {
    if slots != [] && slots[0].k < kMin { DropShortens(slots[1..], kMin); }
  }

  /** Right after a tick nothing is due. */
  lemma TickLeavesNothingDue<T>(core: Core<T>, policy: Policy, g: Grid, now: int)
    requires ValidPolicy(policy) && Reached(g, now) && CoreInv(core, policy, g, now)
    ensures !IsDue(OnTick(core, g, now).core, g.horizon, now)
  {
    match core
    case TumblingCore(size, start, items) =>
      AlignFindsGridPoint(g, now, size);
    case SessionCore(_, _, _, _) =>
    case SlidingCore(size, slide, slots) =>
      var kMin := KMin(g, now, size, slide);
      DropKeeps(slots, kMin, size, slide, g, now);
      FrontIsOpen(DropBefore(slots, kMin), kMin, size, slide, g, now);
  }

  /** Right after an item nothing is due. */
  lemma ItemLeavesNothingDue<T(!new)>(core: Core<T>, policy: Policy, cap: nat, g: Grid, now: int, item: T)
    requires ValidPolicy(policy) && Reached(g, now) && CoreInv(core, policy, g, now)
    ensures !IsDue(OnItem(core, cap, g, now, item).core, g.horizon, now)
  {
    match core
    case TumblingCore(size, start, items) =>
      AlignFindsGridPoint(g, now, size);
    case SessionCore(_, _, _, _) =>
    case SlidingCore(size, slide, slots) =>
      var kMin := KMin(g, now, size, slide);
      DropKeeps(slots, kMin, size, slide, g, now);
      var a := Arrival(cap, now, item, FreshSlots(size, slide, g, now));
      JoinsOpenSlots(DropBefore(slots, kMin), kMin, KMax(g, now, slide), size, slide, g, a);
      FrontIsOpen(SlidingItem(core, cap, g, now, item).core.slots, kMin, size, slide, g, now);
  }

  lemma FrontIsOpen<T>(slots: seq<Slot<T>>, kMin: nat, size: nat, slide: nat, g: Grid, now: int)
    requires 0 < slide && Reached(g, now) && kMin == KMin(g, now, size, slide)
    requires SlotsInv(slots, size, slide, g, now)
    requires forall i :: 0 <= i < |slots| ==> kMin <= slots[i].k
    ensures !IsDue(SlidingCore(size, slide, slots), g.horizon, now)
  {
    if slots != [] {
      DueSlots(g, now, size, slide, slots[0].k);
    }
  }

  /** A core that is empty after a due tick may be released: it amounts to a new one. */
  lemma ReleasedIsNew<T>(core: Core<T>, policy: Policy, g: Grid, now: int)
    requires ValidPolicy(policy) && Reached(g, now) && CoreInv(core, policy, g, now)
    requires IsDue(core, g.horizon, now) && IsEmpty(OnTick(core, g, now).core)
    ensures Canon(OnTick(core, g, now).core, g, now) == NewCore(policy)
    ensures Pending(OnTick(core, g, now).core, g, now) == []
  {
    TickOnlyEmits(core, policy, g, now);
    if core.SlidingCore? {
      var kMin := KMin(g, now, core.size, core.slide);
      var rest := DropBefore(core.slots, kMin);
      DropInStages(core.slots, kMin, kMin);
      NothingFilled(rest);
    }
  }

  lemma {:induction false} NothingFilled<T>(slots: seq<Slot<T>>)
    requires forall i :: 0 <= i < |slots| ==> |slots[i].items| == 0
    ensures Filled(slots) == []
  {
    if slots != [] {
      NothingFilled(slots[1..]);
    }
  }
}
