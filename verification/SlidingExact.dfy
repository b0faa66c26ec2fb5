/**
  Sliding windows are exact from end to end: what comes out for window `k`, piece by
  piece, is exactly the arrivals in its interval, in order.
*/
module SlidingExact {
  import opened Options
  import opened WindowCore
  import opened WindowGrid
  import opened WindowLaws
  import opened WindowRuns

  /** The items of all windows that start at `at`, in order. */
  function Pieces<T>(out: seq<Window<T>>, at: int): seq<T> {
    if out == [] then []
    else (if out[0].start == at then out[0].items else []) + Pieces(out[1..], at)
  }

  /** The items buffered for window `k`. */
  function ItemsAt<T>(slots: seq<Slot<T>>, k: nat): seq<T> {
    if slots == [] then []
    else (if slots[0].k == k then slots[0].items else []) + ItemsAt(slots[1..], k)
  }

  /** The arrivals of a run whose offsets lie in the interval of window `k`. */
  function Joiners<T>(es: seq<Event<T>>, anchor: int, size: nat, slide: nat, k: nat): seq<T> {
    if es == [] then []
    else
      var e := es[|es| - 1];
      Joiners(es[..|es| - 1], anchor, size, slide, k)
      + if e.Item? && anchor <= e.at && Covers(size, slide, k, e.at - anchor) then [e.x] else []
  }

  lemma {:induction false} PiecesAppend<T>(a: seq<Window<T>>, b: seq<Window<T>>, at: int)
    ensures Pieces(a + b, at) == Pieces(a, at) + Pieces(b, at)
  {
    if a == [] {
      assert a + b == b;
    } else {
      PiecesAppend(a[1..], b, at);
      assert (a + b)[1..] == a[1..] + b && (a + b)[0] == a[0];
      Assoc(if a[0].start == at then a[0].items else [], Pieces(a[1..], at), Pieces(b, at));
    }
  }

  lemma PiecesOfNonEmpty<T>(items: seq<T>, start: int, end: int, at: int)
    ensures Pieces(NonEmpty(items, start, end), at) == if start == at then items else []
  {
    if items != [] {
      assert [Window(items, start, end)][1..] == [];
    }
  }

  /** Among these slots `at` is the start of window `k` and of no other. */
  ghost predicate Located<T>(slots: seq<Slot<T>>, k: nat, at: int) {
    forall i :: 0 <= i < |slots| ==> (slots[i].start == at <==> slots[i].k == k)
  }

  lemma {:induction false} EmitMoves<T>(slots: seq<Slot<T>>, m: nat, k: nat, at: int)
    requires Located(slots, k, at)
    ensures Pieces(EmitBefore(slots, m), at) + ItemsAt(DropBefore(slots, m), k) == ItemsAt(slots, k)
  {
    if slots != [] && slots[0].k < m {
      EmitMoves(slots[1..], m, k, at);
      var first := NonEmpty(slots[0].items, slots[0].start, slots[0].end.GetOr(slots[0].start));
      PiecesAppend(first, EmitBefore(slots[1..], m), at);
      PiecesOfNonEmpty(slots[0].items, slots[0].start, slots[0].end.GetOr(slots[0].start), at);
      Assoc(Pieces(first, at), Pieces(EmitBefore(slots[1..], m), at), ItemsAt(DropBefore(slots[1..], m), k));
    }
  }

  lemma {:induction false} FlushMoves<T>(slots: seq<Slot<T>>, now: int, k: nat, at: int)
    requires Located(slots, k, at)
    ensures Pieces(FlushSlots(slots, now), at) == ItemsAt(slots, k)
  {
    if slots != [] {
      FlushMoves(slots[1..], now, k, at);
      PiecesAppend(NonEmpty(slots[0].items, slots[0].start, slots[0].end.GetOr(now)), FlushSlots(slots[1..], now), at);
      PiecesOfNonEmpty(slots[0].items, slots[0].start, slots[0].end.GetOr(now), at);
    }
  }

  lemma {:induction false} NoneAt<T>(slots: seq<Slot<T>>, k: nat)
    requires forall i :: 0 <= i < |slots| ==> slots[i].k != k
    ensures ItemsAt(slots, k) == []
  {
    if slots != [] {
      NoneAt(slots[1..], k);
    }
  }

  lemma PushAdds<T>(a: Arrival<T>, slot: Slot<T>, at: int)
    ensures Pieces(PushedOut(a, slot), at) + (if slot.start == at then Pushed(a, slot).items else [])
         == if slot.start == at then slot.items + [a.item] else []
  {
    var items := slot.items + [a.item];
    if |items| >= a.cap {
      assert [Window(items, slot.start, slot.end.GetOr(a.now))][1..] == [];
    }
  }

  lemma ItemsAtUnfolds<T>(first: Slot<T>, rest: seq<Slot<T>>, k: nat)
    ensures ItemsAt([first] + rest, k) == (if first.k == k then first.items else []) + ItemsAt(rest, k)
  {
    assert ([first] + rest)[1..] == rest;
  }

  lemma {:induction false} PlaceOneAdds<T>(slots: seq<Slot<T>>, j: nat, a: Arrival<T>, k: nat, at: int)
    requires Sorted(slots) && Located(slots, k, at)
    requires a.create(j).k == j && a.create(j).items == [] && (a.create(j).start == at <==> j == k)
    ensures Pieces(PlaceOne(slots, j, a).out, at) + ItemsAt(PlaceOne(slots, j, a).slots, k)
         == ItemsAt(slots, k) + if j == k then [a.item] else []
  {
    if slots == [] || j < slots[0].k {
      PushAdds(a, a.create(j), at);
      ItemsAtUnfolds(Pushed(a, a.create(j)), slots, k);
      if j == k {
        NoneAt(slots, k);
      }
    } else if slots[0].k == j {
      PushAdds(a, slots[0], at);
      ItemsAtUnfolds(Pushed(a, slots[0]), slots[1..], k);
      if j == k {
        NoneAt(slots[1..], k);
      }
    } else {
      PlaceOneAdds(slots[1..], j, a, k, at);
      var rest := PlaceOne(slots[1..], j, a);
      ItemsAtUnfolds(slots[0], rest.slots, k);
      if slots[0].k == k {
        NoneAt(slots[1..], k);
      }
      Prepend(if slots[0].k == k then slots[0].items else [], Pieces(rest.out, at), ItemsAt(rest.slots, k),
              ItemsAt(slots[1..], k), if j == k then [a.item] else []);
    }
  }

  lemma Prepend<X>(first: seq<X>, p: seq<X>, after: seq<X>, before: seq<X>, y: seq<X>)
    requires p + after == before + y && (first == [] || (before == [] && y == []))
    ensures p + (first + after) == (first + before) + y
  {
    if first == [] {
      assert first + after == after && first + before == before;
    } else {
      assert |p| + |after| == 0;
    }
  }

  lemma {:induction false} PlaceOneIsLocated<T>(slots: seq<Slot<T>>, j: nat, a: Arrival<T>, k: nat, at: int)
    requires Located(slots, k, at) && a.create(j).k == j && (a.create(j).start == at <==> j == k)
    ensures Located(PlaceOne(slots, j, a).slots, k, at)
  {
    if slots != [] && slots[0].k < j {
      PlaceOneIsLocated(slots[1..], j, a, k, at);
    }
  }

  /** The slots an arrival creates are in the right place. */
  ghost predicate CreatesLocated<T>(a: Arrival<T>, j: nat, jMax: nat, k: nat, at: int) {
    forall i: nat :: j <= i <= jMax ==>
      a.create(i).k == i && a.create(i).items == [] && (a.create(i).start == at <==> i == k)
  }

  lemma {:induction false} PlaceAdds<T>(slots: seq<Slot<T>>, j: nat, jMax: nat, a: Arrival<T>, k: nat, at: int)
    requires Sorted(slots) && Located(slots, k, at) && CreatesLocated(a, j, jMax, k, at)
    ensures Pieces(Place(slots, j, jMax, a).out, at) + ItemsAt(Place(slots, j, jMax, a).slots, k)
         == ItemsAt(slots, k) + if j <= k <= jMax then [a.item] else []
    decreases if j <= jMax then jMax + 1 - j else 0
  {
    hide PlaceOne, Located, CreatesLocated, Sorted, Pieces, ItemsAt;
    if j <= jMax {
      var one := PlaceOne(slots, j, a);
      var now, later := if j == k then [a.item] else [], if j + 1 <= k <= jMax then [a.item] else [];
      PlaceStepAdds(slots, j, jMax, a, k, at);
      PlaceAdds(one.slots, j + 1, jMax, a, k, at);
      AddsInTurn(one.out, Place(one.slots, j + 1, jMax, a), ItemsAt(slots, k), ItemsAt(one.slots, k), at, k, now,
        later);
      assert now + later == if j <= k <= jMax then [a.item] else [];
    } else {
      NoPieces(slots, k, at);
    }
  }

  lemma NoPieces<T>(slots: seq<Slot<T>>, k: nat, at: int)
    ensures Pieces<T>([], at) + ItemsAt(slots, k) == ItemsAt(slots, k) + []
  {
  }

  lemma PlaceStepAdds<T>(slots: seq<Slot<T>>, j: nat, jMax: nat, a: Arrival<T>, k: nat, at: int)
    requires j <= jMax && Sorted(slots) && Located(slots, k, at) && CreatesLocated(a, j, jMax, k, at)
    ensures var one := PlaceOne(slots, j, a);
            && Sorted(one.slots) && Located(one.slots, k, at) && CreatesLocated(a, j + 1, jMax, k, at)
            && Pieces(one.out, at) + ItemsAt(one.slots, k) == ItemsAt(slots, k) + if j == k then [a.item] else []
  {
    assert a.create(j).k == j;
    PlaceOneAdds(slots, j, a, k, at);
    PlaceOneIsSorted(slots, j, a);
    PlaceOneIsLocated(slots, j, a, k, at);
  }

  /** Two steps in a row: the pieces of both, then what is buffered in the end. */
  lemma AddsInTurn<T>(
      out: seq<Window<T>>, rest: Placed<T>, before: seq<T>, between: seq<T>, at: int, k: nat, x: seq<T>, y: seq<T>)
    requires Pieces(out, at) + between == before + x
    requires Pieces(rest.out, at) + ItemsAt(rest.slots, k) == between + y
    ensures Pieces(out + rest.out, at) + ItemsAt(rest.slots, k) == before + (x + y)
  {
    hide *;
    PiecesAppend(out, rest.out, at);
    Assoc(Pieces(out, at), Pieces(rest.out, at), ItemsAt(rest.slots, k));
    Assoc(Pieces(out, at), between, y);
    Assoc(before, x, y);
  }

  // ---------------------------------------------------------------- runs

  lemma GridPointsDiffer(g: Grid, slide: nat, j: nat, k: nat)
    requires 0 < slide
    ensures GridPoint(g, slide, j) == GridPoint(g, slide, k) <==> j == k
  {
    assert GridPoint(g, slide, j) == g.anchor + j * slide && GridPoint(g, slide, k) == g.anchor + k * slide;
    if j < k {
      MulMonotone(j + 1, k, slide);
      Distribute(j, 1, slide);
    } else if k < j {
      MulMonotone(k + 1, j, slide);
      Distribute(k, 1, slide);
    }
  }

  lemma SlotsAreLocated<T>(slots: seq<Slot<T>>, size: nat, slide: nat, g: Grid, t: int, k: nat)
    requires 0 < slide && SlotsInv(slots, size, slide, g, t)
    ensures Sorted(slots) && Located(slots, k, GridPoint(g, slide, k))
  {
    forall i | 0 <= i < |slots| ensures slots[i].start == GridPoint(g, slide, k) <==> slots[i].k == k {
      GridPointsDiffer(g, slide, slots[i].k, k);
    }
  }

  lemma ArrivalIsLocated<T(!new)>(size: nat, slide: nat, g: Grid, now: int, k: nat)
    requires 0 < slide && Reached(g, now)
    ensures forall i: nat :: i <= KMax(g, now, slide) ==>
              var slot := FreshSlot<T>(size, slide, g, now, i);
              slot.k == i && slot.items == [] && (slot.start == GridPoint(g, slide, k) <==> i == k)
    ensures forall cap, item: T ::
              CreatesLocated(Arrival(cap, now, item, FreshSlots(size, slide, g, now)), 0, KMax(g, now, slide), k,
                GridPoint(g, slide, k))
  {
    forall i: nat | i <= KMax(g, now, slide)
      ensures var slot := FreshSlot<T>(size, slide, g, now, i);
              slot.k == i && slot.items == [] && (slot.start == GridPoint(g, slide, k) <==> i == k)
    {
      FreshIsOnGrid<T>(size, slide, g, now, i);
      GridPointsDiffer(g, slide, i, k);
    }
  }

  /** An item joins window `k` exactly if the window's interval contains it. */
  lemma ItemJoins<T(!new)>(core: Core<T>, cap: nat, g: Grid, now: int, item: T, k: nat)
    requires core.SlidingCore? && 0 < core.slide && Reached(g, now)
    requires SlotsInv(core.slots, core.size, core.slide, g, now)
    ensures var at := GridPoint(g, core.slide, k);
            var step := SlidingItem(core, cap, g, now, item);
            Pieces(step.out, at) + ItemsAt(step.core.slots, k)
            == ItemsAt(core.slots, k) + if Covers(core.size, core.slide, k, now - g.anchor) then [item] else []
  {
    var size, slide, at := core.size, core.slide, GridPoint(g, core.slide, k);
    var kMin, kMax := KMin(g, now, size, slide), KMax(g, now, slide);
    var a := Arrival(cap, now, item, FreshSlots(size, slide, g, now));
    var open := DropBefore(core.slots, kMin);
    SlotsAreLocated(core.slots, size, slide, g, now, k);
    EmitMoves(core.slots, kMin, k, at);
    DropKeeps(core.slots, kMin, size, slide, g, now);
    SlotsAreLocated(open, size, slide, g, now, k);
    ArrivalIsLocated<T>(size, slide, g, now, k);
    assert CreatesLocated(a, 0, kMax, k, at);
    assert CreatesLocated(a, kMin, kMax, k, at);
    PlaceAdds(open, kMin, kMax, a, k, at);
    RangeIsExact(g, now, size, slide, k);
    var x := if kMin <= k <= kMax then [item] else [];
    assert ItemsAt(core.slots, k) + [] == ItemsAt(core.slots, k) && [] + x == x;
    AddsInTurn(EmitBefore(core.slots, kMin), Place(open, kMin, kMax, a), ItemsAt(core.slots, k), ItemsAt(open, k),
      at, k, [], x);
  }

  /** What has come out for window `k`, followed by what is buffered for it, is what has arrived in its interval. */
  ghost predicate Exact<T>(c: Config, s: Stage<T>, es: seq<Event<T>>, anchor: int, k: nat) {
    && s.core.SlidingCore? && c.policy.Sliding?
    && Pieces(s.out, GridPoint(Grid(anchor, c.horizon), c.policy.slide, k)) + ItemsAt(s.core.slots, k)
       == Joiners(es, anchor, c.policy.size, c.policy.slide, k)
  }

  /** What an event adds to window `k`. */
  function Joiner<T>(e: Event<T>, anchor: int, size: nat, slide: nat, k: nat): seq<T> {
    if e.Item? && anchor <= e.at && Covers(size, slide, k, e.at - anchor) then [e.x] else []
  }

  lemma FeedAdds<T(!new)>(c: Config, s: Stage<T>, e: Event<T>, anchor: int, k: nat, at: int, out: seq<Window<T>>)
    requires ValidPolicy(c.policy) && c.policy.Sliding? && s.anchor == Some(anchor) && StageInv(c, s, e.at)
    requires e.at <= c.horizon
    requires at == GridPoint(Grid(anchor, c.horizon), c.policy.slide, k)
    requires Feed(c, s, e).out == s.out + out
    requires out == match e
                    case Item(now, x) => SlidingItem(s.core, c.cap, Grid(anchor, c.horizon), now, x).out
                    case Tick(now) => OnTick(s.core, Grid(anchor, c.horizon), now).out
                    case Flush(now) => FlushSlots(s.core.slots, now)
    ensures Feed(c, s, e).core.SlidingCore?
    ensures Pieces(out, at) + ItemsAt(Feed(c, s, e).core.slots, k)
         == ItemsAt(s.core.slots, k) + Joiner(e, anchor, c.policy.size, c.policy.slide, k)
  {
    var g, size, slide := Grid(anchor, c.horizon), c.policy.size, c.policy.slide;
    SlotsAreLocated(s.core.slots, size, slide, g, e.at, k);
    hide SlotsInv, Sorted, Located, GridPoint, KMin, Covers, SlidingItem;
    match e
    case Item(now, x) =>
      ItemJoins(s.core, c.cap, g, now, x, k);
    case Tick(now) =>
      EmitMoves(s.core.slots, KMin(g, now, size, slide), k, at);
    case Flush(now) =>
      FlushMoves(s.core.slots, now, k, at);
  }

  /** What an event emits from a sliding stage. */
  function Emitted<T>(c: Config, s: Stage<T>, e: Event<T>, anchor: int): seq<Window<T>>
    requires s.core.SlidingCore?
  {
    match e
    case Item(now, x) => SlidingItem(s.core, c.cap, Grid(anchor, c.horizon), now, x).out
    case Tick(now) => OnTick(s.core, Grid(anchor, c.horizon), now).out
    case Flush(now) => FlushSlots(s.core.slots, now)
  }

  lemma StepIsExact<T(!new)>(c: Config, s: Stage<T>, es: seq<Event<T>>, e: Event<T>, anchor: int, k: nat)
    requires ValidPolicy(c.policy) && c.policy.Sliding? && s.anchor == Some(anchor) && StageInv(c, s, e.at)
    requires e.at <= c.horizon
    requires Exact(c, s, es, anchor, k)
    ensures Exact(c, Feed(c, s, e), es + [e], anchor, k)
  {
    var at, out, size, slide := GridPoint(Grid(anchor, c.horizon), c.policy.slide, k), Emitted(c, s, e, anchor),
      c.policy.size, c.policy.slide;
    assert (es + [e])[..|es|] == es;
    assert Joiners(es + [e], anchor, size, slide, k) == Joiners(es, anchor, size, slide, k)
      + Joiner(e, anchor, size, slide, k);
    FeedAdds(c, s, e, anchor, k, at, out);
    hide StageInv, GridPoint, SlidingItem, OnTick, FlushSlots, Joiner, Emitted;
    var before := Joiners(es, anchor, size, slide, k);
    assert before + [] == before;
    assert [] + Joiner(e, anchor, size, slide, k) == Joiner(e, anchor, size, slide, k);
    AddsInTurn(s.out, Placed(Feed(c, s, e).core.slots, out), before, ItemsAt(s.core.slots, k), at, k, [],
      Joiner(e, anchor, size, slide, k));
  }

  /** Until the first item a sliding stage is as it started. */
  lemma {:induction false} NothingYet<T>(c: Config, es: seq<Event<T>>, anchor: int, k: nat)
    requires c.policy.Sliding? && Run(c, es).anchor.None?
    ensures Run(c, es) == Start(c) && Joiners(es, anchor, c.policy.size, c.policy.slide, k) == []
  {
    if es != [] {
      NothingYet(c, es[..|es| - 1], anchor, k);
    }
  }

  /**
    Sliding windows are exact: an arrival at offset `e` from the grid origin, which the first
    item fixes, joins exactly the windows `k` with `k * slide <= e < k * slide + size`. At any
    time the pieces that have come out for `k` (the cap may split a window), followed by
    what is buffered for it, are exactly the arrivals in its interval, in order.
  */
  lemma {:induction false} SlidingWindowsAreExact<T(!new)>(c: Config, es: seq<Event<T>>, k: nat)
    requires ValidPolicy(c.policy) && c.policy.Sliding? && Monotone(es, c)
    ensures FirstItem(es).None? ==> Run(c, es) == Start(c)
    ensures FirstItem(es).Some? ==>
      var anchor := GridStart(c, FirstItem(es).value);
      && Exact(c, Run(c, es), es, anchor, k)
      && (es[|es| - 1].Flush? ==>
            Pieces(Run(c, es).out, GridPoint(Grid(anchor, c.horizon), c.policy.slide, k))
            == Joiners(es, anchor, c.policy.size, c.policy.slide, k))
  {
    FirstItemFixesAnchor(c, es);
    hide Run, Exact, FirstItem, Pieces, Joiners, GridPoint, GridStart;
    if FirstItem(es).Some? {
      StaysExact(c, es, GridStart(c, FirstItem(es).value), k);
    } else {
      NothingYet(c, es, 0, k);
    }
  }

  lemma {:induction false} StaysExact<T(!new)>(c: Config, es: seq<Event<T>>, anchor: int, k: nat)
    requires ValidPolicy(c.policy) && c.policy.Sliding? && Monotone(es, c)
    requires Run(c, es).anchor == Some(anchor)
    ensures Exact(c, Run(c, es), es, anchor, k)
    ensures es[|es| - 1].Flush? ==>
              Pieces(Run(c, es).out, GridPoint(Grid(anchor, c.horizon), c.policy.slide, k))
              == Joiners(es, anchor, c.policy.size, c.policy.slide, k)
  {
    var e, before := es[|es| - 1], es[..|es| - 1];
    var s := Run(c, before);
    assert es == before + [e];
    RunKeepsInv(c, before, e.at);
    if s.anchor.Some? {
      StaysExact(c, before, anchor, k);
      StepIsExact(c, s, before, e, anchor, k);
    } else {
      FirstStepIsExact(c, before, e, anchor, k);
    }
    if e.Flush? {
      NothingAfterFlush(c, s, e, k);
    }
    hide StageInv, Monotone, GridPoint;
  }

  lemma FirstStepIsExact<T(!new)>(c: Config, before: seq<Event<T>>, e: Event<T>, anchor: int, k: nat)
    requires ValidPolicy(c.policy) && c.policy.Sliding? && e.at <= c.horizon
    requires Run(c, before).anchor.None? && Feed(c, Run(c, before), e).anchor == Some(anchor)
    ensures Exact(c, Feed(c, Run(c, before), e), before + [e], anchor, k)
  {
    NothingYet(c, before, anchor, k);
    OriginIsBefore(c, e.at);
    var fixed := Start<T>(c).(anchor := Some(anchor));
    assert Feed(c, Start<T>(c), e) == Feed(c, fixed, e);
    StepIsExact(c, fixed, before, e, anchor, k);
  }

  lemma NothingAfterFlush<T>(c: Config, s: Stage<T>, e: Event<T>, k: nat)
    requires s.core.SlidingCore? && e.Flush?
    ensures Feed(c, s, e).core.SlidingCore? && ItemsAt(Feed(c, s, e).core.slots, k) == []
  {
  }
}
