/**
  Grouping items by count, bytes and age (`BatchStage` of src/batch.rs). The stage counts
  bytes in a saturating machine word; the specification uses the true, unbounded sum. The
  downstream is open.
*/
module Batching {
  import opened Options

  /** usize::MAX */
  const WORD: nat := 0xFFFF_FFFF_FFFF_FFFF

  /** Absent count and byte limits are usize::MAX, and all limits are at least 1. */
  datatype Policy<!T> = Policy(maxItems: nat, maxBytes: nat, measure: Option<T -> nat>, maxAge: Option<nat>) {
    ghost predicate Ok() { 1 <= maxItems && 1 <= maxBytes <= WORD }
  }

  /** The open batch and the time its first item arrived (kept only with an age limit). */
  datatype Open<T> = Open(items: seq<T>, since: Option<int>)

  function Size<T>(p: Policy<T>, item: T): nat { if p.measure.Some? then p.measure.value(item) else 0 }

  /** The true byte sum. */
  function Sum<T>(p: Policy<T>, items: seq<T>): nat {
    if items == [] then 0 else Sum(p, items[..|items| - 1]) + Size(p, items[|items| - 1])
  }

  predicate Full<T>(p: Policy<T>, items: seq<T>) { |items| >= p.maxItems || Sum(p, items) >= p.maxBytes }

  /** `AgeTrigger::expired`; a clock that went back gives age zero. */
  predicate Expired(maxAge: Option<nat>, since: Option<int>, now: int) {
    maxAge.Some? && since.Some? && (if now > since.value then now - since.value else 0) >= maxAge.value
  }

  // ---------------------------------------------------------------- the specification

  function Emit<T>(o: Open<T>): (Open<T>, seq<seq<T>>) {
    if o.items == [] then (o, []) else (Open([], None), [o.items])
  }

  function OnItem<T>(p: Policy<T>, o: Open<T>, item: T, now: int): (Open<T>, seq<seq<T>>) {
    var o' := Open(o.items + [item], if p.maxAge.None? then None else if o.since.None? then Some(now) else o.since);
    if Expired(p.maxAge, o'.since, now) || Full(p, o'.items) then Emit(o') else (o', [])
  }

  function OnTick<T>(p: Policy<T>, o: Open<T>, now: int): (Open<T>, seq<seq<T>>) {
    if Expired(p.maxAge, o.since, now) then Emit(o) else (o, [])
  }

  // ---------------------------------------------------------------- the stage

  class BatchStage<T> {
    const p: Policy<T>
    var items: seq<T>
    var bytes: nat
    var openedAt: Option<int>

    ghost function View(): Open<T>
      reads this
    {
      Open(items, openedAt)
    }

    /** The counter is the true sum, as far as the word reaches. */
    ghost predicate Valid()
      reads this
    {
      p.Ok() && bytes == (if Sum(p, items) > WORD then WORD else Sum(p, items)) 
      && (items == [] || p.maxAge.None? ==> openedAt == None)
    }

    constructor (p: Policy<T>)
      requires p.Ok()
      ensures Valid() && View() == Open([], None) && this.p == p
    {
      this.p, items, bytes, openedAt := p, [], 0, None;
    }

    method EmitOpenBatch() returns (out: seq<seq<T>>)
      requires Valid()
      modifies this
      ensures Valid() && (View(), out) == Emit(old(View()))
    {
      if |items| == 0 { return []; }
      out := [items];
      items, bytes, openedAt := [], 0, None;
    }

    /** `limit_reached`, on the saturating counter, is right about the true sum. */
    method LimitReached() returns (full: bool)
      requires Valid()
      ensures full <==> Full(p, items)
    {
      full := |items| >= p.maxItems || bytes >= p.maxBytes;
    }

    /** The item joins the open batch, and the word-sized counter its size. */
    method Add(item: T)
      requires Valid()
      modifies `items, `bytes
      ensures items == old(items) + [item]
      ensures bytes == if Sum(p, items) > WORD then WORD else Sum(p, items)
    {
      if p.measure.Some? {
        var sum := bytes + p.measure.value(item);
        bytes := if sum > WORD then WORD else sum;
      }
      items := items + [item];
      assert items[..|items| - 1] == old(items);
    }

    method Process(item: T, now: int) returns (out: seq<seq<T>>)
      requires Valid()
      modifies this
      ensures Valid() && (View(), out) == OnItem(p, old(View()), item, now)
    {
      hide Sum;
      out := [];
      Add(item);
      if p.maxAge.Some? {
        if openedAt.None? { openedAt := Some(now); }
        if Expired(p.maxAge, openedAt, now) {
          out := EmitOpenBatch();
          return;
        }
      }
      var full := LimitReached();
      if full { out := EmitOpenBatch(); }
    }

    method Tick(now: int) returns (out: seq<seq<T>>)
      requires Valid()
      modifies this
      ensures Valid() && (View(), out) == OnTick(p, old(View()), now)
    {
      out := [];
      if Expired(p.maxAge, openedAt, now) { out := EmitOpenBatch(); }
    }

    method Flush() returns (out: seq<seq<T>>)
      requires Valid()
      modifies this
      ensures Valid() && (View(), out) == Emit(old(View()))
    {
      out := EmitOpenBatch();
    }
  }

  // ---------------------------------------------------------------- whole runs

  datatype Event<T> = Item(item: T, now: int) | TickAt(now: int) | Flushed

  function OnEvent<T>(p: Policy<T>, o: Open<T>, e: Event<T>): (Open<T>, seq<seq<T>>) {
    match e
    case Item(item, now) => OnItem(p, o, item, now)
    case TickAt(now) => OnTick(p, o, now)
    case Flushed => Emit(o)
  }

  function Run<T>(p: Policy<T>, events: seq<Event<T>>): (Open<T>, seq<seq<T>>) {
    if events == [] then (Open([], None), [])
    else
      var (o, out) := Run(p, events[..|events| - 1]);
      var (o', more) := OnEvent(p, o, events[|events| - 1]);
      (o', out + more)
  }

  /** The items fed, and when. */
  function Fed<T>(events: seq<Event<T>>): seq<T> {
    if events == [] then []
    else Fed(events[..|events| - 1]) + if events[|events| - 1].Item? then [events[|events| - 1].item] else []
  }

  function Times<T>(events: seq<Event<T>>): seq<int> {
    if events == [] then []
    else Times(events[..|events| - 1]) + if events[|events| - 1].Item? then [events[|events| - 1].now] else []
  }

  function Concat<T>(batches: seq<seq<T>>): seq<T> {
    if batches == [] then [] else Concat(batches[..|batches| - 1]) + batches[|batches| - 1]
  }

  ghost predicate BatchOk<T>(p: Policy<T>, b: seq<T>) {
    b != [] && |b| <= p.maxItems && Sum(p, b[..|b| - 1]) < p.maxBytes
  }

  ghost predicate OpenOk<T>(p: Policy<T>, o: Open<T>) { |o.items| < p.maxItems && Sum(p, o.items) < p.maxBytes }

  lemma ConcatOne<T>(batches: seq<seq<T>>, b: seq<T>)
    ensures Concat(batches + [b]) == Concat(batches) + b && batches + [] == batches
  {
    assert (batches + [b])[..|batches + [b]| - 1] == batches;
  }

  /** One event either lets the open batch grow or emits it whole. */
  lemma EventKeeps<T>(p: Policy<T>, o: Open<T>, e: Event<T>)
    requires p.Ok() && OpenOk(p, o)
    ensures var (o', more) := OnEvent(p, o, e);
      var full := if e.Item? then o.items + [e.item] else o.items;
      && OpenOk(p, o')
      && ((more == [] && o'.items == full) || (more == [full] && o'.items == [] && BatchOk(p, full)))
  {
    if e.Item? {
      var full := o.items + [e.item];
      assert full[..|full| - 1] == o.items;
    } else if o.items != [] {
      assert Sum(p, o.items[..|o.items| - 1]) <= Sum(p, o.items);
    }
  }

  /**
    Batching loses nothing and keeps the order, over any run and for any clock; every batch
    is non-empty and within the count limit, only its last item may cross the byte limit,
    in the true sum, and the open batch is below both limits.
  */
  lemma {:induction false} NothingIsLost<T>(p: Policy<T>, events: seq<Event<T>>)
    requires p.Ok()
    ensures var (o, out) := Run(p, events);
      && Concat(out) + o.items == Fed(events)
      && (forall b :: b in out ==> BatchOk(p, b))
      && OpenOk(p, o)
  {
    if events != [] {
      var front, e := events[..|events| - 1], events[|events| - 1];
      NothingIsLost(p, front);
      var (o, out) := Run(p, front);
      EventKeeps(p, o, e);
      hide OpenOk, BatchOk, OnEvent, Concat;
      var full := if e.Item? then o.items + [e.item] else o.items;
      ConcatOne(out, full);
      assert Concat(out) + full == Fed(events);
    }
  }

  /** Without an age limit and before the first flush every batch is full. */
  lemma {:induction false} BatchesAreFull<T>(p: Policy<T>, events: seq<Event<T>>)
    requires p.maxAge.None? && Flushed !in events
    ensures forall b :: b in Run(p, events).1 ==> Full(p, b)
  {
    if events != [] {
      var front, e := events[..|events| - 1], events[|events| - 1];
      assert e in events && forall x :: x in front ==> x in events;
      BatchesAreFull(p, front);
    }
  }

  predicate Monotone<T>(events: seq<Event<T>>) {
    forall i, j :: 0 <= i < j < |events| && !events[i].Flushed? && !events[j].Flushed? ==>
      events[i].now <= events[j].now
  }

  /** With an age limit the open batch remembers when its first item arrived. */
  lemma {:induction false} SinceFirstItem<T>(p: Policy<T>, events: seq<Event<T>>)
    requires p.Ok() && p.maxAge.Some?
    ensures var o := Run(p, events).0;
      && |o.items| <= |Times(events)|
      && o.since == if o.items == [] then None else Some(Times(events)[|Times(events)| - |o.items|])
  {
    if events != [] { SinceFirstItem(p, events[..|events| - 1]); }
  }

  /** An item's arrival is not later than the last event's time when the clock is monotone. */
  lemma {:induction false} TimesAreEvents<T>(events: seq<Event<T>>, k: nat)
    requires k < |Times(events)|
    ensures exists i :: 0 <= i < |events| && events[i].Item? && events[i].now == Times(events)[k]
  {
    var front := events[..|events| - 1];
    if k < |Times(front)| {
      TimesAreEvents(front, k);
      var i :| 0 <= i < |front| && front[i].Item? && front[i].now == Times(front)[k];
      assert events[i].now == Times(events)[k];
    } else {
      assert events[|events| - 1].now == Times(events)[k];
    }
  }

  /**
    With a monotone clock no batch that is `max_age` old stays open: after an item or a tick
    at `now`, the first item of the open batch arrived less than `max_age` ago.
  */
  lemma NoneStaysOpen<T>(p: Policy<T>, events: seq<Event<T>>)
    requires p.Ok() && p.maxAge.Some? && Monotone(events) && events != [] && !events[|events| - 1].Flushed?
    ensures var o := Run(p, events).0;
      o.items != [] ==>
        |o.items| <= |Times(events)| &&
        var arrival := Times(events)[|Times(events)| - |o.items|];
        arrival <= events[|events| - 1].now < arrival + p.maxAge.value
  {
    var front, e := events[..|events| - 1], events[|events| - 1];
    var o := Run(p, events).0;
    SinceFirstItem(p, events);
    if o.items != [] {
      var k := |Times(events)| - |o.items|;
      TimesAreEvents(events, k);
      SinceFirstItem(p, front);
      NotExpired(p, Run(p, front).0, e);
      hide *;
      var i :| 0 <= i < |events| && events[i].Item? && events[i].now == Times(events)[k];
      MonotoneEnd(events, i);
    }
  }

  lemma NotExpired<T>(p: Policy<T>, o: Open<T>, e: Event<T>)
    requires p.Ok() && p.maxAge.Some? && !e.Flushed? && (o.items == [] ==> o.since == None)
    ensures var after := OnEvent(p, o, e).0; after.items != [] && after.since.Some? ==>
      e.now < after.since.value + p.maxAge.value
  {
    hide Sum;
  }

  lemma MonotoneEnd<T>(events: seq<Event<T>>, i: nat)
    requires Monotone(events) && i < |events| && events[i].Item? && !events[|events| - 1].Flushed?
    ensures events[i].now <= events[|events| - 1].now
  {}

  /** The items waiting when `e` has arrived, and when the first of them did. */
  function Waiting<T>(p: Policy<T>, front: seq<Event<T>>, e: Event<T>): seq<T> {
    Run(p, front).0.items + if e.Item? then [e.item] else []
  }

  lemma {:induction false} OpenIsFed<T>(p: Policy<T>, events: seq<Event<T>>)
    ensures |Run(p, events).0.items| <= |Times(events)|
  {
    if events != [] { OpenIsFed(p, events[..|events| - 1]); }
  }

  /** The items waiting reach a limit, or the first of them, which arrived at `arrival`, is old. */
  predicate IsRipe<T>(p: Policy<T>, waiting: seq<T>, arrival: int, now: int) {
    || |waiting| == p.maxItems || Sum(p, waiting) >= p.maxBytes
    || (p.maxAge.Some? && (p.maxAge.value == 0 || now - arrival >= p.maxAge.value))
  }

  lemma EventEmits<T>(p: Policy<T>, o: Open<T>, e: Event<T>, arrival: int)
    requires p.Ok() && OpenOk(p, o) && !e.Flushed?
    requires p.maxAge.Some? ==> o.since == if o.items == [] then None else Some(arrival)
    requires o.items == [] && e.Item? ==> arrival == e.now
    ensures var waiting := o.items + if e.Item? then [e.item] else [];
      OnEvent(p, o, e).1 == if waiting != [] && IsRipe(p, waiting, arrival, e.now) then [waiting] else []
  {
    hide Sum;
    assert o.items + [] == o.items;
  }

  /**
    No batch is emitted early and none late: an item or a tick emits the items waiting, as one
    batch, if and only if there are some and they reach a limit, or the first of them
    arrived at least `max_age` ago; a clock that went back gives it age zero. For any clock.
  */
  lemma {:induction false} EmittedExactlyWhen<T>(p: Policy<T>, front: seq<Event<T>>, e: Event<T>)
    requires p.Ok() && !e.Flushed?
    ensures var waiting, times := Waiting(p, front, e), Times(front + [e]);
      && |waiting| <= |times|
      && Run(p, front + [e]).1 == Run(p, front).1 +
           if waiting != [] && IsRipe(p, waiting, times[|times| - |waiting|], e.now) then [waiting] else []
  {
    var events, o := front + [e], Run(p, front).0;
    assert events[..|events| - 1] == front;
    NothingIsLost(p, front);
    OpenIsFed(p, front);
    if p.maxAge.Some? { SinceFirstItem(p, front); }
    assert Times(events) == Times(front) + if e.Item? then [e.now] else [];
    assert Run(p, events).1 == Run(p, front).1 + OnEvent(p, o, e).1;
    hide OnEvent, Run, Times, OpenOk, BatchOk, IsRipe;
    var waiting, times := Waiting(p, front, e), Times(events);
    EventEmits(p, o, e, if waiting == [] then 0 else times[|times| - |waiting|]);
  }
}
