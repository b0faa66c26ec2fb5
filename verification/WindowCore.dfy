/**
  The window state machine of src/window.rs: `align`, `sliding_range`,
  `grid_origin`, and the three variants of `Core` with `on_item`, `on_tick`,
  `on_flush` and `deadline`.

  Instants and durations are integers counting nanoseconds. `Grid.horizon` is
  the last representable instant, so `checked_add` fails exactly above it.
  A core is a value (it lives inside a slab cell). Each operation is a function
  from a core to the next core and the windows it emits; the operations the
  program writes as loops over the slot deque are also methods with those loops,
  proved to compute the functions.
*/
module WindowCore {
  import opened Options

  datatype Policy =
    | Tumbling(size: nat)
    | Sliding(size: nat, slide: nat)
    | Session(idle: nat)

  /** `WindowPolicy::check`, without the overlap limit (1024), which no law needs. */
  predicate ValidPolicy(policy: Policy) {
    match policy
    case Tumbling(size) => 0 < size
    case Sliding(size, slide) => 0 < slide <= size
    case Session(idle) => 0 < idle
  }

  datatype Window<T> = Window(items: seq<T>, start: int, end: int)

  datatype Slot<T> = Slot(k: nat, start: int, end: Option<int>, items: seq<T>)

  datatype Core<T> =
    | TumblingCore(size: nat, start: Option<int>, items: seq<T>)
    | SlidingCore(size: nat, slide: nat, slots: seq<Slot<T>>)
    | SessionCore(idle: nat, start: Option<int>, last: Option<int>, items: seq<T>)

  /** The grid origin shared by all keys of a stage, and the last representable instant. */
  datatype Grid = Grid(anchor: int, horizon: int)

  /** A core after one operation, and the windows that operation emitted. */
  datatype Step<T> = Step(core: Core<T>, out: seq<Window<T>>)

  // ---------------------------------------------------------------- time

  function Max(a: int, b: int): int { if a < b then b else a }

  /** `Instant::checked_add`. */
  function CheckedAdd(t: int, d: nat, horizon: int): Option<int> {
    if t + d <= horizon then Some(t + d) else None
  }

  /** `Instant::saturating_duration_since`. */
  function Since(now: int, earlier: int): nat {
    if earlier < now then now - earlier else 0
  }

  /** `origin + n * step`, or the fallback if that is not representable. */
  function Offset(g: Grid, n: nat, step: nat, fallback: int): int {
    CheckedAdd(g.anchor, n * step, g.horizon).GetOr(fallback)
  }

  function Align(g: Grid, now: int, size: nat): int {
    Offset(g, Since(now, g.anchor) / Max(size, 1), size, now)
  }

  function CeilDiv(a: nat, b: nat): nat
    requires 0 < b
  {
    if a % b == 0 then a / b else a / b + 1
  }

  /** Origin of the grid if the first item arrives at `first`; `lowest` is the first representable instant. */
  function GridOrigin(policy: Policy, first: int, lowest: int): int {
    match policy
    case Sliding(size, slide) =>
      var back := Max(CeilDiv(size, Max(slide, 1)) - 1, 0) * slide;
      if lowest <= first - back then first - back else first
    case _ => first
  }

  /** Smallest index of a sliding window that contains `now`. */
  function KMin(g: Grid, now: int, size: nat, slide: nat): nat {
    var e := Since(now, g.anchor);
    if size <= e then (e - size) / Max(slide, 1) + 1 else 0
  }

  /** Largest index of a sliding window that contains `now`. */
  function KMax(g: Grid, now: int, slide: nat): nat {
    Since(now, g.anchor) / Max(slide, 1)
  }

  // ---------------------------------------------------------------- core

  function NewCore<T>(policy: Policy): Core<T> {
    match policy
    case Tumbling(size) => TumblingCore(size, None, [])
    case Sliding(size, slide) => SlidingCore(size, slide, [])
    case Session(idle) => SessionCore(idle, None, None, [])
  }

  predicate IsEmpty<T>(core: Core<T>) {
    match core
    case TumblingCore(_, _, items) => |items| == 0
    case SessionCore(_, _, _, items) => |items| == 0
    case SlidingCore(_, _, slots) => forall i :: 0 <= i < |slots| ==> |slots[i].items| == 0
  }

  /** Earliest instant at which `OnTick` would emit or reset something. */
  function Deadline<T>(core: Core<T>, horizon: int): Option<int> {
    match core
    case TumblingCore(size, start, _) =>
      if start.Some? then CheckedAdd(start.value, size, horizon) else None
    case SessionCore(idle, _, last, _) =>
      if last.Some? && CheckedAdd(last.value, idle, horizon).Some?
      then CheckedAdd(last.value + idle, 1, horizon)
      else None
    case SlidingCore(_, _, slots) =>
      if slots == [] then None else slots[0].end
  }

  /** The window, unless it would be empty. */
  function NonEmpty<T>(items: seq<T>, start: int, end: int): (out: seq<Window<T>>) {
    if items == [] then [] else [Window(items, start, end)]
  }

  // Sliding windows: the deque of open slots.

  function DropBefore<T>(slots: seq<Slot<T>>, kMin: nat): seq<Slot<T>> {
    if slots != [] && slots[0].k < kMin then DropBefore(slots[1..], kMin) else slots
  }

  function EmitBefore<T>(slots: seq<Slot<T>>, kMin: nat): seq<Window<T>> {
    if slots != [] && slots[0].k < kMin
    then NonEmpty(slots[0].items, slots[0].start, slots[0].end.GetOr(slots[0].start)) + EmitBefore(slots[1..], kMin)
    else []
  }

  function FlushSlots<T>(slots: seq<Slot<T>>, now: int): seq<Window<T>> {
    if slots == [] then []
    else NonEmpty(slots[0].items, slots[0].start, slots[0].end.GetOr(now)) + FlushSlots(slots[1..], now)
  }

  /** Slot `k` as `sliding_on_item` creates it at `now`. */
  function FreshSlot<T>(size: nat, slide: nat, g: Grid, now: int, k: nat): Slot<T> {
    var start := Offset(g, k, slide, now);
    Slot(k, start, CheckedAdd(start, size, g.horizon), [])
  }

  function FreshSlots<T>(size: nat, slide: nat, g: Grid, now: int): nat -> Slot<T> {
    (k: nat) => FreshSlot(size, slide, g, now, k)
  }

  /** An item at `now`, with what adding it to slots needs to know besides the slots. */
  datatype Arrival<T> = Arrival(cap: nat, now: int, item: T, create: nat -> Slot<T>)

  function Pushed<T>(a: Arrival<T>, slot: Slot<T>): Slot<T> {
    var items := slot.items + [a.item];
    slot.(items := if |items| >= a.cap then [] else items)
  }

  function PushedOut<T>(a: Arrival<T>, slot: Slot<T>): seq<Window<T>> {
    var items := slot.items + [a.item];
    if |items| >= a.cap then [Window(items, slot.start, slot.end.GetOr(a.now))] else []
  }

  datatype Placed<T> = Placed(slots: seq<Slot<T>>, out: seq<Window<T>>)

  /** Add the item to slot `k`, which is created in its place if it is missing. */
  function PlaceOne<T>(slots: seq<Slot<T>>, k: nat, a: Arrival<T>): Placed<T> {
    if slots == [] || k < slots[0].k then
      Placed([Pushed(a, a.create(k))] + slots, PushedOut(a, a.create(k)))
    else if slots[0].k == k then
      Placed([Pushed(a, slots[0])] + slots[1..], PushedOut(a, slots[0]))
    else
      var rest := PlaceOne(slots[1..], k, a);
      Placed([slots[0]] + rest.slots, rest.out)
  }

  /** Add the item to the slots `k .. kMax`, one after the other. */
  function Place<T>(slots: seq<Slot<T>>, k: nat, kMax: nat, a: Arrival<T>): Placed<T>
    decreases if k <= kMax then kMax + 1 - k else 0
  {
    if kMax < k then
      Placed(slots, [])
    else
      var one := PlaceOne(slots, k, a);
      var rest := Place(one.slots, k + 1, kMax, a);
      Placed(rest.slots, one.out + rest.out)
  }

  // The three operations.

  function TumblingItem<T>(core: Core<T>, cap: nat, g: Grid, now: int, item: T): Step<T>
    requires core.TumblingCore?
  {
    var size := core.size;
    var current := core.start.GetOr(Align(g, now, size));
    var end := CheckedAdd(current, size, g.horizon);
    var passed := end.Some? && end.value <= now;
    var closed := if passed then NonEmpty(core.items, current, end.value) else [];
    var start := if passed then Align(g, now, size) else current;
    var items := (if passed then [] else core.items) + [item];
    if |items| >= cap
    then Step(TumblingCore(size, Some(start), []),
              closed + [Window(items, start, CheckedAdd(start, size, g.horizon).GetOr(now))])
    else Step(TumblingCore(size, Some(start), items), closed)
  }

  function SessionItem<T>(core: Core<T>, cap: nat, now: int, item: T): Step<T>
    requires core.SessionCore?
  {
    var gap := core.last.Some? && Since(now, core.last.value) > core.idle;
    var closed := if gap then NonEmpty(core.items, core.start.GetOr(core.last.value), core.last.value) else [];
    var start := if gap || core.last.None? then Some(now) else core.start;
    var items := (if gap then [] else core.items) + [item];
    if |items| >= cap
    then Step(SessionCore(core.idle, Some(now), Some(now), []), closed + [Window(items, start.GetOr(now), now)])
    else Step(SessionCore(core.idle, start, Some(now), items), closed)
  }

  function SlidingItem<T>(core: Core<T>, cap: nat, g: Grid, now: int, item: T): Step<T>
    requires core.SlidingCore?
  {
    var kMin := KMin(g, now, core.size, core.slide);
    var a := Arrival(cap, now, item, FreshSlots(core.size, core.slide, g, now));
    var placed := Place(DropBefore(core.slots, kMin), kMin, KMax(g, now, core.slide), a);
    Step(core.(slots := placed.slots), EmitBefore(core.slots, kMin) + placed.out)
  }

  function OnItem<T>(core: Core<T>, cap: nat, g: Grid, now: int, item: T): Step<T> {
    match core
    case TumblingCore(_, _, _) => TumblingItem(core, cap, g, now, item)
    case SessionCore(_, _, _, _) => SessionItem(core, cap, now, item)
    case SlidingCore(_, _, _) => SlidingItem(core, cap, g, now, item)
  }

  function OnTick<T>(core: Core<T>, g: Grid, now: int): Step<T> {
    match core
    case TumblingCore(size, start, items) =>
      var end := if start.Some? then CheckedAdd(start.value, size, g.horizon) else None;
      if end.Some? && end.value <= now
      then Step(TumblingCore(size, Some(Align(g, now, size)), []), NonEmpty(items, start.value, end.value))
      else Step(core, [])
    case SessionCore(idle, start, last, items) =>
      if last.Some? && Since(now, last.value) > idle
      then Step(SessionCore(idle, None, None, []), NonEmpty(items, start.GetOr(last.value), last.value))
      else Step(core, [])
    case SlidingCore(size, slide, slots) =>
      var kMin := KMin(g, now, size, slide);
      Step(core.(slots := DropBefore(slots, kMin)), EmitBefore(slots, kMin))
  }

  function OnFlush<T>(core: Core<T>, g: Grid, now: int): Step<T> {
    match core
    case TumblingCore(size, start, items) =>
      var s := start.GetOr(now);
      Step(TumblingCore(size, None, []), NonEmpty(items, s, CheckedAdd(s, size, g.horizon).GetOr(now)))
    case SessionCore(idle, start, last, items) =>
      var e := last.GetOr(now);
      Step(SessionCore(idle, None, None, []), NonEmpty(items, start.GetOr(e), e))
    case SlidingCore(size, slide, slots) =>
      Step(SlidingCore(size, slide, []), FlushSlots(slots, now))
  }

  // ---------------------------------------------------------------- the loops

  /** `emit_slots_before`. */
  method EmitSlotsBefore<T>(slots: seq<Slot<T>>, kMin: nat) returns (rest: seq<Slot<T>>, out: seq<Window<T>>)
    ensures rest == DropBefore(slots, kMin)
    ensures out == EmitBefore(slots, kMin)
  {
    rest, out := slots, [];
    while rest != [] && rest[0].k < kMin
      invariant DropBefore(rest, kMin) == DropBefore(slots, kMin)
      invariant out + EmitBefore(rest, kMin) == EmitBefore(slots, kMin)
      decreases |rest|
    {
      var slot := rest[0];
      if slot.items != [] {
        out := out + [Window(slot.items, slot.start, slot.end.GetOr(slot.start))];
      }
      rest := rest[1..];
    }
  }

  /** Slot `k` is where a scan for it stops; `at` is the deque with it there. */
  lemma {:induction false} PlaceOneAt<T>(slots: seq<Slot<T>>, idx: nat, k: nat, a: Arrival<T>)
    requires idx <= |slots|
    requires forall j :: 0 <= j < idx ==> slots[j].k < k
    requires idx < |slots| ==> k <= slots[idx].k
    ensures var at := Present(slots, idx, k, a);
            PlaceOne(slots, k, a) == Placed(at[idx := Pushed(a, at[idx])], PushedOut(a, at[idx]))
  {
    if 0 < idx {
      PlaceOneAt(slots[1..], idx - 1, k, a);
      PresentShifts(slots, idx, k, a);
    } else if slots == [] || slots[0].k != k {
      assert Present(slots, 0, k, a) == [a.create(k)] + slots;
    }
  }

  lemma PresentShifts<T>(slots: seq<Slot<T>>, idx: nat, k: nat, a: Arrival<T>)
    requires 0 < idx <= |slots|
    ensures var tail, at := Present(slots[1..], idx - 1, k, a), Present(slots, idx, k, a);
            [slots[0]] + tail[idx - 1 := Pushed(a, tail[idx - 1])] == at[idx := Pushed(a, at[idx])]
              && tail[idx - 1] == at[idx]
  {
    assert [slots[0]] + Present(slots[1..], idx - 1, k, a) == Present(slots, idx, k, a);
  }

  /** The deque with slot `k` at `idx`. */
  function Present<T>(slots: seq<Slot<T>>, idx: nat, k: nat, a: Arrival<T>): seq<Slot<T>>
    requires idx <= |slots|
  {
    if idx < |slots| && slots[idx].k == k then slots else slots[..idx] + [a.create(k)] + slots[idx..]
  }

  /** The body of the pass: locate or create slot `k` at `idx`, push, and emit the slot if it is full. */
  method PushAt<T>(
      slots0: seq<Slot<T>>, idx: nat, k: nat, a: Arrival<T>) returns (slots: seq<Slot<T>>, out: seq<Window<T>>)
    requires idx <= |slots0|
    ensures var at := Present(slots0, idx, k, a);
            slots == at[idx := Pushed(a, at[idx])] && out == PushedOut(a, at[idx])
  {
    slots, out := slots0, [];
    if idx == |slots| || slots[idx].k != k {
      slots := slots[..idx] + [a.create(k)] + slots[idx..];
    }
    var items := slots[idx].items + [a.item];
    if |items| >= a.cap {
      out := [Window(items, slots[idx].start, slots[idx].end.GetOr(a.now))];
      items := [];
    }
    slots := slots[idx := slots[idx].(items := items)];
  }

  /** The forward pass of `sliding_on_item` over the deque, which stays in place. */
  method JoinRange<T>(
      slots0: seq<Slot<T>>, kMin: nat, kMax: nat, a: Arrival<T>) returns (slots: seq<Slot<T>>, out: seq<Window<T>>)
    requires forall k :: a.create(k).k == k
    ensures Placed(slots, out) == Place(slots0, kMin, kMax, a)
  {
    slots, out := slots0, [];
    var idx, k: int := 0, kMin;
    while k <= kMax
      invariant kMin <= k && 0 <= idx <= |slots|
      invariant forall j :: 0 <= j < idx ==> slots[j].k < k
      invariant Place(slots, k, kMax, a).slots == Place(slots0, kMin, kMax, a).slots
      invariant out + Place(slots, k, kMax, a).out == Place(slots0, kMin, kMax, a).out
      decreases kMax as int + 1 - k
    {
      while idx < |slots| && slots[idx].k < k
        invariant 0 <= idx <= |slots|
        invariant forall j :: 0 <= j < idx ==> slots[j].k < k
      {
        idx := idx + 1;
      }
      ghost var one := PlaceOne(slots, k, a);
      ghost var rest := Place(one.slots, k + 1, kMax, a);
      assert out + (one.out + rest.out) == (out + one.out) + rest.out;
      PlaceOneAt(slots, idx, k, a);
      var full;
      slots, full := PushAt(slots, idx, k, a);
      assert Placed(slots, full) == one;
      out := out + full;
      idx, k := idx + 1, k + 1;
    }
  }

  /** `sliding_on_item`. */
  method SlidingOnItem<T>(slots0: seq<Slot<T>>, cap: nat, size: nat, slide: nat, g: Grid, now: int, item: T)
    returns (slots: seq<Slot<T>>, out: seq<Window<T>>)
    ensures Step(SlidingCore(size, slide, slots), out)
      == SlidingItem(SlidingCore(size, slide, slots0), cap, g, now, item)
  {
    var kMin, kMax := KMin(g, now, size, slide), KMax(g, now, slide);
    var open, joined;
    open, out := EmitSlotsBefore(slots0, kMin);
    slots, joined := JoinRange(open, kMin, kMax, Arrival(cap, now, item, FreshSlots(size, slide, g, now)));
    out := out + joined;
  }

  /** The flush loop of a sliding core: pop every slot, emit the non-empty ones. */
  method FlushSlotsLoop<T>(slots: seq<Slot<T>>, now: int) returns (out: seq<Window<T>>)
    ensures out == FlushSlots(slots, now)
  {
    out := [];
    var rest := slots;
    while rest != []
      invariant out + FlushSlots(rest, now) == FlushSlots(slots, now)
      decreases |rest|
    {
      var slot := rest[0];
      if slot.items != [] {
        out := out + [Window(slot.items, slot.start, slot.end.GetOr(now))];
      }
      rest := rest[1..];
    }
  }

  /** `Core::on_item`. */
  method CoreOnItem<T>(core: Core<T>, cap: nat, g: Grid, now: int, item: T) returns (next: Core<T>, out: seq<Window<T>>)
    ensures Step(next, out) == OnItem(core, cap, g, now, item)
  {
    match core {
      case SlidingCore(size, slide, slots) =>
        var slots';
        slots', out := SlidingOnItem(slots, cap, size, slide, g, now, item);
        next := SlidingCore(size, slide, slots');
      case TumblingCore(size, start, items0) =>
        var items, current := items0, start.GetOr(Align(g, now, size));
        out := [];
        var end := CheckedAdd(current, size, g.horizon);
        if end.Some? && end.value <= now {
          if items != [] {
            out, items := [Window(items, current, end.value)], [];
          }
          current := Align(g, now, size);
        }
        items := items + [item];
        if |items| >= cap {
          out := out + [Window(items, current, CheckedAdd(current, size, g.horizon).GetOr(now))];
          items := [];
        }
        next := TumblingCore(size, Some(current), items);
      case SessionCore(idle, start0, last, items0) =>
        var items, start := items0, start0;
        out := [];
        if last.Some? && Since(now, last.value) > idle {
          if items != [] {
            out, items := [Window(items, start.GetOr(last.value), last.value)], [];
          }
          start := Some(now);
        } else if last.None? {
          start := Some(now);
        }
        items := items + [item];
        if |items| >= cap {
          out := out + [Window(items, start.GetOr(now), now)];
          items, start := [], Some(now);
        }
        next := SessionCore(idle, start, Some(now), items);
    }
  }

  /** `Core::on_tick`. */
  method CoreOnTick<T>(core: Core<T>, g: Grid, now: int) returns (next: Core<T>, out: seq<Window<T>>)
    ensures Step(next, out) == OnTick(core, g, now)
  {
    match core {
      case SlidingCore(size, slide, slots) =>
        var rest;
        rest, out := EmitSlotsBefore(slots, KMin(g, now, size, slide));
        next := core.(slots := rest);
      case TumblingCore(size, start, items) =>
        next, out := core, [];
        if start.Some? && CheckedAdd(start.value, size, g.horizon).Some? && start.value + size <= now {
          if items != [] {
            out := [Window(items, start.value, start.value + size)];
          }
          next := TumblingCore(size, Some(Align(g, now, size)), []);
        }
      case SessionCore(idle, start, last, items) =>
        next, out := core, [];
        if last.Some? && Since(now, last.value) > idle {
          if items != [] {
            out := [Window(items, start.GetOr(last.value), last.value)];
          }
          next := SessionCore(idle, None, None, []);
        }
    }
  }

  /** `Core::on_flush`. */
  method CoreOnFlush<T>(core: Core<T>, g: Grid, now: int) returns (next: Core<T>, out: seq<Window<T>>)
    ensures Step(next, out) == OnFlush(core, g, now)
  {
    match core {
      case SlidingCore(_, _, slots) =>
        out := FlushSlotsLoop(slots, now);
        next := core.(slots := []);
      case TumblingCore(size, start, items) =>
        out := [];
        if items != [] {
          var s := start.GetOr(now);
          out := [Window(items, s, CheckedAdd(s, size, g.horizon).GetOr(now))];
        }
        next := TumblingCore(size, None, []);
      case SessionCore(idle, start, last, items) =>
        out := [];
        if items != [] {
          var e := last.GetOr(now);
          out := [Window(items, start.GetOr(e), e)];
        }
        next := SessionCore(idle, None, None, []);
    }
  }
}
