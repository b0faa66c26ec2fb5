/**
  Inputs on which the documentation promises more than the keyed stage does, run through the
  stage itself: sessions and sliding windows that come out against the order of their ends,
  and a clock that goes back, after which the heap outgrows the keys held.
*/
module KeyedExamples {
  import opened Options
  import opened WindowCore
  import opened WindowLaws
  import opened WindowRuns
  import opened NaiveKeyed
  import opened KeyedState
  import opened KeyedRep
  import opened KeyedRefines
  import opened KeyedOrder
  import opened KeyedItem
  import opened KeyedHeap
  import opened KeyedStage

  // ---------------------------------------------------------------- single steps

  /** Every turn takes one due entry and adds none. */
  lemma {:induction false} TurnsPop<K, T>(r0: Rep<K, T>, turns: seq<Turn<K, T>>, r: Rep<K, T>, g: Grid, now: int)
    requires RepOk(r0) && Treads(r0, turns, r, g, now)
    ensures |turns| + |DueBy(r.heap, now)| <= |DueBy(r0.heap, now)|
  {
    hide RepOk, Turned;
    if turns != [] {
      var t := turns[|turns| - 1];
      TreadsOk(r0, turns[..|turns| - 1], t.before, g, now);
      TurnsPop(r0, turns[..|turns| - 1], t.before, g, now);
      TurnOk(t.before, r, t.d, t.emitted, g, now);
      var was := DueBy(t.before.heap, now);
      assert DueBy(r.heap, now) <= was - {t.d} && t.d in was;
      SubsetSize(DueBy(r.heap, now), was - {t.d});
    }
  }

  lemma NothingFires<K, T>(r0: Rep<K, T>, x: Expiry<K, T>, g: Grid, now: int)
    requires RepOk(r0) && Expires(r0, x, g, now) && DueBy(r0.heap, now) == {}
    ensures x.turns == [] && x.after == r0 && EmittedIn(x.turns) == []
  {
    hide RepOk;
    TurnsPop(r0, x.turns, x.after, g, now);
  }

  lemma OneFires<K, T>(r0: Rep<K, T>, x: Expiry<K, T>, g: Grid, now: int, d: Due)
    requires RepOk(r0) && Expires(r0, x, g, now) && DueBy(r0.heap, now) == {d}
    ensures |x.turns| == 1 && Turned(r0, x.after, d, x.turns[0].emitted, g, now)
  {
    hide RepOk, Turned;
    TurnsPop(r0, x.turns, x.after, g, now);
    var t := x.turns[|x.turns| - 1];
    assert x.turns[..|x.turns| - 1] == [];
    assert t.d in DueBy(r0.heap, now);
  }

  /** An item when nothing is due. */
  lemma ItemAlone<K(!new), T(!new)>(
      r0: Rep<K, T>, x: Expiry<K, T>, r: Rep<K, T>, out: seq<(K, Window<T>)>, s: Keyed<K, T>, g: Grid, now: int,
      item: T)
    requires RepOk(r0) && ItemDone(r0, x, r, out, s, g, now, item) && DueBy(r0.heap, now) == {}
    ensures Added(r0, r, out, s, g, now, item)
  {
    assert Expires(r0, x, g, now) && Added(x.after, r, out[|EmittedIn(x.turns)|..], s, g, now, item);
    hide *;
    NothingFires(r0, x, g, now);
    assert out[0..] == out;
  }

  /** A new key, with room for it. */
  lemma NewKey<K(!new), T(!new)>(
      r: Rep<K, T>, r': Rep<K, T>, out: seq<(K, Window<T>)>, s: Keyed<K, T>, g: Grid, now: int, item: T)
    requires RepOk(r) && Added(r, r', out, s, g, now, item) && s.key(item) !in r.index && |r.index| < s.maxKeys
    ensures NewSlot(r) <= |r.slab| && Live(InsertRep(r, s.key(item), s.c.policy).slab, NewSlot(r))
    ensures var mid := InsertRep(r, s.key(item), s.c.policy);
      var step := OnItem(NewCore(s.c.policy), s.c.cap, g, now, item);
      r' == ItemRep(mid, NewSlot(r), step.core, now, s.c.horizon) && out == Tagged(s.key(item), step.out)
  {
    var mid, slot: nat, evicted :| AddedAt(r, mid, r', slot, evicted, out, s, g, now, item);
    hide RepOk, InsertRep, NewSlot, OnItem, ItemRep, FilledRep;
    InsertedSlot(r, s.key(item), s.c.policy);
    InsertedIsNew(r, mid, slot, s, s.key(item), s.c.horizon);
    assert evicted + Tagged(s.key(item), OnItem(NewCore(s.c.policy), s.c.cap, g, now, item).out) ==
      Tagged(s.key(item), OnItem(NewCore(s.c.policy), s.c.cap, g, now, item).out);
  }

  /** A first entry for a key, with room in the heap. */
  lemma FirstEntry<K, T>(r: Rep<K, T>, slot: nat, now: int, horizon: int, at: int)
    requires Live(r.slab, slot) && r.slab[slot].value.scheduled == None
    requires Deadline(r.slab[slot].value.core, horizon) == Some(at)
    requires now < at && |r.heap| + 1 <= 2 * |r.index| + 64
    ensures Rescheduled(r, slot, now, horizon) == r.(
      slab := r.slab[slot := Some(r.slab[slot].value.(ticket := r.tickets + 1, scheduled := Some(at)))],
      tickets := r.tickets + 1, heap := r.heap + {Due(at, r.tickets + 1, slot)})
  {
    hide Deadline;
    assert |r.heap + {Due(at, r.tickets + 1, slot)}| <= |r.heap| + 1;
  }

  /** A key that has an early enough entry already. */
  lemma EntryStands<K, T>(r: Rep<K, T>, slot: nat, now: int, horizon: int, at: int)
    requires Live(r.slab, slot) && Deadline(r.slab[slot].value.core, horizon) == Some(at) && now < at
    requires r.slab[slot].value.scheduled.Some? && r.slab[slot].value.scheduled.value <= at
    ensures Rescheduled(r, slot, now, horizon) == r
  {
    hide Deadline;
  }

  /** A key that is held, and not the last one in the list. */
  lemma HeldKey<K(!new), T(!new)>(
      r: Rep<K, T>, r': Rep<K, T>, out: seq<(K, Window<T>)>, s: Keyed<K, T>, g: Grid, now: int, item: T, slot: nat)
    returns (p: nat)
    requires RepOk(r) && Added(r, r', out, s, g, now, item)
    requires s.key(item) in r.index && r.index[s.key(item)] == slot && slot != r.tail
    ensures p < |r.lru| && r.lru[p] == slot && Live(TouchRep(r, p).slab, slot)
    ensures var step := OnItem(TouchRep(r, p).slab[slot].value.core, s.c.cap, g, now, item);
      r' == ItemRep(TouchRep(r, p), slot, step.core, now, s.c.horizon) && out == Tagged(s.key(item), step.out)
  {
    var mid, slot', evicted :| AddedAt(r, mid, r', slot', evicted, out, s, g, now, item);
    hide RepOk, TouchRep, OnItem, ItemRep;
    p :| p < |r.lru| && r.lru[p] == slot && mid == TouchRep(r, p);
    assert evicted + Tagged(s.key(item), OnItem(mid.slab[slot].value.core, s.c.cap, g, now, item).out) ==
      Tagged(s.key(item), OnItem(mid.slab[slot].value.core, s.c.cap, g, now, item).out);
  }

  // ---------------------------------------------------------------- two keys

  const END := 1000000

  function Same(x: char): char { x }

  function Spec(policy: Policy): Keyed<char, char> { Keyed(Config(policy, 100, 0, END), 8, Same) }

  function Entry(
      key: char, core: Core<char>, n: nat, prev: int, next: int, scheduled: Option<int>): (e: KeyEntry<char, char>)
  {
    KeyEntry(key, core, n, prev, next, if scheduled.Some? then n else 0, scheduled)
  }

  /** Key "a" with its heap entry, alone in the stage. */
  function OneKey(core: Core<char>, at: int): Rep<char, char> {
    Rep(map['a' := 0], [Some(Entry('a', core, 1, NIL, NIL, Some(at)))], [], [0], 0, 0, {Due(at, 1, 0)}, 1, 1, 1)
  }

  /** Keys "a" and "b", "a" less recently active. */
  function TwoKeys(a: Core<char>, atA: int, b: Core<char>, atB: int): Rep<char, char> {
    Rep(map['a' := 0, 'b' := 1], [Some(Entry('a', a, 1, NIL, 1, Some(atA))), Some(Entry('b', b, 2, 0, NIL, Some(atB)))],
        [], [0, 1], 0, 1, {Due(atA, 1, 0), Due(atB, 2, 1)}, 2, 2, 2)
  }

  /** The same with "b" less recently active. */
  function Swapped(a: Core<char>, atA: int, b: Core<char>, atB: int): Rep<char, char> {
    Rep(map['a' := 0, 'b' := 1], [Some(Entry('a', a, 1, 1, NIL, Some(atA))), Some(Entry('b', b, 2, NIL, 0, Some(atB)))],
        [], [1, 0], 1, 0, {Due(atA, 1, 0), Due(atB, 2, 1)}, 2, 2, 2)
  }

  function Inserted1(policy: Policy): Rep<char, char> {
    Rep(map['a' := 0], [Some(NewEntry('a', policy, 1))], [], [0], 0, 0, {}, 1, 0, 1)
  }

  function Inserted2(policy: Policy, a: Core<char>, atA: int): Rep<char, char> {
    Rep(map['a' := 0, 'b' := 1],
        [Some(Entry('a', a, 1, NIL, 1, Some(atA))), Some(NewEntry<char, char>('b', policy, 2).(prev := 0))],
        [], [0, 1], 0, 1, {Due(atA, 1, 0)}, 2, 1, 2)
  }

  lemma Insert1(policy: Policy)
    ensures NewSlot<char, char>(EmptyRep()) == 0 && InsertRep<char, char>(EmptyRep(), 'a', policy) == Inserted1(policy)
  {
    var f := FilledRep<char, char>(EmptyRep(), 'a', policy);
    assert f == Rep(map['a' := 0], [Some(NewEntry('a', policy, 1))], [], [], NIL, NIL, {}, 1, 0, 0);
    assert Appended(f.slab, 0, NIL) == f.slab;
    assert AppendRep(f, 0) == Inserted1(policy).(peak := 0);
  }

  lemma SizeOfOne(core: Core<char>, at: int)
    ensures |OneKey(core, at).index| == 1 && |OneKey(core, at).heap| == 1
  {
    assert OneKey(core, at).index.Keys == {'a'};
  }

  lemma SizeOfTwo(policy: Policy, a: Core<char>, atA: int)
    ensures |Inserted2(policy, a, atA).heap| == 1
  {}

  lemma Insert2(policy: Policy, a: Core<char>, atA: int)
    ensures var r := OneKey(a, atA); NewSlot(r) == 1 && InsertRep(r, 'b', policy) == Inserted2(policy, a, atA)
  {
    var r := OneKey(a, atA);
    SizeOfOne(a, atA);
    hide NewCore;
    var b := NewEntry<char, char>('b', policy, 2);
    var f := FilledRep(r, 'b', policy);
    assert f.slab == [Some(Entry('a', a, 1, NIL, NIL, Some(atA))), Some(b)] && f.lru == [0] && f.tail == 0;
    var placed := KeyedState.Placed(f.slab, 1, 0, NIL);
    assert placed == [Some(Entry('a', a, 1, NIL, NIL, Some(atA))), Some(b.(prev := 0))];
    assert WithNext(placed, 0, 1) == [Some(Entry('a', a, 1, NIL, 1, Some(atA))), Some(b.(prev := 0))];
    assert f.lru + [1] == [0, 1];
    assert f.index == map['a' := 0, 'b' := 1];
  }

  lemma Item1(policy: Policy, core: Core<char>, now: int, at: int, horizon: int)
    requires Deadline(core, horizon) == Some(at) && now < at
    ensures Live(Inserted1(policy).slab, 0) && ItemRep(Inserted1(policy), 0, core, now, horizon) == OneKey(core, at)
  {
    hide Rescheduled, Deadline, NewCore;
    var r := SetCoreRep(Inserted1(policy), 0, core);
    FirstEntry(r, 0, now, horizon, at);
    assert r.heap + {Due(at, 1, 0)} == {Due(at, 1, 0)};
  }

  lemma Item2(policy: Policy, a: Core<char>, atA: int, core: Core<char>, now: int, at: int)
    requires Deadline(core, END) == Some(at) && now < at
    ensures Live(Inserted2(policy, a, atA).slab, 1)
    ensures ItemRep(Inserted2(policy, a, atA), 1, core, now, END) == TwoKeys(a, atA, core, at)
  {
    hide Rescheduled, Deadline, NewCore;
    var r := SetCoreRep(Inserted2(policy, a, atA), 1, core);
    SizeOfTwo(policy, a, atA);
    FirstEntry(r, 1, now, END, at);
    assert r.heap + {Due(at, 2, 1)} == {Due(atA, 1, 0), Due(at, 2, 1)};
  }

  lemma NoneTagged(key: char)
    ensures Tagged<char, char>(key, []) == []
  {}

  /** The first item, of "a". */
  lemma First(
      r: Rep<char, char>, out: seq<(char, Window<char>)>, policy: Policy, g: Grid, now: int, core: Core<char>,
      at: int)
    requires RepOk<char, char>(EmptyRep()) && Added(EmptyRep(), r, out, Spec(policy), g, now, 'a')
    requires OnItem(NewCore<char>(policy), 100, g, now, 'a') == Step(core, []) && Deadline(core, END) == Some(at)
    requires now < at
    ensures r == OneKey(core, at) && out == []
  {
    var s := Spec(policy);
    assert s.key('a') == 'a' && s.c.policy == policy && s.c.cap == 100 && s.c.horizon == END && s.maxKeys == 8;
    assert 'a' !in EmptyRep<char, char>().index && |EmptyRep<char, char>().index| == 0;
    hide *;
    Insert1(policy);
    Item1(policy, core, now, at, END);
    NewKey(EmptyRep(), r, out, s, g, now, 'a');
    NoneTagged('a');
  }

  /** Then one of "b", before anything is due. */
  lemma Second(
      r: Rep<char, char>, out: seq<(char, Window<char>)>, policy: Policy, g: Grid, now: int,
      a: Core<char>, atA: int, core: Core<char>, at: int)
    requires RepOk(OneKey(a, atA)) && Added(OneKey(a, atA), r, out, Spec(policy), g, now, 'b')
    requires OnItem(NewCore<char>(policy), 100, g, now, 'b') == Step(core, []) && Deadline(core, END) == Some(at)
    requires now < at
    ensures r == TwoKeys(a, atA, core, at) && out == []
  {
    var s := Spec(policy);
    SizeOfOne(a, atA);
    assert s.key('b') == 'b' && s.c.policy == policy && s.c.cap == 100 && s.c.horizon == END && s.maxKeys == 8;
    assert 'b' !in OneKey(a, atA).index;
    hide *;
    Insert2(policy, a, atA);
    Item2(policy, a, atA, core, now, at);
    NewKey(OneKey(a, atA), r, out, s, g, now, 'b');
    NoneTagged('b');
  }

  lemma Touch2(a: Core<char>, atA: int, b: Core<char>, atB: int)
    ensures TouchRep(TwoKeys(a, atA, b, atB), 0) == Swapped(a, atA, b, atB)
  {
    var r := TwoKeys(a, atA, b, atB);
    var u := UnlinkRep(r, 0);
    assert u.slab == [Some(Entry('a', a, 1, NIL, 1, Some(atA))), Some(Entry('b', b, 2, NIL, NIL, Some(atB)))];
    assert u.lru == [1] && u.head == 1 && u.tail == 1;
    var placed := KeyedState.Placed(u.slab, 0, 1, NIL);
    assert placed == [Some(Entry('a', a, 1, 1, NIL, Some(atA))), Some(Entry('b', b, 2, NIL, NIL, Some(atB)))];
    assert WithNext(placed, 1, 0)
      == [Some(Entry('a', a, 1, 1, NIL, Some(atA))), Some(Entry('b', b, 2, NIL, 0, Some(atB)))];
    assert u.lru + [0] == [1, 0];
  }

  lemma Item3(a: Core<char>, atA: int, b: Core<char>, atB: int, core: Core<char>, now: int, at: int)
    requires Deadline(core, END) == Some(at) && now < at && atA <= at
    ensures Live(Swapped(a, atA, b, atB).slab, 0)
    ensures ItemRep(Swapped(a, atA, b, atB), 0, core, now, END) == Swapped(core, atA, b, atB)
  {
    hide Rescheduled, Deadline;
    EntryStands(SetCoreRep(Swapped(a, atA, b, atB), 0, core), 0, now, END, at);
  }

  /** Then another one of "a", before anything is due; its entry stays where it is. */
  lemma Third(
      r: Rep<char, char>, out: seq<(char, Window<char>)>, policy: Policy, g: Grid, now: int,
      a: Core<char>, atA: int, b: Core<char>, atB: int, core: Core<char>, at: int)
    requires RepOk(TwoKeys(a, atA, b, atB)) && Added(TwoKeys(a, atA, b, atB), r, out, Spec(policy), g, now, 'a')
    requires OnItem(a, 100, g, now, 'a') == Step(core, []) && Deadline(core, END) == Some(at) && now < at && atA <= at
    ensures r == Swapped(core, atA, b, atB) && out == []
  {
    var s, was := Spec(policy), TwoKeys(a, atA, b, atB);
    assert s.key('a') == 'a' && s.c.cap == 100 && s.c.horizon == END;
    assert was.index['a'] == 0 && was.tail == 1 && was.lru[0] == 0 && was.lru[1] == 1 && |was.lru| == 2;
    assert Live(Swapped(a, atA, b, atB).slab, 0) && Swapped(a, atA, b, atB).slab[0].value.core == a;
    hide *;
    Touch2(a, atA, b, atB);
    Item3(a, atA, b, atB, core, now, at);
    var p := HeldKey(was, r, out, s, g, now, 'a', 0);
    assert p == 0;
    NoneTagged('a');
  }

  /** A key that is held, and the last one in the list. */
  lemma LastKey<K(!new), T(!new)>(
      r: Rep<K, T>, r': Rep<K, T>, out: seq<(K, Window<T>)>, s: Keyed<K, T>, g: Grid, now: int, item: T, slot: nat)
    requires RepOk(r) && Added(r, r', out, s, g, now, item)
    requires s.key(item) in r.index && r.index[s.key(item)] == slot && slot == r.tail && Live(r.slab, slot)
    ensures var step := OnItem(r.slab[slot].value.core, s.c.cap, g, now, item);
      r' == ItemRep(r, slot, step.core, now, s.c.horizon) && out == Tagged(s.key(item), step.out)
  {
    var mid, slot': nat, evicted :| AddedAt(r, mid, r', slot', evicted, out, s, g, now, item);
    hide RepOk, OnItem, ItemRep;
    assert evicted + Tagged(s.key(item), OnItem(mid.slab[slot].value.core, s.c.cap, g, now, item).out) ==
      Tagged(s.key(item), OnItem(mid.slab[slot].value.core, s.c.cap, g, now, item).out);
  }

  // ---------------------------------------------------------------- two keys that are due

  /** If `d` and `e` are the entries that fire, the output is that of their keys in this order. */
  lemma TwoFire<K, T>(r: Rep<K, T>, x: Expiry<K, T>, g: Grid, now: int, d: Due, e: Due)
    requires InHeapOrder(r, x, g, now) && Precedes(d, e)
    requires forall f :: f in r.heap && f.deadline <= now && IsExamined(r, f, g, now) <==> f == d || f == e
    ensures EmittedIn(x.turns) == TurnTagged(r, d, g, now) + TurnTagged(r, e, g, now)
  {
    var xs := ExaminedIn(x.turns, g, now);
    hide IsExamined, TurnTagged;
    TwoOnly(xs, d, e);
    assert xs[..1] == [d] && xs[..1][..0] == [];
    assert OutOf(r, [d], g, now) == [] + TurnTagged(r, d, g, now) == TurnTagged(r, d, g, now);
  }

  lemma TwoOnly(xs: seq<Due>, d: Due, e: Due)
    requires Ascends(xs) && Precedes(d, e) && forall f :: f in xs <==> f == d || f == e
    ensures xs == [d, e]
  {
    assert |xs| <= 2 || Precedes(xs[1], xs[2]);
    assert d in xs && e in xs && forall k :: 0 <= k < |xs| ==> xs[k] in xs;
    var i :| 0 <= i < |xs| && xs[i] == d;
    assert i > 0 ==> Precedes(xs[0], xs[i]);
    forall k | 0 < k < |xs| ensures xs[k] == e {
      assert Precedes(xs[0], xs[k]);
    }
  }

  lemma BothFire(
      r: Rep<char, char>, x: Expiry<char, char>, g: Grid, now: int, a: Core<char>, atA: int, b: Core<char>, atB: int)
    requires r == Swapped(a, atA, b, atB) || r == TwoKeys(a, atA, b, atB)
    requires InHeapOrder(r, x, g, now) && (atA < atB || atA == atB) && atB <= now
    requires !(Deadline(a, g.horizon).Some? && now < Deadline(a, g.horizon).value)
    requires !(Deadline(b, g.horizon).Some? && now < Deadline(b, g.horizon).value)
    ensures EmittedIn(x.turns) == Tagged('a', OnTick(a, g, now).out) + Tagged('b', OnTick(b, g, now).out)
  {
    var d, e := Due(atA, 1, 0), Due(atB, 2, 1);
    assert Live(r.slab, 0) && Live(r.slab, 1);
    hide Deadline, OnTick, InHeapOrder, EmittedIn;
    assert IsExamined(r, d, g, now) && IsExamined(r, e, g, now);
    TwoFire(r, x, g, now, d, e);
  }

  // ---------------------------------------------------------------- sessions

  function SessionOf(start: int, last: int, items: seq<char>): Core<char> {
    SessionCore(10, Some(start), Some(last), items)
  }

  lemma SessionSteps(g: Grid)
    ensures OnItem(NewCore<char>(Session(10)), 100, g, 0, 'a') == Step(SessionOf(0, 0, ['a']), [])
    ensures OnItem(NewCore<char>(Session(10)), 100, g, 5, 'b') == Step(SessionOf(5, 5, ['b']), [])
    ensures OnItem(SessionOf(0, 0, ['a']), 100, g, 8, 'a') == Step(SessionOf(0, 8, ['a', 'a']), [])
    ensures OnTick(SessionOf(0, 8, ['a', 'a']), g, 30).out == [Window(['a', 'a'], 0, 8)]
    ensures OnTick(SessionOf(5, 5, ['b']), g, 30).out == [Window(['b'], 5, 5)]
  {
    assert [] + ['a'] == ['a'] && [] + ['b'] == ['b'] && ['a'] + ['a'] == ['a', 'a'];
  }

  lemma SessionDeadline(start: int, last: int, items: seq<char>)
    requires 0 <= last < 1000
    ensures Deadline(SessionOf(start, last, items), END) == Some(last + 11)
  {}

  lemma TaggedOne(key: char, w: Window<char>)
    ensures Tagged(key, [w]) == [(key, w)]
  {}

  // One item of a stage with this specification, before anything is due.

  lemma StepOne(
      x: Expiry<char, char>, r: Rep<char, char>, out: seq<(char, Window<char>)>, policy: Policy, g: Grid, now: int,
      core: Core<char>, at: int)
    requires RepOk<char, char>(EmptyRep()) && ItemDone(EmptyRep(), x, r, out, Spec(policy), g, now, 'a')
    requires OnItem(NewCore<char>(policy), 100, g, now, 'a') == Step(core, []) && Deadline(core, END) == Some(at)
    requires now < at
    ensures r == OneKey(core, at) && out == []
  {
    assert DueBy(EmptyRep<char, char>().heap, now) == {};
    hide *;
    ItemAlone(EmptyRep(), x, r, out, Spec(policy), g, now, 'a');
    First(r, out, policy, g, now, core, at);
  }

  lemma StepTwo(
      x: Expiry<char, char>, r: Rep<char, char>, out: seq<(char, Window<char>)>, policy: Policy, g: Grid, now: int,
      a: Core<char>, atA: int, core: Core<char>, at: int)
    requires RepOk(OneKey(a, atA)) && ItemDone(OneKey(a, atA), x, r, out, Spec(policy), g, now, 'b') && now < atA
    requires OnItem(NewCore<char>(policy), 100, g, now, 'b') == Step(core, []) && Deadline(core, END) == Some(at)
    requires now < at
    ensures r == TwoKeys(a, atA, core, at) && out == []
  {
    assert DueBy(OneKey(a, atA).heap, now) == {};
    hide *;
    ItemAlone(OneKey(a, atA), x, r, out, Spec(policy), g, now, 'b');
    Second(r, out, policy, g, now, a, atA, core, at);
  }

  lemma StepThree(
      x: Expiry<char, char>, r: Rep<char, char>, out: seq<(char, Window<char>)>, policy: Policy, g: Grid, now: int,
      a: Core<char>, atA: int, b: Core<char>, atB: int, core: Core<char>, at: int)
    requires RepOk(TwoKeys(a, atA, b, atB)) && ItemDone(TwoKeys(a, atA, b, atB), x, r, out, Spec(policy), g, now, 'a')
    requires now < atA && now < atB && atA <= at
    requires OnItem(a, 100, g, now, 'a') == Step(core, []) && Deadline(core, END) == Some(at) && now < at
    ensures r == Swapped(core, atA, b, atB) && out == []
  {
    assert DueBy(TwoKeys(a, atA, b, atB).heap, now) == {};
    hide *;
    ItemAlone(TwoKeys(a, atA, b, atB), x, r, out, Spec(policy), g, now, 'a');
    Third(r, out, policy, g, now, a, atA, b, atB, core, at);
  }

  lemma NotAscending(out: seq<(char, Window<char>)>, i: nat, j: nat)
    requires i < j < |out| && out[i].1.end > out[j].1.end
    ensures !EndsAscend(out)
  {}

  lemma SpecIs(policy: Policy)
    ensures Keyed(Config(policy, 100, 0, END).(cap := Max(100, 1)), Max(8, 1), Same) == Spec(policy)
    ensures Spec(policy).c == Config(policy, 100, 0, END)
  {}

  lemma ValidMeans<K(!new), T(!new)>(stage: KeyedWindowStage<K, T>)
    requires stage.Valid()
    ensures RepOk(stage.State())
  {}

  lemma Anchors(origin: int)
    ensures None.GetOr(origin) == origin && forall other: int :: Some(origin).GetOr(other) == origin
  {}

  lemma SessionOrigin()
    ensures GridOrigin(Session(10), 0, 0) == 0
  {}

  /**
    Sessions with an idle time of 10: "a" gets items at 0 and 8, "b" one at 5. At a tick at 30
    the session of "a", which ends at 8, comes out before that of "b", which ends at 5, since
    the heap still holds the entry "a" was scheduled for first.
  */
  method SessionRun() returns (due: seq<(char, Window<char>)>)
    ensures due == [('a', Window(['a', 'a'], 0, 8)), ('b', Window(['b'], 5, 5))]
    ensures !EndsAscend(due)
  {
    hide *;
    ghost var policy, g := Session(10), Grid(0, END);
    ghost var a0, a1, b := SessionOf(0, 0, ['a']), SessionOf(0, 8, ['a', 'a']), SessionOf(5, 5, ['b']);
    SessionSteps(g);
    SessionDeadline(0, 0, ['a']);
    SessionDeadline(5, 5, ['b']);
    SessionDeadline(0, 8, ['a', 'a']);
    SpecIs(policy);
    SessionOrigin();
    Anchors(0);
    var stage := new KeyedWindowStage(Config(Session(10), 100, 0, END), 8, Same);
    var out;
    ghost var x;
    ValidMeans(stage);
    out, x := stage.Process(0, 'a');
    StepOne(x, stage.State(), out, policy, g, 0, a0, 11);
    ValidMeans(stage);
    out, x := stage.Process(5, 'b');
    StepTwo(x, stage.State(), out, policy, g, 5, a0, 11, b, 16);
    ValidMeans(stage);
    out, x := stage.Process(8, 'a');
    StepThree(x, stage.State(), out, policy, g, 8, a0, 11, b, 16, a1, 19);
    due, x := stage.Tick(30);
    BothFire(Swapped(a1, 11, b, 16), x, g, 30, a1, 11, b, 16);
    TaggedOne('a', Window(['a', 'a'], 0, 8));
    TaggedOne('b', Window(['b'], 5, 5));
    NotAscending(due, 0, 1);
  }

  // ---------------------------------------------------------------- sliding windows

  function SlotOf(k: nat, x: char): Slot<char> { Slot(k, k, Some(k + 2), [x]) }

  /** A core of windows of size 2 every 1, on the grid of 0, after an item at 1. */
  function SlidingOf(x: char): Core<char> { SlidingCore(2, 1, [SlotOf(0, x), SlotOf(1, x)]) }

  lemma SlidingStep(x: char)
    ensures OnItem(NewCore<char>(Sliding(2, 1)), 100, Grid(0, END), 1, x) == Step(SlidingOf(x), [])
  {
    var a := Arrival(100, 1, x, FreshSlots<char>(2, 1, Grid(0, END), 1));
    assert KMin(Grid(0, END), 1, 2, 1) == 0 && KMax(Grid(0, END), 1, 1) == 1;
    assert [] + [x] == [x];
    assert Pushed(a, a.create(0)) == SlotOf(0, x) && Pushed(a, a.create(1)) == SlotOf(1, x);
    assert PlaceOne([], 0, a) == WindowCore.Placed([SlotOf(0, x)], []);
    assert [SlotOf(0, x)][1..] == [];
    assert PlaceOne([SlotOf(0, x)], 1, a) == WindowCore.Placed([SlotOf(0, x), SlotOf(1, x)], []);
    assert Place([SlotOf(0, x), SlotOf(1, x)], 2, 1, a) == WindowCore.Placed([SlotOf(0, x), SlotOf(1, x)], []);
    assert Place([SlotOf(0, x)], 1, 1, a) == WindowCore.Placed([SlotOf(0, x), SlotOf(1, x)], []);
  }

  lemma SlidingTick(x: char)
    ensures OnTick(SlidingOf(x), Grid(0, END), 5).out == [Window([x], 0, 2), Window([x], 1, 3)]
    ensures Deadline(SlidingOf(x), END) == Some(2)
  {
    var slots := [SlotOf(0, x), SlotOf(1, x)];
    assert KMin(Grid(0, END), 5, 2, 1) == 4;
    assert slots[1..] == [SlotOf(1, x)] && slots[1..][1..] == [];
    assert EmitBefore(slots[1..], 4) == [Window([x], 1, 3)];
  }

  lemma SlidingOrigin()
    ensures GridOrigin(Sliding(2, 1), 1, 0) == 0
  {}

  lemma TaggedTwo(key: char, v: Window<char>, w: Window<char>)
    ensures Tagged(key, [v, w]) == [(key, v), (key, w)]
  {}

  /**
    Windows of size 2 every 1: two keys with an item at 1 each have windows that end at 2 and
    3. One tick takes all due windows of a key at once, so the ends come out as 2, 3, 2, 3.
  */
  method SlidingRun() returns (due: seq<(char, Window<char>)>)
    ensures due == [('a', Window(['a'], 0, 2)), ('a', Window(['a'], 1, 3)),
                    ('b', Window(['b'], 0, 2)), ('b', Window(['b'], 1, 3))]
    ensures !EndsAscend(due)
  {
    hide *;
    ghost var policy, g := Sliding(2, 1), Grid(0, END);
    SlidingStep('a');
    SlidingStep('b');
    SlidingTick('a');
    SlidingTick('b');
    SpecIs(policy);
    SlidingOrigin();
    Anchors(0);
    var stage := new KeyedWindowStage(Config(Sliding(2, 1), 100, 0, END), 8, Same);
    var out;
    ghost var x;
    ValidMeans(stage);
    out, x := stage.Process(1, 'a');
    StepOne(x, stage.State(), out, policy, g, 1, SlidingOf('a'), 2);
    ValidMeans(stage);
    out, x := stage.Process(1, 'b');
    StepTwo(x, stage.State(), out, policy, g, 1, SlidingOf('a'), 2, SlidingOf('b'), 2);
    due, x := stage.Tick(5);
    BothFire(TwoKeys(SlidingOf('a'), 2, SlidingOf('b'), 2), x, g, 5, SlidingOf('a'), 2, SlidingOf('b'), 2);
    TaggedTwo('a', Window(['a'], 0, 2), Window(['a'], 1, 3));
    TaggedTwo('b', Window(['b'], 0, 2), Window(['b'], 1, 3));
    NotAscending(due, 1, 2);
  }

  // ---------------------------------------------------------------- a clock that goes back

  function Number(x: int): int { x }

  /** One key at a time. */
  function OneAtATime(): Keyed<int, int> { Keyed(Config(Session(10), 100, 0, END), 1, Number) }

  function SessionAt(now: int, x: int): Core<int> { SessionCore(10, Some(now), Some(now), [x]) }

  function Alone(n: nat, now: int, x: int): KeyEntry<int, int> {
    KeyEntry(x, SessionAt(now, x), n, NIL, NIL, n, Some(now + 11))
  }

  /** The stage with the `n`-th key, `x`, which got its item at `now`. */
  function Lone(n: nat, now: int, x: int, heap: set<Due>): Rep<int, int> {
    Rep(map[x := 0], [Some(Alone(n, now, x))], [], [0], 0, 0, heap, n, n, 1)
  }

  /** The entries with tickets 1 to `n`, all for 1011. */
  ghost function Entries(n: nat): set<Due> { set t: nat | 1 <= t <= n :: Due(1011, t, 0) }

  lemma EntriesGrow(n: nat)
    ensures Entries(n + 1) == Entries(n) + {Due(1011, n + 1, 0)} && Due(1011, n + 1, 0) !in Entries(n)
    ensures Entries(0) == {}
  {
    forall d ensures d in Entries(n + 1) <==> d in Entries(n) || d == Due(1011, n + 1, 0) {}
  }

  lemma {:induction false} EntriesSize(n: nat)
    ensures |Entries(n)| == n && Entries(n + 1) == Entries(n) + {Due(1011, n + 1, 0)}
  {
    hide Entries;
    EntriesGrow(n);
    if n > 0 {
      EntriesSize(n - 1);
      EntriesGrow(n - 1);
    }
  }

  lemma NumberStep(g: Grid, now: int, x: int)
    ensures OnItem(NewCore<int>(Session(10)), 100, g, now, x) == Step(SessionAt(now, x), [])
    ensures now <= 1000 ==> Deadline(SessionAt(now, x), END) == Some(now + 11)
  {
    assert [] + [x] == [x];
  }

  function Vacated(n: nat, heap: set<Due>): Rep<int, int> {
    Rep(map[], if n == 0 then [] else [None], if n == 0 then [] else [0], [], NIL, NIL,
        heap, n, n, if n == 0 then 0 else 1)
  }

  function Refilled(n: nat, x: int, heap: set<Due>): Rep<int, int> {
    Rep(map[x := 0], [Some(NewEntry(x, Session(10), n + 1))], [], [0], 0, 0, heap, n + 1, n, 1)
  }

  lemma Vacate(n: nat, now: int, x: int, heap: set<Due>)
    requires n > 0
    ensures var r := Lone(n, now, x, heap); Live(r.slab, r.lru[0]) && RemoveRep(r, 0) == Vacated(n, heap)
  {
    var r := Lone(n, now, x, heap);
    var u := UnlinkRep(r, 0);
    assert u.slab == r.slab && u.lru == [] && u.head == NIL && u.tail == NIL;
    assert r.index - {x} == map[];
    assert u.slab[0 := None] == [None];
  }

  lemma Refill(n: nat, x: int, heap: set<Due>)
    ensures var r := Vacated(n, heap); NewSlot(r) == 0 && InsertRep(r, x, Session(10)) == Refilled(n, x, heap)
  {
    var r := Vacated(n, heap);
    hide NewCore;
    var f := FilledRep(r, x, Session(10));
    assert f.slab == [Some(NewEntry(x, Session(10), n + 1))];
    assert f == Rep(map[x := 0], f.slab, [], [], NIL, NIL, heap, n + 1, n, r.peak);
    assert Appended(f.slab, 0, NIL) == f.slab;
    assert AppendRep(f, 0) == Refilled(n, x, heap).(peak := r.peak);
  }

  lemma Reschedule(n: nat, now: int, x: int, heap: set<Due>)
    requires |heap| <= 65 && now <= 1000
    ensures Live(Refilled(n, x, heap).slab, 0)
    ensures ItemRep(Refilled(n, x, heap), 0, SessionAt(now, x), now, END)
         == Lone(n + 1, now, x, heap + {Due(now + 11, n + 1, 0)})
  {
    var r := SetCoreRep(Refilled(n, x, heap), 0, SessionAt(now, x));
    NumberStep(Grid(0, END), now, x);
    assert r.index.Keys == {x} && |r.index| == |r.index.Keys| == 1;
    hide Rescheduled, Deadline, NewCore;
    FirstEntry(r, 0, now, END, now + 11);
  }

  /** A new key at the limit takes the place of the least recently active one. */
  lemma NewKeyEvicts<K(!new), T(!new)>(
      r: Rep<K, T>, r': Rep<K, T>, out: seq<(K, Window<T>)>, s: Keyed<K, T>, g: Grid, now: int, item: T)
    requires RepOk(r) && Added(r, r', out, s, g, now, item) && s.key(item) !in r.index && |r.index| >= s.maxKeys
    requires r.lru != [] && Live(r.slab, r.lru[0])
    ensures var room := RemoveRep(r, 0);
      var mid := InsertRep(room, s.key(item), s.c.policy);
      && NewSlot(room) <= |room.slab| && Live(mid.slab, NewSlot(room))
      && r' == ItemRep(mid, NewSlot(room), OnItem(NewCore(s.c.policy), s.c.cap, g, now, item).core, now, s.c.horizon)
  {
    var mid, slot: nat, evicted :| AddedAt(r, mid, r', slot, evicted, out, s, g, now, item);
    hide RepOk, InsertRep, NewSlot, RemoveRep, OnItem, ItemRep, FilledRep;
    RoomIsOk(r, s.key(item));
    InsertedSlot(RemoveRep(r, 0), s.key(item), s.c.policy);
    InsertedIsNew(RemoveRep(r, 0), mid, slot, s, s.key(item), s.c.horizon);
  }

  /** One more key, before anything is due. */
  lemma Another(
      n: nat, was: int, y: int, heap: set<Due>, x: Expiry<int, int>, r: Rep<int, int>, out: seq<(int, Window<int>)>,
      g: Grid, now: int, item: int)
    requires n > 0 && RepOk(Lone(n, was, y, heap)) && item != y && now <= 1000 && |heap| <= 65
    requires ItemDone(Lone(n, was, y, heap), x, r, out, OneAtATime(), g, now, item)
    requires forall e :: e in heap ==> now < e.deadline
    ensures r == Lone(n + 1, now, item, heap + {Due(now + 11, n + 1, 0)})
  {
    var s, r0 := OneAtATime(), Lone(n, was, y, heap);
    assert s.key(item) == item && s.c.policy == Session(10) && s.c.cap == 100 && s.c.horizon == END && s.maxKeys == 1;
    assert DueBy(r0.heap, now) == {} && item !in r0.index && r0.lru != [];
    assert r0.index.Keys == {y} && |r0.index| == |r0.index.Keys| == 1;
    hide *;
    Vacate(n, was, y, heap);
    ItemAlone(r0, x, r, out, s, g, now, item);
    NewKeyEvicts(r0, r, out, s, g, now, item);
    Refill(n, item, heap);
    NumberStep(g, now, item);
    Reschedule(n, now, item, heap);
  }

  lemma FirstNumber(x: Expiry<int, int>, r: Rep<int, int>, out: seq<(int, Window<int>)>, g: Grid)
    requires RepOk<int, int>(EmptyRep()) && ItemDone(EmptyRep(), x, r, out, OneAtATime(), g, 1000, 1)
    ensures r == Lone(1, 1000, 1, Entries(1))
  {
    var s, r0 := OneAtATime(), EmptyRep<int, int>();
    assert s.key(1) == 1 && s.c.policy == Session(10) && s.c.cap == 100 && s.c.horizon == END && s.maxKeys == 1;
    assert DueBy(r0.heap, 1000) == {} && 1 !in r0.index && |r0.index| == 0 && r0 == Vacated(0, {});
    assert {} + {Due(1011, 1, 0)} == Entries(1);
    hide *;
    ItemAlone(r0, x, r, out, s, g, 1000, 1);
    Refill(0, 1, {});
    NewKey(r0, r, out, s, g, 1000, 1);
    NumberStep(g, 1000, 1);
    Reschedule(0, 1000, 1, {});
  }

  /** The last key is released, and nothing else is due. */
  lemma LastReleased(n: nat, y: int, x: Expiry<int, int>, g: Grid)
    requires n > 0 && g.horizon == END
    requires var r := Lone(n + 1, 0, y, Entries(n) + {Due(11, n + 1, 0)}); RepOk(r) && Expires(r, x, g, 20)
    ensures x.after.heap == Entries(n) && x.after.index == map[]
  {
    var r, d := Lone(n + 1, 0, y, Entries(n) + {Due(11, n + 1, 0)}), Due(11, n + 1, 0);
    assert DueBy(r.heap, 20) == {d};
    assert Deadline(SessionAt(0, y), END) == Some(11);
    assert IsEmpty(OnTick(SessionAt(0, y), g, 20).core);
    hide RepOk, Expires, Rescheduled, Deadline, OnTick, IsEmpty;
    OneFires(r, x, g, 20, d);
    assert IsExamined(r, d, g, 20);
    var p: nat :| p < |r.lru| && r.lru[p] == d.slot && x.after == RemoveRep(TickedRep(r, d, g, 20), p);
    assert x.after.heap == r.heap - {d};
    assert d !in Entries(n) && r.heap - {d} == Entries(n);
    assert x.after.index == r.index - {y};
  }

  lemma OneSpecIs()
    ensures Keyed(Config(Session(10), 100, 0, END).(cap := Max(100, 1)), Max(1, 1), Number) == OneAtATime()
    ensures OneAtATime().c == Config(Session(10), 100, 0, END) && GridOrigin(Session(10), 1000, 0) == 1000
  {}

  lemma AllAt1011(n: nat)
    ensures forall e :: e in Entries(n) ==> e.deadline == 1011
  {}

  /**
    A clock that goes back: at 1000 each of 65 keys evicts the one before, and leaves an entry
    for 1011. Then a key gets an item at 0 and is released at 20. No key is held any more, and
    the heap has 65 entries, more than 64.
  */
  method BackwardRun() returns (heap: nat, keys: nat)
    ensures heap == 65 && keys == 0 && heap > 2 * keys + 64
  {
    hide *;
    ghost var g, s := Grid(1000, END), OneAtATime();
    OneSpecIs();
    Anchors(1000);
    var stage := new KeyedWindowStage(Config(Session(10), 100, 0, END), 1, Number);
    ValidMeans(stage);
    var out;
    ghost var x;
    out, x := stage.Process(1000, 1);
    FirstNumber(x, stage.State(), out, g);
    for n := 1 to 65
      invariant stage.Valid() && stage.spec == s && fresh(stage) && stage.anchor == Some(1000)
      invariant stage.State() == Lone(n, 1000, n, Entries(n))
    {
      ValidMeans(stage);
      EntriesSize(n);
      AllAt1011(n);
      out, x := stage.Process(1000, n + 1);
      Another(n, 1000, n, Entries(n), x, stage.State(), out, g, 1000, n + 1);
    }
    ValidMeans(stage);
    EntriesSize(65);
    AllAt1011(65);
    out, x := stage.Process(0, 66);
    Another(65, 1000, 65, Entries(65), x, stage.State(), out, g, 0, 66);
    ValidMeans(stage);
    out, x := stage.Tick(20);
    LastReleased(65, 66, x, g);
    heap, keys := |stage.heap|, |stage.index|;
    StateParts(stage);
  }

  lemma StateParts<K(!new), T(!new)>(stage: KeyedWindowStage<K, T>)
    ensures stage.State().heap == stage.heap && stage.State().index == stage.index
  {}

  // ---------------------------------------------------------------- near the last instant

  /** Sessions of at most two items, with 105 as the last representable instant. */
  function AtTheEnd(): Keyed<char, char> { Keyed(Config(Session(10), 2, 0, 105), 8, Same) }

  function EndEvents(): seq<Event<char>> { [Item(90, 'a'), Item(96, 'a'), Event.Tick(102)] }

  lemma EndSteps(g: Grid)
    requires g == Grid(90, 105)
    ensures OnItem(NewCore<char>(Session(10)), 2, g, 90, 'a') == Step(SessionOf(90, 90, ['a']), [])
    ensures OnItem(SessionOf(90, 90, ['a']), 2, g, 96, 'a') == Step(SessionOf(96, 96, []), [Window(['a', 'a'], 90, 96)])
    ensures OnTick(SessionOf(96, 96, []), g, 102) == Step(SessionOf(96, 96, []), [])
    ensures Deadline(SessionOf(90, 90, ['a']), 105) == Some(101) && Deadline(SessionOf(96, 96, []), 105) == None
  {
    assert [] + ['a'] == ['a'] && ['a'] + ['a'] == ['a', 'a'];
  }

  lemma EndNotDue()
    ensures !IsDue(NewCore<char>(Session(10)), 105, 90) && !IsDue(SessionOf(90, 90, ['a']), 105, 96)
    ensures !IsDue(SessionOf(96, 96, []), 105, 102)
  {}

  lemma EndTick(s: Keyed<char, char>, n: Naive<char, char>)
    requires s == AtTheEnd() && n.anchor == Some(90) && n.keys.Keys == {'a'} && !IsDue(n.keys['a'].core, 105, 102)
    ensures Next(s, n, Event<char>.Tick(102)).keys.Keys == {'a'}
  {
    hide IsDue;
    assert forall k :: k in n.keys ==> k == 'a';
    assert TickAll(n.keys, Grid(90, 105), 102).Keys == n.keys.Keys;
  }

  lemma NaiveRunTo(s: Keyed<char, char>, es: seq<Event<char>>, i: nat)
    requires i < |es|
    ensures NaiveRun(s, es[..i + 1]) == Next(s, NaiveRun(s, es[..i]), es[i])
    ensures i == 0 ==> NaiveRun(s, es[..i]) == NewNaive()
  {
    assert es[..i + 1][..i] == es[..i];
    hide Next;
  }

  /** In the reference the key stays: its deadline is not representable, so it is never due. */
  lemma {:induction false} EndNaive()
    ensures NaiveRun(AtTheEnd(), EndEvents()).keys.Keys == {'a'}
  {
    var s, es, g := AtTheEnd(), EndEvents(), Grid(90, 105);
    var a, b, c := NewCore<char>(Session(10)), SessionOf(90, 90, ['a']), SessionOf(96, 96, []);
    var n0 := NewNaive<char, char>();
    assert es[..3] == es && es[0] == Item(90, 'a') && es[1] == Item(96, 'a') && es[2] == Event.Tick(102);
    hide OnItem, OnTick, Deadline, SessionOf, NewCore, Victim, Next, NaiveRun, TickAll, IsDue, EndEvents;
    EndSteps(g);
    EndNotDue();
    assert g == GridOf(s.c, n0, 90) && n0.keys == map[] && a == CoreOf(n0.keys, Session(10), 'a');
    hide AtTheEnd;
    NaiveRunTo(s, es, 0);
    EndNext(s, n0, 90, g, a, b);
    NaiveRunTo(s, es, 1);
    var n1 := Next(s, n0, es[0]);
    assert g == GridOf(s.c, n1, 96);
    EndNext(s, n1, 96, g, b, c);
    NaiveRunTo(s, es, 2);
    EndTick(s, Next(s, n1, es[1]));
  }

  lemma EndNext(s: Keyed<char, char>, n: Naive<char, char>, now: int, g: Grid, was: Core<char>, core: Core<char>)
    requires s == AtTheEnd() && g == GridOf(s.c, n, now) && g == Grid(90, 105)
    requires n.keys.Keys <= {'a'} && was == CoreOf(n.keys, Session(10), 'a') && !IsDue(was, 105, now)
    requires OnItem(was, 2, g, now, 'a').core == core
    ensures var n' := Next(s, n, Item(now, 'a'));
      n'.anchor == Some(90) && n'.keys.Keys == {'a'} && n'.keys['a'].core == core
  {
    hide OnItem, IsDue;
    var ticked := TickAll(n.keys, g, now);
    assert forall k :: k in n.keys ==> k == 'a';
    assert ticked.Keys == n.keys.Keys && ('a' in n.keys ==> ticked['a'] == n.keys['a']);
    SubsetSize(ticked.Keys, {'a'});
    assert |ticked| == |ticked.Keys| <= 1;
    assert Victim(ticked, 8, 'a') == None;
  }

  lemma EndFirst(x: Expiry<char, char>, r: Rep<char, char>, out: seq<(char, Window<char>)>, g: Grid)
    requires RepOk<char, char>(EmptyRep()) && g == Grid(90, 105)
    requires ItemDone(EmptyRep(), x, r, out, AtTheEnd(), g, 90, 'a')
    ensures r == OneKey(SessionOf(90, 90, ['a']), 101)
  {
    var s, r0 := AtTheEnd(), EmptyRep<char, char>();
    assert s.key('a') == 'a' && s.c.policy == Session(10) && s.c.cap == 2 && s.c.horizon == 105 && s.maxKeys == 8;
    assert DueBy(r0.heap, 90) == {} && 'a' !in r0.index && |r0.index| == 0;
    hide *;
    EndSteps(g);
    ItemAlone(r0, x, r, out, s, g, 90, 'a');
    Insert1(Session(10));
    Item1(Session(10), SessionOf(90, 90, ['a']), 90, 101, 105);
    NewKey(r0, r, out, s, g, 90, 'a');
  }

  lemma EndSecond(x: Expiry<char, char>, r: Rep<char, char>, out: seq<(char, Window<char>)>, g: Grid)
    requires RepOk(OneKey(SessionOf(90, 90, ['a']), 101)) && g == Grid(90, 105)
    requires ItemDone(OneKey(SessionOf(90, 90, ['a']), 101), x, r, out, AtTheEnd(), g, 96, 'a')
    ensures r == OneKey(SessionOf(96, 96, []), 101)
  {
    var s, r0 := AtTheEnd(), OneKey(SessionOf(90, 90, ['a']), 101);
    assert s.key('a') == 'a' && s.c.policy == Session(10) && s.c.cap == 2 && s.c.horizon == 105;
    assert DueBy(r0.heap, 96) == {} && r0.index['a'] == 0 && r0.tail == 0 && Live(r0.slab, 0);
    assert r0.slab[0].value.core == SessionOf(90, 90, ['a']);
    EndSteps(g);
    assert SetCoreRep(r0, 0, SessionOf(96, 96, [])) == OneKey(SessionOf(96, 96, []), 101);
    assert ItemRep(r0, 0, SessionOf(96, 96, []), 96, 105) == OneKey(SessionOf(96, 96, []), 101);
    hide *;
    ItemAlone(r0, x, r, out, s, g, 96, 'a');
    LastKey(r0, r, out, s, g, 96, 'a', 0);
  }

  lemma EndReleases(x: Expiry<char, char>, g: Grid)
    requires RepOk(OneKey(SessionOf(96, 96, []), 101)) && g == Grid(90, 105)
    requires Expires(OneKey(SessionOf(96, 96, []), 101), x, g, 102)
    ensures x.after.index == map[]
  {
    var r, d := OneKey(SessionOf(96, 96, []), 101), Due(101, 1, 0);
    assert DueBy(r.heap, 102) == {d};
    EndSteps(g);
    assert IsEmpty(SessionOf(96, 96, []));
    hide RepOk, Expires, Rescheduled, Deadline, OnTick, IsEmpty, SessionOf;
    OneFires(r, x, g, 102, d);
    assert IsExamined(r, d, g, 102);
    var p: nat :| p < |r.lru| && r.lru[p] == d.slot && x.after == RemoveRep(TickedRep(r, d, g, 102), p);
    assert x.after.index == r.index - {'a'};
  }

  lemma EndSpecIs()
    ensures Keyed(Config(Session(10), 2, 0, 105).(cap := Max(2, 1)), Max(8, 1), Same) == AtTheEnd()
    ensures AtTheEnd().c == Config(Session(10), 2, 0, 105) && GridOrigin(Session(10), 90, 0) == 90
  {}

  /**
    Near the last instant: an item at 90, one at 96 that fills the session, a tick at 102. The
    deadline after the second item is not representable, but the heap still holds the entry
    for 101. It fires, the key has nothing buffered, and it is released although its session
    is not over; the reference keeps it.
  */
  method EndRun() returns (live: set<char>)
    ensures live == {} && NaiveRun(AtTheEnd(), EndEvents()).keys.Keys == {'a'}
  {
    hide *;
    ghost var g := Grid(90, 105);
    EndSpecIs();
    Anchors(90);
    var stage := new KeyedWindowStage(Config(Session(10), 2, 0, 105), 8, Same);
    var out;
    ghost var x;
    ValidMeans(stage);
    out, x := stage.Process(90, 'a');
    EndFirst(x, stage.State(), out, g);
    ValidMeans(stage);
    out, x := stage.Process(96, 'a');
    EndSecond(x, stage.State(), out, g);
    ValidMeans(stage);
    out, x := stage.Tick(102);
    EndReleases(x, g);
    StateParts(stage);
    live := stage.index.Keys;
    EndNaive();
  }
}
