/**
  The heap of the keyed stage is small next to the keys held now, not only next to the most
  ever held: while the clock does not go back it never has more than 2 * keys + 64 entries
  after an event. `expire` releases keys without compacting; but keys are evicted in the
  order of their last items, so an entry left behind by an evicted key is due no later than
  any key held, and the `expire` that releases a key pops all of them.
*/
module KeyedHeap {
  import opened Options
  import opened WindowCore
  import opened WindowLaws
  import opened WindowRuns
  import opened NaiveKeyed
  import opened NaiveDeadlines
  import opened KeyedState
  import opened KeyedRep
  import opened KeyedRefines
  import opened KeyedOrder
  import opened KeyedItem

  predicate NoLater(e: Due, at: Option<int>) { at.Some? ==> e.deadline <= at.value }

  /** No stale entry is later than the deadline of any key held, or than `at`. */
  ghost predicate StaleIsEarly<K, T>(r: Rep<K, T>, horizon: int, at: Option<int>) {
    forall e :: e in r.heap && !IsCurrent(r, e) ==> NoLater(e, at) && NoLaterThanKeys(r, e, horizon)
  }

  ghost predicate NoLaterThanKeys<K, T>(r: Rep<K, T>, e: Due, horizon: int) {
    forall i: nat :: Live(r.slab, i) ==> NoLater(e, Deadline(r.slab[i].value.core, horizon))
  }

  ghost predicate IsSmall<K, T>(r: Rep<K, T>) { |r.heap| <= 2 * |r.index| + 64 }

  /** What every event keeps, with the clock at `t`. */
  ghost predicate Snug<K, T>(r: Rep<K, T>, keys: map<K, Held<T>>, policy: Policy, g: Grid, t: int) {
    IsSmall(r) && StaleIsEarly(r, g.horizon, FreshDeadline(policy, g, t)) && KeysSteady(keys, g, t)
  }

  // ---------------------------------------------------------------- expire makes no stale entries

  /** Nothing stale in `r'` was not stale in `r`; the heap has not grown, and for each key released it has shrunk. */
  ghost predicate NoNewStale<K, T>(r: Rep<K, T>, r': Rep<K, T>) {
    && (forall e :: e in r'.heap && !IsCurrent(r', e) ==> e in r.heap && !IsCurrent(r, e))
    && |r'.index| <= |r.index| && |r'.heap| + (|r.index| - |r'.index|) <= |r.heap|
  }

  lemma RescheduledHeap<K, T>(r: Rep<K, T>, slot: nat, now: int, horizon: int)
    requires RepOk(r)
    ensures var r' := Rescheduled(r, slot, now, horizon);
      && (forall e :: e in r'.heap ==> e in r.heap || IsCurrent(r', e))
      && |r'.heap| <= |r.heap| + 1 && r'.index == r.index
  {
    hide Deadline, RepOk;
    var r' := Rescheduled(r, slot, now, horizon);
    if r' != r {
      var deadline := Deadline(r.slab[slot].value.core, horizon);
      var at := if now < deadline.value then deadline.value else now + 1;
      ScheduledOk(r, slot, at);
      SubsetSize(r'.heap, r.heap + {Due(at, r.tickets + 1, slot)});
      assert |r.heap + {Due(at, r.tickets + 1, slot)}| <= |r.heap| + 1;
    }
  }

  /** The heap after a turn: what was there without `d`, and perhaps a current entry. */
  ghost predicate HeapAfter<K, T>(r: Rep<K, T>, r': Rep<K, T>, d: Due) {
    && (forall e :: e in r'.heap ==> (e in r.heap && e != d) || IsCurrent(r', e))
    && |r'.index| <= |r.index| && |r'.heap| + (|r.index| - |r'.index|) <= |r.heap|
  }

  lemma HeapAfterTurn<K, T>(r: Rep<K, T>, r': Rep<K, T>, d: Due, emitted: seq<(K, Window<T>)>, g: Grid, now: int)
    requires RepOk(r) && d in r.heap && Turned(r, r', d, emitted, g, now)
    ensures HeapAfter(r, r', d)
  {
    hide RepOk, OnTick, IsEmpty, Deadline, Rescheduled, RemoveRep;
    assert |r.heap - {d}| == |r.heap| - 1;
    if !IsExamined(r, d, g, now) {
      PoppedOk(r, d);
      RescheduledHeap(PopRep(r, d), d.slot, now, g.horizon);
    } else {
      var ticked := TickedRep(r, d, g, now);
      TickedOk(r, d, g, now);
      RescheduledHeap(ticked, d.slot, now, g.horizon);
      if p: nat :| p < |r.lru| && r.lru[p] == d.slot && r' == RemoveRep(ticked, p) {
        RemovedOk(ticked, p);
        RemovedSlab(ticked, p);
      }
    }
  }

  lemma TurnMakesNoStale<K, T>(r: Rep<K, T>, r': Rep<K, T>, d: Due, emitted: seq<(K, Window<T>)>, g: Grid, now: int)
    requires RepOk(r) && d in r.heap && Turned(r, r', d, emitted, g, now)
    ensures NoNewStale(r, r')
  {
    hide RepOk, Turned;
    HeapAfterTurn(r, r', d, emitted, g, now);
    TurnFrame(r, r', d, emitted, g, now);
  }

  lemma {:induction false} TreadsMakeNoStale<K, T>(
      r0: Rep<K, T>, turns: seq<Turn<K, T>>, r: Rep<K, T>, g: Grid, now: int)
    requires RepOk(r0) && Treads(r0, turns, r, g, now)
    ensures NoNewStale(r0, r)
  {
    hide RepOk, Turned;
    if turns != [] {
      var t := turns[|turns| - 1];
      TreadsOk(r0, turns[..|turns| - 1], t.before, g, now);
      TreadsMakeNoStale(r0, turns[..|turns| - 1], t.before, g, now);
      TurnMakesNoStale(t.before, r, t.d, t.emitted, g, now);
    }
  }

  /** A heap without stale entries has at most one entry for each key. */
  lemma AllCurrent<K, T>(r: Rep<K, T>)
    requires RepOk(r) && forall e :: e in r.heap ==> IsCurrent(r, e)
    ensures |r.heap| <= |r.index|
  {
    assert CurrentIn(r) == r.heap;
    CurrentFit(r);
  }

  // ---------------------------------------------------------------- one expire, for any clock

  /** The entries that are stale and not due at `now`: an `expire` at `now` does not get to them. */
  ghost function StaleAhead<K, T>(r: Rep<K, T>, now: int): set<Due> {
    set e | e in r.heap && !IsCurrent(r, e) && now < e.deadline
  }

  ghost function CurrentIn<K, T>(r: Rep<K, T>): set<Due> { set e | e in r.heap && IsCurrent(r, e) }

  /**
    What `expire` leaves in the heap, for any clock: at most one entry for each key that is
    left, and the stale entries that are not due; and for each key released at least one entry
    less than before.
  */
  lemma {:induction false} ExpireLeaves<K, T>(r0: Rep<K, T>, x: Expiry<K, T>, g: Grid, now: int)
    requires RepOk(r0) && Expires(r0, x, g, now)
    ensures |x.after.heap| <= |x.after.index| + |StaleAhead(r0, now)|
    ensures |x.after.index| <= |r0.index| && |x.after.heap| + (|r0.index| - |x.after.index|) <= |r0.heap|
  {
    var r := x.after;
    TreadsOk(r0, x.turns, r, g, now);
    TreadsMakeNoStale(r0, x.turns, r, g, now);
    assert DueBy(r.heap, now) == {};
    hide Treads;
    forall e | e in r.heap && !IsCurrent(r, e) ensures e in StaleAhead(r0, now) {
      assert e !in DueBy(r.heap, now);
    }
    CurrentFit(r);
    hide RepOk, NoNewStale, Expires;
    assert r.heap <= CurrentIn(r) + StaleAhead(r0, now);
    SubsetSize(r.heap, CurrentIn(r) + StaleAhead(r0, now));
  }

  lemma CurrentFit<K, T>(r: Rep<K, T>)
    requires RepOk(r)
    ensures |CurrentIn(r)| <= |r.index|
  {
    forall e, f | e in CurrentIn(r) && f in CurrentIn(r) && e.slot == f.slot ensures e == f {
      assert e.ticket == f.ticket;
    }
    EntriesFit(CurrentIn(r), r.lru);
  }

  // ---------------------------------------------------------------- one expire in time

  /** If the deadline of a held key has passed, so has that of every stale entry. */
  lemma StaleIsDue<K, T>(r0: Rep<K, T>, r: Rep<K, T>, keys: map<K, Held<T>>, at: Option<int>, g: Grid, now: int, k: K)
    requires RepOk(r0) && CoresAgree(r0, keys) && StaleIsEarly(r0, g.horizon, at) && NoNewStale(r0, r)
    requires k in keys && IsDue(keys[k].core, g.horizon, now)
    ensures forall e :: e in r.heap && !IsCurrent(r, e) ==> e.deadline <= now
  {
    SlotOfKey(r0, k);
    assert Holds(r0, k);
    hide RepOk;
    forall e | e in r.heap && !IsCurrent(r, e) ensures e.deadline <= now {
      assert NoLater(e, Deadline(r0.slab[r0.index[k]].value.core, g.horizon));
    }
  }

  /** If a key was released, its deadline had passed, and so had that of every stale entry. */
  lemma ReleaseClearsStale<K, T>(r0: Rep<K, T>, r: Rep<K, T>, keys: map<K, Held<T>>, at: Option<int>, g: Grid, now: int)
    requires RepOk(r0) && CoresAgree(r0, keys) && CoresAgree(r, TickAll(keys, g, now))
    requires StaleIsEarly(r0, g.horizon, at) && NoNewStale(r0, r) && DueBy(r.heap, now) == {}
    requires |r.index| < |r0.index|
    ensures forall e :: e in r.heap ==> IsCurrent(r, e)
  {
    hide RepOk, CoresAgree, StaleIsEarly, NoNewStale, OnTick, IsEmpty, Survives;
    SomeKeyIsReleased(r0, r, keys, g, now);
    var k :| k in keys && !Survives(keys[k].core, g, now);
    DiesWhenDue(keys[k].core, g, now);
    StaleIsDue(r0, r, keys, at, g, now, k);
    assert forall e :: e in r.heap && e.deadline <= now ==> e in DueBy(r.heap, now);
  }

  lemma DiesWhenDue<T>(core: Core<T>, g: Grid, now: int)
    requires !Survives(core, g, now)
    ensures IsDue(core, g.horizon, now)
  {}

  lemma AllSurvive<K, T>(r0: Rep<K, T>, r: Rep<K, T>, keys: map<K, Held<T>>, g: Grid, now: int)
    requires CoresAgree(r0, keys) && CoresAgree(r, TickAll(keys, g, now))
    requires forall k :: k in keys ==> Survives(keys[k].core, g, now)
    ensures |r.index| == |r0.index|
  {
    hide Survives, Examined;
    assert r.index.Keys == r0.index.Keys;
    assert |r.index| == |r.index.Keys| && |r0.index| == |r0.index.Keys|;
  }

  lemma SomeKeyIsReleased<K, T>(r0: Rep<K, T>, r: Rep<K, T>, keys: map<K, Held<T>>, g: Grid, now: int)
    requires CoresAgree(r0, keys) && CoresAgree(r, TickAll(keys, g, now)) && |r.index| < |r0.index|
    ensures exists k :: k in keys && !Survives(keys[k].core, g, now)
  {
    hide *;
    if forall k :: k in keys ==> Survives(keys[k].core, g, now) {
      AllSurvive(r0, r, keys, g, now);
    }
  }

  /** The deadline of a key after `expire` is that before it, or the one of a key that gets an item now. */
  lemma DeadlineAfterTick<K, T>(keys: map<K, Held<T>>, policy: Policy, g: Grid, now: int, k: K)
    requires ValidPolicy(policy) && Reached(g, now) && KeysInv(keys, policy, g, now) && KeysSteady(keys, g, now)
    requires k in TickAll(keys, g, now)
    ensures var after := Deadline(TickAll(keys, g, now)[k].core, g.horizon);
      after == Deadline(keys[k].core, g.horizon) || after == FreshDeadline(policy, g, now) || after.None?
  {
    var core := keys[k].core;
    assert CoreInv(core, policy, g, now) && Steady(core, g, now);
    if IsDue(core, g.horizon, now) {
      TickOnlyEmits(core, policy, g, now);
      TickLeavesNothingDue(core, policy, g, now);
      TickIsSteady(core, g, now);
      NotDueMeans(OnTick(core, g, now).core, policy, g, now);
      hide OnTick, CoreInv;
      SessionStays(core, g, now);
    }
  }

  /** The stale entries that `expire` leaves are no later than the keys it leaves. */
  lemma ExpireKeepsEarly<K, T>(
      r0: Rep<K, T>, r: Rep<K, T>, keys: map<K, Held<T>>, policy: Policy, g: Grid, t: int, now: int)
    requires RepOk(r0) && RepOk(r) && Agrees(r0, keys, policy, g, now) && CoresAgree(r, TickAll(keys, g, now))
    requires Reached(g, t) && t <= now && KeysSteady(keys, g, now)
    requires StaleIsEarly(r0, g.horizon, FreshDeadline(policy, g, t)) && NoNewStale(r0, r)
    ensures StaleIsEarly(r, g.horizon, FreshDeadline(policy, g, now))
  {
    FreshLater(policy, g, t, now);
    RepParts(r0);
    RepParts(r);
    hide RepOk, FreshDeadline, Deadline, KeysInv, KeysSteady, CoresAgree, OrderAgrees, EntriesOk, TickAll, IsCurrent,
      NoLaterThanKeys, IndexOk;
    forall e | e in r.heap && !IsCurrent(r, e)
      ensures NoLater(e, FreshDeadline(policy, g, now)) && NoLaterThanKeys(r, e, g.horizon)
    {
      assert NoLater(e, FreshDeadline(policy, g, t)) && NoLaterThanKeys(r0, e, g.horizon);
      StaleBeforeKeys(r0, r, keys, policy, g, now, e);
    }
  }

  lemma StaleBeforeKeys<K, T>(
      r0: Rep<K, T>, r: Rep<K, T>, keys: map<K, Held<T>>, policy: Policy, g: Grid, now: int, e: Due)
    requires IndexOk(r0.index, r0.slab) && IndexOk(r.index, r.slab)
    requires CoresAgree(r0, keys) && CoresAgree(r, TickAll(keys, g, now))
    requires ValidPolicy(policy) && Reached(g, now) && KeysInv(keys, policy, g, now) && KeysSteady(keys, g, now)
    requires NoLater(e, FreshDeadline(policy, g, now)) && NoLaterThanKeys(r0, e, g.horizon)
    ensures NoLaterThanKeys(r, e, g.horizon)
  {
    hide FreshDeadline, Deadline, KeysInv, KeysSteady, Survives, Examined;
    forall i: nat | Live(r.slab, i) ensures NoLater(e, Deadline(r.slab[i].value.core, g.horizon)) {
      var k := r.slab[i].value.key;
      assert r.index[k] == i && Holds(r, k) && CoreAt(r, k) == TickAll(keys, g, now)[k].core;
      DeadlineAfterTick(keys, policy, g, now, k);
      assert Holds(r0, k) && CoreAt(r0, k) == keys[k].core;
      assert NoLater(e, Deadline(r0.slab[r0.index[k]].value.core, g.horizon));
    }
  }

  /** One `expire` in time. */
  lemma {:induction false} ExpireIsSnug<K, T>(
      r0: Rep<K, T>, x: Expiry<K, T>, keys: map<K, Held<T>>, policy: Policy, g: Grid, t: int, now: int)
    requires RepOk(r0) && Agrees(r0, keys, policy, g, now) && Expires(r0, x, g, now)
    requires KeysInv(keys, policy, g, t) && Reached(g, t) && t <= now && Snug(r0, keys, policy, g, t)
    requires CoresAgree(x.after, TickAll(keys, g, now))
    ensures Snug(x.after, TickAll(keys, g, now), policy, g, now)
  {
    hide RepOk, CoresAgree, StaleIsEarly, NoNewStale, KeysInv;
    TreadsOk(r0, x.turns, x.after, g, now);
    TreadsMakeNoStale(r0, x.turns, x.after, g, now);
    KeysSteadyLater(keys, policy, g, t, now);
    SteadyAfterTickAll(keys, g, now);
    ExpireKeepsEarly(r0, x.after, keys, policy, g, t, now);
    assert IsSmall(x.after) by {
      SizeAfter(r0, x.after);
      if |x.after.index| < |r0.index| {
        ReleaseClearsStale(r0, x.after, keys, FreshDeadline(policy, g, t), g, now);
        AllCurrent(x.after);
      }
    }
  }

  lemma SizeAfter<K, T>(r0: Rep<K, T>, r: Rep<K, T>)
    requires NoNewStale(r0, r)
    ensures |r.index| <= |r0.index| && |r.heap| + (|r0.index| - |r.index|) <= |r0.heap|
  {}

  // ---------------------------------------------------------------- one item

  /** Nothing is due, and the reference holds the same cores. */
  ghost predicate Quiet<K, T>(r: Rep<K, T>, keys: map<K, Held<T>>, policy: Policy, g: Grid, now: int) {
    && ValidPolicy(policy) && Reached(g, now) && KeysInv(keys, policy, g, now) && InStep(r, keys, g.horizon)
    && (forall k :: k in keys ==> !IsDue(keys[k].core, g.horizon, now))
  }

  /** The key at the head of the list is due no later than any other. */
  lemma HeadIsDueFirst<K, T>(r: Rep<K, T>, keys: map<K, Held<T>>, policy: Policy, g: Grid, now: int, i: nat)
    requires RepOk(r) && Quiet(r, keys, policy, g, now) && KeysSteady(keys, g, now)
    requires r.lru != [] && Live(r.slab, r.lru[0]) && Live(r.slab, i) && i != r.lru[0]
    ensures NotAfter(Deadline(r.slab[r.lru[0]].value.core, g.horizon), Deadline(r.slab[i].value.core, g.horizon))
    ensures NotAfter(Deadline(r.slab[r.lru[0]].value.core, g.horizon), FreshDeadline(policy, g, now))
    ensures Endless(r.slab[r.lru[0]].value.core, g.horizon) ==> Deadline(r.slab[i].value.core, g.horizon).None?
  {
    var k, l := r.slab[r.lru[0]].value.key, r.slab[i].value.key;
    SlotIsIndexed(r, r.lru[0]);
    SlotIsIndexed(r, i);
    var p := PositionOf(r, i);
    var ks := LruKeys(r.slab, r.lru);
    assert ks[0] == k && ks[p] == l && 0 < p;
    assert Holds(r, k) && Holds(r, l);
    hide RepOk, EntriesOk, FreshDeadline, Steady, CoreInv;
    assert keys[k].touched < keys[l].touched;
    NotDueMeans(keys[k].core, policy, g, now);
    NotDueMeans(keys[l].core, policy, g, now);
    assert LastInOrder(keys[k].core, keys[l].core);
    OrderedSessions(keys[k].core, keys[l].core, policy, g, now);
  }

  lemma OrderedSessions<T>(a: Core<T>, b: Core<T>, policy: Policy, g: Grid, now: int)
    requires CoreInv(a, policy, g, now) && CoreInv(b, policy, g, now) && LastInOrder(a, b)
    ensures policy.Session? ==> NotAfter(Deadline(a, g.horizon), Deadline(b, g.horizon))
    ensures Endless(a, g.horizon) ==> Deadline(b, g.horizon).None?
  {}

  /** A session whose deadline is not representable. */
  predicate Endless<T>(core: Core<T>, horizon: int) {
    core.SessionCore? && core.last.Some? && Deadline(core, horizon).None?
  }

  lemma HeadIsDueBefore<K, T>(r: Rep<K, T>, keys: map<K, Held<T>>, policy: Policy, g: Grid, now: int)
    requires RepOk(r) && Quiet(r, keys, policy, g, now) && KeysSteady(keys, g, now)
    requires r.lru != [] && Live(r.slab, r.lru[0])
    ensures NotAfter(Deadline(r.slab[r.lru[0]].value.core, g.horizon), FreshDeadline(policy, g, now))
    ensures Endless(r.slab[r.lru[0]].value.core, g.horizon) ==> FreshDeadline(policy, g, now).None?
  {
    var k := r.slab[r.lru[0]].value.key;
    SlotIsIndexed(r, r.lru[0]);
    assert Holds(r, k);
    EndlessForAll(keys[k].core, policy, g, now);
    hide RepOk, FreshDeadline, CoreInv;
    NotDueMeans(keys[k].core, policy, g, now);
  }

  lemma EndlessForAll<T>(core: Core<T>, policy: Policy, g: Grid, now: int)
    requires CoreInv(core, policy, g, now)
    ensures Endless(core, g.horizon) ==> FreshDeadline(policy, g, now).None?
  {}

  /** The entry of the key at the head of the list is no later than any other key's deadline. */
  lemma HeadEntryIsEarly<K, T>(r: Rep<K, T>, keys: map<K, Held<T>>, policy: Policy, g: Grid, now: int, e: Due)
    requires RepOk(r) && Quiet(r, keys, policy, g, now) && KeysSteady(keys, g, now)
    requires r.lru != [] && Live(r.slab, r.lru[0]) && e in r.heap && IsCurrent(r, e) && e.slot == r.lru[0]
    ensures NoLater(e, FreshDeadline(policy, g, now))
    ensures forall i: nat :: Live(r.slab, i) && i != e.slot ==> NoLater(e, Deadline(r.slab[i].value.core, g.horizon))
  {
    PoppedIsScheduled(r, e, g.horizon);
    HeadIsDueBefore(r, keys, policy, g, now);
    forall i: nat | Live(r.slab, i) && i != e.slot ensures NoLater(e, Deadline(r.slab[i].value.core, g.horizon)) {
      HeadIsDueFirst(r, keys, policy, g, now, i);
    }
  }

  /**
    In between, with the key of the item in `slot`: no stale entry is later than the deadline
    a fresh item gives, or than any other key's.
  */
  ghost predicate EarlyBut<K, T>(r: Rep<K, T>, slot: nat, horizon: int, at: Option<int>) {
    forall e :: e in r.heap && !IsCurrent(r, e) ==>
      NoLater(e, at) && forall i: nat :: Live(r.slab, i) && i != slot ==>
        NoLater(e, Deadline(r.slab[i].value.core, horizon))
  }

  lemma LinksKeepEarly<K, T>(r: Rep<K, T>, r': Rep<K, T>, horizon: int, at: Option<int>, slot: nat)
    requires SameButLinks(r.slab, r'.slab) && r'.heap == r.heap && StaleIsEarly(r, horizon, at)
    ensures EarlyBut(r', slot, horizon, at)
  {
    hide Deadline;
    forall e | e in r'.heap && !IsCurrent(r', e)
      ensures NoLater(e, at) && forall i: nat :: Live(r'.slab, i) && i != slot ==>
        NoLater(e, Deadline(r'.slab[i].value.core, horizon))
    {
      assert !IsCurrent(r, e);
      assert NoLaterThanKeys(r, e, horizon);
      assert forall i: nat :: Live(r'.slab, i) ==> Live(r.slab, i) && r'.slab[i].value.core == r.slab[i].value.core;
    }
  }

  /** What the other cells and the new one hold after a new key was put in. */
  lemma InsertedFrame<K, T>(r: Rep<K, T>, r': Rep<K, T>, slot: nat, s: Keyed<K, T>, key: K)
    requires RepOk(r) && key !in r.index && IsInserted(r, r', slot, s, key)
    ensures OnlyAt(r, r', slot) && !Live(r.slab, slot) && Live(r'.slab, slot)
    ensures SameEntry(r'.slab[slot].value, NewEntry(key, s.c.policy, r.seqNo + 1))
    ensures r'.heap == r.heap && |r'.index| == |r.index| + 1
  {
    FilledOk(r, key, s.c.policy);
    InsertedOk(r, key, s.c.policy);
    assert r'.heap == r.heap;
    var f := FilledRep(r, key, s.c.policy).slab;
    assert SameButLinks(f, r'.slab);
    hide *;
    FilledFrame(r, f, r', slot, NewEntry(key, s.c.policy, r.seqNo + 1));
  }

  lemma FilledFrame<K, T>(r: Rep<K, T>, f: Slab<K, T>, r': Rep<K, T>, slot: nat, e: KeyEntry<K, T>)
    requires SameButLinks(f, r'.slab) && slot < |f| && f[slot] == Some(e)
    requires forall i :: Live(f, i) <==> Live(r.slab, i) || i == slot
    requires forall i :: Live(r.slab, i) ==> i != slot && f[i] == r.slab[i]
    ensures OnlyAt(r, r', slot) && !Live(r.slab, slot) && Live(r'.slab, slot) && SameEntry(r'.slab[slot].value, e)
  {
    forall i: nat | i != slot
      ensures Live(r.slab, i) <==> Live(r'.slab, i)
      ensures Live(r.slab, i) ==> SameEntry(r.slab[i].value, r'.slab[i].value)
    {
      assert Live(f, i) <==> Live(r'.slab, i);
    }
    assert Live(f, slot);
  }

  /** A new key makes no entry stale: its cell was free, and its ticket is 0. */
  lemma InsertKeepsEarly<K, T>(
      r: Rep<K, T>, r': Rep<K, T>, slot: nat, s: Keyed<K, T>, key: K, horizon: int, at: Option<int>)
    requires RepOk(r) && key !in r.index && IsInserted(r, r', slot, s, key) && StaleIsEarly(r, horizon, at)
    ensures EarlyBut(r', slot, horizon, at) && r'.heap == r.heap && |r'.index| == |r.index| + 1
  {
    hide RepOk, IsInserted, Deadline;
    InsertedFrame(r, r', slot, s, key);
    forall e | e in r'.heap && !IsCurrent(r', e)
      ensures NoLater(e, at) && forall i: nat :: Live(r'.slab, i) && i != slot ==>
        NoLater(e, Deadline(r'.slab[i].value.core, horizon))
    {
      assert !IsCurrent(r, e);
      assert NoLaterThanKeys(r, e, horizon);
    }
  }

  /** The entry an evicted key leaves behind is no later than the keys that stay. */
  lemma EvictKeepsEarly<K, T>(r: Rep<K, T>, keys: map<K, Held<T>>, policy: Policy, g: Grid, now: int)
    requires RepOk(r) && Quiet(r, keys, policy, g, now) && KeysSteady(keys, g, now)
    requires StaleIsEarly(r, g.horizon, FreshDeadline(policy, g, now)) && r.lru != [] && Live(r.slab, r.lru[0])
    ensures StaleIsEarly(RemoveRep(r, 0), g.horizon, FreshDeadline(policy, g, now)) && RemoveRep(r, 0).heap == r.heap
  {
    var room, head := RemoveRep(r, 0), r.lru[0];
    RemovedFrame(r, 0);
    forall e | e in r.heap && IsCurrent(r, e) && e.slot == head
      ensures NoLater(e, FreshDeadline(policy, g, now))
      ensures forall i: nat :: Live(r.slab, i) && i != head ==> NoLater(e, Deadline(r.slab[i].value.core, g.horizon))
    {
      HeadEntryIsEarly(r, keys, policy, g, now, e);
    }
    hide RepOk, Quiet, KeysSteady, RemoveRep, FreshDeadline, Deadline;
    StaleOfRoom(r, room, head, g.horizon, FreshDeadline(policy, g, now));
  }

  lemma StaleOfRoom<K, T>(r: Rep<K, T>, room: Rep<K, T>, head: nat, horizon: int, at: Option<int>)
    requires OnlyAt(r, room, head) && room.heap == r.heap && !Live(room.slab, head) && StaleIsEarly(r, horizon, at)
    requires forall e :: e in r.heap && IsCurrent(r, e) && e.slot == head ==> NoLater(e, at)
    requires forall e, i: nat :: e in r.heap && IsCurrent(r, e) && e.slot == head && Live(r.slab, i) && i != head ==>
      NoLater(e, Deadline(r.slab[i].value.core, horizon))
    ensures StaleIsEarly(room, horizon, at)
  {
    hide Deadline;
    forall e | e in room.heap && !IsCurrent(room, e) ensures NoLater(e, at) && NoLaterThanKeys(room, e, horizon) {
      if !IsCurrent(r, e) {
        assert NoLater(e, at) && NoLaterThanKeys(r, e, horizon);
      } else {
        assert e.slot == head;
      }
    }
  }

  /** After `touch`. */
  lemma TouchKeepsEarly<K, T>(
      r: Rep<K, T>, mid: Rep<K, T>, slot: nat, evicted: seq<(K, Window<T>)>, s: Keyed<K, T>, key: K,
      keys: map<K, Held<T>>, g: Grid, now: int)
    requires RepOk(r) && Touched(r, mid, slot, evicted, s, key, g, now)
    requires Quiet(r, keys, s.c.policy, g, now) && Snug(r, keys, s.c.policy, g, now)
    ensures EarlyBut(mid, slot, g.horizon, FreshDeadline(s.c.policy, g, now)) && |mid.heap| <= 2 * |mid.index| + 64
  {
    hide RepOk, InsertRep, NewSlot, RemoveRep, OnFlush, IsInserted, Quiet, StaleIsEarly, KeysSteady, FreshDeadline,
      EarlyBut;
    var at := FreshDeadline(s.c.policy, g, now);
    if key in r.index {
      if slot == r.tail {
        SameIsEarly(r, slot, g.horizon, at);
      } else {
        var p: nat :| p < |r.lru| && r.lru[p] == slot && mid == TouchRep(r, p);
        TouchedOk(r, p);
        LinksKeepEarly(r, mid, g.horizon, at, slot);
      }
    } else if |r.index| >= s.maxKeys {
      RoomIsOk(r, key);
      EvictKeepsEarly(r, keys, s.c.policy, g, now);
      InsertKeepsEarly(RemoveRep(r, 0), mid, slot, s, key, g.horizon, at);
    } else {
      InsertKeepsEarly(r, mid, slot, s, key, g.horizon, at);
    }
  }

  lemma SameIsEarly<K, T>(r: Rep<K, T>, slot: nat, horizon: int, at: Option<int>)
    requires StaleIsEarly(r, horizon, at)
    ensures EarlyBut(r, slot, horizon, at)
  {
    hide Deadline;
  }

  /** A key's new deadline is no earlier than the entry it has, so `schedule` supersedes no entry. */
  lemma NoneSuperseded<K, T>(r: Rep<K, T>, slot: nat, now: int, horizon: int)
    requires RepOk(r) && Live(r.slab, slot)
    requires var e := r.slab[slot].value;
      Deadline(e.core, horizon).Some? && e.scheduled.Some? ==> e.scheduled.value <= Deadline(e.core, horizon).value
    requires Deadline(r.slab[slot].value.core, horizon).Some? ==> now < Deadline(r.slab[slot].value.core, horizon).value
    ensures var r' := Rescheduled(r, slot, now, horizon);
      && OneEntry(r, r', slot) && r'.slab[slot].value.core == r.slab[slot].value.core
      && (forall e :: e in r'.heap && !IsCurrent(r', e) ==> e in r.heap && !IsCurrent(r, e))
      && (|r.heap| <= 2 * |r.index| + 64 ==> IsSmall(r'))
  {
    RescheduledOk(r, slot, now, horizon);
    RescheduledHeap(r, slot, now, horizon);
    var r' := Rescheduled(r, slot, now, horizon);
    if r' != r {
      var at := Deadline(r.slab[slot].value.core, horizon).value;
      assert r' == ScheduleRep(r, slot, at) && r.slab[slot].value.scheduled.None?;
      assert forall e :: e in r.heap && e.slot == slot ==> !IsCurrent(r, e);
      hide Deadline, Rescheduled;
      ScheduledSize(r, slot, at);
    }
  }

  /** `compact_heap` leaves a heap within the bound, or one entry for each key. */
  lemma ScheduledSize<K, T>(r: Rep<K, T>, slot: nat, at: int)
    requires RepOk(r) && Live(r.slab, slot)
    ensures IsSmall(ScheduleRep(r, slot, at))
  {
    var r' := ScheduleRep(r, slot, at);
    ScheduleKeepsHeap(r.heap, r.slab, r.tickets, slot, at);
    var heap := r.heap + {Due(at, r.tickets + 1, slot)};
    assert KeyedState.Covers(r'.slab, r'.lru) by { ScheduledOk(r, slot, at); }
    CompactionKeepsLive(heap, r'.slab, r'.tickets, r'.lru);
    hide LiveEntries;
  }

  lemma EarlyAgain<K, T>(mid: Rep<K, T>, r': Rep<K, T>, slot: nat, horizon: int, at: Option<int>)
    requires EarlyBut(mid, slot, horizon, at) && OneEntry(mid, r', slot)
    requires Deadline(r'.slab[slot].value.core, horizon) == at
    requires forall e :: e in r'.heap && !IsCurrent(r', e) ==> e in mid.heap && !IsCurrent(mid, e)
    ensures StaleIsEarly(r', horizon, at)
  {
    hide Deadline, IsCurrent;
    forall e | e in r'.heap && !IsCurrent(r', e) ensures NoLater(e, at) && NoLaterThanKeys(r', e, horizon) {
      forall i: nat | Live(r'.slab, i) ensures NoLater(e, Deadline(r'.slab[i].value.core, horizon)) {
        if i != slot { assert Live(mid.slab, i) && r'.slab[i] == mid.slab[i]; }
      }
    }
  }

  /** Setting the core leaves every entry as current as it was. */
  lemma CoreSetFrame<K, T>(r: Rep<K, T>, slot: nat, core: Core<T>)
    requires Live(r.slab, slot)
    ensures var r' := SetCoreRep(r, slot, core);
      && r'.heap == r.heap && r'.index == r.index && OneEntry(r, r', slot)
      && r'.slab[slot].value == r.slab[slot].value.(core := core)
      && forall e :: IsCurrent(r', e) <==> IsCurrent(r, e)
  {}

  /** The step of the key's core, and `schedule`. */
  lemma ItemKeepsSnug<K, T(!new)>(mid: Rep<K, T>, slot: nat, policy: Policy, cap: nat, g: Grid, now: int, item: T)
    requires RepOk(mid) && Live(mid.slab, slot) && EntryOk(mid.slab[slot].value, g.horizon)
    requires ValidPolicy(policy) && Reached(g, now)
    requires CoreInv(mid.slab[slot].value.core, policy, g, now) && Steady(mid.slab[slot].value.core, g, now)
    requires !IsDue(mid.slab[slot].value.core, g.horizon, now)
    requires EarlyBut(mid, slot, g.horizon, FreshDeadline(policy, g, now)) && |mid.heap| <= 2 * |mid.index| + 64
    ensures var r' := ItemRep(mid, slot, OnItem(mid.slab[slot].value.core, cap, g, now, item).core, now, g.horizon);
      IsSmall(r') && StaleIsEarly(r', g.horizon, FreshDeadline(policy, g, now))
  {
    var was := mid.slab[slot].value.core;
    var core := OnItem(was, cap, g, now, item).core;
    var set_ := SetCoreRep(mid, slot, core);
    ItemDeadline(was, policy, cap, g, now, item);
    ItemLeavesNothingDue(was, policy, cap, g, now, item);
    NotDueMeans(was, policy, g, now);
    EndlessForAll(was, policy, g, now);
    CoreSetOk(mid, slot, core);
    CoreSetFrame(mid, slot, core);
    hide RepOk, OnItem, CoreInv, Steady, SetCoreRep, EarlyBut, StaleIsEarly, OneEntry, FreshDeadline, Deadline,
      Rescheduled;
    NoneSuperseded(set_, slot, now, g.horizon);
    OneEntryTwice(mid, set_, ItemRep(mid, slot, core, now, g.horizon), slot);
    EarlyAgain(mid, ItemRep(mid, slot, core, now, g.horizon), slot, g.horizon, FreshDeadline(policy, g, now));
  }

  lemma CoreOfIsSteady<K, T>(kept: map<K, Held<T>>, policy: Policy, key: K, g: Grid, now: int)
    requires KeysSteady(kept, g, now)
    ensures Steady(CoreOf(kept, policy, key), g, now)
  {}

  /** What the reference keeps is steady, before the item and after it. */
  lemma KeptFacts<K(!new), T(!new)>(n: Naive<K, T>, s: Keyed<K, T>, g: Grid, now: int, item: T)
    requires ValidPolicy(s.c.policy) && Reached(g, now) && g == GridOf(s.c, n, now)
    requires KeysInv(n.keys, s.c.policy, g, now) && forall k :: k in n.keys ==> n.keys[k].touched <= n.seqNo
    requires KeysSteady(TickAll(n.keys, g, now), g, now)
    ensures var core := CoreOf(KeptFor(s, TickAll(n.keys, g, now), s.key(item)), s.c.policy, s.key(item));
      CoreInv(core, s.c.policy, g, now) && Steady(core, g, now) && !IsDue(core, g.horizon, now)
    ensures KeysSteady(Next(s, n, Item(now, item)).keys, g, now)
  {
    hide *;
    var key := s.key(item);
    var kept := KeptFor(s, TickAll(n.keys, g, now), key);
    KeptCoreOk(s, n.keys, g, now, key, n.seqNo);
    NextByKept(s, n, g, now, item);
    KeptIsSteady(s, TickAll(n.keys, g, now), key, g, now);
    CoreOfIsSteady(kept, s.c.policy, key, g, now);
    SteadyAfterItem(kept, key, s.c.policy, s.c.cap, g, now, item, n.seqNo);
  }

  /** One item in time, after the `expire` that comes with it. */
  lemma {:induction false} AddedIsSnug<K(!new), T(!new)>(
      r: Rep<K, T>, r': Rep<K, T>, out: seq<(K, Window<T>)>, n: Naive<K, T>, s: Keyed<K, T>, g: Grid, now: int, item: T)
    requires RepOk(r) && Added(r, r', out, s, g, now, item)
    requires ValidPolicy(s.c.policy) && Reached(g, now) && g == GridOf(s.c, n, now)
    requires KeysInv(n.keys, s.c.policy, g, now) && forall k :: k in n.keys ==> n.keys[k].touched <= n.seqNo
    requires InStep(r, TickAll(n.keys, g, now), g.horizon) && Snug(r, TickAll(n.keys, g, now), s.c.policy, g, now)
    ensures Snug(r', Next(s, n, Item(now, item)).keys, s.c.policy, g, now)
  {
    var keys, key := TickAll(n.keys, g, now), s.key(item);
    var mid, slot: nat, evicted :| AddedAt(r, mid, r', slot, evicted, out, s, g, now, item);
    hide RepOk, Touched, OnItem, TickAll, KeysInv, InStep, ItemRep, Next, KeptFor, StaleIsEarly, EarlyBut,
      KeysSteady, FreshDeadline;
    TickAllKeepsInv(n.keys, s.c.policy, g, now);
    assert Quiet(r, keys, s.c.policy, g, now);
    hide Quiet, IsDue;
    AddedOk(r, mid, r', slot, evicted, out, s, g, now, item);
    TouchKeepsEarly(r, mid, slot, evicted, s, key, keys, g, now);
    KeptFacts(n, s, g, now, item);
    TouchedCore(r, mid, slot, evicted, s, key, keys, g, now);
    hide CoreInv, Steady, CoreOf, AddedAt;
    ItemKeepsSnug(mid, slot, s.c.policy, s.c.cap, g, now, item);
  }

  lemma KeptIsSteady<K(!new), T>(s: Keyed<K, T>, keys: map<K, Held<T>>, key: K, g: Grid, now: int)
    requires KeysSteady(keys, g, now)
    ensures KeysSteady(KeptFor(s, keys, key), g, now)
  {
    hide KeysSteady, Victim;
    SteadyWithout(keys, Victim(keys, s.maxKeys, key), g, now);
  }

  /** The key's core after `touch` is the reference's, and its entry is in order. */
  lemma TouchedCore<K(!new), T>(
      r: Rep<K, T>, mid: Rep<K, T>, slot: nat, evicted: seq<(K, Window<T>)>, s: Keyed<K, T>, key: K,
      keys: map<K, Held<T>>, g: Grid, now: int)
    requires RepOk(r) && Touched(r, mid, slot, evicted, s, key, g, now) && InStep(r, keys, g.horizon)
    ensures Live(mid.slab, slot) && mid.slab[slot].value.core == CoreOf(KeptFor(s, keys, key), s.c.policy, key)
    ensures EntryOk(mid.slab[slot].value, g.horizon)
  {
    hide RepOk, InsertRep, NewSlot, RemoveRep, OnFlush, EntryOk, OrderAgrees;
    if key in r.index {
      SlotOfKey(r, key);
      assert Holds(r, key) && EntryOk(r.slab[slot].value, g.horizon);
      if slot != r.tail {
        var p: nat :| p < |r.lru| && r.lru[p] == slot && mid == TouchRep(r, p);
        TouchedOk(r, p);
        LinksKeepEntry(r, mid, slot, g.horizon);
      }
    } else {
      var room := if |r.index| >= s.maxKeys then RemoveRep(r, 0) else r;
      if |r.index| >= s.maxKeys { RoomIsOk(r, key); }
      InsertedIsNew(room, mid, slot, s, key, g.horizon);
    }
  }

  lemma LinksKeepEntry<K, T>(r: Rep<K, T>, r': Rep<K, T>, slot: nat, horizon: int)
    requires SameButLinks(r.slab, r'.slab) && Live(r.slab, slot) && EntryOk(r.slab[slot].value, horizon)
    ensures Live(r'.slab, slot) && r'.slab[slot].value.core == r.slab[slot].value.core
    ensures EntryOk(r'.slab[slot].value, horizon)
  {}

  lemma InsertedIsNew<K, T>(r: Rep<K, T>, r': Rep<K, T>, slot: nat, s: Keyed<K, T>, key: K, horizon: int)
    requires RepOk(r) && key !in r.index && IsInserted(r, r', slot, s, key)
    ensures Live(r'.slab, slot) && r'.slab[slot].value.core == NewCore(s.c.policy)
    ensures EntryOk(r'.slab[slot].value, horizon)
  {
    hide RepOk, IsInserted, OnlyAt;
    InsertedFrame(r, r', slot, s, key);
  }

  // ---------------------------------------------------------------- whole events

  /** The instant up to which the reference's invariant is known, and the clock now. */
  ghost predicate Passing<K, T>(n: Naive<K, T>, s: Keyed<K, T>, g: Grid, t: int, now: int) {
    && ValidPolicy(s.c.policy) && g == GridOf(s.c, n, now) && Reached(g, t) && t <= now <= g.horizon
    && KeysInv(n.keys, s.c.policy, g, t) && (forall k :: k in n.keys ==> n.keys[k].touched <= n.seqNo)
  }

  /** The last event's instant and the clock, if the reference is sound at that instant. */
  lemma PassingNow<K, T>(n: Naive<K, T>, s: Keyed<K, T>, g: Grid, t: int, now: int)
    requires ValidPolicy(s.c.policy) && g == GridOf(s.c, n, now) && t <= now <= s.c.horizon && NaiveInv(s.c, n, t)
    requires n.anchor.None? ==> t == now
    requires forall k :: k in n.keys ==> n.keys[k].touched <= n.seqNo
    ensures Passing(n, s, g, t, now)
  {
    OriginIsBefore(s.c, now);
    hide CoreInv;
  }

  lemma NextAnchor<K, T>(s: Keyed<K, T>, n: Naive<K, T>, now: int, item: T)
    ensures Next(s, n, Item(now, item)).anchor == Some(GridOf(s.c, n, now).anchor)
  {
    hide OnItem, TickAll, Victim;
  }

  lemma TickIsSnug<K, T>(
      r0: Rep<K, T>, x: Expiry<K, T>, n: Naive<K, T>, s: Keyed<K, T>, g: Grid, t: int, now: int)
    requires RepOk(r0) && Passing(n, s, g, t, now) && Agrees(r0, n.keys, s.c.policy, g, now) && Expires(r0, x, g, now)
    requires Snug(r0, n.keys, s.c.policy, g, t) && CoresAgree(x.after, TickAll(n.keys, g, now))
    requires n.anchor == Some(g.anchor)
    ensures Snug(x.after, Next(s, n, Event<T>.Tick(now)).keys, s.c.policy, g, now)
  {
    hide RepOk, Agrees, Expires, Snug, CoresAgree, TickAll, KeysInv;
    ExpireIsSnug(r0, x, n.keys, s.c.policy, g, t, now);
  }

  /** An item's event in time keeps the heap small. */
  lemma ItemIsSnug<K(!new), T(!new)>(
      r0: Rep<K, T>, x: Expiry<K, T>, r': Rep<K, T>, rest: seq<(K, Window<T>)>, n: Naive<K, T>, s: Keyed<K, T>,
      g: Grid, t: int, now: int, item: T)
    requires RepOk(r0) && Passing(n, s, g, t, now) && Agrees(r0, n.keys, s.c.policy, g, now) && Expires(r0, x, g, now)
    requires Snug(r0, n.keys, s.c.policy, g, t) && InStep(x.after, TickAll(n.keys, g, now), g.horizon)
    requires Added(x.after, r', rest, s, g, now, item)
    ensures Snug(r', Next(s, n, Item(now, item)).keys, s.c.policy, g, now)
  {
    TreadsOk(r0, x.turns, x.after, g, now);
    assert KeysInv(n.keys, s.c.policy, g, now) by { hide RepOk, InStep; }
    assert CoresAgree(x.after, TickAll(n.keys, g, now));
    hide RepOk, Expires, Snug, CoresAgree, TickAll, KeysInv, InStep, Added, Next;
    ExpireIsSnug(r0, x, n.keys, s.c.policy, g, t, now);
    AddedIsSnug(x.after, r', rest, n, s, g, now, item);
  }

  /** For any clock an item's event keeps the list in the order of the last items. */
  lemma ItemOrderKept<K(!new), T(!new)>(
      r0: Rep<K, T>, x: Expiry<K, T>, r': Rep<K, T>, rest: seq<(K, Window<T>)>, s: Keyed<K, T>, g: Grid, now: int,
      item: T,
      stamps: map<K, Held<T>>, held: Held<T>)
    requires RepOk(r0) && Expires(r0, x, g, now) && Added(x.after, r', rest, s, g, now, item)
    requires OrderAgrees(r0, stamps) && forall k :: k in stamps ==> stamps[k].touched < held.touched
    ensures OrderAgrees(r', stamps[s.key(item) := held])
  {
    hide RepOk, OrderAgrees, Added, Turned;
    TreadsOk(r0, x.turns, x.after, g, now);
    TreadsOrder(r0, x.turns, x.after, g, now, stamps);
    AddedOrder(x.after, r', rest, s, g, now, item, stamps, held);
  }

  lemma EmptyIsSnug<K, T>(r: Rep<K, T>, keys: map<K, Held<T>>, policy: Policy, g: Grid, t: int)
    requires r.heap == {} && keys == map[]
    ensures Snug(r, keys, policy, g, t)
  {}

  lemma EmptyInOrder<K, T>(r: Rep<K, T>, stamps: map<K, Held<T>>)
    requires r.lru == []
    ensures OrderAgrees(r, stamps)
  {}

  lemma EmptyIsOk<K, T>(r: Rep<K, T>, n: Naive<K, T>, s: Keyed<K, T>, t: int)
    requires r == EmptyRep() && n == NewNaive()
    ensures RepOk(r) && OrderAgrees(r, map[]) && Fits(r, n, s, t)
  {}

  /** Flushing the entries by creation gives each key what the reference gives it. */
  lemma FlushSeen<K(!new), T(!new)>(r: Rep<K, T>, n: Naive<K, T>, s: Keyed<K, T>, es: seq<KeyEntry<K, T>>, now: int)
    requires RepOk(r) && CoresAgree(r, n.keys) && ListsLive(r.slab, es) && Ascending(es)
    ensures forall k ::
      Proj(FlushEntries(es, Grid(n.anchor.GetOr(now), s.c.horizon), now), k) == Out(s, n, Event<T>.Flush(now), k)
  {
    RepParts(r);
    var g := Grid(n.anchor.GetOr(now), s.c.horizon);
    hide RepOk, CoresAgree, ListsLive, Ascending, IndexOk, OnFlush, FlushEntries, Proj;
    forall k ensures Proj(FlushEntries(es, g, now), k) == Out(s, n, Event<T>.Flush(now), k) {
      FlushAgrees(r, n.keys, es, g, now, k);
    }
  }

  /** What an item's event does to the state: the turns of `expire`, then the item. */
  ghost predicate ItemDone<K(!new), T(!new)>(
      r0: Rep<K, T>, x: Expiry<K, T>, r': Rep<K, T>, out: seq<(K, Window<T>)>, s: Keyed<K, T>, g: Grid, now: int,
      item: T)
  {
    var expired := EmittedIn(x.turns);
    && Expires(r0, x, g, now) && InHeapOrder(r0, x, g, now)
    && expired <= out && Added(x.after, r', out[|expired|..], s, g, now, item)
  }

  /** What is emitted by `expire` in time: for each key what the reference emits, and in which order of ends. */
  ghost predicate DueInOrder<K(!new), T>(
      r0: Rep<K, T>, x: Expiry<K, T>, keys: map<K, Held<T>>, policy: Policy, g: Grid, now: int)
  {
    var expired := EmittedIn(x.turns);
    && (forall k :: Proj(expired, k) == TickOut(keys, g, now, k))
    && (EndsAscend(expired) <==> EntriesInOrder(r0, g, now))
    && (policy.Tumbling? ==> InDeadlineOrder(expired, x.fired))
  }

  /** State and reference agree, and the reference is sound, at the last event's instant `t`. */
  ghost predicate InSync<K, T>(r: Rep<K, T>, n: Naive<K, T>, s: Keyed<K, T>, t: int) {
    && NaiveInv(s.c, n, t) && InStep(r, n.keys, s.c.horizon)
    && (forall k :: k in n.keys ==> n.keys[k].touched <= n.seqNo)
  }

  /** The heap is small, and nothing in it is in the way of it staying so. */
  ghost predicate Fits<K, T>(r: Rep<K, T>, n: Naive<K, T>, s: Keyed<K, T>, t: int) {
    if n.anchor.None? then r.heap == {} else Snug(r, n.keys, s.c.policy, Grid(n.anchor.value, s.c.horizon), t)
  }

  lemma EmptyFits<K, T>(r: Rep<K, T>, n: Naive<K, T>, s: Keyed<K, T>, t: int)
    requires r.heap == {} && n.keys == map[]
    ensures Fits(r, n, s, t)
  {
    hide Snug;
    if n.anchor.Some? { EmptyIsSnug(r, n.keys, s.c.policy, Grid(n.anchor.value, s.c.horizon), t); }
  }

  /** What an item in time finds, on the grid it fixes if it is the first. */
  lemma BeforeItem<K, T>(r0: Rep<K, T>, n: Naive<K, T>, s: Keyed<K, T>, g: Grid, t: int, now: int)
    requires ValidPolicy(s.c.policy) && now <= s.c.horizon && g == GridOf(s.c, n, now)
    requires InSync(r0, n, s, t) && (n.anchor.Some? ==> t <= now)
    ensures Agrees(r0, n.keys, s.c.policy, g, now) && forall k :: k in n.keys ==> n.keys[k].touched <= n.seqNo
    ensures var t' := if n.anchor.Some? then t else now;
      Passing(n, s, g, t', now) && (Fits(r0, n, s, t) ==> Snug(r0, n.keys, s.c.policy, g, t'))
  {
    StartOfItem(r0, n, s, g, now);
    PassingNow(n, s, g, if n.anchor.Some? then t else now, now);
    if n.anchor.None? && r0.heap == {} { EmptyIsSnug(r0, n.keys, s.c.policy, g, now); }
    hide Agrees, Passing, Snug, InStep;
  }

  lemma ItemDoneIsSnug<K(!new), T(!new)>(
      r0: Rep<K, T>, x: Expiry<K, T>, r': Rep<K, T>, out: seq<(K, Window<T>)>, n: Naive<K, T>, s: Keyed<K, T>,
      g: Grid, t: int, now: int, item: T)
    requires RepOk(r0) && Passing(n, s, g, t, now) && Agrees(r0, n.keys, s.c.policy, g, now)
    requires ItemDone(r0, x, r', out, s, g, now, item)
    requires Snug(r0, n.keys, s.c.policy, g, t) && InStep(x.after, TickAll(n.keys, g, now), g.horizon)
    ensures Snug(r', Next(s, n, Item(now, item)).keys, s.c.policy, g, now)
  {
    assert Expires(r0, x, g, now) && Added(x.after, r', out[|EmittedIn(x.turns)|..], s, g, now, item);
    hide *;
    ItemIsSnug(r0, x, r', out[|EmittedIn(x.turns)|..], n, s, g, t, now, item);
  }

  lemma ItemDoneOrder<K(!new), T(!new)>(
      r0: Rep<K, T>, x: Expiry<K, T>, r': Rep<K, T>, out: seq<(K, Window<T>)>, s: Keyed<K, T>, g: Grid, now: int,
      item: T,
      stamps: map<K, Held<T>>, held: Held<T>)
    requires RepOk(r0) && ItemDone(r0, x, r', out, s, g, now, item)
    ensures OrderAgrees(r0, stamps) && (forall k :: k in stamps ==> stamps[k].touched < held.touched) ==>
      OrderAgrees(r', stamps[s.key(item) := held])
  {
    assert Expires(r0, x, g, now) && Added(x.after, r', out[|EmittedIn(x.turns)|..], s, g, now, item);
    hide *;
    if OrderAgrees(r0, stamps) && forall k :: k in stamps ==> stamps[k].touched < held.touched {
      ItemOrderKept(r0, x, r', out[|EmittedIn(x.turns)|..], s, g, now, item, stamps, held);
    }
  }

  /** What an item in time leaves. */
  lemma AfterItem<K(!new), T(!new)>(
      r0: Rep<K, T>, x: Expiry<K, T>, r1: Rep<K, T>, out: seq<(K, Window<T>)>, n: Naive<K, T>, n': Naive<K, T>,
      s: Keyed<K, T>, g: Grid, t: int, now: int, item: T, fits: bool)
    requires RepOk(r0) && Passing(n, s, g, t, now) && Agrees(r0, n.keys, s.c.policy, g, now)
    requires ItemDone(r0, x, r1, out, s, g, now, item)
    requires fits ==> Snug(r0, n.keys, s.c.policy, g, t)
    requires InStep(x.after, TickAll(n.keys, g, now), g.horizon) && n' == Next(s, n, Item(now, item))
    requires InStep(r1, n'.keys, s.c.horizon) && NaiveInv(s.c, n', now)
    requires forall k :: k in n'.keys ==> n'.keys[k].touched <= n'.seqNo
    ensures n'.anchor == Some(g.anchor) && InSync(r1, n', s, now) && (fits ==> Fits(r1, n', s, now))
  {
    NextAnchor(s, n, now, item);
    assert g == GridOf(s.c, n, now) && g == Grid(g.anchor, s.c.horizon);
    hide Snug, Passing, Agrees, ItemDone, InStep, Next, NaiveInv, TickAll, GridOf;
    if fits {
      ItemDoneIsSnug(r0, x, r1, out, n, s, g, t, now, item);
    }
  }
}
