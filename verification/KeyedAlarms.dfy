/**
  The `scheduled` fields of the keyed stage are the alarms told beside the reference.
*/
module KeyedAlarms {
  import opened Options
  import opened WindowCore
  import opened WindowLaws
  import opened WindowRuns
  import opened NaiveKeyed
  import opened NaiveAlarms
  import opened KeyedState
  import opened KeyedRep
  import opened KeyedRefines
  import opened KeyedOrder
  import opened KeyedItem
  import opened KeyedHeap

  function AlarmOf<K(==)>(alarms: Alarms<K>, k: K): Option<int> {
    if k in alarms then Some(alarms[k]) else None
  }

  ghost function AlarmAt<K, T>(r: Rep<K, T>, k: K): Option<int>
    requires Holds(r, k)
  {
    r.slab[r.index[k]].value.scheduled
  }

  ghost predicate AlarmsAgree<K, T>(r: Rep<K, T>, alarms: Alarms<K>) {
    && alarms.Keys <= r.index.Keys
    && forall k :: k in r.index ==> Holds(r, k) && AlarmAt(r, k) == AlarmOf(alarms, k)
  }

  /** The keys that part are those that are woken with nothing buffered and no deadline. */
  lemma PartingIsWoken<K, T>(r: Rep<K, T>, keys: map<K, Held<T>>, alarms: Alarms<K>, horizon: int, now: int, k: K)
    requires CoresAgree(r, keys) && AlarmsAgree(r, alarms)
    ensures k in Parting(r, horizon, now) <==> WokenEmpty(keys, alarms, k, horizon, now)
  {
    hide Deadline, IsEmpty;
    assert k in keys ==> Holds(r, k) && CoreAt(r, k) == keys[k].core;
  }

  // ---------------------------------------------------------------- expire

  /** Since `r0` the key in cell `i` has not been woken, or it was due to be, and has been scheduled anew. */
  ghost predicate SetOnce<K, T>(r0: Rep<K, T>, r: Rep<K, T>, i: nat, g: Grid, now: int)
    requires Live(r.slab, i)
  {
    && Live(r0.slab, i)
    && var was, cur := r0.slab[i].value, r.slab[i].value;
    && cur.key == was.key
    && (cur.scheduled == was.scheduled
        || (was.scheduled.Some? && was.scheduled.value <= now && cur.scheduled == Alarm(cur.core, now, g.horizon)))
  }

  ghost predicate AllSetOnce<K, T>(r0: Rep<K, T>, r: Rep<K, T>, g: Grid, now: int) {
    forall i: nat :: Live(r.slab, i) ==> SetOnce(r0, r, i, g, now)
  }

  lemma TurnSetsOnce<K, T>(
      r0: Rep<K, T>, r: Rep<K, T>, r': Rep<K, T>, d: Due, emitted: seq<(K, Window<T>)>, g: Grid, now: int)
    requires RepOk(r) && d in r.heap && d.deadline <= now && Turned(r, r', d, emitted, g, now)
    requires AllSetOnce(r0, r, g, now)
    ensures AllSetOnce(r0, r', g, now)
  {
    hide Turned, Alarm, IsExamined, OnTick, IsEmpty;
    if IsCurrent(r, d) {
      TurnTouchesOne(r, r', d, emitted, g, now);
      TurnSets(r, r', d, emitted, g, now);
      assert r.slab[d.slot].value.scheduled == Some(d.deadline);
      AlarmIsLater(r.slab[d.slot].value.core, now, g.horizon);
      hide RepOk;
      forall i: nat | Live(r'.slab, i) ensures SetOnce(r0, r', i, g, now) {
        assert Live(r.slab, i) && SetOnce(r0, r, i, g, now);
        if i != d.slot {
          assert SameEntry(r.slab[i].value, r'.slab[i].value);
        }
      }
    } else {
      StaleTurnFrame(r, r', d, emitted, g, now);
      forall i: nat | Live(r'.slab, i) ensures SetOnce(r0, r', i, g, now) {
        assert Live(r.slab, i) && SetOnce(r0, r, i, g, now);
      }
    }
  }

  /** For any clock. */
  lemma {:induction false} TreadsSetOnce<K, T>(r0: Rep<K, T>, turns: seq<Turn<K, T>>, r: Rep<K, T>, g: Grid, now: int)
    requires RepOk(r0) && Treads(r0, turns, r, g, now)
    ensures AllSetOnce(r0, r, g, now)
  {
    if turns != [] {
      var t := turns[|turns| - 1];
      hide RepOk, Turned, AllSetOnce;
      TreadsOk(r0, turns[..|turns| - 1], t.before, g, now);
      TreadsSetOnce(r0, turns[..|turns| - 1], t.before, g, now);
      TurnSetsOnce(r0, t.before, r, t.d, t.emitted, g, now);
    }
  }

  lemma NoneIsDue<K, T>(r: Rep<K, T>, now: int)
    requires RepOk(r) && DueBy(r.heap, now) == {}
    ensures forall i: nat :: Live(r.slab, i) && r.slab[i].value.scheduled.Some? ==>
      now < r.slab[i].value.scheduled.value
  {
    forall i: nat | Live(r.slab, i) && r.slab[i].value.scheduled.Some? ensures now < r.slab[i].value.scheduled.value {
      var e := Due(r.slab[i].value.scheduled.value, r.slab[i].value.ticket, i);
      assert e in r.heap && e !in DueBy(r.heap, now);
    }
  }

  /** In time, and if `expire` leaves the keys the reference leaves, it has set the alarms told for them. */
  lemma {:induction false} ExpireAlarms<K, T>(
      r0: Rep<K, T>, x: Expiry<K, T>, keys: map<K, Held<T>>, alarms: Alarms<K>, policy: Policy, g: Grid, now: int)
    requires RepOk(r0) && Expires(r0, x, g, now) && CoresAgree(r0, keys) && AlarmsAgree(r0, alarms)
    requires ValidPolicy(policy) && Reached(g, now) && KeysInv(keys, policy, g, now)
    requires CoresAgree(x.after, TickAll(keys, g, now))
    ensures AlarmsAgree(x.after, AlarmsAfterTick(keys, alarms, g, now))
  {
    var r, ticked := x.after, TickAll(keys, g, now);
    TreadsOk(r0, x.turns, r, g, now);
    TreadsSetOnce(r0, x.turns, r, g, now);
    NoneIsDue(r, now);
    TickAllKeepsInv(keys, policy, g, now);
    RepParts(r0);
    RepParts(r);
    hide *;
    forall k | k in r.index
      ensures Holds(r, k) && AlarmAt(r, k) == AlarmOf(AlarmsAfterTick(keys, alarms, g, now), k)
    {
      KeyIsSet(r0, r, keys, alarms, g, now, k);
    }
    AllKeysSet(r, keys, alarms, g, now);
  }

  lemma AllKeysSet<K, T>(r: Rep<K, T>, keys: map<K, Held<T>>, alarms: Alarms<K>, g: Grid, now: int)
    requires CoresAgree(r, TickAll(keys, g, now))
    requires forall k :: k in r.index ==>
      Holds(r, k) && AlarmAt(r, k) == AlarmOf(AlarmsAfterTick(keys, alarms, g, now), k)
    ensures AlarmsAgree(r, AlarmsAfterTick(keys, alarms, g, now))
  {
    hide Deadline, TickAll, Holds, AlarmOf;
  }

  lemma KeyIsSet<K, T>(
      r0: Rep<K, T>, r: Rep<K, T>, keys: map<K, Held<T>>, alarms: Alarms<K>, g: Grid, now: int, k: K)
    requires IndexOk(r0.index, r0.slab) && IndexOk(r.index, r.slab) && AlarmsAgree(r0, alarms) && k in r.index
    requires AllSetOnce(r0, r, g, now) && CoresAgree(r, TickAll(keys, g, now))
    requires !IsDue(TickAll(keys, g, now)[k].core, g.horizon, now)
    requires forall i: nat :: Live(r.slab, i) && r.slab[i].value.scheduled.Some? ==>
      now < r.slab[i].value.scheduled.value
    ensures Holds(r, k)
    ensures AlarmAt(r, k) == AlarmOf(AlarmsAfterTick(keys, alarms, g, now), k)
  {
    hide TickAll, Deadline;
    var i := r.index[k];
    assert Live(r.slab, i) && SetOnce(r0, r, i, g, now) && r0.index[k] == i;
    assert CoreAt(r, k) == TickAll(keys, g, now)[k].core;
  }

  // ---------------------------------------------------------------- an item

  /** Cells other than `slot` keep their entries, but for links. */
  ghost predicate KeepsEntries<K, T>(r: Rep<K, T>, r': Rep<K, T>, slot: nat) {
    forall i: nat :: Live(r'.slab, i) && i != slot ==>
      Live(r.slab, i) && SameEntry(r.slab[i].value, r'.slab[i].value)
  }

  lemma LinksKeepEntries<K, T>(r: Rep<K, T>, r': Rep<K, T>, slot: nat)
    requires SameButLinks(r.slab, r'.slab)
    ensures KeepsEntries(r, r', slot)
    ensures Live(r.slab, slot) ==> Live(r'.slab, slot) && SameEntry(r.slab[slot].value, r'.slab[slot].value)
  {
    forall i: nat | Live(r'.slab, i) && i != slot
      ensures Live(r.slab, i) && SameEntry(r.slab[i].value, r'.slab[i].value)
    {
      assert r.slab[i].Some? == r'.slab[i].Some?;
    }
    assert Live(r.slab, slot) ==> r.slab[slot].Some? == r'.slab[slot].Some?;
  }

  /** `touch` schedules nothing. */
  lemma TouchSets<K, T>(
      r: Rep<K, T>, mid: Rep<K, T>, slot: nat, evicted: seq<(K, Window<T>)>, s: Keyed<K, T>, key: K, g: Grid, now: int)
    requires RepOk(r) && Touched(r, mid, slot, evicted, s, key, g, now)
    ensures KeepsEntries(r, mid, slot) && Live(mid.slab, slot)
    ensures key in r.index ==> slot == r.index[key] && Live(r.slab, slot)
    ensures key in r.index ==> mid.slab[slot].value.scheduled == r.slab[slot].value.scheduled
    ensures key !in r.index ==> mid.slab[slot].value.scheduled == None
  {
    hide RepOk, InsertRep, NewSlot, RemoveRep, OnFlush, IsInserted;
    if key in r.index {
      SlotOfKey(r, key);
      if slot != r.tail {
        var p: nat :| p < |r.lru| && r.lru[p] == slot && mid == TouchRep(r, p);
        TouchedOk(r, p);
        LinksKeepEntries(r, mid, slot);
      }
    } else {
      var room := if |r.index| >= s.maxKeys then RemoveRep(r, 0) else r;
      if |r.index| >= s.maxKeys {
        RoomIsOk(r, key);
        RemovedFrame(r, 0);
      }
      InsertedFrame(room, mid, slot, s, key);
    }
  }

  /** What `schedule` sets after an item at which nothing is due. */
  lemma ItemSets<K, T>(r: Rep<K, T>, slot: nat, core: Core<T>, now: int, horizon: int)
    requires Live(r.slab, slot) && !IsDue(core, horizon, now)
    ensures var r', was, deadline :=
        ItemRep(r, slot, core, now, horizon), r.slab[slot].value.scheduled, Deadline(core, horizon);
      && Live(r'.slab, slot) && KeepsEntries(r, r', slot)
      && r'.slab[slot].value.scheduled ==
        if deadline.None? || (was.Some? && was.value <= deadline.value) then was else deadline
  {
    hide Deadline;
  }

  /** In time an item sets the alarms told for it. */
  lemma {:induction false} AddedAlarms<K(!new), T(!new)>(
      r: Rep<K, T>, r': Rep<K, T>, out: seq<(K, Window<T>)>, n: Naive<K, T>, alarms: Alarms<K>, s: Keyed<K, T>,
      g: Grid, now: int, item: T)
    requires RepOk(r) && Added(r, r', out, s, g, now, item) && AlarmsAgree(r, AlarmsAfterTick(n.keys, alarms, g, now))
    requires ValidPolicy(s.c.policy) && Reached(g, now) && g == GridOf(s.c, n, now)
    requires KeysInv(n.keys, s.c.policy, g, now) && forall k :: k in n.keys ==> n.keys[k].touched <= n.seqNo
    requires InStep(r, TickAll(n.keys, g, now), g.horizon)
    requires CoresAgree(r', Next(s, n, Item(now, item)).keys)
    ensures AlarmsAgree(r', NextAlarms(s, n, alarms, Item(now, item)))
  {
    var ticked, key := TickAll(n.keys, g, now), s.key(item);
    var kept := KeptFor(s, ticked, key);
    var core := OnItem(CoreOf(kept, s.c.policy, key), s.c.cap, g, now, item).core;
    var mid, slot: nat, evicted :| AddedAt(r, mid, r', slot, evicted, out, s, g, now, item);
    assert CoresAgree(r, ticked);
    hide RepOk, Touched, OnItem, TickAll, KeysInv, InStep, ItemRep, Next, AlarmsAfterTick, NextAlarms,
      AlarmsAgree, Victim, CoresAgree, KeepsEntries, CoreInv, KeptFor, CoreOf;
    AddedOk(r, mid, r', slot, evicted, out, s, g, now, item);
    AlarmsByKept(s, n, alarms, g, now, item);
    KeptCoreOk(s, n.keys, g, now, key, n.seqNo);
    NextByKept(s, n, g, now, item);
    TouchSets(r, mid, slot, evicted, s, key, g, now);
    TouchedCore(r, mid, slot, evicted, s, key, ticked, g, now);
    ItemLeavesNothingDue(CoreOf(kept, s.c.policy, key), s.c.policy, s.c.cap, g, now, item);
    ItemSets(mid, slot, core, now, g.horizon);
    ItemAlarms(r, mid, r', slot, ticked, AlarmsAfterTick(n.keys, alarms, g, now), s, key, core, g.horizon, n.seqNo + 1);
  }

  lemma AlarmsByKept<K(!new), T>(s: Keyed<K, T>, n: Naive<K, T>, alarms: Alarms<K>, g: Grid, now: int, item: T)
    requires g == GridOf(s.c, n, now)
    ensures var kept := KeptFor(s, TickAll(n.keys, g, now), s.key(item));
            var core := OnItem(CoreOf(kept, s.c.policy, s.key(item)), s.c.cap, g, now, item).core;
            NextAlarms(s, n, alarms, Item(now, item))
              == AlarmsAfterItem(kept, AlarmsAfterTick(n.keys, alarms, g, now), s.key(item), core, s.c.horizon)
  {
    hide OnItem, TickAll, Victim, AlarmsAfterTick, AlarmsAfterItem;
  }

  lemma ItemAlarms<K(!new), T>(
      r: Rep<K, T>, mid: Rep<K, T>, r': Rep<K, T>, slot: nat, ticked: map<K, Held<T>>, alarms: Alarms<K>,
      s: Keyed<K, T>, key: K, core: Core<T>, horizon: int, seqNo: nat)
    requires RepOk(r) && RepOk(r') && CoresAgree(r, ticked) && AlarmsAgree(r, alarms)
    requires Live(mid.slab, slot) && KeepsEntries(r, mid, slot) && KeepsEntries(mid, r', slot)
    requires Live(r'.slab, slot) && r'.slab[slot].value.key == key
    requires key in r.index ==> slot == r.index[key] && Live(r.slab, slot)
    requires key in r.index ==> mid.slab[slot].value.scheduled == r.slab[slot].value.scheduled
    requires key !in r.index ==> mid.slab[slot].value.scheduled == None
    requires var was, deadline := mid.slab[slot].value.scheduled, Deadline(core, horizon);
      r'.slab[slot].value.scheduled ==
        if deadline.None? || (was.Some? && was.value <= deadline.value) then was else deadline
    requires CoresAgree(r', KeptFor(s, ticked, key)[key := Held(core, seqNo)])
    ensures AlarmsAgree(r', AlarmsAfterItem(KeptFor(s, ticked, key), alarms, key, core, horizon))
  {
    hide *;
    KeptKeys(s, ticked, key);
    RepParts(r);
    RepParts(r');
    SameKeys(r, ticked);
    SameKeys(r', KeptFor(s, ticked, key)[key := Held(core, seqNo)]);
    KeyAtSlot(r', slot);
    forall k | k in r'.index && k != key
      ensures Holds(r', k) && Holds(r, k) && AlarmAt(r', k) == AlarmAt(r, k)
    {
      OtherEntry(r, mid, r', slot, k);
    }
    if key in r.index { HeldAt(r, key, slot); }
    AlarmsFit(r, r', KeptFor(s, ticked, key), alarms, key, core, horizon);
  }

  lemma HeldAt<K, T>(r: Rep<K, T>, k: K, slot: nat)
    requires k in r.index && r.index[k] == slot && Live(r.slab, slot)
    ensures Holds(r, k) && AlarmAt(r, k) == r.slab[slot].value.scheduled
  {}

  lemma SameKeys<K, T>(r: Rep<K, T>, keys: map<K, Held<T>>)
    requires CoresAgree(r, keys)
    ensures r.index.Keys == keys.Keys
  {}

  lemma AlarmsFit<K, T>(
      r: Rep<K, T>, r': Rep<K, T>, kept: map<K, Held<T>>, alarms: Alarms<K>, key: K, core: Core<T>, horizon: int)
    requires AlarmsAgree(r, alarms) && r'.index.Keys == kept.Keys + {key} && kept.Keys <= r.index.Keys
    requires key in kept <==> key in r.index
    requires forall k :: k in r'.index && k != key ==> Holds(r', k) && Holds(r, k) && AlarmAt(r', k) == AlarmAt(r, k)
    requires Holds(r', key) && (key in r.index ==> Holds(r, key))
    requires var was, deadline := if key in r.index then AlarmAt(r, key) else None, Deadline(core, horizon);
      AlarmAt(r', key) == if deadline.None? || (was.Some? && was.value <= deadline.value) then was else deadline
    ensures AlarmsAgree(r', AlarmsAfterItem(kept, alarms, key, core, horizon))
  {
    hide Holds, AlarmAt, Deadline;
  }

  lemma KeptKeys<K(!new), T>(s: Keyed<K, T>, ticked: map<K, Held<T>>, key: K)
    ensures KeptFor(s, ticked, key).Keys <= ticked.Keys
    ensures key in KeptFor(s, ticked, key) <==> key in ticked
  {}

  lemma KeyAtSlot<K, T>(r: Rep<K, T>, slot: nat)
    requires IndexOk(r.index, r.slab) && Live(r.slab, slot)
    ensures var k := r.slab[slot].value.key;
      k in r.index && r.index[k] == slot && Holds(r, k) && AlarmAt(r, k) == r.slab[slot].value.scheduled
  {}

  lemma OtherEntry<K, T>(r: Rep<K, T>, mid: Rep<K, T>, r': Rep<K, T>, slot: nat, k: K)
    requires IndexOk(r.index, r.slab) && IndexOk(r'.index, r'.slab) && k in r'.index
    requires KeepsEntries(r, mid, slot) && KeepsEntries(mid, r', slot)
    requires Live(r'.slab, slot) && r'.slab[slot].value.key != k
    ensures Holds(r', k) && Holds(r, k) && AlarmAt(r', k) == AlarmAt(r, k)
  {
    var i := r'.index[k];
    assert Live(mid.slab, i) && SameEntry(mid.slab[i].value, r'.slab[i].value);
    assert Live(r.slab, i) && SameEntry(r.slab[i].value, mid.slab[i].value);
    assert r.index[k] == i;
  }

  /** An item's event in time sets the alarms told for it. */
  lemma ItemAlarmsAgree<K(!new), T(!new)>(
      r0: Rep<K, T>, x: Expiry<K, T>, r1: Rep<K, T>, out: seq<(K, Window<T>)>, n: Naive<K, T>, alarms: Alarms<K>,
      s: Keyed<K, T>, g: Grid, now: int, item: T)
    requires RepOk(r0) && Agrees(r0, n.keys, s.c.policy, g, now) && AlarmsAgree(r0, alarms)
    requires g == GridOf(s.c, n, now) && forall k :: k in n.keys ==> n.keys[k].touched <= n.seqNo
    requires ItemDone(r0, x, r1, out, s, g, now, item)
    requires InStep(x.after, TickAll(n.keys, g, now), g.horizon)
    requires InStep(r1, Next(s, n, Item(now, item)).keys, s.c.horizon)
    ensures AlarmsAgree(r1, NextAlarms(s, n, alarms, Item(now, item)))
  {
    var rest := out[|EmittedIn(x.turns)|..];
    assert Expires(r0, x, g, now) && Added(x.after, r1, rest, s, g, now, item);
    TreadsOk(r0, x.turns, x.after, g, now);
    hide RepOk, KeysInv, TickAll, Next, OrderAgrees, EntriesOk, Treads, DueBy, Added, AlarmsAgree, NextAlarms,
      AlarmsAfterTick;
    ExpireAlarms(r0, x, n.keys, alarms, s.c.policy, g, now);
    AddedAlarms(x.after, r1, rest, n, alarms, s, g, now, item);
  }

  ghost predicate AllTouched<K, T>(n: Naive<K, T>) { forall k :: k in n.keys ==> n.keys[k].touched <= n.seqNo }

  /** What an item's event does next to the reference, if it starts in step with it. */
  ghost predicate ItemFollows<K(!new), T(!new)>(
      r0: Rep<K, T>, x: Expiry<K, T>, r1: Rep<K, T>, out: seq<(K, Window<T>)>, n: Naive<K, T>, s: Keyed<K, T>,
      g: Grid, now: int, item: T)
  {
    Agrees(r0, n.keys, s.c.policy, g, now) && g == GridOf(s.c, n, now) && AllTouched(n) ==>
      && DueInOrder(r0, x, n.keys, s.c.policy, g, now) && LeavesAllBut(r0, x.after, n.keys, g, now)
      && (Parting(r0, g.horizon, now) == {} ==>
            && InStep(x.after, TickAll(n.keys, g, now), g.horizon)
            && var n' := Next(s, n, Item(now, item));
            && InStep(r1, n'.keys, g.horizon) && NaiveInv(s.c, n', now) && AllTouched(n')
            && forall k :: Proj(out, k) == Out(s, n, Item(now, item), k))
  }

  /** What an item's event in time leaves. */
  lemma ItemTold<K(!new), T(!new)>(
      r0: Rep<K, T>, x: Expiry<K, T>, r1: Rep<K, T>, out: seq<(K, Window<T>)>, n: Naive<K, T>, n': Naive<K, T>,
      alarms: Alarms<K>, s: Keyed<K, T>, g: Grid, t: int, now: int, item: T)
    requires RepOk(r0) && ItemDone(r0, x, r1, out, s, g, now, item) && n' == Next(s, n, Item(now, item))
    requires ItemFollows(r0, x, r1, out, n, s, g, now, item)
    requires ValidPolicy(s.c.policy) && now <= s.c.horizon && g == GridOf(s.c, n, now)
    requires InSync(r0, n, s, t) && (n.anchor.Some? ==> t <= now) && AlarmsAgree(r0, alarms)
    ensures n'.anchor == Some(g.anchor)
    ensures DueInOrder(r0, x, n.keys, s.c.policy, g, now) && LeavesAllBut(r0, x.after, n.keys, g, now)
    ensures Parting(r0, s.c.horizon, now) == {} ==>
      && InSync(r1, n', s, now) && (Fits(r0, n, s, t) ==> Fits(r1, n', s, now))
      && AlarmsAgree(r1, NextAlarms(s, n, alarms, Item(now, item)))
      && forall k :: Proj(out, k) == Out(s, n, Item(now, item), k)
  {
    assert g.horizon == s.c.horizon;
    hide ItemDone, DueInOrder, LeavesAllBut, Parting, InStep, NaiveInv, GridOf, Proj, Out, AlarmsAgree, NextAlarms,
      Next, Agrees, Passing, RepOk, Fits, TickAll, InSync, Snug;
    BeforeItem(r0, n, s, g, t, now);
    NextAnchor(s, n, now, item);
    if Parting(r0, s.c.horizon, now) == {} {
      var last, fits := if n.anchor.Some? then t else now, Fits(r0, n, s, t);
      AfterItem(r0, x, r1, out, n, n', s, g, last, now, item, fits);
      ItemAlarmsAgree(r0, x, r1, out, n, alarms, s, g, now, item);
    }
  }

  /** Before an item or a tick in time: the keys that part are the keys that are woken with nothing. */
  lemma PartingIsTold<K, T>(r: Rep<K, T>, n: Naive<K, T>, alarms: Alarms<K>, s: Keyed<K, T>, t: int, now: int)
    requires InSync(r, n, s, t) && AlarmsAgree(r, alarms)
    requires ValidPolicy(s.c.policy) && now <= s.c.horizon && (n.anchor.Some? ==> t <= now)
    ensures forall k :: k in Parting(r, s.c.horizon, now) <==> WokenEmpty(n.keys, alarms, k, s.c.horizon, now)
    ensures !s.c.policy.Session? ==> Parting(r, s.c.horizon, now) == {}
  {
    hide AlarmsAgree, Parting, WokenEmpty, NaiveInv, OrderAgrees, CoresAgree, EntriesOk;
    forall k ensures k in Parting(r, s.c.horizon, now) <==> WokenEmpty(n.keys, alarms, k, s.c.horizon, now) {
      PartingIsWoken(r, n.keys, alarms, s.c.horizon, now, k);
    }
    if !s.c.policy.Session? {
      var g := GridOf(s.c, n, now);
      StartOfItem(r, n, s, g, now);
      OnlySessionsPart(r, n.keys, s.c.policy, g, now);
    }
  }
}
