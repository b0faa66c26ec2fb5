/**
  The order in which `expire` emits, for any clock: the due entries of the state before the
  call fire one after the other, each key emits at its turn what a tick of its core emits,
  and nothing that happens in one turn changes another. So the order of the output can be
  read off the heap entries before the call, and with it exactly when windows come out in
  the order of their ends.
*/
module KeyedOrder {
  import opened Options
  import opened WindowCore
  import opened WindowGrid
  import opened WindowLaws
  import opened NaiveKeyed
  import opened KeyedState
  import opened KeyedRep
  import opened KeyedRefines

  // ---------------------------------------------------------------- the turns of one call

  /** One turn of the loop of `expire`: the state before it, the entry popped, and what was emitted. */
  datatype Turn<!K, T> = Turn(before: Rep<K, T>, d: Due, emitted: seq<(K, Window<T>)>)

  /** The loop got from `r0` to `r` by these turns. */
  ghost predicate Treads<K, T>(r0: Rep<K, T>, turns: seq<Turn<K, T>>, r: Rep<K, T>, g: Grid, now: int) {
    if turns == [] then r == r0
    else
      var t := turns[|turns| - 1];
      && Treads(r0, turns[..|turns| - 1], t.before, g, now)
      && IsLeast(t.before.heap, t.d) && t.d.deadline <= now
      && Turned(t.before, r, t.d, t.emitted, g, now)
  }

  lemma TreadsOn<K, T>(
      r0: Rep<K, T>, turns: seq<Turn<K, T>>, mid: Rep<K, T>, r: Rep<K, T>, d: Due, emitted: seq<(K, Window<T>)>,
      g: Grid, now: int)
    requires Treads(r0, turns, mid, g, now) && IsLeast(mid.heap, d) && d.deadline <= now
    requires Turned(mid, r, d, emitted, g, now)
    ensures Treads(r0, turns + [Turn(mid, d, emitted)], r, g, now)
    ensures EmittedIn(turns + [Turn(mid, d, emitted)]) == EmittedIn(turns) + emitted
  {
    hide Turned;
    var more := turns + [Turn(mid, d, emitted)];
    assert more[..|more| - 1] == turns;
  }

  function EmittedIn<K, T>(turns: seq<Turn<K, T>>): seq<(K, Window<T>)> {
    if turns == [] then [] else EmittedIn(turns[..|turns| - 1]) + turns[|turns| - 1].emitted
  }

  /** The entries whose keys were ticked, in the order of their turns. */
  ghost function ExaminedIn<K, T>(turns: seq<Turn<K, T>>, g: Grid, now: int): seq<Due> {
    if turns == [] then []
    else
      var t := turns[|turns| - 1];
      ExaminedIn(turns[..|turns| - 1], g, now) + if IsExamined(t.before, t.d, g, now) then [t.d] else []
  }

  lemma {:induction false} TreadsOk<K, T>(r0: Rep<K, T>, turns: seq<Turn<K, T>>, r: Rep<K, T>, g: Grid, now: int)
    requires RepOk(r0) && Treads(r0, turns, r, g, now)
    ensures RepOk(r)
  {
    if turns != [] {
      var t := turns[|turns| - 1];
      hide RepOk, Turned;
      TreadsOk(r0, turns[..|turns| - 1], t.before, g, now);
      TurnOk(t.before, r, t.d, t.emitted, g, now);
    }
  }

  // ---------------------------------------------------------------- one turn leaves the other keys alone

  /** Only the cell `slot` may differ, but for links. */
  ghost predicate OnlyAt<K, T>(r: Rep<K, T>, r': Rep<K, T>, slot: nat) {
    forall i: nat :: i != slot ==>
      && (Live(r.slab, i) <==> Live(r'.slab, i))
      && (Live(r.slab, i) ==> SameEntry(r.slab[i].value, r'.slab[i].value))
  }

  /** A current entry of another cell is still in the heap. */
  ghost predicate KeepsCurrent<K, T>(r: Rep<K, T>, r': Rep<K, T>, slot: nat) {
    forall e :: e in r.heap && e.slot != slot && IsCurrent(r, e) ==> e in r'.heap
  }

  lemma RescheduledFrame<K, T>(r: Rep<K, T>, slot: nat, now: int, horizon: int)
    requires RepOk(r) && Live(r.slab, slot)
    ensures var r' := Rescheduled(r, slot, now, horizon);
      && OneEntry(r, r', slot) && KeepsCurrent(r, r', slot)
      && (r'.slab[slot].value.ticket == r.slab[slot].value.ticket || r'.slab[slot].value.ticket > r.tickets)
  {
    hide Deadline;
    RescheduledOk(r, slot, now, horizon);
    var r' := Rescheduled(r, slot, now, horizon);
    forall e | e in r.heap && e.slot != slot && IsCurrent(r, e) ensures e in r'.heap {
      assert r.slab[e.slot].value.scheduled == Some(e.deadline);
      assert r'.slab[e.slot] == r.slab[e.slot];
    }
  }

  lemma OneEntryIsOnlyAt<K, T>(r: Rep<K, T>, r': Rep<K, T>, slot: nat)
    requires OneEntry(r, r', slot)
    ensures OnlyAt(r, r', slot)
  {}

  lemma RemovedFrame<K, T>(r: Rep<K, T>, p: nat)
    requires RepOk(r) && p < |r.lru|
    ensures Live(r.slab, r.lru[p])
    ensures var r' := RemoveRep(r, p);
      OnlyAt(r, r', r.lru[p]) && r'.heap == r.heap && !Live(r'.slab, r.lru[p])
  {
    RemovedOk(r, p);
    RemovedSlab(r, p);
    hide *;
    SameButOne(r, UnlinkRep(r, p).slab, RemoveRep(r, p), r.lru[p]);
  }

  lemma RemovedSlab<K, T>(r: Rep<K, T>, p: nat)
    requires p < |r.lru| && Live(r.slab, r.lru[p])
    ensures RemoveRep(r, p).heap == r.heap
    ensures |UnlinkRep(r, p).slab| == |r.slab| && RemoveRep(r, p).slab == UnlinkRep(r, p).slab[r.lru[p] := None]
  {}

  lemma SameButOne<K, T>(r: Rep<K, T>, slab: Slab<K, T>, r': Rep<K, T>, slot: nat)
    requires SameButLinks(r.slab, slab) && slot < |slab| && r'.slab == slab[slot := None]
    ensures OnlyAt(r, r', slot) && !Live(r'.slab, slot)
  {
    forall i: nat | i != slot
      ensures Live(r.slab, i) <==> Live(r'.slab, i)
      ensures Live(r.slab, i) ==> SameEntry(r.slab[i].value, r'.slab[i].value)
    {
      assert Live(r.slab, i) <==> Live(slab, i);
    }
  }

  lemma ReleasedFrame<K, T>(r: Rep<K, T>, d: Due, p: nat, g: Grid, now: int)
    requires RepOk(r) && d in r.heap && IsCurrent(r, d) && p < |r.lru| && r.lru[p] == d.slot
    ensures RepOk(TickedRep(r, d, g, now)) && OneEntry(r, TickedRep(r, d, g, now), d.slot)
    ensures var r' := RemoveRep(TickedRep(r, d, g, now), p);
      && OnlyAt(r, r', d.slot) && KeepsCurrent(r, r', d.slot) && !Live(r'.slab, d.slot) && r'.heap == r.heap - {d}
  {
    hide RepOk, TickedRep, RemoveRep, OnlyAt;
    var ticked := TickedRep(r, d, g, now);
    TickedOk(r, d, g, now);
    RemovedFrame(ticked, p);
    OneEntryIsOnlyAt(r, ticked, d.slot);
    OnlyAtTwice(r, ticked, RemoveRep(ticked, p), d.slot);
  }

  lemma OnlyAtTwice<K, T>(a: Rep<K, T>, b: Rep<K, T>, c: Rep<K, T>, slot: nat)
    requires OnlyAt(a, b, slot) && OnlyAt(b, c, slot)
    ensures OnlyAt(a, c, slot)
  {}

  /** What a turn of a key whose entry is current does to the rest. */
  lemma TurnTouchesOne<K, T>(r: Rep<K, T>, r': Rep<K, T>, d: Due, emitted: seq<(K, Window<T>)>, g: Grid, now: int)
    requires RepOk(r) && d in r.heap && IsCurrent(r, d) && Turned(r, r', d, emitted, g, now)
    ensures OnlyAt(r, r', d.slot) && KeepsCurrent(r, r', d.slot)
    ensures Live(r'.slab, d.slot) ==>
      r'.slab[d.slot].value.ticket == d.ticket || r'.slab[d.slot].value.ticket > r.tickets
  {
    hide RepOk, Rescheduled, RemoveRep, OnTick, Deadline, IsEmpty;
    if IsExamined(r, d, g, now) {
      var ticked := TickedRep(r, d, g, now);
      TickedOk(r, d, g, now);
      if IsEmpty(OnTick(r.slab[d.slot].value.core, g, now).core) {
        var p: nat :| p < |r.lru| && r.lru[p] == d.slot && r' == RemoveRep(ticked, p);
        ReleasedFrame(r, d, p, g, now);
      } else {
        RescheduledFrame(ticked, d.slot, now, g.horizon);
        OneEntryTwice(r, ticked, r', d.slot);
        OneEntryIsOnlyAt(r, r', d.slot);
      }
    } else {
      var popped := PopRep(r, d);
      PoppedOk(r, d);
      RescheduledFrame(popped, d.slot, now, g.horizon);
      assert OneEntry(r, popped, d.slot);
      OneEntryTwice(r, popped, r', d.slot);
      OneEntryIsOnlyAt(r, r', d.slot);
    }
  }

  /** What `schedule` sets for a key that has no entry. */
  function Alarm<T>(core: Core<T>, now: int, horizon: int): Option<int> {
    var deadline := Deadline(core, horizon);
    if deadline.None? || now < deadline.value then deadline
    else if horizon < now + 1 then None
    else Some(now + 1)
  }

  lemma RescheduledSets<K, T>(r: Rep<K, T>, slot: nat, now: int, horizon: int)
    requires Live(r.slab, slot) && r.slab[slot].value.scheduled.None?
    ensures var r' := Rescheduled(r, slot, now, horizon);
      && Live(r'.slab, slot) && r'.slab[slot].value.key == r.slab[slot].value.key
      && r'.slab[slot].value.core == r.slab[slot].value.core
      && r'.slab[slot].value.scheduled == Alarm(r.slab[slot].value.core, now, horizon)
  {
    hide Deadline;
  }

  /** The key of a current entry after its turn: ticked if it was examined, gone if it is empty then, scheduled anew. */
  lemma TurnSets<K, T>(r: Rep<K, T>, r': Rep<K, T>, d: Due, emitted: seq<(K, Window<T>)>, g: Grid, now: int)
    requires RepOk(r) && d in r.heap && IsCurrent(r, d) && Turned(r, r', d, emitted, g, now)
    ensures var core := r.slab[d.slot].value.core;
      var after := if IsExamined(r, d, g, now) then OnTick(core, g, now).core else core;
      && (Live(r'.slab, d.slot) <==> !(IsExamined(r, d, g, now) && IsEmpty(after)))
      && (Live(r'.slab, d.slot) ==>
            var e := r'.slab[d.slot].value;
            e.key == r.slab[d.slot].value.key && e.core == after && e.scheduled == Alarm(after, now, g.horizon))
  {
    hide RepOk, Rescheduled, RemoveRep, OnTick, Deadline, IsEmpty, Alarm;
    if IsExamined(r, d, g, now) {
      TickedOk(r, d, g, now);
      if IsEmpty(OnTick(r.slab[d.slot].value.core, g, now).core) {
        var p: nat :| p < |r.lru| && r.lru[p] == d.slot && r' == RemoveRep(TickedRep(r, d, g, now), p);
        ReleasedFrame(r, d, p, g, now);
      } else {
        RescheduledSets(TickedRep(r, d, g, now), d.slot, now, g.horizon);
      }
    } else {
      RescheduledSets(PopRep(r, d), d.slot, now, g.horizon);
    }
  }

  lemma AlarmIsLater<T>(core: Core<T>, now: int, horizon: int)
    ensures Alarm(core, now, horizon).Some? ==> now < Alarm(core, now, horizon).value
  {}

  lemma PartsLikewise<K, T>(a: KeyEntry<K, T>, b: KeyEntry<K, T>, horizon: int, now: int)
    requires SameEntry(a, b)
    ensures a.key == b.key && (Parts(a, horizon, now) <==> Parts(b, horizon, now))
  {}

  /** Only the key in `slot` stops parting. */
  lemma PartingBut<K, T>(r: Rep<K, T>, r': Rep<K, T>, slot: nat, horizon: int, now: int)
    requires IndexOk(r.index, r.slab) && IndexOk(r'.index, r'.slab) && Live(r.slab, slot) && OnlyAt(r, r', slot)
    requires Live(r'.slab, slot) ==>
      r'.slab[slot].value.key == r.slab[slot].value.key && !Parts(r'.slab[slot].value, horizon, now)
    ensures Parting(r', horizon, now) == Parting(r, horizon, now) - {r.slab[slot].value.key}
  {
    hide Parts;
    forall i: nat | i != slot && Live(r.slab, i)
      ensures Live(r'.slab, i) && r'.slab[i].value.key == r.slab[i].value.key
      ensures Parts(r.slab[i].value, horizon, now) <==> Parts(r'.slab[i].value, horizon, now)
    {
      PartsLikewise(r.slab[i].value, r'.slab[i].value, horizon, now);
    }
    hide OnlyAt;
    forall k | k in Parting(r, horizon, now) && k != r.slab[slot].value.key ensures k in Parting(r', horizon, now) {
      var i := r.index[k];
      assert Live(r.slab, i) && i != slot && Live(r'.slab, i) && r'.index[k] == i;
    }
    forall k | k in Parting(r', horizon, now)
      ensures k in Parting(r, horizon, now) && k != r.slab[slot].value.key
    {
      var i := r'.index[k];
      assert Live(r'.slab, i) && i != slot;
      assert Live(r.slab, i) && r.index[k] == i;
    }
  }

  /** For any clock, a key whose entry had its turn does not part any more; for the others nothing changes. */
  lemma TurnParts<K, T>(r: Rep<K, T>, r': Rep<K, T>, d: Due, emitted: seq<(K, Window<T>)>, g: Grid, now: int)
    requires RepOk(r) && d in r.heap && IsCurrent(r, d) && Turned(r, r', d, emitted, g, now)
    ensures Parting(r', g.horizon, now) == Parting(r, g.horizon, now) - {r.slab[d.slot].value.key}
  {
    TurnOk(r, r', d, emitted, g, now);
    TurnTouchesOne(r, r', d, emitted, g, now);
    TurnSets(r, r', d, emitted, g, now);
    assert IndexOk(r.index, r.slab) && IndexOk(r'.index, r'.slab);
    hide RepOk, Turned, Parts, Parting, OnlyAt, OnTick, IsEmpty, IsExamined, IndexOk, Alarm;
    if Live(r'.slab, d.slot) {
      AlarmIsLater(r'.slab[d.slot].value.core, now, g.horizon);
      LaterIsNotParting(r'.slab[d.slot].value, g.horizon, now);
    }
    PartingBut(r, r', d.slot, g.horizon, now);
  }

  lemma LaterIsNotParting<K, T>(e: KeyEntry<K, T>, horizon: int, now: int)
    requires e.scheduled.Some? ==> now < e.scheduled.value
    ensures !Parts(e, horizon, now)
  {}

  /** What parts at the beginning has been released, or still parts. */
  ghost predicate Tracks<K, T>(
      r0: Rep<K, T>, r: Rep<K, T>, keys: map<K, Held<T>>, done: set<K>, g: Grid, now: int)
  {
    Parting(r, g.horizon, now) + Lost(keys, done, g, now) == Parting(r0, g.horizon, now)
  }

  lemma TurnTracks<K(!new), T>(
      r0: Rep<K, T>, r: Rep<K, T>, r': Rep<K, T>, d: Due, emitted: seq<(K, Window<T>)>, keys: map<K, Held<T>>,
      done: set<K>, out: seq<(K, Window<T>)>, fired: seq<Due>, policy: Policy, g: Grid, now: int)
    requires RepOk(r) && Expiring(r, keys, done, out, fired, policy, g, now) && Tracks(r0, r, keys, done, g, now)
    requires ValidPolicy(policy) && Reached(g, now) && KeysInv(keys, policy, g, now)
    requires d in r.heap && d.deadline <= now && Turned(r, r', d, emitted, g, now)
    ensures Tracks(r0, r', keys, DoneAfter(r, d, done, g, now), g, now)
  {
    hide RepOk, EntriesOk, Halfway, HalfwayOut, OrderAgrees, KeysInv, Turned, Parting, Lost, DoneAfter, FiredInOrder;
    TurnKeepsParting(r, r', d, emitted, keys, done, policy, g, now);
  }

  lemma TurnKeepsParting<K, T>(
      r: Rep<K, T>, r': Rep<K, T>, d: Due, emitted: seq<(K, Window<T>)>, keys: map<K, Held<T>>, done: set<K>,
      policy: Policy, g: Grid, now: int)
    requires RepOk(r) && EntriesOk(r, g.horizon) && Halfway(r, keys, done, g, now)
    requires ValidPolicy(policy) && Reached(g, now) && KeysInv(keys, policy, g, now)
    requires d in r.heap && d.deadline <= now && Turned(r, r', d, emitted, g, now)
    ensures Parting(r', g.horizon, now) + Lost(keys, DoneAfter(r, d, done, g, now), g, now)
         == Parting(r, g.horizon, now) + Lost(keys, done, g, now)
  {
    hide *;
    if !IsCurrent(r, d) {
      StaleTurnFrame(r, r', d, emitted, g, now);
      StaleKeepsParting(r, r', d, done, g, now);
    } else {
      SlotOfEntry(r, d);
      TurnParts(r, r', d, emitted, g, now);
      LostAfter(r, d, keys, done, policy, g, now);
    }
  }

  lemma SlotOfEntry<K, T>(r: Rep<K, T>, d: Due)
    requires IsCurrent(r, d)
    ensures d.slot < |r.slab| && r.slab[d.slot].Some?
  {}

  lemma LostAfter<K, T>(
      r: Rep<K, T>, d: Due, keys: map<K, Held<T>>, done: set<K>, policy: Policy, g: Grid, now: int)
    requires RepOk(r) && EntriesOk(r, g.horizon) && Halfway(r, keys, done, g, now)
    requires ValidPolicy(policy) && Reached(g, now) && KeysInv(keys, policy, g, now)
    requires d in r.heap && d.deadline <= now && IsCurrent(r, d)
    ensures var key := r.slab[d.slot].value.key;
      Lost(keys, DoneAfter(r, d, done, g, now), g, now)
        == Lost(keys, done, g, now) + if key in Parting(r, g.horizon, now) then {key} else {}
  {
    PoppedIsScheduled(r, d, g.horizon);
    SlotIsIndexed(r, d.slot);
    var e := r.slab[d.slot].value;
    if IsExamined(r, d, g, now) {
      ExaminedIsNotDone(r, d.slot, keys, done, policy, g, now);
    }
    hide RepOk, EntriesOk, Halfway, KeysInv, OnTick, IsEmpty, CoreInv, Parting;
    PartingAtSlot(r, d.slot, g.horizon, now);
  }

  lemma PartingAtSlot<K, T>(r: Rep<K, T>, slot: nat, horizon: int, now: int)
    requires Live(r.slab, slot)
    requires var key := r.slab[slot].value.key; key in r.index && r.index[key] == slot
    ensures r.slab[slot].value.key in Parting(r, horizon, now) <==> Parts(r.slab[slot].value, horizon, now)
  {
    hide Parts;
  }

  lemma StaleKeepsParting<K, T>(r: Rep<K, T>, r': Rep<K, T>, d: Due, done: set<K>, g: Grid, now: int)
    requires r'.slab == r.slab && r'.index == r.index && !IsCurrent(r, d)
    ensures Parting(r', g.horizon, now) == Parting(r, g.horizon, now) && DoneAfter(r, d, done, g, now) == done
  {}

  /** Once nothing is due, nothing parts. */
  lemma NothingParts<K, T>(r: Rep<K, T>, horizon: int, now: int)
    requires RepOk(r) && DueBy(r.heap, now) == {}
    ensures Parting(r, horizon, now) == {}
  {
    forall i: nat | Live(r.slab, i) && r.slab[i].value.scheduled.Some? ensures now < r.slab[i].value.scheduled.value {
      assert Due(r.slab[i].value.scheduled.value, r.slab[i].value.ticket, i) in r.heap;
      assert Due(r.slab[i].value.scheduled.value, r.slab[i].value.ticket, i) !in DueBy(r.heap, now);
    }
  }

  /**
    What `expire` leaves: what the reference leaves, without the keys that parted. So the two
    agree if and only if there are none.
  */
  ghost predicate LeavesAllBut<K, T>(r: Rep<K, T>, r': Rep<K, T>, keys: map<K, Held<T>>, g: Grid, now: int) {
    var lost, ticked := Parting(r, g.horizon, now), TickAll(keys, g, now);
    && lost <= ticked.Keys && InStep(r', ticked - lost, g.horizon)
    && (CoresAgree(r', ticked) <==> lost == {})
  }

  /** The beginning of `expire`. */
  lemma NothingDone<K(!new), T>(r: Rep<K, T>, keys: map<K, Held<T>>, policy: Policy, g: Grid, now: int)
    requires Agrees(r, keys, policy, g, now)
    ensures Expiring(r, keys, {}, [], [], policy, g, now) && Tracks(r, r, keys, {}, g, now)
  {
    assert Lost(keys, {}, g, now) == {};
  }

  /** The end of `expire`. */
  lemma ExpiredFacts<K(!new), T>(
      r0: Rep<K, T>, r: Rep<K, T>, keys: map<K, Held<T>>, done: set<K>, out: seq<(K, Window<T>)>, fired: seq<Due>,
      policy: Policy, g: Grid, now: int)
    requires RepOk(r0) && Agrees(r0, keys, policy, g, now) && RepOk(r) && DueBy(r.heap, now) == {}
    requires Expiring(r, keys, done, out, fired, policy, g, now) && Tracks(r0, r, keys, done, g, now)
    ensures LeavesAllBut(r0, r, keys, g, now)
    ensures forall k :: Proj(out, k) == TickOut(keys, g, now, k)
    ensures policy.Tumbling? ==> InDeadlineOrder(out, fired)
  {
    NothingParts(r, g.horizon, now);
    assert Lost(keys, done, g, now) == Parting(r0, g.horizon, now);
    hide RepOk, EntriesOk, Halfway, HalfwayOut, OrderAgrees, CoresAgree, KeysInv, TickAll, TickOut, Proj,
      InDeadlineOrder, Parting, Lost;
    ExpiredAll(r, keys, done, out, policy, g, now);
    OrderSurvivesTickAll(r, keys, Lost(keys, done, g, now), g, now);
    AgreesExactlyWhen(r0, r, keys, policy, g, now);
  }

  lemma LeavesAll<K, T>(r: Rep<K, T>, r': Rep<K, T>, keys: map<K, Held<T>>, g: Grid, now: int)
    requires LeavesAllBut(r, r', keys, g, now) && Parting(r, g.horizon, now) == {}
    ensures InStep(r', TickAll(keys, g, now), g.horizon)
  {
    hide TickAll, InStep;
    assert TickAll(keys, g, now) - {} == TickAll(keys, g, now);
  }

  lemma AgreesExactlyWhen<K, T>(
      r: Rep<K, T>, r': Rep<K, T>, keys: map<K, Held<T>>, policy: Policy, g: Grid, now: int)
    requires RepOk(r) && Agrees(r, keys, policy, g, now)
    requires CoresAgree(r', TickAll(keys, g, now) - Parting(r, g.horizon, now))
    ensures Parting(r, g.horizon, now) <= TickAll(keys, g, now).Keys
    ensures CoresAgree(r', TickAll(keys, g, now)) <==> Parting(r, g.horizon, now) == {}
  {
    hide RepOk, OnTick, IsEmpty, CoreInv;
    forall k | k in Parting(r, g.horizon, now) ensures k in TickAll(keys, g, now) {
      assert Holds(r, k) && CoreAt(r, k) == keys[k].core;
    }
    var lost, ticked := Parting(r, g.horizon, now), TickAll(keys, g, now);
    if lost == {} {
      assert ticked - lost == ticked;
    } else {
      var k :| k in lost;
      assert k in ticked && k !in r'.index;
    }
  }

  /** `e` is as current in `r'` as in `r`, and if it is, for the same key with the same core. */
  ghost predicate SameFor<K, T>(r: Rep<K, T>, r': Rep<K, T>, e: Due) {
    && (IsCurrent(r, e) <==> IsCurrent(r', e))
    && (IsCurrent(r, e) ==>
      var a, b := r.slab[e.slot].value, r'.slab[e.slot].value; a.key == b.key && a.core == b.core)
  }

  lemma TicketsName<K, T>(r: Rep<K, T>, d: Due, e: Due)
    requires RepOk(r) && d in r.heap && e in r.heap
    ensures d != e ==> d.ticket != e.ticket
    ensures e.ticket <= r.tickets
  {}

  lemma StaleTurnFrame<K, T>(r: Rep<K, T>, r': Rep<K, T>, d: Due, emitted: seq<(K, Window<T>)>, g: Grid, now: int)
    requires !IsCurrent(r, d) && Turned(r, r', d, emitted, g, now)
    ensures r'.heap == r.heap - {d} && r'.slab == r.slab && r'.index == r.index && emitted == []
  {}

  /** A turn leaves all other entries as current as they were, and those that are current in the heap. */
  lemma TurnFrame<K, T>(r: Rep<K, T>, r': Rep<K, T>, d: Due, emitted: seq<(K, Window<T>)>, g: Grid, now: int)
    requires RepOk(r) && d in r.heap && Turned(r, r', d, emitted, g, now)
    ensures forall e :: e in r.heap && e != d ==> SameFor(r, r', e)
    ensures forall e :: e in r.heap && e != d && IsCurrent(r, e) ==> e in r'.heap
  {
    hide Turned, RepOk;
    if IsCurrent(r, d) {
      TurnTouchesOne(r, r', d, emitted, g, now);
      forall e | e in r.heap && e != d ensures SameFor(r, r', e) && (IsCurrent(r, e) ==> e in r'.heap) {
        TicketsName(r, d, e);
      }
    } else {
      StaleTurnFrame(r, r', d, emitted, g, now);
    }
  }

  // ---------------------------------------------------------------- all turns

  /** What the key of `d` emits when its turn comes. */
  function TurnOut<K, T>(r: Rep<K, T>, d: Due, g: Grid, now: int): seq<Window<T>> {
    if Live(r.slab, d.slot) then OnTick(r.slab[d.slot].value.core, g, now).out else []
  }

  function TurnTagged<K, T>(r: Rep<K, T>, d: Due, g: Grid, now: int): seq<(K, Window<T>)> {
    if Live(r.slab, d.slot) then Tagged(r.slab[d.slot].value.key, TurnOut(r, d, g, now)) else []
  }

  function OutOf<K, T>(r: Rep<K, T>, xs: seq<Due>, g: Grid, now: int): seq<(K, Window<T>)> {
    if xs == [] then [] else OutOf(r, xs[..|xs| - 1], g, now) + TurnTagged(r, xs[|xs| - 1], g, now)
  }

  predicate Ascends(xs: seq<Due>) { forall i, j :: 0 <= i < j < |xs| ==> Precedes(xs[i], xs[j]) }

  /** `xs` are the current due entries of the state in heap order, without those whose deadline has moved past `now`. */
  ghost predicate Examines<K, T>(r: Rep<K, T>, xs: seq<Due>, g: Grid, now: int) {
    && Ascends(xs)
    && (forall e :: e in xs <==> e in r.heap && e.deadline <= now && IsExamined(r, e, g, now))
  }

  /** What holds between turns, about the state at the beginning. */
  ghost predicate Follows<K, T>(
      r0: Rep<K, T>, xs: seq<Due>, out: seq<(K, Window<T>)>, r: Rep<K, T>, g: Grid, now: int) {
    && Ascends(xs)
    && (forall x, e :: x in xs && e in r.heap ==> Precedes(x, e))
    && (forall x :: x in xs ==> x in r0.heap && x.deadline <= now && IsExamined(r0, x, g, now))
    && (forall e :: e in r.heap && e.deadline <= now ==> e in r0.heap && SameFor(r0, r, e))
    && (forall e :: e in r0.heap && e.deadline <= now && IsExamined(r0, e, g, now) ==> e in xs || e in r.heap)
    && out == OutOf(r0, xs, g, now)
  }

  lemma SameForExamined<K, T>(r0: Rep<K, T>, r: Rep<K, T>, e: Due, g: Grid, now: int)
    requires SameFor(r0, r, e)
    ensures IsExamined(r0, e, g, now) <==> IsExamined(r, e, g, now)
    ensures IsCurrent(r, e) ==> TurnTagged(r0, e, g, now) == TurnTagged(r, e, g, now)
  {
    hide Deadline, OnTick;
  }

  /** What a turn emits, read off the state it starts from. */
  lemma TurnEmitted<K, T>(t: Turn<K, T>, r: Rep<K, T>, g: Grid, now: int)
    requires Turned(t.before, r, t.d, t.emitted, g, now)
    ensures t.emitted == if IsExamined(t.before, t.d, g, now) then TurnTagged(t.before, t.d, g, now) else []
  {
    hide Deadline, OnTick, Rescheduled, RemoveRep;
  }

  lemma FollowsOut<K, T>(
      r0: Rep<K, T>, xs: seq<Due>, out: seq<(K, Window<T>)>, t: Turn<K, T>, r: Rep<K, T>, g: Grid, now: int)
    requires out == OutOf(r0, xs, g, now) && SameFor(r0, t.before, t.d) && Turned(t.before, r, t.d, t.emitted, g, now)
    ensures out + t.emitted == OutOf(r0, xs + if IsExamined(t.before, t.d, g, now) then [t.d] else [], g, now)
  {
    TurnEmitted(t, r, g, now);
    SameForExamined(r0, t.before, t.d, g, now);
    hide Turned, TurnTagged;
    if IsExamined(t.before, t.d, g, now) {
      assert (xs + [t.d])[..|xs + [t.d]| - 1] == xs;
    } else {
      assert xs + [] == xs && out + t.emitted == out;
    }
  }

  /** The examined entries of the beginning that have not had their turn are still in the heap. */
  lemma FollowsRest<K, T>(r0: Rep<K, T>, xs: seq<Due>, mid: Rep<K, T>, d: Due, r: Rep<K, T>, g: Grid, now: int)
    requires forall e :: e in mid.heap && e.deadline <= now ==> e in r0.heap && SameFor(r0, mid, e)
    requires forall e :: e in r0.heap && e.deadline <= now && IsExamined(r0, e, g, now) ==> e in xs || e in mid.heap
    requires forall e :: e in r.heap ==> (e in mid.heap && e != d) || now < e.deadline
    requires forall e :: e in mid.heap && e != d ==> SameFor(mid, r, e)
    requires forall e :: e in mid.heap && e != d && IsCurrent(mid, e) ==> e in r.heap
    requires d in mid.heap && d.deadline <= now
    ensures forall e :: e in r.heap && e.deadline <= now ==> e in r0.heap && SameFor(r0, r, e)
    ensures var xs' := xs + if IsExamined(mid, d, g, now) then [d] else [];
      forall e :: e in r0.heap && e.deadline <= now && IsExamined(r0, e, g, now) ==> e in xs' || e in r.heap
    ensures IsExamined(mid, d, g, now) ==> d in r0.heap && IsExamined(r0, d, g, now)
  {
    forall e | e in r.heap && e.deadline <= now ensures e in r0.heap && SameFor(r0, r, e) {
      assert SameFor(r0, mid, e) && SameFor(mid, r, e);
    }
    hide IsCurrent;
    forall e | e in r0.heap && e.deadline <= now && IsExamined(r0, e, g, now) && e !in xs && e != d
      ensures e in r.heap
    {
      SameForExamined(r0, mid, e, g, now);
      ExaminedIsCurrent(mid, e, g, now);
    }
    SameForExamined(r0, mid, d, g, now);
    hide IsExamined;
  }

  lemma FollowsOn<K, T>(
      r0: Rep<K, T>, xs: seq<Due>, out: seq<(K, Window<T>)>, t: Turn<K, T>, r: Rep<K, T>, g: Grid, now: int)
    requires RepOk(t.before) && Follows(r0, xs, out, t.before, g, now)
    requires IsLeast(t.before.heap, t.d) && t.d.deadline <= now && Turned(t.before, r, t.d, t.emitted, g, now)
    ensures Follows(r0, xs + if IsExamined(t.before, t.d, g, now) then [t.d] else [], out + t.emitted, r, g, now)
  {
    hide Turned, RepOk, IsExamined, OutOf, SameFor;
    TurnFrame(t.before, r, t.d, t.emitted, g, now);
    TurnOk(t.before, r, t.d, t.emitted, g, now);
    FollowsRest(r0, xs, t.before, t.d, r, g, now);
    FollowsOut(r0, xs, out, t, r, g, now);
    FollowsHeap(r0, xs, xs + if IsExamined(t.before, t.d, g, now) then [t.d] else [], t.before, t.d, r, now);
  }

  lemma ExaminedIsCurrent<K, T>(r: Rep<K, T>, e: Due, g: Grid, now: int)
    requires IsExamined(r, e, g, now)
    ensures IsCurrent(r, e)
  {}

  lemma FollowsHeap<K, T>(r0: Rep<K, T>, xs: seq<Due>, xs': seq<Due>, mid: Rep<K, T>, d: Due, r: Rep<K, T>, now: int)
    requires Ascends(xs) && (forall x, e :: x in xs && e in mid.heap ==> Precedes(x, e))
    requires IsLeast(mid.heap, d) && d.deadline <= now && (xs' == xs || xs' == xs + [d])
    requires forall x :: x in xs ==> x.deadline <= now
    requires forall e :: e in r.heap ==> (e in mid.heap && e != d) || now < e.deadline
    ensures Ascends(xs') && forall x, e :: x in xs' && e in r.heap ==> Precedes(x, e)
  {}

  lemma NothingFollows<K, T>(r: Rep<K, T>, g: Grid, now: int)
    ensures Follows(r, [], [], r, g, now)
  {
    hide IsExamined;
  }

  lemma {:induction false} TurnsFollow<K, T>(r0: Rep<K, T>, turns: seq<Turn<K, T>>, r: Rep<K, T>, g: Grid, now: int)
    requires RepOk(r0) && Treads(r0, turns, r, g, now)
    ensures RepOk(r) && Follows(r0, ExaminedIn(turns, g, now), EmittedIn(turns), r, g, now)
  {
    TreadsOk(r0, turns, r, g, now);
    hide RepOk, Turned, IsExamined, Follows;
    if turns == [] {
      NothingFollows(r0, g, now);
    } else {
      var t := turns[|turns| - 1];
      TreadsOk(r0, turns[..|turns| - 1], t.before, g, now);
      TurnsFollow(r0, turns[..|turns| - 1], t.before, g, now);
      FollowsOn(r0, ExaminedIn(turns[..|turns| - 1], g, now), EmittedIn(turns[..|turns| - 1]), t, r, g, now);
    }
  }

  /**
    For any clock `expire` examines exactly the current due entries of the state it starts
    from, in heap order, and emits for each what a tick of its key's core emits.
  */
  lemma {:induction false} ExpiryIsInHeapOrder<K, T>(
      r0: Rep<K, T>, turns: seq<Turn<K, T>>, r: Rep<K, T>, g: Grid, now: int)
    requires RepOk(r0) && Treads(r0, turns, r, g, now) && DueBy(r.heap, now) == {}
    ensures Examines(r0, ExaminedIn(turns, g, now), g, now)
    ensures EmittedIn(turns) == OutOf(r0, ExaminedIn(turns, g, now), g, now)
  {
    hide RepOk;
    TurnsFollow(r0, turns, r, g, now);
    assert forall e :: e in r.heap && e.deadline <= now ==> e in DueBy(r.heap, now);
  }

  /**
    One whole `expire`: its turns, the state it leaves, and, for tumbling windows, the entry
    each window came from.
  */
  datatype Expiry<!K, T> = Expiry(turns: seq<Turn<K, T>>, after: Rep<K, T>, fired: seq<Due>)

  ghost predicate Expires<K, T>(r0: Rep<K, T>, x: Expiry<K, T>, g: Grid, now: int) {
    Treads(r0, x.turns, x.after, g, now) && DueBy(x.after.heap, now) == {}
  }

  /** What comes out is what the current due entries of `r0` emit, in heap order. */
  ghost predicate InHeapOrder<K, T>(r0: Rep<K, T>, x: Expiry<K, T>, g: Grid, now: int) {
    var xs := ExaminedIn(x.turns, g, now);
    Examines(r0, xs, g, now) && EmittedIn(x.turns) == OutOf(r0, xs, g, now)
  }

  // ---------------------------------------------------------------- the list of keys

  lemma ExaminedOrder<K, T>(
      r: Rep<K, T>, r': Rep<K, T>, d: Due, emitted: seq<(K, Window<T>)>, g: Grid, now: int, stamps: map<K, Held<T>>)
    requires RepOk(r) && d in r.heap && Turned(r, r', d, emitted, g, now) && OrderAgrees(r, stamps)
    requires IsExamined(r, d, g, now)
    ensures OrderAgrees(r', stamps)
  {
    var ticked := TickedRep(r, d, g, now);
    hide RepOk, OrderAgrees, TickedRep, Rescheduled, RemoveRep, OnTick, IsEmpty, Deadline;
    TickedOk(r, d, g, now);
    OneEntryKeepsOrder(r, ticked, d.slot, stamps);
    if IsEmpty(OnTick(r.slab[d.slot].value.core, g, now).core) {
      var p: nat :| p < |r.lru| && r.lru[p] == d.slot && r' == RemoveRep(ticked, p);
      ReleasedOrder(ticked, p, stamps);
    } else {
      RescheduledOk(ticked, d.slot, now, g.horizon);
      OneEntryKeepsOrder(ticked, r', d.slot, stamps);
    }
  }

  lemma MovedOrder<K, T>(r: Rep<K, T>, d: Due, horizon: int, now: int, stamps: map<K, Held<T>>)
    requires RepOk(r) && d in r.heap && IsCurrent(r, d) && OrderAgrees(r, stamps)
    ensures OrderAgrees(Rescheduled(PopRep(r, d), d.slot, now, horizon), stamps)
  {
    var popped := PopRep(r, d);
    hide RepOk, OrderAgrees, Rescheduled, Deadline;
    PoppedOk(r, d);
    OneEntryKeepsOrder(r, popped, d.slot, stamps);
    RescheduledOk(popped, d.slot, now, horizon);
    OneEntryKeepsOrder(popped, Rescheduled(popped, d.slot, now, horizon), d.slot, stamps);
  }

  /** A turn keeps the keys that stay in the order of their stamps, for any clock. */
  lemma TurnOrder<K, T>(
      r: Rep<K, T>, r': Rep<K, T>, d: Due, emitted: seq<(K, Window<T>)>, g: Grid, now: int, stamps: map<K, Held<T>>)
    requires RepOk(r) && d in r.heap && Turned(r, r', d, emitted, g, now) && OrderAgrees(r, stamps)
    ensures OrderAgrees(r', stamps)
  {
    if !IsCurrent(r, d) {
      StaleTurnFrame(r, r', d, emitted, g, now);
      assert r'.lru == r.lru;
    } else if IsExamined(r, d, g, now) {
      hide *;
      ExaminedOrder(r, r', d, emitted, g, now, stamps);
    } else {
      assert r' == Rescheduled(PopRep(r, d), d.slot, now, g.horizon);
      hide *;
      MovedOrder(r, d, g.horizon, now, stamps);
    }
  }

  lemma ReleasedOrder<K, T>(r: Rep<K, T>, p: nat, stamps: map<K, Held<T>>)
    requires RepOk(r) && p < |r.lru| && Live(r.slab, r.lru[p]) && OrderAgrees(r, stamps)
    ensures OrderAgrees(RemoveRep(r, p), stamps)
  {
    hide RepOk, OrderAgrees;
    RemovedOk(r, p);
    RepParts(RemoveRep(r, p));
    RemovalKeepsOrder(r, p, RemoveRep(r, p), stamps);
  }

  lemma {:induction false} TreadsOrder<K, T>(
      r0: Rep<K, T>, turns: seq<Turn<K, T>>, r: Rep<K, T>, g: Grid, now: int, stamps: map<K, Held<T>>)
    requires RepOk(r0) && Treads(r0, turns, r, g, now) && OrderAgrees(r0, stamps)
    ensures OrderAgrees(r, stamps)
  {
    hide RepOk, OrderAgrees, Turned;
    if turns != [] {
      var t := turns[|turns| - 1];
      TreadsOk(r0, turns[..|turns| - 1], t.before, g, now);
      TreadsOrder(r0, turns[..|turns| - 1], t.before, g, now, stamps);
      TurnOrder(t.before, r, t.d, t.emitted, g, now, stamps);
    }
  }

  // ---------------------------------------------------------------- the order of the ends

  predicate EndsAscend<K, T>(out: seq<(K, Window<T>)>) {
    forall i, j :: 0 <= i < j < |out| ==> out[i].1.end <= out[j].1.end
  }

  predicate WindowsAscend<T>(ws: seq<Window<T>>) { forall i, j :: 0 <= i < j < |ws| ==> ws[i].end <= ws[j].end }

  /** All windows of `a` end no later than any of `b`, of which there are some. */
  predicate Before<T>(a: seq<Window<T>>, b: seq<Window<T>>) {
    a != [] && b != [] ==> a[|a| - 1].end <= b[0].end
  }

  lemma JoinedAscend<K, T>(a: seq<(K, Window<T>)>, b: seq<(K, Window<T>)>)
    ensures EndsAscend(a + b) <==> EndsAscend(a) && EndsAscend(b) && forall x, y :: x in a && y in b ==>
      x.1.end <= y.1.end
  {
    var c := a + b;
    if EndsAscend(c) {
      forall i, j | 0 <= i < j < |a| ensures a[i].1.end <= a[j].1.end {
        assert c[i] == a[i] && c[j] == a[j];
      }
      forall i, j | 0 <= i < j < |b| ensures b[i].1.end <= b[j].1.end {
        assert c[|a| + i] == b[i] && c[|a| + j] == b[j];
      }
      forall x, y | x in a && y in b ensures x.1.end <= y.1.end {
        var i :| 0 <= i < |a| && a[i] == x;
        var j :| 0 <= j < |b| && b[j] == y;
        assert c[i] == x && c[|a| + j] == y;
      }
    }
    if EndsAscend(a) && EndsAscend(b) && forall x, y :: x in a && y in b ==> x.1.end <= y.1.end {
      forall i, j | 0 <= i < j < |c| ensures c[i].1.end <= c[j].1.end {
        assert i < |a| <= j ==> c[i] in a && c[j] in b;
      }
    }
  }

  lemma {:induction false} InOutOf<K, T>(r: Rep<K, T>, xs: seq<Due>, g: Grid, now: int, x: (K, Window<T>))
    requires x in OutOf(r, xs, g, now)
    ensures exists i :: 0 <= i < |xs| && x in TurnTagged(r, xs[i], g, now)
  {
    var front := xs[..|xs| - 1];
    if x in OutOf(r, front, g, now) {
      InOutOf(r, front, g, now, x);
      var i :| 0 <= i < |front| && x in TurnTagged(r, front[i], g, now);
      assert xs[i] == front[i];
    } else {
      assert x in TurnTagged(r, xs[|xs| - 1], g, now);
    }
  }

  lemma {:induction false} OutOfHas<K, T>(r: Rep<K, T>, xs: seq<Due>, g: Grid, now: int, i: nat)
    requires i < |xs|
    ensures forall x :: x in TurnTagged(r, xs[i], g, now) ==> x in OutOf(r, xs, g, now)
  {
    if i < |xs| - 1 {
      OutOfHas(r, xs[..|xs| - 1], g, now, i);
    }
  }

  /** The windows of all entries of `xs` against those of one more. */
  lemma {:induction false} OneMoreTurn<K, T>(r: Rep<K, T>, xs: seq<Due>, x: Due, g: Grid, now: int)
    requires forall i :: 0 <= i < |xs| ==> WindowsAscend(TurnOut(r, xs[i], g, now))
    requires WindowsAscend(TurnOut(r, x, g, now))
    ensures (forall a, b :: a in OutOf(r, xs, g, now) && b in TurnTagged(r, x, g, now) ==> a.1.end <= b.1.end)
      <==> (forall i :: 0 <= i < |xs| ==> Before(TurnOut(r, xs[i], g, now), TurnOut(r, x, g, now)))
  {
    hide OutOf, OnTick;
    var out, more, ws := OutOf(r, xs, g, now), TurnTagged(r, x, g, now), TurnOut(r, x, g, now);
    if forall a, b :: a in out && b in more ==> a.1.end <= b.1.end {
      forall i | 0 <= i < |xs| ensures Before(TurnOut(r, xs[i], g, now), ws) {
        var vs := TurnOut(r, xs[i], g, now);
        if vs != [] && ws != [] {
          OutOfHas(r, xs, g, now, i);
          assert TurnTagged(r, xs[i], g, now)[|vs| - 1] in out && more[0] in more;
        }
      }
    }
    if forall i :: 0 <= i < |xs| ==> Before(TurnOut(r, xs[i], g, now), ws) {
      forall a, b | a in out && b in more ensures a.1.end <= b.1.end {
        InOutOf(r, xs, g, now, a);
        var i :| 0 <= i < |xs| && a in TurnTagged(r, xs[i], g, now);
        var vs := TurnOut(r, xs[i], g, now);
        var p :| 0 <= p < |vs| && TurnTagged(r, xs[i], g, now)[p] == a;
        var q :| 0 <= q < |ws| && more[q] == b;
        assert vs[p].end <= vs[|vs| - 1].end && ws[0].end <= ws[q].end;
        assert Before(vs, ws);
      }
    }
  }

  /** The order of the whole output is that of each entry's windows against each later entry's. */
  lemma {:induction false} OrderOfTurns<K, T>(r: Rep<K, T>, xs: seq<Due>, g: Grid, now: int)
    requires forall i :: 0 <= i < |xs| ==> WindowsAscend(TurnOut(r, xs[i], g, now))
    ensures EndsAscend(OutOf(r, xs, g, now))
      <==> (forall i, j :: 0 <= i < j < |xs| ==> Before(TurnOut(r, xs[i], g, now), TurnOut(r, xs[j], g, now)))
  {
    if xs != [] {
      var front, x := xs[..|xs| - 1], xs[|xs| - 1];
      assert forall i :: 0 <= i < |front| ==> front[i] == xs[i];
      OrderOfTurns(r, front, g, now);
      OneMoreTurn(r, front, x, g, now);
      JoinedAscend(OutOf(r, front, g, now), TurnTagged(r, x, g, now));
      assert EndsAscend(TurnTagged(r, x, g, now)) by { hide OnTick; }
      hide TurnOut, TurnTagged, Before, EndsAscend;
      assert OutOf(r, xs, g, now) == OutOf(r, front, g, now) + TurnTagged(r, x, g, now);
      if forall i, j :: 0 <= i < j < |xs| ==> Before(TurnOut(r, xs[i], g, now), TurnOut(r, xs[j], g, now)) {
        assert forall i, j :: 0 <= i < j < |front| ==> Before(TurnOut(r, xs[i], g, now), TurnOut(r, xs[j], g, now));
        assert forall i :: 0 <= i < |front| ==> Before(TurnOut(r, xs[i], g, now), TurnOut(r, xs[|xs| - 1], g, now));
      }
    }
  }

  // ---------------------------------------------------------------- read off the entries before the call

  /** The heap entry of the key in cell `i`. */
  function EntryOf<K, T>(r: Rep<K, T>, i: nat): Due
    requires Live(r.slab, i) && r.slab[i].value.scheduled.Some?
  {
    Due(r.slab[i].value.scheduled.value, r.slab[i].value.ticket, i)
  }

  predicate IsEntry<K, T>(r: Rep<K, T>, e: Due) {
    Live(r.slab, e.slot) && r.slab[e.slot].value.scheduled.Some? && e == EntryOf(r, e.slot)
  }

  /** The key in cell `i` is due at `now` and emits something. */
  predicate Fires<K, T>(r: Rep<K, T>, i: nat, g: Grid, now: int) {
    && Live(r.slab, i) && r.slab[i].value.scheduled.Some? && IsDue(r.slab[i].value.core, g.horizon, now)
    && OnTick(r.slab[i].value.core, g, now).out != []
  }

  /**
    For any two keys that are due and emit something: if the entry of the first comes before
    that of the second, its last window ends no later than the second key's first one.
  */
  ghost predicate EntriesInOrder<K, T>(r: Rep<K, T>, g: Grid, now: int) {
    forall i: nat, j: nat :: Fires(r, i, g, now) && Fires(r, j, g, now) && Precedes(EntryOf(r, i), EntryOf(r, j)) ==>
      Before(OnTick(r.slab[i].value.core, g, now).out, OnTick(r.slab[j].value.core, g, now).out)
  }

  lemma {:induction false} SlotEndsAscend<T>(slots: seq<Slot<T>>, kMin: nat, size: nat, slide: nat, g: Grid, now: int)
    requires SlotsInv(slots, size, slide, g, now) && Reached(g, now) && 0 < slide <= size
    requires kMin == KMin(g, now, size, slide)
    ensures WindowsAscend(EmitBefore(slots, kMin))
    ensures forall w :: w in EmitBefore(slots, kMin) ==>
      slots != [] && slots[0].end.Some? && slots[0].end.value <= w.end
  {
    if slots != [] && slots[0].k < kMin {
      var rest := slots[1..];
      SlotEndsAscend(rest, kMin, size, slide, g, now);
      DueSlots(g, now, size, slide, slots[0].k);
      if rest != [] { MulMonotone(slots[0].k, rest[0].k, slide); }
      var ws := EmitBefore(rest, kMin);
      var head := NonEmpty(slots[0].items, slots[0].start, slots[0].end.GetOr(slots[0].start));
      assert EmitBefore(slots, kMin) == head + ws;
      assert slots[0].end.Some?;
      assert forall w :: w in ws ==> slots[0].end.value <= w.end;
    }
  }

  /** The windows of one key come out in the order of their ends. */
  lemma TickAscends<T>(core: Core<T>, policy: Policy, g: Grid, now: int)
    requires ValidPolicy(policy) && Reached(g, now) && CoreInv(core, policy, g, now)
    ensures WindowsAscend(OnTick(core, g, now).out)
  {
    if core.SlidingCore? {
      SlotEndsAscend(core.slots, KMin(g, now, core.size, core.slide), core.size, core.slide, g, now);
    }
  }

  /** The entries that are examined are those of the keys that are due, and of some that emit nothing. */
  lemma DueEntries<K, T>(r: Rep<K, T>, e: Due, keys: map<K, Held<T>>, policy: Policy, g: Grid, now: int)
    requires RepOk(r) && Agrees(r, keys, policy, g, now)
    ensures IsEntry(r, e) && IsDue(r.slab[e.slot].value.core, g.horizon, now) ==>
      e in r.heap && e.deadline <= now && IsExamined(r, e, g, now)
    ensures e in r.heap && e.deadline <= now && IsExamined(r, e, g, now) ==>
      IsEntry(r, e) && (IsDue(r.slab[e.slot].value.core, g.horizon, now) || TurnOut(r, e, g, now) == [])
  {
    if Live(r.slab, e.slot) {
      assert EntryOk(r.slab[e.slot].value, g.horizon);
      CoreOfSlot(r, keys, policy, g, now, e.slot);
      if Deadline(r.slab[e.slot].value.core, g.horizon).None? {
        IdleTick(r.slab[e.slot].value.core, policy, g, now);
      }
    }
  }

  lemma PrecedesIsStrict(a: Due, b: Due)
    requires Precedes(a, b)
    ensures !Precedes(b, a) && a != b
  {}

  lemma CoreOfSlot<K, T>(r: Rep<K, T>, keys: map<K, Held<T>>, policy: Policy, g: Grid, now: int, slot: nat)
    requires RepOk(r) && Agrees(r, keys, policy, g, now) && Live(r.slab, slot)
    ensures CoreInv(r.slab[slot].value.core, policy, g, now)
  {
    SlotIsIndexed(r, slot);
    hide RepOk, CoreInv, EntriesOk, OrderAgrees;
    assert Holds(r, r.slab[slot].value.key);
  }

  /**
    From every state that agrees with the reference, the windows of one `expire` come out in
    the order of their ends if and only if for any two keys that are due and emit something,
    an earlier heap entry means that all of the key's due windows end no later than those of
    the other key.
  */
  lemma {:induction false} InOrderExactlyWhen<K, T>(
      r: Rep<K, T>, xs: seq<Due>, keys: map<K, Held<T>>, policy: Policy, g: Grid, now: int)
    requires RepOk(r) && Agrees(r, keys, policy, g, now) && Examines(r, xs, g, now)
    ensures EndsAscend(OutOf(r, xs, g, now)) <==> EntriesInOrder(r, g, now)
  {
    hide RepOk, CoresAgree, OrderAgrees, CoreInv, IsDue, OnTick, OutOf, EndsAscend;
    forall e: Due
      ensures IsEntry(r, e) && IsDue(r.slab[e.slot].value.core, g.horizon, now) ==> e in xs
      ensures e in xs ==>
        IsEntry(r, e) && (IsDue(r.slab[e.slot].value.core, g.horizon, now) || TurnOut(r, e, g, now) == [])
    {
      DueEntries(r, e, keys, policy, g, now);
    }
    forall i | 0 <= i < |xs| ensures WindowsAscend(TurnOut(r, xs[i], g, now)) {
      assert xs[i] in xs;
      CoreOfSlot(r, keys, policy, g, now, xs[i].slot);
      TickAscends(r.slab[xs[i].slot].value.core, policy, g, now);
    }
    OrderOfTurns(r, xs, g, now);
    hide WindowsAscend, Agrees, Before;
    if EntriesInOrder(r, g, now) {
      forall i, j | 0 <= i < j < |xs| ensures Before(TurnOut(r, xs[i], g, now), TurnOut(r, xs[j], g, now)) {
        assert xs[i] in xs && xs[j] in xs && Precedes(xs[i], xs[j]);
        if TurnOut(r, xs[i], g, now) == [] || TurnOut(r, xs[j], g, now) == [] {
          NothingBefore(TurnOut(r, xs[i], g, now), TurnOut(r, xs[j], g, now));
        } else {
          assert Fires(r, xs[i].slot, g, now) && Fires(r, xs[j].slot, g, now);
        }
      }
    }
    if forall i, j :: 0 <= i < j < |xs| ==> Before(TurnOut(r, xs[i], g, now), TurnOut(r, xs[j], g, now)) {
      forall a: nat, b: nat | Fires(r, a, g, now) && Fires(r, b, g, now) && Precedes(EntryOf(r, a), EntryOf(r, b))
        ensures Before(OnTick(r.slab[a].value.core, g, now).out, OnTick(r.slab[b].value.core, g, now).out)
      {
        assert EntryOf(r, a) in xs && EntryOf(r, b) in xs;
        var i :| 0 <= i < |xs| && xs[i] == EntryOf(r, a);
        var j :| 0 <= j < |xs| && xs[j] == EntryOf(r, b);
        PrecedesIsStrict(xs[i], xs[j]);
        assert i < j;
      }
    }
  }

  lemma NothingBefore<T>(a: seq<Window<T>>, b: seq<Window<T>>)
    requires a == [] || b == []
    ensures Before(a, b)
  {}
}
