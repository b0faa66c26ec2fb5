/**
  How the state of the keyed stage stands to the state of the reference, and that
  every step of `expire`, `touch` and `schedule` keeps it so.
*/
module KeyedRefines {
  import opened Options
  import opened WindowCore
  import opened WindowGrid
  import opened WindowLaws
  import opened WindowRuns
  import opened NaiveKeyed
  import opened KeyedState
  import opened KeyedRep

  // ---------------------------------------------------------------- what one key sees of the output

  function Proj<K(==), T>(out: seq<(K, Window<T>)>, k: K): seq<Window<T>> {
    if out == [] then []
    else Proj(out[..|out| - 1], k) + if out[|out| - 1].0 == k then [out[|out| - 1].1] else []
  }

  function Tagged<K, T>(key: K, ws: seq<Window<T>>): (out: seq<(K, Window<T>)>)
    ensures |out| == |ws|
  {
    seq(|ws|, i requires 0 <= i < |ws| => (key, ws[i]))
  }

  lemma {:induction false} ProjAppends<K, T>(a: seq<(K, Window<T>)>, b: seq<(K, Window<T>)>, k: K)
    ensures Proj(a + b, k) == Proj(a, k) + Proj(b, k)
  {
    if b == [] {
      assert a + b == a;
    } else {
      ProjAppends(a, b[..|b| - 1], k);
      assert (a + b)[..|a + b| - 1] == a + b[..|b| - 1];
    }
  }

  lemma {:induction false} ProjTagged<K, T>(key: K, ws: seq<Window<T>>, k: K)
    ensures Proj(Tagged(key, ws), k) == if key == k then ws else []
  {
    if ws != [] {
      ProjTagged(key, ws[..|ws| - 1], k);
      assert Tagged(key, ws)[..|ws| - 1] == Tagged(key, ws[..|ws| - 1]);
    }
  }

  /** Emitting more for `key` is seen by `key` only. */
  lemma ProjOfMore<K, T>(out: seq<(K, Window<T>)>, key: K, ws: seq<Window<T>>, k: K)
    ensures Proj(out + Tagged(key, ws), k) == if key == k then Proj(out, k) + ws else Proj(out, k)
  {
    ProjAppends(out, Tagged(key, ws), k);
    ProjTagged(key, ws, k);
  }

  // ---------------------------------------------------------------- the relation

  function CoreAt<K, T>(r: Rep<K, T>, k: K): Core<T>
    requires k in r.index && Live(r.slab, r.index[k])
  {
    r.slab[r.index[k]].value.core
  }

  ghost predicate Holds<K, T>(r: Rep<K, T>, k: K) {
    k in r.index && Live(r.slab, r.index[k])
  }

  /** Both hold the same keys with the same cores. */
  ghost predicate CoresAgree<K, T>(r: Rep<K, T>, keys: map<K, Held<T>>) {
    && keys.Keys == r.index.Keys
    && (forall k :: k in keys ==> Holds(r, k) && CoreAt(r, k) == keys[k].core)
  }

  ghost predicate AllLive<K, T>(slab: Slab<K, T>, lru: seq<nat>) {
    forall p :: 0 <= p < |lru| ==> Live(slab, lru[p])
  }

  /** The keys held, from least to most recently active. */
  ghost function LruKeys<K, T>(slab: Slab<K, T>, lru: seq<nat>): (ks: seq<K>)
    requires AllLive(slab, lru)
    ensures |ks| == |lru| && forall p :: 0 <= p < |lru| ==> ks[p] == slab[lru[p]].value.key
  {
    seq(|lru|, p requires 0 <= p < |lru| => slab[lru[p]].value.key)
  }

  ghost predicate InOrder<K, T>(ks: seq<K>, keys: map<K, Held<T>>) {
    && (forall p :: 0 <= p < |ks| ==> ks[p] in keys)
    && (forall p, q :: 0 <= p < q < |ks| ==> keys[ks[p]].touched < keys[ks[q]].touched)
  }

  /** The list is in the order of the last items. */
  ghost predicate OrderAgrees<K, T>(r: Rep<K, T>, keys: map<K, Held<T>>) {
    AllLive(r.slab, r.lru) && InOrder(LruKeys(r.slab, r.lru), keys)
  }

  /**
    A key with a deadline is scheduled, no later than that. A session that keeps
    receiving items may be scheduled too early, and may be scheduled although its
    deadline is no longer representable; a tumbling key never is.
  */
  predicate EntryOk<K, T>(e: KeyEntry<K, T>, horizon: int) {
    var deadline := Deadline(e.core, horizon);
    && (deadline.Some? ==> e.scheduled.Some? && e.scheduled.value <= deadline.value)
    && (deadline.Some? && e.core.TumblingCore? ==> e.scheduled == deadline)
    && (deadline.None? && e.scheduled.Some? ==> e.core.SessionCore? && e.core.last.Some?)
  }

  ghost predicate EntriesOk<K, T>(r: Rep<K, T>, horizon: int) {
    forall i :: Live(r.slab, i) ==> EntryOk(r.slab[i].value, horizon)
  }

  // ---------------------------------------------------------------- keys that part

  /** The entry is due at `now`, but the core has no representable deadline, and nothing is buffered. */
  predicate Parts<K, T>(e: KeyEntry<K, T>, horizon: int, now: int) {
    && e.scheduled.Some? && e.scheduled.value <= now
    && Deadline(e.core, horizon).None? && IsEmpty(e.core)
  }

  /** The keys `expire` releases at `now` although their deadline has not passed. */
  ghost function Parting<K, T>(r: Rep<K, T>, horizon: int, now: int): set<K> {
    set k | k in r.index && Holds(r, k) && Parts(r.slab[r.index[k]].value, horizon, now)
  }

  /** The keys that `expire` has released so far although their deadline has not passed. */
  ghost function Lost<K, T>(keys: map<K, Held<T>>, done: set<K>, g: Grid, now: int): set<K> {
    set k | k in done && k in keys && !IsDue(keys[k].core, g.horizon, now)
  }

  /** Without a deadline a tick changes nothing. */
  lemma IdleTick<T>(core: Core<T>, policy: Policy, g: Grid, now: int)
    requires ValidPolicy(policy) && Reached(g, now) && CoreInv(core, policy, g, now)
    requires Deadline(core, g.horizon).None?
    ensures OnTick(core, g, now) == Step(core, [])
  {
    if core.SlidingCore? && core.slots != [] {
      DueSlots(g, now, core.size, core.slide, core.slots[0].k);
    }
  }

  /** Only sessions part. */
  lemma OnlySessionsPart<K, T>(r: Rep<K, T>, keys: map<K, Held<T>>, policy: Policy, g: Grid, now: int)
    requires Agrees(r, keys, policy, g, now) && !policy.Session?
    ensures Parting(r, g.horizon, now) == {}
  {
    forall k | Holds(r, k) ensures !Parts(r.slab[r.index[k]].value, g.horizon, now) {
      assert EntryOk(r.slab[r.index[k]].value, g.horizon) && CoreInv(keys[k].core, policy, g, now);
    }
  }

  // ---------------------------------------------------------------- expire

  /** `expire` has handled a key that is due, or that it releases although it is not. */
  predicate Handled<T>(core: Core<T>, g: Grid, now: int) {
    IsDue(core, g.horizon, now) || (Deadline(core, g.horizon).None? && IsEmpty(core))
  }

  /** `expire` has handled the keys in `done` and none of the others. */
  ghost predicate Halfway<K, T>(r: Rep<K, T>, keys: map<K, Held<T>>, done: set<K>, g: Grid, now: int) {
    && done <= keys.Keys && r.index.Keys <= keys.Keys
    && (forall k :: k in done ==>
          && Handled(keys[k].core, g, now)
          && (k in r.index <==> !IsEmpty(OnTick(keys[k].core, g, now).core))
          && (k in r.index ==> Holds(r, k) && CoreAt(r, k) == OnTick(keys[k].core, g, now).core))
    && (forall k :: k in keys && k !in done ==> Holds(r, k) && CoreAt(r, k) == keys[k].core)
  }

  ghost predicate HalfwayOut<K(!new), T>(
      keys: map<K, Held<T>>, done: set<K>, out: seq<(K, Window<T>)>, g: Grid, now: int) {
    forall k :: Proj(out, k) == if k in done && k in keys then OnTick(keys[k].core, g, now).out else []
  }

  /** With no due entry in the heap, no key is due. */
  lemma NoKeyIsDue<K, T>(r: Rep<K, T>, horizon: int, now: int)
    requires HeapOk(r.heap, r.slab, r.tickets) && EntriesOk(r, horizon) && DueBy(r.heap, now) == {}
    ensures forall i :: Live(r.slab, i) ==> !IsDue(r.slab[i].value.core, horizon, now)
  {
    forall i | Live(r.slab, i) ensures !IsDue(r.slab[i].value.core, horizon, now) {
      var e := r.slab[i].value;
      assert EntryOk(e, horizon);
      assert e.scheduled.Some? ==> Due(e.scheduled.value, e.ticket, i) !in DueBy(r.heap, now);
    }
  }

  /**
    Nothing is due any more: all due keys have been examined as the reference examines them,
    and of the others those are missing that were released although they are not due.
  */
  lemma ExpiredAll<K(!new), T>(
      r: Rep<K, T>, keys: map<K, Held<T>>, done: set<K>, out: seq<(K, Window<T>)>, policy: Policy, g: Grid, now: int)
    requires RepOk(r) && EntriesOk(r, g.horizon) && Halfway(r, keys, done, g, now)
    requires ValidPolicy(policy) && Reached(g, now) && KeysInv(keys, policy, g, now)
    requires HalfwayOut(keys, done, out, g, now)
    requires DueBy(r.heap, now) == {}
    ensures CoresAgree(r, TickAll(keys, g, now) - Lost(keys, done, g, now))
    ensures forall k :: Proj(out, k) == TickOut(keys, g, now, k)
  {
    NoKeyIsDue(r, g.horizon, now);
    hide RepOk, EntriesOk, IsEmpty, CoreInv;
    forall k | k in keys && !IsDue(keys[k].core, g.horizon, now) && k in done
      ensures OnTick(keys[k].core, g, now) == Step(keys[k].core, [])
    {
      IdleTick(keys[k].core, policy, g, now);
    }
    AllDueAreDone(r, keys, done, g, now);
  }

  lemma AllDueAreDone<K, T>(r: Rep<K, T>, keys: map<K, Held<T>>, done: set<K>, g: Grid, now: int)
    requires Halfway(r, keys, done, g, now)
    requires forall i :: Live(r.slab, i) ==> !IsDue(r.slab[i].value.core, g.horizon, now)
    requires forall k :: k in keys && !IsDue(keys[k].core, g.horizon, now) && k in done ==>
      OnTick(keys[k].core, g, now) == Step(keys[k].core, [])
    ensures forall k :: k in keys && k !in done ==> !IsDue(keys[k].core, g.horizon, now)
    ensures CoresAgree(r, TickAll(keys, g, now) - Lost(keys, done, g, now))
  {
    hide OnTick, IsEmpty, IsDue;
    forall k | k in keys && k !in done ensures !IsDue(keys[k].core, g.horizon, now) {
      assert Holds(r, k);
    }
    var after := TickAll(keys, g, now) - Lost(keys, done, g, now);
    forall k ensures k in after <==> k in r.index {
      assert k in done ==> Handled(keys[k].core, g, now);
    }
  }

  lemma OrderSurvivesTickAll<K, T>(r: Rep<K, T>, keys: map<K, Held<T>>, lost: set<K>, g: Grid, now: int)
    requires RepOk(r) && OrderAgrees(r, keys) && CoresAgree(r, TickAll(keys, g, now) - lost)
    ensures OrderAgrees(r, TickAll(keys, g, now) - lost)
  {
    var ks, after := LruKeys(r.slab, r.lru), TickAll(keys, g, now) - lost;
    forall p | 0 <= p < |ks| ensures ks[p] in after && after[ks[p]].touched == keys[ks[p]].touched {
      assert Live(r.slab, r.lru[p]);
    }
  }

  /** Only the cell `slot` changed, and it still holds the same key. */
  ghost predicate OneEntry<K, T>(r: Rep<K, T>, r': Rep<K, T>, slot: nat) {
    && r'.index == r.index && r'.lru == r.lru && |r'.slab| == |r.slab|
    && Live(r.slab, slot) && Live(r'.slab, slot) && r'.slab[slot].value.key == r.slab[slot].value.key
    && (forall i :: 0 <= i < |r.slab| && i != slot ==> r'.slab[i] == r.slab[i])
  }

  lemma OneEntryKeepsOrder<K, T>(r: Rep<K, T>, r': Rep<K, T>, slot: nat, keys: map<K, Held<T>>)
    requires OneEntry(r, r', slot) && OrderAgrees(r, keys)
    ensures OrderAgrees(r', keys)
  {
    assert LruKeys(r'.slab, r'.lru) == LruKeys(r.slab, r.lru);
  }

  /** What `schedule` does to the state. */
  ghost function Rescheduled<K, T>(r: Rep<K, T>, slot: int, now: int, horizon: int): Rep<K, T> {
    if !Live(r.slab, slot) then r
    else
      var e := r.slab[slot].value;
      var deadline := Deadline(e.core, horizon);
      if deadline.None? || (deadline.value <= now && horizon < now + 1) then r
      else
        var at := if now < deadline.value then deadline.value else now + 1;
        if e.scheduled.Some? && e.scheduled.value <= at then r else ScheduleRep(r, slot, at)
  }

  /** `schedule` keeps the representation invariant and adds nothing that is due, for any clock. */
  lemma RescheduledOk<K, T>(r: Rep<K, T>, slot: int, now: int, horizon: int)
    requires RepOk(r)
    ensures RepOk(Rescheduled(r, slot, now, horizon))
    ensures forall d :: d in Rescheduled(r, slot, now, horizon).heap ==> d in r.heap || now < d.deadline
    ensures Live(r.slab, slot) ==> OneEntry(r, Rescheduled(r, slot, now, horizon), slot)
                                   && Rescheduled(r, slot, now, horizon).slab[slot].value.core
                                     == r.slab[slot].value.core
  {
    hide Deadline, RepOk;
    var r' := Rescheduled(r, slot, now, horizon);
    if Live(r.slab, slot) {
      var deadline := Deadline(r.slab[slot].value.core, horizon);
      if deadline.Some? {
        var at := if now < deadline.value then deadline.value else now + 1;
        ScheduledOk(r, slot, at);
        assert r' == r || r' == ScheduleRep(r, slot, at);
      }
    }
  }

  /** An entry that may be scheduled: nothing is due, and the entry of a tumbling key is for its deadline. */
  predicate Schedulable<K, T>(e: KeyEntry<K, T>, horizon: int, now: int) {
    var deadline := Deadline(e.core, horizon);
    && (deadline.None? && e.scheduled.Some? ==> e.core.SessionCore? && e.core.last.Some?)
    && (deadline.Some? ==> now < deadline.value)
    && (deadline.Some? && e.scheduled.Some? && e.core.TumblingCore? ==> e.scheduled == deadline)
  }

  /** If what was due has been handled, the key is scheduled as it should be afterwards. */
  lemma RescheduledEntryOk<K, T>(r: Rep<K, T>, slot: nat, now: int, horizon: int)
    requires Live(r.slab, slot) && Schedulable(r.slab[slot].value, horizon, now)
    ensures Live(Rescheduled(r, slot, now, horizon).slab, slot)
    ensures EntryOk(Rescheduled(r, slot, now, horizon).slab[slot].value, horizon)
  {
  }

  lemma OneEntryOk<K, T>(r: Rep<K, T>, r': Rep<K, T>, slot: nat, horizon: int)
    requires OneEntry(r, r', slot) && EntriesOk(r, horizon)
    requires EntryOk(r'.slab[slot].value, horizon)
    ensures EntriesOk(r', horizon)
  {
    forall i | Live(r'.slab, i) ensures EntryOk(r'.slab[i].value, horizon) {
      if i != slot {
        assert Live(r.slab, i);
      }
    }
  }

  /** `expire` examined the key in `slot` and kept it. */
  lemma ExaminedKept<K, T>(
      r: Rep<K, T>, r': Rep<K, T>, slot: nat, keys: map<K, Held<T>>, done: set<K>, g: Grid, now: int)
    requires RepOk(r) && Halfway(r, keys, done, g, now) && OneEntry(r, r', slot)
    requires var e := r.slab[slot].value;
             && IsDue(e.core, g.horizon, now) && e.key !in done
             && r'.slab[slot].value.core == OnTick(e.core, g, now).core && !IsEmpty(OnTick(e.core, g, now).core)
    ensures Halfway(r', keys, done + {r.slab[slot].value.key}, g, now)
  {
    var key := r.slab[slot].value.key;
    assert key in r.index && r.index[key] == slot;
    forall k | k in r.index && k != key ensures r.index[k] != slot && Holds(r', k) && CoreAt(r', k) == CoreAt(r, k) {
      assert Live(r.slab, r.index[k]);
    }
  }

  /** `expire` examined the key in `slot` and released it. */
  lemma ExaminedReleased<K, T>(
      r: Rep<K, T>, r': Rep<K, T>, slot: nat, keys: map<K, Held<T>>, done: set<K>, g: Grid, now: int)
    requires RepOk(r) && RepOk(r') && Halfway(r, keys, done, g, now) && Live(r.slab, slot)
    requires var e := r.slab[slot].value;
             && Handled(e.core, g, now) && e.key !in done && IsEmpty(OnTick(e.core, g, now).core)
             && r'.index == r.index - {e.key}
    requires forall i :: Live(r'.slab, i) ==>
      Live(r.slab, i) && i != slot && SameEntry(r'.slab[i].value, r.slab[i].value)
    ensures Halfway(r', keys, done + {r.slab[slot].value.key}, g, now)
  {
    var key := r.slab[slot].value.key;
    assert key in r.index && r.index[key] == slot;
    forall k | k in r'.index ensures Holds(r', k) && Holds(r, k) && CoreAt(r', k) == CoreAt(r, k) {
      assert Live(r'.slab, r'.index[k]);
    }
  }

  lemma RemovalKeepsOrder<K, T>(r: Rep<K, T>, p: nat, r': Rep<K, T>, keys: map<K, Held<T>>)
    requires AllLive(r'.slab, r'.lru) && p < |r.lru| && r'.lru == KeyedState.Without(r.lru, p)
    requires OrderAgrees(r, keys)
    requires forall i :: Live(r'.slab, i) ==> Live(r.slab, i) && SameEntry(r'.slab[i].value, r.slab[i].value)
    ensures OrderAgrees(r', keys)
  {
    var ks, ks' := LruKeys(r.slab, r.lru), LruKeys(r'.slab, r'.lru);
    forall q | 0 <= q < |ks'| ensures ks'[q] == ks[if q < p then q else q + 1] {
      assert Live(r'.slab, r'.lru[q]);
    }
  }

  // ---------------------------------------------------------------- one turn of `expire`

  /** Windows come out in the order of the heap entries that fired, each ending at its entry's deadline. */
  ghost predicate InDeadlineOrder<K, T>(out: seq<(K, Window<T>)>, fired: seq<Due>) {
    && |out| == |fired|
    && (forall i :: 0 <= i < |out| ==> out[i].1.end == fired[i].deadline)
    && (forall i, j :: 0 <= i < j < |fired| ==> Precedes(fired[i], fired[j]))
  }

  /** The state and the reference agree when `expire` starts, and the clock has not gone back. */
  ghost predicate Agrees<K, T>(r: Rep<K, T>, keys: map<K, Held<T>>, policy: Policy, g: Grid, now: int) {
    && ValidPolicy(policy) && Reached(g, now) && KeysInv(keys, policy, g, now)
    && CoresAgree(r, keys) && OrderAgrees(r, keys) && EntriesOk(r, g.horizon)
  }

  ghost predicate FiredInOrder<K, T>(r: Rep<K, T>, out: seq<(K, Window<T>)>, fired: seq<Due>) {
    InDeadlineOrder(out, fired) && (fired != [] ==> forall e :: e in r.heap ==> Precedes(fired[|fired| - 1], e))
  }

  /** What holds between two turns of the loop of `expire`. */
  ghost predicate Expiring<K(!new), T>(r: Rep<K, T>, keys: map<K, Held<T>>, done: set<K>,
                                       out: seq<(K, Window<T>)>, fired: seq<Due>, policy: Policy, g: Grid, now: int) {
    && EntriesOk(r, g.horizon) && OrderAgrees(r, keys)
    && Halfway(r, keys, done, g, now) && HalfwayOut(keys, done, out, g, now)
    && (policy.Tumbling? ==> FiredInOrder(r, out, fired))
  }

  ghost predicate IsCurrent<K, T>(r: Rep<K, T>, d: Due) {
    Live(r.slab, d.slot) && r.slab[d.slot].value.ticket == d.ticket
  }

  lemma TurnStale<K(!new), T>(r: Rep<K, T>, d: Due, keys: map<K, Held<T>>, done: set<K>,
                              out: seq<(K, Window<T>)>, fired: seq<Due>, policy: Policy, g: Grid, now: int)
    requires Expiring(r, keys, done, out, fired, policy, g, now) && !IsCurrent(r, d)
    ensures Expiring(PopRep(r, d), keys, done, out, fired, policy, g, now)
  {
    hide HalfwayOut, EntryOk, InOrder, OnTick;
  }

  /** The popped entry of a key is the one its `scheduled` field records. */
  lemma PoppedIsScheduled<K, T>(r: Rep<K, T>, d: Due, horizon: int)
    requires RepOk(r) && EntriesOk(r, horizon) && d in r.heap && IsCurrent(r, d)
    ensures var e := r.slab[d.slot].value;
            && e.scheduled == Some(d.deadline)
            && (Deadline(e.core, horizon).Some? ==> d.deadline <= Deadline(e.core, horizon).value)
            && (Deadline(e.core, horizon).None? ==> e.core.SessionCore? && e.core.last.Some?)
            && (e.core.TumblingCore? ==> Deadline(e.core, horizon) == Some(d.deadline))
    ensures OneEntry(r, PopRep(r, d), d.slot)
    ensures PopRep(r, d).slab[d.slot].value == r.slab[d.slot].value.(scheduled := None)
  {
    assert EntryOk(r.slab[d.slot].value, horizon);
  }

  lemma OneEntryTwice<K, T>(r: Rep<K, T>, r': Rep<K, T>, r'': Rep<K, T>, slot: nat)
    requires OneEntry(r, r', slot) && OneEntry(r', r'', slot)
    ensures OneEntry(r, r'', slot)
  {
  }

  lemma FiredStays<K, T>(r: Rep<K, T>, r': Rep<K, T>, d: Due, out: seq<(K, Window<T>)>, fired: seq<Due>, now: int)
    requires FiredInOrder(r, out, fired) && IsLeast(r.heap, d) && d.deadline <= now
    requires forall e :: e in r'.heap ==> (e in r.heap && e != d) || now < e.deadline
    ensures FiredInOrder(r', out, fired)
    ensures forall e :: e in r'.heap ==> Precedes(d, e)
  {
  }

  /** The popped key is not due yet: later items moved its deadline. */
  lemma TurnMoved<K(!new), T>(r: Rep<K, T>, d: Due, keys: map<K, Held<T>>, done: set<K>,
                              out: seq<(K, Window<T>)>, fired: seq<Due>, policy: Policy, g: Grid, now: int)
    requires RepOk(r) && Expiring(r, keys, done, out, fired, policy, g, now)
    requires IsLeast(r.heap, d) && d.deadline <= now && IsCurrent(r, d)
    requires Deadline(r.slab[d.slot].value.core, g.horizon).Some?
    requires now < Deadline(r.slab[d.slot].value.core, g.horizon).value
    ensures Expiring(Rescheduled(PopRep(r, d), d.slot, now, g.horizon), keys, done, out, fired, policy, g, now)
  {
    var popped, r' := PopRep(r, d), Rescheduled(PopRep(r, d), d.slot, now, g.horizon);
    PoppedIsScheduled(r, d, g.horizon);
    PoppedOk(r, d);
    RescheduledOk(popped, d.slot, now, g.horizon);
    RescheduledEntryOk(popped, d.slot, now, g.horizon);
    OneEntryTwice(r, popped, r', d.slot);
    OneEntryOk(r, r', d.slot, g.horizon);
    OneEntryKeepsOrder(r, r', d.slot, keys);
    if policy.Tumbling? {
      FiredStays(r, r', d, out, fired, now);
    }
    UnchangedCoresStay(r, r', d.slot, keys, done, g, now);
  }

  lemma UnchangedCoresStay<K, T>(
      r: Rep<K, T>, r': Rep<K, T>, slot: nat, keys: map<K, Held<T>>, done: set<K>, g: Grid, now: int)
    requires Halfway(r, keys, done, g, now) && OneEntry(r, r', slot)
    requires r'.slab[slot].value.core == r.slab[slot].value.core
    ensures Halfway(r', keys, done, g, now)
  {
    assert forall k :: Holds(r, k) ==> Holds(r', k) && CoreAt(r', k) == CoreAt(r, k);
  }

  /** A key with a current entry and no later deadline than `now` has not been handled yet. */
  lemma ExaminedIsNotDone<K, T>(
      r: Rep<K, T>, slot: nat, keys: map<K, Held<T>>, done: set<K>, policy: Policy, g: Grid, now: int)
    requires RepOk(r) && Live(r.slab, slot) && Halfway(r, keys, done, g, now)
    requires ValidPolicy(policy) && Reached(g, now) && KeysInv(keys, policy, g, now)
    requires EntryOk(r.slab[slot].value, g.horizon) && r.slab[slot].value.scheduled.Some?
    requires var deadline := Deadline(r.slab[slot].value.core, g.horizon); deadline.Some? ==> deadline.value <= now
    ensures var e := r.slab[slot].value;
      && e.key !in done && e.key in keys && keys[e.key].core == e.core && CoreInv(e.core, policy, g, now)
  {
    var e := r.slab[slot].value;
    assert e.key in r.index && r.index[e.key] == slot;
    if e.key in done {
      var core := keys[e.key].core;
      assert Handled(core, g, now) && e.core == OnTick(core, g, now).core && !IsEmpty(e.core);
      TickLeavesNothingDue(core, policy, g, now);
      if !IsDue(core, g.horizon, now) {
        IdleTick(core, policy, g, now);
      }
    }
  }

  ghost function FiredBy<T>(fired: seq<Due>, d: Due, ws: seq<Window<T>>): seq<Due> {
    if ws == [] then fired else fired + [d]
  }

  lemma OutGrows<K(!new), T>(keys: map<K, Held<T>>, done: set<K>, out: seq<(K, Window<T>)>, key: K, g: Grid, now: int)
    requires HalfwayOut(keys, done, out, g, now) && key in keys && key !in done
    ensures HalfwayOut(keys, done + {key}, out + Tagged(key, OnTick(keys[key].core, g, now).out), g, now)
  {
    hide OnTick, Proj, Tagged;
    var ws := OnTick(keys[key].core, g, now).out;
    forall k
      ensures Proj(out + Tagged(key, ws), k) ==
        if k in done + {key} && k in keys then OnTick(keys[k].core, g, now).out else []
    {
      ProjOfMore(out, key, ws, k);
      assert [] + ws == ws;
    }
  }

  lemma FiredGrows<K, T>(
      r: Rep<K, T>, r': Rep<K, T>, d: Due, out: seq<(K, Window<T>)>, fired: seq<Due>, key: K, ws: seq<Window<T>>,
      now: int)
    requires FiredInOrder(r, out, fired) && IsLeast(r.heap, d) && d.deadline <= now
    requires forall e :: e in r'.heap ==> (e in r.heap && e != d) || now < e.deadline
    requires |ws| <= 1 && forall w :: w in ws ==> w.end == d.deadline
    ensures FiredInOrder(r', out + Tagged(key, ws), FiredBy(fired, d, ws))
  {
    FiredStays(r, r', d, out, fired, now);
    if ws == [] {
      assert out + Tagged(key, ws) == out;
    } else {
      assert Tagged(key, ws) == [(key, ws[0])] && ws[0] in ws;
    }
  }

  lemma TumblingTickOut<T>(core: Core<T>, g: Grid, now: int)
    requires core.TumblingCore? && IsDue(core, g.horizon, now)
    ensures var ws := OnTick(core, g, now).out;
            |ws| <= 1 && forall w :: w in ws ==> w.end == Deadline(core, g.horizon).value
  {
  }

  /** The state while the due key in `d.slot` has been popped and ticked. */
  ghost function TickedRep<K, T>(r: Rep<K, T>, d: Due, g: Grid, now: int): Rep<K, T>
    requires Live(r.slab, d.slot)
  {
    SetCoreRep(PopRep(r, d), d.slot, OnTick(r.slab[d.slot].value.core, g, now).core)
  }

  lemma TickedOk<K, T>(r: Rep<K, T>, d: Due, g: Grid, now: int)
    requires RepOk(r) && d in r.heap && IsCurrent(r, d)
    ensures RepOk(TickedRep(r, d, g, now)) && OneEntry(r, TickedRep(r, d, g, now), d.slot)
    ensures TickedRep(r, d, g, now).slab[d.slot].value
         == r.slab[d.slot].value.(scheduled := None, core := OnTick(r.slab[d.slot].value.core, g, now).core)
    ensures TickedRep(r, d, g, now).heap == r.heap - {d}
  {
    PoppedOk(r, d);
    CoreSetOk(PopRep(r, d), d.slot, OnTick(r.slab[d.slot].value.core, g, now).core);
  }

  /** The part of a turn that is the same whether the key is kept or released. */
  lemma TurnEmits<K(!new), T>(r: Rep<K, T>, r': Rep<K, T>, d: Due, keys: map<K, Held<T>>, done: set<K>,
                              out: seq<(K, Window<T>)>, fired: seq<Due>, policy: Policy, g: Grid, now: int)
    requires RepOk(r) && Expiring(r, keys, done, out, fired, policy, g, now)
    requires ValidPolicy(policy) && Reached(g, now) && KeysInv(keys, policy, g, now)
    requires IsLeast(r.heap, d) && d.deadline <= now && IsExamined(r, d, g, now)
    requires forall e :: e in r'.heap ==> (e in r.heap && e != d) || now < e.deadline
    ensures var e := r.slab[d.slot].value;
            var ws := OnTick(e.core, g, now).out;
            && e.key in keys && e.key !in done && keys[e.key].core == e.core
            && HalfwayOut(keys, done + {e.key}, out + Tagged(e.key, ws), g, now)
            && (policy.Tumbling? ==> FiredInOrder(r', out + Tagged(e.key, ws), FiredBy(fired, d, ws)))
  {
    var e := r.slab[d.slot].value;
    PoppedIsScheduled(r, d, g.horizon);
    ExaminedIsNotDone(r, d.slot, keys, done, policy, g, now);
    OutGrows(keys, done, out, e.key, g, now);
    if policy.Tumbling? {
      TumblingTickOut(e.core, g, now);
      FiredGrows(r, r', d, out, fired, e.key, OnTick(e.core, g, now).out, now);
    }
  }

  /** The popped key was due and still holds something: it is kept, with a new entry in `r'`. */
  lemma TurnKept<K(!new), T>(r: Rep<K, T>, r': Rep<K, T>, d: Due, keys: map<K, Held<T>>, done: set<K>,
                             out: seq<(K, Window<T>)>, fired: seq<Due>, policy: Policy, g: Grid, now: int)
    requires RepOk(r) && Expiring(r, keys, done, out, fired, policy, g, now)
    requires ValidPolicy(policy) && Reached(g, now) && KeysInv(keys, policy, g, now)
    requires IsLeast(r.heap, d) && d.deadline <= now && IsCurrent(r, d)
    requires var core := r.slab[d.slot].value.core;
             IsDue(core, g.horizon, now) && !IsEmpty(OnTick(core, g, now).core)
    requires r' == Rescheduled(TickedRep(r, d, g, now), d.slot, now, g.horizon)
    ensures var e := r.slab[d.slot].value;
            var ws := OnTick(e.core, g, now).out;
            Expiring(r', keys, done + {e.key}, out + Tagged(e.key, ws), FiredBy(fired, d, ws), policy, g, now)
  {
    hide RepOk, Halfway, HalfwayOut, EntriesOk, OrderAgrees, FiredInOrder, KeysInv;
    KeptFacts(r, r', d, keys, done, policy, g, now);
    TurnEmits(r, r', d, keys, done, out, fired, policy, g, now);
    OneEntryOk(r, r', d.slot, g.horizon);
    OneEntryKeepsOrder(r, r', d.slot, keys);
    ExaminedKept(r, r', d.slot, keys, done, g, now);
  }

  lemma KeptFacts<K, T>(
      r: Rep<K, T>, r': Rep<K, T>, d: Due, keys: map<K, Held<T>>, done: set<K>, policy: Policy, g: Grid, now: int)
    requires RepOk(r) && d in r.heap && d.deadline <= now && IsCurrent(r, d) && Halfway(r, keys, done, g, now)
    requires EntriesOk(r, g.horizon) && ValidPolicy(policy) && Reached(g, now) && KeysInv(keys, policy, g, now)
    requires IsDue(r.slab[d.slot].value.core, g.horizon, now)
    requires r' == Rescheduled(TickedRep(r, d, g, now), d.slot, now, g.horizon)
    ensures OneEntry(r, r', d.slot) && EntryOk(r'.slab[d.slot].value, g.horizon)
    ensures r'.slab[d.slot].value.core == OnTick(r.slab[d.slot].value.core, g, now).core
    ensures r.slab[d.slot].value.key !in done
    ensures forall e :: e in r'.heap ==> (e in r.heap && e != d) || now < e.deadline
  {
    var ticked := TickedRep(r, d, g, now);
    TickedOk(r, d, g, now);
    RescheduledOk(ticked, d.slot, now, g.horizon);
    PoppedIsScheduled(r, d, g.horizon);
    ExaminedIsNotDone(r, d.slot, keys, done, policy, g, now);
    TickLeavesNothingDue(r.slab[d.slot].value.core, policy, g, now);
    RescheduledEntryOk(ticked, d.slot, now, g.horizon);
    OneEntryTwice(r, ticked, r', d.slot);
  }

  /** The popped key was due, without a representable deadline, but not empty: it stays as it is. */
  lemma TurnIdle<K(!new), T>(r: Rep<K, T>, r': Rep<K, T>, d: Due, keys: map<K, Held<T>>, done: set<K>,
                             out: seq<(K, Window<T>)>, fired: seq<Due>, policy: Policy, g: Grid, now: int)
    requires RepOk(r) && Expiring(r, keys, done, out, fired, policy, g, now)
    requires ValidPolicy(policy) && Reached(g, now) && KeysInv(keys, policy, g, now)
    requires IsLeast(r.heap, d) && d.deadline <= now && IsCurrent(r, d)
    requires Deadline(r.slab[d.slot].value.core, g.horizon).None?
    requires r' == Rescheduled(TickedRep(r, d, g, now), d.slot, now, g.horizon)
    ensures OnTick(r.slab[d.slot].value.core, g, now).out == [] && Expiring(r', keys, done, out, fired, policy, g, now)
  {
    PoppedIsScheduled(r, d, g.horizon);
    ExaminedIsNotDone(r, d.slot, keys, done, policy, g, now);
    IdleTick(r.slab[d.slot].value.core, policy, g, now);
    TickedOk(r, d, g, now);
    assert r' == TickedRep(r, d, g, now) && EntryOk(r'.slab[d.slot].value, g.horizon);
    hide RepOk, Halfway, HalfwayOut, EntriesOk, OrderAgrees, FiredInOrder, KeysInv, TickedRep, Rescheduled, OnTick;
    OneEntryOk(r, r', d.slot, g.horizon);
    OneEntryKeepsOrder(r, r', d.slot, keys);
    if policy.Tumbling? {
      FiredStays(r, r', d, out, fired, now);
    }
    UnchangedCoresStay(r, r', d.slot, keys, done, g, now);
  }

  /** The popped key was examined and holds nothing any more: `r'` is without it. */
  lemma TurnReleased<K(!new), T>(r: Rep<K, T>, r': Rep<K, T>, d: Due, p: nat, keys: map<K, Held<T>>, done: set<K>,
                                 out: seq<(K, Window<T>)>, fired: seq<Due>, policy: Policy, g: Grid, now: int)
    requires RepOk(r) && Expiring(r, keys, done, out, fired, policy, g, now)
    requires ValidPolicy(policy) && Reached(g, now) && KeysInv(keys, policy, g, now)
    requires IsLeast(r.heap, d) && d.deadline <= now && p < |r.lru| && r.lru[p] == d.slot
    requires IsExamined(r, d, g, now) && IsEmpty(OnTick(r.slab[d.slot].value.core, g, now).core)
    requires RepOk(r') && IsReleased(r, r', d, p)
    ensures var e := r.slab[d.slot].value;
            var ws := OnTick(e.core, g, now).out;
            Expiring(r', keys, done + {e.key}, out + Tagged(e.key, ws), FiredBy(fired, d, ws), policy, g, now)
  {
    hide RepOk, Halfway, HalfwayOut, EntriesOk, OrderAgrees, FiredInOrder, KeysInv;
    TurnEmits(r, r', d, keys, done, out, fired, policy, g, now);
    ReleaseKeepsEntries(r, r', d, p, keys, g.horizon);
    EmptiedIsHandled(r, d, keys, policy, g, now);
    ExaminedReleased(r, r', d.slot, keys, done, g, now);
  }

  lemma EmptiedIsHandled<K, T>(r: Rep<K, T>, d: Due, keys: map<K, Held<T>>, policy: Policy, g: Grid, now: int)
    requires ValidPolicy(policy) && Reached(g, now) && KeysInv(keys, policy, g, now) && IsExamined(r, d, g, now)
    requires var e := r.slab[d.slot].value; e.key in keys && keys[e.key].core == e.core
    requires IsEmpty(OnTick(r.slab[d.slot].value.core, g, now).core)
    ensures Handled(r.slab[d.slot].value.core, g, now)
  {
    var core := r.slab[d.slot].value.core;
    if Deadline(core, g.horizon).None? {
      IdleTick(core, policy, g, now);
    }
  }

  /** `r'` is `r` without the entry `d` and the key in its slot, which stood at `p` in the list. */
  ghost predicate IsReleased<K, T>(r: Rep<K, T>, r': Rep<K, T>, d: Due, p: nat) {
    && Live(r.slab, d.slot) && p < |r.lru|
    && AllLive(r'.slab, r'.lru) && r'.lru == KeyedState.Without(r.lru, p)
    && r'.index == r.index - {r.slab[d.slot].value.key} && r'.heap == r.heap - {d}
    && (forall i :: Live(r'.slab, i) ==> Live(r.slab, i) && i != d.slot && SameEntry(r'.slab[i].value, r.slab[i].value))
  }

  lemma ReleasedFacts<K, T>(r: Rep<K, T>, d: Due, p: nat, g: Grid, now: int)
    requires RepOk(r) && d in r.heap && IsCurrent(r, d) && p < |r.lru| && r.lru[p] == d.slot
    ensures RepOk(TickedRep(r, d, g, now)) && OneEntry(r, TickedRep(r, d, g, now), d.slot)
    ensures RepOk(RemoveRep(TickedRep(r, d, g, now), p))
    ensures IsReleased(r, RemoveRep(TickedRep(r, d, g, now), p), d, p)
  {
    TickedOk(r, d, g, now);
    var ticked := TickedRep(r, d, g, now);
    RemovedOk(ticked, p);
    ListIsLive(RemoveRep(ticked, p));
    RemovedIsReleased(r, ticked, RemoveRep(ticked, p), d, p);
  }

  lemma ListIsLive<K, T>(r: Rep<K, T>)
    requires Spelled(r.slab, r.lru)
    ensures AllLive(r.slab, r.lru)
  {
  }

  lemma RemovedIsReleased<K, T>(r: Rep<K, T>, ticked: Rep<K, T>, r': Rep<K, T>, d: Due, p: nat)
    requires OneEntry(r, ticked, d.slot) && p < |r.lru| && r.lru[p] == d.slot && ticked.heap == r.heap - {d}
    requires AllLive(r'.slab, r'.lru) && r' == RemoveRep(ticked, p)
    requires forall i :: Live(r'.slab, i) ==>
      Live(ticked.slab, i) && i != d.slot && SameEntry(r'.slab[i].value, ticked.slab[i].value)
    ensures IsReleased(r, r', d, p)
  {
  }

  lemma ReleaseKeepsEntries<K, T>(r: Rep<K, T>, r': Rep<K, T>, d: Due, p: nat, keys: map<K, Held<T>>, horizon: int)
    requires IsReleased(r, r', d, p) && EntriesOk(r, horizon) && OrderAgrees(r, keys)
    ensures EntriesOk(r', horizon) && OrderAgrees(r', keys)
  {
    forall i | Live(r'.slab, i) ensures EntryOk(r'.slab[i].value, horizon) {
      assert EntryOk(r.slab[i].value, horizon);
    }
    RemovalKeepsOrder(r, p, r', keys);
  }

  /** The key in `d.slot` is examined in this turn: `d` is its entry, and its deadline has not moved past `now`. */
  ghost predicate IsExamined<K, T>(r: Rep<K, T>, d: Due, g: Grid, now: int) {
    && IsCurrent(r, d)
    && var deadline := Deadline(r.slab[d.slot].value.core, g.horizon);
       !(deadline.Some? && now < deadline.value)
  }

  /** One turn of the loop of `expire`, from the least entry `d` to the next state and what is emitted. */
  ghost predicate Turned<K, T>(r: Rep<K, T>, r': Rep<K, T>, d: Due, emitted: seq<(K, Window<T>)>, g: Grid, now: int) {
    if !IsCurrent(r, d) then
      r' == PopRep(r, d) && emitted == []
    else if !IsExamined(r, d, g, now) then
      r' == Rescheduled(PopRep(r, d), d.slot, now, g.horizon) && emitted == []
    else
      var e := r.slab[d.slot].value;
      var step := OnTick(e.core, g, now);
      && emitted == Tagged(e.key, step.out)
      && if IsEmpty(step.core)
         then exists p: nat :: p < |r.lru| && r.lru[p] == d.slot && r' == RemoveRep(TickedRep(r, d, g, now), p)
         else r' == Rescheduled(TickedRep(r, d, g, now), d.slot, now, g.horizon)
  }

  /** A turn keeps the representation invariant, removes `d`, and adds nothing that is due: for any clock. */
  lemma TurnOk<K, T>(r: Rep<K, T>, r': Rep<K, T>, d: Due, emitted: seq<(K, Window<T>)>, g: Grid, now: int)
    requires RepOk(r) && d in r.heap && Turned(r, r', d, emitted, g, now)
    ensures RepOk(r')
    ensures forall e :: e in r'.heap ==> (e in r.heap && e != d) || now < e.deadline
  {
    if !IsExamined(r, d, g, now) {
      PoppedOk(r, d);
      RescheduledOk(PopRep(r, d), d.slot, now, g.horizon);
    } else {
      TickedOk(r, d, g, now);
      if IsEmpty(OnTick(r.slab[d.slot].value.core, g, now).core) {
        var p: nat :| p < |r.lru| && r.lru[p] == d.slot && r' == RemoveRep(TickedRep(r, d, g, now), p);
        ReleasedFacts(r, d, p, g, now);
      } else {
        RescheduledOk(TickedRep(r, d, g, now), d.slot, now, g.horizon);
      }
    }
  }

  ghost function DoneAfter<K, T>(r: Rep<K, T>, d: Due, done: set<K>, g: Grid, now: int): set<K> {
    if IsExamined(r, d, g, now) && Handled(r.slab[d.slot].value.core, g, now)
    then done + {r.slab[d.slot].value.key} else done
  }

  ghost function FiredAfter<K, T>(r: Rep<K, T>, d: Due, fired: seq<Due>, g: Grid, now: int): seq<Due> {
    if IsExamined(r, d, g, now) then FiredBy(fired, d, OnTick(r.slab[d.slot].value.core, g, now).out) else fired
  }

  lemma EmptiedIsDone<K, T>(
      r: Rep<K, T>, d: Due, keys: map<K, Held<T>>, done: set<K>, policy: Policy, g: Grid, now: int)
    requires RepOk(r) && EntriesOk(r, g.horizon) && Halfway(r, keys, done, g, now) && d in r.heap
    requires ValidPolicy(policy) && Reached(g, now) && KeysInv(keys, policy, g, now) && IsExamined(r, d, g, now)
    requires IsEmpty(OnTick(r.slab[d.slot].value.core, g, now).core)
    ensures DoneAfter(r, d, done, g, now) == done + {r.slab[d.slot].value.key}
  {
    PoppedIsScheduled(r, d, g.horizon);
    ExaminedIsNotDone(r, d.slot, keys, done, policy, g, now);
    EmptiedIsHandled(r, d, keys, policy, g, now);
  }

  lemma IdleIsNotDone<K, T>(
      r: Rep<K, T>, d: Due, keys: map<K, Held<T>>, done: set<K>, policy: Policy, g: Grid, now: int)
    requires RepOk(r) && EntriesOk(r, g.horizon) && Halfway(r, keys, done, g, now) && d in r.heap
    requires ValidPolicy(policy) && Reached(g, now) && KeysInv(keys, policy, g, now) && IsExamined(r, d, g, now)
    requires !IsDue(r.slab[d.slot].value.core, g.horizon, now)
    requires !IsEmpty(OnTick(r.slab[d.slot].value.core, g, now).core)
    ensures DoneAfter(r, d, done, g, now) == done
  {
    PoppedIsScheduled(r, d, g.horizon);
    ExaminedIsNotDone(r, d.slot, keys, done, policy, g, now);
    IdleTick(r.slab[d.slot].value.core, policy, g, now);
  }

  /** A turn keeps the agreement with the reference. */
  lemma TurnAgrees<K(!new), T>(
      r: Rep<K, T>, r': Rep<K, T>, d: Due, emitted: seq<(K, Window<T>)>, keys: map<K, Held<T>>, done: set<K>,
                               out: seq<(K, Window<T>)>, fired: seq<Due>, policy: Policy, g: Grid, now: int)
    requires RepOk(r) && Expiring(r, keys, done, out, fired, policy, g, now)
    requires ValidPolicy(policy) && Reached(g, now) && KeysInv(keys, policy, g, now)
    requires IsLeast(r.heap, d) && d.deadline <= now && Turned(r, r', d, emitted, g, now)
    ensures Expiring(r', keys, DoneAfter(r, d, done, g, now), out + emitted, FiredAfter(r, d, fired, g, now), policy,
      g, now)
  {
    hide RepOk, TickedRep, PopRep, Rescheduled, RemoveRep, IsReleased, Halfway, HalfwayOut, EntriesOk, OrderAgrees,
      FiredInOrder;
    if !IsExamined(r, d, g, now) {
      assert out + emitted == out;
      if IsCurrent(r, d) {
        TurnMoved(r, d, keys, done, out, fired, policy, g, now);
      } else {
        TurnStale(r, d, keys, done, out, fired, policy, g, now);
      }
    } else {
      PoppedIsScheduled(r, d, g.horizon);
      TickedOk(r, d, g, now);
      if IsEmpty(OnTick(r.slab[d.slot].value.core, g, now).core) {
        var p: nat :| p < |r.lru| && r.lru[p] == d.slot && r' == RemoveRep(TickedRep(r, d, g, now), p);
        ReleasedFacts(r, d, p, g, now);
        EmptiedIsDone(r, d, keys, done, policy, g, now);
        TurnReleased(r, r', d, p, keys, done, out, fired, policy, g, now);
      } else if IsDue(r.slab[d.slot].value.core, g.horizon, now) {
        TurnKept(r, r', d, keys, done, out, fired, policy, g, now);
      } else {
        IdleIsNotDone(r, d, keys, done, policy, g, now);
        TurnIdle(r, r', d, keys, done, out, fired, policy, g, now);
        assert out + emitted == out;
      }
    }
  }

  // ---------------------------------------------------------------- touch and evict

  ghost predicate InStep<K, T>(r: Rep<K, T>, keys: map<K, Held<T>>, horizon: int) {
    CoresAgree(r, keys) && OrderAgrees(r, keys) && EntriesOk(r, horizon)
  }

  lemma SameSize<K, T>(r: Rep<K, T>, keys: map<K, Held<T>>)
    requires RepOk(r) && CoresAgree(r, keys)
    ensures |r.index| == |keys| == |r.lru|
  {
    assert |keys| == |keys.Keys| && |r.index| == |r.index.Keys|;
  }

  /** The head of the list is the only key the reference could evict. */
  lemma HeadIsOldest<K, T>(r: Rep<K, T>, keys: map<K, Held<T>>, k: K)
    requires RepOk(r) && CoresAgree(r, keys) && OrderAgrees(r, keys) && IsOldest(keys, k)
    ensures r.lru != [] && Live(r.slab, r.head) && r.head == r.lru[0] && r.slab[r.head].value.key == k
  {
    var p := PositionOf(r, r.index[k]);
    assert LruKeys(r.slab, r.lru)[p] == k;
    assert Live(r.slab, r.lru[0]);
    assert p == 0;
  }

  lemma EvictionAgrees<K, T>(r: Rep<K, T>, keys: map<K, Held<T>>, horizon: int)
    requires RepOk(r) && InStep(r, keys, horizon) && r.lru != []
    ensures Live(r.slab, r.lru[0]) && RepOk(RemoveRep(r, 0))
    ensures InStep(RemoveRep(r, 0), keys - {KeyAt(r, 0)}, horizon)
  {
    hide RepOk, CoresAgree, EntriesOk, OrderAgrees;
    RemovedOk(r, 0);
    RepParts(RemoveRep(r, 0));
    EvictedCores(r, RemoveRep(r, 0), keys, KeyAt(r, 0), horizon);
    EvictedOrder(r, RemoveRep(r, 0), keys);
  }

  lemma EvictedCores<K, T>(r: Rep<K, T>, r': Rep<K, T>, keys: map<K, Held<T>>, key: K, horizon: int)
    requires CoresAgree(r, keys) && EntriesOk(r, horizon) && r'.index == r.index - {key} && IndexOk(r'.index, r'.slab)
    requires forall i :: Live(r'.slab, i) ==> Live(r.slab, i) && SameEntry(r'.slab[i].value, r.slab[i].value)
    requires forall k :: k in r'.index ==> r'.index[k] == r.index[k]
    ensures CoresAgree(r', keys - {key}) && EntriesOk(r', horizon)
  {
    forall i | Live(r'.slab, i) ensures EntryOk(r'.slab[i].value, horizon) {
      assert EntryOk(r.slab[i].value, horizon);
    }
    forall k | k in r'.index ensures Holds(r', k) && Holds(r, k) && CoreAt(r', k) == CoreAt(r, k) {
      assert Live(r'.slab, r'.index[k]);
    }
  }

  lemma EvictedOrder<K, T>(r: Rep<K, T>, r': Rep<K, T>, keys: map<K, Held<T>>)
    requires OrderAgrees(r, keys) && r.lru != [] && AllLive(r'.slab, r'.lru) && r'.lru == KeyedState.Without(r.lru, 0)
    requires forall i :: Live(r'.slab, i) ==> Live(r.slab, i) && SameEntry(r'.slab[i].value, r.slab[i].value)
    ensures OrderAgrees(r', keys - {LruKeys(r.slab, r.lru)[0]})
  {
    var ks, ks' := LruKeys(r.slab, r.lru), LruKeys(r'.slab, r'.lru);
    forall q | 0 <= q < |ks'| ensures ks'[q] == ks[q + 1] && ks[q + 1] != ks[0] {
      assert Live(r'.slab, r'.lru[q]) && r'.lru[q] == r.lru[q + 1];
    }
  }

  lemma SlotOfKey<K, T>(r: Rep<K, T>, key: K)
    requires RepOk(r) && key in r.index
    ensures Live(r.slab, r.index[key]) && r.slab[r.index[key]].value.key == key
  {
  }

  lemma UnlinkedKeepsLive<K, T>(r: Rep<K, T>, p: nat)
    requires RepOk(r) && p < |r.lru|
    ensures Spelled(r.slab, r.lru) && Live(UnlinkRep(r, p).slab, r.lru[p])
  {
    UnlinkedOk(r, p);
  }

  lemma SizeFacts<K, T>(r: Rep<K, T>)
    requires RepOk(r)
    ensures |r.lru| == |r.index| <= r.peak
  {
  }

  lemma RemovedSize<K, T>(r: Rep<K, T>)
    requires RepOk(r) && r.lru != []
    ensures Live(r.slab, r.lru[0]) && |RemoveRep(r, 0).index| == |r.index| - 1
  {
    RemovedOk(r, 0);
  }

  lemma InsertedSlot<K, T>(r: Rep<K, T>, key: K, policy: Policy)
    requires RepOk(r) && key !in r.index
    ensures NewSlot(r) <= |r.slab| && (r.free != [] ==> NewSlot(r) < |r.slab|)
    ensures var r' := InsertRep(r, key, policy);
            && Live(r'.slab, NewSlot(r)) && r'.slab[NewSlot(r)].value.key == key
              && r'.peak == Max(r.peak, |r.index| + 1)
  {
    FilledOk(r, key, policy);
    InsertedOk(r, key, policy);
    assert Live(FilledRep(r, key, policy).slab, NewSlot(r));
  }

  /** The head of the list is evicted, and it is the reference's victim. */
  lemma EvictionIsVictim<K(!new), T>(
      r: Rep<K, T>, keys: map<K, Held<T>>, maxKeys: nat, key: K, horizon: int, out: seq<(K, Window<T>)>, g: Grid,
      now: int)
    requires RepOk(r) && InStep(r, keys, horizon) && key !in r.index && |r.index| >= maxKeys >= 1
    requires r.lru != [] && Live(r.slab, r.lru[0])
    requires out == Tagged(KeyAt(r, 0), OnFlush(r.slab[r.lru[0]].value.core, g, now).out)
    ensures var victim := Victim(keys, maxKeys, key);
            && InStep(RemoveRep(r, 0), NaiveKeyed.Without(keys, victim), horizon)
            && (forall k :: Proj(out, k) == if victim == Some(k) then OnFlush(keys[k].core, g, now).out else [])
  {
    hide RepOk, EntriesOk, OrderAgrees, OnFlush;
    SameSize(r, keys);
    EvictionAgrees(r, keys, horizon);
    var victim := Victim(keys, maxKeys, key).value;
    HeadIsOldest(r, keys, victim);
    SlotOfKey(r, victim);
    SlotIsIndexed(r, r.lru[0]);
    forall k ensures Proj(out, k) == if victim == k then OnFlush(keys[victim].core, g, now).out else [] {
      ProjTagged(victim, OnFlush(keys[victim].core, g, now).out, k);
    }
  }

  lemma SlotIsIndexed<K, T>(r: Rep<K, T>, slot: int)
    requires RepOk(r) && Live(r.slab, slot)
    ensures r.slab[slot].value.key in r.index && r.index[r.slab[slot].value.key] == slot
  {
  }

  lemma TailPosition<K, T>(r: Rep<K, T>, p: nat)
    requires RepOk(r) && p < |r.lru|
    ensures r.lru[p] == r.tail <==> p == |r.lru| - 1
  {
  }

  lemma RepParts<K, T>(r: Rep<K, T>)
    requires RepOk(r)
    ensures IndexOk(r.index, r.slab) && AllLive(r.slab, r.lru) && TicketsDiffer(r.heap)
  {
    ListIsLive(r);
  }

  /** `slot` holds `key` with its core, and all other keys are in step with `kept`. */
  ghost predicate ReadyCores<K, T>(
      r: Rep<K, T>, slot: nat, kept: map<K, Held<T>>, key: K, policy: Policy, horizon: int) {
    && Live(r.slab, slot) && r.slab[slot].value.key == key
    && r.slab[slot].value.core == CoreOf(kept, policy, key)
    && r.index.Keys == kept.Keys + {key} && r.index[key] == slot
    && (forall k :: k in kept ==> Holds(r, k) && CoreAt(r, k) == kept[k].core)
    && EntriesOk(r, horizon)
  }

  /** `key` is at the end of the list, the others before it in the order of their last items. */
  ghost predicate ReadyOrder<K, T>(r: Rep<K, T>, ks: seq<K>, kept: map<K, Held<T>>, key: K) {
    AllLive(r.slab, r.lru) && LruKeys(r.slab, r.lru) == ks + [key] && InOrder(ks, kept) && key !in ks
  }

  lemma LinksKeepCores<K, T>(r: Rep<K, T>, r': Rep<K, T>, keys: map<K, Held<T>>, horizon: int)
    requires CoresAgree(r, keys) && EntriesOk(r, horizon) && r'.index == r.index && SameButLinks(r.slab, r'.slab)
    ensures CoresAgree(r', keys) && EntriesOk(r', horizon)
  {
    forall i | Live(r'.slab, i) ensures EntryOk(r'.slab[i].value, horizon) {
      assert Live(r.slab, i) && EntryOk(r.slab[i].value, horizon);
    }
    forall k | k in keys ensures Holds(r', k) && CoreAt(r', k) == keys[k].core {
      assert Holds(r, k);
    }
  }

  lemma HeldIsReady<K, T>(r: Rep<K, T>, keys: map<K, Held<T>>, key: K, policy: Policy, horizon: int)
    requires CoresAgree(r, keys) && EntriesOk(r, horizon) && key in r.index && IndexOk(r.index, r.slab)
    ensures ReadyCores(r, r.index[key], keys, key, policy, horizon)
  {
    assert keys.Keys + {key} == keys.Keys;
    assert Holds(r, key);
  }

  /** A held key that is already at the end of the list. */
  lemma LastIsReady<K, T>(r: Rep<K, T>, keys: map<K, Held<T>>, key: K)
    requires RepOk(r) && OrderAgrees(r, keys) && key in r.index && r.index[key] == r.tail
    ensures |r.lru| > 0 && ReadyOrder(r, Dropped(LruKeys(r.slab, r.lru), |r.lru| - 1), keys, key)
  {
    TailIsLast(r, key);
    hide RepOk;
    LastKeyIsReady(LruKeys(r.slab, r.lru), keys, key);
  }

  lemma TailIsLast<K, T>(r: Rep<K, T>, key: K)
    requires RepOk(r) && key in r.index && r.index[key] == r.tail
    ensures |r.lru| > 0 && Live(r.slab, r.lru[|r.lru| - 1]) && KeyAt(r, |r.lru| - 1) == key
  {
    assert Live(r.slab, r.index[key]) && r.index[key] in r.lru;
  }

  lemma LastKeyIsReady<K, T>(ks: seq<K>, keys: map<K, Held<T>>, key: K)
    requires InOrder(ks, keys) && ks != [] && ks[|ks| - 1] == key
    ensures ks == Dropped(ks, |ks| - 1) + [key] && InOrder(Dropped(ks, |ks| - 1), keys) && key !in Dropped(ks, |ks| - 1)
  {
    DroppedInOrder(ks, |ks| - 1, keys);
  }

  function Dropped<K>(ks: seq<K>, p: nat): seq<K>
    requires p < |ks|
  {
    ks[..p] + ks[p + 1..]
  }

  lemma KeysTouched<K, T>(r: Rep<K, T>, r': Rep<K, T>, p: nat)
    requires AllLive(r.slab, r.lru) && p < |r.lru| && SameButLinks(r.slab, r'.slab)
    requires r'.lru == KeyedState.Without(r.lru, p) + [r.lru[p]]
    ensures AllLive(r'.slab, r'.lru)
    ensures LruKeys(r'.slab, r'.lru) == Dropped(LruKeys(r.slab, r.lru), p) + [LruKeys(r.slab, r.lru)[p]]
  {
    var ks := Dropped(LruKeys(r.slab, r.lru), p) + [LruKeys(r.slab, r.lru)[p]];
    forall q | 0 <= q < |r'.lru| ensures Live(r'.slab, r'.lru[q]) && r'.slab[r'.lru[q]].value.key == ks[q] {
      var o := if q < p then q else if q < |r.lru| - 1 then q + 1 else p;
      assert r'.lru[q] == r.lru[o] && Live(r.slab, r.lru[o]);
    }
  }

  lemma DroppedInOrder<K, T>(ks: seq<K>, p: nat, keys: map<K, Held<T>>)
    requires InOrder(ks, keys) && p < |ks|
    ensures InOrder(Dropped(ks, p), keys) && ks[p] !in Dropped(ks, p)
  {
  }

  /** A held key that moves to the end of the list. */
  lemma TouchedIsReady<K, T>(r: Rep<K, T>, p: nat, keys: map<K, Held<T>>, key: K)
    requires RepOk(r) && OrderAgrees(r, keys) && key in r.index && p < |r.lru| && r.lru[p] == r.index[key]
    ensures RepOk(TouchRep(r, p)) && SameButLinks(r.slab, TouchRep(r, p).slab)
    ensures ReadyOrder(TouchRep(r, p), Dropped(LruKeys(r.slab, r.lru), p), keys, key)
  {
    TouchedOk(r, p);
    KeysTouched(r, TouchRep(r, p), p);
    DroppedInOrder(LruKeys(r.slab, r.lru), p, keys);
  }

  lemma KeysInserted<K, T>(r: Rep<K, T>, r': Rep<K, T>, f: Slab<K, T>, slot: nat, key: K)
    requires AllLive(r.slab, r.lru) && SameButLinks(f, r'.slab) && r'.lru == r.lru + [slot]
    requires Live(f, slot) && f[slot].value.key == key
    requires forall i :: Live(r.slab, i) ==> i < |f| && f[i] == r.slab[i]
    ensures AllLive(r'.slab, r'.lru) && LruKeys(r'.slab, r'.lru) == LruKeys(r.slab, r.lru) + [key]
  {
    var ks := LruKeys(r.slab, r.lru) + [key];
    forall q | 0 <= q < |r'.lru| ensures Live(r'.slab, r'.lru[q]) && r'.slab[r'.lru[q]].value.key == ks[q] {
      assert q < |r.lru| ==> Live(r.slab, r.lru[q]) && r'.lru[q] == r.lru[q];
      assert Live(f, r'.lru[q]);
    }
  }

  /** A new key. */
  lemma InsertedOrder<K, T>(r: Rep<K, T>, keys: map<K, Held<T>>, policy: Policy, key: K)
    requires RepOk(r) && OrderAgrees(r, keys) && key !in r.index
    ensures NewSlot(r) <= |r.slab| && RepOk(InsertRep(r, key, policy))
    ensures ReadyOrder(InsertRep(r, key, policy), LruKeys(r.slab, r.lru), keys, key)
  {
    FilledOk(r, key, policy);
    InsertedOk(r, key, policy);
    NewKeyIsNotListed(r, key);
    hide RepOk;
    KeysInserted(r, InsertRep(r, key, policy), FilledRep(r, key, policy).slab, NewSlot(r), key);
  }

  lemma NewKeyIsNotListed<K, T>(r: Rep<K, T>, key: K)
    requires RepOk(r) && key !in r.index
    ensures AllLive(r.slab, r.lru) && key !in LruKeys(r.slab, r.lru)
  {
    ListIsLive(r);
    var ks := LruKeys(r.slab, r.lru);
    forall q | 0 <= q < |ks| ensures ks[q] != key {
      assert Live(r.slab, r.lru[q]);
    }
  }

  lemma InsertedCores<K, T>(r: Rep<K, T>, keys: map<K, Held<T>>, policy: Policy, horizon: int, key: K)
    requires RepOk(r) && CoresAgree(r, keys) && EntriesOk(r, horizon) && key !in r.index
    ensures NewSlot(r) <= |r.slab|
    ensures ReadyCores(InsertRep(r, key, policy), NewSlot(r), keys, key, policy, horizon)
  {
    FilledOk(r, key, policy);
    InsertedOk(r, key, policy);
    NewEntryIsReady(r, FilledRep(r, key, policy).slab, InsertRep(r, key, policy), NewSlot(r), keys, policy, horizon,
      key);
  }

  lemma NewEntryIsReady<K, T>(
      r: Rep<K, T>, f: Slab<K, T>, r': Rep<K, T>, slot: nat, keys: map<K, Held<T>>, policy: Policy, horizon: int,
      key: K)
    requires CoresAgree(r, keys) && EntriesOk(r, horizon) && key !in r.index
    requires r'.index == r.index[key := slot] && SameButLinks(f, r'.slab)
    requires slot < |f| && f[slot] == Some(NewEntry(key, policy, r.seqNo + 1))
    requires forall i :: Live(f, i) <==> Live(r.slab, i) || i == slot
    requires forall i :: Live(r.slab, i) ==> i != slot && f[i] == r.slab[i]
    ensures ReadyCores(r', slot, keys, key, policy, horizon)
  {
    forall i | Live(r'.slab, i) ensures EntryOk(r'.slab[i].value, horizon) {
      assert Live(f, i);
      assert i != slot ==> EntryOk(r.slab[i].value, horizon);
    }
    forall k | k in keys ensures Holds(r', k) && CoreAt(r', k) == keys[k].core {
      assert Holds(r, k) && Live(f, r.index[k]);
    }
  }

  // ---------------------------------------------------------------- the item

  lemma ItemCores<K, T>(
      r: Rep<K, T>, r': Rep<K, T>, slot: nat, kept: map<K, Held<T>>, key: K, policy: Policy, horizon: int,
      held: Held<T>)
    requires IndexOk(r.index, r.slab) && ReadyCores(r, slot, kept, key, policy, horizon)
    requires OneEntry(r, r', slot) && r'.slab[slot].value.core == held.core
    ensures CoresAgree(r', kept[key := held])
  {
    var keys := kept[key := held];
    assert keys.Keys == kept.Keys + {key};
    forall k | k in keys ensures Holds(r', k) && CoreAt(r', k) == keys[k].core {
      if k != key {
        assert Holds(r, k) && r.slab[r.index[k]].value.key == k;
      }
    }
  }

  lemma ItemOrder<K, T>(
      r: Rep<K, T>, r': Rep<K, T>, slot: nat, ks: seq<K>, kept: map<K, Held<T>>, key: K, held: Held<T>)
    requires ReadyOrder(r, ks, kept, key) && OneEntry(r, r', slot)
    requires forall k :: k in kept ==> kept[k].touched < held.touched
    ensures OrderAgrees(r', kept[key := held])
  {
    assert LruKeys(r'.slab, r'.lru) == LruKeys(r.slab, r.lru);
    assert forall q :: 0 <= q < |ks| ==> (ks + [key])[q] == ks[q] && ks[q] != key;
  }

  /** An entry that was scheduled as it should be may be scheduled again after an item. */
  lemma ItemIsSchedulable<K, T(!new)>(e: KeyEntry<K, T>, policy: Policy, cap: nat, g: Grid, now: int, item: T)
    requires EntryOk(e, g.horizon) && CoreInv(e.core, policy, g, now) && !IsDue(e.core, g.horizon, now)
    requires ValidPolicy(policy) && Reached(g, now)
    ensures Schedulable(e.(core := OnItem(e.core, cap, g, now, item).core), g.horizon, now)
  {
    ItemLeavesNothingDue(e.core, policy, cap, g, now, item);
    match e.core
    case SlidingCore(_, _, _) => SlidingDeadlineSurvives(e.core, policy, cap, g, now, item);
    case TumblingCore(_, _, _) =>
      if Deadline(e.core, g.horizon).Some? {
        TumblingDeadlineSurvives(e.core, cap, g, now, item);
      }
    case SessionCore(_, _, _, _) =>
  }

  lemma TumblingDeadlineSurvives<T>(core: Core<T>, cap: nat, g: Grid, now: int, item: T)
    requires core.TumblingCore? && !IsDue(core, g.horizon, now) && Deadline(core, g.horizon).Some?
    ensures Deadline(TumblingItem(core, cap, g, now, item).core, g.horizon) == Deadline(core, g.horizon)
  {
  }

  lemma SlidingDeadlineSurvives<T(!new)>(core: Core<T>, policy: Policy, cap: nat, g: Grid, now: int, item: T)
    requires core.SlidingCore? && CoreInv(core, policy, g, now) && !IsDue(core, g.horizon, now)
    requires ValidPolicy(policy) && Reached(g, now)
    ensures Deadline(core, g.horizon).Some? ==> Deadline(SlidingItem(core, cap, g, now, item).core, g.horizon).Some?
  {
    if core.slots != [] && core.slots[0].end.Some? {
      var size, slide, open := core.size, core.slide, DropBefore(core.slots, KMin(g, now, core.size, core.slide));
      var a := Arrival(cap, now, item, FreshSlots(size, slide, g, now));
      assert open == core.slots by {
        DueSlots(g, now, size, slide, core.slots[0].k);
      }
      FrontStaysInFront(open, KMin(g, now, size, slide), KMax(g, now, slide), a);
      var placed := SlidingItem(core, cap, g, now, item).core.slots;
      assert SlotsInv(placed, size, slide, g, now) by {
        ItemEmitsDueSlotsFirst(core, cap, g, now, item);
      }
      EarlierEndsEarlier(placed[0], core.slots[0], size, slide, g);
    }
  }

  lemma EarlierEndsEarlier<T>(a: Slot<T>, b: Slot<T>, size: nat, slide: nat, g: Grid)
    requires SlotOk(a, size, slide, g) && SlotOk(b, size, slide, g) && a.k <= b.k && b.end.Some?
    ensures a.end.Some?
  {
    MulMonotone(a.k, b.k, slide);
  }

  lemma {:induction false} FrontOne<T>(slots: seq<Slot<T>>, k: nat, a: Arrival<T>)
    requires slots != []
    requires a.create(k).k == k
    ensures PlaceOne(slots, k, a).slots != [] && PlaceOne(slots, k, a).slots[0].k <= slots[0].k
  {
  }

  lemma {:induction false} FrontStaysInFront<T>(slots: seq<Slot<T>>, k: nat, kMax: nat, a: Arrival<T>)
    requires slots != [] && forall j: nat :: a.create(j).k == j
    ensures Place(slots, k, kMax, a).slots != [] && Place(slots, k, kMax, a).slots[0].k <= slots[0].k
    decreases if k <= kMax then kMax + 1 - k else 0
  {
    if k <= kMax {
      FrontOne(slots, k, a);
      FrontStaysInFront(PlaceOne(slots, k, a).slots, k + 1, kMax, a);
    }
  }

  /** The state after the item and `schedule`. */
  ghost function ItemRep<K, T>(r: Rep<K, T>, slot: nat, core: Core<T>, now: int, horizon: int): Rep<K, T>
    requires Live(r.slab, slot)
  {
    Rescheduled(SetCoreRep(r, slot, core), slot, now, horizon)
  }

  lemma ItemRepOk<K, T>(r: Rep<K, T>, slot: nat, core: Core<T>, now: int, horizon: int)
    requires RepOk(r) && Live(r.slab, slot)
    ensures RepOk(ItemRep(r, slot, core, now, horizon)) && OneEntry(r, ItemRep(r, slot, core, now, horizon), slot)
    ensures ItemRep(r, slot, core, now, horizon).slab[slot].value.core == core
  {
    CoreSetOk(r, slot, core);
    RescheduledOk(SetCoreRep(r, slot, core), slot, now, horizon);
  }

  /** After the item and `schedule` the state is in step with the reference again. */
  lemma ItemKeepsStep<K, T(!new)>(
      r: Rep<K, T>, slot: nat, ks: seq<K>, kept: map<K, Held<T>>, key: K, s: Keyed<K, T>, g: Grid, now: int,
      item: T, seqNo: nat)
    requires RepOk(r) && ReadyCores(r, slot, kept, key, s.c.policy, g.horizon) && ReadyOrder(r, ks, kept, key)
    requires ValidPolicy(s.c.policy) && Reached(g, now)
    requires forall k :: k in kept ==> kept[k].touched <= seqNo
    requires CoreInv(CoreOf(kept, s.c.policy, key), s.c.policy, g, now)
    requires !IsDue(CoreOf(kept, s.c.policy, key), g.horizon, now)
    ensures var core := OnItem(r.slab[slot].value.core, s.c.cap, g, now, item).core;
            InStep(ItemRep(r, slot, core, now, g.horizon), kept[key := Held(core, seqNo + 1)], g.horizon)
  {
    ReadyCore(r, slot, kept, key, s.c.policy, g.horizon);
    ReadyEntries(r, slot, kept, key, s.c.policy, g.horizon);
    assert 0 <= slot < |r.slab| && r.slab[slot].Some?;
    hide *;
    RepParts(r);
    var core := OnItem(r.slab[slot].value.core, s.c.cap, g, now, item).core;
    var held, r' := Held(core, seqNo + 1), ItemRep(r, slot, core, now, g.horizon);
    ItemRepOk(r, slot, core, now, g.horizon);
    ItemCores(r, r', slot, kept, key, s.c.policy, g.horizon, held);
    ItemOrder(r, r', slot, ks, kept, key, held);
    ItemEntry(r, slot, s.c.policy, s.c.cap, g, now, item);
    OneEntryOk(r, r', slot, g.horizon);
  }

  lemma ItemEntry<K, T(!new)>(r: Rep<K, T>, slot: nat, policy: Policy, cap: nat, g: Grid, now: int, item: T)
    requires Live(r.slab, slot) && EntryOk(r.slab[slot].value, g.horizon)
    requires ValidPolicy(policy) && Reached(g, now)
    requires CoreInv(r.slab[slot].value.core, policy, g, now) && !IsDue(r.slab[slot].value.core, g.horizon, now)
    ensures var r' := ItemRep(r, slot, OnItem(r.slab[slot].value.core, cap, g, now, item).core, now, g.horizon);
            Live(r'.slab, slot) && EntryOk(r'.slab[slot].value, g.horizon)
  {
    var core := OnItem(r.slab[slot].value.core, cap, g, now, item).core;
    ItemIsSchedulable(r.slab[slot].value, policy, cap, g, now, item);
    RescheduledEntryOk(SetCoreRep(r, slot, core), slot, now, g.horizon);
  }

  // ---------------------------------------------------------------- flush

  /** Entries in the order of first appearance. */
  predicate Ascending<K, T>(es: seq<KeyEntry<K, T>>) {
    forall i, j :: 0 <= i < j < |es| ==> es[i].created < es[j].created
  }

  predicate Fresh<K, T>(es: seq<KeyEntry<K, T>>, e: KeyEntry<K, T>) {
    forall i :: 0 <= i < |es| ==> es[i].created != e.created
  }

  function InsertByCreated<K(!new), T(!new)>(es: seq<KeyEntry<K, T>>, e: KeyEntry<K, T>): (r: seq<KeyEntry<K, T>>)
    requires Ascending(es) && Fresh(es, e)
    ensures Ascending(r) && forall x :: x in r <==> x in es || x == e
  {
    if es == [] || es[|es| - 1].created < e.created then es + [e]
    else
      var last, before := es[|es| - 1], es[..|es| - 1];
      var r := InsertByCreated(before, e);
      assert forall i :: 0 <= i < |r| ==> r[i] in r;
      assert forall x :: x in before ==> x.created < last.created;
      assert es == before + [last];
      r + [last]
  }

  /** `sort_by_key(|e| e.created)`; no two entries of a stage have the same number. */
  function SortByCreated<K(!new), T(!new)>(es: seq<KeyEntry<K, T>>): (r: seq<KeyEntry<K, T>>)
    requires forall i, j :: 0 <= i < j < |es| ==> es[i].created != es[j].created
    ensures Ascending(r) && forall x :: x in r <==> x in es
  {
    if es == [] then []
    else
      var last, before := es[|es| - 1], es[..|es| - 1];
      var r := SortByCreated(before);
      assert forall i :: 0 <= i < |r| ==> r[i] in before;
      assert es == before + [last];
      InsertByCreated(r, last)
  }

  function FlushEntries<K, T>(es: seq<KeyEntry<K, T>>, g: Grid, now: int): seq<(K, Window<T>)> {
    if es == [] then []
    else
      var last := es[|es| - 1];
      FlushEntries(es[..|es| - 1], g, now) + Tagged(last.key, OnFlush(last.core, g, now).out)
  }

  lemma {:induction false} FlushSeenByKey<K, T>(es: seq<KeyEntry<K, T>>, g: Grid, now: int, k: K, i: nat)
    requires forall p, q :: 0 <= p < q < |es| ==> es[p].key != es[q].key
    ensures i < |es| && es[i].key == k ==> Proj(FlushEntries(es, g, now), k) == OnFlush(es[i].core, g, now).out
    ensures (forall p :: 0 <= p < |es| ==> es[p].key != k) ==> Proj(FlushEntries(es, g, now), k) == []
  {
    hide OnFlush;
    if es != [] {
      var last, before := es[|es| - 1], es[..|es| - 1];
      FlushSeenByKey(before, g, now, k, i);
      ProjOfMore(FlushEntries(before, g, now), last.key, OnFlush(last.core, g, now).out, k);
      if last.key == k {
        assert forall p :: 0 <= p < |before| ==> before[p].key != k;
      }
    }
  }

  /** `es` lists the entries of all live cells. */
  ghost predicate ListsLive<K(!new), T(!new)>(slab: Slab<K, T>, es: seq<KeyEntry<K, T>>) {
    forall e :: e in es <==> exists i :: Live(slab, i) && slab[i].value == e
  }

  lemma SameEntriesListed<K(!new), T(!new)>(slab: Slab<K, T>, es: seq<KeyEntry<K, T>>, es': seq<KeyEntry<K, T>>)
    requires ListsLive(slab, es) && forall x :: x in es' <==> x in es
    ensures ListsLive(slab, es')
  {
  }

  /** Different entries have different keys. */
  lemma AscendingKeysDiffer<K(!new), T(!new)>(r: Rep<K, T>, es: seq<KeyEntry<K, T>>)
    requires IndexOk(r.index, r.slab) && ListsLive(r.slab, es) && Ascending(es)
    ensures forall p, q :: 0 <= p < q < |es| ==> es[p].key != es[q].key
  {
    forall p, q | 0 <= p < q < |es| ensures es[p].key != es[q].key {
      assert es[p] in es && es[q] in es;
      var i :| Live(r.slab, i) && r.slab[i].value == es[p];
      var j :| Live(r.slab, j) && r.slab[j].value == es[q];
      assert r.index[es[p].key] == i && r.index[es[q].key] == j;
    }
  }

  /** Each key sees its own flush. */
  lemma FlushAgrees<K(!new), T(!new)>(
      r: Rep<K, T>, keys: map<K, Held<T>>, es: seq<KeyEntry<K, T>>, g: Grid, now: int, k: K)
    requires IndexOk(r.index, r.slab) && CoresAgree(r, keys) && ListsLive(r.slab, es) && Ascending(es)
    ensures Proj(FlushEntries(es, g, now), k) == if k in keys then OnFlush(keys[k].core, g, now).out else []
  {
    AscendingKeysDiffer(r, es);
    if k in keys {
      assert Holds(r, k);
      var e := r.slab[r.index[k]].value;
      assert e in es;
      var p: nat :| p < |es| && es[p] == e;
      FlushSeenByKey(es, g, now, k, p);
    } else {
      forall p | 0 <= p < |es| ensures es[p].key != k {
        assert es[p] in es;
        var i :| Live(r.slab, i) && r.slab[i].value == es[p];
        assert es[p].key in r.index;
      }
      FlushSeenByKey(es, g, now, k, 0);
    }
  }

  // ---------------------------------------------------------------- a whole item

  lemma KeysInvLater<K, T>(keys: map<K, Held<T>>, policy: Policy, g: Grid, t: int, u: int)
    requires KeysInv(keys, policy, g, t) && t <= u
    ensures KeysInv(keys, policy, g, u)
  {
  }

  /** When an item or a tick comes in time, state and reference agree at that instant. */
  lemma StartOfItem<K, T>(r: Rep<K, T>, n: Naive<K, T>, s: Keyed<K, T>, g: Grid, now: int)
    requires ValidPolicy(s.c.policy) && now <= s.c.horizon && g == GridOf(s.c, n, now)
    requires InStep(r, n.keys, s.c.horizon)
    requires exists t :: NaiveInv(s.c, n, t) && (n.anchor.Some? ==> t <= now)
    ensures Agrees(r, n.keys, s.c.policy, g, now)
  {
    var t :| NaiveInv(s.c, n, t) && (n.anchor.Some? ==> t <= now);
    OriginIsBefore(s.c, now);
    if n.anchor.Some? {
      KeysInvLater(n.keys, s.c.policy, g, t, now);
    }
  }

  /** What the reference holds after the expiry of an item's event, and after making room for its key. */
  ghost function KeptFor<K(!new), T>(s: Keyed<K, T>, ticked: map<K, Held<T>>, key: K): map<K, Held<T>> {
    NaiveKeyed.Without(ticked, Victim(ticked, s.maxKeys, key))
  }

  /** The key's core before its item is sound and not due. */
  lemma KeptCoreOk<K(!new), T>(s: Keyed<K, T>, keys: map<K, Held<T>>, g: Grid, now: int, key: K, seqNo: nat)
    requires ValidPolicy(s.c.policy) && Reached(g, now) && KeysInv(keys, s.c.policy, g, now)
    requires forall k :: k in keys ==> keys[k].touched <= seqNo
    ensures var kept := KeptFor(s, TickAll(keys, g, now), key);
            && CoreInv(CoreOf(kept, s.c.policy, key), s.c.policy, g, now)
            && !IsDue(CoreOf(kept, s.c.policy, key), g.horizon, now)
            && (forall k :: k in kept ==> kept[k].touched <= seqNo)
            && KeysInv(kept, s.c.policy, g, now)
  {
    hide CoreInv, Survives, Examined;
    TickAllKeepsInv(keys, s.c.policy, g, now);
    NewCoreOk<T>(s.c.policy, g, now);
  }

  lemma NewCoreOk<T>(policy: Policy, g: Grid, now: int)
    ensures CoreInv(NewCore<T>(policy), policy, g, now) && !IsDue(NewCore<T>(policy), g.horizon, now)
  {
  }

  lemma NextByKept<K(!new), T>(s: Keyed<K, T>, n: Naive<K, T>, g: Grid, now: int, item: T)
    requires g == GridOf(s.c, n, now)
    ensures var kept := KeptFor(s, TickAll(n.keys, g, now), s.key(item));
            var core := OnItem(CoreOf(kept, s.c.policy, s.key(item)), s.c.cap, g, now, item).core;
            Next(s, n, Item(now, item))
              == Naive(Some(g.anchor), kept[s.key(item) := Held(core, n.seqNo + 1)], n.seqNo + 1)
  {
    hide OnItem, TickAll, Victim;
  }

  /** After the item the reference is sound ... */
  lemma ItemKeepsNaive<K(!new), T(!new)>(n: Naive<K, T>, s: Keyed<K, T>, g: Grid, now: int, item: T)
    requires ValidPolicy(s.c.policy) && Reached(g, now) && g == GridOf(s.c, n, now)
    requires KeysInv(n.keys, s.c.policy, g, now) && forall k :: k in n.keys ==> n.keys[k].touched <= n.seqNo
    ensures var n' := Next(s, n, Item(now, item));
            NaiveInv(s.c, n', now) && forall k :: k in n'.keys ==> n'.keys[k].touched <= n'.seqNo
  {
    var key := s.key(item);
    var kept := KeptFor(s, TickAll(n.keys, g, now), key);
    NextByKept(s, n, g, now, item);
    KeptCoreOk(s, n.keys, g, now, key, n.seqNo);
    hide OnItem, CoreInv, TickAll, Next, KeptFor;
    ItemEmitsPendingFirst(CoreOf(kept, s.c.policy, key), s.c.policy, s.c.cap, g, now, item);
  }

  /** ... and the state is in step with it. */
  lemma EndOfItem<K(!new), T(!new)>(
      r: Rep<K, T>, slot: nat, ks: seq<K>, kept: map<K, Held<T>>, n: Naive<K, T>, s: Keyed<K, T>, g: Grid, now: int,
      item: T)
    requires ValidPolicy(s.c.policy) && Reached(g, now) && g == GridOf(s.c, n, now)
    requires KeysInv(n.keys, s.c.policy, g, now) && forall k :: k in n.keys ==> n.keys[k].touched <= n.seqNo
    requires kept == KeptFor(s, TickAll(n.keys, g, now), s.key(item))
    requires RepOk(r) && ReadyCores(r, slot, kept, s.key(item), s.c.policy, g.horizon)
    requires ReadyOrder(r, ks, kept, s.key(item))
    ensures var core := OnItem(r.slab[slot].value.core, s.c.cap, g, now, item).core;
            InStep(ItemRep(r, slot, core, now, g.horizon), Next(s, n, Item(now, item)).keys, g.horizon)
  {
    hide *;
    KeptCoreOk(s, n.keys, g, now, s.key(item), n.seqNo);
    ItemKeepsStep(r, slot, ks, kept, s.key(item), s, g, now, item, n.seqNo);
    NextByKept(s, n, g, now, item);
    ReadyCore(r, slot, kept, s.key(item), s.c.policy, g.horizon);
  }

  lemma ReadyEntries<K, T>(r: Rep<K, T>, slot: nat, kept: map<K, Held<T>>, key: K, policy: Policy, horizon: int)
    requires ReadyCores(r, slot, kept, key, policy, horizon)
    ensures EntriesOk(r, horizon) && EntryOk(r.slab[slot].value, horizon)
  {
  }

  lemma ReadyCore<K, T>(r: Rep<K, T>, slot: nat, kept: map<K, Held<T>>, key: K, policy: Policy, horizon: int)
    requires ReadyCores(r, slot, kept, key, policy, horizon)
    ensures Live(r.slab, slot) && r.slab[slot].value.core == CoreOf(kept, policy, key)
  {
  }

  /** What a key sees of an item's event, part by part. */
  lemma ItemSeenByKey<K(!new), T>(s: Keyed<K, T>, n: Naive<K, T>, g: Grid, now: int, item: T,
                                  expired: seq<(K, Window<T>)>, evicted: seq<(K, Window<T>)>, core: Core<T>, k: K)
    requires g == GridOf(s.c, n, now)
    requires core == CoreOf(KeptFor(s, TickAll(n.keys, g, now), s.key(item)), s.c.policy, s.key(item))
    requires Proj(expired, k) == TickOut(n.keys, g, now, k)
    requires var ticked := TickAll(n.keys, g, now);
             var victim := Victim(ticked, s.maxKeys, s.key(item));
             Proj(evicted, k) == if victim == Some(k) then OnFlush(ticked[k].core, g, now).out else []
    ensures Proj(expired + (evicted + Tagged(s.key(item), OnItem(core, s.c.cap, g, now, item).out)), k)
      == Out(s, n, Item(now, item), k)
  {
    hide OnItem, OnFlush, TickAll, TickOut;
    var ws := OnItem(core, s.c.cap, g, now, item).out;
    ProjAppends(expired, evicted + Tagged(s.key(item), ws), k);
    ProjAppends(evicted, Tagged(s.key(item), ws), k);
    ProjTagged(s.key(item), ws, k);
    Assoc(Proj(expired, k), Proj(evicted, k), if s.key(item) == k then ws else []);
  }

  // ---------------------------------------------------------------- ticks and flushes

  lemma TickStep<K, T>(n: Naive<K, T>, s: Keyed<K, T>, g: Grid, now: int)
    requires ValidPolicy(s.c.policy) && Reached(g, now) && n.anchor == Some(g.anchor) && g.horizon == s.c.horizon
    requires KeysInv(n.keys, s.c.policy, g, now) && forall k :: k in n.keys ==> n.keys[k].touched <= n.seqNo
    ensures var n' := Next(s, n, Event<T>.Tick(now));
            && n' == n.(keys := TickAll(n.keys, g, now)) && NaiveInv(s.c, n', now)
            && (forall k :: k in n'.keys ==> n'.keys[k].touched <= n'.seqNo)
  {
    hide CoreInv, Survives, Examined;
    TickAllKeepsInv(n.keys, s.c.policy, g, now);
  }

  lemma CreatedDiffer<K, T>(r: Rep<K, T>)
    requires RepOk(r)
    ensures forall i, j :: Live(r.slab, i) && Live(r.slab, j) && i != j ==>
      r.slab[i].value.created != r.slab[j].value.created
  {
  }

  lemma EmptyInStep<K, T>(r: Rep<K, T>, n: Naive<K, T>, c: Config, now: int)
    requires r.index == map[] && r.slab == [] && r.lru == [] && n.keys == map[]
    ensures InStep(r, n.keys, c.horizon) && (n.anchor.Some? ==> n.anchor.value <= now ==> NaiveInv(c, n, now))
    ensures n.anchor.None? ==> NaiveInv(c, n, now)
  {
  }

  lemma FlushedOk<K, T>(r: Rep<K, T>)
    requires r.index == map[] && r.slab == [] && r.free == [] && r.heap == {} && r.head == NIL && r.tail == NIL
    requires r.lru == []
    ensures RepOk(r)
  {
  }
}
