/**
  What an item does to the state of the keyed stage, for any clock: `touch` with its three
  cases, the core's step, and `schedule`. With it, for any clock, the list of live keys
  stays in the order of their last items.
*/
module KeyedItem {
  import opened WindowCore
  import opened NaiveKeyed
  import opened KeyedState
  import opened KeyedRep
  import opened KeyedRefines
  import opened KeyedOrder

  /** `touch`: from `r` to `r'`, the cell of the key, and what an evicted key emits. */
  ghost predicate Touched<K, T>(
      r: Rep<K, T>, r': Rep<K, T>, slot: nat, evicted: seq<(K, Window<T>)>, s: Keyed<K, T>, key: K, g: Grid, now: int)
  {
    if key in r.index then
      && slot == r.index[key] && evicted == []
      && if slot == r.tail then r' == r else exists p: nat :: p < |r.lru| && r.lru[p] == slot && r' == TouchRep(r, p)
    else if |r.index| >= s.maxKeys then
      && r.lru != [] && Live(r.slab, r.lru[0])
      && evicted == Tagged(KeyAt(r, 0), OnFlush(r.slab[r.lru[0]].value.core, g, now).out)
      && IsInserted(RemoveRep(r, 0), r', slot, s, key)
    else
      evicted == [] && IsInserted(r, r', slot, s, key)
  }

  ghost predicate IsInserted<K, T>(r: Rep<K, T>, r': Rep<K, T>, slot: nat, s: Keyed<K, T>, key: K) {
    slot == NewSlot(r) <= |r.slab| && r' == InsertRep(r, key, s.c.policy)
  }

  /** `touch`, the step of the key's core, and `schedule`. */
  ghost predicate AddedAt<K, T>(
      r: Rep<K, T>, mid: Rep<K, T>, r': Rep<K, T>, slot: nat, evicted: seq<(K, Window<T>)>, out: seq<(K, Window<T>)>,
      s: Keyed<K, T>, g: Grid, now: int, item: T)
  {
    && Touched(r, mid, slot, evicted, s, s.key(item), g, now) && Live(mid.slab, slot)
    && var step := OnItem(mid.slab[slot].value.core, s.c.cap, g, now, item);
       r' == ItemRep(mid, slot, step.core, now, s.c.horizon) && out == evicted + Tagged(s.key(item), step.out)
  }

  ghost predicate Added<K(!new), T(!new)>(
      r: Rep<K, T>, r': Rep<K, T>, out: seq<(K, Window<T>)>, s: Keyed<K, T>, g: Grid, now: int, item: T)
  {
    exists mid, slot: nat, evicted :: AddedAt(r, mid, r', slot, evicted, out, s, g, now, item)
  }

  lemma InsertedLive<K, T>(r: Rep<K, T>, r': Rep<K, T>, slot: nat, s: Keyed<K, T>, key: K)
    requires RepOk(r) && key !in r.index && IsInserted(r, r', slot, s, key)
    ensures RepOk(r') && Live(r'.slab, slot) && r'.slab[slot].value.key == key
  {
    hide RepOk, InsertRep, NewSlot;
    InsertedOk(r, key, s.c.policy);
    InsertedSlot(r, key, s.c.policy);
  }

  lemma RoomIsOk<K, T>(r: Rep<K, T>, key: K)
    requires RepOk(r) && r.lru != [] && Live(r.slab, r.lru[0]) && key !in r.index
    ensures RepOk(RemoveRep(r, 0)) && key !in RemoveRep(r, 0).index && |RemoveRep(r, 0).index| == |r.index| - 1
  {
    RemovedOk(r, 0);
  }

  lemma TouchedIsOk<K, T>(
      r: Rep<K, T>, r': Rep<K, T>, slot: nat, evicted: seq<(K, Window<T>)>, s: Keyed<K, T>, key: K, g: Grid, now: int)
    requires RepOk(r) && Touched(r, r', slot, evicted, s, key, g, now)
    ensures RepOk(r') && Live(r'.slab, slot) && r'.slab[slot].value.key == key
  {
    hide RepOk, InsertRep, NewSlot, RemoveRep, TouchRep, OnFlush, IsInserted;
    if key in r.index {
      SlotOfKey(r, key);
      if slot != r.tail {
        var p: nat :| p < |r.lru| && r.lru[p] == slot && r' == TouchRep(r, p);
        TouchedOk(r, p);
      }
    } else if |r.index| >= s.maxKeys {
      RoomIsOk(r, key);
      InsertedLive(RemoveRep(r, 0), r', slot, s, key);
    } else {
      InsertedLive(r, r', slot, s, key);
    }
  }

  lemma AddedOk<K, T>(
      r: Rep<K, T>, mid: Rep<K, T>, r': Rep<K, T>, slot: nat, evicted: seq<(K, Window<T>)>, out: seq<(K, Window<T>)>,
      s: Keyed<K, T>, g: Grid, now: int, item: T)
    requires RepOk(r) && AddedAt(r, mid, r', slot, evicted, out, s, g, now, item)
    ensures RepOk(mid) && RepOk(r') && OneEntry(mid, r', slot) && mid.slab[slot].value.key == s.key(item)
  {
    hide RepOk, Touched, ItemRep, OnItem;
    TouchedIsOk(r, mid, slot, evicted, s, s.key(item), g, now);
    ItemRepOk(mid, slot, OnItem(mid.slab[slot].value.core, s.c.cap, g, now, item).core, now, s.c.horizon);
  }

  // ---------------------------------------------------------------- the list stays in the order of last items

  /** With the key's stamp out of the way, the others are still in order. */
  lemma TouchedOrder<K, T>(
      r: Rep<K, T>, r': Rep<K, T>, slot: nat, evicted: seq<(K, Window<T>)>, s: Keyed<K, T>, key: K, g: Grid, now: int,
      stamps: map<K, Held<T>>) returns (ks: seq<K>)
    requires RepOk(r) && OrderAgrees(r, stamps) && Touched(r, r', slot, evicted, s, key, g, now)
    ensures ReadyOrder(r', ks, stamps, key)
  {
    hide RepOk, InsertRep, NewSlot, RemoveRep, TouchRep, OnFlush, OrderAgrees, ReadyOrder, IsInserted;
    RepParts(r);
    if key in r.index {
      SlotOfKey(r, key);
      if slot == r.tail {
        LastIsReady(r, stamps, key);
        ks := Dropped(LruKeys(r.slab, r.lru), |r.lru| - 1);
      } else {
        var p: nat :| p < |r.lru| && r.lru[p] == slot && r' == TouchRep(r, p);
        TouchedIsReady(r, p, stamps, key);
        ks := Dropped(LruKeys(r.slab, r.lru), p);
      }
    } else if |r.index| >= s.maxKeys {
      var room := RemoveRep(r, 0);
      RoomIsOk(r, key);
      ReleasedOrder(r, 0, stamps);
      RepParts(room);
      ks := InsertedInOrder(room, r', slot, s, key, stamps);
    } else {
      ks := InsertedInOrder(r, r', slot, s, key, stamps);
    }
  }

  lemma InsertedInOrder<K, T>(r: Rep<K, T>, r': Rep<K, T>, slot: nat, s: Keyed<K, T>, key: K, stamps: map<K, Held<T>>)
    returns (ks: seq<K>)
    requires RepOk(r) && OrderAgrees(r, stamps) && key !in r.index && IsInserted(r, r', slot, s, key)
    ensures ReadyOrder(r', ks, stamps, key)
  {
    hide RepOk, InsertRep, NewSlot, OrderAgrees, ReadyOrder;
    RepParts(r);
    InsertedOrder(r, stamps, s.c.policy, key);
    ks := LruKeys(r.slab, r.lru);
  }

  /** For any clock: after an item its key is the last in the list, and the others keep their order. */
  lemma {:induction false} AddedOrder<K(!new), T(!new)>(
      r: Rep<K, T>, r': Rep<K, T>, out: seq<(K, Window<T>)>, s: Keyed<K, T>, g: Grid, now: int, item: T,
      stamps: map<K, Held<T>>, held: Held<T>)
    requires RepOk(r) && OrderAgrees(r, stamps) && Added(r, r', out, s, g, now, item)
    requires forall k :: k in stamps ==> stamps[k].touched < held.touched
    ensures OrderAgrees(r', stamps[s.key(item) := held])
  {
    var mid, slot: nat, evicted :| AddedAt(r, mid, r', slot, evicted, out, s, g, now, item);
    hide RepOk, ItemRep, OnItem, Touched, OrderAgrees, ReadyOrder;
    AddedOk(r, mid, r', slot, evicted, out, s, g, now, item);
    var ks := TouchedOrder(r, mid, slot, evicted, s, s.key(item), g, now, stamps);
    ItemOrder(mid, r', slot, ks, stamps, s.key(item), held);
  }
}
