/**
  `KeyedWindowStage` of src/window.rs, with its fields and its methods in the
  program's own form, against `KeyedRep` (what each method does to the state, and
  the representation invariant, for any clock) and `NaiveKeyed` (what a whole event
  means, while the clock does not go backwards).
*/
module KeyedStage {
  import opened Options
  import opened WindowCore
  import opened WindowLaws
  import opened WindowRuns
  import opened NaiveKeyed
  import opened KeyedState
  import opened KeyedRep
  import opened KeyedRefines
  import opened KeyedOrder
  import opened KeyedItem
  import opened KeyedHeap
  import opened NaiveAlarms
  import opened KeyedAlarms
  import opened KeyedBirths

  class KeyedWindowStage<K(==, !new), T(!new)> {
    const spec: Keyed<K, T>
    var anchor: Option<int>
    var index: map<K, nat>
    var slab: Slab<K, T>
    var free: seq<nat>
    /** Least and most recently active slot. */
    var lruHead: int
    var lruTail: int
    var heap: set<Due>
    var seqNo: nat
    var tickets: nat
    ghost var lru: seq<nat>
    ghost var peak: nat
    /** The reference stage, fed the same events, and the time of the last one. */
    ghost var naive: Naive<K, T>
    ghost var time: int
    /** When the keys are to be woken, told beside the reference. */
    ghost var alarms: Alarms<K>
    /** How many items there were, and which was the last one of each key (its core is of no interest here). */
    ghost var count: nat
    ghost var stamps: map<K, Held<T>>
    /** With which item each key was born. */
    ghost var births: Births<K>

    ghost function State(): Rep<K, T>
      reads this
    {
      Rep(index, slab, free, lru, lruHead, lruTail, heap, seqNo, tickets, peak)
    }

    /** The representation invariant, and the bounds of `max_keys` that follow from it. */
    ghost predicate Valid()
      reads this
    {
      RepOk(State()) && peak <= spec.maxKeys && 1 <= spec.maxKeys
    }

    /** The state is in step with the reference, as it is while the clock does not go back and no key parts. */
    ghost predicate Synced()
      reads this
    {
      naive.anchor == anchor && InSync(State(), naive, spec, time) && AlarmsAgree(State(), alarms)
    }

    /** The list is in the order of the last items: for any clock. */
    ghost predicate InItemOrder()
      reads this
    {
      OrderAgrees(State(), stamps) && forall k :: k in stamps ==> stamps[k].touched <= count
    }

    /** The keys are numbered in the order of their births: for any clock. */
    ghost predicate BornInOrder()
      reads this
    {
      BirthsAgree(State(), births) && BornBy(births, naive.seqNo)
    }

    /** The heap is small next to the keys held, as it is while the clock does not go back. */
    ghost predicate HeapFits()
      reads this
    {
      Fits(State(), naive, spec, time)
    }

    /** The clock shows `now`: a representable instant, not before the last one. */
    ghost predicate InTime(now: int)
      reads this
    {
      ValidPolicy(spec.c.policy) && now <= spec.c.horizon && (anchor.Some? ==> time <= now)
    }

    /** At `now` no key is released whose deadline has not passed. */
    ghost predicate NoneParts(now: int)
      reads this
    {
      Parting(State(), spec.c.horizon, now) == {}
    }

    /**
      What `Valid()`, which every method keeps for any clock, says about sizes: live keys and
      slab never exceed `max_keys`, the heap never exceeds 2 * `max_keys` + 64, and every slab
      cell is live or on the free list.
    */
    lemma StaysBounded()
      requires Valid()
      ensures |index| <= spec.maxKeys && |slab| <= spec.maxKeys && |heap| <= 2 * spec.maxKeys + 64
      ensures |slab| == |lru| + |free| && |lru| == |index|
      ensures forall i :: Live(slab, i) <==> i in lru
    {
      assert forall p :: 0 <= p < |lru| ==> Live(slab, lru[p]);
    }

    /** With a clock that does not go back: at most two entries for each key held now, and 64. */
    lemma StaysSmall()
      requires HeapFits()
      ensures |heap| <= 2 * |index| + 64
    {}

    constructor (c: Config, maxKeys: nat, key: T -> K)
      ensures Valid() && InItemOrder() && HeapFits() && State() == EmptyRep() && anchor == None && naive == NewNaive()
      ensures alarms == map[] && births == map[] && BornInOrder()
      ensures spec == Keyed(c.(cap := Max(c.cap, 1)), Max(maxKeys, 1), key)
    {
      spec := Keyed(c.(cap := Max(c.cap, 1)), Max(maxKeys, 1), key);
      anchor, index, slab, free := None, map[], [], [];
      lruHead, lruTail, heap, seqNo, tickets := NIL, NIL, {}, 0, 0;
      lru, peak, naive, time, alarms := [], 0, NewNaive(), 0, map[];
      count, stamps, births := 0, map[], map[];
      new;
      hide RepOk, OrderAgrees, Fits;
      EmptyIsOk(State(), naive, spec, time);
    }

    // -------------------------------------------------------------- links

    /** Point `slot`'s `next` link at `next`; for `NIL`, move the head. */
    method SetNext(slot: int, next: int)
      modifies `slab, `lruHead
      ensures slab == WithNext(old(slab), slot, next)
      ensures lruHead == if Live(old(slab), slot) then old(lruHead) else next
    {
      if Live(slab, slot) {
        slab := slab[slot := Some(slab[slot].value.(next := next))];
      } else {
        lruHead := next;
      }
    }

    /** Point `slot`'s `prev` link at `prev`; for `NIL`, move the tail. */
    method SetPrev(slot: int, prev: int)
      modifies `slab, `lruTail
      ensures slab == WithPrev(old(slab), slot, prev)
      ensures lruTail == if Live(old(slab), slot) then old(lruTail) else prev
    {
      if Live(slab, slot) {
        slab := slab[slot := Some(slab[slot].value.(prev := prev))];
      } else {
        lruTail := prev;
      }
    }

    method Unlink(slot: int, ghost p: nat)
      requires p < |lru| && lru[p] == slot && Live(slab, slot)
      requires Spelled(slab, lru)
      modifies `slab, `lruHead, `lruTail, `lru
      ensures State() == UnlinkRep(old(State()), p)
    {
      var prev, next := slab[slot].value.prev, slab[slot].value.next;
      assert prev == PrevOf(lru, p) && next == NextOf(lru, p);
      SetNext(prev, next);
      SetPrev(next, prev);
      lru := KeyedState.Without(lru, p);
    }

    method PushBack(slot: nat)
      requires Live(slab, slot)
      modifies `slab, `lruHead, `lruTail, `lru
      ensures State() == AppendRep(old(State()), slot)
    {
      var tail := lruTail;
      slab := slab[slot := Some(slab[slot].value.(prev := tail, next := NIL))];
      SetNext(tail, slot);
      lruTail := slot;
      lru := lru + [slot];
    }

    /** Take a key's state out of the slab, the index and the list. */
    method Remove(slot: int) returns (entry: Option<KeyEntry<K, T>>)
      requires Valid()
      modifies `slab, `lruHead, `lruTail, `lru, `index, `free
      ensures Valid()
      ensures Live(old(slab), slot) ==>
                && entry.Some? && SameEntry(entry.value, old(slab)[slot].value)
                && exists p: nat :: p < |old(lru)| && old(lru)[p] == slot && State() == RemoveRep(old(State()), p)
      ensures !Live(old(slab), slot) ==> entry == None && State() == old(State())
    {
      if !Live(slab, slot) {
        return None;
      }
      ghost var p := PositionOf(State(), slot);
      RemovedOk(State(), p);
      entry := TakeOut(slot, p);
    }

    method TakeOut(slot: nat, ghost p: nat) returns (entry: Option<KeyEntry<K, T>>)
      requires p < |lru| && lru[p] == slot && Live(slab, slot) && Spelled(slab, lru)
      requires Live(UnlinkRep(State(), p).slab, slot) && SameButLinks(slab, UnlinkRep(State(), p).slab)
      modifies `slab, `lruHead, `lruTail, `lru, `index, `free
      ensures entry.Some? && SameEntry(entry.value, old(slab)[slot].value)
      ensures State() == RemoveRep(old(State()), p)
    {
      Unlink(slot, p);
      entry := slab[slot];
      slab := slab[slot := None];
      index := index - {entry.value.key};
      free := free + [slot];
    }

    // -------------------------------------------------------------- deadlines

    /** Rebuild the heap from the live entries once stale entries dominate it. */
    method CompactHeap()
      modifies `heap
      ensures heap == Compacted(old(heap), slab, |index|)
    {
      if |heap| <= 2 * |index| + 64 {
        return;
      }
      var entries: set<Due> := {};
      for i := 0 to |slab|
        invariant entries == LiveEntries(slab[..i])
      {
        if slab[i].Some? && slab[i].value.scheduled.Some? {
          entries := entries + {Due(slab[i].value.scheduled.value, slab[i].value.ticket, i)};
        }
      }
      assert slab[..|slab|] == slab;
      heap := entries;
    }

    /** Make sure the heap holds an entry no later than this key's deadline, but none at or before `now`. */
    method Schedule(slot: int, now: int)
      modifies `slab, `heap, `tickets
      ensures State() == Rescheduled(old(State()), slot, now, spec.c.horizon)
    {
      hide Deadline, Compacted;
      if !Live(slab, slot) {
        return;
      }
      var entry := slab[slot].value;
      var deadline := Deadline(entry.core, spec.c.horizon);
      if deadline.None? {
        return;
      }
      var at := deadline.value;
      if at <= now {
        if spec.c.horizon < now + 1 {
          return;
        }
        at := now + 1;
      }
      if entry.scheduled.Some? && entry.scheduled.value <= at {
        return;
      }
      tickets := tickets + 1;
      slab := slab[slot := Some(entry.(ticket := tickets, scheduled := Some(at)))];
      heap := heap + {Due(at, tickets, slot)};
      CompactHeap();
    }

    /** `BinaryHeap::peek`. */
    method Peek() returns (d: Due)
      requires heap != {} && TicketsDiffer(heap)
      ensures IsLeast(heap, d)
    {
      LeastExists(heap);
      d :| d in heap && forall e :: e in heap && e != d ==> Precedes(d, e);
    }

    /** One turn of the loop of `expire`, for the least entry `d`. */
    method ExpireOne(d: Due, g: Grid, now: int) returns (emitted: seq<(K, Window<T>)>)
      requires Valid() && d in heap && g.horizon == spec.c.horizon
      modifies `slab, `lruHead, `lruTail, `lru, `index, `free, `heap, `tickets
      ensures Valid() && Turned(old(State()), State(), d, emitted, g, now)
    {
      hide RepOk, Deadline, OnTick, IsEmpty;
      ghost var r := State();
      PoppedOk(r, d);
      emitted := [];
      heap := heap - {d};
      if Live(slab, d.slot) && slab[d.slot].value.ticket == d.ticket {
        var entry := slab[d.slot].value;
        slab := slab[d.slot := Some(entry.(scheduled := None))];
        assert State() == PopRep(r, d);
        var deadline := Deadline(entry.core, spec.c.horizon);
        if deadline.Some? && now < deadline.value {
          Schedule(d.slot, now);
        } else {
          var core, ws := CoreOnTick(entry.core, g, now);
          emitted := Tagged(entry.key, ws);
          slab := slab[d.slot := Some(slab[d.slot].value.(core := core))];
          TickedOk(r, d, g, now);
          assert State() == TickedRep(r, d, g, now);
          if IsEmpty(core) {
            var released := Remove(d.slot);
          } else {
            Schedule(d.slot, now);
          }
        }
      }
      TurnOk(r, State(), d, emitted, g, now);
    }

    /**
      Emit the expired windows of every key whose deadline is `<= now`, releasing
      keys left with nothing buffered. It ends for any clock: each turn removes a due
      entry and adds none. For any clock the current due entries fire in heap order. If
      the state agreed with the reference and the clock did not go back, every key emits
      what the reference emits for it, and the stage is left with the keys of the reference
      without those that part: so the two agree again if and only if none parts. The windows
      come out in the order of their ends if and only if `EntriesInOrder` holds before the
      call, as it does for tumbling windows, with ties in scheduling order.
    */
    method Expire(g: Grid, now: int) returns (out: seq<(K, Window<T>)>, ghost x: Expiry<K, T>)
      requires Valid() && g.horizon == spec.c.horizon
      modifies `slab, `lruHead, `lruTail, `lru, `index, `free, `heap, `tickets
      ensures Valid() && Expires(old(State()), x, g, now) && x.after == State()
      ensures InHeapOrder(old(State()), x, g, now) && out == EmittedIn(x.turns)
      ensures old(Agrees(State(), naive.keys, spec.c.policy, g, now)) ==>
                && LeavesAllBut(old(State()), State(), naive.keys, g, now)
                && (forall k :: Proj(out, k) == TickOut(naive.keys, g, now, k))
                && (EndsAscend(out) <==> EntriesInOrder(old(State()), g, now))
                && (spec.c.policy.Tumbling? ==> InDeadlineOrder(out, x.fired))
    {
      hide RepOk, Turned, Expiring, Tracks, LeavesAllBut, TickOut, Proj, InDeadlineOrder, EndsAscend, EntriesInOrder,
        DoneAfter, FiredAfter, EntriesOk, OrderAgrees, CoresAgree, KeysInv, IsCurrent;
      ghost var r0, keys, policy, done := State(), naive.keys, spec.c.policy, {};
      ghost var agrees := Agrees(r0, keys, policy, g, now);
      if agrees { NothingDone(r0, keys, policy, g, now); }
      out := [];
      ghost var turns: seq<Turn<K, T>>, fired := [], [];
      while heap != {}
        invariant Valid() && Treads(r0, turns, State(), g, now) && out == EmittedIn(turns)
        invariant agrees ==> ValidPolicy(policy) && Reached(g, now) && KeysInv(keys, policy, g, now)
        invariant agrees ==> Expiring(State(), keys, done, out, fired, policy, g, now)
        invariant agrees ==> Tracks(r0, State(), keys, done, g, now)
        decreases DueBy(heap, now)
      {
        RepParts(State());
        var d := Peek();
        if now < d.deadline {
          break;
        }
        ghost var r := State();
        var emitted := ExpireOne(d, g, now);
        TurnOk(r, State(), d, emitted, g, now);
        if agrees {
          TurnTracks(r0, r, State(), d, emitted, keys, done, out, fired, policy, g, now);
          TurnAgrees(r, State(), d, emitted, keys, done, out, fired, policy, g, now);
        }
        done, fired := DoneAfter(r, d, done, g, now), FiredAfter(r, d, fired, g, now);
        TreadsOn(r0, turns, r, State(), d, emitted, g, now);
        out, turns := out + emitted, turns + [Turn(r, d, emitted)];
        assert d in DueBy(r.heap, now) && d !in DueBy(heap, now);
      }
      x := Expiry(turns, State(), fired);
      ExpiryIsInHeapOrder(r0, turns, State(), g, now);
      if agrees {
        ExpiredFacts(r0, State(), keys, done, out, fired, policy, g, now);
        InOrderExactlyWhen(r0, ExaminedIn(turns, g, now), keys, policy, g, now);
      }
    }

    // -------------------------------------------------------------- keys

    /** Flush and remove the least recently active key. */
    method EvictOne(g: Grid, now: int) returns (out: seq<(K, Window<T>)>)
      requires Valid()
      modifies `slab, `lruHead, `lruTail, `lru, `index, `free
      ensures Valid()
      ensures old(lru) == [] ==> State() == old(State()) && out == []
      ensures old(lru) != [] ==>
                && Live(old(slab), old(lru)[0]) && State() == RemoveRep(old(State()), 0)
                && out == Tagged(KeyAt(old(State()), 0), OnFlush(old(slab)[old(lru)[0]].value.core, g, now).out)
    {
      out := [];
      assert lru != [] ==> Live(slab, lru[0]);
      var entry := Remove(lruHead);
      if entry.Some? {
        var core, ws := CoreOnFlush(entry.value.core, g, now);
        out := Tagged(entry.value.key, ws);
      }
    }

    /** The slot of `key`, which becomes the most recently active one; a new key may evict another. */
    method Touch(
        key: K, g: Grid, now: int, ghost keys: map<K, Held<T>>)
      returns (slot: nat, out: seq<(K, Window<T>)>, ghost ks: seq<K>)
      requires Valid()
      modifies `slab, `lruHead, `lruTail, `lru, `index, `free, `seqNo, `peak
      ensures Valid() && Live(slab, slot) && slab[slot].value.key == key
      ensures Touched(old(State()), State(), slot, out, spec, key, g, now)
      ensures old(InStep(State(), keys, spec.c.horizon)) ==>
                && var victim := Victim(keys, spec.maxKeys, key);
                   var kept := NaiveKeyed.Without(keys, victim);
                && ReadyCores(State(), slot, kept, key, spec.c.policy, spec.c.horizon)
                && ReadyOrder(State(), ks, kept, key)
                && (forall k :: Proj(out, k) == if victim == Some(k) then OnFlush(keys[k].core, g, now).out else [])
    {
      ghost var r, policy, horizon := State(), spec.c.policy, spec.c.horizon;
      ghost var inStep, victim := InStep(r, keys, horizon), Victim(keys, spec.maxKeys, key);
      out := [];
      if key in index {
        slot := index[key];
        ks := TouchHeld(slot, key, keys);
      } else {
        out := MakeRoom(key, g, now, keys);
        slot, ks := InsertNew(key, NaiveKeyed.Without(keys, victim));
      }
    }

    /** Make `slot`, which stands at `p`, the most recently active one. */
    method MoveToBack(slot: nat, ghost p: nat)
      requires p < |lru| && lru[p] == slot && Live(slab, slot) && Spelled(slab, lru)
      requires Live(UnlinkRep(State(), p).slab, slot)
      modifies `slab, `lruHead, `lruTail, `lru
      ensures State() == TouchRep(old(State()), p)
    {
      Unlink(slot, p);
      PushBack(slot);
    }

    /** A key that is held moves to the end of the list. */
    method TouchHeld(slot: nat, key: K, ghost keys: map<K, Held<T>>) returns (ghost ks: seq<K>)
      requires Valid() && key in index && index[key] == slot
      modifies `slab, `lruHead, `lruTail, `lru
      ensures Valid() && Live(slab, slot) && slab[slot].value.key == key
      ensures if slot == old(lruTail) then State() == old(State())
              else exists p: nat :: p < |old(lru)| && old(lru)[p] == slot && State() == TouchRep(old(State()), p)
      ensures old(InStep(State(), keys, spec.c.horizon)) ==>
                ReadyCores(State(), slot, keys, key, spec.c.policy, spec.c.horizon)
                  && ReadyOrder(State(), ks, keys, key)
    {
      hide RepOk, CoresAgree, EntriesOk, OrderAgrees, ReadyOrder, Spelled;
      ghost var r, horizon := State(), spec.c.horizon;
      SlotOfKey(r, key);
      ghost var p := PositionOf(r, slot);
      TailPosition(r, p);
      RepParts(r);
      ks := Dropped(LruKeys(slab, lru), p);
      if slot != lruTail {
        TouchedOk(r, p);
        UnlinkedKeepsLive(r, p);
        MoveToBack(slot, p);
        if InStep(r, keys, horizon) {
          TouchedIsReady(r, p, keys, key);
          LinksKeepCores(r, State(), keys, horizon);
        }
      } else if InStep(r, keys, horizon) {
        LastIsReady(r, keys, key);
      }
      SlotOfKey(State(), key);
      RepParts(State());
      if InStep(r, keys, horizon) {
        HeldIsReady(State(), keys, key, spec.c.policy, horizon);
      }
    }

    /** At the key limit the least recently active key is evicted; it is the one the reference evicts. */
    method MakeRoom(key: K, g: Grid, now: int, ghost keys: map<K, Held<T>>) returns (out: seq<(K, Window<T>)>)
      requires Valid() && key !in index
      modifies `slab, `lruHead, `lruTail, `lru, `index, `free
      ensures Valid() && key !in index && |index| < spec.maxKeys
      ensures old(|index| < spec.maxKeys) ==> State() == old(State()) && out == []
      ensures old(|index| >= spec.maxKeys) ==>
                && old(lru) != [] && Live(old(slab), old(lru)[0]) && State() == RemoveRep(old(State()), 0)
                && out == Tagged(KeyAt(old(State()), 0), OnFlush(old(slab)[old(lru)[0]].value.core, g, now).out)
      ensures old(InStep(State(), keys, spec.c.horizon)) ==>
                && var victim := Victim(keys, spec.maxKeys, key);
                && InStep(State(), NaiveKeyed.Without(keys, victim), spec.c.horizon)
                && (forall k :: Proj(out, k) == if victim == Some(k) then OnFlush(keys[k].core, g, now).out else [])
    {
      hide RepOk, CoresAgree, EntriesOk, OrderAgrees, OnFlush;
      ghost var r := State();
      SizeFacts(r);
      out := [];
      if |index| >= spec.maxKeys {
        RemovedSize(r);
        out := EvictOne(g, now);
        if InStep(r, keys, spec.c.horizon) {
          EvictionIsVictim(r, keys, spec.maxKeys, key, spec.c.horizon, out, g, now);
        }
      } else if InStep(r, keys, spec.c.horizon) {
        SameSize(r, keys);
      }
    }

    /** The new key takes a cell from the free list, or one more at the end of the slab. */
    method Allocate(key: K) returns (slot: nat)
      requires NewSlot(State()) <= |slab| && (free != [] ==> NewSlot(State()) < |slab|)
      modifies `slab, `lruHead, `lruTail, `lru, `index, `free, `seqNo, `peak
      ensures slot == NewSlot(old(State())) && State() == InsertRep(old(State()), key, spec.c.policy)
    {
      ghost var held := |index|;
      seqNo := seqNo + 1;
      var entry := KeyEntry(key, NewCore(spec.c.policy), seqNo, NIL, NIL, 0, None);
      if free != [] {
        slot := free[|free| - 1];
        free := free[..|free| - 1];
        slab := slab[slot := Some(entry)];
      } else {
        slab := slab + [Some(entry)];
        slot := |slab| - 1;
      }
      index := index[key := slot];
      PushBack(slot);
      peak := Max(peak, held + 1);
    }

    method InsertNew(key: K, ghost keys: map<K, Held<T>>) returns (slot: nat, ghost ks: seq<K>)
      requires Valid() && key !in index && |index| < spec.maxKeys
      modifies `slab, `lruHead, `lruTail, `lru, `index, `free, `seqNo, `peak
      ensures Valid() && Live(slab, slot) && slab[slot].value.key == key
      ensures IsInserted(old(State()), State(), slot, spec, key)
      ensures old(InStep(State(), keys, spec.c.horizon)) ==>
                ReadyCores(State(), slot, keys, key, spec.c.policy, spec.c.horizon)
                  && ReadyOrder(State(), ks, keys, key)
    {
      hide RepOk, CoresAgree, EntriesOk, OrderAgrees, ReadyOrder, ReadyCores, InsertRep, NewSlot;
      ghost var r := State();
      RepParts(r);
      InsertedOk(r, key, spec.c.policy);
      InsertedSlot(r, key, spec.c.policy);
      ks := LruKeys(slab, lru);
      slot := Allocate(key);
      if InStep(r, keys, spec.c.horizon) {
        InsertedOrder(r, keys, spec.c.policy, key);
        InsertedCores(r, keys, spec.c.policy, spec.c.horizon, key);
      }
    }

    // -------------------------------------------------------------- the stage

    /** Find or create the item's key, add the item to its core, and schedule it. */
    method AddItem(g: Grid, now: int, item: T, ghost n: Naive<K, T>) returns (out: seq<(K, Window<T>)>)
      requires Valid() && g.horizon == spec.c.horizon
      modifies `slab, `lruHead, `lruTail, `lru, `index, `free, `seqNo, `peak, `heap, `tickets
      ensures Valid() && Added(old(State()), State(), out, spec, g, now, item)
      ensures (&& ValidPolicy(spec.c.policy) && Reached(g, now) && g == GridOf(spec.c, n, now)
               && KeysInv(n.keys, spec.c.policy, g, now) && (forall k :: k in n.keys ==> n.keys[k].touched <= n.seqNo)
               && old(InStep(State(), TickAll(n.keys, g, now), spec.c.horizon)))
        ==> (var n' := Next(spec, n, Item(now, item));
             && InStep(State(), n'.keys, spec.c.horizon)
             && NaiveInv(spec.c, n', now) && (forall k :: k in n'.keys ==> n'.keys[k].touched <= n'.seqNo)
             && (forall expired, k | Proj(expired, k) == TickOut(n.keys, g, now, k) ::
                  Proj(expired + out, k) == Out(spec, n, Item(now, item), k)))
    {
      hide RepOk, InStep, ReadyOrder, KeysInv, NaiveInv, OnItem, OnFlush, TickAll, TickOut, Next, Out, CoreInv,
        Rescheduled;
      ghost var r0, ticked := State(), TickAll(n.keys, g, now);
      var key := spec.key(item);
      var slot, evicted;
      ghost var ks;
      slot, evicted, ks := Touch(key, g, now, ticked);
      ghost var r := State();
      var core, ws := CoreOnItem(slab[slot].value.core, spec.c.cap, g, now, item);
      ItemRepOk(r, slot, core, now, spec.c.horizon);
      slab := slab[slot := Some(slab[slot].value.(core := core))];
      Schedule(slot, now);
      out := evicted + Tagged(key, ws);
      assert AddedAt(r0, r, State(), slot, evicted, out, spec, g, now, item);
      if && ValidPolicy(spec.c.policy) && Reached(g, now) && g == GridOf(spec.c, n, now)
         && KeysInv(n.keys, spec.c.policy, g, now) && (forall k :: k in n.keys ==> n.keys[k].touched <= n.seqNo)
         && InStep(r0, ticked, spec.c.horizon)
      {
        EndOfItem(r, slot, ks, KeptFor(spec, ticked, key), n, spec, g, now, item);
        ItemKeepsNaive(n, spec, g, now, item);
        forall expired, k | Proj(expired, k) == TickOut(n.keys, g, now, k)
          ensures Proj(expired + out, k) == Out(spec, n, Item(now, item), k)
        {
          ItemSeenByKey(spec, n, g, now, item, expired, evicted, r.slab[slot].value.core, k);
        }
      }
    }

    /** The event of an item at a fixed grid: `expire`, then the item. */
    method ExpireAndAdd(g: Grid, now: int, item: T) returns (out: seq<(K, Window<T>)>, ghost x: Expiry<K, T>)
      requires Valid() && g.horizon == spec.c.horizon
      modifies `slab, `lruHead, `lruTail, `lru, `index, `free, `seqNo, `peak, `heap, `tickets
      ensures Valid() && ItemDone(old(State()), x, State(), out, spec, g, now, item)
      ensures ItemFollows(old(State()), x, State(), out, naive, spec, g, now, item)
    {
      hide RepOk, KeysInv, OnItem, OnFlush, TickAll, TickOut, Out, CoresAgree, OrderAgrees, EntriesOk, Added, Treads,
        InHeapOrder, EntriesInOrder, EndsAscend, InDeadlineOrder, DueBy, Next, NaiveInv, GridOf, LeavesAllBut, Parting;
      ghost var r0 := State();
      var expired;
      expired, x := Expire(g, now);
      if Parting(r0, g.horizon, now) == {} && LeavesAllBut(r0, x.after, naive.keys, g, now) {
        LeavesAll(r0, x.after, naive.keys, g, now);
      }
      var rest := AddItem(g, now, item, naive);
      out := expired + rest;
      assert out[|expired|..] == rest;
    }

    /**
      An item: close every key's expired windows, then add the item to its key. For any
      clock the due windows come out in heap order, and the list stays in the order of the
      last items. In time, and if no key parts, each key emits what the reference emits for it,
      the stage is left holding the same keys with the same cores in the same order of activity,
      and the heap stays small.
    */
    method Process(now: int, item: T) returns (out: seq<(K, Window<T>)>, ghost x: Expiry<K, T>)
      requires Valid()
      modifies this
      ensures Valid() && naive == Next(spec, old(naive), Item(now, item)) && time == now
      ensures alarms == NextAlarms(spec, old(naive), old(alarms), Item(now, item))
      ensures anchor == Some(old(anchor).GetOr(GridOrigin(spec.c.policy, now, spec.c.lowest)))
      ensures ItemDone(old(State()), x, State(), out, spec, Grid(anchor.value, spec.c.horizon), now, item)
      ensures old(InItemOrder()) ==> InItemOrder()
      ensures births == BornAfter(old(births), index.Keys, spec.key(item), spec.key(item) in x.after.index,
                                  old(naive).seqNo + 1)
      ensures old(BornInOrder()) ==> BornInOrder()
      ensures old(Synced()) && old(InTime(now)) ==>
                var g := Grid(anchor.value, spec.c.horizon);
                && DueInOrder(old(State()), x, old(naive).keys, spec.c.policy, g, now)
                && LeavesAllBut(old(State()), x.after, old(naive).keys, g, now)
      ensures old(Synced()) && old(InTime(now)) && old(NoneParts(now)) ==>
                && Synced() && (forall k :: Proj(out, k) == Out(spec, old(naive), Item(now, item), k))
                && (old(HeapFits()) ==> HeapFits())
    {
      hide RepOk, Out, Proj, ItemDone, ItemFollows, DueInOrder, Next, OrderAgrees, GridOrigin, InSync, Fits,
        LeavesAllBut, Parting, AlarmsAgree, NextAlarms, BirthsAgree, BornBy, BornAfter;
      ghost var r0, was, told, last, early := State(), naive, alarms, time, Synced() && InTime(now);
      anchor := Some(anchor.GetOr(GridOrigin(spec.c.policy, now, spec.c.lowest)));
      var g := Grid(anchor.value, spec.c.horizon);
      assert early ==> g == GridOf(spec.c, was, now);
      out, x := ExpireAndAdd(g, now, item);
      ghost var r1, n, held := State(), Next(spec, was, Item(now, item)), Held(NewCore(spec.c.policy), count + 1);
      ItemDoneOrder(r0, x, r1, out, spec, g, now, item, stamps, held);
      ItemDoneBirths(r0, x, r1, out, spec, g, now, item, births, was.seqNo);
      ItemCounts(spec, was, now, item);
      if early {
        ItemTold(r0, x, r1, out, was, n, told, spec, g, last, now, item);
      }
      Note(n, now, NextAlarms(spec, was, told, Item(now, item)),
           BornAfter(births, index.Keys, spec.key(item), spec.key(item) in x.after.index, was.seqNo + 1));
      Stamp(spec.key(item), held);
    }

    /** Keep the reference's side of an event, and which keys were born. */
    ghost method Note(n: Naive<K, T>, now: int, told: Alarms<K>, born: Births<K>)
      modifies `naive, `time, `alarms, `births
      ensures naive == n && time == now && alarms == told && births == born && State() == old(State())
    {
      naive, time, alarms, births := n, now, told, born;
    }

    /** Keep the number of items, and the last one of each key. */
    ghost method Stamp(key: K, held: Held<T>)
      modifies `count, `stamps
      ensures count == old(count) + 1 && stamps == old(stamps)[key := held] && State() == old(State())
    {
      count, stamps := count + 1, stamps[key := held];
    }

    /** An idle tick: close every key's expired windows. */
    method Tick(now: int) returns (out: seq<(K, Window<T>)>, ghost x: Expiry<K, T>)
      requires Valid()
      modifies this
      ensures Valid() && naive == Next(spec, old(naive), Event.Tick(now)) && time == now && anchor == old(anchor)
      ensures alarms == NextAlarms(spec, old(naive), old(alarms), Event.Tick(now))
      ensures out == EmittedIn(x.turns) && x.after == State() && (anchor.None? ==> out == [] && State() == old(State()))
      ensures anchor.Some? ==>
                var g := Grid(anchor.value, spec.c.horizon);
                Expires(old(State()), x, g, now) && InHeapOrder(old(State()), x, g, now)
      ensures old(InItemOrder()) ==> InItemOrder()
      ensures births == Remaining(old(births), index.Keys) && (old(BornInOrder()) ==> BornInOrder())
      ensures old(Synced()) && old(InTime(now)) ==>
                && (forall k :: Proj(out, k) == Out(spec, old(naive), Event.Tick(now), k))
                && (spec.c.policy.Tumbling? ==> InDeadlineOrder(out, x.fired))
                && (old(NoneParts(now)) ==> Synced() && (old(HeapFits()) ==> HeapFits()))
      ensures old(Synced()) && old(InTime(now)) && anchor.Some? ==>
                var g := Grid(anchor.value, spec.c.horizon);
                && (EndsAscend(out) <==> EntriesInOrder(old(State()), g, now))
                && LeavesAllBut(old(State()), State(), old(naive).keys, g, now)
    {
      hide RepOk, KeysInv, TickAll, TickOut, CoresAgree, OrderAgrees, EntriesOk, Treads, InHeapOrder, EntriesInOrder,
        EndsAscend, Snug, DueBy, LeavesAllBut, Parting, AlarmsAgree, AlarmsAfterTick, BirthsAgree, BornBy, Remaining;
      ghost var r0, was, last, inTime, fits := State(), naive, time, Synced() && InTime(now), HeapFits();
      ghost var ordered, quiet := InItemOrder(), NoneParts(now);
      out, x := [], Expiry([], r0, []);
      AllRemain(r0, births);
      if anchor.Some? {
        var g := Grid(anchor.value, spec.c.horizon);
        if inTime {
          StartOfItem(r0, was, spec, g, now);
          TickStep(was, spec, g, now);
        }
        out, x := Expire(g, now);
        if ordered {
          TreadsOrder(r0, x.turns, x.after, g, now, stamps);
        }
        ExpireKeepsBirths(r0, x, g, now, births);
        if inTime && quiet {
          LeavesAll(r0, x.after, was.keys, g, now);
          ExpireAlarms(r0, x, was.keys, alarms, spec.c.policy, g, now);
          if fits { TickIsSnug(r0, x, was, spec, g, last, now); }
        }
      }
      TickCounts(spec, was, births, index.Keys, now);
      Note(Next(spec, was, Event.Tick(now)), now, NextAlarms(spec, was, alarms, Event.Tick(now)),
           Remaining(births, index.Keys));
    }

    /** The entries of all keys, in slab order. */
    method Collect() returns (entries: seq<KeyEntry<K, T>>)
      requires Valid()
      ensures ListsLive(slab, entries)
      ensures forall i, j :: 0 <= i < j < |entries| ==> entries[i].created != entries[j].created
    {
      ghost var r := State();
      CreatedDiffer(r);
      hide RepOk;
      entries := [];
      for i := 0 to |slab|
        invariant forall e :: e in entries <==> exists j :: 0 <= j < i && Live(slab, j) && slab[j].value == e
        invariant forall p, q :: 0 <= p < q < |entries| ==> entries[p].created != entries[q].created
      {
        if slab[i].Some? {
          forall p | 0 <= p < |entries| ensures entries[p].created != slab[i].value.created {
            assert entries[p] in entries;
          }
          entries := entries + [slab[i].value];
        }
      }
    }

    /** Take the entries of all keys, in the order of first appearance, and forget them. */
    method TakeAll() returns (sorted: seq<KeyEntry<K, T>>)
      requires Valid()
      modifies `slab, `lruHead, `lruTail, `lru, `index, `free, `heap
      ensures Valid() && State() == EmptyRep().(seqNo := old(seqNo), tickets := old(tickets), peak := old(peak))
      ensures Ascending(sorted) && ListsLive(old(slab), sorted)
    {
      hide RepOk, ListsLive, Ascending;
      ghost var was := slab;
      var all := Collect();
      sorted := SortByCreated(all);
      SameEntriesListed(was, all, sorted);
      index, slab, free, heap, lruHead, lruTail, lru := map[], [], [], {}, NIL, NIL, [];
      FlushedOk(State());
    }

    /** End of stream: flush and forget every key, in the order of first appearance. */
    method Flush(now: int) returns (out: seq<(K, Window<T>)>, ghost entries: seq<KeyEntry<K, T>>)
      requires Valid()
      modifies this
      ensures Valid() && naive == Next(spec, old(naive), Event.Flush(now)) && time == now && anchor == old(anchor)
      ensures alarms == map[]
      ensures State() == EmptyRep().(seqNo := old(seqNo), tickets := old(tickets), peak := old(peak))
      ensures Ascending(entries) && ListsLive(old(slab), entries)
      ensures out == FlushEntries(entries, Grid(old(anchor).GetOr(now), spec.c.horizon), now)
      ensures (old(InItemOrder()) ==> InItemOrder()) && HeapFits()
      ensures births == map[] && BornInOrder() && (old(BornInOrder()) ==> InOrderOfBirths(out, old(births)))
      ensures old(Synced()) && old(InTime(now)) ==>
                Synced() && forall k :: Proj(out, k) == Out(spec, old(naive), Event.Flush(now), k)
    {
      hide RepOk, CoresAgree, OrderAgrees, EntriesOk, ListsLive, Ascending, KeysInv, FlushEntries, Proj, Out, Fits,
        BirthsAgree, BornBy, InOrderOfBirths;
      ghost var r, was, synced := State(), naive, Synced() && InTime(now);
      assert synced ==> CoresAgree(r, was.keys) && (anchor.Some? ==> anchor.value <= now);
      hide InStep, NaiveInv;
      var g := Grid(anchor.GetOr(now), spec.c.horizon);
      var sorted := TakeAll();
      entries := sorted;
      out := EmitFlushed(sorted, g, now);
      ghost var r1, n := State(), Next(spec, was, Event.Flush(now));
      EmptyInStep(r1, n, spec.c, now);
      EmptyFits(r1, n, spec, now);
      EmptyInOrder(r1, stamps);
      if BirthsAgree(r, births) {
        EntriesByBirth(r, sorted, births);
        FlushByBirth(sorted, births, g, now);
      }
      NoBirths(r1, n.seqNo);
      if synced {
        FlushSeen(r, was, spec, sorted, now);
      }
      Note(n, now, map[], map[]);
    }

    method EmitFlushed(sorted: seq<KeyEntry<K, T>>, g: Grid, now: int) returns (out: seq<(K, Window<T>)>)
      ensures out == FlushEntries(sorted, g, now)
    {
      hide OnFlush;
      out := [];
      for i := 0 to |sorted|
        invariant out == FlushEntries(sorted[..i], g, now)
      {
        var core, ws := CoreOnFlush(sorted[i].core, g, now);
        assert sorted[..i + 1][..i] == sorted[..i];
        out := out + Tagged(sorted[i].key, ws);
      }
      assert sorted[..|sorted|] == sorted;
    }
  }
}
