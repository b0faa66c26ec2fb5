/**
  The whole state of a keyed window stage as one value, its representation
  invariant, and the structural operations on it. None of the facts here depends
  on the clock.
*/
module KeyedRep {
  import opened Options
  import opened WindowCore
  import opened KeyedState

  /**
    `lru` lists the live slots from least to most recently active, and `peak` is
    the largest number of keys held so far; the program does not store these two.
  */
  datatype Rep<!K, T> = Rep(
    index: map<K, nat>, slab: Slab<K, T>, free: seq<nat>, lru: seq<nat>, head: int, tail: int,
    heap: set<Due>, seqNo: nat, tickets: nat, peak: nat)

  /** `created` numbers are distinct and all given out so far. */
  ghost predicate CreatedOk<K, T>(slab: Slab<K, T>, seqNo: nat) {
    && (forall i :: Live(slab, i) ==> slab[i].value.created <= seqNo)
    && (forall i, j :: Live(slab, i) && Live(slab, j) && i != j ==> slab[i].value.created != slab[j].value.created)
  }

  ghost predicate SizesOk<K, T>(r: Rep<K, T>) {
    && |r.slab| == |r.lru| + |r.free|
    && |r.lru| == |r.index| <= r.peak
    && |r.slab| <= r.peak
    && |r.heap| <= 2 * r.peak + 64
  }

  /** The representation invariant of the keyed stage. */
  ghost predicate RepOk<K, T>(r: Rep<K, T>) {
    && IndexOk(r.index, r.slab)
    && FreeOk(r.free, r.slab)
    && Linked(r.slab, r.lru, r.head, r.tail)
    && Covers(r.slab, r.lru)
    && HeapOk(r.heap, r.slab, r.tickets)
    && CreatedOk(r.slab, r.seqNo)
    && SizesOk(r)
  }

  function EmptyRep<K, T>(): Rep<K, T> {
    Rep(map[], [], [], [], NIL, NIL, {}, 0, 0, 0)
  }

  /** Where the key of a live slot stands in the list. */
  lemma PositionOf<K, T>(r: Rep<K, T>, slot: int) returns (p: nat)
    requires RepOk(r) && Live(r.slab, slot)
    ensures p < |r.lru| && r.lru[p] == slot
  {
    assert slot in r.lru;
    p :| 0 <= p < |r.lru| && r.lru[p] == slot;
  }

  function KeyAt<K, T>(r: Rep<K, T>, p: nat): K
    requires p < |r.lru| && Live(r.slab, r.lru[p])
  {
    r.slab[r.lru[p]].value.key
  }

  // ---------------------------------------------------------------- list operations

  function UnlinkRep<K, T>(r: Rep<K, T>, p: nat): Rep<K, T>
    requires p < |r.lru|
  {
    var prev, next := PrevOf(r.lru, p), NextOf(r.lru, p);
    r.(slab := Joined(r.slab, prev, next), lru := KeyedState.Without(r.lru, p),
       head := if Live(r.slab, prev) then r.head else next,
       tail := if Live(r.slab, next) then r.tail else prev)
  }

  function AppendRep<K, T>(r: Rep<K, T>, slot: nat): Rep<K, T> {
    r.(slab := Appended(r.slab, slot, r.tail), lru := r.lru + [slot],
       head := if Live(r.slab, r.tail) then r.head else slot, tail := slot)
  }

  lemma LinksDoNotMatter<K, T>(
      index: map<K, nat>, free: seq<nat>, heap: set<Due>, seqNo: nat, tickets: nat, a: Slab<K, T>, b: Slab<K, T>)
    requires SameButLinks(a, b)
    ensures IndexOk(index, a) ==> IndexOk(index, b)
    ensures FreeOk(free, a) ==> FreeOk(free, b)
    ensures HeapOk(heap, a, tickets) ==> HeapOk(heap, b, tickets)
    ensures CreatedOk(a, seqNo) ==> CreatedOk(b, seqNo)
    ensures forall i :: Live(a, i) <==> Live(b, i)
  {
    assert forall i :: Live(a, i) <==> Live(b, i);
    assert forall i :: Live(b, i) ==> b[i].value.key == a[i].value.key && b[i].value.created == a[i].value.created
                                      && b[i].value.ticket == a[i].value.ticket
                                        && b[i].value.scheduled == a[i].value.scheduled;
  }

  /** `touch` of a key that is held: its slot moves to the end of the list. */
  function TouchRep<K, T>(r: Rep<K, T>, p: nat): Rep<K, T>
    requires p < |r.lru|
  {
    AppendRep(UnlinkRep(r, p), r.lru[p])
  }

  lemma UnlinkedOk<K, T>(r: Rep<K, T>, p: nat)
    requires RepOk(r) && p < |r.lru|
    ensures var u := UnlinkRep(r, p);
            && SameButLinks(r.slab, u.slab) && Linked(u.slab, u.lru, u.head, u.tail)
            && IndexOk(u.index, u.slab) && FreeOk(u.free, u.slab) && HeapOk(u.heap, u.slab, u.tickets)
              && CreatedOk(u.slab, u.seqNo)
            && (forall i :: Live(u.slab, i) && i != r.lru[p] ==> i in u.lru)
            && r.lru[p] !in u.lru && Live(u.slab, r.lru[p])
  {
    UnlinkBypasses(r.slab, r.lru, r.head, r.tail, p);
    var u := UnlinkRep(r, p);
    LinksDoNotMatter(r.index, r.free, r.heap, r.seqNo, r.tickets, r.slab, u.slab);
    assert Live(r.slab, r.lru[p]);
    CoversWithout(r.slab, r.lru, p);
  }

  lemma CoversWithout<K, T>(slab: Slab<K, T>, lru: seq<nat>, p: nat)
    requires Covers(slab, lru) && Distinct(lru) && p < |lru|
    ensures forall i :: Live(slab, i) && i != lru[p] ==> i in KeyedState.Without(lru, p)
    ensures lru[p] !in KeyedState.Without(lru, p)
  {
    forall i | Live(slab, i) && i != lru[p] ensures i in KeyedState.Without(lru, p) {
      StaysIn(lru, p, i);
    }
  }

  lemma StaysIn(lru: seq<nat>, p: nat, i: int)
    requires p < |lru| && i in lru && i != lru[p]
    ensures i in KeyedState.Without(lru, p)
  {
    var q :| 0 <= q < |lru| && lru[q] == i;
    assert KeyedState.Without(lru, p)[if q < p then q else q - 1] == i;
  }

  lemma TouchedOk<K, T>(r: Rep<K, T>, p: nat)
    requires RepOk(r) && p < |r.lru|
    ensures RepOk(TouchRep(r, p)) && SameButLinks(r.slab, TouchRep(r, p).slab)
  {
    UnlinkedOk(r, p);
    var u, slot := UnlinkRep(r, p), r.lru[p];
    PushBackAppends(u.slab, u.lru, u.head, u.tail, slot);
    var t := AppendRep(u, slot);
    LinksDoNotMatter(u.index, u.free, u.heap, u.seqNo, u.tickets, u.slab, t.slab);
    assert Covers(t.slab, t.lru);
  }

  // ---------------------------------------------------------------- remove and insert

  /** `remove`: the key at position `p` leaves list, slab and index. */
  function RemoveRep<K, T>(r: Rep<K, T>, p: nat): Rep<K, T>
    requires p < |r.lru| && Live(r.slab, r.lru[p])
  {
    var u := UnlinkRep(r, p);
    u.(slab := u.slab[r.lru[p] := None], index := r.index - {KeyAt(r, p)}, free := r.free + [r.lru[p]])
  }

  lemma VacatedIndex<K, T>(index: map<K, nat>, free: seq<nat>, slab: Slab<K, T>, slot: nat)
    requires Live(slab, slot) && IndexOk(index, slab) && FreeOk(free, slab)
    ensures IndexOk(index - {slab[slot].value.key}, slab[slot := None]) && FreeOk(free + [slot], slab[slot := None])
  {
    assert slot !in free;
    assert forall i :: Live(slab[slot := None], i) ==> Live(slab, i) && i != slot;
  }

  lemma VacatedHeap<K, T>(heap: set<Due>, seqNo: nat, tickets: nat, slab: Slab<K, T>, slot: nat)
    requires Live(slab, slot) && HeapOk(heap, slab, tickets) && CreatedOk(slab, seqNo)
    ensures HeapOk(heap, slab[slot := None], tickets) && CreatedOk(slab[slot := None], seqNo)
  {
    assert forall i :: Live(slab[slot := None], i) ==> Live(slab, i) && i != slot;
  }

  lemma VacatedList<K, T>(lru: seq<nat>, head: int, tail: int, slab: Slab<K, T>, slot: nat)
    requires Live(slab, slot) && slot !in lru
    requires Linked(slab, lru, head, tail) && forall i :: Live(slab, i) && i != slot ==> i in lru
    ensures Linked(slab[slot := None], lru, head, tail) && Covers(slab[slot := None], lru)
  {
    var after := slab[slot := None];
    assert forall i :: Live(after, i) ==> Live(slab, i) && i != slot;
    forall p | 0 <= p < |lru| ensures Live(after, lru[p]) && after[lru[p]] == slab[lru[p]] {
      assert Live(slab, lru[p]) && lru[p] in lru;
    }
  }

  lemma OneLess<K, V>(m: map<K, V>, k: K)
    requires k in m
    ensures |m - {k}| == |m| - 1
  {
    assert (m - {k}).Keys == m.Keys - {k};
    assert |m| == |m.Keys| && |m - {k}| == |(m - {k}).Keys|;
  }

  lemma OneMore<K, V>(m: map<K, V>, k: K, v: V)
    requires k !in m
    ensures |m[k := v]| == |m| + 1
  {
    assert m[k := v].Keys == m.Keys + {k};
    assert |m| == |m.Keys| && |m[k := v]| == |m[k := v].Keys|;
  }

  lemma RemovedOk<K, T>(r: Rep<K, T>, p: nat)
    requires RepOk(r) && p < |r.lru|
    ensures Live(r.slab, r.lru[p]) && Live(UnlinkRep(r, p).slab, r.lru[p]) && SameButLinks(r.slab, UnlinkRep(r, p).slab)
    ensures RepOk(RemoveRep(r, p)) && |RemoveRep(r, p).index| == |r.index| - 1
    ensures forall i :: Live(RemoveRep(r, p).slab, i) ==>
              Live(r.slab, i) && i != r.lru[p] && SameEntry(RemoveRep(r, p).slab[i].value, r.slab[i].value)
  {
    UnlinkedOk(r, p);
    var u, slot := UnlinkRep(r, p), r.lru[p];
    VacatedIndex(u.index, u.free, u.slab, slot);
    VacatedHeap(u.heap, u.seqNo, u.tickets, u.slab, slot);
    VacatedList(u.lru, u.head, u.tail, u.slab, slot);
    OneLess(r.index, KeyAt(r, p));
  }

  function NewEntry<K, T>(key: K, policy: Policy, created: nat): KeyEntry<K, T> {
    KeyEntry(key, NewCore(policy), created, NIL, NIL, 0, None)
  }

  /** The cell a new key goes to: the last free one, or one more at the end of the slab. */
  function NewSlot<K, T>(r: Rep<K, T>): nat {
    if r.free == [] then |r.slab| else r.free[|r.free| - 1]
  }

  /** The new key in its cell, not yet in the list. */
  function FilledRep<K, T>(r: Rep<K, T>, key: K, policy: Policy): Rep<K, T>
    requires NewSlot(r) <= |r.slab|
  {
    var slot, entry := NewSlot(r), Some(NewEntry(key, policy, r.seqNo + 1));
    r.(slab := if slot == |r.slab| then r.slab + [entry] else r.slab[slot := entry],
       free := if r.free == [] then [] else r.free[..|r.free| - 1],
       index := r.index[key := slot],
       seqNo := r.seqNo + 1)
  }

  /** `touch` of a key that is not held. */
  function InsertRep<K, T>(r: Rep<K, T>, key: K, policy: Policy): Rep<K, T>
    requires NewSlot(r) <= |r.slab|
  {
    AppendRep(FilledRep(r, key, policy), NewSlot(r)).(peak := Max(r.peak, |r.index| + 1))
  }

  lemma CellIsFree<K, T>(r: Rep<K, T>)
    requires RepOk(r)
    ensures NewSlot(r) <= |r.slab| && NewSlot(r) !in r.lru && !Live(r.slab, NewSlot(r))
  {
    assert forall p :: 0 <= p < |r.lru| ==> Live(r.slab, r.lru[p]);
  }

  lemma FilledSlab<K, T>(r: Rep<K, T>, key: K, policy: Policy)
    requires NewSlot(r) <= |r.slab| && !Live(r.slab, NewSlot(r))
    ensures forall i :: Live(FilledRep(r, key, policy).slab, i) <==> Live(r.slab, i) || i == NewSlot(r)
    ensures FilledRep(r, key, policy).slab[NewSlot(r)] == Some(NewEntry(key, policy, r.seqNo + 1))
    ensures forall i :: Live(r.slab, i) ==> i != NewSlot(r) && FilledRep(r, key, policy).slab[i] == r.slab[i]
  {
    hide NewEntry;
  }

  lemma FilledOk<K, T>(r: Rep<K, T>, key: K, policy: Policy)
    requires RepOk(r) && key !in r.index
    ensures NewSlot(r) <= |r.slab| && NewSlot(r) !in r.lru
    ensures forall i :: Live(FilledRep(r, key, policy).slab, i) <==> Live(r.slab, i) || i == NewSlot(r)
    ensures FilledRep(r, key, policy).slab[NewSlot(r)] == Some(NewEntry(key, policy, r.seqNo + 1))
    ensures forall i :: Live(r.slab, i) ==> i != NewSlot(r) && FilledRep(r, key, policy).slab[i] == r.slab[i]
  {
    CellIsFree(r);
    hide *;
    FilledSlab(r, key, policy);
  }

  lemma FilledIndexOk<K, T>(r: Rep<K, T>, key: K, policy: Policy)
    requires RepOk(r) && key !in r.index
    ensures NewSlot(r) <= |r.slab|
    ensures var f := FilledRep(r, key, policy);
            IndexOk(f.index, f.slab) && |f.index| == |r.index| + 1
  {
    FilledOk(r, key, policy);
    OneMore(r.index, key, NewSlot(r));
  }

  lemma FilledFreeOk<K, T>(r: Rep<K, T>, key: K, policy: Policy)
    requires RepOk(r) && key !in r.index
    ensures NewSlot(r) <= |r.slab|
    ensures var f := FilledRep(r, key, policy);
            FreeOk(f.free, f.slab) && |f.slab| == |r.lru| + 1 + |f.free|
  {
    FilledOk(r, key, policy);
    var f := FilledRep(r, key, policy);
    forall p | 0 <= p < |f.free| ensures f.free[p] < |f.slab| && f.slab[f.free[p]].None? {
      assert f.free[p] == r.free[p];
    }
  }

  lemma FilledHeapOk<K, T>(r: Rep<K, T>, key: K, policy: Policy)
    requires RepOk(r) && key !in r.index
    ensures NewSlot(r) <= |r.slab|
    ensures var f := FilledRep(r, key, policy);
            HeapOk(f.heap, f.slab, f.tickets) && CreatedOk(f.slab, f.seqNo)
  {
    FilledOk(r, key, policy);
  }

  lemma FilledListOk<K, T>(r: Rep<K, T>, key: K, policy: Policy)
    requires RepOk(r) && key !in r.index
    ensures NewSlot(r) <= |r.slab|
    ensures var f := FilledRep(r, key, policy);
            Linked(f.slab, f.lru, f.head, f.tail) && forall i :: Live(f.slab, i) ==> i in f.lru || i == NewSlot(r)
  {
    FilledOk(r, key, policy);
    var f := FilledRep(r, key, policy);
    forall p | 0 <= p < |f.lru| ensures Live(f.slab, f.lru[p]) && f.slab[f.lru[p]] == r.slab[f.lru[p]] {
      assert Live(r.slab, r.lru[p]);
    }
  }

  lemma InsertedOk<K, T>(r: Rep<K, T>, key: K, policy: Policy)
    requires RepOk(r) && key !in r.index
    ensures NewSlot(r) <= |r.slab|
    ensures var after := InsertRep(r, key, policy);
            && RepOk(after) && |after.index| == |r.index| + 1
            && SameButLinks(FilledRep(r, key, policy).slab, after.slab)
  {
    hide IndexOk, FreeOk, HeapOk, CreatedOk;
    FilledOk(r, key, policy);
    FilledIndexOk(r, key, policy);
    FilledFreeOk(r, key, policy);
    FilledHeapOk(r, key, policy);
    FilledListOk(r, key, policy);
    var f, after := FilledRep(r, key, policy), InsertRep(r, key, policy);
    PushBackAppends(f.slab, f.lru, f.head, f.tail, NewSlot(r));
    LinksDoNotMatter(f.index, f.free, f.heap, f.seqNo, f.tickets, f.slab, after.slab);
    assert Covers(after.slab, after.lru);
  }

  // ---------------------------------------------------------------- heap operations

  /** `compact_heap`: rebuild from the live entries once stale ones dominate. */
  ghost function Compacted<K, T>(heap: set<Due>, slab: Slab<K, T>, live: nat): set<Due> {
    if |heap| <= 2 * live + 64 then heap else LiveEntries(slab)
  }

  /** The key in `slot` gets a new heap entry. */
  ghost function ScheduleRep<K, T>(r: Rep<K, T>, slot: nat, deadline: int): Rep<K, T>
    requires Live(r.slab, slot)
  {
    var slab := r.slab[slot := Some(r.slab[slot].value.(ticket := r.tickets + 1, scheduled := Some(deadline)))];
    r.(slab := slab, tickets := r.tickets + 1,
       heap := Compacted(r.heap + {Due(deadline, r.tickets + 1, slot)}, slab, |r.index|))
  }

  /** A slab in which one cell changed, but not its key, links or creation number. */
  lemma EntryUpdateOk<K, T>(r: Rep<K, T>, slot: nat, e: KeyEntry<K, T>)
    requires RepOk(r) && Live(r.slab, slot)
    requires var was := r.slab[slot].value;
             e == was.(core := e.core, ticket := e.ticket, scheduled := e.scheduled)
    ensures var slab := r.slab[slot := Some(e)];
            && IndexOk(r.index, slab) && FreeOk(r.free, slab) && CreatedOk(slab, r.seqNo)
            && Linked(slab, r.lru, r.head, r.tail) && Covers(slab, r.lru)
            && (forall i :: Live(slab, i) <==> Live(r.slab, i))
  {
    UpdateKeepsIndex(r.index, r.free, r.seqNo, r.slab, slot, e);
    UpdateKeepsList(r.lru, r.slab, slot, e);
  }

  lemma UpdateKeepsList<K, T>(lru: seq<nat>, slab: Slab<K, T>, slot: nat, e: KeyEntry<K, T>)
    requires Spelled(slab, lru) && Covers(slab, lru) && Live(slab, slot)
    requires e.prev == slab[slot].value.prev && e.next == slab[slot].value.next
    ensures Spelled(slab[slot := Some(e)], lru) && Covers(slab[slot := Some(e)], lru)
  {
    var after := slab[slot := Some(e)];
    assert forall i :: Live(after, i) <==> Live(slab, i);
    assert forall i :: Live(slab, i) ==>
      after[i].value.prev == slab[i].value.prev && after[i].value.next == slab[i].value.next;
  }

  lemma UpdateKeepsIndex<K, T>(
      index: map<K, nat>, free: seq<nat>, seqNo: nat, slab: Slab<K, T>, slot: nat, e: KeyEntry<K, T>)
    requires IndexOk(index, slab) && FreeOk(free, slab) && CreatedOk(slab, seqNo) && Live(slab, slot)
    requires e.key == slab[slot].value.key && e.created == slab[slot].value.created
    ensures var after := slab[slot := Some(e)];
            && IndexOk(index, after) && FreeOk(free, after) && CreatedOk(after, seqNo)
            && (forall i :: Live(after, i) <==> Live(slab, i))
  {
    assert forall i :: Live(slab[slot := Some(e)], i) <==> Live(slab, i);
  }

  lemma ScheduledOk<K, T>(r: Rep<K, T>, slot: nat, deadline: int)
    requires RepOk(r) && Live(r.slab, slot)
    ensures RepOk(ScheduleRep(r, slot, deadline))
    ensures ScheduleRep(r, slot, deadline).heap <= r.heap + {Due(deadline, r.tickets + 1, slot)}
  {
    var e := r.slab[slot].value.(ticket := r.tickets + 1, scheduled := Some(deadline));
    var slab, heap := r.slab[slot := Some(e)], r.heap + {Due(deadline, r.tickets + 1, slot)};
    EntryUpdateOk(r, slot, e);
    ScheduleKeepsHeap(r.heap, r.slab, r.tickets, slot, deadline);
    CompactionKeepsLive(heap, slab, r.tickets + 1, r.lru);
    hide IndexOk, FreeOk, Linked, Covers, HeapOk, CreatedOk, LiveEntries;
  }

  /** Popping the least heap entry; if it is its key's live entry, the key stops being scheduled. */
  function PopRep<K, T>(r: Rep<K, T>, d: Due): Rep<K, T> {
    r.(heap := r.heap - {d},
       slab := if Live(r.slab, d.slot) && r.slab[d.slot].value.ticket == d.ticket
               then r.slab[d.slot := Some(r.slab[d.slot].value.(scheduled := None))]
               else r.slab)
  }

  lemma PoppedOk<K, T>(r: Rep<K, T>, d: Due)
    requires RepOk(r) && d in r.heap
    ensures RepOk(PopRep(r, d))
  {
    PopKeepsHeap(r.heap, r.slab, r.tickets, d);
    if Live(r.slab, d.slot) && r.slab[d.slot].value.ticket == d.ticket {
      EntryUpdateOk(r, d.slot, r.slab[d.slot].value.(scheduled := None));
    }
  }

  function SetCoreRep<K, T>(r: Rep<K, T>, slot: nat, core: Core<T>): Rep<K, T>
    requires Live(r.slab, slot)
  {
    r.(slab := r.slab[slot := Some(r.slab[slot].value.(core := core))])
  }

  lemma CoreSetOk<K, T>(r: Rep<K, T>, slot: nat, core: Core<T>)
    requires RepOk(r) && Live(r.slab, slot)
    ensures RepOk(SetCoreRep(r, slot, core))
  {
    hide IndexOk, FreeOk, Linked, Covers, CreatedOk;
    EntryUpdateOk(r, slot, r.slab[slot].value.(core := core));
  }

  /** Equal but for the LRU links. */
  ghost predicate SameEntry<K, T>(a: KeyEntry<K, T>, b: KeyEntry<K, T>) {
    a == b.(prev := a.prev, next := a.next)
  }
}
