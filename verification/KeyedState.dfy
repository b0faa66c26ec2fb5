/**
  The parts of the keyed window stage of src/window.rs and what it means for them
  to fit together: slab, free list, intrusive LRU links, hash index, deadline heap.

  Everything here is about values; `KeyedStage` keeps them in the fields of a class.
  `NIL` is -1 (the program uses `usize::MAX`; both are never a slab index). The
  binary heap is the set of its entries: tickets make entries distinct, and `peek`
  and `pop` return the least entry in the order of `Due`.
*/
module KeyedState {
  import opened Options
  import opened WindowCore

  const NIL := -1

  datatype KeyEntry<!K, T> = KeyEntry(
    key: K, core: Core<T>, created: nat, prev: int, next: int, ticket: nat, scheduled: Option<int>)

  type Slab<!K, T> = seq<Option<KeyEntry<K, T>>>

  /** A heap entry; ties on the deadline resolve in scheduling order. */
  datatype Due = Due(deadline: int, ticket: nat, slot: nat)

  predicate Precedes(a: Due, b: Due) {
    a.deadline < b.deadline || (a.deadline == b.deadline && a.ticket < b.ticket)
  }

  predicate Live<K, T>(slab: Slab<K, T>, slot: int) {
    0 <= slot < |slab| && slab[slot].Some?
  }

  // ---------------------------------------------------------------- index and free list

  ghost predicate IndexOk<K, T>(index: map<K, nat>, slab: Slab<K, T>) {
    && (forall k :: k in index ==> Live(slab, index[k]) && slab[index[k]].value.key == k)
    && (forall i :: Live(slab, i) ==> slab[i].value.key in index && index[slab[i].value.key] == i)
  }

  predicate Distinct(s: seq<nat>) {
    forall i, j :: 0 <= i < j < |s| ==> s[i] != s[j]
  }

  ghost predicate FreeOk<K, T>(free: seq<nat>, slab: Slab<K, T>) {
    && Distinct(free)
    && (forall p :: 0 <= p < |free| ==> free[p] < |slab| && slab[free[p]].None?)
  }

  // ---------------------------------------------------------------- LRU list

  function PrevOf(lru: seq<nat>, p: nat): int
    requires p < |lru|
  {
    if p == 0 then NIL else lru[p - 1]
  }

  function NextOf(lru: seq<nat>, p: nat): int
    requires p < |lru|
  {
    if p == |lru| - 1 then NIL else lru[p + 1]
  }

  function HeadOf(lru: seq<nat>): int { if lru == [] then NIL else lru[0] }

  function TailOf(lru: seq<nat>): int { if lru == [] then NIL else lru[|lru| - 1] }

  ghost predicate Spelled<K, T>(slab: Slab<K, T>, lru: seq<nat>) {
    forall p {:trigger slab[lru[p]]} {:trigger Live(slab, lru[p])} :: 0 <= p < |lru| ==>
      && Live(slab, lru[p])
      && slab[lru[p]].value.prev == PrevOf(lru, p)
      && slab[lru[p]].value.next == NextOf(lru, p)
  }

  /** The links spell `lru`, forwards from `head` and backwards from `tail`. */
  ghost predicate Linked<K, T>(slab: Slab<K, T>, lru: seq<nat>, head: int, tail: int) {
    Distinct(lru) && Spelled(slab, lru) && head == HeadOf(lru) && tail == TailOf(lru)
  }

  ghost predicate Covers<K, T>(slab: Slab<K, T>, lru: seq<nat>) {
    forall i :: Live(slab, i) ==> i in lru
  }

  function Without(lru: seq<nat>, p: nat): seq<nat>
    requires p < |lru|
  {
    lru[..p] + lru[p + 1..]
  }

  function WithNext<K, T>(slab: Slab<K, T>, slot: int, next: int): (after: Slab<K, T>)
    ensures |after| == |slab|
  {
    if Live(slab, slot) then slab[slot := Some(slab[slot].value.(next := next))] else slab
  }

  function WithPrev<K, T>(slab: Slab<K, T>, slot: int, prev: int): (after: Slab<K, T>)
    ensures |after| == |slab|
  {
    if Live(slab, slot) then slab[slot := Some(slab[slot].value.(prev := prev))] else slab
  }

  /** Equal but for the LRU links. */
  ghost predicate SameButLinks<K, T>(a: Slab<K, T>, b: Slab<K, T>) {
    && |a| == |b|
    && (forall i :: 0 <= i < |a| ==> a[i].Some? == b[i].Some?)
    && (forall i :: Live(a, i) ==> b[i].value == a[i].value.(prev := b[i].value.prev, next := b[i].value.next))
  }

  /** Making two neighbours point at each other. */
  function Joined<K, T>(slab: Slab<K, T>, prev: int, next: int): Slab<K, T> {
    WithPrev(WithNext(slab, prev, next), next, prev)
  }

  lemma JoinedChangesLinksOnly<K, T>(slab: Slab<K, T>, prev: int, next: int)
    ensures SameButLinks(slab, Joined(slab, prev, next))
  {
  }

  /** Removing position `p` changes the neighbours of its neighbours only. */
  lemma NeighboursWithout(lru: seq<nat>, p: nat, q: nat)
    requires Distinct(lru) && p < |lru| && q < |lru| && q != p
    ensures var r, rest := if q < p then q else q - 1, Without(lru, p);
            && rest[r] == lru[q]
            && PrevOf(rest, r) == (if lru[q] == NextOf(lru, p) then PrevOf(lru, p) else PrevOf(lru, q))
            && NextOf(rest, r) == (if lru[q] == PrevOf(lru, p) then NextOf(lru, p) else NextOf(lru, q))
  {
  }

  lemma EndsWithout(lru: seq<nat>, p: nat)
    requires Distinct(lru) && p < |lru|
    ensures var rest := Without(lru, p);
            && Distinct(rest)
            && HeadOf(rest) == (if p == 0 then NextOf(lru, p) else lru[0])
            && TailOf(rest) == (if p == |lru| - 1 then PrevOf(lru, p) else lru[|lru| - 1])
  {
  }

  /** Bypassing position `p` leaves a list without it. */
  lemma UnlinkBypasses<K, T>(slab: Slab<K, T>, lru: seq<nat>, head: int, tail: int, p: nat)
    requires Linked(slab, lru, head, tail) && p < |lru|
    ensures var prev, next := PrevOf(lru, p), NextOf(lru, p);
            && SameButLinks(slab, Joined(slab, prev, next))
            && Linked(Joined(slab, prev, next), Without(lru, p),
                      if Live(slab, prev) then head else next, if Live(slab, next) then tail else prev)
  {
    var prev, next := PrevOf(lru, p), NextOf(lru, p);
    assert p > 0 ==> Live(slab, lru[p - 1]);
    assert p < |lru| - 1 ==> Live(slab, lru[p + 1]);
    EndsWithout(lru, p);
    assert Spelled(Joined(slab, prev, next), Without(lru, p)) by {
      JoinSpells(slab, lru, p);
    }
    JoinedChangesLinksOnly(slab, prev, next);
  }

  lemma JoinSpells<K, T>(slab: Slab<K, T>, lru: seq<nat>, p: nat)
    requires Distinct(lru) && Spelled(slab, lru) && p < |lru|
    ensures Spelled(Joined(slab, PrevOf(lru, p), NextOf(lru, p)), Without(lru, p))
  {
    var after, rest := Joined(slab, PrevOf(lru, p), NextOf(lru, p)), Without(lru, p);
    forall r | 0 <= r < |rest|
      ensures Live(after, rest[r]) && after[rest[r]].value.prev == PrevOf(rest, r)
      ensures after[rest[r]].value.next == NextOf(rest, r)
    {
      var q := if r < p then r else r + 1;
      NeighboursWithout(lru, p, q);
      JoinedLinkAt(slab, PrevOf(lru, p), NextOf(lru, p), lru[q]);
    }
  }

  lemma JoinedLinkAt<K, T>(slab: Slab<K, T>, prev: int, next: int, i: int)
    requires Live(slab, i)
    ensures && Live(Joined(slab, prev, next), i)
            && Joined(slab, prev, next)[i].value.prev == (if i == next then prev else slab[i].value.prev)
            && Joined(slab, prev, next)[i].value.next == (if i == prev then next else slab[i].value.next)
  {
  }

  function Placed<K, T>(slab: Slab<K, T>, slot: nat, prev: int, next: int): Slab<K, T> {
    if Live(slab, slot) then slab[slot := Some(slab[slot].value.(prev := prev, next := next))] else slab
  }

  /** `slot` placed after `tail`, and `tail` pointed at it. */
  function Appended<K, T>(slab: Slab<K, T>, slot: nat, tail: int): Slab<K, T> {
    WithNext(Placed(slab, slot, tail, NIL), tail, slot)
  }

  lemma AppendedLinkAt<K, T>(slab: Slab<K, T>, slot: nat, tail: int, i: int)
    requires Live(slab, slot) && tail != slot && Live(slab, i)
    ensures && Live(Appended(slab, slot, tail), i)
            && Appended(slab, slot, tail)[i].value.prev == (if i == slot then tail else slab[i].value.prev)
            && Appended(slab, slot, tail)[i].value.next
              == (if i == tail then slot else if i == slot then NIL else slab[i].value.next)
  {
  }

  lemma AppendedChangesLinksOnly<K, T>(slab: Slab<K, T>, slot: nat, tail: int)
    requires Live(slab, slot)
    ensures SameButLinks(slab, Appended(slab, slot, tail))
  {
  }

  /** Appending a live slot that is not in the list. */
  lemma PushBackAppends<K, T>(slab: Slab<K, T>, lru: seq<nat>, head: int, tail: int, slot: nat)
    requires Linked(slab, lru, head, tail) && Live(slab, slot) && slot !in lru
    ensures SameButLinks(slab, Appended(slab, slot, tail))
    ensures Linked(Appended(slab, slot, tail), lru + [slot], if Live(slab, tail) then head else slot, slot)
  {
    var after, more := Appended(slab, slot, tail), lru + [slot];
    assert lru != [] ==> Live(slab, lru[|lru| - 1]) && lru[|lru| - 1] in lru;
    forall q | 0 <= q < |more|
      ensures Live(after, more[q]) && after[more[q]].value.prev == PrevOf(more, q)
      ensures after[more[q]].value.next == NextOf(more, q)
    {
      assert q < |lru| ==> Live(slab, lru[q]) && lru[q] in lru;
      AppendedLinkAt(slab, slot, tail, more[q]);
    }
    AppendedChangesLinksOnly(slab, slot, tail);
  }

  // ---------------------------------------------------------------- heap

  /**
    Tickets name heap entries: entries have different tickets, all given out so far;
    a key is scheduled exactly when the heap holds its live entry.
  */
  ghost predicate HeapOk<K, T>(heap: set<Due>, slab: Slab<K, T>, tickets: nat) {
    && (forall d :: d in heap ==> 1 <= d.ticket <= tickets)
    && (forall d, e :: d in heap && e in heap && d.ticket == e.ticket ==> d == e)
    && (forall i :: Live(slab, i) ==> slab[i].value.ticket <= tickets)
    && (forall i :: Live(slab, i) && slab[i].value.scheduled.Some? ==>
          Due(slab[i].value.scheduled.value, slab[i].value.ticket, i) in heap)
    && (forall d :: d in heap && Live(slab, d.slot) && slab[d.slot].value.ticket == d.ticket ==>
          slab[d.slot].value.scheduled == Some(d.deadline))
  }

  ghost predicate IsLeast(heap: set<Due>, d: Due) {
    d in heap && forall e :: e in heap && e != d ==> Precedes(d, e)
  }

  ghost predicate TicketsDiffer(heap: set<Due>) {
    forall d, e :: d in heap && e in heap && d.ticket == e.ticket ==> d == e
  }

  lemma {:induction false} LeastExists(heap: set<Due>)
    requires heap != {} && TicketsDiffer(heap)
    ensures exists d :: IsLeast(heap, d)
    decreases |heap|
  {
    var d :| d in heap;
    var rest := heap - {d};
    if rest == {} {
      assert heap == rest + {d};
      assert forall e :: e in heap ==> e == d;
      assert IsLeast(heap, d);
    } else {
      LeastExists(rest);
      var e :| IsLeast(rest, e);
      assert heap == rest + {d} && d.ticket != e.ticket;
      var least := if Precedes(d, e) then d else e;
      assert forall f :: f in heap && f != least ==> Precedes(least, f);
      assert IsLeast(heap, least);
    }
  }

  /** The heap entries that are due at `now`. */
  ghost function DueBy(heap: set<Due>, now: int): set<Due> {
    set d | d in heap && d.deadline <= now
  }

  /** The live entries: what `compact_heap` rebuilds the heap from. */
  ghost function LiveEntries<K, T>(slab: Slab<K, T>): set<Due> {
    set i | 0 <= i < |slab| && slab[i].Some? && slab[i].value.scheduled.Some?
      :: Due(slab[i].value.scheduled.value, slab[i].value.ticket, i)
  }

  /** Entries for different slots of a list are no more than the list is long. */
  lemma {:induction false} EntriesFit(entries: set<Due>, lru: seq<nat>)
    requires forall d :: d in entries ==> d.slot in lru
    requires forall d, e :: d in entries && e in entries && d.slot == e.slot ==> d == e
    ensures |entries| <= |lru|
  {
    if lru != [] {
      var rest := set d | d in entries && d.slot != lru[0];
      EntriesFit(rest, lru[1..]);
      if d :| d in entries && d.slot == lru[0] {
        assert entries == rest + {d};
      } else {
        assert entries == rest;
      }
    }
  }

  lemma CompactionKeepsLive<K, T>(heap: set<Due>, slab: Slab<K, T>, tickets: nat, lru: seq<nat>)
    requires HeapOk(heap, slab, tickets) && Covers(slab, lru)
    ensures HeapOk(LiveEntries(slab), slab, tickets)
    ensures LiveEntries(slab) <= heap && |LiveEntries(slab)| <= |lru|
  {
    var entries := LiveEntries(slab);
    forall d | d in entries ensures Live(slab, d.slot) && d in heap && d.slot in lru {
    }
    EntriesFit(entries, lru);
  }

  /** Giving a key a new entry under a fresh ticket. */
  lemma ScheduleKeepsHeap<K, T>(heap: set<Due>, slab: Slab<K, T>, tickets: nat, slot: nat, deadline: int)
    requires HeapOk(heap, slab, tickets) && Live(slab, slot)
    ensures HeapOk(heap + {Due(deadline, tickets + 1, slot)},
                   slab[slot := Some(slab[slot].value.(ticket := tickets + 1, scheduled := Some(deadline)))],
                     tickets + 1)
  {
  }

  /** Popping an entry; if it is live, its key stops being scheduled. */
  lemma PopKeepsHeap<K, T>(heap: set<Due>, slab: Slab<K, T>, tickets: nat, d: Due)
    requires HeapOk(heap, slab, tickets) && d in heap
    ensures !(Live(slab, d.slot) && slab[d.slot].value.ticket == d.ticket) ==> HeapOk(heap - {d}, slab, tickets)
    ensures Live(slab, d.slot) && slab[d.slot].value.ticket == d.ticket ==>
              HeapOk(heap - {d}, slab[d.slot := Some(slab[d.slot].value.(scheduled := None))], tickets)
  {
  }
}
