/**
  Which key came first. A key is born with an item that finds it missing, be it that the key never
  was there or that it has been released or evicted, and a flush emits the keys in the order of
  their births. The births are told from the set of the keys held alone, without the numbers
  the stage gives out.
*/
module KeyedBirths {
  import opened Options
  import opened WindowCore
  import opened WindowRuns
  import opened NaiveKeyed
  import opened KeyedState
  import opened KeyedRep
  import opened KeyedRefines
  import opened KeyedOrder
  import opened KeyedItem
  import opened KeyedHeap
  import opened KeyedAlarms

  /** The number of the item with which each key that is held was born. */
  type Births<!K> = map<K, nat>

  function Remaining<K(==)>(births: Births<K>, held: set<K>): Births<K> {
    map k | k in births && k in held :: births[k]
  }

  /** After the item with this number, of a key that was there to receive it or not. */
  function BornAfter<K(==)>(births: Births<K>, held: set<K>, key: K, stays: bool, number: nat): Births<K> {
    if key in births && stays then Remaining(births, held) else Remaining(births, held)[key := number]
  }

  // ---------------------------------------------------------------- the reference

  /** An item finds the keys that a tick at its instant would leave. */
  ghost function NextBirths<K, T>(s: Keyed<K, T>, n: Naive<K, T>, births: Births<K>, e: Event<T>): Births<K> {
    var held := Next(s, n, e).keys.Keys;
    if e.Item? then BornAfter(births, held, s.key(e.x), s.key(e.x) in Next(s, n, Event.Tick(e.at)).keys, n.seqNo + 1)
    else Remaining(births, held)
  }

  ghost function BirthRun<K, T>(s: Keyed<K, T>, es: seq<Event<T>>): Births<K> {
    if es == [] then map[]
    else
      var before := es[..|es| - 1];
      NextBirths(s, NaiveRun(s, before), BirthRun(s, before), es[|es| - 1])
  }

  /** Event `i` is an item of `k` that does not find it. */
  ghost predicate Bears<K, T>(s: Keyed<K, T>, es: seq<Event<T>>, i: nat, k: K)
    requires i < |es|
  {
    && es[i].Item? && s.key(es[i].x) == k
    && k !in NaiveRun(s, es[..i] + [Event<T>.Tick(es[i].at)]).keys
  }

  /** Since event `i` key `k` is held, and each of its items finds it. */
  ghost predicate StaysSince<K, T>(s: Keyed<K, T>, es: seq<Event<T>>, i: nat, k: K) {
    forall j :: i < j <= |es| ==>
      && k in NaiveRun(s, es[..j]).keys
      && (j < |es| ==> !Bears(s, es, j, k))
  }

  lemma StaysLonger<K, T>(s: Keyed<K, T>, es: seq<Event<T>>, e: Event<T>, i: nat, k: K)
    requires i < |es| && Bears(s, es, i, k) && StaysSince(s, es, i, k)
    requires k in NaiveRun(s, es + [e]).keys && !Bears(s, es + [e], |es|, k)
    ensures Bears(s, es + [e], i, k) && StaysSince(s, es + [e], i, k)
  {
    hide NaiveRun;
    var run := es + [e];
    forall j | 0 <= j <= |es| ensures run[..j] == es[..j] {}
    assert run[..|run|] == run && es[..|es|] == es;
    forall j | i < j <= |run| ensures k in NaiveRun(s, run[..j]).keys && (j < |run| ==> !Bears(s, run, j, k)) {
      if j < |es| { assert !Bears(s, es, j, k) && run[j] == es[j]; }
    }
    assert run[i] == es[i];
  }

  lemma HeldBefore<K, T>(s: Keyed<K, T>, es: seq<Event<T>>, e: Event<T>, k: K)
    requires k in NaiveRun(s, es + [e]).keys && !Bears(s, es + [e], |es|, k)
    ensures k in NaiveRun(s, es).keys && (k in BirthRun(s, es) ==>
      k in BirthRun(s, es + [e]) && BirthRun(s, es + [e])[k] == BirthRun(s, es)[k])
  {
    assert (es + [e])[..|es|] == es;
    RunOn(s, es, e);
    RunOn(s, es, Event<T>.Tick(e.at));
    hide NaiveRun, BirthRun, OnItem, Survives, Examined, Victim;
  }

  lemma BornNow<K, T>(s: Keyed<K, T>, es: seq<Event<T>>, e: Event<T>, k: K)
    requires k in NaiveRun(s, es + [e]).keys && Bears(s, es + [e], |es|, k)
    ensures k in BirthRun(s, es + [e]) && BirthRun(s, es + [e])[k] == NaiveRun(s, es + [e]).seqNo
    ensures StaysSince(s, es + [e], |es|, k)
  {
    assert (es + [e])[..|es|] == es && (es + [e])[..|es| + 1] == es + [e];
    RunOn(s, es, e);
    RunOn(s, es, Event<T>.Tick(e.at));
    hide NaiveRun, BirthRun, OnItem, Survives, Examined, Victim;
  }

  /** A key that is held was born: its birth is the number of the last of its items that did not find it. */
  lemma {:induction false} BirthMeans<K, T>(s: Keyed<K, T>, es: seq<Event<T>>, k: K) returns (i: nat)
    requires k in NaiveRun(s, es).keys
    ensures i < |es| && Bears(s, es, i, k) && StaysSince(s, es, i, k)
    ensures k in BirthRun(s, es) && BirthRun(s, es)[k] == NaiveRun(s, es[..i + 1]).seqNo
  {
    var before, e := es[..|es| - 1], es[|es| - 1];
    assert es == before + [e];
    hide *;
    if Bears(s, before + [e], |before|, k) {
      i := |before|;
      BornNow(s, before, e, k);
      assert (before + [e])[..i + 1] == before + [e];
    } else {
      HeldBefore(s, before, e, k);
      i := BirthMeans(s, before, k);
      BirthRemains(s, before, e, k, i);
    }
  }

  lemma BirthRemains<K, T>(s: Keyed<K, T>, es: seq<Event<T>>, e: Event<T>, k: K, i: nat)
    requires i < |es| && Bears(s, es, i, k) && StaysSince(s, es, i, k)
    requires k in NaiveRun(s, es + [e]).keys && !Bears(s, es + [e], |es|, k)
    requires k in BirthRun(s, es) && BirthRun(s, es)[k] == NaiveRun(s, es[..i + 1]).seqNo
    ensures Bears(s, es + [e], i, k) && StaysSince(s, es + [e], i, k)
    ensures k in BirthRun(s, es + [e]) && BirthRun(s, es + [e])[k] == NaiveRun(s, (es + [e])[..i + 1]).seqNo
  {
    hide *;
    HeldBefore(s, es, e, k);
    StaysLonger(s, es, e, i, k);
    assert (es + [e])[..i + 1] == es[..i + 1];
  }

  lemma RunOn<K, T>(s: Keyed<K, T>, es: seq<Event<T>>, e: Event<T>)
    ensures NaiveRun(s, es + [e]) == Next(s, NaiveRun(s, es), e)
    ensures BirthRun(s, es + [e]) == NextBirths(s, NaiveRun(s, es), BirthRun(s, es), e)
  {
    assert (es + [e])[..|es|] == es;
  }

  // ---------------------------------------------------------------- the stage, for any clock

  /** The stage holds the keys that were born, and has numbered them in the order of their births. */
  ghost predicate BirthsAgree<K, T>(r: Rep<K, T>, births: Births<K>) {
    && births.Keys == r.index.Keys
    && forall i: nat, j: nat :: Live(r.slab, i) && Live(r.slab, j) ==> InBirthOrder(r, births, i, j)
  }

  ghost predicate InBirthOrder<K, T>(r: Rep<K, T>, births: Births<K>, i: nat, j: nat)
    requires Live(r.slab, i) && Live(r.slab, j)
  {
    var a, b := r.slab[i].value, r.slab[j].value;
    a.key in births && b.key in births && (a.created < b.created ==> births[a.key] < births[b.key])
  }

  /** All cells but `but` hold what they held. */
  ghost predicate SameBirths<K, T>(r: Rep<K, T>, r': Rep<K, T>, but: int) {
    forall i: nat :: Live(r'.slab, i) && i != but ==> SameBirth(r, r', i)
  }

  ghost predicate SameBirth<K, T>(r: Rep<K, T>, r': Rep<K, T>, i: nat)
    requires Live(r'.slab, i)
  {
    Live(r.slab, i) && r'.slab[i].value.key == r.slab[i].value.key
    && r'.slab[i].value.created == r.slab[i].value.created
  }

  lemma SameBirthsTwice<K, T>(a: Rep<K, T>, b: Rep<K, T>, c: Rep<K, T>, but: int)
    requires SameBirths(a, b, but) && SameBirths(b, c, but)
    ensures SameBirths(a, c, but)
  {
    forall i: nat | Live(c.slab, i) && i != but ensures SameBirth(a, c, i) {
      assert SameBirth(b, c, i) && SameBirth(a, b, i);
    }
  }

  lemma TurnKeepsBirths<K, T>(r: Rep<K, T>, r': Rep<K, T>, d: Due, emitted: seq<(K, Window<T>)>, g: Grid, now: int)
    requires RepOk(r) && d in r.heap && Turned(r, r', d, emitted, g, now)
    ensures SameBirths(r, r', NIL)
  {
    hide Turned, RepOk;
    if IsCurrent(r, d) {
      TurnTouchesOne(r, r', d, emitted, g, now);
      TurnKeepsBirth(r, r', d, emitted, g, now);
      forall i: nat | Live(r'.slab, i) ensures SameBirth(r, r', i) {
        assert i != d.slot ==> Live(r.slab, i) && SameEntry(r.slab[i].value, r'.slab[i].value);
      }
    } else {
      StaleTurnFrame(r, r', d, emitted, g, now);
    }
  }

  lemma TurnKeepsBirth<K, T>(r: Rep<K, T>, r': Rep<K, T>, d: Due, emitted: seq<(K, Window<T>)>, g: Grid, now: int)
    requires RepOk(r) && d in r.heap && IsCurrent(r, d) && Turned(r, r', d, emitted, g, now)
    ensures Live(r'.slab, d.slot) ==> SameBirth(r, r', d.slot)
  {
    hide RepOk, RemoveRep, OnTick, Deadline, IsEmpty;
    if IsExamined(r, d, g, now) && IsEmpty(OnTick(r.slab[d.slot].value.core, g, now).core) {
      var p: nat :| p < |r.lru| && r.lru[p] == d.slot && r' == RemoveRep(TickedRep(r, d, g, now), p);
      ReleasedFrame(r, d, p, g, now);
    }
  }

  lemma {:induction false} TreadsKeepBirths<K, T>(
      r0: Rep<K, T>, turns: seq<Turn<K, T>>, r: Rep<K, T>, g: Grid, now: int)
    requires RepOk(r0) && Treads(r0, turns, r, g, now)
    ensures SameBirths(r0, r, NIL)
  {
    hide RepOk, Turned, SameBirths;
    if turns != [] {
      var t := turns[|turns| - 1];
      TreadsOk(r0, turns[..|turns| - 1], t.before, g, now);
      TreadsKeepBirths(r0, turns[..|turns| - 1], t.before, g, now);
      TurnKeepsBirths(t.before, r, t.d, t.emitted, g, now);
      SameBirthsTwice(r0, t.before, r, NIL);
    } else {
      NothingChanged(r0);
    }
  }

  lemma NothingChanged<K, T>(r: Rep<K, T>)
    ensures SameBirths(r, r, NIL)
  {}

  /** `expire` keeps the births of the keys it leaves. */
  lemma ExpireKeepsBirths<K, T>(r0: Rep<K, T>, x: Expiry<K, T>, g: Grid, now: int, births: Births<K>)
    requires RepOk(r0) && Expires(r0, x, g, now)
    ensures BirthsAgree(r0, births) ==> BirthsAgree(x.after, Remaining(births, x.after.index.Keys))
  {
    TreadsOk(r0, x.turns, x.after, g, now);
    TreadsKeepBirths(r0, x.turns, x.after, g, now);
    RepParts(r0);
    RepParts(x.after);
    hide RepOk, Treads, DueBy;
    if BirthsAgree(r0, births) { RemainingAgree(r0, x.after, births); }
  }

  lemma RemainingAgree<K, T>(r: Rep<K, T>, r': Rep<K, T>, births: Births<K>)
    requires IndexOk(r.index, r.slab) && IndexOk(r'.index, r'.slab) && SameBirths(r, r', NIL) && BirthsAgree(r, births)
    ensures BirthsAgree(r', Remaining(births, r'.index.Keys))
  {
    forall k | k in r'.index ensures k in births {
      assert SameBirth(r, r', r'.index[k]);
    }
    forall i: nat, j: nat | Live(r'.slab, i) && Live(r'.slab, j)
      ensures InBirthOrder(r', Remaining(births, r'.index.Keys), i, j)
    {
      assert SameBirth(r, r', i) && SameBirth(r, r', j) && InBirthOrder(r, births, i, j);
    }
  }

  // ---------------------------------------------------------------- an item

  /** Cell `slot` holds the key with the number it had, or with one later than any before. */
  ghost predicate Received<K, T>(r: Rep<K, T>, r': Rep<K, T>, slot: nat, key: K) {
    && Live(r'.slab, slot) && r'.slab[slot].value.key == key
    && if key in r.index then slot == r.index[key] && SameBirth(r, r', slot)
       else forall i: nat :: Live(r.slab, i) ==> r.slab[i].value.created < r'.slab[slot].value.created
  }

  lemma CreatedSoFar<K, T>(r: Rep<K, T>)
    requires RepOk(r)
    ensures forall i: nat :: Live(r.slab, i) ==> r.slab[i].value.created <= r.seqNo
  {}

  lemma TouchReceives<K, T>(
      r: Rep<K, T>, mid: Rep<K, T>, slot: nat, evicted: seq<(K, Window<T>)>, s: Keyed<K, T>, key: K, g: Grid, now: int)
    requires RepOk(r) && Touched(r, mid, slot, evicted, s, key, g, now)
    ensures SameBirths(r, mid, slot) && Received(r, mid, slot, key)
  {
    TouchSets(r, mid, slot, evicted, s, key, g, now);
    TouchedIsOk(r, mid, slot, evicted, s, key, g, now);
    CreatedSoFar(r);
    hide RepOk, InsertRep, NewSlot, RemoveRep, OnFlush, IsInserted;
    if key in r.index {
      SlotOfKey(r, key);
      if slot != r.tail {
        var p: nat :| p < |r.lru| && r.lru[p] == slot && mid == TouchRep(r, p);
        TouchedOk(r, p);
        LinksKeepEntries(r, mid, slot);
      }
    } else {
      var room := if |r.index| >= s.maxKeys then RemoveRep(r, 0) else r;
      if |r.index| >= s.maxKeys {
        RoomIsOk(r, key);
        RoomNumber(r);
      }
      InsertedFrame(room, mid, slot, s, key);
    }
  }

  lemma RoomNumber<K, T>(r: Rep<K, T>)
    requires r.lru != [] && Live(r.slab, r.lru[0])
    ensures RemoveRep(r, 0).seqNo == r.seqNo
  {}

  lemma AddReceives<K, T>(
      r: Rep<K, T>, mid: Rep<K, T>, r': Rep<K, T>, slot: nat, evicted: seq<(K, Window<T>)>, out: seq<(K, Window<T>)>,
      s: Keyed<K, T>, g: Grid, now: int, item: T)
    requires RepOk(r) && AddedAt(r, mid, r', slot, evicted, out, s, g, now, item)
    ensures RepOk(r') && SameBirths(r, r', slot) && Received(r, r', slot, s.key(item))
  {
    hide RepOk, Touched, OnItem;
    AddedOk(r, mid, r', slot, evicted, out, s, g, now, item);
    TouchReceives(r, mid, slot, evicted, s, s.key(item), g, now);
    ItemKeepsBirth(mid, slot, OnItem(mid.slab[slot].value.core, s.c.cap, g, now, item).core, now, s.c.horizon);
    assert SameBirth(mid, r', slot);
  }

  lemma ItemKeepsBirth<K, T>(r: Rep<K, T>, slot: nat, core: Core<T>, now: int, horizon: int)
    requires Live(r.slab, slot)
    ensures var r' := ItemRep(r, slot, core, now, horizon); Live(r'.slab, slot) && SameBirths(r, r', NIL)
  {
    hide Deadline, Compacted;
  }

  /** An item bears its key, unless it finds it, and leaves the births of the others. */
  lemma {:induction false} AddKeepsBirths<K(!new), T(!new)>(
      r: Rep<K, T>, r': Rep<K, T>, out: seq<(K, Window<T>)>, s: Keyed<K, T>, g: Grid, now: int, item: T,
      births: Births<K>, number: nat)
    requires RepOk(r) && Added(r, r', out, s, g, now, item) && BirthsAgree(r, births)
    requires forall k :: k in births ==> births[k] < number
    ensures BirthsAgree(r', BornAfter(births, r'.index.Keys, s.key(item), s.key(item) in r.index, number))
  {
    var mid, slot: nat, evicted :| AddedAt(r, mid, r', slot, evicted, out, s, g, now, item);
    hide RepOk, AddedAt, BornAfter;
    AddReceives(r, mid, r', slot, evicted, out, s, g, now, item);
    RepParts(r);
    RepParts(r');
    ReceivedAgrees(r, r', slot, s.key(item), births, number);
  }

  lemma ReceivedAgrees<K, T>(r: Rep<K, T>, r': Rep<K, T>, slot: nat, key: K, births: Births<K>, number: nat)
    requires IndexOk(r.index, r.slab) && IndexOk(r'.index, r'.slab)
    requires SameBirths(r, r', slot) && Received(r, r', slot, key) && BirthsAgree(r, births)
    requires forall k :: k in births ==> births[k] < number
    ensures BirthsAgree(r', BornAfter(births, r'.index.Keys, key, key in r.index, number))
  {
    var after := BornAfter(births, r'.index.Keys, key, key in r.index, number);
    forall k | k in r'.index && k != key ensures k in births {
      assert SameBirth(r, r', r'.index[k]);
    }
    forall i: nat, j: nat | Live(r'.slab, i) && Live(r'.slab, j) ensures InBirthOrder(r', after, i, j) {
      assert i != slot ==> SameBirth(r, r', i);
      assert j != slot ==> SameBirth(r, r', j);
      if i != slot && j != slot { assert InBirthOrder(r, births, i, j); }
      if key in r.index {
        assert InBirthOrder(r, births, i, j);
      }
    }
  }

  predicate BornBy<K>(births: Births<K>, number: nat) { forall k :: k in births ==> births[k] <= number }

  lemma NoBirths<K, T>(r: Rep<K, T>, number: nat)
    requires r.index == map[] && r.slab == []
    ensures BirthsAgree(r, map[]) && BornBy<K>(map[], number)
  {}

  lemma ItemCounts<K, T>(s: Keyed<K, T>, n: Naive<K, T>, now: int, item: T)
    ensures Next(s, n, Item(now, item)).seqNo == n.seqNo + 1
  {
    hide OnItem, TickAll, Victim;
  }

  lemma TickCounts<K, T>(s: Keyed<K, T>, n: Naive<K, T>, births: Births<K>, held: set<K>, now: int)
    ensures Next(s, n, Event<T>.Tick(now)).seqNo == n.seqNo
    ensures BornBy(births, n.seqNo) ==> BornBy(Remaining(births, held), n.seqNo)
  {}

  lemma AllRemain<K, T>(r: Rep<K, T>, births: Births<K>)
    ensures BirthsAgree(r, births) ==> BirthsAgree(r, Remaining(births, r.index.Keys))
  {
    if BirthsAgree(r, births) { assert Remaining(births, r.index.Keys) == births; }
  }

  lemma BornByNow<K>(births: Births<K>, held: set<K>, key: K, stays: bool, number: nat)
    requires BornBy(births, number)
    ensures BornBy(Remaining(births, held), number)
    ensures BornBy(BornAfter(births, held, key, stays, number + 1), number + 1)
  {}

  /** The event of an item: who has to make room, or is due, is not there any more when the item comes. */
  lemma ItemDoneBirths<K(!new), T(!new)>(
      r0: Rep<K, T>, x: Expiry<K, T>, r': Rep<K, T>, out: seq<(K, Window<T>)>, s: Keyed<K, T>, g: Grid, now: int,
      item: T, births: Births<K>, number: nat)
    requires RepOk(r0) && ItemDone(r0, x, r', out, s, g, now, item)
    ensures BirthsAgree(r0, births) && BornBy(births, number) ==>
      && var after := BornAfter(births, r'.index.Keys, s.key(item), s.key(item) in x.after.index, number + 1);
         BirthsAgree(r', after) && BornBy(after, number + 1)
  {
    assert Expires(r0, x, g, now) && Added(x.after, r', out[|EmittedIn(x.turns)|..], s, g, now, item);
    TreadsOk(r0, x.turns, x.after, g, now);
    hide *;
    if BirthsAgree(r0, births) && BornBy(births, number) {
      var rest, key := Remaining(births, x.after.index.Keys), s.key(item);
      ExpireKeepsBirths(r0, x, g, now, births);
      BornByNow(births, x.after.index.Keys, key, false, number);
      BornByNow(births, r'.index.Keys, key, key in x.after.index, number);
      BornBefore(rest, number);
      AddKeepsBirths(x.after, r', out[|EmittedIn(x.turns)|..], s, g, now, item, rest, number + 1);
      BornAfterBoth(x.after, r', births, key, number + 1);
    }
  }

  lemma BornBefore<K>(births: Births<K>, number: nat)
    requires BornBy(births, number)
    ensures forall k :: k in births ==> births[k] < number + 1
  {}

  lemma BornAfterBoth<K, T>(r: Rep<K, T>, r': Rep<K, T>, births: Births<K>, key: K, number: nat)
    requires BirthsAgree(r, Remaining(births, r.index.Keys))
    requires BirthsAgree(r', BornAfter(Remaining(births, r.index.Keys), r'.index.Keys, key, key in r.index, number))
    ensures BirthsAgree(r', BornAfter(births, r'.index.Keys, key, key in r.index, number))
  {
    hide InBirthOrder;
    assert BornAfter(Remaining(births, r.index.Keys), r'.index.Keys, key, key in r.index, number)
      == BornAfter(births, r'.index.Keys, key, key in r.index, number);
  }

  /** The births told by the stage are those told by the reference, if both hold the same keys. */
  lemma BirthsTold<K, T>(s: Keyed<K, T>, n: Naive<K, T>, births: Births<K>, at: int, x: T, held: set<K>, found: set<K>)
    requires held == Next(s, n, Item(at, x)).keys.Keys && (n.anchor.None? ==> n.keys.Keys == {})
    requires found == TickAll(n.keys, GridOf(s.c, n, at), at).Keys
    ensures BornAfter(births, held, s.key(x), s.key(x) in found, n.seqNo + 1) == NextBirths(s, n, births, Item(at, x))
  {
    hide TickAll, OnItem, Victim, BornAfter;
    if n.anchor.None? { NoneTicked(n.keys, GridOf(s.c, n, at), at); }
  }

  lemma NoneTicked<K, T>(keys: map<K, Held<T>>, g: Grid, at: int)
    requires keys.Keys == {}
    ensures TickAll(keys, g, at).Keys == {}
  {}

  // ---------------------------------------------------------------- the flush

  /** The windows come in the order in which their keys were born. */
  predicate InOrderOfBirths<K, T>(out: seq<(K, Window<T>)>, births: Births<K>) {
    && (forall i :: 0 <= i < |out| ==> out[i].0 in births)
    && (forall i, j :: 0 <= i < j < |out| ==> births[out[i].0] <= births[out[j].0])
  }

  lemma EntriesByBirth<K(!new), T(!new)>(r: Rep<K, T>, es: seq<KeyEntry<K, T>>, births: Births<K>)
    requires BirthsAgree(r, births) && ListsLive(r.slab, es) && Ascending(es)
    ensures forall i :: 0 <= i < |es| ==> es[i].key in births
    ensures forall i, j :: 0 <= i < j < |es| ==> births[es[i].key] < births[es[j].key]
  {
    forall i, j | 0 <= i < |es| && 0 <= j < |es|
      ensures es[i].key in births && es[j].key in births
      ensures i < j ==> births[es[i].key] < births[es[j].key]
    {
      assert es[i] in es && es[j] in es;
      var a: nat :| Live(r.slab, a) && r.slab[a].value == es[i];
      var b: nat :| Live(r.slab, b) && r.slab[b].value == es[j];
      assert InBirthOrder(r, births, a, b);
    }
  }

  lemma {:induction false} FlushByBirth<K, T>(es: seq<KeyEntry<K, T>>, births: Births<K>, g: Grid, now: int)
    requires forall i :: 0 <= i < |es| ==> es[i].key in births
    requires forall i, j :: 0 <= i < j < |es| ==> births[es[i].key] < births[es[j].key]
    ensures var out := FlushEntries(es, g, now);
      InOrderOfBirths(out, births)
        && forall i :: 0 <= i < |out| ==> es != [] && births[out[i].0] <= births[es[|es| - 1].key]
  {
    hide OnFlush;
    if es != [] {
      var last, before := es[|es| - 1], es[..|es| - 1];
      FlushByBirth(before, births, g, now);
      var a, b := FlushEntries(before, g, now), Tagged(last.key, OnFlush(last.core, g, now).out);
      var out: seq<(K, Window<T>)> := a + b;
      assert FlushEntries(es, g, now) == out;
      forall i, j | 0 <= i < j < |out| ensures births[out[i].0] <= births[out[j].0] {
        assert i < |a| ==> out[i] == a[i];
        assert |a| <= j ==> out[j] == b[j - |a|];
      }
    }
  }
}
