/**
  Whole runs of the keyed stage: the class against the reference, event by event,
  and against one unkeyed stage per key.
*/
module KeyedRuns {
  import opened WindowCore
  import opened WindowRuns
  import opened NaiveAlarms
  import opened NaiveKeyed
  import opened KeyedState
  import opened KeyedRep
  import opened KeyedRefines
  import opened KeyedOrder
  import opened KeyedItem
  import opened KeyedHeap
  import opened KeyedAlarms
  import opened KeyedBirths
  import opened KeyedStage

  /** The specification a stage built from these arguments runs under. */
  function SpecOf<K(==), T>(c: Config, maxKeys: nat, key: T -> K): Keyed<K, T> {
    Keyed(c.(cap := Max(c.cap, 1)), Max(maxKeys, 1), key)
  }

  lemma NaiveRunExtends<K, T>(s: Keyed<K, T>, es: seq<Event<T>>, i: nat)
    requires i < |es|
    ensures NaiveRun(s, es[..i + 1]) == Next(s, NaiveRun(s, es[..i]), es[i])
    ensures AlarmRun(s, es[..i + 1]) == NextAlarms(s, NaiveRun(s, es[..i]), AlarmRun(s, es[..i]), es[i])
    ensures BirthRun(s, es[..i + 1]) == NextBirths(s, NaiveRun(s, es[..i]), BirthRun(s, es[..i]), es[i])
    ensures forall k :: Total(s, es[..i + 1], k) == Total(s, es[..i], k) + Out(s, NaiveRun(s, es[..i]), es[i], k)
  {
    assert es[..i + 1][..i] == es[..i];
  }

  lemma EmptyIsSynced<K, T>(r: Rep<K, T>, n: Naive<K, T>, s: Keyed<K, T>, t: int)
    requires r == EmptyRep() && n == NewNaive()
    ensures InSync(r, n, s, t) && AlarmsAgree(r, map[])
  {}

  /** Everything a run emits, in order. */
  function Flat<X>(outs: seq<seq<X>>): seq<X> {
    if outs == [] then [] else Flat(outs[..|outs| - 1]) + outs[|outs| - 1]
  }

  lemma FlatExtends<K, T>(outs: seq<seq<(K, Window<T>)>>, out: seq<(K, Window<T>)>)
    ensures Flat(outs + [out]) == Flat(outs) + out
    ensures forall k :: Proj(Flat(outs + [out]), k) == Proj(Flat(outs), k) + Proj(out, k)
  {
    assert (outs + [out])[..|outs|] == outs;
    forall k ensures Proj(Flat(outs) + out, k) == Proj(Flat(outs), k) + Proj(out, k) {
      ProjAppends(Flat(outs), out, k);
    }
  }

  /**
    What one event of a run emits: the windows that are due first, in the order of their ends if they
    are tumbling, or, if it is a flush, the keys in the order of their births.
  */
  ghost predicate Emits<K(!new), T>(
      s: Keyed<K, T>, n: Naive<K, T>, births: Births<K>, e: Event<T>, out: seq<(K, Window<T>)>, cut: nat)
  {
    && cut <= |out|
    && (e.Flush? ==> InOrderOfBirths(out, births))
    && (forall k :: Proj(out, k) == Out(s, n, e, k))
    && (forall k :: Proj(out[..cut], k) == Expired(s, n, e, k))
    && (s.c.policy.Tumbling? ==> EndsAscend(out[..cut]))
  }

  lemma DeadlineOrderAscends<K, T>(out: seq<(K, Window<T>)>, fired: seq<Due>)
    requires InDeadlineOrder(out, fired)
    ensures EndsAscend(out)
  {
    forall i, j | 0 <= i < j < |out| ensures out[i].1.end <= out[j].1.end {
      assert Precedes(fired[i], fired[j]);
    }
  }

  /** An item of a run. */
  method FeedItem<K(==, !new), T(!new)>(
      stage: KeyedWindowStage<K, T>, at: int, x: T) returns (out: seq<(K, Window<T>)>, ghost cut: nat)
    requires stage.Valid()
    modifies stage
    ensures stage.Valid() && stage.naive == Next(stage.spec, old(stage.naive), Item(at, x)) && stage.time == at
    ensures stage.alarms == NextAlarms(stage.spec, old(stage.naive), old(stage.alarms), Item(at, x))
    ensures old(stage.InItemOrder()) ==> stage.InItemOrder()
    ensures old(stage.BornInOrder()) ==> stage.BornInOrder()
    ensures old(stage.Synced()) && old(stage.InTime(at)) && old(stage.NoneParts(at)) ==>
              && stage.Synced() && (old(stage.HeapFits()) ==> stage.HeapFits())
              && stage.births == NextBirths(stage.spec, old(stage.naive), old(stage.births), Item(at, x))
              && Emits(stage.spec, old(stage.naive), old(stage.births), Item(at, x), out, cut)
  {
    hide ItemDone, DueInOrder, Proj, Out, EmittedIn, KeyedWindowStage.HeapFits, KeyedWindowStage.Valid, Emits, InSync,
      KeyedWindowStage.InItemOrder, KeyedWindowStage.BornInOrder, Next, BornAfter, NextBirths, AlarmsAgree, NextAlarms,
      LeavesAllBut, Parting, GridOrigin;
    ghost var n, r0, births, t := stage.naive, stage.State(), stage.births, stage.time;
    ghost var expiry;
    out, expiry := stage.Process(at, x);
    cut := |EmittedIn(expiry.turns)|;
    ItemEmits(r0, expiry, stage.State(), n, stage.spec, births, stage.anchor.value, at, x, out);
    ItemBirthsTold(r0, expiry.after, stage.State(), n, stage.spec, births, stage.anchor.value, t, at, x);
  }

  /** One event of a run, as a call of the stage. */
  method Feed1<K(==, !new), T(!new)>(
      stage: KeyedWindowStage<K, T>, e: Event<T>) returns (out: seq<(K, Window<T>)>, ghost cut: nat)
    requires stage.Valid()
    modifies stage
    ensures stage.Valid() && stage.naive == Next(stage.spec, old(stage.naive), e) && stage.time == e.at
    ensures stage.alarms == NextAlarms(stage.spec, old(stage.naive), old(stage.alarms), e)
    ensures old(stage.InItemOrder()) ==> stage.InItemOrder()
    ensures old(stage.BornInOrder()) ==> stage.BornInOrder()
    ensures old(stage.Synced()) && old(stage.InTime(e.at)) && (e.Flush? || old(stage.NoneParts(e.at))) ==>
              && stage.Synced() && (old(stage.HeapFits()) ==> stage.HeapFits())
              && stage.births == NextBirths(stage.spec, old(stage.naive), old(stage.births), e)
              && (old(stage.BornInOrder()) ==>
                    Emits(stage.spec, old(stage.naive), old(stage.births), e, out, cut))
  {
    hide InDeadlineOrder, EndsAscend, Proj, Out, EmittedIn, TickOut, KeyedWindowStage.HeapFits, KeyedWindowStage.Valid,
      KeyedWindowStage.InItemOrder, KeyedWindowStage.BornInOrder, Next, Expires, InHeapOrder, InSync,
      InOrderOfBirths, BornAfter, Remaining, NextBirths;
    ghost var n, due := stage.naive, stage.Synced() && stage.InTime(e.at);
    ghost var births := stage.births;
    match e {
      case Item(at, x) =>
        out, cut := FeedItem(stage, at, x);
      case Tick(at) =>
        ghost var expiry;
        out, expiry := stage.Tick(at);
        cut := |out|;
        assert out[..cut] == out;
        if due && stage.spec.c.policy.Tumbling? { DeadlineOrderAscends(out, expiry.fired); }
        TickIsExpired(stage.spec, n, at);
        BirthsLeft(stage.State(), stage.naive, stage.spec, n, births, e);
      case Flush(at) =>
        ghost var entries;
        out, entries := stage.Flush(at);
        cut := 0;
        NothingAtFlush(stage.spec, n, at, out);
        BirthsLeft(stage.State(), stage.naive, stage.spec, n, births, e);
    }
  }

  lemma ItemEmits<K(!new), T(!new)>(
      r0: Rep<K, T>, x: Expiry<K, T>, r1: Rep<K, T>, n: Naive<K, T>, s: Keyed<K, T>, births: Births<K>, anchor: int,
      at: int, item: T, out: seq<(K, Window<T>)>)
    requires ItemDone(r0, x, r1, out, s, Grid(anchor, s.c.horizon), at, item)
    ensures anchor == n.anchor.GetOr(GridOrigin(s.c.policy, at, s.c.lowest))
      && DueInOrder(r0, x, n.keys, s.c.policy, Grid(anchor, s.c.horizon), at)
      && (forall k :: Proj(out, k) == Out(s, n, Item(at, item), k))
      ==> Emits(s, n, births, Item(at, item), out, |EmittedIn(x.turns)|)
  {
    hide Proj, Out, TickOut, GridOrigin, InHeapOrder, Expires, Added, EntriesInOrder, EndsAscend, InDeadlineOrder;
    assert out[..|EmittedIn(x.turns)|] == EmittedIn(x.turns);
    if InDeadlineOrder(EmittedIn(x.turns), x.fired) { DeadlineOrderAscends(EmittedIn(x.turns), x.fired); }
  }

  /** In time, and if no key parts, an item bears in the stage the key it bears in the reference. */
  lemma ItemBirthsTold<K(!new), T(!new)>(
      r0: Rep<K, T>, after: Rep<K, T>, r1: Rep<K, T>, n: Naive<K, T>, s: Keyed<K, T>, births: Births<K>, anchor: int,
      t: int, at: int, x: T)
    ensures
      && anchor == n.anchor.GetOr(GridOrigin(s.c.policy, at, s.c.lowest))
      && InSync(r1, Next(s, n, Item(at, x)), s, at) && InSync(r0, n, s, t)
      && LeavesAllBut(r0, after, n.keys, Grid(anchor, s.c.horizon), at) && Parting(r0, s.c.horizon, at) == {}
      ==> BornAfter(births, r1.index.Keys, s.key(x), s.key(x) in after.index, n.seqNo + 1)
          == NextBirths(s, n, births, Item(at, x))
  {
    hide TickAll, Next, Parting, BornAfter, NextBirths, LeavesAllBut, CoresAgree, OrderAgrees, EntriesOk, GridOrigin;
    if && anchor == n.anchor.GetOr(GridOrigin(s.c.policy, at, s.c.lowest))
       && InSync(r1, Next(s, n, Item(at, x)), s, at) && InSync(r0, n, s, t)
       && LeavesAllBut(r0, after, n.keys, Grid(anchor, s.c.horizon), at) && Parting(r0, s.c.horizon, at) == {}
    {
      assert Grid(anchor, s.c.horizon) == GridOf(s.c, n, at);
      LeavesAll(r0, after, n.keys, GridOf(s.c, n, at), at);
      SameKeys(after, TickAll(n.keys, GridOf(s.c, n, at), at));
      SameKeys(r1, Next(s, n, Item(at, x)).keys);
      BirthsTold(s, n, births, at, x, r1.index.Keys, after.index.Keys);
    }
  }

  lemma BirthsLeft<K(!new), T(!new)>(
      r: Rep<K, T>, n': Naive<K, T>, s: Keyed<K, T>, n: Naive<K, T>, births: Births<K>, e: Event<T>)
    requires n' == Next(s, n, e) && !e.Item?
    ensures InSync(r, n', s, e.at) ==> Remaining(births, r.index.Keys) == NextBirths(s, n, births, e)
    ensures e.Flush? ==> NextBirths(s, n, births, e) == map[]
  {
    hide TickAll;
    if InSync(r, n', s, e.at) { SameKeys(r, n'.keys); }
  }

  lemma TickIsExpired<K(!new), T>(s: Keyed<K, T>, n: Naive<K, T>, at: int)
    ensures forall k :: Out(s, n, Event<T>.Tick(at), k) == Expired(s, n, Event<T>.Tick(at), k)
  {}

  lemma NothingAtFlush<K(!new), T>(s: Keyed<K, T>, n: Naive<K, T>, at: int, out: seq<(K, Window<T>)>)
    ensures EndsAscend(out[..0]) && forall k :: Proj(out[..0], k) == Expired(s, n, Event<T>.Flush(at), k)
  {}

  /** What the first `i` events have emitted, and how large the heap was after each. */
  ghost predicate RunOk<K(!new), T>(
      s: Keyed<K, T>, es: seq<Event<T>>, i: nat, outs: seq<seq<(K, Window<T>)>>, cuts: seq<nat>, heaps: seq<nat>)
  {
    && i <= |es| && |outs| == |cuts| == |heaps| == i
    && (forall j :: 0 <= j < i ==> Emits(s, NaiveRun(s, es[..j]), BirthRun(s, es[..j]), es[j], outs[j], cuts[j]))
    && (forall j :: 0 <= j < i ==> heaps[j] <= 2 * |NaiveRun(s, es[..j + 1]).keys| + 64)
    && (forall k :: Proj(Flat(outs), k) == Total(s, es[..i], k))
  }

  lemma RunOkOn<K(!new), T>(
      s: Keyed<K, T>, es: seq<Event<T>>, i: nat, outs: seq<seq<(K, Window<T>)>>, cuts: seq<nat>, heaps: seq<nat>,
      out: seq<(K, Window<T>)>, cut: nat, heap: nat)
    requires RunOk(s, es, i, outs, cuts, heaps) && i < |es|
    requires Emits(s, NaiveRun(s, es[..i]), BirthRun(s, es[..i]), es[i], out, cut)
    requires heap <= 2 * |NaiveRun(s, es[..i + 1]).keys| + 64
    ensures RunOk(s, es, i + 1, outs + [out], cuts + [cut], heaps + [heap])
  {
    hide Emits, NaiveRun, BirthRun, Total, Flat, Proj, Out, Next;
    NaiveRunExtends(s, es, i);
    FlatExtends(outs, out);
    EmitsOut(s, NaiveRun(s, es[..i]), BirthRun(s, es[..i]), es[i], out, cut);
    var outs', cuts', heaps' := outs + [out], cuts + [cut], heaps + [heap];
    forall j | 0 <= j < i + 1
      ensures Emits(s, NaiveRun(s, es[..j]), BirthRun(s, es[..j]), es[j], outs'[j], cuts'[j])
      ensures heaps'[j] <= 2 * |NaiveRun(s, es[..j + 1]).keys| + 64
    {
      if j < i { assert outs'[j] == outs[j] && cuts'[j] == cuts[j] && heaps'[j] == heaps[j]; }
    }
  }

  lemma RunOkMeans<K(!new), T>(
      s: Keyed<K, T>, es: seq<Event<T>>, outs: seq<seq<(K, Window<T>)>>, cuts: seq<nat>, heaps: seq<nat>)
    requires RunOk(s, es, |es|, outs, cuts, heaps)
    ensures |outs| == |cuts| == |heaps| == |es|
    ensures forall i :: 0 <= i < |es| ==> Emits(s, NaiveRun(s, es[..i]), BirthRun(s, es[..i]), es[i], outs[i], cuts[i])
    ensures forall i :: 0 <= i < |es| ==> heaps[i] <= 2 * |NaiveRun(s, es[..i + 1]).keys| + 64
    ensures forall k :: Proj(Flat(outs), k) == Total(s, es, k)
  {
    assert es[..|es|] == es;
    hide Emits, NaiveRun, BirthRun, Total, Flat, Proj;
  }

  /** No key parts at the next event. */
  lemma NonePartsNow<K(!new), T>(
      r: Rep<K, T>, n: Naive<K, T>, alarms: Alarms<K>, s: Keyed<K, T>, es: seq<Event<T>>, i: nat, t: int)
    requires InSync(r, n, s, t) && AlarmsAgree(r, alarms) && i < |es| && NonePart(s, es)
    requires n == NaiveRun(s, es[..i]) && alarms == AlarmRun(s, es[..i])
    requires ValidPolicy(s.c.policy) && es[i].at <= s.c.horizon && (n.anchor.Some? ==> t <= es[i].at)
    ensures es[i].Flush? || Parting(r, s.c.horizon, es[i].at) == {}
  {
    assert NonePartsAt(s, es[..i], es[i]);
    hide InSync, AlarmsAgree, Parting, WokenAt, NaiveRun, AlarmRun;
    PartingIsWokenAt(r, s, es[..i], t, es[i].at);
  }

  /** The keys that part in the stage are those told beside the reference. */
  lemma PartingIsWokenAt<K, T>(r: Rep<K, T>, s: Keyed<K, T>, es: seq<Event<T>>, t: int, now: int)
    requires InSync(r, NaiveRun(s, es), s, t) && AlarmsAgree(r, AlarmRun(s, es))
    requires ValidPolicy(s.c.policy) && now <= s.c.horizon && (NaiveRun(s, es).anchor.Some? ==> t <= now)
    ensures Parting(r, s.c.horizon, now) == WokenAt(s, es, now)
    ensures !s.c.policy.Session? ==> Parting(r, s.c.horizon, now) == {}
    ensures CoresAgree(r, NaiveRun(s, es).keys)
    ensures NaiveRun(s, es).anchor.None? ==> NaiveRun(s, es).keys.Keys == {}
  {
    hide AlarmsAgree, Parting, NaiveRun, AlarmRun, CoresAgree, OrderAgrees, EntriesOk;
    PartingIsTold(r, NaiveRun(s, es), AlarmRun(s, es), s, t, now);
    hide *;
    WokenAtMeans(s, es, now);
    SameSets(Parting(r, s.c.horizon, now), WokenAt(s, es, now));
  }

  lemma SameSets<X>(a: set<X>, b: set<X>)
    requires forall x :: x in a <==> x in b
    ensures a == b
  {}

  lemma WokenAtMeans<K, T>(s: Keyed<K, T>, es: seq<Event<T>>, now: int)
    ensures forall k :: k in WokenAt(s, es, now) <==>
      WokenEmpty(NaiveRun(s, es).keys, AlarmRun(s, es), k, s.c.horizon, now)
  {}

  lemma InSyncMeans<K, T>(r: Rep<K, T>, n: Naive<K, T>, s: Keyed<K, T>, t: int)
    requires InSync(r, n, s, t)
    ensures CoresAgree(r, n.keys)
  {}

  /**
    The keyed stage behaves like the reference: for every run with a monotone clock in which
    no key parts, every policy, item cap and key limit, each event emits for each key the same
    windows in the same order, and afterwards the same keys are live (so the same
    keys were evicted and released), never more than `max_keys`. A flush emits the keys in the
    order of their births. Before an item's own
    windows and those of an evicted key come the windows that are due, tumbling ones in
    the order of their ends, and after every event the heap has at most two entries for
    each key held, and 64.
  */
  method RunKeyed<K(==, !new), T(!new)>(c: Config, maxKeys: nat, key: T -> K, es: seq<Event<T>>)
    returns (outs: seq<seq<(K, Window<T>)>>, live: set<K>, ghost cuts: seq<nat>, ghost heaps: seq<nat>)
    requires ValidPolicy(c.policy) && Monotone(es, c) && NonePart(SpecOf(c, maxKeys, key), es)
    ensures |outs| == |cuts| == |heaps| == |es|
    ensures forall i :: 0 <= i < |es| ==>
              Emits(SpecOf(c, maxKeys, key), NaiveRun(SpecOf(c, maxKeys, key), es[..i]),
                    BirthRun(SpecOf(c, maxKeys, key), es[..i]), es[i], outs[i], cuts[i])
    ensures forall i :: 0 <= i < |es| ==> heaps[i] <= 2 * |NaiveRun(SpecOf(c, maxKeys, key), es[..i + 1]).keys| + 64
    ensures live == NaiveRun(SpecOf(c, maxKeys, key), es).keys.Keys && |live| <= Max(maxKeys, 1)
    ensures forall k :: Proj(Flat(outs), k) == Total(SpecOf(c, maxKeys, key), es, k)
  {
    hide RepOk, Next, Out, Emits, NaiveInv, InSync, KeysInv, OrderAgrees, EntriesOk, NonePart, NextAlarms, Parting,
      KeyedWindowStage.HeapFits, KeyedWindowStage.BornInOrder, RunOk, AlarmsAgree, NextBirths;
    var stage := new KeyedWindowStage(c, maxKeys, key);
    ghost var s := SpecOf(c, maxKeys, key);
    EmptyIsSynced(stage.State(), stage.naive, s, stage.time);
    outs, cuts, heaps := [], [], [];
    NothingRun(s, es);
    for i := 0 to |es|
      invariant stage.Valid() && stage.spec == s && fresh(stage)
      invariant stage.Synced() && stage.HeapFits() && stage.BornInOrder() && stage.births == BirthRun(s, es[..i])
      invariant stage.naive == NaiveRun(s, es[..i]) && stage.alarms == AlarmRun(s, es[..i])
      invariant stage.anchor.Some? ==> i > 0 && stage.time == es[i - 1].at
      invariant RunOk(s, es, i, outs, cuts, heaps)
    {
      NaiveRunExtends(s, es, i);
      NonePartsNow(stage.State(), stage.naive, stage.alarms, s, es, i, stage.time);
      var out;
      ghost var cut;
      out, cut := Feed1(stage, es[i]);
      stage.StaysSmall();
      InSyncMeans(stage.State(), stage.naive, s, stage.time);
      SameSize(stage.State(), stage.naive.keys);
      RunOkOn(s, es, i, outs, cuts, heaps, out, cut, |stage.heap|);
      outs, cuts, heaps := outs + [out], cuts + [cut], heaps + [|stage.heap|];
    }
    assert es[..|es|] == es;
    RunOkMeans(s, es, outs, cuts, heaps);
    InSyncMeans(stage.State(), stage.naive, s, stage.time);
    live := stage.index.Keys;
    LiveAreFew(stage.State());
  }

  lemma NothingRun<K(!new), T>(s: Keyed<K, T>, es: seq<Event<T>>)
    ensures RunOk(s, es, 0, [], [], [])
  {}

  lemma EmitsOut<K(!new), T>(
      s: Keyed<K, T>, n: Naive<K, T>, births: Births<K>, e: Event<T>, out: seq<(K, Window<T>)>, cut: nat)
    requires Emits(s, n, births, e, out, cut)
    ensures forall k :: Proj(out, k) == Out(s, n, e, k)
  {}

  /**
    Without a key limit in reach, each key's windows over a whole run are those of an
    unkeyed stage, on the grid that the first item of all keys fixes, that sees only this
    key's items.
  */
  method RunUnlimited<K(==, !new), T(!new)>(c: Config, maxKeys: nat, key: T -> K, es: seq<Event<T>>, t: int)
    returns (outs: seq<seq<(K, Window<T>)>>, live: set<K>)
    requires ValidPolicy(c.policy) && Monotone(es + [Event<T>.Flush(t)], c) && |es| < maxKeys
    requires NonePart(SpecOf(c, maxKeys, key), es)
    ensures var s, run := SpecOf(c, maxKeys, key), es + [Event<T>.Flush(t)];
            forall k :: Proj(Flat(outs), k)
                     == match FirstItem(es)
                        case Some(first) => Solo(s, GridStart(c, first), run, k).out
                        case None => []
  {
    hide *;
    ghost var s := SpecOf(c, maxKeys, key);
    ghost var cuts, heaps;
    SpecKeepsPolicy(c, maxKeys, key, es + [Event<T>.Flush(t)]);
    NonePartExtends(s, es, Event<T>.Flush(t));
    FlushWakesNone(s, es, t);
    outs, live, cuts, heaps := RunKeyed(c, maxKeys, key, es + [Event<T>.Flush(t)]);
    forall k ensures Total(s, es + [Event<T>.Flush(t)], k)
                  == match FirstItem(es)
                     case Some(first) => Solo(s, GridStart(c, first), es + [Event<T>.Flush(t)], k).out
                     case None => []
    {
      FirstItemFixesKeyedAnchor(s, es);
      SameStart(c, maxKeys, key);
      KeysDoNotInterfere(s, es, k, t);
    }
  }

  lemma SameStart<K, T>(c: Config, maxKeys: nat, key: T -> K)
    requires ValidPolicy(c.policy)
    ensures forall first :: GridStart(SpecOf(c, maxKeys, key).c, first) == GridStart(c, first)
  {}

  lemma FlushWakesNone<K, T>(s: Keyed<K, T>, es: seq<Event<T>>, t: int)
    ensures NonePartsAt(s, es, Event<T>.Flush(t))
  {}

  lemma SpecKeepsPolicy<K, T>(c: Config, maxKeys: nat, key: T -> K, es: seq<Event<T>>)
    ensures var s := SpecOf(c, maxKeys, key);
            s.c.policy == c.policy && (Monotone(es, c) ==> Monotone(es, s.c)) && maxKeys <= s.maxKeys
  {
  }

  lemma MonotoneAt<T>(es: seq<Event<T>>, last: Event<T>, c: Config, i: nat)
    requires Monotone(es + [last], c) && i <= |es|
    ensures (es + [last])[i].at <= c.horizon && (0 < i ==> es[i - 1].at <= (es + [last])[i].at)
  {
    assert 0 < i ==> (es + [last])[i - 1] == es[i - 1];
  }

  lemma TickLeaves<K(!new), T>(
      r0: Rep<K, T>, r: Rep<K, T>, n: Naive<K, T>, s: Keyed<K, T>, es: seq<Event<T>>, t: int)
    requires n == NaiveRun(s, es) && NonePart(s, es) && CoresAgree(r0, n.keys)
    requires Parting(r0, s.c.horizon, t) == WokenAt(s, es, t)
    requires !s.c.policy.Session? ==> Parting(r0, s.c.horizon, t) == {}
    requires n.anchor.Some? ==> LeavesAllBut(r0, r, n.keys, Grid(n.anchor.value, s.c.horizon), t)
    requires n.anchor.None? ==> r == r0 && n.keys.Keys == {}
    ensures var run := es + [Event<T>.Tick(t)];
      && r.index.Keys == NaiveRun(s, run).keys.Keys - WokenAt(s, es, t)
      && (r.index.Keys == NaiveRun(s, run).keys.Keys <==> NonePart(s, run))
  {
    var run := es + [Event<T>.Tick(t)];
    assert run[..|es|] == es;
    assert NaiveRun(s, run) == Next(s, n, Event<T>.Tick(t));
    NonePartExtends(s, es, Event<T>.Tick(t));
    assert NonePartsAt(s, es, Event<T>.Tick(t)) <==> WokenAt(s, es, t) == {};
    if n.anchor.None? { NonePartsOfNone(r0, s, t); }
    hide WokenAt, NonePart, NonePartsAt, NaiveRun, TickAll, Parting, OrderAgrees, EntriesOk, Holds;
  }

  lemma NonePartsOfNone<K, T>(r: Rep<K, T>, s: Keyed<K, T>, t: int)
    requires r.index.Keys == {}
    ensures Parting(r, s.c.horizon, t) == {}
  {}

  /**
    Exactly when: after a run in which no key parts, a tick leaves the stage with the keys of
    the reference without those that are woken with nothing buffered and no deadline. So the
    two hold the same keys if and only if none is.
  */
  method RunThenTick<K(==, !new), T(!new)>(c: Config, maxKeys: nat, key: T -> K, es: seq<Event<T>>, t: int)
    returns (live: set<K>)
    requires ValidPolicy(c.policy) && Monotone(es + [Event<T>.Tick(t)], c) && NonePart(SpecOf(c, maxKeys, key), es)
    ensures var s := SpecOf(c, maxKeys, key);
            live == NaiveRun(s, es + [Event<T>.Tick(t)]).keys.Keys - WokenAt(s, es, t)
    ensures var s := SpecOf(c, maxKeys, key);
            live == NaiveRun(s, es + [Event<T>.Tick(t)]).keys.Keys <==> NonePart(s, es + [Event<T>.Tick(t)])
  {
    hide RepOk, Next, NaiveInv, InSync, NonePart, NextAlarms, Parting, WokenAt, LeavesAllBut,
      KeyedWindowStage.HeapFits, AlarmsAgree, Monotone;
    var stage := new KeyedWindowStage(c, maxKeys, key);
    ghost var s, tick := SpecOf(c, maxKeys, key), Event<T>.Tick(t);
    EmptyIsSynced(stage.State(), stage.naive, s, stage.time);
    for i := 0 to |es|
      invariant stage.Valid() && stage.spec == s && fresh(stage) && stage.Synced()
      invariant stage.naive == NaiveRun(s, es[..i]) && stage.alarms == AlarmRun(s, es[..i])
      invariant stage.anchor.Some? ==> i > 0 && stage.time == es[i - 1].at
    {
      NaiveRunExtends(s, es, i);
      MonotoneAt(es, tick, c, i);
      NonePartsNow(stage.State(), stage.naive, stage.alarms, s, es, i, stage.time);
      var out;
      ghost var cut;
      out, cut := Feed1(stage, es[i]);
    }
    assert es[..|es|] == es;
    MonotoneAt(es, tick, c, |es|);
    PartingIsWokenAt(stage.State(), s, es, stage.time, t);
    ghost var r0, n := stage.State(), stage.naive;
    var out;
    ghost var x;
    out, x := stage.Tick(t);
    live := stage.index.Keys;
    TickLeaves(r0, stage.State(), n, s, es, t);
  }

  lemma LiveAreFew<K, T>(r: Rep<K, T>)
    requires RepOk(r)
    ensures |r.index.Keys| <= r.peak
  {
    assert |r.index| == |r.index.Keys|;
  }
}
