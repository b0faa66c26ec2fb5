/**
  When the keyed stage wakes each of its keys, told beside the reference: the instants of
  `scheduled` depend on nothing but the events. A key is woken at its first deadline; if later
  items have moved that, at the deadline it has by then. Near the last representable instant it
  may have none by then, and if it holds nothing either, the stage releases it although its
  session is not over.
*/
module NaiveAlarms {
  import opened WindowCore
  import opened WindowLaws
  import opened WindowRuns
  import opened NaiveKeyed

  type Alarms<!K(==)> = map<K, int>

  /** Keys that were to be woken by `now` are woken, and then at their deadlines, if they have any. */
  function AlarmsAfterTick<K(==), T>(keys: map<K, Held<T>>, alarms: Alarms<K>, g: Grid, now: int): Alarms<K> {
    var ticked := TickAll(keys, g, now);
    map k | k in ticked && k in alarms && (alarms[k] <= now ==> Deadline(ticked[k].core, g.horizon).Some?)
      :: if alarms[k] <= now then Deadline(ticked[k].core, g.horizon).value else alarms[k]
  }

  /** The key of an item is woken no later than at its deadline after the item. */
  function AlarmsAfterItem<K(==), T>(
      kept: map<K, Held<T>>, alarms: Alarms<K>, key: K, core: Core<T>, horizon: int): Alarms<K>
  {
    var rest := map k | k in kept && k in alarms :: alarms[k];
    var deadline := Deadline(core, horizon);
    if deadline.None? || (key in rest && rest[key] <= deadline.value) then rest else rest[key := deadline.value]
  }

  ghost function NextAlarms<K, T>(s: Keyed<K, T>, n: Naive<K, T>, alarms: Alarms<K>, e: Event<T>): Alarms<K> {
    match e
    case Tick(at) =>
      if n.anchor.None? then alarms else AlarmsAfterTick(n.keys, alarms, Grid(n.anchor.value, s.c.horizon), at)
    case Flush(_) => map[]
    case Item(at, x) =>
      var g := GridOf(s.c, n, at);
      var ticked := TickAll(n.keys, g, at);
      var kept := Without(ticked, Victim(ticked, s.maxKeys, s.key(x)));
      var core := OnItem(CoreOf(kept, s.c.policy, s.key(x)), s.c.cap, g, at, x).core;
      AlarmsAfterItem(kept, AlarmsAfterTick(n.keys, alarms, g, at), s.key(x), core, s.c.horizon)
  }

  ghost function AlarmRun<K, T>(s: Keyed<K, T>, es: seq<Event<T>>): Alarms<K> {
    if es == [] then map[]
    else
      var before := es[..|es| - 1];
      NextAlarms(s, NaiveRun(s, before), AlarmRun(s, before), es[|es| - 1])
  }

  /** Key `k` is woken at `now` with nothing buffered and a deadline that is not representable. */
  predicate WokenEmpty<K(==), T>(keys: map<K, Held<T>>, alarms: Alarms<K>, k: K, horizon: int, now: int) {
    && k in keys && k in alarms && alarms[k] <= now
    && Deadline(keys[k].core, horizon).None? && IsEmpty(keys[k].core)
  }

  /** The keys that are woken like that by an event at `now` after `es`. */
  ghost function WokenAt<K, T>(s: Keyed<K, T>, es: seq<Event<T>>, now: int): set<K> {
    set k | k in NaiveRun(s, es).keys && WokenEmpty(NaiveRun(s, es).keys, AlarmRun(s, es), k, s.c.horizon, now)
  }

  /** After `es` no session is woken like that by `e`. */
  ghost predicate NonePartsAt<K, T>(s: Keyed<K, T>, es: seq<Event<T>>, e: Event<T>) {
    s.c.policy.Session? && !e.Flush? ==> WokenAt(s, es, e.at) == {}
  }

  /** No session of the run is woken like that. */
  ghost predicate NonePart<K, T>(s: Keyed<K, T>, es: seq<Event<T>>) {
    forall i :: 0 <= i < |es| ==> NonePartsAt(s, es[..i], es[i])
  }

  lemma NonePartExtends<K, T>(s: Keyed<K, T>, es: seq<Event<T>>, e: Event<T>)
    ensures NonePart(s, es + [e]) <==> NonePart(s, es) && NonePartsAt(s, es, e)
  {
    hide NonePartsAt;
    var run := es + [e];
    assert run[..|es|] == es && run[|es|] == e;
    forall i | 0 <= i < |es| ensures run[i] == es[i] && run[..i] == es[..i] {}
    if NonePart(s, es + [e]) {
      forall i | 0 <= i < |es| ensures NonePartsAt(s, es[..i], es[i]) {
        assert NonePartsAt(s, run[..i], run[i]);
      }
      assert NonePartsAt(s, run[..|es|], run[|es|]);
    }
  }

  // ---------------------------------------------------------------- far from the last instant

  /** A session that is held has a representable deadline. */
  predicate Ends<T>(core: Core<T>, horizon: int) {
    core.SessionCore? ==> core.last.Some? && core.last.value + core.idle + 1 <= horizon
  }

  lemma EndsAfterItem<T>(core: Core<T>, policy: Policy, cap: nat, g: Grid, now: int, item: T)
    requires Shaped(core, policy) && (policy.Session? ==> now + policy.idle + 1 <= g.horizon)
    ensures Ends(OnItem(core, cap, g, now, item).core, g.horizon)
    ensures Shaped(OnItem(core, cap, g, now, item).core, policy)
  {}

  lemma EndsAfterTick<T>(core: Core<T>, policy: Policy, g: Grid, now: int)
    requires Shaped(core, policy) && Ends(core, g.horizon) && Survives(core, g, now)
    ensures Ends(Examined(core, g, now).core, g.horizon) && Shaped(Examined(core, g, now).core, policy)
  {}

  lemma {:induction false} EndsInRun<K, T>(s: Keyed<K, T>, es: seq<Event<T>>)
    requires forall i :: 0 <= i < |es| && es[i].Item? && s.c.policy.Session? ==>
      es[i].at + s.c.policy.idle + 1 <= s.c.horizon
    ensures forall k :: k in NaiveRun(s, es).keys ==>
      Ends(NaiveRun(s, es).keys[k].core, s.c.horizon) && Shaped(NaiveRun(s, es).keys[k].core, s.c.policy)
  {
    if es != [] {
      var before, e := es[..|es| - 1], es[|es| - 1];
      EndsInRun(s, before);
      var n, g := NaiveRun(s, before), GridOf(s.c, NaiveRun(s, before), e.at);
      hide OnItem, Examined, Survives, Ends, Shaped, Victim;
      forall k | k in TickAll(n.keys, g, e.at)
        ensures Ends(TickAll(n.keys, g, e.at)[k].core, s.c.horizon)
        ensures Shaped(TickAll(n.keys, g, e.at)[k].core, s.c.policy)
      {
        EndsAfterTick(n.keys[k].core, s.c.policy, g, e.at);
      }
      if e.Item? {
        var ticked := TickAll(n.keys, g, e.at);
        var kept := Without(ticked, Victim(ticked, s.maxKeys, s.key(e.x)));
        NewIsShaped<T>(s.c.policy);
        EndsAfterItem(CoreOf(kept, s.c.policy, s.key(e.x)), s.c.policy, s.c.cap, g, e.at, e.x);
      }
    }
  }

  lemma NewIsShaped<T>(policy: Policy)
    ensures Shaped(NewCore<T>(policy), policy)
  {}

  /** Far enough from the last representable instant no key parts. */
  lemma {:induction false} NonePartFarFromTheEnd<K, T>(s: Keyed<K, T>, es: seq<Event<T>>)
    requires forall i :: 0 <= i < |es| && es[i].Item? && s.c.policy.Session? ==>
      es[i].at + s.c.policy.idle + 1 <= s.c.horizon
    ensures NonePart(s, es)
  {
    forall i | 0 <= i < |es| ensures NonePartsAt(s, es[..i], es[i]) {
      EndsInRun(s, es[..i]);
    }
  }
}
