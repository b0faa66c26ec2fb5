/**
  The reference for keyed windows: the O(keys) stage of the tests of
  src/window.rs (`NaiveKeyed`), in which every event examines every key and
  eviction scans for the least recently active key. A hash map has no order, so
  what it emits is given key by key.

  Main result: without a key limit, each key's windows over a whole run are those
  of one unkeyed core on the same grid that sees only this key's items.
*/
module NaiveKeyed {
  import opened Options
  import opened WindowCore
  import opened WindowLaws
  import opened WindowRuns

  /** A key's core, and the sequence number of its last item. */
  datatype Held<T> = Held(core: Core<T>, touched: nat)

  datatype Naive<!K(==), T> = Naive(anchor: Option<int>, keys: map<K, Held<T>>, seqNo: nat)

  /** The configuration of a keyed stage: a window configuration, `max_keys`, and the key function. */
  datatype Keyed<!K(==), !T> = Keyed(c: Config, maxKeys: nat, key: T -> K)

  function NewNaive<K(==), T>(): Naive<K, T> { Naive(None, map[], 0) }

  // ---------------------------------------------------------------- tick_all

  /** A key is examined once its deadline has passed, and released if nothing is left buffered. */
  predicate Survives<T>(core: Core<T>, g: Grid, now: int) {
    IsDue(core, g.horizon, now) ==> !IsEmpty(OnTick(core, g, now).core)
  }

  function Examined<T>(core: Core<T>, g: Grid, now: int): Step<T> {
    if IsDue(core, g.horizon, now) then OnTick(core, g, now) else Step(core, [])
  }

  function TickAll<K(==), T>(keys: map<K, Held<T>>, g: Grid, now: int): map<K, Held<T>> {
    map k | k in keys && Survives(keys[k].core, g, now) :: keys[k].(core := Examined(keys[k].core, g, now).core)
  }

  function TickOut<K(==), T>(keys: map<K, Held<T>>, g: Grid, now: int, k: K): seq<Window<T>> {
    if k in keys then Examined(keys[k].core, g, now).out else []
  }

  // ---------------------------------------------------------------- item

  ghost predicate IsOldest<K, T>(keys: map<K, Held<T>>, k: K) {
    k in keys && forall j :: j in keys ==> keys[k].touched <= keys[j].touched
  }

  lemma {:induction false} OldestExists<K, T>(keys: map<K, Held<T>>)
    requires |keys| > 0
    ensures exists k :: IsOldest(keys, k)
    decreases |keys|
  {
    var k :| k in keys;
    var rest := keys - {k};
    if |rest| == 0 {
      assert keys.Keys == {k} + rest.Keys;
      assert IsOldest(keys, k);
    } else {
      OldestExists(rest);
      var j :| IsOldest(rest, j);
      assert IsOldest(keys, if keys[j].touched <= keys[k].touched then j else k);
    }
  }

  /** The key that makes room for `key`, if one has to. */
  ghost function Victim<K, T>(keys: map<K, Held<T>>, maxKeys: nat, key: K): (v: Option<K>)
    ensures v.Some? ==> key !in keys && |keys| >= maxKeys && IsOldest(keys, v.value)
    ensures v.None? ==> key in keys || |keys| < maxKeys || |keys| == 0
  {
    if key !in keys && |keys| >= maxKeys && |keys| > 0 then
      OldestExists(keys);
      var k :| IsOldest(keys, k);
      Some(k)
    else
      None
  }

  function Without<K(==), T>(keys: map<K, Held<T>>, v: Option<K>): map<K, Held<T>> {
    if v.Some? then keys - {v.value} else keys
  }

  function CoreOf<K(==), T>(keys: map<K, Held<T>>, policy: Policy, k: K): Core<T> {
    if k in keys then keys[k].core else NewCore(policy)
  }

  function GridOf<K(==), T>(c: Config, n: Naive<K, T>, at: int): Grid {
    Grid(n.anchor.GetOr(GridOrigin(c.policy, at, c.lowest)), c.horizon)
  }

  /** The reference state after an event. */
  ghost function Next<K, T>(s: Keyed<K, T>, n: Naive<K, T>, e: Event<T>): Naive<K, T> {
    match e
    case Tick(at) =>
      if n.anchor.None? then n else n.(keys := TickAll(n.keys, Grid(n.anchor.value, s.c.horizon), at))
    case Flush(at) =>
      n.(keys := map[])
    case Item(at, x) =>
      var g := GridOf(s.c, n, at);
      var ticked := TickAll(n.keys, g, at);
      var kept := Without(ticked, Victim(ticked, s.maxKeys, s.key(x)));
      var step := OnItem(CoreOf(kept, s.c.policy, s.key(x)), s.c.cap, g, at, x);
      Naive(Some(g.anchor), kept[s.key(x) := Held(step.core, n.seqNo + 1)], n.seqNo + 1)
  }

  /** What the reference emits for key `k` at an event. */
  ghost function Out<K, T>(s: Keyed<K, T>, n: Naive<K, T>, e: Event<T>, k: K): seq<Window<T>> {
    match e
    case Tick(at) =>
      if n.anchor.None? then [] else TickOut(n.keys, Grid(n.anchor.value, s.c.horizon), at, k)
    case Flush(at) =>
      if k in n.keys then OnFlush(n.keys[k].core, Grid(n.anchor.GetOr(at), s.c.horizon), at).out else []
    case Item(at, x) =>
      var g := GridOf(s.c, n, at);
      var ticked := TickAll(n.keys, g, at);
      var victim := Victim(ticked, s.maxKeys, s.key(x));
      var kept := Without(ticked, victim);
      TickOut(n.keys, g, at, k)
      + (if victim == Some(k) then OnFlush(ticked[k].core, g, at).out else [])
      + (if s.key(x) == k then OnItem(CoreOf(kept, s.c.policy, k), s.c.cap, g, at, x).out else [])
  }

  /** The part of it that is emitted before the item, or the whole of it at a tick: the windows that are due. */
  function Expired<K(==), T>(s: Keyed<K, T>, n: Naive<K, T>, e: Event<T>, k: K): seq<Window<T>> {
    match e
    case Tick(at) => if n.anchor.None? then [] else TickOut(n.keys, Grid(n.anchor.value, s.c.horizon), at, k)
    case Flush(at) => []
    case Item(at, _) => TickOut(n.keys, GridOf(s.c, n, at), at, k)
  }

  ghost function NaiveRun<K, T>(s: Keyed<K, T>, es: seq<Event<T>>): Naive<K, T> {
    if es == [] then NewNaive() else Next(s, NaiveRun(s, es[..|es| - 1]), es[|es| - 1])
  }

  ghost function Total<K, T>(s: Keyed<K, T>, es: seq<Event<T>>, k: K): seq<Window<T>> {
    if es == [] then []
    else Total(s, es[..|es| - 1], k) + Out(s, NaiveRun(s, es[..|es| - 1]), es[|es| - 1], k)
  }

  // ---------------------------------------------------------------- invariants

  predicate KeysInv<K(==), T>(keys: map<K, Held<T>>, policy: Policy, g: Grid, t: int) {
    forall k :: k in keys ==> CoreInv(keys[k].core, policy, g, t)
  }

  predicate NaiveInv<K(==), T>(c: Config, n: Naive<K, T>, t: int) {
    && (n.anchor.None? ==> n.keys.Keys == {})
    && (n.anchor.Some? ==> n.anchor.value <= t && KeysInv(n.keys, c.policy, Grid(n.anchor.value, c.horizon), t))
  }

  lemma TickAllKeepsInv<K, T>(keys: map<K, Held<T>>, policy: Policy, g: Grid, now: int)
    requires ValidPolicy(policy) && Reached(g, now) && KeysInv(keys, policy, g, now)
    ensures KeysInv(TickAll(keys, g, now), policy, g, now)
    ensures forall k :: k in TickAll(keys, g, now) ==> !IsDue(TickAll(keys, g, now)[k].core, g.horizon, now)
  {
    var after := TickAll(keys, g, now);
    forall k | k in after
      ensures CoreInv(after[k].core, policy, g, now) && !IsDue(after[k].core, g.horizon, now)
    {
      TickOnlyEmits(keys[k].core, policy, g, now);
      TickLeavesNothingDue(keys[k].core, policy, g, now);
    }
  }

  lemma NextKeepsInv<K, T(!new)>(s: Keyed<K, T>, n: Naive<K, T>, e: Event<T>)
    requires ValidPolicy(s.c.policy) && NaiveInv(s.c, n, e.at) && e.at <= s.c.horizon
    ensures NaiveInv(s.c, Next(s, n, e), e.at)
  {
    OriginIsBefore(s.c, e.at);
    var g := GridOf(s.c, n, e.at);
    if n.anchor.Some? || e.Item? {
      TickAllKeepsInv(n.keys, s.c.policy, g, e.at);
    }
    if e.Item? {
      var ticked := TickAll(n.keys, g, e.at);
      var kept := Without(ticked, Victim(ticked, s.maxKeys, s.key(e.x)));
      ItemEmitsPendingFirst(CoreOf(kept, s.c.policy, s.key(e.x)), s.c.policy, s.c.cap, g, e.at, e.x);
    }
  }

  lemma {:induction false} NaiveRunKeepsInv<K, T(!new)>(s: Keyed<K, T>, es: seq<Event<T>>, t: int)
    requires ValidPolicy(s.c.policy) && Monotone(es, s.c) && EndsBy(es, t)
    ensures NaiveInv(s.c, NaiveRun(s, es), t)
  {
    if es != [] {
      NaiveRunKeepsInv(s, es[..|es| - 1], es[|es| - 1].at);
      NextKeepsInv(s, NaiveRun(s, es[..|es| - 1]), es[|es| - 1]);
    }
  }

  /** The first item of all keys fixes the grid of all keys. */
  lemma {:induction false} FirstItemFixesKeyedAnchor<K, T>(s: Keyed<K, T>, es: seq<Event<T>>)
    requires ValidPolicy(s.c.policy)
    ensures NaiveRun(s, es).anchor == match FirstItem(es)
      case Some(first) => Some(GridStart(s.c, first))
      case None => None
  {
    if es != [] {
      var before, e := es[..|es| - 1], es[|es| - 1];
      assert es == before + [e];
      FirstItemFixesKeyedAnchor(s, before);
      FirstItemExtends(before, e);
      OriginIsStart(s.c, e.at);
      hide OnItem, OnTick, TickAll, Victim, GridOrigin, GridStart, FirstItem;
    }
  }

  // ---------------------------------------------------------------- one key of many

  /** The unkeyed stage, on a given grid, that sees only the items of key `k` (and the flushes). */
  function Solo<K(==), T>(s: Keyed<K, T>, anchor: int, es: seq<Event<T>>, k: K): Stage<T> {
    if es == [] then Stage(Some(anchor), NewCore(s.c.policy), [])
    else
      var before, e := Solo(s, anchor, es[..|es| - 1], k), es[|es| - 1];
      if e.Flush? || (e.Item? && s.key(e.x) == k) then Feed(s.c, before, e) else before
  }

  /** Key `k` of the reference, seen as an unkeyed stage. */
  function KeyStage<K(==), T>(c: Config, n: Naive<K, T>, k: K, out: seq<Window<T>>): Stage<T> {
    Stage(n.anchor, CoreOf(n.keys, c.policy, k), out)
  }

  lemma KeyStageInv<K, T>(c: Config, n: Naive<K, T>, k: K, out: seq<Window<T>>, t: int)
    requires NaiveInv(c, n, t)
    ensures StageInv(c, KeyStage(c, n, k, out), t)
  {
  }

  /** Examining all keys is, for each key, a tick that nobody can see; also if the key is released. */
  lemma TickAllIsSeenAsTick<K, T>(s: Keyed<K, T>, n: Naive<K, T>, now: int, k: K, out: seq<Window<T>>)
    requires ValidPolicy(s.c.policy) && n.anchor.Some? && NaiveInv(s.c, n, now) && now <= s.c.horizon
    ensures var g := Grid(n.anchor.value, s.c.horizon);
            ViewAt(s.c, KeyStage(s.c, n.(keys := TickAll(n.keys, g, now)), k, out + TickOut(n.keys, g, now, k)), now)
            == ViewAt(s.c, KeyStage(s.c, n, k, out), now)
  {
    hide Canon, OnTick, CoreInv, IsEmpty;
    var g := Grid(n.anchor.value, s.c.horizon);
    if k in n.keys {
      ExaminedIsSeenAsTick(n.keys[k].core, s.c.policy, g, now);
    }
  }

  lemma ExaminedIsSeenAsTick<T>(core: Core<T>, policy: Policy, g: Grid, now: int)
    requires ValidPolicy(policy) && Reached(g, now) && CoreInv(core, policy, g, now)
    ensures var after := if Survives(core, g, now) then Examined(core, g, now).core else NewCore(policy);
            && Canon(after, g, now) == Canon(core, g, now)
            && Examined(core, g, now).out + Pending(after, g, now) == Pending(core, g, now)
  {
    if IsDue(core, g.horizon, now) {
      TickOnlyEmits(core, policy, g, now);
      if !Survives(core, g, now) {
        ReleasedIsNew(core, policy, g, now);
      }
    }
  }

  /** One event, for a key whose view agrees with the solo stage and that is not evicted. */
  lemma NextIsSeenAsFeed<K, T(!new)>(
      s: Keyed<K, T>, n: Naive<K, T>, e: Event<T>, k: K, out: seq<Window<T>>, solo: Stage<T>)
    requires ValidPolicy(s.c.policy) && NaiveInv(s.c, n, e.at) && StageInv(s.c, solo, e.at)
    requires n.anchor.Some? && |n.keys| < s.maxKeys && e.at <= s.c.horizon
    requires ViewAt(s.c, KeyStage(s.c, n, k, out), e.at) == ViewAt(s.c, solo, e.at)
    ensures var after := if e.Flush? || (e.Item? && s.key(e.x) == k) then Feed(s.c, solo, e) else solo;
            ViewAt(s.c, KeyStage(s.c, Next(s, n, e), k, out + Out(s, n, e, k)), e.at) == ViewAt(s.c, after, e.at)
  {
    var g := Grid(n.anchor.value, s.c.horizon);
    KeyStageInv(s.c, n, k, out, e.at);
    if e.Flush? {
      FeedDependsOnView(s.c, KeyStage(s.c, n, k, out), solo, e);
      FlushInView(s.c, KeyStage(s.c, n, k, out), e.at);
    } else {
      TickAllIsSeenAsTick(s, n, e.at, k, out);
      if e.Item? {
        ItemAfterTickAll(s, n, e.at, e.x, k, out, solo);
      }
    }
  }

  lemma ItemAfterTickAll<K, T(!new)>(
      s: Keyed<K, T>, n: Naive<K, T>, at: int, x: T, k: K, out: seq<Window<T>>, solo: Stage<T>)
    requires ValidPolicy(s.c.policy) && NaiveInv(s.c, n, at) && StageInv(s.c, solo, at)
    requires n.anchor.Some? && |n.keys| < s.maxKeys && at <= s.c.horizon
    requires ViewAt(s.c, KeyStage(s.c, n, k, out), at) == ViewAt(s.c, solo, at)
    ensures var after := if s.key(x) == k then Feed(s.c, solo, Item(at, x)) else solo;
            ViewAt(s.c, KeyStage(s.c, Next(s, n, Item(at, x)), k, out + Out(s, n, Item(at, x), k)), at)
              == ViewAt(s.c, after, at)
  {
    var g := Grid(n.anchor.value, s.c.horizon);
    var ticked := TickAll(n.keys, g, at);
    var tickOut := TickOut(n.keys, g, at, k);
    ItemWithoutVictim(s, n, at, x, k);
    TickAllIsSeenAsTick(s, n, at, k, out);
    if s.key(x) == k {
      var middle := KeyStage(s.c, n.(keys := ticked), k, out + tickOut);
      assert StageInv(s.c, middle, at) by {
        TickAllKeepsInv(n.keys, s.c.policy, g, at);
      }
      Assoc(out, tickOut, OnItem(CoreOf(ticked, s.c.policy, k), s.c.cap, g, at, x).out);
      FeedDependsOnView(s.c, middle, solo, Item(at, x));
    }
  }

  lemma ItemWithoutVictim<K, T>(s: Keyed<K, T>, n: Naive<K, T>, at: int, x: T, k: K)
    requires n.anchor.Some? && |n.keys| < s.maxKeys
    ensures var g := Grid(n.anchor.value, s.c.horizon);
            var ticked := TickAll(n.keys, g, at);
            var step := OnItem(CoreOf(ticked, s.c.policy, s.key(x)), s.c.cap, g, at, x);
            && Next(s, n, Item(at, x)) == Naive(n.anchor, ticked[s.key(x) := Held(step.core, n.seqNo + 1)], n.seqNo + 1)
            && Out(s, n, Item(at, x), k) == TickOut(n.keys, g, at, k) + (if s.key(x) == k then step.out else [])
  {
    hide OnItem, Survives, Examined;
    var ticked := TickAll(n.keys, Grid(n.anchor.value, s.c.horizon), at);
    NoVictim(n.keys, ticked, s.maxKeys, s.key(x));
  }

  lemma NoVictim<K, T>(keys: map<K, Held<T>>, ticked: map<K, Held<T>>, maxKeys: nat, key: K)
    requires ticked.Keys <= keys.Keys && |keys| < maxKeys
    ensures Victim(ticked, maxKeys, key) == None && |ticked| <= |keys|
  {
    SubsetSize(ticked.Keys, keys.Keys);
    assert |ticked.Keys| == |ticked| && |keys.Keys| == |keys|;
  }

  lemma {:induction false} SubsetSize<X>(a: set<X>, b: set<X>)
    requires a <= b
    ensures |a| <= |b|
  {
    assert b == a + (b - a);
    assert |a + (b - a)| == |a| + |b - a|;
  }

  /** A run of `m` events holds at most `m` keys. */
  lemma {:induction false} KeysAreFew<K, T>(s: Keyed<K, T>, es: seq<Event<T>>)
    ensures |NaiveRun(s, es).keys| <= |es|
  {
    hide OnItem, Survives, Examined, OnTick;
    if es != [] {
      var n, e := NaiveRun(s, es[..|es| - 1]), es[|es| - 1];
      var after := Next(s, n, e);
      KeysAreFew(s, es[..|es| - 1]);
      assert after.keys.Keys <= n.keys.Keys + if e.Item? then {s.key(e.x)} else {};
      SubsetSize(after.keys.Keys, n.keys.Keys + if e.Item? then {s.key(e.x)} else {});
      assert |after.keys| == |after.keys.Keys| && |n.keys| == |n.keys.Keys|;
    }
  }

  /** The solo stage of key `k` and the reference agree on `k` at `t`. */
  ghost predicate SeenAsSolo<K, T>(
      s: Keyed<K, T>, n: Naive<K, T>, total: seq<Window<T>>, k: K, solo: Stage<T>, t: int) {
    StageInv(s.c, solo, t) && ViewAt(s.c, KeyStage(s.c, n, k, total), t) == ViewAt(s.c, solo, t)
  }

  lemma SeenLater<K, T>(s: Keyed<K, T>, n: Naive<K, T>, total: seq<Window<T>>, k: K, solo: Stage<T>, t: int, u: int)
    requires ValidPolicy(s.c.policy) && t <= u <= s.c.horizon && NaiveInv(s.c, n, t)
    requires SeenAsSolo(s, n, total, k, solo, t)
    ensures SeenAsSolo(s, n, total, k, solo, u)
  {
    KeyStageInv(s.c, n, k, total, t);
    ViewLater(s.c, KeyStage(s.c, n, k, total), solo, t, u);
  }

  lemma SeenAfter<K, T(!new)>(s: Keyed<K, T>, n: Naive<K, T>, total: seq<Window<T>>, k: K, solo: Stage<T>, e: Event<T>)
    requires ValidPolicy(s.c.policy) && e.at <= s.c.horizon && NaiveInv(s.c, n, e.at)
    requires n.anchor.Some? && |n.keys| < s.maxKeys && SeenAsSolo(s, n, total, k, solo, e.at)
    ensures SeenAsSolo(s, Next(s, n, e), total + Out(s, n, e, k), k,
                       if e.Flush? || (e.Item? && s.key(e.x) == k) then Feed(s.c, solo, e) else solo, e.at)
  {
    NextIsSeenAsFeed(s, n, e, k, total, solo);
    FeedKeepsInv(s.c, solo, e);
  }

  /** Until the first item fixes the grid nothing is held and nothing comes out. */
  lemma {:induction false} NothingBeforeFirstItem<K, T>(s: Keyed<K, T>, es: seq<Event<T>>, anchor: int, k: K)
    requires NaiveRun(s, es).anchor.None?
    ensures NaiveRun(s, es) == NewNaive<K, T>() && Total(s, es, k) == []
    ensures Solo(s, anchor, es, k) == Stage(Some(anchor), NewCore(s.c.policy), [])
  {
    if es != [] {
      NothingBeforeFirstItem(s, es[..|es| - 1], anchor, k);
    }
  }

  /** The first item acts as on a stage whose grid is already fixed. */
  lemma FirstItemFixesGrid<K, T>(s: Keyed<K, T>, at: int, x: T, k: K)
    ensures var n, e := NewNaive<K, T>(), Item(at, x);
            var fixed := n.(anchor := Some(GridOrigin(s.c.policy, at, s.c.lowest)));
            Next(s, n, e) == Next(s, fixed, e) && Out(s, n, e, k) == Out(s, fixed, e, k)
  {
  }

  lemma {:induction false} KeyIsSeenAsSolo<K, T(!new)>(s: Keyed<K, T>, es: seq<Event<T>>, anchor: int, k: K, t: int)
    requires ValidPolicy(s.c.policy) && Monotone(es, s.c) && EndsBy(es, t) && t <= s.c.horizon
    requires |es| <= s.maxKeys && NaiveRun(s, es).anchor == Some(anchor)
    ensures SeenAsSolo(s, NaiveRun(s, es), Total(s, es, k), k, Solo(s, anchor, es, k), t)
  {
    var e, before := es[|es| - 1], es[..|es| - 1];
    var n, solo := NaiveRun(s, before), Solo(s, anchor, before, k);
    KeysAreFew(s, before);
    NaiveRunKeepsInv(s, before, e.at);
    if n.anchor.Some? {
      KeyIsSeenAsSolo(s, before, anchor, k, e.at);
      SeenAfter(s, n, Total(s, before, k), k, solo, e);
    } else {
      NothingBeforeFirstItem(s, before, anchor, k);
      FirstIsSeen(s, anchor, k, e);
    }
    hide NaiveInv, SeenAsSolo;
    NextKeepsInv(s, n, e);
    SeenLater(s, NaiveRun(s, es), Total(s, es, k), k, Solo(s, anchor, es, k), e.at, t);
  }

  lemma FirstIsSeen<K, T(!new)>(s: Keyed<K, T>, anchor: int, k: K, e: Event<T>)
    requires ValidPolicy(s.c.policy) && e.at <= s.c.horizon && 0 < s.maxKeys
    requires Next(s, NewNaive<K, T>(), e).anchor == Some(anchor)
    ensures var solo := Stage(Some(anchor), NewCore<T>(s.c.policy), []);
            SeenAsSolo(s, Next(s, NewNaive<K, T>(), e), [] + Out(s, NewNaive<K, T>(), e, k), k,
                       if e.Flush? || (e.Item? && s.key(e.x) == k) then Feed(s.c, solo, e) else solo, e.at)
  {
    OriginIsBefore(s.c, e.at);
    FirstItemFixesGrid(s, e.at, e.x, k);
    SeenAfter(s, NewNaive<K, T>().(anchor := Some(anchor)), [], k, Stage(Some(anchor), NewCore(s.c.policy), []), e);
  }

  /**
    Keys do not interfere: with no more than `max_keys` events (so without a key
    limit, always), the windows of key `k` over a whole run are those of one unkeyed
    core on the same grid fed only the items of `k` -- although in the keyed stage
    expiry is driven by the traffic of all keys, and keys are released and recreated.
  */
  lemma {:induction false} KeysDoNotInterfere<K, T(!new)>(s: Keyed<K, T>, es: seq<Event<T>>, k: K, t: int)
    requires ValidPolicy(s.c.policy) && Monotone(es + [Event<T>.Flush(t)], s.c) && |es| < s.maxKeys
    ensures var run := es + [Event<T>.Flush(t)];
            match NaiveRun(s, es).anchor
            case Some(anchor) => Total(s, run, k) == Solo(s, anchor, run, k).out
            case None => Total(s, run, k) == []
  {
    var run := es + [Event<T>.Flush(t)];
    assert run[..|es|] == es;
    assert forall i :: 0 <= i < |es| ==> run[i] == es[i] && run[i].at <= run[|es|].at;
    var n := NaiveRun(s, es);
    NaiveRunKeepsInv(s, es, t);
    if n.anchor.None? {
      NothingBeforeFirstItem(s, es, 0, k);
    } else {
      var anchor := n.anchor.value;
      KeyIsSeenAsSolo(s, es, anchor, k, t);
      KeyStageInv(s.c, n, k, Total(s, es, k), t);
      FeedDependsOnView(s.c, KeyStage(s.c, n, k, Total(s, es, k)), Solo(s, anchor, es, k), Event.Flush(t));
    }
  }
}
