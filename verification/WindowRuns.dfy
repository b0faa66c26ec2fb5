/**
  Runs of the unkeyed window stage of src/window.rs (`WindowStage`), and the law
  that ticks decide only when a window comes out, never which windows do.
*/
module WindowRuns {
  import opened Options
  import opened WindowCore
  import opened WindowGrid
  import opened WindowLaws

  /** A `WindowSpec` with its limits resolved, and the first and last representable instants. */
  datatype Config = Config(policy: Policy, cap: nat, lowest: int, horizon: int)

  datatype Event<T> =
    | Item(at: int, x: T)
    | Tick(at: int)
    | Flush(at: int)

  /** The state of a stage, and everything it has emitted. */
  datatype Stage<T> = Stage(anchor: Option<int>, core: Core<T>, out: seq<Window<T>>)

  function Start<T>(c: Config): Stage<T> {
    Stage(None, NewCore(c.policy), [])
  }

  /** One call of `process`, `tick` or `flush`. */
  function Feed<T>(c: Config, s: Stage<T>, e: Event<T>): Stage<T> {
    match e
    case Item(at, x) =>
      var anchor := s.anchor.GetOr(GridOrigin(c.policy, at, c.lowest));
      var step := OnItem(s.core, c.cap, Grid(anchor, c.horizon), at, x);
      Stage(Some(anchor), step.core, s.out + step.out)
    case Tick(at) =>
      if s.anchor.None? then s
      else
        var step := OnTick(s.core, Grid(s.anchor.value, c.horizon), at);
        Stage(s.anchor, step.core, s.out + step.out)
    case Flush(at) =>
      var step := OnFlush(s.core, Grid(s.anchor.GetOr(at), c.horizon), at);
      Stage(s.anchor, step.core, s.out + step.out)
  }

  function Run<T>(c: Config, es: seq<Event<T>>): Stage<T> {
    if es == [] then Start(c) else Feed(c, Run(c, es[..|es| - 1]), es[|es| - 1])
  }

  lemma RunExtends<T>(c: Config, es: seq<Event<T>>, e: Event<T>)
    ensures Run(c, es + [e]) == Feed(c, Run(c, es), e)
  {
    assert (es + [e])[..|es|] == es;
  }

  /** When the first item of a run arrives. */
  function FirstItem<T>(es: seq<Event<T>>): Option<int> {
    if es == [] then None
    else if es[0].Item? then Some(es[0].at)
    else FirstItem(es[1..])
  }

  /**
    Where the grid starts if the first item arrives at `first`: there, or for sliding windows far
    enough before it for the item to join ceil(size / slide) windows, if that is representable.
  */
  function GridStart(c: Config, first: int): int
    requires ValidPolicy(c.policy)
  {
    if c.policy.Sliding? then
      var back := (CeilDiv(c.policy.size, c.policy.slide) - 1) * c.policy.slide;
      if first - back < c.lowest then first else first - back
    else first
  }

  lemma {:induction false} FirstItemExtends<T>(es: seq<Event<T>>, e: Event<T>)
    ensures FirstItem(es + [e]) == if FirstItem(es).Some? then FirstItem(es) else if e.Item? then Some(e.at) else None
  {
    if es == [] {
      assert ([] + [e])[1..] == [];
    } else {
      assert (es + [e])[0] == es[0] && (es + [e])[1..] == es[1..] + [e];
      FirstItemExtends(es[1..], e);
    }
  }

  lemma OriginIsStart(c: Config, first: int)
    requires ValidPolicy(c.policy)
    ensures GridOrigin(c.policy, first, c.lowest) == GridStart(c, first)
  {
    if c.policy.Sliding? { QuotientBounds(c.policy.size, c.policy.slide); }
  }

  /** The first item of a run fixes the grid: at its arrival, but for the shift of sliding windows. */
  lemma {:induction false} FirstItemFixesAnchor<T>(c: Config, es: seq<Event<T>>)
    requires ValidPolicy(c.policy)
    ensures Run(c, es).anchor == match FirstItem(es)
      case Some(first) => Some(GridStart(c, first))
      case None => None
  {
    if es != [] {
      var before, e := es[..|es| - 1], es[|es| - 1];
      assert es == before + [e];
      FirstItemFixesAnchor(c, before);
      FirstItemExtends(before, e);
      OriginIsStart(c, e.at);
      hide OnItem, OnTick, OnFlush, GridOrigin, GridStart, FirstItem;
    }
  }

  /** `WindowStage`: the stage updates its fields in place and emits as it goes. */
  class WindowStage<T> {
    const config: Config
    var anchor: Option<int>
    var core: Core<T>
    ghost var history: seq<Event<T>>
    ghost var emitted: seq<Window<T>>

    ghost predicate Valid()
      reads this
    {
      Stage(anchor, core, emitted) == Run(config, history)
    }

    constructor (config: Config)
      ensures Valid() && this.config == config && history == [] && emitted == []
    {
      this.config := config;
      anchor, core := None, NewCore(config.policy);
      history, emitted := [], [];
    }

    method Process(now: int, item: T) returns (out: seq<Window<T>>)
      requires Valid()
      modifies this
      ensures Valid()
      ensures history == old(history) + [Item(now, item)] && emitted == old(emitted) + out
    {
      if anchor.None? {
        anchor := Some(GridOrigin(config.policy, now, config.lowest));
      }
      core, out := CoreOnItem(core, config.cap, Grid(anchor.value, config.horizon), now, item);
      RunExtends(config, history, Item(now, item));
      history, emitted := history + [Item(now, item)], emitted + out;
    }

    method Tick(now: int) returns (out: seq<Window<T>>)
      requires Valid()
      modifies this
      ensures Valid()
      ensures history == old(history) + [Event.Tick(now)] && emitted == old(emitted) + out
    {
      out := [];
      if anchor.Some? {
        core, out := CoreOnTick(core, Grid(anchor.value, config.horizon), now);
      }
      RunExtends(config, history, Event.Tick(now));
      history, emitted := history + [Event.Tick(now)], emitted + out;
    }

    method Flush(now: int) returns (out: seq<Window<T>>)
      requires Valid()
      modifies this
      ensures Valid()
      ensures history == old(history) + [Event.Flush(now)] && emitted == old(emitted) + out
    {
      core, out := CoreOnFlush(core, Grid(anchor.GetOr(now), config.horizon), now);
      RunExtends(config, history, Event.Flush(now));
      history, emitted := history + [Event.Flush(now)], emitted + out;
    }
  }

  // ---------------------------------------------------------------- ticks

  /** The clock never goes backwards and only returns representable instants. */
  predicate Monotone<T>(es: seq<Event<T>>, c: Config) {
    && (forall i, j :: 0 <= i < j < |es| ==> es[i].at <= es[j].at)
    && (forall i :: 0 <= i < |es| ==> c.lowest <= es[i].at <= c.horizon)
  }

  function WithoutTicks<T>(es: seq<Event<T>>): seq<Event<T>> {
    if es == [] then []
    else
      var rest := WithoutTicks(es[..|es| - 1]);
      if es[|es| - 1].Tick? then rest else rest + [es[|es| - 1]]
  }

  /** What a stage amounts to at `t`: emitted or due windows, and the canonical core. */
  datatype View<T> = View(anchor: Option<int>, core: Core<T>, out: seq<Window<T>>)

  function ViewAt<T>(c: Config, s: Stage<T>, t: int): View<T> {
    if s.anchor.None? then View(None, s.core, s.out)
    else
      var g := Grid(s.anchor.value, c.horizon);
      View(s.anchor, Canon(s.core, g, t), s.out + Pending(s.core, g, t))
  }

  ghost predicate StageInv<T>(c: Config, s: Stage<T>, t: int) {
    if s.anchor.Some?
    then s.anchor.value <= t && CoreInv(s.core, c.policy, Grid(s.anchor.value, c.horizon), t)
    else s.core == NewCore(c.policy)
  }

  lemma OriginIsBefore(c: Config, at: int)
    requires ValidPolicy(c.policy)
    ensures GridOrigin(c.policy, at, c.lowest) <= at
  {
    if c.policy.Sliding? {
      QuotientBounds(c.policy.size, c.policy.slide);
      MulMonotone(0, CeilDiv(c.policy.size, c.policy.slide) - 1, c.policy.slide);
    }
  }

  lemma StageInvLater<T>(c: Config, s: Stage<T>, t: int, u: int)
    requires StageInv(c, s, t) && t <= u
    ensures StageInv(c, s, u)
  {
  }

  lemma FeedKeepsInv<T(!new)>(c: Config, s: Stage<T>, e: Event<T>)
    requires ValidPolicy(c.policy) && StageInv(c, s, e.at) && e.at <= c.horizon
    ensures StageInv(c, Feed(c, s, e), e.at)
  {
    OriginIsBefore(c, e.at);
    var anchor := s.anchor.GetOr(GridOrigin(c.policy, e.at, c.lowest));
    var g := Grid(anchor, c.horizon);
    match e
    case Item(at, x) =>
      ItemEmitsPendingFirst(s.core, c.policy, c.cap, g, at, x);
    case Tick(at) =>
      if s.anchor.Some? {
        TickOnlyEmits(s.core, c.policy, g, at);
      }
    case Flush(at) =>
      if s.anchor.Some? {
        FlushEmitsPendingFirst(s.core, c.policy, g, at);
      }
  }

  lemma {:induction false} RunKeepsInv<T(!new)>(c: Config, es: seq<Event<T>>, t: int)
    requires ValidPolicy(c.policy) && Monotone(es, c) && EndsBy(es, t)
    ensures StageInv(c, Run(c, es), t)
  {
    if es != [] {
      var e := es[|es| - 1];
      RunKeepsInv(c, es[..|es| - 1], e.at);
      FeedKeepsInv(c, Run(c, es[..|es| - 1]), e);
      StageInvLater(c, Run(c, es), e.at, t);
    }
  }

  lemma Assoc<X>(a: seq<X>, b: seq<X>, c: seq<X>)
    ensures a + (b + c) == (a + b) + c
  {
  }

  /** Stages with equal views stay equal in view when time passes. */
  lemma ViewLater<T>(c: Config, s1: Stage<T>, s2: Stage<T>, t: int, u: int)
    requires ValidPolicy(c.policy) && StageInv(c, s1, t) && StageInv(c, s2, t) && t <= u <= c.horizon
    requires ViewAt(c, s1, t) == ViewAt(c, s2, t)
    ensures ViewAt(c, s1, u) == ViewAt(c, s2, u)
  {
    if s1.anchor.Some? {
      var g := Grid(s1.anchor.value, c.horizon);
      Absorb(s1.core, c.policy, g, t, u);
      Absorb(s2.core, c.policy, g, t, u);
      var more := Pending(Canon(s1.core, g, t), g, u);
      Assoc(s1.out, Pending(s1.core, g, t), more);
      Assoc(s2.out, Pending(s2.core, g, t), more);
    }
  }

  /** A tick is invisible. */
  lemma TickKeepsView<T(!new)>(c: Config, s: Stage<T>, now: int)
    requires ValidPolicy(c.policy) && StageInv(c, s, now) && now <= c.horizon
    ensures ViewAt(c, Feed(c, s, Event.Tick(now)), now) == ViewAt(c, s, now)
  {
    if s.anchor.Some? {
      TickOnlyEmits(s.core, c.policy, Grid(s.anchor.value, c.horizon), now);
    }
  }

  /** A run shows, after an item, what it showed before plus what the canonical core emits. */
  lemma ItemInView<T(!new)>(c: Config, s: Stage<T>, at: int, x: T)
    requires ValidPolicy(c.policy) && s.anchor.Some? && at <= c.horizon && StageInv(c, s, at)
    ensures var g := Grid(s.anchor.value, c.horizon);
            var v := ViewAt(c, s, at);
            var step := OnItem(v.core, c.cap, g, at, x);
            ViewAt(c, Feed(c, s, Item(at, x)), at) == View(s.anchor, Canon(step.core, g, at), v.out + step.out)
  {
    var g := Grid(s.anchor.value, c.horizon);
    ItemEmitsPendingFirst(s.core, c.policy, c.cap, g, at, x);
    Assoc(s.out, Pending(s.core, g, at), OnItem(Canon(s.core, g, at), c.cap, g, at, x).out);
  }

  lemma FlushInView<T(!new)>(c: Config, s: Stage<T>, at: int)
    requires ValidPolicy(c.policy) && s.anchor.Some? && at <= c.horizon && StageInv(c, s, at)
    ensures var g := Grid(s.anchor.value, c.horizon);
            var v := ViewAt(c, s, at);
            Feed(c, s, Event.Flush(at)) == Stage(s.anchor, NewCore(c.policy), v.out + OnFlush(v.core, g, at).out)
  {
    var g := Grid(s.anchor.value, c.horizon);
    FlushEmitsPendingFirst(s.core, c.policy, g, at);
    Assoc(s.out, Pending(s.core, g, at), OnFlush(Canon(s.core, g, at), g, at).out);
  }

  /** Stages with equal views treat every item and every flush alike. */
  lemma FeedDependsOnView<T(!new)>(c: Config, s1: Stage<T>, s2: Stage<T>, e: Event<T>)
    requires ValidPolicy(c.policy) && !e.Tick? && e.at <= c.horizon
    requires StageInv(c, s1, e.at) && StageInv(c, s2, e.at)
    requires ViewAt(c, s1, e.at) == ViewAt(c, s2, e.at)
    ensures ViewAt(c, Feed(c, s1, e), e.at) == ViewAt(c, Feed(c, s2, e), e.at)
    ensures e.Flush? ==> Feed(c, s1, e) == Feed(c, s2, e)
  {
    if s1.anchor.None? {
      assert s1 == s2;
    } else if e.Item? {
      ItemInView(c, s1, e.at, e.x);
      ItemInView(c, s2, e.at, e.x);
    } else {
      FlushInView(c, s1, e.at);
      FlushInView(c, s2, e.at);
    }
  }

  /** Feeding an event, or skipping it if it is a tick, is seen alike from `t` on. */
  lemma StepIsSeen<T(!new)>(c: Config, s1: Stage<T>, s2: Stage<T>, e: Event<T>, t: int)
    requires ValidPolicy(c.policy) && e.at <= t <= c.horizon
    requires StageInv(c, s1, e.at) && StageInv(c, s2, e.at)
    requires ViewAt(c, s1, e.at) == ViewAt(c, s2, e.at)
    ensures ViewAt(c, Feed(c, s1, e), t) == ViewAt(c, if e.Tick? then s2 else Feed(c, s2, e), t)
  {
    FeedKeepsInv(c, s1, e);
    if e.Tick? {
      TickKeepsView(c, s1, e.at);
      ViewLater(c, Feed(c, s1, e), s2, e.at, t);
    } else {
      FeedDependsOnView(c, s1, s2, e);
      FeedKeepsInv(c, s2, e);
      ViewLater(c, Feed(c, s1, e), Feed(c, s2, e), e.at, t);
    }
  }

  /** Every event of the run is at or before `t`. */
  predicate EndsBy<T>(es: seq<Event<T>>, t: int) { es == [] || es[|es| - 1].at <= t }

  lemma {:induction false} WithoutTicksIsMonotone<T>(c: Config, es: seq<Event<T>>, t: int)
    requires Monotone(es, c) && EndsBy(es, t)
    ensures Monotone(WithoutTicks(es), c) && EndsBy(WithoutTicks(es), t)
  {
    if es != [] {
      WithoutTicksIsMonotone(c, es[..|es| - 1], es[|es| - 1].at);
    }
  }

  lemma {:induction false} RunIsSeenWithoutTicks<T(!new)>(c: Config, es: seq<Event<T>>, t: int)
    requires ValidPolicy(c.policy) && Monotone(es, c) && EndsBy(es, t) && t <= c.horizon
    ensures ViewAt(c, Run(c, es), t) == ViewAt(c, Run(c, WithoutTicks(es)), t)
  {
    if es != [] {
      var e, before := es[|es| - 1], es[..|es| - 1];
      RunIsSeenWithoutTicks(c, before, e.at);
      RunKeepsInv(c, before, e.at);
      WithoutTicksIsMonotone(c, before, e.at);
      RunKeepsInv(c, WithoutTicks(before), e.at);
      StepIsSeen(c, Run(c, before), Run(c, WithoutTicks(before)), e, t);
      RunExtends(c, WithoutTicks(before), e);
    }
  }

  /**
    Ticks are transparent: two runs that differ only in their ticks emit the same
    windows (items, start, end) in the same order by the end of the stream. At any
    earlier instant `t` they differ only by windows already due at `t`.
  */
  lemma {:induction false} TicksAreTransparent<T(!new)>(c: Config, es1: seq<Event<T>>, es2: seq<Event<T>>, t: int)
    requires ValidPolicy(c.policy) && c.lowest <= t <= c.horizon
    requires Monotone(es1 + [Event.Tick(t)], c) && Monotone(es2 + [Event.Tick(t)], c)
    requires WithoutTicks(es1) == WithoutTicks(es2)
    ensures Run(c, es1 + [Event.Flush(t)]).out == Run(c, es2 + [Event.Flush(t)]).out
    ensures Run(c, es1 + [Event.Tick(t)]).out == Run(c, es2 + [Event.Tick(t)]).out
  {
    var w1, w2 := es1 + [Event.Tick(t)], es2 + [Event.Tick(t)];
    assert w1[..|es1|] == es1 && w2[..|es2|] == es2;
    assert forall i :: 0 <= i < |es1| ==> w1[i] == es1[i] && w1[i].at <= w1[|es1|].at;
    assert forall i :: 0 <= i < |es2| ==> w2[i] == es2[i] && w2[i].at <= w2[|es2|].at;
    assert Monotone(es1, c) && Monotone(es2, c);
    hide Run, Feed, StageInv, WithoutTicks;
    RunIsSeenWithoutTicks(c, es1, t);
    RunIsSeenWithoutTicks(c, es2, t);
    RunKeepsInv(c, es1, t);
    RunKeepsInv(c, es2, t);
    FeedDependsOnView(c, Run(c, es1), Run(c, es2), Event.Flush(t));
    RunExtends(c, es1, Event.Flush(t));
    RunExtends(c, es2, Event.Flush(t));
    RunExtends(c, es1, Event.Tick(t));
    RunExtends(c, es2, Event.Tick(t));
    TickShows(c, Run(c, es1), t);
    TickShows(c, Run(c, es2), t);
  }

  /** After a tick everything the view shows has come out. */
  lemma TickShows<T>(c: Config, s: Stage<T>, t: int)
    ensures Feed(c, s, Event.Tick(t)).out == ViewAt(c, s, t).out
  {}
}
