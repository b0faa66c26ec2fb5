/**
  The stepping interface of src/pipeline.rs over one runner: `step`, `tick`, `finish`,
  cancellation, poisoning after a caught panic, and dropping, plus the run to completion
  (`run_sync`). The main results, `RunSync` and `AnyClient`, hold for every outcome of the
  user calls and every client.
*/
module Pipeline {
  import opened Options
  import opened Runner

  datatype State = Built | Running | Ended(succeeded: bool)

  datatype Error = UserError(call: nat) | WasCancelled | AlreadyEnded | BadConfig | Poisoned

  /** What a call of the pipeline gives its caller. */
  datatype Answer = Success(step: Pulled) | Failure(error: Error) | Unwound

  datatype Request = StepRequest | TickRequest | CancelRequest

  /** No user call among the first `n` failed or panicked. */
  ghost predicate Clean(w: World, n: nat) { FirstIn(w, 0, n) == None && !HasPanic(w, 0, n) }

  lemma LastStep(w: World, n: nat)
    ensures StepLog(w, n, 0) == [Pull]
  {}

  ghost predicate PulledNothing(before: seq<Call>, after: seq<Call>) {
    before <= after && forall i :: |before| <= i < |after| ==> !after[i].Pull?
  }

  /**
    From `before` on the run ends gracefully: up to the first call that fails the calls are those
    of the flush and of the lifecycle, and exactly those if none does.
  */
  ghost predicate EndsLike(w: World, before: seq<Call>, after: seq<Call>, hasDlq: bool) {
    var log := before + FinishLog(w, |before|, hasDlq);
    Follows(w, after, log) && (Clean(w, |after|) ==> after == log)
  }

  /** Some request starts the run. */
  ghost predicate Starts(requests: seq<Request>) {
    exists i :: 0 <= i < |requests| && requests[i] != CancelRequest
  }

  lemma StartsMore(requests: seq<Request>, i: nat)
    requires i < |requests|
    ensures Starts(requests[..i + 1]) <==> Starts(requests[..i]) || requests[i] != CancelRequest
  {
    assert requests[..i + 1][i] == requests[i];
    if Starts(requests[..i]) {
      var j :| 0 <= j < i && requests[..i][j] != CancelRequest;
      assert requests[..i + 1][j] != CancelRequest;
    }
  }

  class Pipeline {
    const runner: Runner
    const invalid: bool        // the builder recorded a configuration error
    var state: State
    var inCall: bool
    var cancelled: bool

    /** What is known between two calls of the pipeline, from its state and what the runner has done. */
    ghost predicate StateOk()
      reads this, runner
    {
      match state
      case Built =>
        && runner.calls == [] && runner.live && runner.Progress() == 0 && !inCall
        && runner.itemsIn == 0 && runner.deliveries == runner.w.deliveries
      case Running => runner.live && runner.Progress() == 0 && !invalid && RunningOk(runner.w, |runner.calls|)
      case Ended(ok) => EndedOk(ok, runner.w, runner.calls, runner.live)
    }

    /** The pipeline is poisoned exactly if a call panicked, and otherwise nothing has failed so far. */
    ghost predicate RunningOk(w: World, n: nat)
      reads this
    {
      (inCall <==> HasPanic(w, 0, n)) && (!inCall ==> FirstIn(w, 0, n) == None)
    }

    /** The run succeeded exactly if no user call failed or panicked and it was not cancelled. */
    ghost predicate EndedOk(ok: bool, w: World, calls: seq<Call>, live: bool)
      reads this
    {
      if invalid then calls == [] && !ok
      else !live && (ok ==> Clean(w, |calls|)) && (Clean(w, |calls|) ==> ok || cancelled)
    }

    ghost predicate Valid()
      reads this, runner
    {
      runner.Valid() && runner.Exact() && StateOk()
    }

    /** The user calls in the order made: whatever the run did, then the lifecycle calls, each once. */
    ghost predicate TornDown()
      reads this, runner
    {
      var n := |Order(runner.hasDlq)|;
      && n <= |runner.calls|
      && runner.calls[|runner.calls| - n..] == Order(runner.hasDlq)
      && (forall i :: 0 <= i < |runner.calls| - n ==> !IsTeardown(runner.calls[i]))
    }

    constructor (runner: Runner, invalid: bool)
      requires runner.Valid() && runner.Exact() && runner.live && runner.calls == [] && runner.Progress() == 0
      requires runner.itemsIn == 0 && runner.deliveries == runner.w.deliveries
      ensures Valid() && state == Built && !cancelled
      ensures this.runner == runner && this.invalid == invalid
    {
      hide Runner.Valid, Runner.Exact, Order, FirstIn, HasPanic, RunningOk, EndedOk;
      this.runner, this.invalid := runner, invalid;
      state, inCall, cancelled := Built, false, false;
    }

    /** `ensure_started`: an invalid configuration ends the pipeline without calling any component. */
    method EnsureStarted() returns (error: Option<Error>)
      requires Valid()
      modifies `state
      ensures Valid() && state != Built
      ensures error.Some? ==> invalid && old(state) == Built && error.value == BadConfig && state == Ended(false)
      ensures old(state) == Built && error.None? ==> !invalid && state == Running && !inCall
      ensures old(state) != Built ==> state == old(state)
    {
      hide Runner.Valid, Runner.Exact, Order;
      if state != Built { return None; }
      if invalid {
        state := Ended(false);
        return Some(BadConfig);
      }
      NoCalls(runner.w, 0);
      state := Running;
      error := None;
    }

    /** What a run that ended because of `cause` answers: its first error, unless user code panicked. */
    ghost predicate AnswerOk(a: Answer, cancel: bool, cause: Option<Error>, n: nat)
      reads this
    {
      if cause == Some(Poisoned) then HasPanic(runner.w, 0, n) && (a == Unwound || a == Failure(Poisoned))
      else
        && (a == Unwound <==> HasPanic(runner.w, 0, n))
        && (a != Unwound ==> a == match FirstIn(runner.w, 0, n)
            case Some(k) => Failure(UserError(k))
            case None => if cancel then Failure(WasCancelled) else Success(End))
    }

    /** Why a run ends: nothing has failed, the first failing call is known, or the pipeline is poisoned. */
    ghost predicate CauseOk(cause: Option<Error>, n: nat)
      reads this
    {
      match cause
      case None => Clean(runner.w, n)
      case Some(UserError(k)) => FirstIn(runner.w, 0, n) == Some(k) && !HasPanic(runner.w, 0, n)
      case Some(e) => e == Poisoned && HasPanic(runner.w, 0, n)
    }

    /** `conclude`: tear down according to how the run ended; a panic on the way drops the runner. */
    method Conclude(cancel: bool, cause: Option<Error>) returns (a: Answer)
      requires runner.Valid() && runner.Exact() && runner.live && runner.Progress() == 0
      requires state == Running && !invalid && (cancel ==> cancelled && cause.None?)
      requires CauseOk(cause, |runner.calls|)
      modifies `state, runner
      ensures Valid() && state.Ended? && old(runner.calls) <= runner.calls
      ensures AnswerOk(a, cancel, cause, |runner.calls|)
      ensures (state.succeeded <==> a.Success?) && (cause.Some? ==> !a.Success?)
      ensures runner.itemsIn == old(runner.itemsIn) && PulledNothing(old(runner.calls), runner.calls)
      ensures cause.None? ==> EndsLike(runner.w, old(runner.calls), runner.calls, runner.hasDlq)
    {
      hide Runner.Valid, Runner.Exact, Order, FirstIn, HasPanic, Follows, FinishLog;
      ghost var n := |runner.calls|;
      state := Ended(false);
      var panicked, first := false, None;
      if cause.None? {
        panicked, first := runner.Finish(None);
      } else {
        panicked, first := runner.Abort(if cause.value.UserError? then Some(cause.value.call) else None);
      }
      Stretch(runner.w, 0, n, |runner.calls|);
      if panicked {
        ghost var mid, before := |runner.calls|, runner.calls;
        runner.Drop();
        Stretch(runner.w, 0, mid, |runner.calls|);
        if cause.None? {
          FollowsOn(runner.w, before, runner.calls, old(runner.calls) + FinishLog(runner.w, n, runner.hasDlq), n);
        }
        return Unwound;
      }
      if cause == Some(Poisoned) { return Failure(Poisoned); }
      if first.Some? { return Failure(UserError(first.value)); }
      if cancel { return Failure(WasCancelled); }
      state := Ended(true);
      a := Success(End);
    }

    /** `check_poisoned`: after a caught panic the next call tears the run down and fails. */
    method CheckPoisoned() returns (a: Option<Answer>)
      requires Valid() && state != Built
      modifies `state, `inCall, runner
      ensures Valid() && PulledNothing(old(runner.calls), runner.calls) && !inCall
      ensures state == Running || state.Ended?
      ensures a.None? ==> state == old(state) && unchanged(runner)
      ensures a.Some? ==> state == Ended(false) && (a.value == Unwound || a.value == Failure(Poisoned))
      ensures old(state.Ended?) || !old(inCall) ==> a.None?
    {
      hide Runner.Valid, Runner.Exact, Order, FirstIn, HasPanic;
      var poisoned := inCall;
      inCall := false;
      if poisoned && state == Running {
        var answer := Conclude(false, Some(Poisoned));
        return Some(answer);
      }
      a := None;
    }

    /**
      Which error a call reports: the first failing user call of the run, or the state the
      pipeline was in when it was called.
    */
    ghost predicate ErrorOk(a: Answer, was: State, poisoned: bool, cancelled: bool, w: World, n: nat) {
      a.Failure? ==>
        match a.error
        case UserError(k) => was != Ended(false) && !poisoned && FirstIn(w, 0, n) == Some(k) && !HasPanic(w, 0, n)
        case WasCancelled => !was.Ended? && cancelled && Clean(w, n)
        case AlreadyEnded => was.Ended?
        case BadConfig => was == Built
        case Poisoned => was == Running && poisoned
    }

    /**
      `step`: pull one item and push it through, or tell that the run is over. A run that was
      cancelled is not pulled again: it flushes and ends.
    */
    method Step() returns (a: Answer)
      requires Valid()
      modifies this, runner
      ensures Valid() && state != Built && cancelled == old(cancelled) && old(runner.calls) <= runner.calls
      ensures a.Success? && a.step != End ==> state == Running && !inCall
      ensures a == Success(End) ==> state == Ended(true)
      ensures a.Failure? ==> state == Ended(false)
      ensures old(state.Ended?) ==> runner.calls == old(runner.calls) && state == old(state)
      ensures ErrorOk(a, old(state), old(inCall), old(cancelled), runner.w, |runner.calls|)
      ensures a.Success? && a.step != End ==>
        && runner.Pulls(a.step, |old(runner.calls)|, old(runner.deliveries))
        && runner.calls == old(runner.calls) + StepLog(runner.w, |old(runner.calls)|, old(runner.deliveries))
        && runner.itemsIn == old(runner.itemsIn) + if a.step == Item then 1 else 0
      ensures a == Success(End) && !old(state.Ended?) ==>
        EndsLike(runner.w, old(runner.calls) + [Pull], runner.calls, runner.hasDlq)
      ensures old(state == Running && cancelled && !inCall) ==>
        && PulledNothing(old(runner.calls), runner.calls) && state.Ended?
        && EndsLike(runner.w, old(runner.calls), runner.calls, runner.hasDlq)
    {
      hide Runner.Valid, Runner.Exact, Order, FirstIn, HasPanic, Follows, EndsLike, StepLog, FinishLog;
      var e := EnsureStarted();
      if e.Some? { return Failure(e.value); }
      var p := CheckPoisoned();
      if p.Some? { return p.value; }
      if state.Ended? { return if state.succeeded then Success(End) else Failure(AlreadyEnded); }
      if cancelled {
        a := Conclude(true, None);
        return;
      }
      ghost var n := |runner.calls|;
      inCall := true;
      var s := runner.Step();
      Stretch(runner.w, 0, n, |runner.calls|);
      if s == StepPanicked { return Unwound; }
      inCall := false;
      match s
      case Got(pulled) =>
        if pulled != End {
          a := Success(pulled);
        } else {
          LastStep(runner.w, n);
          a := Conclude(false, None);
        }
      case Stopped(call) => a := Conclude(false, Some(UserError(call)));
    }

    /** `tick`: an idle tick from the caller's own timer. */
    method Tick() returns (a: Answer)
      requires Valid()
      modifies this, runner
      ensures Valid() && state != Built && cancelled == old(cancelled) && old(runner.calls) <= runner.calls
      ensures a.Success? ==>
        && state == Running && !inCall
        && runner.calls == old(runner.calls) + ScriptCalls(runner.w.work(|old(runner.calls)|))
      ensures a.Failure? ==> state.Ended?
      ensures old(state.Ended?) ==> runner.calls == old(runner.calls) && state == old(state)
      ensures ErrorOk(a, old(state), old(inCall), old(cancelled), runner.w, |runner.calls|)
    {
      hide Runner.Valid, Runner.Exact, Order, FirstIn, HasPanic;
      var e := EnsureStarted();
      if e.Some? { return Failure(e.value); }
      var p := CheckPoisoned();
      if p.Some? { return p.value; }
      if state.Ended? { return Failure(AlreadyEnded); }
      ghost var n := |runner.calls|;
      inCall := true;
      var h := runner.TickChain();
      Stretch(runner.w, 0, n, |runner.calls|);
      if h == Unwinding { return Unwound; }
      inCall := false;
      match h
      case Fine(_) => a := Success(Idle);
      case Halted(call) => a := Conclude(false, Some(UserError(call)));
    }

    /** `finish`: end the run gracefully, starting it first if need be. */
    method Finish() returns (a: Answer)
      requires Valid()
      modifies this, runner
      ensures Valid() && state.Ended? && old(runner.calls) <= runner.calls
      ensures a.Success? <==> state == Ended(true)
      ensures PulledNothing(old(runner.calls), runner.calls)
      ensures !old(state.Ended?) && !old(inCall) && !invalid ==>
        EndsLike(runner.w, old(runner.calls), runner.calls, runner.hasDlq)
      ensures old(state.Ended?) ==> runner.calls == old(runner.calls)
      ensures ErrorOk(a, old(state), old(inCall), old(cancelled), runner.w, |runner.calls|)
    {
      hide Runner.Valid, Runner.Exact, Order, FirstIn, HasPanic, EndsLike;
      if state.Ended? { return if state.succeeded then Success(End) else Failure(AlreadyEnded); }
      var e := EnsureStarted();
      if e.Some? { return Failure(e.value); }
      var p := CheckPoisoned();
      if p.Some? { return p.value; }
      a := Conclude(false, None);
    }

    /** Dropping the pipeline drops the runner of a run that has not ended. */
    method Drop()
      requires Valid()
      modifies runner
      ensures runner.Valid() && runner.Exact() && old(runner.calls) <= runner.calls
      ensures state == Running ==> !runner.live
      ensures state != Running ==> unchanged(runner)
    {
      if state == Running { runner.Drop(); }
    }

    /** A run whose runner is no longer live has made all lifecycle calls, in order, each exactly once. */
    lemma DeadIsTornDown()
      requires runner.Valid() && !runner.live
      ensures TornDown()
    {
      var n := |Order(runner.hasDlq)|;
      assert Order(runner.hasDlq)[..n] == Order(runner.hasDlq);
    }

    /**
      `run_sync`, the run to completion: for every outcome of the user calls the components
      are torn down in order, each exactly once; a panic propagates exactly if user code
      panicked; otherwise the answer is the first error, and success means that nothing
      failed and every item written is counted. Up to the first call that fails or panics the
      calls are those of the run in which nothing does: each delivery is pulled and then worked
      on, until the source ends or the run is cancelled, and then the run is flushed and torn down.
    */
    method RunSync() returns (a: Answer)
      requires Valid() && state == Built && !cancelled
      modifies this, runner
      ensures if invalid then a == Failure(BadConfig) && runner.calls == []
        else TornDown() && AnswerOk(a, cancelled, None, |runner.calls|)
      ensures a.Success? ==> runner.itemsOut == CountWrites(runner.calls)
      ensures !invalid ==> var log := RunLog(runner.w, runner.w.deliveries, runner.hasDlq);
        && Follows(runner.w, runner.calls, log)
        && (a.Success? || a == Failure(WasCancelled) ==>
              runner.calls == log && runner.itemsIn == PumpItems(runner.w, 0, runner.w.deliveries))
      ensures a.Failure? && a.error.UserError? ==>
        var k := a.error.call;
        && k < |runner.calls| && runner.w.outcome(k) == Err
        && forall j: nat :: j < k ==> runner.w.outcome(j) == Ok
    {
      hide Runner.Valid, Runner.Exact, Order, FirstIn, HasPanic, TornDown, CountWrites, Follows, RunLog;
      var e := EnsureStarted();
      if e.Some? { return Failure(e.value); }
      a := RunStarted();
      DeadIsTornDown();
      if a.Success? { AllFine(); }
      FirstCall(|runner.calls|);
    }

    /** The pull loop and the end of the run. */
    method RunStarted() returns (a: Answer)
      requires Valid() && state == Running && !inCall && !cancelled
      requires runner.calls == [] && runner.itemsIn == 0 && runner.deliveries == runner.w.deliveries
      modifies this, runner
      ensures runner.Valid() && runner.Exact() && !runner.live
      ensures AnswerOk(a, cancelled, None, |runner.calls|)
      ensures Follows(runner.w, runner.calls, RunLog(runner.w, runner.w.deliveries, runner.hasDlq))
      ensures Clean(runner.w, |runner.calls|) ==>
        && runner.calls == RunLog(runner.w, runner.w.deliveries, runner.hasDlq)
        && runner.itemsIn == PumpItems(runner.w, 0, runner.w.deliveries)
    {
      hide Runner.Valid, Runner.Exact, Order, FirstIn, HasPanic, Follows, FinishLog, PumpLog, PumpItems;
      var end := runner.Pump();
      ghost var n, pumped, before := |runner.calls|, PumpLog(runner.w, 0, runner.w.deliveries), runner.calls;
      assert [] + pumped == pumped;
      FollowsLonger(runner.w, before, pumped, RunLog(runner.w, runner.w.deliveries, runner.hasDlq));
      match end {
        case PumpPanicked =>
          runner.Drop();
          Stretch(runner.w, 0, n, |runner.calls|);
          a := Unwound;
        case Graceful => a := Conclude(false, None);
        case Cancelled =>
          cancelled := true;
          a := Conclude(true, None);
        case Failed(call) => a := Conclude(false, Some(UserError(call)));
      }
      if !end.Graceful? && !end.Cancelled? {
        Stretch(runner.w, 0, n, |runner.calls|);
        FollowsOn(runner.w, before, runner.calls, RunLog(runner.w, runner.w.deliveries, runner.hasDlq), 0);
      }
    }

    lemma FirstCall(n: nat)
      ensures !HasPanic(runner.w, 0, n) && FirstIn(runner.w, 0, n).Some? ==>
        var k := FirstIn(runner.w, 0, n).value;
        && k < n && runner.w.outcome(k) == Err
        && forall j: nat :: j < k ==> runner.w.outcome(j) == Ok
    {
      FirstIsFirst(runner.w, 0, n);
    }

    lemma AllFine()
      requires Clean(runner.w, |runner.calls|) && runner.Exact()
      ensures runner.itemsOut == CountWrites(runner.calls)
    {
      FirstIsFirst(runner.w, 0, |runner.calls|);
      forall k | 0 <= k < |runner.calls| ensures runner.w.outcome(k) == Ok {
        assert runner.w.outcome(k) != Err && runner.w.outcome(k) != Panic;
      }
    }

    /**
      Any client: it makes requests in any order, catching every panic, and in the end
      finishes the pipeline or drops it. Once a run has started, all lifecycle calls have
      been made, in order, each exactly once, and no component is called after them; a
      pipeline that never starts calls nothing.
    */
    method AnyClient(requests: seq<Request>, finish: bool) returns (ghost started: bool)
      requires Valid() && state == Built
      modifies this, runner
      ensures started <==> !invalid && (finish || Starts(requests))
      ensures if started then TornDown() else runner.calls == []
    {
      hide Runner.Valid, Runner.Exact, Order, FirstIn, HasPanic, TornDown, Starts;
      assert !Starts(requests[..0]) by { NoStart(requests); }
      for i := 0 to |requests|
        invariant Valid()
        invariant state != Built <==> Starts(requests[..i])
      {
        StartsMore(requests, i);
        var _ := Serve(requests[i]);
      }
      assert requests[..|requests|] == requests;
      started := !invalid && (finish || state != Built);
      if finish {
        var _ := Finish();
      } else {
        Drop();
      }
      if started { DeadIsTornDown(); }
    }

    lemma NoStart(requests: seq<Request>)
      ensures !Starts(requests[..0])
    {}

    method Serve(r: Request) returns (a: Answer)
      requires Valid()
      modifies this, runner
      ensures Valid() && (state != Built <==> old(state) != Built || r != CancelRequest)
    {
      hide Runner.Valid, Runner.Exact, Order, FirstIn, HasPanic;
      match r
      case StepRequest => a := Step();
      case TickRequest => a := Tick();
      case CancelRequest => cancelled := true; a := Success(Idle);
    }
  }
}
