/**
 The multi-step scope `PoisonScope` and its step driver `TryCatchUnwind`
 (src/poison/scope.rs).

 A scope owns the container taken out of a guard plus a private shadow state.
 Steps only ever change the value and the shadow; the container's own state
 keeps the state of the guard the scope came from until the scope ends.

 A step's closure is described by what each unwind-protected unit of its
 execution does, in order: the value it leaves behind and whether it is still
 pending, returns a result, or unwinds. In the initial state the driver calls
 the closure and then polls what it returned straight away; an unwind in either
 part has the same effect, so one unit describes both. A synchronous step is a
 single finished unit.
 */
module Scopes {
  import opened Results
  import opened States
  import opened Poisons
  import Guards
  import Recovers

  datatype PoisonScope<T> = PoisonScope(target: Poison<T>, shadow: PoisonState)

  /** What one finished unit of a step did. */
  datatype Completion<T, R> =
    | Returned(value: T, result: Result<R, DynError>)
    | Unwound(value: T, payload: Payload)

  /** What one unit of a step did: a poll may also still be pending. */
  datatype Unit<T, R> = Pending(value: T) | Finished(completion: Completion<T, R>)

  /**
   The driver's states. `Initial` holds the step's closure and `Continue` what
   is left of its execution after a pending poll. `Spent` is a driver that has
   already resolved: polling it again breaks the `Future` contract.
   */
  datatype Driver<T, R> =
    | Initial(step: seq<Unit<T, R>>)
    | Continue(rest: seq<Unit<T, R>>)
    | Done(result: Result<R, PoisonError>)
    | Spent

  datatype Progress<X> = NotReady | Ready(output: X)

  datatype Polled<T, R> = Polled(scope: PoisonScope<T>, driver: Driver<T, R>, poll: Progress<Result<R, PoisonError>>)

  predicate Running<T, R>(d: Driver<T, R>)
  {
    d.Initial? || d.Continue?
  }

  /** What a running driver has still to execute. */
  function Remaining<T, R>(d: Driver<T, R>): seq<Unit<T, R>>
    requires Running(d)
  {
    if d.Initial? then d.step else d.rest
  }

  /** The value a unit left behind. */
  function ValueOf<T, R>(u: Unit<T, R>): T
  {
    match u
    case Pending(v) => v
    case Finished(c) => c.value
  }

  predicate Succeeds<T, R>(c: Completion<T, R>)
  {
    c.Returned? && c.result.Ok?
  }

  /** What a succeeding step returned. */
  function Output<T, R>(c: Completion<T, R>): R
    requires Succeeds(c)
  {
    c.result.value
  }

  /** `new`: the shadow starts as a copy of the container's state. */
  function New<T>(target: Poison<T>): (s: PoisonScope<T>)
    ensures s.target == target
    ensures s.shadow == target.state
  {
    PoisonScope(target, target.state)
  }

  /** `take`: the shadow is swapped back into the container, which is moved out. */
  function Take<T>(s: PoisonScope<T>): (p: Poison<T>)
    ensures p.value == s.target.value
    ensures p.state == s.shadow
  {
    Poison(s.target.value, s.shadow)
  }

  /**
   `poison`: ends the scope. The shadow goes back into the container with the
   sentinel cleared; a clean result gives a fresh guard, a captured failure a
   recovery handle over that failure. `poison` does not track its caller, so
   `caller` is a fixed place inside scope.rs (the guard it builds), never the
   user's call site.
   */
  function Close<T>(s: PoisonScope<T>, caller: Location)
    : (res: Result<Guards.PoisonGuard<T>, Recovers.PoisonRecover<T>>)
    ensures res.Ok? <==> IsUnpoisonedOrSentinel(s.shadow)
    ensures res.Ok? ==> res.value.target == Poison(s.target.value, Guarded(caller))
    ensures res.Err? ==> res.error.target == Poison(s.target.value, s.shadow)
  {
    var target := Take(s);
    var cleared := Poison(target.value, UnpoisonIfGuarded(target.state));
    if Poisons.IsPoisoned(cleared) then
      Err(Recovers.PoisonRecover(cleared))
    else
      Ok(Guards.PoisonOnUnwind(cleared, caller))
  }

  /**
   Dropping a scope without `poison`. A normal drop behaves like `poison` on the
   container's state; an unwinding drop ignores the shadow and forces panic
   poison onto the container. The drop does not track its caller, so `caller`
   is a fixed place inside scope.rs.
   */
  function Drop<T>(s: PoisonScope<T>, unwinding: bool, caller: Location): (p: Poison<T>)
    ensures p.value == s.target.value
    ensures unwinding ==> p.state.UnknownPanic?
    ensures unwinding ==>
              Origin(p.state) == Some(if s.target.state.Guarded? then s.target.state.location else caller)
    ensures !unwinding ==> (States.IsPoisoned(p.state) <==> !IsUnpoisonedOrSentinel(s.shadow))
    ensures !unwinding && States.IsPoisoned(p.state) ==> p.state == s.shadow
  {
    if unwinding then
      Poison(s.target.value, PoisonWithPanic(s.target.state, caller, None))
    else
      Poison(s.target.value, UnpoisonIfGuarded(s.shadow))
  }

  /**
   `try_catch_unwind`: arms a driver over the step only while no failure has
   been captured; otherwise the driver is already resolved with the captured
   failure and the step is dropped unrun.
   */
  function TryCatchUnwind<T, R>(s: PoisonScope<T>, with: seq<Unit<T, R>>): (d: Driver<T, R>)
    ensures d.Initial? <==> IsUnpoisonedOrSentinel(s.shadow)
    ensures d.Initial? ==> d.step == with
    ensures !d.Initial? ==> d == Done(Err(PoisonError(s.shadow)))
  {
    if IsUnpoisonedOrSentinel(s.shadow) then Initial(with) else Done(Err(ToError(s.shadow)))
  }

  /**
   The unwind boundary around one finished unit: success leaves the shadow
   alone, an error or an unwind is captured into it and reported.
   */
  function Settle<T, R>(shadow: PoisonState, c: Completion<T, R>, caller: Location)
    : (out: (PoisonState, Result<R, PoisonError>))
    ensures out.1.Ok? <==> Succeeds(c)
    ensures out.1.Ok? ==> out.0 == shadow && out.1.value == c.result.value
    ensures out.1.Err? ==> out.1.error == PoisonError(out.0) && !IsUnpoisonedOrSentinel(out.0)
    ensures out.1.Err? ==> Origin(out.0) == Some(if shadow.Guarded? then shadow.location else caller)
    ensures c.Returned? && c.result.Err? ==>
              out.0.CapturedErr? && out.0.source == c.result.error
    ensures c.Unwound? ==> IsPanic(out.0) && Message(out.0) == Downcast(Some(c.payload))
  {
    match c
    case Returned(_, Ok(r)) => (shadow, Ok(r))
    case Returned(_, Err(e)) =>
      var poisoned := States.PoisonWithError(shadow, caller, Some(e));
      (poisoned, Err(ToError(poisoned)))
    case Unwound(_, panic) =>
      var poisoned := PoisonWithPanic(shadow, caller, Some(panic));
      (poisoned, Err(ToError(poisoned)))
  }

  /**
   `poll` of the asynchronous driver. A pending unit keeps the shadow; a
   finished unit settles the step; a resolved driver returns its result without
   running anything. A step whose described units are used up stays pending.
   The container's own state is never touched. `poll` does not track its
   caller, so `caller` is a fixed place inside scope.rs; only the synchronous
   `into_result` records the user's call site.
   */
  function Poll<T, R>(s: PoisonScope<T>, d: Driver<T, R>, caller: Location): (out: Polled<T, R>)
    requires !d.Spent?
    ensures out.scope.target.state == s.target.state
    ensures out.poll.Ready? <==> out.driver.Spent?
    ensures d.Done? ==> out.scope == s && out.poll == Ready(d.result)
    ensures Running(d) && |Remaining(d)| == 0 ==> out.scope == s && out.poll.NotReady?
    ensures Running(d) && |Remaining(d)| > 0 ==>
              && out.scope.target.value == ValueOf(Remaining(d)[0])
              && (out.poll.NotReady? <==> Remaining(d)[0].Pending?)
    ensures Running(d) && |Remaining(d)| > 0 && Remaining(d)[0].Pending? ==>
              out.driver == Continue(Remaining(d)[1..]) && out.scope.shadow == s.shadow
    ensures Running(d) && |Remaining(d)| > 0 && Remaining(d)[0].Finished? ==>
              (out.scope.shadow, out.poll.output) == Settle(s.shadow, Remaining(d)[0].completion, caller)
  {
    if d.Done? then
      Polled(s, Spent, Ready(d.result))
    else
      var units := Remaining(d);
      if |units| == 0 then
        Polled(s, Continue([]), NotReady)
      else
        match units[0]
        case Pending(v) => Polled(PoisonScope(Poison(v, s.target.state), s.shadow), Continue(units[1..]), NotReady)
        case Finished(c) =>
          var (shadow, r) := Settle(s.shadow, c, caller);
          Polled(PoisonScope(Poison(c.value, s.target.state), shadow), Spent, Ready(r))
  }

  /** A synchronous step: its closure runs once and returns or unwinds. */
  predicate Synchronous<T, R>(d: Driver<T, R>)
  {
    d.Done? || (d.Initial? && |d.step| == 1 && d.step[0].Finished?)
  }

  /**
   `into_result` of the synchronous driver. It agrees with the asynchronous
   driver polled once.
   */
  function IntoResult<T, R>(s: PoisonScope<T>, d: Driver<T, R>, caller: Location)
    : (out: (PoisonScope<T>, Result<R, PoisonError>))
    requires Synchronous(d)
    ensures out.0.target.state == s.target.state
    ensures d.Done? ==> out == (s, d.result)
    ensures d.Initial? ==>
              out.0.target.value == d.step[0].completion.value
              && (out.0.shadow, out.1) == Settle(s.shadow, d.step[0].completion, caller)
    ensures Poll(s, d, caller) == Polled(out.0, Spent, Ready(out.1))
  {
    match d
    case Done(r) => (s, r)
    case Initial(step) =>
      match step[0].completion
      case Unwound(v, panic) =>
        var poisoned := PoisonWithPanic(s.shadow, caller, Some(panic));
        (PoisonScope(Poison(v, s.target.state), poisoned), Err(ToError(poisoned)))
      case Returned(v, Ok(r)) =>
        (PoisonScope(Poison(v, s.target.state), s.shadow), Ok(r))
      case Returned(v, Err(e)) =>
        var poisoned := States.PoisonWithError(s.shadow, caller, Some(e));
        (PoisonScope(Poison(v, s.target.state), poisoned), Err(ToError(poisoned)))
  }

  /**
   `.await` on a driver: polls until it resolves or the step's described units
   run out. `used` is how many units were executed.
   */
  method Await<T, R>(s: PoisonScope<T>, d: Driver<T, R>, caller: Location)
    returns (s': PoisonScope<T>, d': Driver<T, R>, res: Option<Result<R, PoisonError>>, used: nat)
    requires !d.Spent?
    ensures s'.target.state == s.target.state
    ensures res.Some? <==> d'.Spent?
    ensures d.Done? ==> used == 0 && s' == s && res == Some(d.result)
    ensures Running(d) ==> used <= |Remaining(d)|
    ensures Running(d) && res.None? ==>
              && used == |Remaining(d)|
              && s'.shadow == s.shadow
              && (forall i :: 0 <= i < used ==> Remaining(d)[i].Pending?)
              && s'.target.value == (if used == 0 then s.target.value else ValueOf(Remaining(d)[used - 1]))
    ensures Running(d) && res.Some? ==>
              && 0 < used && Remaining(d)[used - 1].Finished?
              && (forall i :: 0 <= i < used - 1 ==> Remaining(d)[i].Pending?)
              && s'.target.value == ValueOf(Remaining(d)[used - 1])
              && (s'.shadow, res.value) == Settle(s.shadow, Remaining(d)[used - 1].completion, caller)
  {
    if d.Done? {
      return s, Spent, Some(d.result), 0;
    }
    var units := Remaining(d);
    s', d', res, used := s, d, None, 0;
    while res.None? && used < |units|
      invariant used <= |units|
      invariant s'.target.state == s.target.state
      invariant res.Some? <==> d'.Spent?
      invariant res.None? ==> Running(d') && Remaining(d') == units[used..] && s'.shadow == s.shadow
      invariant res.None? ==> forall i :: 0 <= i < used ==> units[i].Pending?
      invariant res.None? ==> s'.target.value == (if used == 0 then s.target.value else ValueOf(units[used - 1]))
      invariant res.Some? ==>
                  && 0 < used && units[used - 1].Finished?
                  && (forall i :: 0 <= i < used - 1 ==> units[i].Pending?)
                  && s'.target.value == ValueOf(units[used - 1])
                  && (s'.shadow, res.value) == Settle(s.shadow, units[used - 1].completion, caller)
      decreases |units| - used, if res.None? then 1 else 0
    {
      var out := Poll(s', d', caller);
      s', d' := out.scope, out.driver;
      if out.poll.Ready? {
        res := Some(out.poll.output);
      }
      used := used + 1;
    }
  }

  /**
   A scope running synchronous steps one after another, as `?` on each
   `try_catch_unwind` would, but carrying on to show what later steps get.
   */
  function RunSync<T, R>(s: PoisonScope<T>, steps: seq<Completion<T, R>>, caller: Location)
    : (out: (PoisonScope<T>, seq<Result<R, PoisonError>>))
    ensures |out.1| == |steps|
    ensures out.0.target.state == s.target.state
    decreases |steps|
  {
    if |steps| == 0 then
      (s, [])
    else
      var (s1, r1) := IntoResult(s, TryCatchUnwind(s, [Finished(steps[0])]), caller);
      var (s2, rest) := RunSync(s1, steps[1..], caller);
      (s2, [r1] + rest)
  }

  /** The scope after its first synchronous step ran. */
  function AfterFirst<T, R>(s: PoisonScope<T>, c: Completion<T, R>, caller: Location): PoisonScope<T>
    requires IsUnpoisonedOrSentinel(s.shadow)
  {
    IntoResult(s, Initial([Finished(c)]), caller).0
  }

  /**
   Once a failure is captured, no later step runs: the scope, value included,
   is left as it was and every step reports the captured failure.
   */
  lemma {:induction false} FailedScopeShortCircuits<T, R>(s: PoisonScope<T>, steps: seq<Completion<T, R>>, caller: Location)
    requires !IsUnpoisonedOrSentinel(s.shadow)
    ensures RunSync(s, steps, caller).0 == s
    ensures forall i :: 0 <= i < |steps| ==> RunSync(s, steps, caller).1[i] == Err(PoisonError(s.shadow))
    decreases |steps|
  {
    if |steps| > 0 {
      FailedScopeShortCircuits(s, steps[1..], caller);
    }
  }

  /**
   A scope whose steps all succeed keeps its shadow, reports each step's value,
   holds what the last step left, and closing it gives a guard.
   */
  lemma {:induction false} SucceedingStepsKeepShadow<T, R>(s: PoisonScope<T>, steps: seq<Completion<T, R>>, caller: Location)
    requires IsUnpoisonedOrSentinel(s.shadow)
    requires forall i :: 0 <= i < |steps| ==> Succeeds(steps[i])
    ensures RunSync(s, steps, caller).0.shadow == s.shadow
    ensures forall i :: 0 <= i < |steps| ==> RunSync(s, steps, caller).1[i] == Ok(Output(steps[i]))
    ensures |steps| > 0 ==> RunSync(s, steps, caller).0.target.value == steps[|steps| - 1].value
    ensures Close(RunSync(s, steps, caller).0, caller).Ok?
    decreases |steps|
  {
    if |steps| > 0 {
      SucceedingStepsKeepShadow(AfterFirst(s, steps[0], caller), steps[1..], caller);
    }
  }

  /**
   The first failing step decides the scope: the steps before it report their
   results, its failure is what the shadow holds at the end, every later step
   reports that failure without running (the value stays as the failing step
   left it), and closing the scope hands back a recovery handle over it.
   */
  lemma {:induction false} FirstFailureDecides<T, R>(s: PoisonScope<T>, steps: seq<Completion<T, R>>, k: nat, caller: Location)
    requires IsUnpoisonedOrSentinel(s.shadow)
    requires k < |steps| && !Succeeds(steps[k])
    requires forall i :: 0 <= i < k ==> Succeeds(steps[i])
    ensures var failed := Settle(s.shadow, steps[k], caller).0;
            && RunSync(s, steps, caller).0.shadow == failed
            && RunSync(s, steps, caller).0.target.value == steps[k].value
            && (forall i :: 0 <= i < k ==> RunSync(s, steps, caller).1[i] == Ok(Output(steps[i])))
            && (forall i :: k <= i < |steps| ==> RunSync(s, steps, caller).1[i] == Err(PoisonError(failed)))
            && Close(RunSync(s, steps, caller).0, caller).Err?
            && Close(RunSync(s, steps, caller).0, caller).error.target == Poison(steps[k].value, failed)
    decreases k
  {
    var s1 := AfterFirst(s, steps[0], caller);
    var out := RunSync(s, steps, caller);
    var rest := RunSync(s1, steps[1..], caller);
    assert out.1 == [IntoResult(s, TryCatchUnwind(s, [Finished(steps[0])]), caller).1] + rest.1;
    if k == 0 {
      FailedScopeShortCircuits(s1, steps[1..], caller);
      forall i | 1 <= i < |steps|
        ensures out.1[i] == rest.1[i - 1]
      {
      }
    } else {
      FirstFailureDecides(s1, steps[1..], k - 1, caller);
      forall i | 1 <= i < |steps|
        ensures out.1[i] == rest.1[i - 1] && steps[1..][i - 1] == steps[i]
      {
      }
    }
  }
}
