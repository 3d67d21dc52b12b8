/**
 The recovery handle `PoisonRecover` (src/poison/recover.rs), handed out by a
 checkout that found its container poisoned. Recovery always produces a fresh
 lenient guard (`PoisonGuard::new` is the lenient checkout), so the container
 becomes usable once that guard is released normally.

 A repair closure (`FnOnce(&mut T)` or `FnOnce(&mut T) -> Result<(), E>`) is
 modelled by what it leaves behind: the value after it ran, and whether it
 failed, and with what, or unwound. An unwind out of the closure propagates
 through the recovery call and drops the handle, which has no release of its
 own: the container is left with its old poison and the partly repaired value.
 */
module Recovers {
  import opened Results
  import opened States
  import opened Poisons
  import Guards

  datatype PoisonRecover<T> = PoisonRecover(target: Poison<T>)

  /** What an infallible repair leaves: the (possibly partly) repaired value, and whether it unwound. */
  datatype Rewrite<T> = Rewrite(value: T, unwound: bool)

  /** What a fallible repair leaves: the (possibly partly) repaired value, and its error or its unwind. */
  datatype Repair<T> = Repaired(value: T) | Failed(value: T, error: DynError) | Aborted(value: T)

  /**
   How a recovery ends: a guard over the accepted value, the handle back for
   another attempt, or an unwind that left the container behind.
   */
  datatype Recovery<T> =
    | Accepted(guard: Guards.PoisonGuard<T>)
    | Retry(recover: PoisonRecover<T>)
    | Escaped(target: Poison<T>)

  /** `recover`: accepts the value as it is. */
  function Recover<T>(r: PoisonRecover<T>, caller: Location): (g: Guards.PoisonGuard<T>)
    ensures g.target.value == r.target.value
    ensures g.target.state == Guarded(caller)
    ensures !Poisons.IsPoisoned(Guards.Drop(g, false, caller))
  {
    Guards.PoisonOnUnwind(r.target, caller)
  }

  /** `recover_with`: runs the repair once, then accepts its result unless it unwound. */
  function RecoverWith<T>(r: PoisonRecover<T>, f: T -> Rewrite<T>, caller: Location): (res: Recovery<T>)
    ensures !res.Retry?
    ensures res.Escaped? <==> f(r.target.value).unwound
    ensures res.Accepted? ==> res.guard.target == Poison(f(r.target.value).value, Guarded(caller))
    ensures res.Accepted? ==> !Poisons.IsPoisoned(Guards.Drop(res.guard, false, caller))
    ensures res.Escaped? ==> res.target == Poison(f(r.target.value).value, r.target.state)
  {
    var w := f(r.target.value);
    if w.unwound then
      Escaped(Poison(w.value, r.target.state))
    else
      Accepted(Guards.PoisonOnUnwind(Poison(w.value, r.target.state), caller))
  }

  /**
   `try_recover_with`: a successful repair yields a guard over the repaired
   value; a failed one replaces the recorded cause with the repair's error and
   hands the recovery handle back for another attempt; an unwinding one leaves
   the old poison in place.
   */
  function TryRecoverWith<T>(r: PoisonRecover<T>, f: T -> Repair<T>, caller: Location): (res: Recovery<T>)
    ensures res.Accepted? <==> f(r.target.value).Repaired?
    ensures res.Retry? <==> f(r.target.value).Failed?
    ensures res.Accepted? ==> res.guard.target == Poison(f(r.target.value).value, Guarded(caller))
    ensures res.Retry? ==> res.recover.target.value == f(r.target.value).value
    ensures res.Retry? ==> res.recover.target.state.CapturedErr?
                           && res.recover.target.state.source == f(r.target.value).error
    ensures res.Retry? ==>
              Origin(res.recover.target.state) == Some(if r.target.state.Guarded? then r.target.state.location else caller)
    ensures res.Escaped? ==> res.target == Poison(f(r.target.value).value, r.target.state)
  {
    match f(r.target.value)
    case Repaired(v) =>
      Accepted(Guards.PoisonOnUnwind(Poison(v, UnpoisonIfGuarded(r.target.state)), caller))
    case Failed(v, e) =>
      Retry(PoisonRecover(Poison(v, States.PoisonWithError(r.target.state, caller, Some(e)))))
    case Aborted(v) =>
      Escaped(Poison(v, r.target.state))
  }

  /**
   `into_error`, and every `From<PoisonRecover>` conversion (to `PoisonError`
   and to the boxed `dyn Error` forms): an error describing the current state.
   The handle is consumed; the container's state is left as it was.
   */
  function IntoError<T>(r: PoisonRecover<T>): (e: PoisonError)
    ensures e.inner == r.target.state
    ensures Source(e).Some? <==> r.target.state.CapturedErr?
  {
    ToError(r.target.state)
  }
}
