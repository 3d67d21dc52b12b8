/**
 The `Poison<T>` container (src/poison/mod.rs): a value and its poison state,
 and the ways of building one.

 An initializer that may unwind or fail is described by what `catch_unwind`
 hands back (`Caught`); `T: Default` is a `default` value supplied by the caller.
 */
module Poisons {
  import opened Results
  import opened States

  datatype Poison<T> = Poison(value: T, state: PoisonState)

  /** The outcome of running an initializer under `catch_unwind`. */
  datatype Caught<X> = Returned(result: X) | Unwound(payload: Payload)

  /** `new`: a container holding `v` that nothing has poisoned. */
  function New<T>(v: T): (p: Poison<T>)
    ensures p.value == v
    ensures !States.IsPoisoned(p.state)
  {
    Poison(v, FromUnpoisoned())
  }

  /** `new_catch_unwind`: an unwind during initialization is stashed as panic poison. */
  function NewCatchUnwind<T>(f: Caught<T>, default: T, caller: Location): (p: Poison<T>)
    ensures States.IsPoisoned(p.state) <==> f.Unwound?
    ensures f.Returned? ==> p.value == f.result
    ensures f.Unwound? ==> p.value == default && IsPanic(p.state) && Origin(p.state) == Some(caller)
    ensures f.Unwound? ==> Message(p.state) == Downcast(Some(f.payload))
  {
    match f
    case Returned(v) => Poison(v, FromUnpoisoned())
    case Unwound(panic) => Poison(default, FromPanic(caller, Some(panic)))
  }

  /** `try_new_catch_unwind`: an error or an unwind during initialization poisons. */
  function TryNewCatchUnwind<T>(f: Caught<Result<T, DynError>>, default: T, caller: Location): (p: Poison<T>)
    ensures !States.IsPoisoned(p.state) <==> f.Returned? && f.result.Ok?
    ensures f.Returned? && f.result.Ok? ==> p.value == f.result.value
    ensures f.Returned? && f.result.Err? ==>
              p.value == default && p.state == CapturedErr(caller, f.result.error)
    ensures f.Unwound? ==> p.value == default && IsPanic(p.state) && Origin(p.state) == Some(caller)
    ensures f.Unwound? ==> Message(p.state) == Downcast(Some(f.payload))
  {
    match f
    case Returned(Ok(v)) => Poison(v, FromUnpoisoned())
    case Returned(Err(e)) => Poison(default, FromErr(caller, Some(e)))
    case Unwound(panic) => Poison(default, FromPanic(caller, Some(panic)))
  }

  /** `is_poisoned`: true for every state but `Unpoisoned`, the sentinel included. */
  function IsPoisoned<T>(p: Poison<T>): (b: bool)
    ensures b <==> Origin(p.state).Some?
    ensures p.state.Guarded? ==> b
  {
    States.IsPoisoned(p.state)
  }
}
