/**
 The checkout handle `PoisonGuard` (src/poison/guard.rs).

 A guard owns its container for the length of the checkout (the generic
 `Target: DerefMut` accessor is modelled as direct ownership). Every operation
 consumes the guard and returns what it hands back, so "exactly one live
 handle" holds by construction. `thread::panicking()` is the `unwinding` flag
 passed to `Drop`.
 */
module Guards {
  import opened Results
  import opened States
  import opened Poisons

  datatype PoisonGuard<T> = PoisonGuard(target: Poison<T>)

  /** The lenient checkout: the sentinel marks the checkout until it is released. */
  function PoisonOnUnwind<T>(target: Poison<T>, caller: Location): (g: PoisonGuard<T>)
    ensures g.target.value == target.value
    ensures g.target.state.Guarded? && Origin(g.target.state) == Some(caller)
  {
    PoisonGuard(Poison(target.value, ToGuarded(target.state, caller)))
  }

  /** The strict checkout: the container is poisoned with an unknown error at once. */
  function PoisonNow<T>(target: Poison<T>, caller: Location): (g: PoisonGuard<T>)
    ensures g.target.value == target.value
    ensures g.target.state.UnknownErr?
    ensures Origin(g.target.state) == Some(if target.state.Guarded? then target.state.location else caller)
  {
    PoisonGuard(Poison(target.value, States.PoisonWithError(target.state, caller, None)))
  }

  /**
   Releasing a guard. An unwinding release always leaves an unknown panic (the
   payload is not available to a destructor); a normal release clears the
   sentinel and leaves any real poison exactly as it was.
   */
  function Drop<T>(g: PoisonGuard<T>, unwinding: bool, caller: Location): (p: Poison<T>)
    ensures p.value == g.target.value
    ensures unwinding ==> p.state.UnknownPanic?
    ensures unwinding ==>
              Origin(p.state) == Some(if g.target.state.Guarded? then g.target.state.location else caller)
    ensures !unwinding ==>
              (States.IsPoisoned(p.state) <==> States.IsPoisoned(g.target.state) && !g.target.state.Guarded?)
    ensures !unwinding && States.IsPoisoned(p.state) ==> p.state == g.target.state
  {
    if unwinding then
      Poison(g.target.value, PoisonWithPanic(g.target.state, caller, None))
    else
      Poison(g.target.value, UnpoisonIfGuarded(g.target.state))
  }

  /**
   `poison_with_error`: records `e` as the cause and returns a snapshot of that
   state. The guard is then released by the implicit drop at the end of the
   call, which gets its own location `release`. A normal release keeps the new
   poison; an unwinding one (`unwinding` is `thread::panicking()` at that point)
   replaces it with an unknown panic at `release`, so the returned error no
   longer describes the container.
   */
  function PoisonWithError<T>(g: PoisonGuard<T>, e: DynError, caller: Location, unwinding: bool, release: Location)
    : (out: (Poison<T>, PoisonError))
    ensures out.0.value == g.target.value
    ensures out.1.inner.CapturedErr? && out.1.inner.source == e && Source(out.1) == Some(e)
    ensures Origin(out.1.inner) == Some(if g.target.state.Guarded? then g.target.state.location else caller)
    ensures !unwinding ==> out.0.state == out.1.inner
    ensures unwinding ==> out.0.state == UnknownPanic(release)
  {
    var poisoned := States.PoisonWithError(g.target.state, caller, Some(e));
    var err := ToError(poisoned);
    (Drop(PoisonGuard(Poison(g.target.value, poisoned)), unwinding, release), err)
  }

  /**
   `unpoison_now`: the explicit recovery of a strict guard. The implicit
   release that follows changes nothing when normal; an unwinding one poisons
   again with an unknown panic at the release's own location.
   */
  function UnpoisonNow<T>(g: PoisonGuard<T>, unwinding: bool, release: Location): (p: Poison<T>)
    ensures p.value == g.target.value
    ensures !unwinding ==> !States.IsPoisoned(p.state)
    ensures unwinding ==> p.state == UnknownPanic(release)
  {
    Drop(PoisonGuard(Poison(g.target.value, Unpoison(g.target.state))), unwinding, release)
  }

  /** `Deref`: read access to the value. */
  function Deref<T>(g: PoisonGuard<T>): (v: T)
    ensures v == g.target.value
  {
    g.target.value
  }

  /** `DerefMut`: a write through the guard; the state is never touched. */
  function DerefMut<T>(g: PoisonGuard<T>, v: T): (g': PoisonGuard<T>)
    ensures Deref(g') == v
    ensures g'.target.state == g.target.state
  {
    PoisonGuard(Poison(v, g.target.state))
  }

  /** `take`: moves the container out of the guard without running its release, so
      a lenient checkout's sentinel stays behind and the container reads as poisoned. */
  function Take<T>(g: PoisonGuard<T>): (p: Poison<T>)
    ensures p == g.target
    ensures g.target.state.Guarded? ==> Poisons.IsPoisoned(p)
  {
    g.target
  }
}
