/**
 The checkout entry points of a `Poison<T>` (src/poison/mod.rs): reading,
 the two checkout disciplines, promoting a guard into a scope, and poisoning a
 guard explicitly with an error.

 `OnUnwind` is the lenient checkout (`Poison::poison`, `Poison::on_unwind`)
 and `UnlessRecovered` the strict one (`Poison::unless_recovered`); both refuse
 a poisoned container, handing back a recovery handle over it untouched.
 */
module Checkouts {
  import opened Results
  import opened States
  import opened Poisons
  import Guards
  import Recovers
  import Scopes

  /**
   `get`: the value, or a read-only recovery handle when poisoned. A handle
   over a shared reference can only be turned into an error.
   */
  function Get<T>(p: Poison<T>): (a: Result<T, Recovers.PoisonRecover<T>>)
    ensures a.Ok? <==> !Poisons.IsPoisoned(p)
    ensures a.Ok? ==> a.value == p.value
    ensures a.Err? ==> a.error.target == p
  {
    if Poisons.IsPoisoned(p) then Err(Recovers.PoisonRecover(p)) else Ok(p.value)
  }

  /** The lenient checkout: a guard and the sentinel, or a handle over the poison. */
  function OnUnwind<T>(p: Poison<T>, caller: Location)
    : (res: Result<Guards.PoisonGuard<T>, Recovers.PoisonRecover<T>>)
    ensures res.Err? <==> Poisons.IsPoisoned(p)
    ensures res.Err? ==> res.error.target == p
    ensures res.Ok? ==> res.value.target == Poison(p.value, Guarded(caller))
  {
    if Poisons.IsPoisoned(p) then Err(Recovers.PoisonRecover(p)) else Ok(Guards.PoisonOnUnwind(p, caller))
  }

  /** The strict checkout: a guard over a container already poisoned with an unknown error. */
  function UnlessRecovered<T>(p: Poison<T>, caller: Location)
    : (res: Result<Guards.PoisonGuard<T>, Recovers.PoisonRecover<T>>)
    ensures res.Err? <==> Poisons.IsPoisoned(p)
    ensures res.Err? ==> res.error.target == p
    ensures res.Ok? ==> res.value.target == Poison(p.value, UnknownErr(caller))
  {
    if Poisons.IsPoisoned(p) then Err(Recovers.PoisonRecover(p)) else Ok(Guards.PoisonNow(p, caller))
  }

  /**
   `scope`: the container is moved out of the guard without releasing it, so
   the checkout's state carries into the scope and its shadow.
   */
  function Scope<T>(g: Guards.PoisonGuard<T>): (s: Scopes.PoisonScope<T>)
    ensures s.target == g.target
    ensures s.shadow == g.target.state
  {
    Scopes.New(Guards.Take(g))
  }

  /**
   `err`: the container is moved out of the guard without releasing it and
   poisoned with `e`; the recovery handle over it is returned.
   */
  function PoisonErr<T>(g: Guards.PoisonGuard<T>, e: DynError, caller: Location): (r: Recovers.PoisonRecover<T>)
    ensures r.target.value == g.target.value
    ensures r.target.state.CapturedErr? && r.target.state.source == e
    ensures Origin(r.target.state) == Some(if g.target.state.Guarded? then g.target.state.location else caller)
  {
    var target := Guards.Take(g);
    Recovers.PoisonRecover(Poison(target.value, States.PoisonWithError(target.state, caller, Some(e))))
  }

  /**
   A container built by a catching initializer is readable exactly when the
   initializer returned a value, and then it is the same as `new` of that value;
   an unwind or an error leaves it refusing `get`.
   */
  lemma CatchingInitReadsBack<T>(f: Caught<T>, g: Caught<Result<T, DynError>>, default: T, caller: Location)
    ensures f.Returned? ==> NewCatchUnwind(f, default, caller) == New(f.result)
    ensures Get(NewCatchUnwind(f, default, caller)).Ok? <==> f.Returned?
    ensures f.Returned? ==> Get(NewCatchUnwind(f, default, caller)) == Ok(f.result)
    ensures g.Returned? && g.result.Ok? ==> TryNewCatchUnwind(g, default, caller) == New(g.result.value)
    ensures Get(TryNewCatchUnwind(g, default, caller)).Ok? <==> g.Returned? && g.result.Ok?
    ensures g.Returned? && g.result.Ok? ==> Get(TryNewCatchUnwind(g, default, caller)) == Ok(g.result.value)
  {
  }
}
