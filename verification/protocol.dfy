/**
 The whole checkout protocol as a state machine over one container.

 A `World` is the container together with whichever handle currently owns it
 (none, a guard, a recovery handle or a scope); an `Event` is one call a
 program can make on that handle. Events that the owning handle does not
 offer leave the world unchanged (Rust's types rule them out). `Forget` is
 `mem::forget` of the live handle: its release never runs. A recovery handle
 has no release, so forgetting it is also how it is dropped.

 The lemmas state what the crate's tests and documentation promise about
 sequences of calls.
 */
module Protocol {
  import opened Results
  import opened States
  import opened Poisons
  import Guards
  import Recovers
  import Scopes
  import Checkouts

  datatype World<T> =
    | Free(p: Poison<T>)
    | Holding(guard: Guards.PoisonGuard<T>)
    | Recovering(recover: Recovers.PoisonRecover<T>)
    | Scoped(scope: Scopes.PoisonScope<T>)

  datatype Event<!T> =
    | CheckoutOnUnwind(at: Location)
    | CheckoutUnlessRecovered(at: Location)
    | Write(v: T)
    | Release(unwinding: bool, at: Location)
    | UnpoisonNow(unwinding: bool, release: Location)
    | ExplicitError(e: DynError, at: Location, unwinding: bool, release: Location)
    | ErrInto(e: DynError, at: Location)
    | Recover(at: Location)
    | RecoverWith(f: T -> Recovers.Rewrite<T>, at: Location)
    | TryRecoverWith(repair: T -> Recovers.Repair<T>, at: Location)
    | EnterScope
    | ScopeStep(c: Scopes.Completion<T, ()>, at: Location)
    | EscapedWrite(v: T)
    | CloseScope(at: Location)
    | DropScope(unwinding: bool, at: Location)
    | Forget

  /** The container as any other observer would find it. */
  function Container<T>(w: World<T>): Poison<T>
  {
    match w
    case Free(p) => p
    case Holding(g) => g.target
    case Recovering(r) => r.target
    case Scoped(s) => s.target
  }

  function Acquire<T>(res: Result<Guards.PoisonGuard<T>, Recovers.PoisonRecover<T>>): World<T>
  {
    match res
    case Ok(g) => Holding(g)
    case Err(r) => Recovering(r)
  }

  /** After a recovery attempt; an unwind out of the repair leaves no live handle. */
  function Resume<T>(res: Recovers.Recovery<T>): World<T>
  {
    match res
    case Accepted(g) => Holding(g)
    case Retry(r) => Recovering(r)
    case Escaped(p) => Free(p)
  }

  function Step<T>(w: World<T>, e: Event<T>): World<T>
  {
    match w
    case Free(p) =>
      (match e
       case CheckoutOnUnwind(at) => Acquire(Checkouts.OnUnwind(p, at))
       case CheckoutUnlessRecovered(at) => Acquire(Checkouts.UnlessRecovered(p, at))
       case _ => w)
    case Holding(g) =>
      (match e
       case Write(v) => Holding(Guards.DerefMut(g, v))
       case Release(unwinding, at) => Free(Guards.Drop(g, unwinding, at))
       case UnpoisonNow(unwinding, release) => Free(Guards.UnpoisonNow(g, unwinding, release))
       case ExplicitError(err, at, unwinding, release) => Free(Guards.PoisonWithError(g, err, at, unwinding, release).0)
       case ErrInto(err, at) => Recovering(Checkouts.PoisonErr(g, err, at))
       case EnterScope => Scoped(Checkouts.Scope(g))
       case Forget => Free(Guards.Take(g))
       case _ => w)
    case Recovering(r) =>
      (match e
       case Recover(at) => Holding(Recovers.Recover(r, at))
       case RecoverWith(f, at) => Resume(Recovers.RecoverWith(r, f, at))
       case TryRecoverWith(repair, at) => Resume(Recovers.TryRecoverWith(r, repair, at))
       case Forget => Free(r.target)
       case _ => w)
    case Scoped(s) =>
      (match e
       case ScopeStep(c, at) => Scoped(Scopes.IntoResult(s, Scopes.TryCatchUnwind(s, [Scopes.Finished(c)]), at).0)
       case EscapedWrite(v) => Scoped(Scopes.PoisonScope(Poison(v, s.target.state), s.shadow))
       case CloseScope(at) => Acquire(Scopes.Close(s, at))
       case DropScope(unwinding, at) => Free(Scopes.Drop(s, unwinding, at))
       case Forget => Free(s.target)
       case _ => w)
  }

  function Run<T>(w: World<T>, trace: seq<Event<T>>): World<T>
    decreases |trace|
  {
    if |trace| == 0 then w else Run(Step(w, trace[0]), trace[1..])
  }

  /** While any handle owns the container, everyone else finds it poisoned. */
  predicate Inv<T>(w: World<T>)
  {
    !w.Free? ==> Poisons.IsPoisoned(Container(w))
  }

  /** The events that may write the value. */
  predicate Mutates<T>(e: Event<T>)
  {
    e.Write? || e.RecoverWith? || e.TryRecoverWith? || e.ScopeStep? || e.EscapedWrite?
  }

  lemma StepKeepsInv<T>(w: World<T>, e: Event<T>)
    requires Inv(w)
    ensures Inv(Step(w, e))
  {
  }

  /**
   Every reachable world keeps the invariant: a guard, a recovery handle or a
   scope is only ever live over a container that reads as poisoned.
   */
  lemma {:induction false} RunKeepsInv<T>(w: World<T>, trace: seq<Event<T>>)
    requires Inv(w)
    ensures Inv(Run(w, trace))
    decreases |trace|
  {
    if |trace| > 0 {
      StepKeepsInv(w, trace[0]);
      RunKeepsInv(Step(w, trace[0]), trace[1..]);
    }
  }

  /**
   A handle abandoned without its release, after any history, leaves the
   container poisoned: reads and both checkouts are refused.
   */
  lemma AbandonedCheckoutPoisons<T>(p: Poison<T>, trace: seq<Event<T>>, at: Location)
    requires !Run(Free(p), trace).Free?
    ensures Step(Run(Free(p), trace), Forget).Free?
    ensures Poisons.IsPoisoned(Step(Run(Free(p), trace), Forget).p)
    ensures Checkouts.Get(Step(Run(Free(p), trace), Forget).p).Err?
    ensures Checkouts.OnUnwind(Step(Run(Free(p), trace), Forget).p, at).Err?
    ensures Checkouts.UnlessRecovered(Step(Run(Free(p), trace), Forget).p, at).Err?
  {
    RunKeepsInv(Free(p), trace);
  }

  /** The core never rolls a value back: without writes the value stays what it was. */
  lemma {:induction false} NoWriteKeepsValue<T>(w: World<T>, trace: seq<Event<T>>)
    requires forall i :: 0 <= i < |trace| ==> !Mutates(trace[i])
    ensures Container(Run(w, trace)).value == Container(w).value
    decreases |trace|
  {
    if |trace| > 0 {
      NoWriteKeepsValue(Step(w, trace[0]), trace[1..]);
    }
  }

  /** A fresh container is unpoisoned and reads back its value. */
  lemma NewReadsBack<T>(v: T)
    ensures !Poisons.IsPoisoned(New(v))
    ensures Checkouts.Get(New(v)) == Ok(v)
  {
  }

  /** Lenient checkout, a write, a normal release: unpoisoned, with the write kept. */
  lemma LenientReleaseKeepsWrite<T>(p: Poison<T>, v: T, at: Location, drop: Location)
    requires !Poisons.IsPoisoned(p)
    ensures Step(Step(Step(Free(p), CheckoutOnUnwind(at)), Write(v)), Release(false, drop))
            == Free(Poison(v, Unpoisoned))
  {
  }

  /** Strict checkout and a normal release without recovery: still poisoned. */
  lemma StrictReleaseStaysPoisoned<T>(p: Poison<T>, v: T, at: Location, drop: Location)
    requires !Poisons.IsPoisoned(p)
    ensures Step(Step(Step(Free(p), CheckoutUnlessRecovered(at)), Write(v)), Release(false, drop))
            == Free(Poison(v, UnknownErr(at)))
  {
  }

  /**
   An unwinding release poisons under either discipline with an unknown panic.
   The lenient sentinel keeps the checkout location; a strict guard no longer
   holds the sentinel, so the location the release receives is recorded, not
   the checkout origin.
   */
  lemma UnwindingReleasePoisons<T>(p: Poison<T>, strict: bool, at: Location, drop: Location)
    requires !Poisons.IsPoisoned(p)
    ensures var checkout := if strict then CheckoutUnlessRecovered(at) else CheckoutOnUnwind(at);
            Step(Step(Free(p), checkout), Release(true, drop))
            == Free(Poison(p.value, UnknownPanic(if strict then drop else at)))
  {
  }

  /** An explicit error poisons with that error, and the guard's own release keeps it. */
  lemma ExplicitErrorSurvivesRelease<T>(p: Poison<T>, strict: bool, e: DynError, at: Location, here: Location, drop: Location)
    requires !Poisons.IsPoisoned(p)
    ensures var checkout := if strict then CheckoutUnlessRecovered(at) else CheckoutOnUnwind(at);
            Step(Step(Free(p), checkout), ExplicitError(e, here, false, drop))
            == Free(Poison(p.value, CapturedErr(if strict then here else at, e)))
  {
  }

  /**
   An explicit error raised while the thread is already unwinding does not
   survive the guard's release: the container ends with an unknown panic at the
   location the release receives, neither the call site of the error nor the
   checkout origin, whatever error was returned.
   */
  lemma ExplicitErrorLostWhileUnwinding<T>(p: Poison<T>, strict: bool, e: DynError, at: Location, here: Location, drop: Location)
    requires !Poisons.IsPoisoned(p)
    ensures var checkout := if strict then CheckoutUnlessRecovered(at) else CheckoutOnUnwind(at);
            Step(Step(Free(p), checkout), ExplicitError(e, here, true, drop))
            == Free(Poison(p.value, UnknownPanic(drop)))
  {
  }

  /** A strict guard recovered explicitly leaves the written value readable. */
  lemma UnpoisonNowReadsWrite<T>(p: Poison<T>, v: T, at: Location, here: Location)
    requires !Poisons.IsPoisoned(p)
    ensures Container(Step(Step(Step(Free(p), CheckoutUnlessRecovered(at)), Write(v)), UnpoisonNow(false, here))) == Poison(v, Unpoisoned)
    ensures Checkouts.Get(Container(Step(Step(Step(Free(p), CheckoutUnlessRecovered(at)), Write(v)), UnpoisonNow(false, here)))) == Ok(v)
  {
  }

  /**
   Poison left by either discipline is recovered through a handle from either
   checkout; the value is untouched and the new guard's release unpoisons.
   */
  lemma RecoverAcrossDisciplines<T>(p: Poison<T>, first: bool, second: bool,
                                    at: Location, drop: Location, again: Location, here: Location, done: Location)
    requires !Poisons.IsPoisoned(p)
    ensures var w := Step(Step(Free(p), if first then CheckoutUnlessRecovered(at) else CheckoutOnUnwind(at)), Release(true, drop));
            var w' := Step(w, if second then CheckoutUnlessRecovered(again) else CheckoutOnUnwind(again));
            && w'.Recovering?
            && Step(w', Recover(here)) == Holding(Guards.PoisonGuard(Poison(p.value, Guarded(here))))
            && Step(Step(w', Recover(here)), Release(false, done)) == Free(Poison(p.value, Unpoisoned))
  {
  }

  /**
   A failed repair keeps the container poisoned with the repair's error and
   hands the handle back; a later successful repair then recovers it.
   */
  lemma RetryAfterFailedRepair<T>(r: Recovers.PoisonRecover<T>, bad: T -> Recovers.Repair<T>, good: T -> Recovers.Repair<T>,
                                  here: Location, drop: Location)
    requires bad(r.target.value).Failed?
    requires good(bad(r.target.value).value).Repaired?
    ensures var w := Step(Recovering(r), TryRecoverWith(bad, here));
            && w.Recovering?
            && Container(w).state.CapturedErr? && Container(w).state.source == bad(r.target.value).error
            && Step(Step(w, TryRecoverWith(good, here)), Release(false, drop))
               == Free(Poison(good(bad(r.target.value).value).value, Unpoisoned))
  {
  }

  /**
   A repair that unwinds leaves no live handle: the container keeps its old
   poison with whatever the repair wrote, so the next checkout is refused again.
   */
  lemma UnwindingRepairKeepsPoison<T>(r: Recovers.PoisonRecover<T>, f: T -> Recovers.Rewrite<T>,
                                      repair: T -> Recovers.Repair<T>, here: Location, again: Location)
    requires Poisons.IsPoisoned(r.target)
    requires f(r.target.value).unwound
    requires repair(r.target.value).Aborted?
    ensures Step(Recovering(r), RecoverWith(f, here)) == Free(Poison(f(r.target.value).value, r.target.state))
    ensures Step(Recovering(r), TryRecoverWith(repair, here)) == Free(Poison(repair(r.target.value).value, r.target.state))
    ensures Step(Step(Recovering(r), RecoverWith(f, here)), CheckoutOnUnwind(again)).Recovering?
    ensures Step(Step(Recovering(r), TryRecoverWith(repair, here)), CheckoutUnlessRecovered(again)).Recovering?
  {
  }

  /**
   The concrete scenario: 42 is checked out, set to 43, and the holder unwinds.
   The next checkout is refused, and recovering hands back 43: nothing was
   rolled back.
   */
  lemma PartialWriteSurvivesUnwind(at: Location, drop: Location, again: Location, here: Location)
    ensures var w := Step(Step(Step(Free(New(42)), CheckoutOnUnwind(at)), Write(43)), Release(true, drop));
            && Container(w) == Poison(43, UnknownPanic(at))
            && Step(w, CheckoutOnUnwind(again)).Recovering?
            && Guards.Deref(Step(Step(w, CheckoutOnUnwind(again)), Recover(here)).guard) == 43
  {
  }

  /**
   A scope step that fails leaves the container poisoned when the scope ends,
   whatever is written through a borrow that escaped the step.
   */
  lemma FailedStepPoisonsDespiteEscape<T>(p: Poison<T>, c: Scopes.Completion<T, ()>, v: T,
                                          at: Location, here: Location, drop: Location)
    requires !Poisons.IsPoisoned(p)
    requires !Scopes.Succeeds(c)
    ensures var w := Step(Step(Step(Step(Free(p), CheckoutOnUnwind(at)), EnterScope), ScopeStep(c, here)), EscapedWrite(v));
            && Step(w, DropScope(false, drop)).Free?
            && Step(w, DropScope(false, drop)).p.value == v
            && Poisons.IsPoisoned(Step(w, DropScope(false, drop)).p)
            && Origin(Step(w, DropScope(false, drop)).p.state) == Some(at)
            && Step(w, CloseScope(drop)).Recovering?
  {
  }

  /** A scope whose step succeeds closes to a guard whose release unpoisons. */
  lemma SucceededStepCloses<T>(p: Poison<T>, c: Scopes.Completion<T, ()>, at: Location, here: Location, done: Location)
    requires !Poisons.IsPoisoned(p)
    requires Scopes.Succeeds(c)
    ensures var w := Step(Step(Step(Step(Free(p), CheckoutOnUnwind(at)), EnterScope), ScopeStep(c, here)), CloseScope(here));
            && w.Holding?
            && Step(w, Release(false, done)) == Free(Poison(c.value, Unpoisoned))
  {
  }
}
