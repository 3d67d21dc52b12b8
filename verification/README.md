# poison-guard: the poisoning state machine, in Dafny

This project models the core of the `poison-guard` crate (`src/poison/`): a
`Poison<T>` container whose six-way poison state records whether its value can
be trusted. A value can be checked out under two disciplines. A lenient
checkout leaves the `Guarded` sentinel and clears it on a normal release. A
strict checkout poisons the container at once with an unknown error until it is
recovered explicitly. A checkout that finds the container poisoned gets a
recovery handle instead of a guard. A guard can become a scope, which runs
fallible synchronous or asynchronous steps against the value. Each step is
caught at an unwind boundary, and its failures are recorded in a private
shadow state. When the scope ends, the shadow goes back into the container.

The model is functional. Every handle (guard, recovery handle, scope) is a
datatype that owns the container. Each operation consumes a handle and returns
what comes next, so only one handle is live at a time. Unwinding is data: the
`unwinding` flag stands for `thread::panicking()`, and a step is described by
the outcome of each unwind-protected unit of execution.

Files, one module each:

- `results.dfy`: `Option` and `Result`.
- `states.dfy` (`States`): the poison state and its transitions (`error.rs`).
- `poisons.dfy` (`Poisons`): the container and its constructors (`mod.rs`).
- `guards.dfy` (`Guards`): the checkout guard and its release (`guard.rs`).
- `recovers.dfy` (`Recovers`): the recovery handle (`recover.rs`).
- `scopes.dfy` (`Scopes`): the scope and the `TryCatchUnwind` driver (`scope.rs`).
- `checkouts.dfy` (`Checkouts`): `get`, both checkouts, `scope` and `err` (`mod.rs`).
- `protocol.dfy` (`Protocol`): the whole protocol as a state machine over event
  traces, its invariant, and the scenarios from the crate's tests.

Modelling choices:

- `Location::caller()` is a `caller` / `at` parameter. Where the source does
  not track its caller (a scope's `poison`, its drop, and the asynchronous
  `poll`), that parameter is a fixed place inside src/poison/scope.rs, not the
  user's call site. Locations, boxed errors
  and unwind payloads are opaque values. A payload is `StaticStr`,
  `OwnedString` or `Other`.
- `T: Default` is a `default` argument.
- Closures are given by their effect: an initializer by what `catch_unwind`
  returned, a repair by the value it left and whether it failed (and with what) or
  unwound, and a scope step by
  one `Unit` per unwind-protected execution.
- `PoisonGuard::new` is the lenient checkout `poison_on_unwind`.
  `then_to_unpoisoned`, `then_to_err` and `then_to_panic` are
  `unpoison_if_guarded`, `poison_with_error` and `poison_with_panic`.
  `is_unpoisoned_or_sentinel` means "`Unpoisoned` or `Guarded`". The `take`
  functions are moves that skip the release.
- The tests' `Poison::on_unwind` and `Poison::unless_recovered` are
  `Checkouts.OnUnwind` and `Checkouts.UnlessRecovered`. `Poison::recover(guard)`
  is `Guards.UnpoisonNow`.

How the code behaves in four places where a reader might expect otherwise:

- A poisoning keeps the checkout origin only while the state is still the
  `Guarded` sentinel. Otherwise it records the caller
  (src/poison/error.rs:117-135). So a strict guard that unwinds records the
  location its release receives, not the checkout origin, and a failed
  `try_recover_with` records its own call site, unless the handle still holds
  an abandoned checkout's sentinel, whose origin it keeps.
- A guard consumed by `poison_with_error` or `unpoison_now` is released by the
  implicit drop at the end of that call (src/poison/guard.rs:53-65). That
  release gets its own location, separate from the call site recorded in the
  returned error, so the model carries both.
- A failed `try_recover_with` always leaves `CapturedErr` with the repair's
  error, even when the container was poisoned by a panic
  (src/poison/recover.rs:53-63).
- `recover` does not clear the state directly. It leaves a fresh `Guarded`
  sentinel at the recovery site, which the new guard clears when it is
  released normally.

## Model

| member | source | states |
|---|---|---|
| States.FromUnpoisoned | src/poison/error.rs:67-69 | the fresh state has no origin, so it is not poisoned |
| States.FromErr | src/poison/error.rs:71-83 | an error state at the given location; `CapturedErr` exactly when an error object is supplied, and `source()` gives that object back |
| States.FromPanic | src/poison/error.rs:85-109 | a panic state at the given location; `CapturedPanic` exactly for a `&'static str` or `String` payload, carrying its text; otherwise `UnknownPanic` |
| States.Downcast | src/poison/error.rs:89-99 | a payload yields a message exactly when it is string-like, and the message is the payload's text |
| States.ToGuarded | src/poison/error.rs:111-114 | whatever the prior state, the result is the sentinel at the caller's location, which counts as poisoned |
| States.PoisonWithError | src/poison/error.rs:116-125 | the result is error poison whose cause is the supplied error; its location is the sentinel's origin if the prior state was `Guarded`, else the caller's |
| States.PoisonWithPanic | src/poison/error.rs:127-136 | the result is panic poison carrying the payload's message if string-like; it keeps the sentinel's origin, else records the caller |
| States.UnpoisonIfGuarded | src/poison/error.rs:138-143 | the result is poisoned exactly when the input was poisoned and not the sentinel; real poison is kept unchanged |
| States.UnpoisonIfGuardedIdempotent | src/poison/error.rs:139-143 | clearing the sentinel twice is the same as clearing it once |
| States.Unpoison | src/poison/error.rs:146-148 | the result is never poisoned |
| States.IsUnpoisoned | src/poison/error.rs:150-152 | true exactly when the state records no checkout location |
| States.IsPoisoned | src/poison/error.rs:154-156 | true exactly when the state records a checkout location, so the `Guarded` sentinel counts as poisoned |
| States.IsUnpoisonedOrSentinel | src/poison/scope.rs:108 | true exactly when no panic or error has been captured |
| States.ToError | src/poison/error.rs:158-160 | the error is a snapshot of the state, and its `source()` is the captured error exactly for `CapturedErr` |
| States.Source | src/poison/error.rs:238-246 | `source()` is present exactly for `CapturedErr`, and is its stored error |
| States.StateRebuilt | src/poison/error.rs:38-109 | a state's location, cause and message rebuild it exactly through the constructors, so these observations lose nothing |
| Poisons.New | src/poison/mod.rs:54-59 | a new container holds the given value and is unpoisoned |
| Poisons.NewCatchUnwind | src/poison/mod.rs:98-113 | poisoned exactly when the initializer unwound; then it holds the default value and panic poison at the call site; otherwise it holds the initializer's value |
| Poisons.TryNewCatchUnwind | src/poison/mod.rs:148-168 | unpoisoned exactly when the initializer returned `Ok`, holding its value; `Err(e)` gives `CapturedErr(e)` at the call site with the default value; an unwind gives panic poison with the default value |
| Poisons.IsPoisoned | src/poison/mod.rs:173-175 | true exactly when the state records a checkout location, the sentinel included |
| Guards.PoisonOnUnwind | src/poison/guard.rs:34-41 | the lenient checkout keeps the value and sets the sentinel at the checkout location |
| Guards.PoisonNow | src/poison/guard.rs:44-51 | the strict checkout keeps the value and poisons at once with an unknown error at the checkout location |
| Guards.Drop | src/poison/guard.rs:68-79 | the value is kept; an unwinding release always leaves `UnknownPanic` (origin kept only from the sentinel); a normal release clears exactly the sentinel and keeps any real poison unchanged |
| Guards.PoisonWithError | src/poison/guard.rs:53-60 | the returned error is `CapturedErr` of the supplied error, with the sentinel's origin or the caller; after a normal release the container holds exactly that state, after an unwinding release (guard.rs:73-78) it holds `UnknownPanic` at the location the release receives instead |
| Guards.UnpoisonNow | src/poison/guard.rs:62-65 | the value written through the guard is kept; after a normal release the container is unpoisoned, after an unwinding release (guard.rs:73-78) it holds `UnknownPanic` at the location the release receives |
| Guards.Deref | src/poison/guard.rs:94-103 | a read through the guard sees the container's value |
| Guards.DerefMut | src/poison/guard.rs:94-112 | a write through the guard is what a later read sees, and the state is not touched |
| Guards.Take | src/poison/mod.rs:243 | the container moves out unchanged, without the release, so a lenient checkout's sentinel stays and the container reads as poisoned |
| Recovers.Recover | src/poison/recover.rs:18-26 | the value is unchanged, the new guard holds the sentinel, and its normal release unpoisons |
| Recovers.RecoverWith | src/poison/recover.rs:28-38 | the repair is applied once to the value; if it returns, a lenient guard over its result comes back and its normal release unpoisons; if it unwinds, no handle survives and the container keeps its old state with the value the repair left |
| Recovers.TryRecoverWith | src/poison/recover.rs:40-64 | a guard over the repaired value exactly when the repair succeeds; the handle back exactly when the repair fails, with the repair's value and `CapturedErr` of the repair's error replacing the old cause; an unwinding repair leaves the old state and the repair's value with no handle |
| Recovers.IntoError | src/poison/recover.rs:66-72 | the error describes the current state, and its `source()` is present exactly for a captured error |
| Scopes.New | src/poison/scope.rs:145-153 | a new scope's shadow equals the container's state at entry |
| Scopes.Take | src/poison/scope.rs:155-169 | the shadow is swapped back into the container that is moved out, value kept |
| Scopes.Close | src/poison/scope.rs:129-143 | a guard exactly when the shadow is clean or the sentinel, over the same value with a fresh sentinel; otherwise a recovery handle over the shadow's failure |
| Scopes.Drop | src/poison/scope.rs:172-186 | a normal drop leaves the container poisoned exactly when the shadow captured a failure, and then with that failure; an unwinding drop forces `UnknownPanic` whatever the shadow holds |
| Scopes.TryCatchUnwind | src/poison/scope.rs:101-127 | the driver is armed with the step exactly when no failure is captured; otherwise it is already resolved with the captured failure and the step never runs |
| Scopes.Settle | src/poison/scope.rs:285-298 | a step result is `Ok` exactly when the step returned `Ok`, and then the shadow is unchanged; an error or unwind is captured into the shadow and reported as that state |
| Scopes.Poll | src/poison/scope.rs:323-362 | a pending unit changes nothing but the value and leaves the rest of the step to run; a finished unit settles the step; a resolved driver returns its result without running anything; the container's own state is never touched |
| Scopes.IntoResult | src/poison/scope.rs:279-302 | on a synchronous step (one finished unit) the synchronous driver's effect and result agree with the asynchronous driver polled once |
| Scopes.Await | src/poison/scope.rs:323-362 | awaiting an armed driver resolves on the step's first finished unit, with all earlier units pending, and settles exactly that unit; with no finished unit the shadow is unchanged; a resolved driver returns its result without running anything |
| Scopes.RunSync | src/poison/scope.rs:101-127 | one result per step, and the steps never touch the container's own state |
| Scopes.FailedScopeShortCircuits | src/poison/scope.rs:108-126 | once a failure is captured, later steps do not run: the scope and its value are unchanged, and every step reports the captured failure |
| Scopes.SucceedingStepsKeepShadow | src/poison/scope.rs:293-294 | if every step succeeds, each result is the step's value, the shadow is unchanged, the container holds what the last step left, and closing gives a guard |
| Scopes.FirstFailureDecides | src/tests/poison.rs:108-138 | earlier steps report their own `Ok` results; the first failing step's failure is the final shadow and that step's value is kept; that step and every later one report exactly that failure; closing hands back a recovery handle over it |
| Checkouts.Get | src/poison/mod.rs:182-188 | the value exactly when unpoisoned; otherwise a handle over the untouched container |
| Checkouts.OnUnwind | src/poison/mod.rs:222-233 | a handle over the untouched container exactly when it is poisoned; otherwise a guard with the sentinel at the checkout location |
| Checkouts.UnlessRecovered | src/poison/guard.rs:44-51 | a handle over the untouched container exactly when it is poisoned; otherwise a guard with `UnknownErr` at the checkout location |
| Checkouts.Scope | src/poison/mod.rs:238-246 | the guard is not released, so the checkout's state carries into the scope and its shadow |
| Checkouts.PoisonErr | src/poison/mod.rs:251-264 | the guard is not released; the container gets `CapturedErr` of the error, at the sentinel's origin for a lenient guard and at the caller of `err` for a strict one, and a handle over it is returned |
| Checkouts.CatchingInitReadsBack | src/tests.rs:24-66 | a container from a catching initializer is `get`-readable exactly when the initializer returned a value (`Ok` for the fallible one), and is then the same as `new` of that value |
| Protocol.StepKeepsInv | src/tests/poison.rs:24-30 | every operation preserves "a container with a live handle reads as poisoned" |
| Protocol.RunKeepsInv | src/tests/poison.rs:24-30 | over any trace of operations, a container with a live handle reads as poisoned |
| Protocol.AbandonedCheckoutPoisons | src/tests/poison.rs:24-30 | after any history, forgetting the live handle leaves the container poisoned, and both checkouts and `get` are refused |
| Protocol.NoWriteKeepsValue | src/tests/poison.rs:171-215 | the value never changes without a write, repair or step: poisoning flags and never rolls back |
| Protocol.NewReadsBack | src/tests.rs:14-22 | a new container is unpoisoned and `get` returns its value |
| Protocol.LenientReleaseKeepsWrite | src/tests/poison_on_unwind.rs:7-19 | lenient checkout, a write and a normal release leave the container unpoisoned with the written value |
| Protocol.StrictReleaseStaysPoisoned | src/tests.rs:76-83 | strict checkout and a normal release without recovery leave the container poisoned |
| Protocol.UnwindingReleasePoisons | src/tests/poison_unless_recovered.rs:62-71 | an unwinding release leaves `UnknownPanic` under either discipline, at the checkout site if lenient and, if strict, at the location the release receives rather than the checkout origin |
| Protocol.ExplicitErrorSurvivesRelease | src/tests/poison_unless_recovered.rs:44-60 | an explicit error leaves `CapturedErr` of that error after the guard is gone |
| Protocol.ExplicitErrorLostWhileUnwinding | src/poison/guard.rs:53-78 | an explicit error raised while the thread unwinds leaves `UnknownPanic` at the location the release receives once the guard is gone, not at the error's call site |
| Protocol.UnpoisonNowReadsWrite | src/tests/poison_unless_recovered.rs:11-24 | a strict guard recovered explicitly leaves the written value readable |
| Protocol.RecoverAcrossDisciplines | src/tests/poison_unless_recovered.rs:98-110 | poison from either discipline is recovered through a handle from either checkout, with the value untouched |
| Protocol.RetryAfterFailedRepair | src/poison/recover.rs:53-63 | a failed repair keeps the container poisoned with the repair's error, and a later successful repair recovers it |
| Protocol.UnwindingRepairKeepsPoison | src/poison/recover.rs:33-63 | a repair that unwinds, through either recovery, leaves the container free with its old poison and the repair's value, so the next checkout is refused again |
| Protocol.PartialWriteSurvivesUnwind | src/tests/poison_on_unwind.rs:32-44 | 42 set to 43, then an unwind: the next checkout is refused, and recovery hands back 43 |
| Protocol.FailedStepPoisonsDespiteEscape | src/tests/poison.rs:171-193 | a failed step leaves the container poisoned at the checkout origin when the scope ends, even after writes through an escaped borrow |
| Protocol.SucceededStepCloses | src/poison/scope.rs:134-143 | a scope whose step succeeds closes to a guard whose release unpoisons, with the step's value |

## Left out

- Checkouts.Get: the handle it returns has the same type as a mutable checkout's, so the model lets it be recovered. In Rust it is a handle over a shared reference, and the recovery methods need `Target: DerefMut` (src/poison/recover.rs:14-16), so it can only be turned into an error.
- Real panics, `catch_unwind` and `thread::panicking()`. They are the `unwinding` flag and the `Caught`/`Completion`/`Unit` outcome datatypes.
- Async machinery: `Pin`, `pin_project`, `task::Context` and wakers. A poll is one abstract `Unit`.
- In `Scopes.Poll`, the initial call and the first poll are one unit. An unwind in either has the same effect on the shadow and the result.
- `Backtrace`, `Arc`, `Box<dyn Error>` and `Any` downcasting. Locations and errors are opaque ids.
- Debug and Display text, `as_dyn_error`, `AsRef<dyn Error>`, and the `TryCatchUnwind` adapters `map`, `map_err`, `unwrap`, `unwrap_err`, `expect` and `expect_err`. They are thin wrappers that format or unwrap a `Result`.
- The four `From<PoisonRecover>` conversions. They build the same snapshot of the state as `into_error`, so `Recovers.IntoError` stands for all of them.
- `Poison::as_mut`. It is the identity on the container.
- The generic `Target: DerefMut` accessor, and the external mutex and lazy wrappers. A handle owns the container directly.
- `src/guard.rs` and the `guard` module of `src/lib.rs`. They build partially initialized values with raw memory, which is a separate concern.
- `src/poison.rs` and the `poison` module of `src/lib.rs`. They are earlier revisions of the same state machine and conflict with `src/poison/`.
- Polling a driver again after it has resolved. The `Future` contract forbids it, so `Scopes.Poll` requires a driver that is not `Spent`.
- A step that stays pending forever. A step is described by finitely many units; polling past them reports pending and changes nothing, and `Scopes.Await` stops there.
- `Protocol.Step` ignores an event that the live handle does not offer. Rust's types make such calls impossible.
