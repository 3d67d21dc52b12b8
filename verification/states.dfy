/**
 The poison state of a container (src/poison/error.rs).

 The state is a strict six-way tag. `Unpoisoned` is the only usable state;
 `Guarded` is the sentinel a live checkout leaves behind, and it counts as
 poisoned to anyone who finds it; the four remaining variants record a captured
 unwind or error together with the location of the checkout that broke.

 Source locations (`&'static Location`) and boxed errors are opaque ids: the
 model only ever compares them. `Location::caller()` is passed in as `caller`.
 */
module States {
  import opened Results

  /** A `&'static Location<'static>` captured with `#[track_caller]`. */
  datatype Location = Location(id: nat)

  /** A `Box<dyn Error + Send + Sync>` supplied by a caller. */
  datatype DynError = DynError(id: nat)

  /** The payload of a caught unwind; only the two string shapes can be read. */
  datatype Payload = StaticStr(msg: string) | OwnedString(msg: string) | Other

  datatype PoisonState =
    | CapturedPanic(location: Location, payload: string)
    | UnknownPanic(location: Location)
    | CapturedErr(location: Location, source: DynError)
    | UnknownErr(location: Location)
    | Guarded(location: Location)
    | Unpoisoned

  /** The public error: a snapshot of the state it was made from. */
  datatype PoisonError = PoisonError(inner: PoisonState)

  // Observations of a state, used to phrase the contracts below.

  /** The checkout location a state records, if any. */
  function Origin(s: PoisonState): Option<Location>
  {
    if s.Unpoisoned? then None else Some(s.location)
  }

  /** The panic message a state carries (its Debug `panic` field), if any. */
  function Message(s: PoisonState): Option<string>
  {
    if s.CapturedPanic? then Some(s.payload) else None
  }

  predicate IsPanic(s: PoisonState)
  {
    s.CapturedPanic? || s.UnknownPanic?
  }

  predicate IsErr(s: PoisonState)
  {
    s.CapturedErr? || s.UnknownErr?
  }

  /** The location a transition records: a sentinel keeps its checkout origin. */
  function Keep(s: PoisonState, caller: Location): Location
  {
    if s.Guarded? then s.location else caller
  }

  /** Reads a message out of a payload: only `&'static str` and `String` downcast. */
  function Downcast(panic: Option<Payload>): (msg: Option<string>)
    ensures msg.Some? <==> panic.Some? && !panic.value.Other?
    ensures msg.Some? ==> msg.value == panic.value.msg
  {
    match panic
    case None => None
    case Some(StaticStr(m)) => Some(m)
    case Some(OwnedString(m)) => Some(m)
    case Some(Other) => None
  }

  function FromUnpoisoned(): (s: PoisonState)
    ensures Origin(s) == None
  {
    Unpoisoned
  }

  /** An error state at `location`, capturing `err` when one is supplied. */
  function FromErr(location: Location, err: Option<DynError>): (s: PoisonState)
    ensures IsErr(s) && Origin(s) == Some(location)
    ensures s.CapturedErr? <==> err.Some?
    ensures Source(ToError(s)) == err
  {
    if err.Some? then CapturedErr(location, err.value) else UnknownErr(location)
  }

  /** A panic state at `location`, capturing the payload's message when it is string-like. */
  function FromPanic(location: Location, panic: Option<Payload>): (s: PoisonState)
    ensures IsPanic(s) && Origin(s) == Some(location)
    ensures s.CapturedPanic? <==> panic.Some? && !panic.value.Other?
    ensures Message(s) == Downcast(panic)
  {
    match Downcast(panic)
    case Some(msg) => CapturedPanic(location, msg)
    case None => UnknownPanic(location)
  }

  /** `guarded`: a checkout begins at `caller`, whatever came before. */
  function ToGuarded(s: PoisonState, caller: Location): (r: PoisonState)
    ensures r.Guarded? && Origin(r) == Some(caller)
    ensures IsPoisoned(r) && IsUnpoisonedOrSentinel(r)
  {
    Guarded(caller)
  }

  /** `poison_with_error`: error poison, keeping the origin of a live checkout. */
  function PoisonWithError(s: PoisonState, caller: Location, err: Option<DynError>): (r: PoisonState)
    ensures IsErr(r) && IsPoisoned(r) && !IsUnpoisonedOrSentinel(r)
    ensures Origin(r) == Some(if s.Guarded? then s.location else caller)
    ensures Source(ToError(r)) == err
  {
    FromErr(Keep(s, caller), err)
  }

  /** `poison_with_panic`: panic poison, keeping the origin of a live checkout. */
  function PoisonWithPanic(s: PoisonState, caller: Location, panic: Option<Payload>): (r: PoisonState)
    ensures IsPanic(r) && IsPoisoned(r) && !IsUnpoisonedOrSentinel(r)
    ensures Origin(r) == Some(if s.Guarded? then s.location else caller)
    ensures Message(r) == Downcast(panic)
  {
    FromPanic(Keep(s, caller), panic)
  }

  /** `unpoison_if_guarded`: clears the sentinel and nothing else. */
  function UnpoisonIfGuarded(s: PoisonState): (r: PoisonState)
    ensures IsPoisoned(r) <==> IsPoisoned(s) && !s.Guarded?
    ensures IsPoisoned(r) ==> r == s
  {
    if s.Guarded? then FromUnpoisoned() else s
  }

  function Unpoison(s: PoisonState): (r: PoisonState)
    ensures !IsPoisoned(r)
  {
    FromUnpoisoned()
  }

  function IsUnpoisoned(s: PoisonState): (b: bool)
    ensures b <==> Origin(s).None?
  {
    s.Unpoisoned?
  }

  /** Poisoned is everything but `Unpoisoned`; the `Guarded` sentinel included. */
  function IsPoisoned(s: PoisonState): (b: bool)
    ensures b <==> Origin(s).Some?
    ensures s.Guarded? ==> b
  {
    !IsUnpoisoned(s)
  }

  /** No failure has been captured: the state is clean or only the sentinel. */
  function IsUnpoisonedOrSentinel(s: PoisonState): (b: bool)
    ensures b <==> !IsPanic(s) && !IsErr(s)
  {
    s.Unpoisoned? || s.Guarded?
  }

  function ToError(s: PoisonState): (e: PoisonError)
    ensures Source(e) == (if s.CapturedErr? then Some(s.source) else None)
    ensures e.inner == s
  {
    PoisonError(s)
  }

  /** `Error::source`: only a captured error has an underlying cause. */
  function Source(e: PoisonError): (r: Option<DynError>)
    ensures r.Some? <==> e.inner.CapturedErr?
    ensures r.Some? ==> r.value == e.inner.source
  {
    match e.inner
    case CapturedErr(_, source) => Some(source)
    case _ => None
  }

  /** Clearing the sentinel a second time changes nothing. */
  lemma UnpoisonIfGuardedIdempotent(s: PoisonState)
    ensures UnpoisonIfGuarded(UnpoisonIfGuarded(s)) == UnpoisonIfGuarded(s)
  {
  }

  /**
   Every state is reached by exactly one constructor path: decomposing a state
   into its origin, cause and message and rebuilding it with `FromErr`,
   `FromPanic`, `ToGuarded` or `FromUnpoisoned` gives the same state back.
   */
  lemma StateRebuilt(s: PoisonState)
    ensures IsErr(s) ==> FromErr(Origin(s).value, Source(ToError(s))) == s
    ensures IsPanic(s) ==> FromPanic(Origin(s).value, if s.CapturedPanic? then Some(OwnedString(s.payload)) else None) == s
    ensures s.Guarded? ==> ToGuarded(Unpoisoned, Origin(s).value) == s
    ensures s.Unpoisoned? ==> FromUnpoisoned() == s
  {
  }
}
