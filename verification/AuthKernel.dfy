/**
 The auth runtime coordinator without its awaits: every field of the actor and
 every synchronous helper that changes them
 (apps/ios/Fluyo/AuthRuntimeKernel.swift).

 `Core` is the value of those fields; its functions are the specification. The
 class `AuthRuntimeCoordinator` is the actor itself, updated in place, and each
 of its methods is proved equal to the function of the same purpose.

 The trace list and the bookkeeping of suppressed stale outcomes are not here:
 nothing reads them to decide anything else.
 */
module AuthKernel {
  import opened Basics

  const MAX_GENERATION: nat := 0xFFFF_FFFF_FFFF_FFFF

  datatype RuntimeState =
    | Initializing | SignedOut | CallbackPending | Authenticated | OfflineSessionCandidate
    | RefreshPending | ExpiredOrRevoked | AccountSwitching | UnusableLink | SafeTerminalError

  datatype CandidateStatus = Unknown | Absent | Present

  datatype Destination = SignedOutScreen | InternalFoundationHome | RecoveryStart | PreviousSafeScreen

  datatype Outcome =
    | Success | Canceled | Malformed | Expired | Replayed | Duplicate | Unsupported | OverlapRejected
    | TransientFailure | ReauthenticationRequired | Forbidden | OwnerMismatch | StaleGenerationDiscarded
    | VaultCorrupt | TimedOut

  datatype Snapshot = Snapshot(
    state: RuntimeState,
    candidate: CandidateStatus,
    verifiedOwner: bool,
    destination: Destination,
    outcome: Option<Outcome>)
  {
    function WithOutcome(o: Outcome): Snapshot {
      this.(outcome := Some(o))
    }
  }

  datatype Focus = Heading | PrimaryAction | SafeDestinationFocus

  datatype Announcement =
    | SayInitializing | SayCallbackPending | SayAuthenticatedAfterCallback | SayOfflineCandidate
    | SayRefreshPending | SayAccountSwitching | SayUnusableLink | SaySafeTerminalError | SaySessionEnded

  datatype Priority = Polite | Assertive

  datatype Payload = Payload(
    focus: Option<Focus>,
    announcement: Option<Announcement>,
    priority: Option<Priority>,
    navigation: Option<Destination>)

  datatype Effect = Effect(generation: nat, sequence: nat, origin: RuntimeState, payload: Payload)

  datatype OperationKind = InitializeKind | CallbackKind | RefreshKind | TimerKind | CleanupKind

  datatype Reservation = Reservation(
    generation: nat,
    id: nat,
    kind: OperationKind,
    stable: Snapshot,
    stateVersion: nat,
    startedAt: nat)

  // ---------------------------------------------------------------- snapshots and payloads

  const INITIAL_SNAPSHOT := Snapshot(Initializing, Unknown, false, SignedOutScreen, None)
  const AUTHENTICATED_SNAPSHOT := Snapshot(Authenticated, Present, true, InternalFoundationHome, Some(Success))

  function SignedOutSnapshot(outcome: Outcome): Snapshot {
    Snapshot(SignedOut, Absent, false, SignedOutScreen, Some(outcome))
  }

  function Offline(owner: bool): Snapshot {
    Snapshot(OfflineSessionCandidate, Present, owner, SignedOutScreen, Some(Success))
  }

  function OfflineFrom(stable: Snapshot, outcome: Outcome): Snapshot {
    Snapshot(OfflineSessionCandidate, Present, stable.verifiedOwner, stable.destination, Some(outcome))
  }

  function TerminalSnapshot(outcome: Outcome): Snapshot {
    Snapshot(SafeTerminalError, Unknown, false, SignedOutScreen, Some(outcome))
  }

  function SafeTerminal(stable: Snapshot, outcome: Outcome): Snapshot {
    Snapshot(SafeTerminalError, stable.candidate, stable.verifiedOwner, stable.destination, Some(outcome))
  }

  function RetainedCandidate(stable: Snapshot): CandidateStatus {
    if stable.verifiedOwner then stable.candidate else Absent
  }

  function CallbackTerminal(stable: Snapshot, outcome: Outcome): Snapshot {
    Snapshot(SafeTerminalError, RetainedCandidate(stable), stable.verifiedOwner, stable.destination, Some(outcome))
  }

  function CallbackPendingFrom(stable: Snapshot): Snapshot {
    Snapshot(CallbackPending, RetainedCandidate(stable), stable.verifiedOwner, stable.destination, None)
  }

  function RefreshPendingFrom(stable: Snapshot): Snapshot {
    Snapshot(RefreshPending, Present, stable.verifiedOwner, stable.destination, None)
  }

  function UnusableLinkFrom(stable: Snapshot, outcome: Outcome): Snapshot {
    Snapshot(UnusableLink, RetainedCandidate(stable), stable.verifiedOwner, stable.destination, Some(outcome))
  }

  function CanceledFrom(stable: Snapshot): Snapshot {
    if stable.verifiedOwner then stable.WithOutcome(Canceled) else SignedOutSnapshot(Canceled)
  }

  function Spoken(announcement: Announcement, priority: Priority): Payload {
    Payload(Some(Heading), Some(announcement), Some(priority), None)
  }

  function Unfocused(announcement: Announcement, priority: Priority): Payload {
    Payload(None, Some(announcement), Some(priority), None)
  }

  const TERMINAL_ENTRY := Spoken(SaySafeTerminalError, Assertive)
  const OFFLINE_ENTRY := Spoken(SayOfflineCandidate, Polite)
  const CALLBACK_ENTRY := Spoken(SayCallbackPending, Polite)
  const ACCOUNT_SWITCHING_ENTRY := Spoken(SayAccountSwitching, Polite)
  const SESSION_ENDED_ENTRY := Spoken(SaySessionEnded, Assertive)
  const UNUSABLE_LINK_ENTRY := Spoken(SayUnusableLink, Assertive)
  const REFRESH_ENTRY := Spoken(SayRefreshPending, Polite)
  const AUTHENTICATED_ENTRY :=
    Payload(Some(SafeDestinationFocus), Some(SayAuthenticatedAfterCallback), Some(Polite), Some(InternalFoundationHome))

  // ---------------------------------------------------------------- the actor's fields

  datatype Core = Core(
    generation: nat,
    stateVersion: nat,
    nextReservation: nat,
    nextSequence: nat,
    terminal: bool,
    active: Option<Reservation>,
    refreshAttempted: Option<nat>,
    snapshot: Snapshot,
    effects: seq<Effect>,
    effectHistory: seq<Effect>,
    published: seq<(Snapshot, nat)>)
  {
    /** Does the actor still accept the outcome of the operation that holds `r`? */
    predicate Accepts(r: Reservation) {
      !terminal && generation == r.generation && active.Some? && active.value.id == r.id
    }

    function Publish(sn: Snapshot): Core {
      this.(snapshot := sn, stateVersion := stateVersion + 1, published := published + [(sn, generation)])
    }

    function Enqueue(g: nat, origin: RuntimeState, payload: Payload): Core {
      var effect := Effect(g, nextSequence, origin, payload);
      this.(effects := effects + [effect], effectHistory := effectHistory + [effect], nextSequence := nextSequence + 1)
    }

    function EnqueueAll(g: nat, origin: RuntimeState, payloads: seq<Payload>): Core
      decreases |payloads|
    {
      if payloads == [] then this else Enqueue(g, origin, payloads[0]).EnqueueAll(g, origin, payloads[1..])
    }

    function LatchTerminal(outcome: Outcome): Core {
      this.(terminal := true, active := None, effects := [])
      .Publish(TerminalSnapshot(outcome))
      .Enqueue(generation, SafeTerminalError, TERMINAL_ENTRY)
    }

    function NewReservation(kind: OperationKind, startedAt: nat): Reservation {
      Reservation(generation, nextReservation, kind, snapshot, stateVersion, startedAt)
    }

    function Take(r: Reservation): Core {
      this.(nextReservation := nextReservation + 1, active := Some(r))
    }

    function Reserve(kind: OperationKind, startedAt: nat): (Core, Option<Reservation>) {
      if terminal || active.Some? then (this, None)
      else if generation >= MAX_GENERATION then (LatchTerminal(TransientFailure), None)
      else var r := NewReservation(kind, startedAt); (Take(r), Some(r))
    }

    /** A timeout joins the operation in progress, except a fence, and reserves only when there is none. */
    function ReserveTimeout(startedAt: nat): (Core, Option<Reservation>) {
      if terminal then (this, None)
      else if active.Some? then (this, if active.value.kind == CleanupKind then None else active)
      else Reserve(TimerKind, startedAt)
    }

    function Finish(r: Reservation): Core {
      if active.Some? && active.value.id == r.id then this.(active := None) else this
    }

    function InstallFence(expected: nat): (Core, Option<Reservation>) {
      if terminal || generation != expected then (this, None)
      else if generation >= MAX_GENERATION then (LatchTerminal(TransientFailure), None)
      else
        var fenced := this.(generation := generation + 1, effects := [], refreshAttempted := None);
        var r := fenced.NewReservation(CleanupKind, 0);
        (fenced.Take(r), Some(r))
    }

    function Drain(g: nat): (Core, seq<Effect>) {
      if g != generation then (this, []) else (this.(effects := []), effects)
    }

    function ForbidRequest(): Core {
      if terminal || active.Some? then this
      else
        var forbidden := SafeTerminal(snapshot, Forbidden);
        Publish(forbidden).Enqueue(generation, forbidden.state, TERMINAL_ENTRY)
    }

    /** finishRefresh withdraws the announcements of the refresh it ends. */
    function WithdrawRefreshEffects(g: nat): Core {
      this.(effects := Without(effects, g))
    }
  }

  predicate IsRefreshEffect(e: Effect, g: nat) {
    e.generation == g && e.origin == RefreshPending
  }

  function Without(effects: seq<Effect>, g: nat): seq<Effect> {
    if effects == [] then []
    else (if IsRefreshEffect(effects[0], g) then [] else [effects[0]]) + Without(effects[1..], g)
  }

  lemma WithoutHead(effects: seq<Effect>, i: nat, g: nat)
    requires i < |effects|
    ensures Without(effects[i..], g)
         == (if IsRefreshEffect(effects[i], g) then [] else [effects[i]]) + Without(effects[i + 1..], g)
  {
    assert effects[i..][1..] == effects[i + 1..];
  }

  function InitialCore(generation: nat): Core {
    Core(generation, 0, 1, 1, false, None, None, INITIAL_SNAPSHOT, [], [], [])
  }

  // ---------------------------------------------------------------- the actor

  /** The coordinator with its fields updated in place, as between two awaits. */
  class AuthRuntimeCoordinator {
    var generation: nat
    var stateVersion: nat
    var nextReservation: nat
    var nextSequence: nat
    var terminal: bool
    var active: Option<Reservation>
    var refreshAttempted: Option<nat>
    var snapshot: Snapshot
    var effects: seq<Effect>
    var effectHistory: seq<Effect>
    var published: seq<(Snapshot, nat)>

    ghost function View(): Core
      reads this
    {
      Core(generation, stateVersion, nextReservation, nextSequence, terminal, active, refreshAttempted,
           snapshot, effects, effectHistory, published)
    }

    constructor (initialGeneration: nat)
      ensures View() == InitialCore(initialGeneration)
    {
      generation, stateVersion, nextReservation, nextSequence := initialGeneration, 0, 1, 1;
      terminal, active, refreshAttempted := false, None, None;
      snapshot, effects, effectHistory, published := INITIAL_SNAPSHOT, [], [], [];
    }

    predicate Valid(r: Reservation)
      reads this
    {
      !terminal && generation == r.generation && active.Some? && active.value.id == r.id
    }

    method PublishLocked(sn: Snapshot)
      modifies this
      ensures View() == old(View()).Publish(sn)
    {
      snapshot := sn;
      stateVersion := stateVersion + 1;
      published := published + [(sn, generation)];
    }

    method EnqueueLocked(g: nat, origin: RuntimeState, payload: Payload)
      modifies this
      ensures View() == old(View()).Enqueue(g, origin, payload)
    {
      var effect := Effect(g, nextSequence, origin, payload);
      effects := effects + [effect];
      effectHistory := effectHistory + [effect];
      nextSequence := nextSequence + 1;
    }

    /** The guarded publication that every operation uses for its own outcome. */
    method PublishWithEffect(sn: Snapshot, r: Reservation, payload: Payload)
      modifies this
      ensures View() == if old(View()).Accepts(r)
                        then old(View()).Publish(sn).Enqueue(r.generation, sn.state, payload)
                        else old(View())
    {
      if Valid(r) {
        PublishLocked(sn);
        EnqueueLocked(r.generation, sn.state, payload);
      }
    }

    method LatchTerminal(outcome: Outcome)
      modifies this
      ensures View() == old(View()).LatchTerminal(outcome)
    {
      terminal, active, effects := true, None, [];
      PublishLocked(TerminalSnapshot(outcome));
      EnqueueLocked(generation, SafeTerminalError, TERMINAL_ENTRY);
    }

    method Reserve(kind: OperationKind, startedAt: nat) returns (r: Option<Reservation>)
      modifies this
      ensures (View(), r) == old(View()).Reserve(kind, startedAt)
    {
      if terminal || active.Some? {
        return None;
      }
      if generation >= MAX_GENERATION {
        LatchTerminal(TransientFailure);
        return None;
      }
      var reservation := Reservation(generation, nextReservation, kind, snapshot, stateVersion, startedAt);
      nextReservation := nextReservation + 1;
      active := Some(reservation);
      return active;
    }

    method ReserveTimeout(startedAt: nat) returns (r: Option<Reservation>)
      modifies this
      ensures (View(), r) == old(View()).ReserveTimeout(startedAt)
    {
      if terminal {
        return None;
      }
      if active.Some? {
        return if active.value.kind == CleanupKind then None else active;
      }
      r := Reserve(TimerKind, startedAt);
    }

    method Finish(r: Reservation)
      modifies this
      ensures View() == old(View()).Finish(r)
    {
      if active.Some? && active.value.id == r.id {
        active := None;
      }
    }

    method InstallFence(expected: nat) returns (r: Option<Reservation>)
      modifies this
      ensures (View(), r) == old(View()).InstallFence(expected)
    {
      if terminal || generation != expected {
        return None;
      }
      if generation >= MAX_GENERATION {
        LatchTerminal(TransientFailure);
        return None;
      }
      generation := generation + 1;
      effects := [];
      refreshAttempted := None;
      var reservation := Reservation(generation, nextReservation, CleanupKind, snapshot, stateVersion, 0);
      nextReservation := nextReservation + 1;
      active := Some(reservation);
      return active;
    }

    method DrainPresentationEffects(requested: nat) returns (drained: seq<Effect>)
      modifies this
      ensures (View(), drained) == old(View()).Drain(requested)
    {
      if requested != generation {
        return [];
      }
      drained := effects;
      effects := [];
    }

    method Handle403()
      modifies this
      ensures View() == old(View()).ForbidRequest()
    {
      if terminal || active.Some? {
        return;
      }
      var forbidden := SafeTerminal(snapshot, Forbidden);
      PublishLocked(forbidden);
      EnqueueLocked(generation, forbidden.state, TERMINAL_ENTRY);
    }

    method WithdrawRefreshEffects(g: nat)
      modifies this
      ensures View() == old(View()).WithdrawRefreshEffects(g)
    {
      var kept: seq<Effect> := [];
      var queued := effects;
      var i := 0;
      while i < |queued|
        invariant 0 <= i <= |queued| && kept + Without(queued[i..], g) == Without(queued, g)
        modifies {}
      {
        WithoutHead(queued, i, g);
        if !IsRefreshEffect(queued[i], g) {
          kept := kept + [queued[i]];
        }
        i := i + 1;
      }
      effects := kept;
    }
  }
}
