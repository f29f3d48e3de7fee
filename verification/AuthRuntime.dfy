/**
 The coordinator as a step system. Every `await` of the actor is a point where
 any other entry may run, so a state holds the actor's fields, the ports, and
 the map of suspended continuations; an adversary picks the next step:

 - `Call`: an entry point of the actor is called;
 - `Perform`: a suspended port call takes effect (or is refused) at the port;
 - `Resume`: a continuation runs on to its next await with any port result.

 A port write can therefore land arbitrarily late, and its answer can be
 delivered later still. The stores follow the conditional contract that the
 port doubles implement (apps/ios/FluyoTests/AuthRuntimeKernelTests.swift:758-766):
 a write applies only at the activated generation, activation only raises it.
 */
module AuthRuntime {
  import opened Basics
  import opened AuthKernel

  type Candidate = string
  type Subject = string

  datatype PortResult<+T> = PortSuccess(value: T) | PortTransient | PortInvalidated | PortForbidden | PortMalformed

  datatype Mutation = Applied | StaleGeneration | MutationFailed

  datatype ConsumeResult =
    | Consumed(candidate: Candidate) | ConsumeMalformed | ConsumeExpired | ConsumeReplayed
    | ConsumeDuplicate | ConsumeUnsupported | ConsumeStale | ConsumeFailed

  datatype TimeoutKind = ProviderOrApiStep | TotalActionable

  /** The activated generation shared by the stores, and what the two stores hold. */
  datatype Ports = Ports(cell: nat, vault: Option<Candidate>, owner: Option<Subject>)

  /** What is left to do when the body of an operation is over. */
  datatype Ending = EndPlain | EndInitialize(timer: nat) | EndRefresh(timer: nat)

  /** The await at which an operation holding a reservation is suspended. */
  datatype OpPoint =
    | AtInitYield(online: bool, timer: nat)
    | AtVaultRead(online: bool, timer: nat, got: Option<PortResult<Option<Candidate>>>)
    | AtInitTimer
    | AtConsume
    | AtExchange
    | AtRefresh(timer: nat)
    | AtRefreshTimer
    | AtTimeoutSleep(timeout: TimeoutKind)
    | AtCancelCallbackClock
    | AtCancelRefreshClock
    | AtVerify(candidate: Candidate, announce: bool, ending: Ending)
    | AtReplace(candidate: Candidate, subject: Subject, announce: bool, ending: Ending, written: Option<Mutation>)
    | AtBind(candidate: Candidate, subject: Subject, announce: bool, ending: Ending, written: Option<Mutation>)
    | AtJoin(child: nat, ending: Ending)
    | AtEndCancelTimers(timer: nat, ending: Ending)
    | AtEndJoinTimer(timer: nat, ending: Ending)

  /** What a generation fence is installed for. */
  datatype FenceJob =
    | Transition(snapshot: Snapshot, payloads: seq<Payload>)
    | Wipe(goal: RuntimeState, outcome: Outcome)
    | StoreFailure(stable: Snapshot)

  datatype Entering =
    | EnterInitialize(online: bool)
    | EnterCallback
    | EnterRefresh(candidate: Candidate)
    | EnterTimeout(timeout: TimeoutKind)

  // The stages of a fence are the awaits of fenceForCleanup followed by those of the job;
  // 1 and 2 cancel callback and timers, 5 clears headers.
  const CANCEL_PROVIDER := 0
  const ACTIVATE := 3
  const PURGE_CALLBACK := 4
  const CLEAR_VAULT := 6
  const PURGE_OWNER := 7
  const CONFIRM_CALLBACK := 8
  const CONFIRM_VAULT := 9
  const CONFIRM_OWNER := 10
  const CONFIRM_PURGE := 5

  datatype Task =
    | Enter(entering: Entering)
    | Op(r: Reservation, at: OpPoint)
    | Start(job: FenceJob, expected: Option<nat>)
    | Fence(f: Reservation, job: FenceJob, stage: nat, done: Option<Mutation>)
    | Announce(generation: nat, stateVersion: nat, state: RuntimeState, message: Announcement, priority: Priority)

  /** Who published a snapshot. */
  datatype Source = ByOperation | ByVerifiedOwner(id: nat) | ByTransition | ByWipe | ByStoreFailure | ByForbidden | ByLatch

  datatype Event =
    | OwnerVerified(generation: nat, id: nat, candidate: Candidate, subject: Subject)
    | VaultReplaced(generation: nat, id: nat, candidate: Candidate)
    | OwnerBound(generation: nat, id: nat, subject: Subject)
    | Published(snapshot: Snapshot, generation: nat, source: Source)
    | Fenced(expected: nat)
    | RefreshCalled(generation: nat)
    | Drained(effects: seq<Effect>)

  datatype State = State(core: Core, ports: Ports, tasks: map<nat, Task>, nextTask: nat, log: seq<Event>)
  {
    function Log(e: Event): State { this.(log := log + [e]) }

    function Put(t: nat, task: Task): State { this.(tasks := tasks[t := task]) }

    function Drop(t: nat): State { this.(tasks := tasks - {t}) }

    function Spawn(task: Task): State { this.(tasks := tasks[nextTask := task], nextTask := nextTask + 1) }

    function Publish(sn: Snapshot, source: Source): State {
      this.(core := core.Publish(sn)).Log(Published(sn, core.generation, source))
    }

    function Enqueue(origin: RuntimeState, payload: Payload): State {
      this.(core := core.Enqueue(core.generation, origin, payload))
    }

    function Latch(): State {
      this.(core := core.LatchTerminal(TransientFailure))
      .Log(Published(TerminalSnapshot(TransientFailure), core.generation, ByLatch))
    }
  }

  datatype Request =
    | Initialize(online: bool)
    | ReceiveCallback
    | CancelCallback
    | Handle401(candidate: Candidate)
    | Handle403
    | CancelRefresh
    | SignOutRequest
    | SwitchAccountRequest
    | ScheduleTimeout(timeout: TimeoutKind)
    | ScheduleAnnouncement(message: Announcement, priority: Priority)
    | DrainEffects(generation: nat)

  datatype Input =
    | Clock(milliseconds: nat)
    | Fired(fired: bool)
    | Done
    | ConsumeAnswer(consumed: ConsumeResult)
    | ExchangeAnswer(exchanged: PortResult<Candidate>, cancelled: bool)
    | RefreshAnswer(refreshed: PortResult<Candidate>)
    | VerifyAnswer(verified: PortResult<Subject>)
    | Confirmed(empty: bool)

  datatype Action =
    | Call(request: Request)
    | Perform(task: nat, wish: Mutation)
    | ReadVault(task: nat, refusal: Option<PortResult<Option<Candidate>>>)
    | Resume(task: nat, input: Input)

  // ---------------------------------------------------------------- entry points

  function CallStep(s: State, request: Request): State {
    match request
    case Initialize(online) => s.Spawn(Enter(EnterInitialize(online)))
    case ReceiveCallback => s.Spawn(Enter(EnterCallback))
    case Handle401(candidate) => s.Spawn(Enter(EnterRefresh(candidate)))
    case ScheduleTimeout(timeout) => s.Spawn(Enter(EnterTimeout(timeout)))
    case CancelCallback => CancelStep(s, CallbackKind, AtCancelCallbackClock)
    case CancelRefresh => CancelStep(s, RefreshKind, AtCancelRefreshClock)
    case Handle403 =>
      if s.core.terminal || s.core.active.Some? then s
      else s.(core := s.core.ForbidRequest())
           .Log(Published(SafeTerminal(s.core.snapshot, Forbidden), s.core.generation, ByForbidden))
    case SignOutRequest => s.Spawn(Start(Wipe(SignedOut, Success), None))
    case SwitchAccountRequest => s.Spawn(Start(Wipe(AccountSwitching, Success), None))
    case ScheduleAnnouncement(message, priority) =>
      if s.core.terminal then s
      else s.Spawn(Announce(s.core.generation, s.core.stateVersion, s.core.snapshot.state, message, priority))
    case DrainEffects(generation) =>
      var (core, drained) := s.core.Drain(generation);
      s.(core := core).Log(Drained(drained))
  }

  /** cancelCallback and cancelRefresh capture the active reservation before they read the clock. */
  function CancelStep(s: State, kind: OperationKind, at: OpPoint): State {
    if s.core.active.Some? && !s.core.terminal && s.core.active.value.kind == kind &&
       s.core.active.value.generation == s.core.generation
    then s.Spawn(Op(s.core.active.value, at))
    else s
  }

  // ---------------------------------------------------------------- ports

  function Raise(cell: nat, generation: nat): nat {
    if generation > cell then generation else cell
  }

  /** The answer of a conditional write: `Applied` only at the activated generation. */
  function Verdict(cell: nat, generation: nat, wish: Mutation): Mutation {
    if cell != generation then StaleGeneration else wish
  }

  function PerformStep(s: State, t: nat, wish: Mutation): State {
    if t !in s.tasks then s
    else
      match s.tasks[t]
      case Op(r, AtReplace(candidate, subject, announce, ending, None)) =>
        var verdict := Verdict(s.ports.cell, r.generation, wish);
        var s1 := s.Put(t, Op(r, AtReplace(candidate, subject, announce, ending, Some(verdict))));
        if verdict == Applied
        then s1.(ports := s.ports.(vault := Some(candidate))).Log(VaultReplaced(r.generation, r.id, candidate))
        else s1
      case Op(r, AtBind(candidate, subject, announce, ending, None)) =>
        var verdict := Verdict(s.ports.cell, r.generation, wish);
        var s1 := s.Put(t, Op(r, AtBind(candidate, subject, announce, ending, Some(verdict))));
        if verdict == Applied
        then s1.(ports := s.ports.(owner := Some(subject))).Log(OwnerBound(r.generation, r.id, subject))
        else s1
      case Fence(f, job, stage, None) =>
        if stage == ACTIVATE then s.(ports := s.ports.(cell := Raise(s.ports.cell, f.generation)))
        else if IsWriteStage(job, stage) then
          var verdict := Verdict(s.ports.cell, f.generation, wish);
          var s1 := s.Put(t, Fence(f, job, stage, Some(verdict)));
          if verdict != Applied then s1
          else if job.Wipe? && stage == CLEAR_VAULT then s1.(ports := s.ports.(vault := None))
          else if job.Wipe? && stage == PURGE_OWNER then s1.(ports := s.ports.(owner := None))
          else s1
        else s
      case _ => s
  }

  predicate IsWriteStage(job: FenceJob, stage: nat) {
    match job
    case Transition(_, _) => false
    case Wipe(_, _) => PURGE_CALLBACK <= stage <= PURGE_OWNER
    case StoreFailure(_) => stage == PURGE_CALLBACK
  }

  /** The vault answers a read with what it holds, or with a failure. */
  function ReadVaultStep(s: State, t: nat, refusal: Option<PortResult<Option<Candidate>>>): State {
    if t !in s.tasks then s
    else
      match s.tasks[t]
      case Op(r, AtVaultRead(online, timer, None)) =>
        var answer := if refusal.Some? && !refusal.value.PortSuccess? then refusal.value else PortSuccess(s.ports.vault);
        s.Put(t, Op(r, AtVaultRead(online, timer, Some(answer))))
      case _ => s
  }

  // ---------------------------------------------------------------- continuations

  function ResumeStep(s: State, t: nat, input: Input): State {
    if t !in s.tasks then s
    else
      match s.tasks[t]
      case Enter(entering) => if input.Clock? then ResumeEnter(s, t, entering, input.milliseconds) else s
      case Op(r, at) => ResumeOp(s, t, r, at, input)
      case Start(job, expected) => ResumeStart(s, t, job, expected)
      case Fence(f, job, stage, done) => ResumeFence(s, t, f, job, stage, done, input)
      case Announce(generation, version, state, message, priority) =>
        var s1 := s.Drop(t);
        if input == Fired(true) && !s.core.terminal && s.core.generation == generation &&
           s.core.stateVersion == version && s.core.snapshot.state == state
        then s1.Enqueue(state, Unfocused(message, priority))
        else s1
  }

  /** The first synchronous stretch of an operation, from the clock reading to its next await. */
  function ResumeEnter(s: State, t: nat, entering: Entering, now: nat): State {
    match entering
    case EnterInitialize(online) =>
      var (core, taken) := s.core.Reserve(InitializeKind, now);
      if taken.None? then NotReserved(s, t, core)
      else s.(core := core).Put(t, Op(taken.value, AtInitYield(online, s.nextTask))).Spawn(Op(taken.value, AtInitTimer))
    case EnterCallback =>
      var (core, taken) := s.core.Reserve(CallbackKind, now);
      if taken.None? then NotReserved(s, t, core)
      else s.(core := core).Put(t, Op(taken.value, AtConsume))
    case EnterRefresh(candidate) =>
      var (core, taken) := s.core.Reserve(RefreshKind, now);
      if taken.None? then NotReserved(s, t, core)
      else BeginRefresh(s.(core := core), t, taken.value)
    case EnterTimeout(timeout) =>
      var (core, taken) := s.core.ReserveTimeout(now);
      if taken.None? then NotReserved(s, t, core)
      else s.(core := core).Put(t, Op(taken.value, AtTimeoutSleep(timeout)))
  }

  /** A failed reservation may have latched the terminal state at the last generation. */
  function NotReserved(s: State, t: nat, core: Core): State {
    if core.terminal && !s.core.terminal then s.Latch().Drop(t) else s.Drop(t)
  }

  function BeginRefresh(s: State, t: nat, r: Reservation): State {
    if s.core.refreshAttempted == Some(r.generation) then
      WaitFor(s, t, r, Wipe(ExpiredOrRevoked, ReauthenticationRequired), EndPlain)
    else
      s.(core := s.core.(refreshAttempted := Some(r.generation)))
      .Publish(RefreshPendingFrom(r.stable), ByOperation)
      .Log(RefreshCalled(r.generation))
      .Put(t, Op(r, AtRefresh(s.nextTask)))
      .Spawn(Op(r, AtRefreshTimer))
  }

  /** The operation starts an irrevocable task for `job` at its own generation and waits for it. */
  function WaitFor(s: State, t: nat, r: Reservation, job: FenceJob, ending: Ending): State {
    s.Put(t, Op(r, AtJoin(s.nextTask, ending))).Spawn(Start(job, Some(r.generation)))
  }

  function EndOperation(s: State, t: nat, r: Reservation, ending: Ending): State {
    match ending
    case EndPlain => s.(core := s.core.Finish(r)).Drop(t)
    case EndInitialize(timer) => s.Put(t, Op(r, AtEndCancelTimers(timer, ending)))
    case EndRefresh(timer) => s.Put(t, Op(r, AtEndCancelTimers(timer, ending)))
  }

  function PublishGuarded(s: State, r: Reservation, sn: Snapshot, payload: Option<Payload>): State {
    if !s.core.Accepts(r) then s
    else
      var s1 := s.Publish(sn, ByOperation);
      if payload.Some? then s1.Enqueue(sn.state, payload.value) else s1
  }

  function ResumeOp(s: State, t: nat, r: Reservation, at: OpPoint, input: Input): State {
    match at
    case AtInitYield(online, timer) => s.Put(t, Op(r, AtVaultRead(online, timer, None)))
    case AtVaultRead(online, timer, got) =>
      if got.None? then s else AfterVaultRead(s, t, r, online, timer, got.value)
    case AtInitTimer => AfterInitTimer(s, t, r, input)
    case AtConsume => if input.ConsumeAnswer? then AfterConsume(s, t, r, input.consumed) else s
    case AtExchange =>
      if input.ExchangeAnswer? then AfterExchange(s, t, r, input.exchanged, input.cancelled) else s
    case AtRefresh(timer) => if input.RefreshAnswer? then AfterRefresh(s, t, r, timer, input.refreshed) else s
    case AtRefreshTimer =>
      var s1 := s.Drop(t);
      if input == Fired(true) && s.core.Accepts(r) && s.core.snapshot.state == RefreshPending
      then s1.Enqueue(RefreshPending, REFRESH_ENTRY)
      else s1
    case AtTimeoutSleep(timeout) => if input.Fired? then AfterTimeout(s, t, r, timeout, input.fired) else s
    case AtCancelCallbackClock =>
      if !input.Clock? then s
      else AfterCancelClock(s, t, r, input.milliseconds, Transition(CanceledFrom(r.stable), []))
    case AtCancelRefreshClock =>
      if !input.Clock? then s
      else AfterCancelClock(s, t, r, input.milliseconds, Transition(OfflineFrom(r.stable, Canceled), [OFFLINE_ENTRY]))
    case AtVerify(candidate, announce, ending) =>
      if input.VerifyAnswer? then AfterVerify(s, t, r, candidate, announce, ending, input.verified) else s
    case AtReplace(candidate, subject, announce, ending, written) =>
      if written.None? then s
      else if !s.core.Accepts(r) then EndOperation(s, t, r, ending)
      else if written.value != Applied then WaitFor(s, t, r, Wipe(SafeTerminalError, VaultCorrupt), ending)
      else s.Put(t, Op(r, AtBind(candidate, subject, announce, ending, None)))
    case AtBind(candidate, subject, announce, ending, written) =>
      if written.None? then s
      else if !s.core.Accepts(r) then EndOperation(s, t, r, ending)
      else if written.value != Applied then WaitFor(s, t, r, Wipe(SafeTerminalError, OwnerMismatch), ending)
      else PublishAuthenticated(s, t, r, announce, ending)
    case AtJoin(child, ending) => if child in s.tasks then s else EndOperation(s, t, r, ending)
    case AtEndCancelTimers(timer, ending) => s.Put(t, Op(r, AtEndJoinTimer(timer, ending)))
    case AtEndJoinTimer(timer, ending) =>
      if timer in s.tasks then s
      else
        var core := if ending.EndRefresh? then s.core.WithdrawRefreshEffects(r.generation) else s.core;
        s.(core := core.Finish(r)).Drop(t)
  }

  function AfterInitTimer(s: State, t: nat, r: Reservation, input: Input): State {
    var s1 := s.Drop(t);
    if input == Fired(true) && s.core.Accepts(r) && s.core.stateVersion == r.stateVersion &&
       s.core.snapshot.state == Initializing
    then s1.Enqueue(Initializing, Unfocused(SayInitializing, Polite))
    else s1
  }

  function AfterVaultRead(s: State, t: nat, r: Reservation, online: bool, timer: nat,
                          got: PortResult<Option<Candidate>>): State {
    var ending := EndInitialize(timer);
    if !s.core.Accepts(r) then EndOperation(s, t, r, ending)
    else
      match got
      case PortSuccess(None) => EndOperation(PublishGuarded(s, r, SignedOutSnapshot(Success), None), t, r, ending)
      case PortSuccess(Some(candidate)) =>
        if online then s.Put(t, Op(r, AtVerify(candidate, false, ending)))
        else EndOperation(PublishGuarded(s, r, Offline(false), Some(OFFLINE_ENTRY)), t, r, ending)
      case PortTransient =>
        EndOperation(PublishGuarded(s, r, TerminalSnapshot(TimedOut), Some(TERMINAL_ENTRY)), t, r, ending)
      case PortForbidden =>
        EndOperation(PublishGuarded(s, r, SafeTerminal(r.stable, Forbidden), Some(TERMINAL_ENTRY)), t, r, ending)
      case PortInvalidated => WaitFor(s, t, r, Wipe(SafeTerminalError, VaultCorrupt), ending)
      case PortMalformed => WaitFor(s, t, r, Wipe(SafeTerminalError, VaultCorrupt), ending)
  }

  function Reject(s: State, t: nat, r: Reservation, outcome: Outcome): State {
    WaitFor(s, t, r, Transition(UnusableLinkFrom(r.stable, outcome), [UNUSABLE_LINK_ENTRY]), EndPlain)
  }

  function AfterConsume(s: State, t: nat, r: Reservation, consumed: ConsumeResult): State {
    if !s.core.Accepts(r) then EndOperation(s, t, r, EndPlain)
    else
      match consumed
      case Consumed(_) =>
        PublishGuarded(s, r, CallbackPendingFrom(r.stable), Some(CALLBACK_ENTRY)).Put(t, Op(r, AtExchange))
      case ConsumeDuplicate => EndOperation(s, t, r, EndPlain)
      case ConsumeStale => EndOperation(s, t, r, EndPlain)
      case ConsumeReplayed => Reject(s, t, r, Replayed)
      case ConsumeExpired => Reject(s, t, r, Expired)
      case ConsumeUnsupported => Reject(s, t, r, Unsupported)
      case ConsumeMalformed => Reject(s, t, r, Malformed)
      case ConsumeFailed => WaitFor(s, t, r, StoreFailure(r.stable), EndPlain)
  }

  function AfterExchange(s: State, t: nat, r: Reservation, exchanged: PortResult<Candidate>, cancelled: bool): State {
    if cancelled || !s.core.Accepts(r) then EndOperation(s, t, r, EndPlain)
    else
      match exchanged
      case PortSuccess(session) => s.Put(t, Op(r, AtVerify(session, true, EndPlain)))
      case PortTransient =>
        WaitFor(s, t, r, Transition(CallbackTerminal(r.stable, TransientFailure), [TERMINAL_ENTRY]), EndPlain)
      case PortForbidden =>
        WaitFor(s, t, r, Transition(CallbackTerminal(r.stable, Forbidden), [TERMINAL_ENTRY]), EndPlain)
      case PortMalformed => Reject(s, t, r, Malformed)
      case PortInvalidated => WaitFor(s, t, r, Wipe(ExpiredOrRevoked, ReauthenticationRequired), EndPlain)
  }

  function AfterRefresh(s: State, t: nat, r: Reservation, timer: nat, refreshed: PortResult<Candidate>): State {
    var ending := EndRefresh(timer);
    if !s.core.Accepts(r) then EndOperation(s, t, r, ending)
    else
      match refreshed
      case PortSuccess(value) => s.Put(t, Op(r, AtVerify(value, false, ending)))
      case PortTransient =>
        EndOperation(PublishGuarded(s, r, OfflineFrom(r.stable, TransientFailure), Some(OFFLINE_ENTRY)), t, r, ending)
      case PortForbidden =>
        EndOperation(PublishGuarded(s, r, SafeTerminal(r.stable, Forbidden), Some(TERMINAL_ENTRY)), t, r, ending)
      case PortInvalidated => WaitFor(s, t, r, Wipe(ExpiredOrRevoked, ReauthenticationRequired), ending)
      case PortMalformed => WaitFor(s, t, r, Wipe(ExpiredOrRevoked, ReauthenticationRequired), ending)
  }

  function AfterVerify(s: State, t: nat, r: Reservation, candidate: Candidate, announce: bool, ending: Ending,
                       verified: PortResult<Subject>): State {
    if !s.core.Accepts(r) then EndOperation(s, t, r, ending)
    else
      match verified
      case PortSuccess(subject) =>
        s.Log(OwnerVerified(r.generation, r.id, candidate, subject))
        .Put(t, Op(r, AtReplace(candidate, subject, announce, ending, None)))
      case PortTransient =>
        EndOperation(PublishGuarded(s, r, Offline(r.stable.verifiedOwner), Some(OFFLINE_ENTRY)), t, r, ending)
      case PortForbidden =>
        EndOperation(PublishGuarded(s, r, SafeTerminal(r.stable, Forbidden), Some(TERMINAL_ENTRY)), t, r, ending)
      case PortInvalidated => WaitFor(s, t, r, Wipe(ExpiredOrRevoked, ReauthenticationRequired), ending)
      case PortMalformed => WaitFor(s, t, r, Wipe(SafeTerminalError, OwnerMismatch), ending)
  }

  function PublishAuthenticated(s: State, t: nat, r: Reservation, announce: bool, ending: Ending): State {
    var s1 := s.Publish(AUTHENTICATED_SNAPSHOT, ByVerifiedOwner(r.id));
    var s2 := if announce then s1.Enqueue(Authenticated, AUTHENTICATED_ENTRY) else s1;
    EndOperation(s2, t, r, ending)
  }

  function TimedOutJob(r: Reservation, timeout: TimeoutKind): FenceJob {
    if r.kind == RefreshKind && timeout == ProviderOrApiStep
    then Transition(OfflineFrom(r.stable, TimedOut), [OFFLINE_ENTRY])
    else if r.kind == CallbackKind then Transition(CallbackTerminal(r.stable, TimedOut), [TERMINAL_ENTRY])
    else Transition(SafeTerminal(r.stable, TimedOut), [TERMINAL_ENTRY])
  }

  function AfterTimeout(s: State, t: nat, r: Reservation, timeout: TimeoutKind, fired: bool): State {
    if !s.core.Accepts(r) || !fired then EndOperation(s, t, r, EndPlain)
    else WaitFor(s, t, r, TimedOutJob(r, timeout), EndPlain)
  }

  const CANCEL_DELAY := 500

  /** A cancel that is early gives up; one that is due aims at the generation it captured. */
  function AfterCancelClock(s: State, t: nat, r: Reservation, now: nat, job: FenceJob): State {
    if now < r.startedAt || now - r.startedAt < CANCEL_DELAY then s.Drop(t)
    else s.Drop(t).Spawn(Start(job, Some(r.generation)))
  }

  // ---------------------------------------------------------------- fences

  function ResumeStart(s: State, t: nat, job: FenceJob, expected: Option<nat>): State {
    var aim := if expected.Some? then expected.value else s.core.generation;
    var (core, taken) := s.core.InstallFence(aim);
    if taken.None? then NotReserved(s, t, core)
    else s.(core := core).Log(Fenced(aim)).Put(t, Fence(taken.value, job, CANCEL_PROVIDER, None))
  }

  function LoseFence(s: State, t: nat, f: Reservation): State {
    s.(core := s.core.Finish(f)).Drop(t)
  }

  function ResumeFence(s: State, t: nat, f: Reservation, job: FenceJob, stage: nat, done: Option<Mutation>,
                       input: Input): State {
    if IsWriteStage(job, stage) && done.None? then s
    else if !s.core.Accepts(f) then LoseFence(s, t, f)
    else if stage < ACTIVATE then s.Put(t, Fence(f, job, stage + 1, None))
    else
      match job
      case Transition(snapshot, payloads) => CommitTransition(s, t, f, snapshot, payloads)
      case Wipe(goal, outcome) => AdvanceWipe(s, t, f, goal, outcome, stage, done, input)
      case StoreFailure(stable) => AdvanceStoreFailure(s, t, f, stable, stage, done, input)
  }

  function CommitTransition(s: State, t: nat, f: Reservation, snapshot: Snapshot, payloads: seq<Payload>): State {
    var s1 := s.Publish(snapshot, ByTransition);
    var core := s1.core.EnqueueAll(f.generation, snapshot.state, payloads);
    s1.(core := core.Finish(f)).Drop(t)
  }

  function WipedSnapshot(goal: RuntimeState, outcome: Outcome): Snapshot {
    match goal
    case AccountSwitching => Snapshot(AccountSwitching, Absent, false, SignedOutScreen, Some(outcome))
    case ExpiredOrRevoked => Snapshot(ExpiredOrRevoked, Absent, false, SignedOutScreen, Some(outcome))
    case SafeTerminalError => Snapshot(SafeTerminalError, Absent, false, SignedOutScreen, Some(outcome))
    case _ => SignedOutSnapshot(outcome)
  }

  function WipeEntry(goal: RuntimeState, outcome: Outcome): Option<Payload> {
    match goal
    case AccountSwitching => Some(ACCOUNT_SWITCHING_ENTRY)
    case ExpiredOrRevoked => Some(SESSION_ENDED_ENTRY)
    case SignedOut => if outcome == Success then Some(SESSION_ENDED_ENTRY) else None
    case SafeTerminalError => Some(TERMINAL_ENTRY)
    case _ => None
  }

  function AdvanceWipe(s: State, t: nat, f: Reservation, goal: RuntimeState, outcome: Outcome, stage: nat,
                       done: Option<Mutation>, input: Input): State {
    if stage == ACTIVATE then s.Put(t, Fence(f, Wipe(goal, outcome), PURGE_CALLBACK, None))
    else if stage <= PURGE_OWNER then
      if done == Some(Applied) then s.Put(t, Fence(f, Wipe(goal, outcome), stage + 1, None)) else s.Latch().Drop(t)
    else if !input.Confirmed? then s
    else if !input.empty then s.Latch().Drop(t)
    else if stage < CONFIRM_OWNER then s.Put(t, Fence(f, Wipe(goal, outcome), stage + 1, None))
    else PublishWipe(s, t, f, goal, outcome)
  }

  function PublishWipe(s: State, t: nat, f: Reservation, goal: RuntimeState, outcome: Outcome): State {
    var snapshot := WipedSnapshot(goal, outcome);
    var s1 := s.Publish(snapshot, ByWipe);
    var entry := WipeEntry(goal, outcome);
    var s2 := if entry.Some? then s1.Enqueue(snapshot.state, entry.value) else s1;
    s2.(core := s2.core.Finish(f)).Drop(t)
  }

  function AdvanceStoreFailure(s: State, t: nat, f: Reservation, stable: Snapshot, stage: nat,
                               done: Option<Mutation>, input: Input): State {
    if stage == ACTIVATE then s.Put(t, Fence(f, StoreFailure(stable), PURGE_CALLBACK, None))
    else if stage == PURGE_CALLBACK then
      if done == Some(Applied) then s.Put(t, Fence(f, StoreFailure(stable), CONFIRM_PURGE, None)) else s.Latch().Drop(t)
    else if !input.Confirmed? then s
    else if !input.empty then s.Latch().Drop(t)
    else
      var failed := CallbackTerminal(stable, TransientFailure);
      var s1 := s.Publish(failed, ByStoreFailure).Enqueue(failed.state, TERMINAL_ENTRY);
      s1.(core := s1.core.Finish(f)).Drop(t)
  }

  // ---------------------------------------------------------------- runs

  function Step(s: State, a: Action): State {
    match a
    case Call(request) => CallStep(s, request)
    case Perform(t, wish) => PerformStep(s, t, wish)
    case ReadVault(t, refusal) => ReadVaultStep(s, t, refusal)
    case Resume(t, input) => ResumeStep(s, t, input)
  }

  function Run(s: State, actions: seq<Action>): State
    decreases |actions|
  {
    if actions == [] then s else Step(Run(s, actions[..|actions| - 1]), actions[|actions| - 1])
  }

  function InitialState(generation: nat, ports: Ports): State {
    State(InitialCore(generation), ports, map[], 0, [])
  }
}
