/**
 Who holds which reservation: the part of the invariant that the coordinator
 keeps with generation numbers and reservation ids alone.
 */
module AuthStructure {
  import opened Basics
  import opened AuthKernel
  import opened AuthRuntime

  /** Helper tasks and cancels hold a reservation without ever finishing it. */
  predicate Finishes(at: OpPoint) {
    !at.AtInitTimer? && !at.AtRefreshTimer? && !at.AtCancelCallbackClock? && !at.AtCancelRefreshClock?
  }

  predicate Owns(task: Task, a: Reservation) {
    || (task.Op? && task.r == a && Finishes(task.at))
    || (task.Fence? && task.f == a)
  }

  ghost predicate TaskNumbers(core: Core, task: Task) {
    match task
    case Op(r, _) => r.generation <= core.generation && r.id < core.nextReservation && r.kind != CleanupKind
    case Fence(f, _, _, _) => f.generation <= core.generation && f.id < core.nextReservation && f.kind == CleanupKind
    case Start(job, expected) =>
      && (expected.Some? ==> expected.value <= core.generation)
      && (expected.None? ==> job.Wipe?)
    case _ => true
  }

  /** Nothing else aims at, or works in, the generation that a live fence opened. */
  predicate Apart(task: Task, f: Reservation) {
    match task
    case Op(r, _) => r.generation != f.generation && r.id != f.id
    case Fence(g, _, _, _) => g.generation != f.generation && g.id != f.id
    case Start(_, expected) => expected != Some(f.generation)
    case _ => true
  }

  ghost predicate Numbered(s: State) {
    && s.core.generation <= MAX_GENERATION
    && forall t | t in s.tasks :: t < s.nextTask && TaskNumbers(s.core, s.tasks[t])
  }

  ghost predicate Separated(s: State) {
    forall t, u | t in s.tasks && u in s.tasks && t != u && s.tasks[u].Fence? :: Apart(s.tasks[t], s.tasks[u].f)
  }

  ghost predicate FencesHold(s: State) {
    forall u | u in s.tasks && s.tasks[u].Fence? && s.tasks[u].f.generation == s.core.generation && !s.core.terminal ::
      s.core.active == Some(s.tasks[u].f)
  }

  ghost predicate ActiveOwned(s: State) {
    s.core.active.Some? ==>
      && !s.core.terminal
      && s.core.active.value.generation == s.core.generation
      && s.core.active.value.id < s.core.nextReservation
      && exists t :: t in s.tasks && Owns(s.tasks[t], s.core.active.value)
  }

  ghost predicate Structure(s: State) {
    Numbered(s) && Separated(s) && FencesHold(s) && ActiveOwned(s)
  }

  lemma EnqueueAllFrame(core: Core, g: nat, origin: RuntimeState, payloads: seq<Payload>)
    ensures core.EnqueueAll(g, origin, payloads)
      == core.(effects := core.EnqueueAll(g, origin, payloads).effects,
               effectHistory := core.EnqueueAll(g, origin, payloads).effectHistory,
               nextSequence := core.EnqueueAll(g, origin, payloads).nextSequence)
    decreases |payloads|
  {
    if payloads != [] { EnqueueAllFrame(core.Enqueue(g, origin, payloads[0]), g, origin, payloads[1..]); }
  }

  /** A step that leaves every reservation alone: the tasks it may rewrite keep theirs. */
  ghost predicate SameHoldings(before: Task, after: Task) {
    || before == after
    || (before.Op? && after.Op? && before.r == after.r && (Finishes(before.at) ==> Finishes(after.at)))
    || (before.Fence? && after.Fence? && before.f == after.f)
  }

  ghost predicate SameStanding(core: Core, core': Core) {
    && core'.generation == core.generation && core'.terminal == core.terminal
    && core'.active == core.active && core'.nextReservation == core.nextReservation
  }

  /** Publishing, queueing and moving task `t` on within its holding. */
  lemma KeepMove(s: State, s': State, t: nat)
    requires Structure(s) && t in s.tasks && SameStanding(s.core, s'.core) && s'.nextTask == s.nextTask
    requires t in s'.tasks && s'.tasks == s.tasks[t := s'.tasks[t]] && SameHoldings(s.tasks[t], s'.tasks[t])
    ensures Structure(s')
  {
    if s.core.active.Some? {
      var o :| o in s.tasks && Owns(s.tasks[o], s.core.active.value);
      assert o in s'.tasks && Owns(s'.tasks[o], s'.core.active.value);
    }
  }

  /** A task that holds nothing the actor relies on ends. */
  lemma KeepDrop(s: State, s': State, t: nat)
    requires Structure(s) && t in s.tasks && SameStanding(s.core, s'.core) && s'.nextTask == s.nextTask
    requires s'.tasks == s.tasks - {t}
    requires s.core.active.Some? ==> !Owns(s.tasks[t], s.core.active.value)
    ensures Structure(s')
  {
    if s.core.active.Some? {
      var o :| o in s.tasks && Owns(s.tasks[o], s.core.active.value);
      assert o in s'.tasks && Owns(s'.tasks[o], s'.core.active.value);
    }
  }

  /** A new task that is apart from every live fence. */
  lemma KeepSpawn(s: State, task: Task)
    requires Structure(s) && TaskNumbers(s.core, task) && !task.Fence?
    requires forall u | u in s.tasks && s.tasks[u].Fence? :: Apart(task, s.tasks[u].f)
    ensures Structure(s.Spawn(task))
  {
    var s' := s.Spawn(task);
    if s.core.active.Some? {
      var o :| o in s.tasks && Owns(s.tasks[o], s.core.active.value);
      assert o in s'.tasks && Owns(s'.tasks[o], s'.core.active.value);
    }
  }

  /** A task ends and finishes its own reservation. */
  lemma KeepFinish(s: State, s': State, t: nat, r: Reservation)
    requires Structure(s) && t in s.tasks
    requires (s.tasks[t].Op? && s.tasks[t].r == r) || (s.tasks[t].Fence? && s.tasks[t].f == r)
    requires SameStanding(s.core.Finish(r), s'.core) && s'.tasks == s.tasks - {t} && s'.nextTask == s.nextTask
    ensures Structure(s')
  {
    if s'.core.active.Some? {
      var o :| o in s.tasks && Owns(s.tasks[o], s.core.active.value);
      assert o in s'.tasks && Owns(s'.tasks[o], s'.core.active.value);
    }
    forall u | u in s'.tasks && s'.tasks[u].Fence? && s'.tasks[u].f.generation == s'.core.generation && !s'.core.terminal
      ensures s'.core.active == Some(s'.tasks[u].f)
    {
      assert Apart(s.tasks[t], s.tasks[u].f);
    }
  }

  lemma KeepLatch(s: State, s': State, t: nat)
    requires Structure(s) && t in s.tasks && s'.core.terminal && s'.core.active.None?
    requires s'.core.generation == s.core.generation && s'.core.nextReservation == s.core.nextReservation
    requires s'.tasks == s.tasks - {t} && s'.nextTask == s.nextTask
    ensures Structure(s')
  {
  }

  /** An operation reserves: no fence can be alive in the current generation. */
  lemma KeepReserve(s: State, s': State, t: nat)
    requires Structure(s) && t in s.tasks && s.core.active.None? && !s.core.terminal
    requires s'.nextTask == s.nextTask && t in s'.tasks && s'.tasks == s.tasks[t := s'.tasks[t]]
    requires s'.tasks[t].Op? && Finishes(s'.tasks[t].at) && s'.tasks[t].r.kind != CleanupKind
    requires s'.tasks[t].r.generation == s.core.generation && s'.tasks[t].r.id == s.core.nextReservation
    requires SameStanding(s.core.Take(s'.tasks[t].r), s'.core)
    ensures Structure(s')
  {
    assert t in s'.tasks && Owns(s'.tasks[t], s'.core.active.value);
  }

  /** A fence opens the next generation. */
  lemma KeepFence(s: State, s': State, t: nat)
    requires Structure(s) && t in s.tasks && !s.core.terminal && s.core.generation < MAX_GENERATION
    requires s'.nextTask == s.nextTask && t in s'.tasks && s'.tasks == s.tasks[t := s'.tasks[t]]
    requires s'.tasks[t].Fence? && s'.tasks[t].f.kind == CleanupKind
    requires s'.tasks[t].f.generation == s.core.generation + 1 && s'.tasks[t].f.id == s.core.nextReservation
    requires s'.core.generation == s.core.generation + 1 && s'.core.nextReservation == s.core.nextReservation + 1
    requires s'.core.active == Some(s'.tasks[t].f) && !s'.core.terminal
    ensures Structure(s')
  {
    assert t in s'.tasks && Owns(s'.tasks[t], s'.core.active.value);
  }

  // ---------------------------------------------------------------- every step

  lemma CallKeepsStructure(s: State, request: Request)
    requires Structure(s)
    ensures Structure(CallStep(s, request))
  {
    match request
    case CancelCallback => CancelKeepsStructure(s, CallbackKind, AtCancelCallbackClock);
    case CancelRefresh => CancelKeepsStructure(s, RefreshKind, AtCancelRefreshClock);
    case Initialize(online) => KeepSpawn(s, Enter(EnterInitialize(online)));
    case ReceiveCallback => KeepSpawn(s, Enter(EnterCallback));
    case Handle401(candidate) => KeepSpawn(s, Enter(EnterRefresh(candidate)));
    case ScheduleTimeout(timeout) => KeepSpawn(s, Enter(EnterTimeout(timeout)));
    case SignOutRequest => KeepSpawn(s, Start(Wipe(SignedOut, Success), None));
    case SwitchAccountRequest => KeepSpawn(s, Start(Wipe(AccountSwitching, Success), None));
    case ScheduleAnnouncement(message, priority) =>
      KeepSpawn(s, Announce(s.core.generation, s.core.stateVersion, s.core.snapshot.state, message, priority));
    case _ =>
  }

  lemma CancelKeepsStructure(s: State, kind: OperationKind, at: OpPoint)
    requires Structure(s) && kind != CleanupKind
    ensures Structure(CancelStep(s, kind, at))
  {
    if CancelStep(s, kind, at) != s {
      var o :| o in s.tasks && Owns(s.tasks[o], s.core.active.value);
      KeepSpawn(s, Op(s.core.active.value, at));
    }
  }

  lemma PerformKeepsStructure(s: State, t: nat, wish: Mutation)
    requires Structure(s)
    ensures Structure(PerformStep(s, t, wish))
  {
    var s' := PerformStep(s, t, wish);
    if t in s.tasks { KeepMove(s, s', t); }
  }

  lemma ReadVaultKeepsStructure(s: State, t: nat, refusal: Option<PortResult<Option<Candidate>>>)
    requires Structure(s)
    ensures Structure(ReadVaultStep(s, t, refusal))
  {
    if t in s.tasks { KeepMove(s, ReadVaultStep(s, t, refusal), t); }
  }

  lemma NotReservedKeepsStructure(s: State, t: nat, core: Core)
    requires Structure(s) && t in s.tasks
    requires forall a: Reservation :: !Owns(s.tasks[t], a)
    ensures Structure(NotReserved(s, t, core))
  {
    if core.terminal && !s.core.terminal {
      KeepLatch(s, NotReserved(s, t, core), t);
    } else {
      KeepDrop(s, NotReserved(s, t, core), t);
    }
  }

  lemma WaitKeepsStructure(s: State, t: nat, r: Reservation, job: FenceJob, ending: Ending)
    requires Structure(s) && t in s.tasks && s.tasks[t].Op? && s.tasks[t].r == r
    ensures Structure(WaitFor(s, t, r, job, ending))
  {
    var s1 := s.Put(t, Op(r, AtJoin(s.nextTask, ending)));
    KeepMove(s, s1, t);
    KeepSpawn(s1, Start(job, Some(r.generation)));
  }

  lemma EndKeepsStructure(s: State, t: nat, r: Reservation, ending: Ending)
    requires Structure(s) && t in s.tasks && s.tasks[t].Op? && s.tasks[t].r == r
    ensures Structure(EndOperation(s, t, r, ending))
  {
    match ending
    case EndPlain => KeepFinish(s, EndOperation(s, t, r, ending), t, r);
    case _ => KeepMove(s, EndOperation(s, t, r, ending), t);
  }

  lemma PublishKeepsStructure(s: State, r: Reservation, sn: Snapshot, payload: Option<Payload>, t: nat)
    requires Structure(s) && t in s.tasks
    ensures Structure(PublishGuarded(s, r, sn, payload))
    ensures PublishGuarded(s, r, sn, payload).tasks == s.tasks
  {
    KeepMove(s, PublishGuarded(s, r, sn, payload), t);
  }

  lemma EnterKeepsStructure(s: State, t: nat, entering: Entering, now: nat)
    requires Structure(s) && t in s.tasks && s.tasks[t] == Enter(entering)
    ensures Structure(ResumeEnter(s, t, entering, now))
  {
    match entering
    case EnterInitialize(online) =>
      var (core, taken) := s.core.Reserve(InitializeKind, now);
      if taken.None? { NotReservedKeepsStructure(s, t, core); } else {
        var s1 := s.(core := core).Put(t, Op(taken.value, AtInitYield(online, s.nextTask)));
        KeepReserve(s, s1, t);
        KeepSpawn(s1, Op(taken.value, AtInitTimer));
      }
    case EnterCallback =>
      var (core, taken) := s.core.Reserve(CallbackKind, now);
      if taken.None? { NotReservedKeepsStructure(s, t, core); } else {
        KeepReserve(s, s.(core := core).Put(t, Op(taken.value, AtConsume)), t);
      }
    case EnterRefresh(candidate) => RefreshEntryKeepsStructure(s, t, candidate, now);
    case EnterTimeout(timeout) => TimeoutKeepsStructure(s, t, timeout, now);
  }

  lemma RefreshEntryKeepsStructure(s: State, t: nat, candidate: Candidate, now: nat)
    requires Structure(s) && t in s.tasks && s.tasks[t] == Enter(EnterRefresh(candidate))
    ensures Structure(ResumeEnter(s, t, EnterRefresh(candidate), now))
  {
    var (core, taken) := s.core.Reserve(RefreshKind, now);
    if taken.None? { NotReservedKeepsStructure(s, t, core); } else {
      var r := taken.value;
      var s1 := s.(core := core).Put(t, Op(r, AtRefresh(s.nextTask)));
      KeepReserve(s, s1, t);
      BegunKeepsStructure(s.(core := core), s1, t, r);
    }
  }

  lemma BegunKeepsStructure(s: State, s1: State, t: nat, r: Reservation)
    requires Structure(s1) && s1 == s.Put(t, Op(r, AtRefresh(s.nextTask)))
    ensures Structure(BeginRefresh(s, t, r))
  {
    if s.core.refreshAttempted == Some(r.generation) {
      WaitKeepsStructure(s1, t, r, Wipe(ExpiredOrRevoked, ReauthenticationRequired), EndPlain);
      assert s1.Put(t, Op(r, AtJoin(s.nextTask, EndPlain))).tasks == s.Put(t, Op(r, AtJoin(s.nextTask, EndPlain))).tasks;
    } else {
      var s3 := s.(core := s.core.(refreshAttempted := Some(r.generation)))
        .Publish(RefreshPendingFrom(r.stable), ByOperation).Log(RefreshCalled(r.generation))
        .Put(t, Op(r, AtRefresh(s.nextTask)));
      KeepMove(s1, s3, t);
      KeepSpawn(s3, Op(r, AtRefreshTimer));
    }
  }

  lemma TimeoutKeepsStructure(s: State, t: nat, timeout: TimeoutKind, now: nat)
    requires Structure(s) && t in s.tasks && s.tasks[t] == Enter(EnterTimeout(timeout))
    ensures Structure(ResumeEnter(s, t, EnterTimeout(timeout), now))
  {
    var (core, taken) := s.core.ReserveTimeout(now);
    if taken.None? { NotReservedKeepsStructure(s, t, core); }
    else if s.core.active.None? {
      KeepReserve(s, s.(core := core).Put(t, Op(taken.value, AtTimeoutSleep(timeout))), t);
    } else {
      var o :| o in s.tasks && Owns(s.tasks[o], s.core.active.value);
      var s' := s.(core := core).Put(t, Op(taken.value, AtTimeoutSleep(timeout)));
      assert t in s'.tasks && Owns(s'.tasks[t], s'.core.active.value);
    }
  }

  lemma OpKeepsStructure(s: State, t: nat, r: Reservation, at: OpPoint, input: Input)
    requires Structure(s) && t in s.tasks && s.tasks[t] == Op(r, at)
    ensures Structure(ResumeOp(s, t, r, at, input))
  {
    hide Structure;
    var s' := ResumeOp(s, t, r, at, input);
    match at
    case AtInitYield(_, _) => KeepMove(s, s', t);
    case AtVaultRead(online, timer, got) =>
      if got.Some? { VaultReadKeepsStructure(s, t, r, online, timer, got.value); }
    case AtInitTimer => KeepDrop(s, s', t);
    case AtRefreshTimer => KeepDrop(s, s', t);
    case AtConsume => if input.ConsumeAnswer? { ConsumeKeepsStructure(s, t, r, input.consumed); }
    case AtExchange =>
      if input.ExchangeAnswer? { ExchangeKeepsStructure(s, t, r, input.exchanged, input.cancelled); }
    case AtRefresh(timer) => if input.RefreshAnswer? { RefreshKeepsStructure(s, t, r, timer, input.refreshed); }
    case AtTimeoutSleep(timeout) =>
      if input.Fired? {
        if !s.core.Accepts(r) || !input.fired { EndKeepsStructure(s, t, r, EndPlain); }
        else { WaitKeepsStructure(s, t, r, TimedOutJob(r, timeout), EndPlain); }
      }
    case AtCancelCallbackClock =>
      if input.Clock? { CancelClockKeepsStructure(s, t, r, input.milliseconds, Transition(CanceledFrom(r.stable), [])); }
    case AtCancelRefreshClock =>
      if input.Clock? {
        CancelClockKeepsStructure(s, t, r, input.milliseconds, Transition(OfflineFrom(r.stable, Canceled), [OFFLINE_ENTRY]));
      }
    case AtVerify(candidate, announce, ending) =>
      if input.VerifyAnswer? { VerifyKeepsStructure(s, t, r, candidate, announce, ending, input.verified); }
    case AtReplace(candidate, subject, announce, ending, written) =>
      if written.Some? {
        if !s.core.Accepts(r) { EndKeepsStructure(s, t, r, ending); }
        else if written.value != Applied { WaitKeepsStructure(s, t, r, Wipe(SafeTerminalError, VaultCorrupt), ending); }
        else { KeepMove(s, s', t); }
      }
    case AtBind(candidate, subject, announce, ending, written) =>
      if written.Some? {
        if !s.core.Accepts(r) { EndKeepsStructure(s, t, r, ending); }
        else if written.value != Applied { WaitKeepsStructure(s, t, r, Wipe(SafeTerminalError, OwnerMismatch), ending); }
        else {
          var s1 := s.Publish(AUTHENTICATED_SNAPSHOT, ByVerifiedOwner(r.id));
          var s2 := if announce then s1.Enqueue(Authenticated, AUTHENTICATED_ENTRY) else s1;
          KeepMove(s, s2, t);
          EndKeepsStructure(s2, t, r, ending);
        }
      }
    case AtJoin(child, ending) => if child !in s.tasks { EndKeepsStructure(s, t, r, ending); }
    case AtEndCancelTimers(_, _) => KeepMove(s, s', t);
    case AtEndJoinTimer(timer, ending) => if timer !in s.tasks { KeepFinish(s, s', t, r); }
  }

  lemma VaultReadKeepsStructure(s: State, t: nat, r: Reservation, online: bool, timer: nat,
                                got: PortResult<Option<Candidate>>)
    requires Structure(s) && t in s.tasks && s.tasks[t].Op? && s.tasks[t].r == r && Finishes(s.tasks[t].at)
    ensures Structure(AfterVaultRead(s, t, r, online, timer, got))
  {
    var ending := EndInitialize(timer);
    if !s.core.Accepts(r) { EndKeepsStructure(s, t, r, ending); }
    else if got.PortInvalidated? || got.PortMalformed? {
      WaitKeepsStructure(s, t, r, Wipe(SafeTerminalError, VaultCorrupt), ending);
    } else if got.PortSuccess? && got.value.Some? && online {
      KeepMove(s, AfterVaultRead(s, t, r, online, timer, got), t);
    } else {
      PublishThenEnd(s, t, r, ending);
    }
  }

  /** Whatever an operation publishes before it ends leaves the holdings alone. */
  lemma PublishThenEnd(s: State, t: nat, r: Reservation, ending: Ending)
    requires Structure(s) && t in s.tasks && s.tasks[t].Op? && s.tasks[t].r == r && Finishes(s.tasks[t].at)
    ensures forall sn, payload :: Structure(EndOperation(PublishGuarded(s, r, sn, payload), t, r, ending))
  {
    forall sn, payload ensures Structure(EndOperation(PublishGuarded(s, r, sn, payload), t, r, ending)) {
      PublishKeepsStructure(s, r, sn, payload, t);
      EndKeepsStructure(PublishGuarded(s, r, sn, payload), t, r, ending);
    }
  }

  lemma ConsumeKeepsStructure(s: State, t: nat, r: Reservation, consumed: ConsumeResult)
    requires Structure(s) && t in s.tasks && s.tasks[t].Op? && s.tasks[t].r == r && Finishes(s.tasks[t].at)
    ensures Structure(AfterConsume(s, t, r, consumed))
  {
    if !s.core.Accepts(r) || consumed.ConsumeDuplicate? || consumed.ConsumeStale? {
      EndKeepsStructure(s, t, r, EndPlain);
    } else if consumed.Consumed? {
      KeepMove(s, AfterConsume(s, t, r, consumed), t);
    } else {
      WaitAny(s, t, r, EndPlain);
    }
  }

  lemma WaitAny(s: State, t: nat, r: Reservation, ending: Ending)
    requires Structure(s) && t in s.tasks && s.tasks[t].Op? && s.tasks[t].r == r
    ensures forall job :: Structure(WaitFor(s, t, r, job, ending))
  {
    forall job ensures Structure(WaitFor(s, t, r, job, ending)) { WaitKeepsStructure(s, t, r, job, ending); }
  }

  lemma ExchangeKeepsStructure(s: State, t: nat, r: Reservation, exchanged: PortResult<Candidate>, cancelled: bool)
    requires Structure(s) && t in s.tasks && s.tasks[t].Op? && s.tasks[t].r == r && Finishes(s.tasks[t].at)
    ensures Structure(AfterExchange(s, t, r, exchanged, cancelled))
  {
    if cancelled || !s.core.Accepts(r) { EndKeepsStructure(s, t, r, EndPlain); }
    else if exchanged.PortSuccess? { KeepMove(s, AfterExchange(s, t, r, exchanged, cancelled), t); }
    else { WaitAny(s, t, r, EndPlain); }
  }

  lemma RefreshKeepsStructure(s: State, t: nat, r: Reservation, timer: nat, refreshed: PortResult<Candidate>)
    requires Structure(s) && t in s.tasks && s.tasks[t].Op? && s.tasks[t].r == r && Finishes(s.tasks[t].at)
    ensures Structure(AfterRefresh(s, t, r, timer, refreshed))
  {
    var ending := EndRefresh(timer);
    if !s.core.Accepts(r) { EndKeepsStructure(s, t, r, ending); }
    else if refreshed.PortSuccess? { KeepMove(s, AfterRefresh(s, t, r, timer, refreshed), t); }
    else if refreshed.PortInvalidated? || refreshed.PortMalformed? { WaitAny(s, t, r, ending); }
    else { PublishThenEnd(s, t, r, ending); }
  }

  lemma VerifyKeepsStructure(s: State, t: nat, r: Reservation, candidate: Candidate, announce: bool, ending: Ending,
                             verified: PortResult<Subject>)
    requires Structure(s) && t in s.tasks && s.tasks[t].Op? && s.tasks[t].r == r && Finishes(s.tasks[t].at)
    ensures Structure(AfterVerify(s, t, r, candidate, announce, ending, verified))
  {
    if !s.core.Accepts(r) { EndKeepsStructure(s, t, r, ending); }
    else if verified.PortSuccess? { KeepMove(s, AfterVerify(s, t, r, candidate, announce, ending, verified), t); }
    else if verified.PortInvalidated? || verified.PortMalformed? { WaitAny(s, t, r, ending); }
    else { PublishThenEnd(s, t, r, ending); }
  }

  lemma CancelClockKeepsStructure(s: State, t: nat, r: Reservation, now: nat, job: FenceJob)
    requires Structure(s) && t in s.tasks && s.tasks[t].Op? && s.tasks[t].r == r && !Finishes(s.tasks[t].at)
    ensures Structure(AfterCancelClock(s, t, r, now, job))
  {
    KeepDrop(s, s.Drop(t), t);
    if now >= r.startedAt && now - r.startedAt >= CANCEL_DELAY {
      KeepSpawn(s.Drop(t), Start(job, Some(r.generation)));
    }
  }

  lemma StartKeepsStructure(s: State, t: nat, job: FenceJob, expected: Option<nat>)
    requires Structure(s) && t in s.tasks && s.tasks[t] == Start(job, expected)
    ensures Structure(ResumeStart(s, t, job, expected))
  {
    var aim := if expected.Some? then expected.value else s.core.generation;
    var (core, taken) := s.core.InstallFence(aim);
    if taken.None? { NotReservedKeepsStructure(s, t, core); }
    else { KeepFence(s, ResumeStart(s, t, job, expected), t); }
  }

  lemma FenceKeepsStructure(s: State, t: nat, f: Reservation, job: FenceJob, stage: nat, done: Option<Mutation>,
                            input: Input)
    requires Structure(s) && t in s.tasks && s.tasks[t] == Fence(f, job, stage, done)
    ensures Structure(ResumeFence(s, t, f, job, stage, done, input))
  {
    if IsWriteStage(job, stage) && done.None? {
    } else if !s.core.Accepts(f) {
      KeepFinish(s, LoseFence(s, t, f), t, f);
    } else if stage < ACTIVATE {
      KeepMove(s, s.Put(t, Fence(f, job, stage + 1, None)), t);
    } else {
      match job
      case Transition(snapshot, payloads) =>
        EnqueueAllFrame(s.core.Publish(snapshot), f.generation, snapshot.state, payloads);
        KeepFinish(s, CommitTransition(s, t, f, snapshot, payloads), t, f);
      case Wipe(goal, outcome) => WipeKeepsStructure(s, t, f, goal, outcome, stage, done, input);
      case StoreFailure(stable) => StoreFailureKeepsStructure(s, t, f, stable, stage, done, input);
    }
  }

  lemma WipeKeepsStructure(s: State, t: nat, f: Reservation, goal: RuntimeState, outcome: Outcome, stage: nat,
                           done: Option<Mutation>, input: Input)
    requires Structure(s) && t in s.tasks && s.tasks[t].Fence? && s.tasks[t].f == f
    ensures Structure(AdvanceWipe(s, t, f, goal, outcome, stage, done, input))
  {
    KeepLatch(s, s.Latch().Drop(t), t);
    KeepMove(s, s.Put(t, Fence(f, Wipe(goal, outcome), stage + 1, None)), t);
    PublishWipeKeepsStructure(s, t, f, goal, outcome);
  }

  lemma PublishWipeKeepsStructure(s: State, t: nat, f: Reservation, goal: RuntimeState, outcome: Outcome)
    requires Structure(s) && t in s.tasks && s.tasks[t].Fence? && s.tasks[t].f == f
    ensures Structure(PublishWipe(s, t, f, goal, outcome))
  {
    KeepFinish(s, PublishWipe(s, t, f, goal, outcome), t, f);
  }

  lemma StoreFailureKeepsStructure(s: State, t: nat, f: Reservation, stable: Snapshot, stage: nat,
                                   done: Option<Mutation>, input: Input)
    requires Structure(s) && t in s.tasks && s.tasks[t].Fence? && s.tasks[t].f == f
    ensures Structure(AdvanceStoreFailure(s, t, f, stable, stage, done, input))
  {
    var s' := AdvanceStoreFailure(s, t, f, stable, stage, done, input);
    if t in s'.tasks { KeepMove(s, s', t); }
    else if s' == s.Latch().Drop(t) { KeepLatch(s, s', t); }
    else { KeepFinish(s, s', t, f); }
  }

  lemma ResumeKeepsStructure(s: State, t: nat, input: Input)
    requires Structure(s)
    ensures Structure(ResumeStep(s, t, input))
  {
    if t in s.tasks {
      match s.tasks[t]
      case Enter(entering) => if input.Clock? { EnterKeepsStructure(s, t, entering, input.milliseconds); }
      case Op(r, at) => OpKeepsStructure(s, t, r, at, input);
      case Start(job, expected) => StartKeepsStructure(s, t, job, expected);
      case Fence(f, job, stage, done) => FenceKeepsStructure(s, t, f, job, stage, done, input);
      case Announce(_, _, _, _, _) => KeepDrop(s, ResumeStep(s, t, input), t);
    }
  }

  lemma StepKeepsStructure(s: State, a: Action)
    requires Structure(s)
    ensures Structure(Step(s, a))
  {
    match a
    case Call(request) => CallKeepsStructure(s, request);
    case Perform(t, wish) => PerformKeepsStructure(s, t, wish);
    case ReadVault(t, refusal) => ReadVaultKeepsStructure(s, t, refusal);
    case Resume(t, input) => ResumeKeepsStructure(s, t, input);
  }
}
