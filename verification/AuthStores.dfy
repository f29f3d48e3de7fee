/**
 What the session vault and the owner store hold while writes of many
 generations are still in flight: nothing once a wipe has been published, and
 something whenever a verified owner is claimed and no wipe is under way.
 */
module AuthStores {
  import opened Basics
  import opened AuthKernel
  import opened AuthRuntime
  import opened AuthStructure
  import opened AuthEvidence

  predicate Wiped(s: State) {
    IsWipedState(s.core.snapshot.state)
  }

  /** A write whose port call has been issued and has not taken effect. */
  predicate Pending(at: OpPoint) {
    (at.AtReplace? || at.AtBind?) && at.written.None?
  }

  /** Points from which the operation may still go on to write. */
  predicate MayWrite(at: OpPoint) {
    || at.AtExchange? || at.AtRefresh? || at.AtVerify? || at.AtReplace? || at.AtBind?
    || (at.AtVaultRead? && at.got.Some? && at.got.value.PortSuccess? && at.got.value.value.Some?)
  }

  predicate HasReplaced(at: OpPoint) {
    at.AtBind? || (at.AtReplace? && at.written == Some(Applied))
  }

  predicate HasBound(at: OpPoint) {
    at.AtBind? && at.written == Some(Applied)
  }

  predicate Past(stage: nat, done: Option<Mutation>, k: nat) {
    stage > k || (stage == k && done == Some(Applied))
  }

  predicate IsWiper(task: Task, generation: nat) {
    task.Fence? && task.job.Wipe? && task.f.generation == generation
  }

  ghost predicate Wiping(s: State) {
    exists t :: t in s.tasks && IsWiper(s.tasks[t], s.core.generation)
  }

  ghost predicate OpStores(s: State, r: Reservation, at: OpPoint) {
    && (Wiped(s) && Pending(at) ==> r.generation < s.ports.cell)
    && (r.generation == s.core.generation && MayWrite(at) ==> !Wiped(s))
    && (r.generation == s.core.generation && !s.core.terminal ==>
          (HasReplaced(at) ==> s.ports.vault.Some?) && (HasBound(at) ==> s.ports.owner.Some?))
  }

  ghost predicate WipeStores(s: State, f: Reservation, stage: nat, done: Option<Mutation>) {
    && (f.generation == s.core.generation && !s.core.terminal ==>
          && (Past(stage, done, PURGE_CALLBACK) ==> f.generation <= s.ports.cell)
          && (Past(stage, done, CLEAR_VAULT) ==> s.ports.vault.None?)
          && (Past(stage, done, PURGE_OWNER) ==> s.ports.owner.None?))
    && (f.generation < s.core.generation && !s.core.terminal && !Wiping(s) ==> f.generation < s.ports.cell)
  }

  ghost predicate TaskStores(s: State, task: Task) {
    match task
    case Op(r, at) => OpStores(s, r, at)
    case Fence(f, job, stage, done) => job.Wipe? ==> WipeStores(s, f, stage, done)
    case _ => true
  }

  ghost predicate Holding(s: State) {
    s.ports.vault.Some? && s.ports.owner.Some?
  }

  ghost predicate Stores(s: State) {
    && (Wiped(s) ==> s.ports.vault.None? && s.ports.owner.None?)
    && (OwnerProven(s.log) && !s.core.terminal && !Wiping(s) ==> Holding(s))
    && forall t | t in s.tasks :: TaskStores(s, s.tasks[t])
  }

  // ---------------------------------------------------------------- kinds of change

  /** The ports and the standing of the actor stay; a published snapshot is no wiped one. */
  ghost predicate Calm(s: State, s': State) {
    && s'.ports == s.ports && s'.core.generation == s.core.generation && s'.core.terminal == s.core.terminal
    && (Wiped(s') ==> Wiped(s))
    && (OwnerProven(s'.log) ==> OwnerProven(s.log) || Holding(s))
  }

  lemma MoveStores(s: State, s': State, t: nat)
    requires Stores(s) && Calm(s, s') && t in s.tasks && t in s'.tasks && s'.tasks == s.tasks[t := s'.tasks[t]]
    requires IsWiper(s'.tasks[t], s.core.generation) == IsWiper(s.tasks[t], s.core.generation)
    requires TaskStores(s, s.tasks[t]) && Wiping(s') == Wiping(s) ==> TaskStores(s', s'.tasks[t])
    ensures Stores(s')
  {
    SameWiping(s, s', t);
  }

  lemma SameWiping(s: State, s': State, t: nat)
    requires s'.core.generation == s.core.generation
    requires t in s.tasks && t in s'.tasks && s'.tasks == s.tasks[t := s'.tasks[t]]
    requires IsWiper(s'.tasks[t], s.core.generation) == IsWiper(s.tasks[t], s.core.generation)
    ensures Wiping(s') == Wiping(s)
  {
    if Wiping(s) {
      var o :| o in s.tasks && IsWiper(s.tasks[o], s.core.generation);
      assert o in s'.tasks && IsWiper(s'.tasks[o], s.core.generation);
    }
    if Wiping(s') {
      var o :| o in s'.tasks && IsWiper(s'.tasks[o], s.core.generation);
      assert o in s.tasks && IsWiper(s.tasks[o], s.core.generation);
    }
  }

  lemma DropStores(s: State, s': State, t: nat)
    requires Stores(s) && Calm(s, s') && t in s.tasks && s'.tasks == s.tasks - {t}
    requires IsWiper(s.tasks[t], s.core.generation) ==> s.core.terminal
    ensures Stores(s')
  {
    if Wiping(s) && !s.core.terminal {
      var o :| o in s.tasks && IsWiper(s.tasks[o], s.core.generation);
      assert o in s'.tasks && IsWiper(s'.tasks[o], s.core.generation);
    }
  }

  lemma SpawnStores(s: State, task: Task)
    requires Stores(s) && TaskStores(s, task) && !task.Fence? && forall t | t in s.tasks :: t < s.nextTask
    ensures Stores(s.Spawn(task))
  {
    var s' := s.Spawn(task);
    if Wiping(s) {
      var o :| o in s.tasks && IsWiper(s.tasks[o], s.core.generation);
      assert o in s'.tasks && IsWiper(s'.tasks[o], s.core.generation);
    }
    if Wiping(s') {
      var o :| o in s'.tasks && IsWiper(s'.tasks[o], s.core.generation);
      assert o in s.tasks && IsWiper(s.tasks[o], s.core.generation);
    }
    assert Wiping(s') == Wiping(s);
  }

  /** Once latched, only the wiped-snapshot clauses are left, and the snapshot is not wiped. */
  lemma LatchStores(s: State, t: nat)
    requires Stores(s)
    ensures Stores(s.Latch().Drop(t))
  {
  }

  lemma NotReservedKeepsStores(s: State, t: nat, core: Core)
    requires Stores(s) && t in s.tasks && !s.tasks[t].Fence?
    ensures Stores(NotReserved(s, t, core))
  {
    LatchStores(s, t);
    DropStores(s, s.Drop(t), t);
  }

  /** Only the authenticated publication adds a proof. */
  lemma ProofNeedsVerification(log: seq<Event>, e: Event)
    requires OwnerProven(log + [e]) && !(e.Published? && e.source.ByVerifiedOwner?)
    ensures OwnerProven(log) && !IsWipe(e)
  {
    var log' := log + [e];
    var a: nat :| AuthenticatedAt(log', a) && NoWipeAfter(log', a);
    assert a < |log|;
    assert log'[|log|] == e;
    assert log'[..a] == log[..a];
    assert forall i | 0 <= i < |log| :: log[i] == log'[i];
    assert AuthenticatedAt(log, a) && NoWipeAfter(log, a);
  }

  lemma NoNewProof(log: seq<Event>, e: Event)
    requires !(e.Published? && e.source.ByVerifiedOwner?)
    ensures OwnerProven(log + [e]) ==> OwnerProven(log)
  {
    if OwnerProven(log + [e]) { ProofNeedsVerification(log, e); }
  }

  lemma EndKeepsStores(s: State, t: nat, r: Reservation, ending: Ending)
    requires Stores(s) && t in s.tasks && s.tasks[t].Op? && s.tasks[t].r == r
    ensures Stores(EndOperation(s, t, r, ending))
  {
    match ending
    case EndPlain => DropStores(s, EndOperation(s, t, r, ending), t);
    case _ => MoveStores(s, EndOperation(s, t, r, ending), t);
  }

  lemma WaitKeepsStores(s: State, t: nat, r: Reservation, job: FenceJob, ending: Ending)
    requires Stores(s) && t in s.tasks && s.tasks[t].Op? && s.tasks[t].r == r && forall u | u in s.tasks :: u < s.nextTask
    ensures Stores(WaitFor(s, t, r, job, ending))
  {
    var s1 := s.Put(t, Op(r, AtJoin(s.nextTask, ending)));
    MoveStores(s, s1, t);
    SpawnStores(s1, Start(job, Some(r.generation)));
  }

  /** A snapshot that is not wiped is published by an operation or a transition. */
  lemma PublishStores(s: State, sn: Snapshot, source: Source)
    requires Stores(s) && !IsWipedState(sn.state) && (source.ByVerifiedOwner? ==> Holding(s))
    ensures Stores(s.Publish(sn, source))
  {
    var s' := s.Publish(sn, source);
    if !source.ByVerifiedOwner? { NoNewProof(s.log, Published(sn, s.core.generation, source)); }
    assert Wiping(s') == Wiping(s);
  }

  /** Effects and the other fields of the actor are no concern of the stores. */
  lemma SameStores(s: State, core: Core)
    requires Stores(s) && core.generation == s.core.generation && core.terminal == s.core.terminal
    requires core.snapshot == s.core.snapshot
    ensures Stores(s.(core := core))
  {
    assert Wiping(s.(core := core)) == Wiping(s);
  }

  lemma LogStores(s: State, e: Event)
    requires Stores(s) && !e.Published?
    ensures Stores(s.Log(e))
  {
    NoNewProof(s.log, e);
    assert Wiping(s.Log(e)) == Wiping(s);
  }

  lemma PublishEndKeepsStores(s: State, t: nat, r: Reservation, sn: Snapshot, payload: Option<Payload>, ending: Ending)
    requires Stores(s) && t in s.tasks && s.tasks[t].Op? && s.tasks[t].r == r && !IsWipedState(sn.state)
    ensures Stores(EndOperation(PublishGuarded(s, r, sn, payload), t, r, ending))
  {
    var s2 := PublishGuarded(s, r, sn, payload);
    PublishStores(s, sn, ByOperation);
    if s.core.Accepts(r) { SameStores(s.Publish(sn, ByOperation), s2.core); }
    EndKeepsStores(s2, t, r, ending);
  }

  // ---------------------------------------------------------------- every step

  lemma CallKeepsStores(s: State, request: Request)
    requires Structure(s) && Stores(s)
    ensures Stores(CallStep(s, request))
  {
    match request
    case Handle403 =>
      if !s.core.terminal && s.core.active.None? {
        PublishStores(s, SafeTerminal(s.core.snapshot, Forbidden), ByForbidden);
        SameStores(s.Publish(SafeTerminal(s.core.snapshot, Forbidden), ByForbidden), s.core.ForbidRequest());
      }
    case DrainEffects(g) =>
      SameStores(s, s.core.Drain(g).0);
      LogStores(s.(core := s.core.Drain(g).0), Drained(s.core.Drain(g).1));
    case Initialize(online) => SpawnStores(s, Enter(EnterInitialize(online)));
    case ReceiveCallback => SpawnStores(s, Enter(EnterCallback));
    case Handle401(candidate) => SpawnStores(s, Enter(EnterRefresh(candidate)));
    case ScheduleTimeout(timeout) => SpawnStores(s, Enter(EnterTimeout(timeout)));
    case SignOutRequest => SpawnStores(s, Start(Wipe(SignedOut, Success), None));
    case SwitchAccountRequest => SpawnStores(s, Start(Wipe(AccountSwitching, Success), None));
    case CancelCallback =>
      if s.core.active.Some? { SpawnStores(s, Op(s.core.active.value, AtCancelCallbackClock)); }
    case CancelRefresh =>
      if s.core.active.Some? { SpawnStores(s, Op(s.core.active.value, AtCancelRefreshClock)); }
    case ScheduleAnnouncement(message, priority) =>
      SpawnStores(s, Announce(s.core.generation, s.core.stateVersion, s.core.snapshot.state, message, priority));
  }

  /** No write of an operation can land while a live wipe has reached the activated generation. */
  lemma WriteKeepsStores(s: State, s': State, t: nat)
    requires Structure(s) && Stores(s) && t in s.tasks && s.tasks[t].Op? && Pending(s.tasks[t].at)
    requires s.ports.cell == s.tasks[t].r.generation && s'.core == s.core && s'.ports.cell == s.ports.cell
    requires s'.ports.vault == s.ports.vault || s'.ports.vault.Some?
    requires s'.ports.owner == s.ports.owner || s'.ports.owner.Some?
    requires t in s'.tasks && s'.tasks == s.tasks[t := s'.tasks[t]] && !s'.tasks[t].Fence?
    requires TaskStores(s', s'.tasks[t]) && (OwnerProven(s'.log) ==> OwnerProven(s.log))
    ensures Stores(s')
  {
    assert TaskStores(s, s.tasks[t]);
    SameWiping(s, s', t);
    forall u | u in s'.tasks && u != t ensures TaskStores(s', s'.tasks[u]) {
      assert TaskStores(s, s.tasks[u]) && TaskNumbers(s.core, s.tasks[t]);
      if s.tasks[u].Fence? { assert Apart(s.tasks[t], s.tasks[u].f); }
    }
  }

  /** A wipe clears the vault or the owner store: no operation of the current generation relies on them. */
  lemma ClearKeepsStores(s: State, s': State, t: nat)
    requires Structure(s) && Stores(s) && t in s.tasks && s.tasks[t].Fence? && s.tasks[t].job.Wipe?
    requires s.ports.cell == s.tasks[t].f.generation && s'.core == s.core && s'.log == s.log && s'.ports.cell == s.ports.cell
    requires s'.ports.vault == s.ports.vault || s'.ports.vault.None?
    requires s'.ports.owner == s.ports.owner || s'.ports.owner.None?
    requires t in s'.tasks && s'.tasks == s.tasks[t := s'.tasks[t]]
    requires s'.tasks[t].Fence? && s'.tasks[t].job.Wipe? && s'.tasks[t].f == s.tasks[t].f
    requires WipeStores(s, s.tasks[t].f, s.tasks[t].stage, s.tasks[t].done) && Wiping(s') == Wiping(s)
      ==> WipeStores(s', s.tasks[t].f, s'.tasks[t].stage, s'.tasks[t].done)
    ensures Stores(s')
  {
    var f := s.tasks[t].f;
    assert TaskStores(s, s.tasks[t]) && TaskNumbers(s.core, s.tasks[t]);
    SameWiping(s, s', t);
    if f.generation == s.core.generation { assert Wiping(s); }
    forall u | u in s'.tasks && u != t ensures TaskStores(s', s'.tasks[u]) {
      assert TaskStores(s, s.tasks[u]);
    }
  }

  lemma PerformKeepsStores(s: State, t: nat, wish: Mutation)
    requires Structure(s) && Stores(s)
    ensures Stores(PerformStep(s, t, wish))
  {
    if t in s.tasks {
      assert TaskStores(s, s.tasks[t]);
      match s.tasks[t]
      case Op(r, at) => if Pending(at) { PerformWriteKeepsStores(s, t, r, at, wish); }
      case Fence(f, job, stage, done) =>
        if done.None? {
          if stage == ACTIVATE { ActivateKeepsStores(s, f); }
          else if IsWriteStage(job, stage) { PerformFenceKeepsStores(s, t, f, job, stage, wish); }
        }
      case _ =>
    }
  }

  lemma PerformWriteKeepsStores(s: State, t: nat, r: Reservation, at: OpPoint, wish: Mutation)
    requires Structure(s) && Stores(s) && t in s.tasks && s.tasks[t] == Op(r, at) && Pending(at)
    ensures Stores(PerformStep(s, t, wish))
  {
    var s' := PerformStep(s, t, wish);
    assert TaskStores(s, s.tasks[t]);
    if Verdict(s.ports.cell, r.generation, wish) != Applied { MoveStores(s, s', t); }
    else {
      NoNewProof(s.log, s'.log[|s.log|]);
      WriteKeepsStores(s, s', t);
    }
  }

  lemma ActivateKeepsStores(s: State, f: Reservation)
    requires Stores(s)
    ensures Stores(s.(ports := s.ports.(cell := Raise(s.ports.cell, f.generation))))
  {
    var s' := s.(ports := s.ports.(cell := Raise(s.ports.cell, f.generation)));
    assert Wiping(s') == Wiping(s);
  }

  lemma PerformFenceKeepsStores(s: State, t: nat, f: Reservation, job: FenceJob, stage: nat, wish: Mutation)
    requires Structure(s) && Stores(s) && t in s.tasks && s.tasks[t] == Fence(f, job, stage, None)
    requires IsWriteStage(job, stage)
    ensures Stores(PerformStep(s, t, wish))
  {
    var s' := PerformStep(s, t, wish);
    assert TaskStores(s, s.tasks[t]);
    if job.Wipe? && Verdict(s.ports.cell, f.generation, wish) == Applied { ClearKeepsStores(s, s', t); }
    else { MoveStores(s, s', t); }
  }

  lemma ReadVaultKeepsStores(s: State, t: nat, refusal: Option<PortResult<Option<Candidate>>>)
    requires Stores(s)
    ensures Stores(ReadVaultStep(s, t, refusal))
  {
    var s' := ReadVaultStep(s, t, refusal);
    if s' != s { MoveStores(s, s', t); }
  }

  lemma EnterKeepsStores(s: State, t: nat, entering: Entering, now: nat)
    requires Structure(s) && Stores(s) && t in s.tasks && s.tasks[t] == Enter(entering)
    ensures Stores(ResumeEnter(s, t, entering, now))
  {
    hide Stores, BeginRefresh;
    var s' := ResumeEnter(s, t, entering, now);
    match entering
    case EnterInitialize(online) =>
      var (core, taken) := s.core.Reserve(InitializeKind, now);
      if taken.None? { NotReservedKeepsStores(s, t, core); } else {
        var s1 := s.(core := core).Put(t, Op(taken.value, AtInitYield(online, s.nextTask)));
        MoveStores(s, s1, t);
        SpawnStores(s1, Op(taken.value, AtInitTimer));
      }
    case EnterCallback =>
      var (core, taken) := s.core.Reserve(CallbackKind, now);
      if taken.None? { NotReservedKeepsStores(s, t, core); } else { MoveStores(s, s', t); }
    case EnterTimeout(timeout) =>
      var (core, taken) := s.core.ReserveTimeout(now);
      if taken.None? { NotReservedKeepsStores(s, t, core); } else { MoveStores(s, s', t); }
    case EnterRefresh(candidate) =>
      var (core, taken) := s.core.Reserve(RefreshKind, now);
      if taken.None? { NotReservedKeepsStores(s, t, core); } else {
        SameStores(s, core);
        BeginRefreshKeepsStores(s.(core := core), t, taken.value);
      }
  }

  lemma BeginRefreshKeepsStores(s: State, t: nat, r: Reservation)
    requires Stores(s) && t in s.tasks && s.tasks[t].Enter? && forall u | u in s.tasks :: u < s.nextTask
    ensures Stores(BeginRefresh(s, t, r))
  {
    hide Stores;
    if s.core.refreshAttempted == Some(r.generation) {
      var s1 := s.Put(t, Op(r, AtJoin(s.nextTask, EndPlain)));
      MoveStores(s, s1, t);
      SpawnStores(s1, Start(Wipe(ExpiredOrRevoked, ReauthenticationRequired), Some(r.generation)));
    } else {
      var s1 := s.(core := s.core.(refreshAttempted := Some(r.generation)));
      SameStores(s, s1.core);
      PublishStores(s1, RefreshPendingFrom(r.stable), ByOperation);
      var s2 := s1.Publish(RefreshPendingFrom(r.stable), ByOperation);
      LogStores(s2, RefreshCalled(r.generation));
      var s3 := s2.Log(RefreshCalled(r.generation));
      MoveStores(s3, s3.Put(t, Op(r, AtRefresh(s.nextTask))), t);
      SpawnStores(s3.Put(t, Op(r, AtRefresh(s.nextTask))), Op(r, AtRefreshTimer));
    }
  }

  lemma StoresOf(s: State, t: nat)
    requires Stores(s) && t in s.tasks
    ensures TaskStores(s, s.tasks[t])
  {
  }

  lemma OpKeepsStores(s: State, t: nat, r: Reservation, at: OpPoint, input: Input)
    requires Structure(s) && Stores(s) && t in s.tasks && s.tasks[t] == Op(r, at)
    ensures Stores(ResumeOp(s, t, r, at, input))
  {
    hide Stores, AfterVaultRead, AfterConsume, AfterExchange, AfterRefresh, AfterVerify, PublishAuthenticated, WaitFor, EndOperation, AfterCancelClock;
    var s' := ResumeOp(s, t, r, at, input);
    StoresOf(s, t);
    match at
    case AtInitYield(_, _) => MoveStores(s, s', t);
    case AtVaultRead(online, timer, got) =>
      if got.Some? { VaultReadKeepsStores(s, t, r, online, timer, got.value); }
    case AtInitTimer => SilentTimerKeepsStores(s, s', t);
    case AtRefreshTimer => SilentTimerKeepsStores(s, s', t);
    case AtConsume => if input.ConsumeAnswer? { ConsumeKeepsStores(s, t, r, input.consumed); }
    case AtExchange =>
      if input.ExchangeAnswer? { ExchangeKeepsStores(s, t, r, input.exchanged, input.cancelled); }
    case AtRefresh(timer) => if input.RefreshAnswer? { RefreshKeepsStores(s, t, r, timer, input.refreshed); }
    case AtTimeoutSleep(timeout) =>
      if input.Fired? {
        if !s.core.Accepts(r) || !input.fired { EndKeepsStores(s, t, r, EndPlain); }
        else { WaitKeepsStores(s, t, r, TimedOutJob(r, timeout), EndPlain); }
      }
    case AtCancelCallbackClock =>
      if input.Clock? { CancelClockKeepsStores(s, t, r, input.milliseconds, Transition(CanceledFrom(r.stable), [])); }
    case AtCancelRefreshClock =>
      if input.Clock? {
        CancelClockKeepsStores(s, t, r, input.milliseconds, Transition(OfflineFrom(r.stable, Canceled), [OFFLINE_ENTRY]));
      }
    case AtVerify(candidate, announce, ending) =>
      if input.VerifyAnswer? { VerifyKeepsStores(s, t, r, candidate, announce, ending, input.verified); }
    case AtReplace(candidate, subject, announce, ending, written) =>
      if written.Some? {
        if !s.core.Accepts(r) { EndKeepsStores(s, t, r, ending); }
        else if written.value != Applied { WaitKeepsStores(s, t, r, Wipe(SafeTerminalError, VaultCorrupt), ending); }
        else { MoveStores(s, s', t); }
      }
    case AtBind(candidate, subject, announce, ending, written) =>
      if written.Some? {
        if !s.core.Accepts(r) { EndKeepsStores(s, t, r, ending); }
        else if written.value != Applied { WaitKeepsStores(s, t, r, Wipe(SafeTerminalError, OwnerMismatch), ending); }
        else { AuthenticatedKeepsStores(s, t, r, announce, ending); }
      }
    case AtJoin(child, ending) => if child !in s.tasks { EndKeepsStores(s, t, r, ending); }
    case AtEndCancelTimers(_, _) => MoveStores(s, s', t);
    case AtEndJoinTimer(timer, _) => if timer !in s.tasks { DropStores(s, s', t); }
  }

  lemma SilentTimerKeepsStores(s: State, s': State, t: nat)
    requires Stores(s) && t in s.tasks && s.tasks[t].Op? && s'.log == s.log && s'.ports == s.ports
    requires s'.tasks == s.tasks - {t} && s'.core.generation == s.core.generation
    requires s'.core.terminal == s.core.terminal && s'.core.snapshot == s.core.snapshot
    ensures Stores(s')
  {
    DropStores(s, s', t);
  }

  lemma AuthenticatedKeepsStores(s: State, t: nat, r: Reservation, announce: bool, ending: Ending)
    requires Stores(s) && t in s.tasks && s.tasks[t].Op? && s.tasks[t].r == r && HasBound(s.tasks[t].at) && s.core.Accepts(r)
    ensures Stores(PublishAuthenticated(s, t, r, announce, ending))
  {
    assert TaskStores(s, s.tasks[t]);
    PublishStores(s, AUTHENTICATED_SNAPSHOT, ByVerifiedOwner(r.id));
    var s1 := s.Publish(AUTHENTICATED_SNAPSHOT, ByVerifiedOwner(r.id));
    var s2 := if announce then s1.Enqueue(Authenticated, AUTHENTICATED_ENTRY) else s1;
    SameStores(s1, s2.core);
    EndKeepsStores(s2, t, r, ending);
  }

  lemma VaultReadKeepsStores(s: State, t: nat, r: Reservation, online: bool, timer: nat,
                             got: PortResult<Option<Candidate>>)
    requires Structure(s) && Stores(s) && t in s.tasks && s.tasks[t] == Op(r, AtVaultRead(online, timer, Some(got)))
    ensures Stores(AfterVaultRead(s, t, r, online, timer, got))
  {
    var ending := EndInitialize(timer);
    assert TaskStores(s, s.tasks[t]);
    if !s.core.Accepts(r) { EndKeepsStores(s, t, r, ending); }
    else {
      match got
      case PortSuccess(None) => PublishEndKeepsStores(s, t, r, SignedOutSnapshot(Success), None, ending);
      case PortSuccess(Some(candidate)) =>
        if online { MoveStores(s, AfterVaultRead(s, t, r, online, timer, got), t); }
        else { PublishEndKeepsStores(s, t, r, Offline(false), Some(OFFLINE_ENTRY), ending); }
      case PortTransient => PublishEndKeepsStores(s, t, r, TerminalSnapshot(TimedOut), Some(TERMINAL_ENTRY), ending);
      case PortForbidden =>
        PublishEndKeepsStores(s, t, r, SafeTerminal(r.stable, Forbidden), Some(TERMINAL_ENTRY), ending);
      case _ => WaitKeepsStores(s, t, r, Wipe(SafeTerminalError, VaultCorrupt), ending);
    }
  }

  lemma ConsumeKeepsStores(s: State, t: nat, r: Reservation, consumed: ConsumeResult)
    requires Structure(s) && Stores(s) && t in s.tasks && s.tasks[t] == Op(r, AtConsume)
    ensures Stores(AfterConsume(s, t, r, consumed))
  {
    if !s.core.Accepts(r) { EndKeepsStores(s, t, r, EndPlain); }
    else {
      match consumed
      case Consumed(_) =>
        PublishStores(s, CallbackPendingFrom(r.stable), ByOperation);
        MoveStores(s.Publish(CallbackPendingFrom(r.stable), ByOperation), AfterConsume(s, t, r, consumed), t);
      case ConsumeDuplicate => EndKeepsStores(s, t, r, EndPlain);
      case ConsumeStale => EndKeepsStores(s, t, r, EndPlain);
      case _ => WaitAnyStores(s, t, r, EndPlain);
    }
  }

  lemma WaitAnyStores(s: State, t: nat, r: Reservation, ending: Ending)
    requires Stores(s) && t in s.tasks && s.tasks[t].Op? && s.tasks[t].r == r && forall u | u in s.tasks :: u < s.nextTask
    ensures forall job :: Stores(WaitFor(s, t, r, job, ending))
  {
    forall job ensures Stores(WaitFor(s, t, r, job, ending)) { WaitKeepsStores(s, t, r, job, ending); }
  }

  lemma ExchangeKeepsStores(s: State, t: nat, r: Reservation, exchanged: PortResult<Candidate>, cancelled: bool)
    requires Structure(s) && Stores(s) && t in s.tasks && s.tasks[t] == Op(r, AtExchange)
    ensures Stores(AfterExchange(s, t, r, exchanged, cancelled))
  {
    assert TaskStores(s, s.tasks[t]);
    if cancelled || !s.core.Accepts(r) { EndKeepsStores(s, t, r, EndPlain); }
    else if exchanged.PortSuccess? { MoveStores(s, AfterExchange(s, t, r, exchanged, cancelled), t); }
    else { WaitAnyStores(s, t, r, EndPlain); }
  }

  lemma RefreshKeepsStores(s: State, t: nat, r: Reservation, timer: nat, refreshed: PortResult<Candidate>)
    requires Structure(s) && Stores(s) && t in s.tasks && s.tasks[t] == Op(r, AtRefresh(timer))
    ensures Stores(AfterRefresh(s, t, r, timer, refreshed))
  {
    var ending := EndRefresh(timer);
    assert TaskStores(s, s.tasks[t]);
    if !s.core.Accepts(r) { EndKeepsStores(s, t, r, ending); }
    else {
      match refreshed
      case PortSuccess(value) => MoveStores(s, AfterRefresh(s, t, r, timer, refreshed), t);
      case PortTransient =>
        PublishEndKeepsStores(s, t, r, OfflineFrom(r.stable, TransientFailure), Some(OFFLINE_ENTRY), ending);
      case PortForbidden =>
        PublishEndKeepsStores(s, t, r, SafeTerminal(r.stable, Forbidden), Some(TERMINAL_ENTRY), ending);
      case _ => WaitAnyStores(s, t, r, ending);
    }
  }

  lemma VerifyKeepsStores(s: State, t: nat, r: Reservation, c: Candidate, announce: bool, ending: Ending,
                          verified: PortResult<Subject>)
    requires Structure(s) && Stores(s) && t in s.tasks && s.tasks[t] == Op(r, AtVerify(c, announce, ending))
    ensures Stores(AfterVerify(s, t, r, c, announce, ending, verified))
  {
    assert TaskStores(s, s.tasks[t]);
    if !s.core.Accepts(r) { EndKeepsStores(s, t, r, ending); }
    else {
      match verified
      case PortSuccess(subject) =>
        LogStores(s, OwnerVerified(r.generation, r.id, c, subject));
        MoveStores(s.Log(OwnerVerified(r.generation, r.id, c, subject)), AfterVerify(s, t, r, c, announce, ending, verified), t);
      case PortTransient =>
        PublishEndKeepsStores(s, t, r, Offline(r.stable.verifiedOwner), Some(OFFLINE_ENTRY), ending);
      case PortForbidden =>
        PublishEndKeepsStores(s, t, r, SafeTerminal(r.stable, Forbidden), Some(TERMINAL_ENTRY), ending);
      case _ => WaitAnyStores(s, t, r, ending);
    }
  }

  lemma CancelClockKeepsStores(s: State, t: nat, r: Reservation, now: nat, job: FenceJob)
    requires Structure(s) && Stores(s) && t in s.tasks && s.tasks[t].Op? && s.tasks[t].r == r
    ensures Stores(AfterCancelClock(s, t, r, now, job))
  {
    DropStores(s, s.Drop(t), t);
    SpawnStores(s.Drop(t), Start(job, Some(r.generation)));
  }

  /** A new fence: only a wipe can be installed over a wipe, since nothing else aims at its generation. */
  lemma StartKeepsStores(s: State, t: nat, job: FenceJob, expected: Option<nat>)
    requires Structure(s) && Stores(s) && t in s.tasks && s.tasks[t] == Start(job, expected)
    ensures Stores(ResumeStart(s, t, job, expected))
  {
    var aim := if expected.Some? then expected.value else s.core.generation;
    var (core, taken) := s.core.InstallFence(aim);
    var s' := ResumeStart(s, t, job, expected);
    if taken.None? { NotReservedKeepsStores(s, t, core); }
    else {
      NoNewProof(s.log, Fenced(aim));
      FencedKeepsStores(s, s', t);
    }
  }

  lemma FencedKeepsStores(s: State, s': State, t: nat)
    requires Structure(s) && Stores(s) && t in s.tasks && s.tasks[t].Start? && !s.core.terminal && !s'.core.terminal
    requires s.tasks[t].expected.Some? ==> s.tasks[t].expected.value == s.core.generation
    requires t in s'.tasks && s'.tasks == s.tasks[t := s'.tasks[t]]
    requires s'.tasks[t].Fence? && s'.tasks[t].job == s.tasks[t].job && s'.tasks[t].stage == CANCEL_PROVIDER
    requires s'.tasks[t].f.generation == s'.core.generation == s.core.generation + 1
    requires s'.core.snapshot == s.core.snapshot && s'.ports == s.ports && (OwnerProven(s'.log) ==> OwnerProven(s.log))
    ensures Stores(s')
  {
    assert TaskNumbers(s.core, s.tasks[t]);
    if s.tasks[t].job.Wipe? { assert t in s'.tasks && IsWiper(s'.tasks[t], s'.core.generation); }
    if s.tasks[t].expected.Some? { AimedMeansUnfenced(s, t); }
    forall u | u in s'.tasks ensures TaskStores(s', s'.tasks[u]) {
      if u != t { OlderStores(s, s', s.tasks[u], u); }
    }
  }

  /** Whoever aims at the current generation knows that no fence lives in it. */
  lemma AimedMeansUnfenced(s: State, t: nat)
    requires Structure(s) && t in s.tasks && s.tasks[t].Start? && s.tasks[t].expected == Some(s.core.generation)
    ensures forall u | u in s.tasks && s.tasks[u].Fence? :: s.tasks[u].f.generation != s.core.generation
    ensures !Wiping(s)
  {
    forall u | u in s.tasks && s.tasks[u].Fence? ensures s.tasks[u].f.generation != s.core.generation {
      assert Apart(s.tasks[t], s.tasks[u].f);
    }
  }

  lemma OlderStores(s: State, s': State, task: Task, u: nat)
    requires Structure(s) && Stores(s) && u in s.tasks && s.tasks[u] == task && !s.core.terminal
    requires s'.core.generation == s.core.generation + 1 && s'.core.snapshot == s.core.snapshot && s'.ports == s.ports
    requires !Wiping(s') ==> !Wiping(s)
    ensures TaskStores(s', task)
  {
    assert TaskStores(s, task) && TaskNumbers(s.core, task);
    if task.Fence? && task.job.Wipe? && !Wiping(s') {
      assert !IsWiper(task, s.core.generation);
    }
  }

  lemma FenceKeepsStores(s: State, t: nat, f: Reservation, job: FenceJob, stage: nat, done: Option<Mutation>,
                         input: Input)
    requires Structure(s) && Evidence(s) && Stores(s) && t in s.tasks && s.tasks[t] == Fence(f, job, stage, done)
    ensures Stores(ResumeFence(s, t, f, job, stage, done, input))
  {
    assert TaskStores(s, s.tasks[t]) && TaskEvidence(s.core.generation, s.log, s.tasks[t]);
    hide Structure, Evidence, Stores, AdvanceWipe, AdvanceStoreFailure, CommitTransition;
    if IsWriteStage(job, stage) && done.None? {
    } else if !s.core.Accepts(f) {
      DropStores(s, LoseFence(s, t, f), t);
    } else if stage < ACTIVATE {
      MoveStores(s, s.Put(t, Fence(f, job, stage + 1, None)), t);
    } else {
      match job
      case Transition(snapshot, payloads) => CommitKeepsStores(s, t, f, snapshot, payloads);
      case Wipe(goal, outcome) => WipeKeepsStores(s, t, f, goal, outcome, stage, done, input);
      case StoreFailure(stable) => StoreFailureKeepsStores(s, t, f, stable, stage, done, input);
    }
  }

  lemma CommitKeepsStores(s: State, t: nat, f: Reservation, snapshot: Snapshot, payloads: seq<Payload>)
    requires Stores(s) && t in s.tasks && s.tasks[t].Fence? && s.tasks[t].job.Transition? && !IsWipedState(snapshot.state)
    ensures Stores(CommitTransition(s, t, f, snapshot, payloads))
  {
    PublishStores(s, snapshot, ByTransition);
    EnqueueAllFrame(s.core.Publish(snapshot), f.generation, snapshot.state, payloads);
    DropStores(s.Publish(snapshot, ByTransition), CommitTransition(s, t, f, snapshot, payloads), t);
  }

  lemma WipeKeepsStores(s: State, t: nat, f: Reservation, goal: RuntimeState, outcome: Outcome, stage: nat,
                        done: Option<Mutation>, input: Input)
    requires Structure(s) && Stores(s) && s.core.Accepts(f) && stage >= ACTIVATE
    requires t in s.tasks && s.tasks[t] == Fence(f, Wipe(goal, outcome), stage, done)
    ensures Stores(AdvanceWipe(s, t, f, goal, outcome, stage, done, input))
  {
    var moved := s.Put(t, Fence(f, Wipe(goal, outcome), stage + 1, None));
    if stage == ACTIVATE {
      WipeMoves(s, t, f, goal, outcome, stage, done);
      assert AdvanceWipe(s, t, f, goal, outcome, stage, done, input) == moved;
    } else if stage <= PURGE_OWNER {
      if done == Some(Applied) { WipeMoves(s, t, f, goal, outcome, stage, done); } else { LatchStores(s, t); }
    } else if input.Confirmed? {
      if !input.empty { LatchStores(s, t); }
      else if stage < CONFIRM_OWNER { WipeMoves(s, t, f, goal, outcome, stage, done); }
      else { PublishWipeKeepsStores(s, t, f, goal, outcome); }
    }
  }

  lemma WipeMoves(s: State, t: nat, f: Reservation, goal: RuntimeState, outcome: Outcome, stage: nat, done: Option<Mutation>)
    requires Stores(s) && t in s.tasks && s.tasks[t] == Fence(f, Wipe(goal, outcome), stage, done)
    requires stage == ACTIVATE || stage > PURGE_OWNER || done == Some(Applied)
    ensures Stores(s.Put(t, Fence(f, Wipe(goal, outcome), stage + 1, None)))
  {
    var s' := s.Put(t, Fence(f, Wipe(goal, outcome), stage + 1, None));
    assert WipeStores(s, f, stage, done);
    SameWiping(s, s', t);
    assert WipeStores(s', f, stage + 1, None);
  }

  lemma StoreFailureKeepsStores(s: State, t: nat, f: Reservation, stable: Snapshot, stage: nat,
                                done: Option<Mutation>, input: Input)
    requires Stores(s) && t in s.tasks && s.tasks[t] == Fence(f, StoreFailure(stable), stage, done)
    ensures Stores(AdvanceStoreFailure(s, t, f, stable, stage, done, input))
  {
    hide Stores;
    LatchStores(s, t);
    if stage == ACTIVATE { MoveStores(s, s.Put(t, Fence(f, StoreFailure(stable), PURGE_CALLBACK, None)), t); }
    else if stage == PURGE_CALLBACK { MoveStores(s, s.Put(t, Fence(f, StoreFailure(stable), CONFIRM_PURGE, None)), t); }
    else {
      var failed := CallbackTerminal(stable, TransientFailure);
      PublishStores(s, failed, ByStoreFailure);
      var s1 := s.Publish(failed, ByStoreFailure);
      var s2 := s1.Enqueue(failed.state, TERMINAL_ENTRY);
      DropStores(s1, s2.(core := s2.core.Finish(f)).Drop(t), t);
    }
  }

  /** Publication of a wipe: both stores are empty, and every write in flight is of an older generation. */
  lemma PublishWipeKeepsStores(s: State, t: nat, f: Reservation, goal: RuntimeState, outcome: Outcome)
    requires Structure(s) && Stores(s) && t in s.tasks && s.tasks[t].Fence? && s.tasks[t].f == f && s.core.Accepts(f)
    requires s.tasks[t].job.Wipe? && s.tasks[t].stage >= CONFIRM_OWNER
    ensures Stores(PublishWipe(s, t, f, goal, outcome))
  {
    var s' := PublishWipe(s, t, f, goal, outcome);
    assert TaskStores(s, s.tasks[t]);
    var e := Published(WipedSnapshot(goal, outcome), s.core.generation, ByWipe);
    if OwnerProven(s'.log) { ProofNeedsVerification(s.log, e); }
    forall u | u in s'.tasks ensures TaskStores(s', s'.tasks[u]) {
      assert TaskStores(s, s.tasks[u]) && TaskNumbers(s.core, s.tasks[u]) && Apart(s.tasks[u], f);
    }
  }

  lemma ResumeKeepsStores(s: State, t: nat, input: Input)
    requires Structure(s) && Evidence(s) && Stores(s)
    ensures Stores(ResumeStep(s, t, input))
  {
    if t in s.tasks {
      match s.tasks[t]
      case Enter(entering) => if input.Clock? { EnterKeepsStores(s, t, entering, input.milliseconds); }
      case Op(r, at) => OpKeepsStores(s, t, r, at, input);
      case Start(job, expected) => StartKeepsStores(s, t, job, expected);
      case Fence(f, job, stage, done) => FenceKeepsStores(s, t, f, job, stage, done, input);
      case Announce(_, _, _, _, _) => DropStores(s, ResumeStep(s, t, input), t);
    }
  }

  lemma StepKeepsStores(s: State, a: Action)
    requires Structure(s) && Evidence(s) && Stores(s)
    ensures Stores(Step(s, a))
  {
    match a
    case Call(request) => CallKeepsStores(s, request);
    case Perform(t, wish) => PerformKeepsStores(s, t, wish);
    case ReadVault(t, refusal) => ReadVaultKeepsStores(s, t, refusal);
    case Resume(t, input) => ResumeKeepsStores(s, t, input);
  }
}
