/**
 Where the claim "this owner is verified" comes from. A snapshot is honest when
 its claim is backed by a publication of the authenticated snapshot that
 followed, within one reservation, the owner check, the vault write and the
 owner binding, with no completed wipe since.
 */
module AuthEvidence {
  import opened Basics
  import opened AuthKernel
  import opened AuthRuntime
  import opened AuthStructure

  ghost predicate At(log: seq<Event>, n: nat, e: Event) {
    n < |log| && log[n] == e
  }

  ghost predicate VerifiedIn(log: seq<Event>, r: Reservation, c: Candidate, o: Subject) {
    exists v: nat :: At(log, v, OwnerVerified(r.generation, r.id, c, o))
  }

  ghost predicate ReplacedIn(log: seq<Event>, r: Reservation, c: Candidate, o: Subject) {
    exists v: nat, p: nat :: v < p && At(log, v, OwnerVerified(r.generation, r.id, c, o))
                   && At(log, p, VaultReplaced(r.generation, r.id, c))
  }

  ghost predicate BoundIn(log: seq<Event>, generation: nat, id: nat, c: Candidate, o: Subject) {
    exists v: nat, p: nat, b: nat :: v < p < b && At(log, v, OwnerVerified(generation, id, c, o))
                      && At(log, p, VaultReplaced(generation, id, c)) && At(log, b, OwnerBound(generation, id, o))
  }

  /** Position `a` publishes the authenticated snapshot at the end of a whole verification. */
  ghost predicate AuthenticatedAt(log: seq<Event>, a: nat) {
    && a < |log| && log[a].Published? && log[a].source.ByVerifiedOwner?
    && log[a].snapshot == AUTHENTICATED_SNAPSHOT
    && exists c, o :: BoundIn(log[..a], log[a].generation, log[a].source.id, c, o)
  }

  predicate IsWipe(e: Event) {
    e.Published? && e.source == ByWipe
  }

  ghost predicate NoWipeAfter(log: seq<Event>, a: nat) {
    forall i | a < i < |log| :: !IsWipe(log[i])
  }

  ghost predicate OwnerProven(log: seq<Event>) {
    exists a: nat :: AuthenticatedAt(log, a) && NoWipeAfter(log, a)
  }

  predicate IsWipedState(state: RuntimeState) {
    state == AccountSwitching || state == ExpiredOrRevoked
  }

  ghost predicate Honest(log: seq<Event>, sn: Snapshot) {
    && (sn.verifiedOwner ==> OwnerProven(log))
    && (IsWipedState(sn.state) ==> !sn.verifiedOwner)
  }

  ghost predicate JobHonest(log: seq<Event>, job: FenceJob) {
    match job
    case Transition(snapshot, _) => Honest(log, snapshot) && !IsWipedState(snapshot.state)
    case Wipe(_, _) => true
    case StoreFailure(stable) => Honest(log, stable)
  }

  ghost predicate PointEvidence(log: seq<Event>, r: Reservation, at: OpPoint) {
    match at
    case AtReplace(c, o, _, _, written) => VerifiedIn(log, r, c, o) && (written == Some(Applied) ==> ReplacedIn(log, r, c, o))
    case AtBind(c, o, _, _, written) =>
      ReplacedIn(log, r, c, o) && (written == Some(Applied) ==> BoundIn(log, r.generation, r.id, c, o))
    case _ => true
  }

  /** What a continuation carries is honest as long as its generation is the current one. */
  ghost predicate TaskEvidence(generation: nat, log: seq<Event>, task: Task) {
    match task
    case Op(r, at) => PointEvidence(log, r, at) && (r.generation == generation ==> Honest(log, r.stable))
    case Start(job, expected) => expected == Some(generation) ==> JobHonest(log, job)
    case Fence(f, job, _, _) => f.generation == generation ==> JobHonest(log, job)
    case _ => true
  }

  ghost predicate LogHonest(log: seq<Event>) {
    forall i | 0 <= i < |log| :: log[i].Published? ==> Honest(log[..i + 1], log[i].snapshot)
  }

  ghost predicate Evidence(s: State) {
    && Honest(s.log, s.core.snapshot)
    && LogHonest(s.log)
    && forall t | t in s.tasks :: TaskEvidence(s.core.generation, s.log, s.tasks[t])
  }

  // ---------------------------------------------------------------- growing logs

  ghost predicate Grows(log: seq<Event>, log': seq<Event>) {
    log <= log' && forall i | |log| <= i < |log'| :: !IsWipe(log'[i])
  }

  lemma ProofGrows(log: seq<Event>, log': seq<Event>)
    requires Grows(log, log') && OwnerProven(log)
    ensures OwnerProven(log')
  {
    var a: nat :| AuthenticatedAt(log, a) && NoWipeAfter(log, a);
    assert log'[..a] == log[..a];
    assert AuthenticatedAt(log', a) && NoWipeAfter(log', a);
  }

  lemma VerifiedGrows(log: seq<Event>, log': seq<Event>, r: Reservation, c: Candidate, o: Subject)
    requires log <= log'
    ensures VerifiedIn(log, r, c, o) ==> VerifiedIn(log', r, c, o)
  {
    if VerifiedIn(log, r, c, o) {
      var v: nat :| At(log, v, OwnerVerified(r.generation, r.id, c, o));
      assert At(log', v, OwnerVerified(r.generation, r.id, c, o));
    }
  }

  lemma ReplacedGrows(log: seq<Event>, log': seq<Event>, r: Reservation, c: Candidate, o: Subject)
    requires log <= log'
    ensures ReplacedIn(log, r, c, o) ==> ReplacedIn(log', r, c, o)
  {
    if ReplacedIn(log, r, c, o) {
      var v: nat, p: nat :| v < p && At(log, v, OwnerVerified(r.generation, r.id, c, o))
                  && At(log, p, VaultReplaced(r.generation, r.id, c));
      assert At(log', v, OwnerVerified(r.generation, r.id, c, o)) && At(log', p, VaultReplaced(r.generation, r.id, c));
    }
  }

  lemma BoundGrows(log: seq<Event>, log': seq<Event>, g: nat, id: nat, c: Candidate, o: Subject)
    requires log <= log'
    ensures BoundIn(log, g, id, c, o) ==> BoundIn(log', g, id, c, o)
  {
    if BoundIn(log, g, id, c, o) {
      var v: nat, p: nat, b: nat :| v < p < b && At(log, v, OwnerVerified(g, id, c, o))
                     && At(log, p, VaultReplaced(g, id, c)) && At(log, b, OwnerBound(g, id, o));
      assert At(log', v, OwnerVerified(g, id, c, o)) && At(log', p, VaultReplaced(g, id, c))
             && At(log', b, OwnerBound(g, id, o));
    }
  }

  lemma TaskEvidenceGrows(g: nat, log: seq<Event>, log': seq<Event>, task: Task)
    requires Grows(log, log') && TaskEvidence(g, log, task)
    ensures TaskEvidence(g, log', task)
  {
    match task
    case Op(r, at) =>
      PointEvidenceGrows(log, log', r, at);
      if r.generation == g { HonestGrows(log, log', r.stable); }
    case Start(job, _) => JobHonestGrows(log, log', job);
    case Fence(_, job, _, _) => JobHonestGrows(log, log', job);
    case _ =>
  }

  lemma LogHonestAppend(log: seq<Event>, e: Event)
    requires LogHonest(log) && (e.Published? ==> Honest(log + [e], e.snapshot))
    ensures LogHonest(log + [e])
  {
    var log' := log + [e];
    forall i | 0 <= i < |log'| && log'[i].Published? ensures Honest(log'[..i + 1], log'[i].snapshot) {
      if i < |log| { assert log'[..i + 1] == log[..i + 1]; } else { assert log'[..i + 1] == log'; }
    }
  }

  // ---------------------------------------------------------------- kinds of change

  /** A step within the generation whose new log entries are honest and wipe nothing. */
  lemma KeepEvidence(s: State, s': State)
    requires Evidence(s) && Grows(s.log, s'.log) && LogHonest(s'.log)
    requires s'.core.generation == s.core.generation
    requires s'.core.snapshot == s.core.snapshot || Honest(s'.log, s'.core.snapshot)
    requires forall u | u in s'.tasks ::
      (u in s.tasks && s'.tasks[u] == s.tasks[u]) || TaskEvidence(s.core.generation, s'.log, s'.tasks[u])
    ensures Evidence(s')
  {
    if OwnerProven(s.log) { ProofGrows(s.log, s'.log); }
    forall u | u in s'.tasks ensures TaskEvidence(s'.core.generation, s'.log, s'.tasks[u]) {
      if u in s.tasks && s'.tasks[u] == s.tasks[u] {
        TaskEvidenceGrows(s.core.generation, s.log, s'.log, s.tasks[u]);
      }
    }
  }

  /** A step that logs nothing and only moves tasks on. */
  lemma KeepQuiet(s: State, s': State)
    requires Evidence(s) && s'.log == s.log && s'.core.generation == s.core.generation
    requires s'.core.snapshot == s.core.snapshot
    requires forall u | u in s'.tasks ::
      (u in s.tasks && s'.tasks[u] == s.tasks[u]) || TaskEvidence(s.core.generation, s'.log, s'.tasks[u])
    ensures Evidence(s')
  {
    KeepEvidence(s, s');
  }

  lemma MoveQuiet(s: State, s': State, t: nat)
    requires Evidence(s) && s'.log == s.log && s'.core.generation == s.core.generation
    requires s'.core.snapshot == s.core.snapshot
    requires t in s'.tasks && s'.tasks == s.tasks[t := s'.tasks[t]]
    requires TaskEvidence(s.core.generation, s.log, s'.tasks[t])
    ensures Evidence(s')
  {
  }

  lemma DropQuiet(s: State, s': State, t: nat)
    requires Evidence(s) && s'.log == s.log && s'.core.generation == s.core.generation
    requires s'.core.snapshot == s.core.snapshot && s'.tasks == s.tasks - {t}
    ensures Evidence(s')
  {
  }

  lemma SpawnQuiet(s: State, task: Task)
    requires Evidence(s) && TaskEvidence(s.core.generation, s.log, task)
    ensures Evidence(s.Spawn(task))
  {
  }

  lemma MoveLogged(s: State, s': State, t: nat, e: Event)
    requires Evidence(s) && s'.log == s.log + [e] && !e.Published? && s'.core.generation == s.core.generation
    requires s'.core.snapshot == s.core.snapshot
    requires t in s'.tasks && s'.tasks == s.tasks[t := s'.tasks[t]]
    requires TaskEvidence(s.core.generation, s'.log, s'.tasks[t])
    ensures Evidence(s')
  {
    LogHonestAppend(s.log, e);
    KeepEvidence(s, s');
  }

  /** Publishing an honest snapshot that is no wipe. */
  lemma KeepPublish(s: State, sn: Snapshot, source: Source)
    requires Evidence(s) && source != ByWipe && (sn.verifiedOwner ==> OwnerProven(s.log) || OwnerProven(s.Publish(sn, source).log))
    requires IsWipedState(sn.state) ==> !sn.verifiedOwner
    ensures Evidence(s.Publish(sn, source))
  {
    var s' := s.Publish(sn, source);
    if OwnerProven(s.log) { ProofGrows(s.log, s'.log); }
    LogHonestAppend(s.log, Published(sn, s.core.generation, source));
    KeepEvidence(s, s');
  }

  lemma KeepLatchEvidence(s: State, t: nat)
    requires Evidence(s)
    ensures Evidence(s.Latch().Drop(t))
  {
    KeepPublish(s, TerminalSnapshot(TransientFailure), ByLatch);
    DropQuiet(s.Publish(TerminalSnapshot(TransientFailure), ByLatch), s.Latch().Drop(t), t);
  }

  lemma NotReservedKeepsEvidence(s: State, t: nat, core: Core)
    requires Evidence(s)
    ensures Evidence(NotReserved(s, t, core))
  {
    KeepLatchEvidence(s, t);
    DropQuiet(s, s.Drop(t), t);
  }

  lemma EndKeepsEvidence(s: State, t: nat, r: Reservation, ending: Ending)
    requires Evidence(s) && (r.generation == s.core.generation ==> Honest(s.log, r.stable))
    ensures Evidence(EndOperation(s, t, r, ending))
  {
    match ending
    case EndPlain => DropQuiet(s, EndOperation(s, t, r, ending), t);
    case _ => MoveQuiet(s, EndOperation(s, t, r, ending), t);
  }

  lemma WaitKeepsEvidence(s: State, t: nat, r: Reservation, job: FenceJob, ending: Ending)
    requires Evidence(s)
    requires r.generation == s.core.generation ==> Honest(s.log, r.stable) && JobHonest(s.log, job)
    ensures Evidence(WaitFor(s, t, r, job, ending))
  {
    var s1 := s.Put(t, Op(r, AtJoin(s.nextTask, ending)));
    MoveQuiet(s, s1, t);
    SpawnQuiet(s1, Start(job, Some(r.generation)));
  }

  /** An operation publishes something no stronger than what it found, then ends. */
  lemma PublishEndKeepsEvidence(s: State, t: nat, r: Reservation, sn: Snapshot, payload: Option<Payload>, ending: Ending)
    requires Evidence(s) && s.core.Accepts(r) && Honest(s.log, r.stable)
    requires !IsWipedState(sn.state) && (sn.verifiedOwner ==> r.stable.verifiedOwner)
    ensures Evidence(EndOperation(PublishGuarded(s, r, sn, payload), t, r, ending))
  {
    hide Evidence, OwnerProven, LogHonest, TaskEvidence, EndOperation;
    KeepPublish(s, sn, ByOperation);
    var s1 := s.Publish(sn, ByOperation);
    var s2 := PublishGuarded(s, r, sn, payload);
    KeepQuiet(s1, s2);
    if r.stable.verifiedOwner { ProofGrows(s.log, s2.log); }
    EndKeepsEvidence(s2, t, r, ending);
  }

  // ---------------------------------------------------------------- every step

  lemma ForbiddenKeepsEvidence(s: State)
    requires Evidence(s) && !s.core.terminal && s.core.active.None?
    ensures Evidence(CallStep(s, Handle403))
  {
    var forbidden := SafeTerminal(s.core.snapshot, Forbidden);
    KeepPublish(s, forbidden, ByForbidden);
    hide Evidence;
    KeepQuiet(s.Publish(forbidden, ByForbidden), CallStep(s, Handle403));
  }

  lemma CallKeepsEvidence(s: State, request: Request)
    requires Structure(s) && Evidence(s)
    ensures Evidence(CallStep(s, request))
  {
    var s' := CallStep(s, request);
    match request
    case CancelCallback => CancelKeepsEvidence(s, CallbackKind, AtCancelCallbackClock);
    case CancelRefresh => CancelKeepsEvidence(s, RefreshKind, AtCancelRefreshClock);
    case Handle403 =>
      if !s.core.terminal && s.core.active.None? { ForbiddenKeepsEvidence(s); }
    case DrainEffects(g) =>
      LogHonestAppend(s.log, Drained(s.core.Drain(g).1));
      KeepEvidence(s, s');
    case _ => KeepQuiet(s, s');
  }

  lemma ActiveIsHonest(s: State)
    requires Structure(s) && Evidence(s) && s.core.active.Some? && s.core.active.value.kind != CleanupKind
    ensures Honest(s.log, s.core.active.value.stable)
  {
    var o :| o in s.tasks && Owns(s.tasks[o], s.core.active.value);
    assert TaskEvidence(s.core.generation, s.log, s.tasks[o]);
  }

  lemma CancelKeepsEvidence(s: State, kind: OperationKind, at: OpPoint)
    requires Structure(s) && Evidence(s) && kind != CleanupKind && (at.AtCancelCallbackClock? || at.AtCancelRefreshClock?)
    ensures Evidence(CancelStep(s, kind, at))
  {
    if CancelStep(s, kind, at) != s {
      ActiveIsHonest(s);
      KeepQuiet(s, CancelStep(s, kind, at));
    }
  }

  lemma PerformKeepsEvidence(s: State, t: nat, wish: Mutation)
    requires Evidence(s)
    ensures Evidence(PerformStep(s, t, wish))
  {
    hide OwnerProven, VerifiedIn, ReplacedIn, BoundIn, LogHonest, JobHonest;
    var s' := PerformStep(s, t, wish);
    if t in s.tasks && s' != s {
      if |s'.log| > |s.log| {
        LogHonestAppend(s.log, s'.log[|s.log|]);
        if s.tasks[t].at.AtReplace? { ReplacingIsEvidence(s, s', t); } else { BindingIsEvidence(s, s', t); }
      }
      KeepEvidence(s, s');
    }
  }

  lemma ReplacingIsEvidence(s: State, s': State, t: nat)
    requires Evidence(s) && t in s.tasks && t in s'.tasks && s.tasks[t].Op? && s.tasks[t].at.AtReplace?
    requires var at := s.tasks[t].at;
      s'.tasks[t] == Op(s.tasks[t].r, AtReplace(at.candidate, at.subject, at.announce, at.ending, Some(Applied)))
    requires s'.log == s.log + [VaultReplaced(s.tasks[t].r.generation, s.tasks[t].r.id, s.tasks[t].at.candidate)]
    ensures TaskEvidence(s.core.generation, s'.log, s'.tasks[t])
  {
    var r, c, o := s.tasks[t].r, s.tasks[t].at.candidate, s.tasks[t].at.subject;
    assert TaskEvidence(s.core.generation, s.log, s.tasks[t]);
    if OwnerProven(s.log) { ProofGrows(s.log, s'.log); }
    VerifiedGrows(s.log, s'.log, r, c, o);
    var v: nat :| At(s.log, v, OwnerVerified(r.generation, r.id, c, o));
    assert At(s'.log, v, OwnerVerified(r.generation, r.id, c, o));
    assert At(s'.log, |s.log|, VaultReplaced(r.generation, r.id, c));
  }

  lemma BindingIsEvidence(s: State, s': State, t: nat)
    requires Evidence(s) && t in s.tasks && t in s'.tasks && s.tasks[t].Op? && s.tasks[t].at.AtBind?
    requires var at := s.tasks[t].at;
      s'.tasks[t] == Op(s.tasks[t].r, AtBind(at.candidate, at.subject, at.announce, at.ending, Some(Applied)))
    requires s'.log == s.log + [OwnerBound(s.tasks[t].r.generation, s.tasks[t].r.id, s.tasks[t].at.subject)]
    ensures TaskEvidence(s.core.generation, s'.log, s'.tasks[t])
  {
    var r, c, o := s.tasks[t].r, s.tasks[t].at.candidate, s.tasks[t].at.subject;
    assert TaskEvidence(s.core.generation, s.log, s.tasks[t]);
    if OwnerProven(s.log) { ProofGrows(s.log, s'.log); }
    ReplacedGrows(s.log, s'.log, r, c, o);
    var v: nat, p: nat :| v < p && At(s.log, v, OwnerVerified(r.generation, r.id, c, o))
                && At(s.log, p, VaultReplaced(r.generation, r.id, c));
    assert At(s'.log, v, OwnerVerified(r.generation, r.id, c, o)) && At(s'.log, p, VaultReplaced(r.generation, r.id, c));
    assert At(s'.log, |s.log|, OwnerBound(r.generation, r.id, o));
  }

  lemma ReadVaultKeepsEvidence(s: State, t: nat, refusal: Option<PortResult<Option<Candidate>>>)
    requires Evidence(s)
    ensures Evidence(ReadVaultStep(s, t, refusal))
  {
    if t in s.tasks && ReadVaultStep(s, t, refusal) != s { MoveQuiet(s, ReadVaultStep(s, t, refusal), t); }
  }

  lemma EnterKeepsEvidence(s: State, t: nat, entering: Entering, now: nat)
    requires Structure(s) && Evidence(s) && t in s.tasks && s.tasks[t] == Enter(entering)
    ensures Evidence(ResumeEnter(s, t, entering, now))
  {
    var s' := ResumeEnter(s, t, entering, now);
    match entering
    case EnterInitialize(online) =>
      var (core, taken) := s.core.Reserve(InitializeKind, now);
      if taken.None? { NotReservedKeepsEvidence(s, t, core); } else {
        var s1 := s.(core := core).Put(t, Op(taken.value, AtInitYield(online, s.nextTask)));
        MoveQuiet(s, s1, t);
        SpawnQuiet(s1, Op(taken.value, AtInitTimer));
      }
    case EnterCallback =>
      var (core, taken) := s.core.Reserve(CallbackKind, now);
      if taken.None? { NotReservedKeepsEvidence(s, t, core); } else { MoveQuiet(s, s', t); }
    case EnterTimeout(timeout) =>
      var (core, taken) := s.core.ReserveTimeout(now);
      if taken.None? { NotReservedKeepsEvidence(s, t, core); } else {
        if s.core.active.Some? { ActiveIsHonest(s); }
        MoveQuiet(s, s', t);
      }
    case EnterRefresh(candidate) =>
      var (core, taken) := s.core.Reserve(RefreshKind, now);
      if taken.None? { NotReservedKeepsEvidence(s, t, core); } else {
        BeginRefreshKeepsEvidence(s, t, core, taken.value);
      }
  }

  lemma BeginRefreshKeepsEvidence(s: State, t: nat, core: Core, r: Reservation)
    requires Evidence(s) && r.generation == s.core.generation && r.stable == s.core.snapshot
    requires core.generation == s.core.generation && core.snapshot == s.core.snapshot
    ensures Evidence(BeginRefresh(s.(core := core), t, r))
  {
    var s1 := s.(core := core);
    if core.refreshAttempted == Some(r.generation) {
      WaitKeepsEvidence(s1, t, r, Wipe(ExpiredOrRevoked, ReauthenticationRequired), EndPlain);
    } else {
      var s2 := s1.(core := core.(refreshAttempted := Some(r.generation)));
      KeepPublish(s2, RefreshPendingFrom(r.stable), ByOperation);
      var s3 := s2.Publish(RefreshPendingFrom(r.stable), ByOperation);
      HonestGrows(s.log, s3.log, r.stable);
      FirstRefreshKeepsEvidence(s3, t, r);
    }
  }

  lemma FirstRefreshKeepsEvidence(s: State, t: nat, r: Reservation)
    requires Evidence(s) && Honest(s.log, r.stable)
    ensures Evidence(s.Log(RefreshCalled(r.generation)).Put(t, Op(r, AtRefresh(s.nextTask))).Spawn(Op(r, AtRefreshTimer)))
  {
    var s1 := s.Log(RefreshCalled(r.generation)).Put(t, Op(r, AtRefresh(s.nextTask)));
    HonestGrows(s.log, s1.log, r.stable);
    MoveLogged(s, s1, t, RefreshCalled(r.generation));
    SpawnQuiet(s1, Op(r, AtRefreshTimer));
  }

  lemma TimeoutKeepsEvidence(s: State, t: nat, r: Reservation, timeout: TimeoutKind, fired: bool)
    requires Evidence(s) && (r.generation == s.core.generation ==> Honest(s.log, r.stable))
    ensures Evidence(AfterTimeout(s, t, r, timeout, fired))
  {
    hide Evidence, OwnerProven;
    if !s.core.Accepts(r) || !fired { EndKeepsEvidence(s, t, r, EndPlain); }
    else { WaitKeepsEvidence(s, t, r, TimedOutJob(r, timeout), EndPlain); }
  }

  /** The vault write or the owner binding has answered. */
  lemma WriteKeepsEvidence(s: State, t: nat, r: Reservation, at: OpPoint, input: Input)
    requires Structure(s) && Evidence(s) && t in s.tasks && s.tasks[t] == Op(r, at) && (at.AtReplace? || at.AtBind?)
    ensures Evidence(ResumeOp(s, t, r, at, input))
  {
    assert TaskEvidence(s.core.generation, s.log, s.tasks[t]);
    hide Evidence, Structure, OwnerProven, VerifiedIn, ReplacedIn, BoundIn, PublishAuthenticated, WaitFor, EndOperation;
    if at.written.Some? {
      if !s.core.Accepts(r) {
        EndKeepsEvidence(s, t, r, at.ending);
      } else if at.written.value != Applied {
        WaitKeepsEvidence(s, t, r, Wipe(SafeTerminalError, if at.AtReplace? then VaultCorrupt else OwnerMismatch), at.ending);
      } else if at.AtReplace? {
        MoveQuiet(s, ResumeOp(s, t, r, at, input), t);
      } else {
        AuthenticatedKeepsEvidence(s, t, r, at.candidate, at.subject, at.announce, at.ending);
      }
    }
  }

  lemma OpKeepsEvidence(s: State, t: nat, r: Reservation, at: OpPoint, input: Input)
    requires Structure(s) && Evidence(s) && t in s.tasks && s.tasks[t] == Op(r, at)
    ensures Evidence(ResumeOp(s, t, r, at, input))
  {
    var s' := ResumeOp(s, t, r, at, input);
    assert TaskEvidence(s.core.generation, s.log, s.tasks[t]);
    hide Evidence, Structure, OwnerProven, LogHonest, VerifiedIn, ReplacedIn, BoundIn, AfterVaultRead, AfterConsume, AfterExchange, AfterRefresh, AfterVerify, PublishAuthenticated, WaitFor, EndOperation, AfterCancelClock;
    match at
    case AtInitYield(_, _) => MoveQuiet(s, s', t);
    case AtVaultRead(online, timer, got) =>
      if got.Some? { VaultReadKeepsEvidence(s, t, r, online, timer, got.value); }
    case AtInitTimer => DropQuiet(s, s', t);
    case AtRefreshTimer => DropQuiet(s, s', t);
    case AtConsume => if input.ConsumeAnswer? { ConsumeKeepsEvidence(s, t, r, input.consumed); }
    case AtExchange =>
      if input.ExchangeAnswer? { ExchangeKeepsEvidence(s, t, r, input.exchanged, input.cancelled); }
    case AtRefresh(timer) => if input.RefreshAnswer? { RefreshKeepsEvidence(s, t, r, timer, input.refreshed); }
    case AtTimeoutSleep(timeout) => if input.Fired? { TimeoutKeepsEvidence(s, t, r, timeout, input.fired); }
    case AtCancelCallbackClock =>
      if input.Clock? { CancelClockKeepsEvidence(s, t, r, input.milliseconds, Transition(CanceledFrom(r.stable), [])); }
    case AtCancelRefreshClock =>
      if input.Clock? {
        CancelClockKeepsEvidence(s, t, r, input.milliseconds, Transition(OfflineFrom(r.stable, Canceled), [OFFLINE_ENTRY]));
      }
    case AtVerify(candidate, announce, ending) =>
      if input.VerifyAnswer? { VerifyKeepsEvidence(s, t, r, candidate, announce, ending, input.verified); }
    case AtReplace(_, _, _, _, _) => WriteKeepsEvidence(s, t, r, at, input);
    case AtBind(_, _, _, _, _) => WriteKeepsEvidence(s, t, r, at, input);
    case AtJoin(child, ending) => if child !in s.tasks { EndKeepsEvidence(s, t, r, ending); }
    case AtEndCancelTimers(_, _) => MoveQuiet(s, s', t);
    case AtEndJoinTimer(timer, _) => if timer !in s.tasks { DropQuiet(s, s', t); }
  }

  lemma CancelClockKeepsEvidence(s: State, t: nat, r: Reservation, now: nat, job: FenceJob)
    requires Evidence(s) && (r.generation == s.core.generation ==> JobHonest(s.log, job))
    ensures Evidence(AfterCancelClock(s, t, r, now, job))
  {
    DropQuiet(s, s.Drop(t), t);
    SpawnQuiet(s.Drop(t), Start(job, Some(r.generation)));
  }

  lemma AuthenticatedKeepsEvidence(s: State, t: nat, r: Reservation, c: Candidate, o: Subject, announce: bool, ending: Ending)
    requires Evidence(s) && s.core.Accepts(r) && BoundIn(s.log, r.generation, r.id, c, o) && Honest(s.log, r.stable)
    ensures Evidence(PublishAuthenticated(s, t, r, announce, ending))
  {
    var s1 := s.Publish(AUTHENTICATED_SNAPSHOT, ByVerifiedOwner(r.id));
    assert s1.log[..|s.log|] == s.log;
    assert AuthenticatedAt(s1.log, |s.log|) && NoWipeAfter(s1.log, |s.log|);
    KeepPublish(s, AUTHENTICATED_SNAPSHOT, ByVerifiedOwner(r.id));
    var s2 := if announce then s1.Enqueue(Authenticated, AUTHENTICATED_ENTRY) else s1;
    KeepQuiet(s1, s2);
    EndKeepsEvidence(s2, t, r, ending);
  }

  lemma VaultReadKeepsEvidence(s: State, t: nat, r: Reservation, online: bool, timer: nat,
                               got: PortResult<Option<Candidate>>)
    requires Evidence(s) && (r.generation == s.core.generation ==> Honest(s.log, r.stable))
    ensures Evidence(AfterVaultRead(s, t, r, online, timer, got))
  {
    var ending := EndInitialize(timer);
    if !s.core.Accepts(r) { EndKeepsEvidence(s, t, r, ending); }
    else {
      match got
      case PortSuccess(None) => PublishEndKeepsEvidence(s, t, r, SignedOutSnapshot(Success), None, ending);
      case PortSuccess(Some(candidate)) =>
        if online { MoveQuiet(s, AfterVaultRead(s, t, r, online, timer, got), t); }
        else { PublishEndKeepsEvidence(s, t, r, Offline(false), Some(OFFLINE_ENTRY), ending); }
      case PortTransient => PublishEndKeepsEvidence(s, t, r, TerminalSnapshot(TimedOut), Some(TERMINAL_ENTRY), ending);
      case PortForbidden =>
        PublishEndKeepsEvidence(s, t, r, SafeTerminal(r.stable, Forbidden), Some(TERMINAL_ENTRY), ending);
      case _ => WaitKeepsEvidence(s, t, r, Wipe(SafeTerminalError, VaultCorrupt), ending);
    }
  }

  lemma ConsumeKeepsEvidence(s: State, t: nat, r: Reservation, consumed: ConsumeResult)
    requires Evidence(s) && (r.generation == s.core.generation ==> Honest(s.log, r.stable))
    ensures Evidence(AfterConsume(s, t, r, consumed))
  {
    if !s.core.Accepts(r) { EndKeepsEvidence(s, t, r, EndPlain); }
    else {
      match consumed
      case Consumed(_) =>
        var s1 := s.Publish(CallbackPendingFrom(r.stable), ByOperation);
        KeepPublish(s, CallbackPendingFrom(r.stable), ByOperation);
        if r.stable.verifiedOwner { ProofGrows(s.log, s1.log); }
        MoveQuiet(s1, AfterConsume(s, t, r, consumed), t);
      case ConsumeDuplicate => EndKeepsEvidence(s, t, r, EndPlain);
      case ConsumeStale => EndKeepsEvidence(s, t, r, EndPlain);
      case ConsumeFailed => WaitKeepsEvidence(s, t, r, StoreFailure(r.stable), EndPlain);
      case _ => RejectKeepsEvidence(s, t, r);
    }
  }

  lemma RejectKeepsEvidence(s: State, t: nat, r: Reservation)
    requires Evidence(s) && (r.generation == s.core.generation ==> Honest(s.log, r.stable))
    ensures forall outcome :: Evidence(Reject(s, t, r, outcome))
  {
    forall outcome ensures Evidence(Reject(s, t, r, outcome)) {
      WaitKeepsEvidence(s, t, r, Transition(UnusableLinkFrom(r.stable, outcome), [UNUSABLE_LINK_ENTRY]), EndPlain);
    }
  }

  lemma ExchangeKeepsEvidence(s: State, t: nat, r: Reservation, exchanged: PortResult<Candidate>, cancelled: bool)
    requires Evidence(s) && (r.generation == s.core.generation ==> Honest(s.log, r.stable))
    ensures Evidence(AfterExchange(s, t, r, exchanged, cancelled))
  {
    if cancelled || !s.core.Accepts(r) { EndKeepsEvidence(s, t, r, EndPlain); }
    else {
      match exchanged
      case PortSuccess(session) => MoveQuiet(s, AfterExchange(s, t, r, exchanged, cancelled), t);
      case PortTransient =>
        WaitKeepsEvidence(s, t, r, Transition(CallbackTerminal(r.stable, TransientFailure), [TERMINAL_ENTRY]), EndPlain);
      case PortForbidden =>
        WaitKeepsEvidence(s, t, r, Transition(CallbackTerminal(r.stable, Forbidden), [TERMINAL_ENTRY]), EndPlain);
      case PortMalformed => RejectKeepsEvidence(s, t, r);
      case PortInvalidated => WaitKeepsEvidence(s, t, r, Wipe(ExpiredOrRevoked, ReauthenticationRequired), EndPlain);
    }
  }

  lemma RefreshKeepsEvidence(s: State, t: nat, r: Reservation, timer: nat, refreshed: PortResult<Candidate>)
    requires Evidence(s) && (r.generation == s.core.generation ==> Honest(s.log, r.stable))
    ensures Evidence(AfterRefresh(s, t, r, timer, refreshed))
  {
    var ending := EndRefresh(timer);
    if !s.core.Accepts(r) { EndKeepsEvidence(s, t, r, ending); }
    else {
      match refreshed
      case PortSuccess(value) => MoveQuiet(s, AfterRefresh(s, t, r, timer, refreshed), t);
      case PortTransient =>
        PublishEndKeepsEvidence(s, t, r, OfflineFrom(r.stable, TransientFailure), Some(OFFLINE_ENTRY), ending);
      case PortForbidden =>
        PublishEndKeepsEvidence(s, t, r, SafeTerminal(r.stable, Forbidden), Some(TERMINAL_ENTRY), ending);
      case _ => WaitKeepsEvidence(s, t, r, Wipe(ExpiredOrRevoked, ReauthenticationRequired), ending);
    }
  }

  lemma VerifyKeepsEvidence(s: State, t: nat, r: Reservation, c: Candidate, announce: bool, ending: Ending,
                            verified: PortResult<Subject>)
    requires Evidence(s) && (r.generation == s.core.generation ==> Honest(s.log, r.stable))
    ensures Evidence(AfterVerify(s, t, r, c, announce, ending, verified))
  {
    if !s.core.Accepts(r) { EndKeepsEvidence(s, t, r, ending); }
    else {
      match verified
      case PortSuccess(subject) =>
        var e := OwnerVerified(r.generation, r.id, c, subject);
        if r.stable.verifiedOwner { ProofGrows(s.log, s.log + [e]); }
        assert At(s.log + [e], |s.log|, e);
        MoveLogged(s, AfterVerify(s, t, r, c, announce, ending, verified), t, e);
      case PortTransient =>
        PublishEndKeepsEvidence(s, t, r, Offline(r.stable.verifiedOwner), Some(OFFLINE_ENTRY), ending);
      case PortForbidden =>
        PublishEndKeepsEvidence(s, t, r, SafeTerminal(r.stable, Forbidden), Some(TERMINAL_ENTRY), ending);
      case PortInvalidated => WaitKeepsEvidence(s, t, r, Wipe(ExpiredOrRevoked, ReauthenticationRequired), ending);
      case PortMalformed => WaitKeepsEvidence(s, t, r, Wipe(SafeTerminalError, OwnerMismatch), ending);
    }
  }

  /** A fence carries its job into a generation where every older promise is void. */
  lemma StartKeepsEvidence(s: State, t: nat, job: FenceJob, expected: Option<nat>)
    requires Structure(s) && Evidence(s) && t in s.tasks && s.tasks[t] == Start(job, expected)
    ensures Evidence(ResumeStart(s, t, job, expected))
  {
    var aim := if expected.Some? then expected.value else s.core.generation;
    var (core, taken) := s.core.InstallFence(aim);
    var s' := ResumeStart(s, t, job, expected);
    if taken.None? { NotReservedKeepsEvidence(s, t, core); }
    else {
      FencedKeepsEvidence(s, s', t, aim);
    }
  }

  lemma FencedKeepsEvidence(s: State, s': State, t: nat, aim: nat)
    requires Structure(s) && Evidence(s) && t in s.tasks && t in s'.tasks && s.tasks[t].Start?
    requires s'.tasks == s.tasks[t := s'.tasks[t]] && s'.tasks[t].Fence? && s'.tasks[t].job == s.tasks[t].job
    requires s.tasks[t].expected.Some? ==> s.tasks[t].expected.value == s.core.generation
    requires s'.core.generation == s.core.generation + 1 && s'.core.snapshot == s.core.snapshot
    requires s'.log == s.log + [Fenced(aim)]
    ensures Evidence(s')
  {
    LogHonestAppend(s.log, Fenced(aim));
    HonestGrows(s.log, s'.log, s.core.snapshot);
    forall u | u in s'.tasks ensures TaskEvidence(s'.core.generation, s'.log, s'.tasks[u]) {
      assert TaskEvidence(s.core.generation, s.log, s.tasks[u]) && TaskNumbers(s.core, s.tasks[u]);
      if u == t { JobHonestGrows(s.log, s'.log, s.tasks[t].job); }
      else { OlderEvidence(s.core, s.log, s'.log, s.tasks[u]); }
    }
  }

  lemma HonestGrows(log: seq<Event>, log': seq<Event>, sn: Snapshot)
    requires Grows(log, log') && Honest(log, sn)
    ensures Honest(log', sn)
  {
    if sn.verifiedOwner { ProofGrows(log, log'); }
  }

  lemma JobHonestGrows(log: seq<Event>, log': seq<Event>, job: FenceJob)
    requires Grows(log, log')
    ensures JobHonest(log, job) ==> JobHonest(log', job)
  {
    if JobHonest(log, job) && job.Transition? { HonestGrows(log, log', job.snapshot); }
    if JobHonest(log, job) && job.StoreFailure? { HonestGrows(log, log', job.stable); }
  }

  lemma PointEvidenceGrows(log: seq<Event>, log': seq<Event>, r: Reservation, at: OpPoint)
    requires log <= log' && PointEvidence(log, r, at)
    ensures PointEvidence(log', r, at)
  {
    if at.AtReplace? {
      VerifiedGrows(log, log', r, at.candidate, at.subject);
      ReplacedGrows(log, log', r, at.candidate, at.subject);
    }
    if at.AtBind? {
      ReplacedGrows(log, log', r, at.candidate, at.subject);
      BoundGrows(log, log', r.generation, r.id, at.candidate, at.subject);
    }
  }

  /** In the next generation nothing is asked of what an older continuation carries. */
  lemma OlderEvidence(core: Core, log: seq<Event>, log': seq<Event>, task: Task)
    requires log <= log' && TaskEvidence(core.generation, log, task) && TaskNumbers(core, task)
    ensures TaskEvidence(core.generation + 1, log', task)
  {
    if task.Op? { PointEvidenceGrows(log, log', task.r, task.at); }
  }

  lemma CommitKeepsEvidence(s: State, t: nat, f: Reservation, snapshot: Snapshot, payloads: seq<Payload>)
    requires Evidence(s) && Honest(s.log, snapshot)
    ensures Evidence(CommitTransition(s, t, f, snapshot, payloads))
  {
    hide Evidence, OwnerProven;
    KeepPublish(s, snapshot, ByTransition);
    EnqueueAllFrame(s.core.Publish(snapshot), f.generation, snapshot.state, payloads);
    DropQuiet(s.Publish(snapshot, ByTransition), CommitTransition(s, t, f, snapshot, payloads), t);
  }

  lemma WipeKeepsEvidence(s: State, t: nat, f: Reservation, goal: RuntimeState, outcome: Outcome, stage: nat,
                          done: Option<Mutation>, input: Input)
    requires Structure(s) && Evidence(s) && t in s.tasks && s.tasks[t].Fence? && s.tasks[t].f == f && s.core.Accepts(f)
    requires stage >= ACTIVATE
    ensures Evidence(AdvanceWipe(s, t, f, goal, outcome, stage, done, input))
  {
    hide Structure, Evidence, OwnerProven, PublishWipe;
    KeepLatchEvidence(s, t);
    MoveQuiet(s, s.Put(t, Fence(f, Wipe(goal, outcome), stage + 1, None)), t);
    PublishWipeKeepsEvidence(s, t, f, goal, outcome);
  }

  lemma FenceKeepsEvidence(s: State, t: nat, f: Reservation, job: FenceJob, stage: nat, done: Option<Mutation>,
                           input: Input)
    requires Structure(s) && Evidence(s) && t in s.tasks && s.tasks[t] == Fence(f, job, stage, done)
    ensures Evidence(ResumeFence(s, t, f, job, stage, done, input))
  {
    assert TaskEvidence(s.core.generation, s.log, s.tasks[t]);
    hide Evidence, Structure, OwnerProven, LogHonest, AdvanceStoreFailure, AdvanceWipe, CommitTransition;
    if IsWriteStage(job, stage) && done.None? {
    } else if !s.core.Accepts(f) {
      DropQuiet(s, LoseFence(s, t, f), t);
    } else if stage < ACTIVATE {
      MoveQuiet(s, s.Put(t, Fence(f, job, stage + 1, None)), t);
    } else {
      match job
      case Transition(snapshot, payloads) => CommitKeepsEvidence(s, t, f, snapshot, payloads);
      case Wipe(goal, outcome) => WipeKeepsEvidence(s, t, f, goal, outcome, stage, done, input);
      case StoreFailure(stable) => StoreFailureKeepsEvidence(s, t, f, stable, stage, done, input);
    }
  }

  lemma StoreFailureKeepsEvidence(s: State, t: nat, f: Reservation, stable: Snapshot, stage: nat,
                                  done: Option<Mutation>, input: Input)
    requires Evidence(s) && s.core.Accepts(f) && Honest(s.log, stable)
    ensures Evidence(AdvanceStoreFailure(s, t, f, stable, stage, done, input))
  {
    hide Evidence, OwnerProven, LogHonest;
    KeepLatchEvidence(s, t);
    MoveQuiet(s, s.Put(t, Fence(f, StoreFailure(stable), PURGE_CALLBACK, None)), t);
    MoveQuiet(s, s.Put(t, Fence(f, StoreFailure(stable), CONFIRM_PURGE, None)), t);
    var failed := CallbackTerminal(stable, TransientFailure);
    KeepPublish(s, failed, ByStoreFailure);
    var s1 := s.Publish(failed, ByStoreFailure);
    var s2 := s1.Enqueue(failed.state, TERMINAL_ENTRY);
    DropQuiet(s1, s2.(core := s2.core.Finish(f)).Drop(t), t);
  }

  /** A wipe ends every claim, and no continuation of its generation holds one. */
  lemma PublishWipeKeepsEvidence(s: State, t: nat, f: Reservation, goal: RuntimeState, outcome: Outcome)
    requires Structure(s) && Evidence(s) && t in s.tasks && s.tasks[t].Fence? && s.tasks[t].f == f && s.core.Accepts(f)
    ensures Evidence(PublishWipe(s, t, f, goal, outcome))
  {
    var s' := PublishWipe(s, t, f, goal, outcome);
    var snapshot := WipedSnapshot(goal, outcome);
    LogHonestAppend(s.log, Published(snapshot, s.core.generation, ByWipe));
    forall u | u in s'.tasks ensures TaskEvidence(s'.core.generation, s'.log, s'.tasks[u]) {
      assert Apart(s.tasks[u], f) && TaskEvidence(s.core.generation, s.log, s.tasks[u]);
      if s.tasks[u].Op? { PointEvidenceGrows(s.log, s'.log, s.tasks[u].r, s.tasks[u].at); }
    }
  }

  lemma ResumeKeepsEvidence(s: State, t: nat, input: Input)
    requires Structure(s) && Evidence(s)
    ensures Evidence(ResumeStep(s, t, input))
  {
    if t in s.tasks {
      match s.tasks[t]
      case Enter(entering) => if input.Clock? { EnterKeepsEvidence(s, t, entering, input.milliseconds); }
      case Op(r, at) => OpKeepsEvidence(s, t, r, at, input);
      case Start(job, expected) => StartKeepsEvidence(s, t, job, expected);
      case Fence(f, job, stage, done) => FenceKeepsEvidence(s, t, f, job, stage, done, input);
      case Announce(_, _, _, _, _) => DropQuiet(s, ResumeStep(s, t, input), t);
    }
  }

  lemma StepKeepsEvidence(s: State, a: Action)
    requires Structure(s) && Evidence(s)
    ensures Evidence(Step(s, a))
  {
    match a
    case Call(request) => CallKeepsEvidence(s, request);
    case Perform(t, wish) => PerformKeepsEvidence(s, t, wish);
    case ReadVault(t, refusal) => ReadVaultKeepsEvidence(s, t, refusal);
    case Resume(t, input) => ResumeKeepsEvidence(s, t, input);
  }
}
