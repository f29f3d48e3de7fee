/**
 The requests of callers from beginning to end, when nothing interferes: what is
 shown, what is announced, and what the stores hold afterwards
 (apps/ios/Fluyo/AuthRuntimeKernel.swift).
 */
module AuthRequests {
  import opened Basics
  import opened AuthKernel
  import opened AuthRuntime
  import opened AuthTheorems
  import opened AuthOutcomes
  import opened AuthAnswers

  /** Nothing is reserved, and an operation may begin. */
  predicate IsIdle(s: State) { CanFence(s) && s.core.active.None? && forall u | u in s.tasks :: u < s.nextTask }

  /** The reservation that an operation takes now. */
  function TakenNow(s: State, kind: OperationKind, now: nat): Reservation {
    Reservation(s.core.generation, s.core.nextReservation, kind, s.core.snapshot, s.core.stateVersion, now)
  }

  /** In the end nothing is under way that was not before, and this is shown. */
  predicate Rests(s: State, s': State, generation: nat, sn: Snapshot, ports: Ports) {
    && s'.core.snapshot == sn && s'.core.generation == generation && !s'.core.terminal && s'.core.active.None?
    && s'.ports == ports && s'.tasks == s.tasks
  }

  /** The only announcement of the new generation. */
  predicate SaysOnly(s: State, s': State, payload: Payload) {
    |s'.core.effects| == 1 && s'.core.effects[0].generation == s.core.generation + 1 && s'.core.effects[0].payload == payload
  }

  // ---------------------------------------------------------------- a refused request

  function AskSteps(t: nat, c: Candidate, now: nat): seq<Action> { [Call(Handle401(c)), Resume(t, Clock(now))] }

  /** A call only registers a task. */
  lemma Called(s: State, request: Request, entering: Entering)
    requires match request
      case Handle401(c) => entering == EnterRefresh(c)
      case ReceiveCallback => entering == EnterCallback
      case Initialize(online) => entering == EnterInitialize(online)
      case _ => false
    ensures var s' := Step(s, Call(request));
      s'.tasks == s.tasks[s.nextTask := Enter(entering)] && s'.nextTask == s.nextTask + 1 && s'.core == s.core && s'.ports == s.ports
  {
  }

  /** The actor once the operation is reserved. */
  function TakenCore(s: State, kind: OperationKind, now: nat): Core {
    s.core.(nextReservation := s.core.nextReservation + 1, active := Some(TakenNow(s, kind, now)))
  }

  function AskedCore(s: State, now: nat): Core {
    var sn := Snapshot(RefreshPending, Present, s.core.snapshot.verifiedOwner, s.core.snapshot.destination, None);
    ShownCore(TakenCore(s, RefreshKind, now), sn, None).(refreshAttempted := Some(s.core.generation))
  }

  lemma RefreshEnters(s: State, t: nat, c: Candidate, now: nat)
    requires !s.core.terminal && s.core.generation < MAX_GENERATION && s.core.active.None?
    requires t in s.tasks && s.tasks[t] == Enter(EnterRefresh(c)) && s.core.refreshAttempted != Some(s.core.generation)
    ensures var (r, s') := (TakenNow(s, RefreshKind, now), Step(s, Resume(t, Clock(now))));
      && s'.core == AskedCore(s, now) && s'.ports == s.ports && s'.nextTask == s.nextTask + 1
      && s'.tasks == s.tasks[t := Op(r, AtRefresh(s.nextTask))][s.nextTask := Op(r, AtRefreshTimer)]
  {
    hide ResumeOp, ResumeFence, ResumeStart;
  }

  lemma WithoutNew(tasks: map<nat, Task>, t: nat, a: Task, b: Task)
    requires t !in tasks && t + 1 !in tasks
    ensures tasks[t := a][t + 1 := b] - {t, t + 1} == tasks && tasks[t := a] - {t} == tasks
  {
  }

  /** The first refused request of a generation asks the provider, and shows that it does. */
  lemma RefreshBegins(s: State, c: Candidate, now: nat)
    requires IsIdle(s) && s.core.refreshAttempted != Some(s.core.generation)
    ensures var (t, r, s') := (s.nextTask, TakenNow(s, RefreshKind, now), Steps(s, AskSteps(s.nextTask, c, now)));
      && Waits(s', t, r, AtRefresh(t + 1), EndRefresh(t + 1)) && s'.nextTask == t + 2
      && s'.core == AskedCore(s, now) && s'.ports == s.ports && s'.tasks - {t, t + 1} == s.tasks
  {
    hide Step, Steps, Waits, AskedCore;
    var (t, r) := (s.nextTask, TakenNow(s, RefreshKind, now));
    TwoSteps(s, Call(Handle401(c)), Resume(t, Clock(now)));
    Called(s, Handle401(c), EnterRefresh(c));
    var s1 := Step(s, Call(Handle401(c)));
    RefreshEnters(s1, t, c, now);
    var s' := Step(s1, Resume(t, Clock(now)));
    assert AskedCore(s1, now) == AskedCore(s, now) by { AskedByCore(s1, s, now); }
    assert s'.tasks == s.tasks[t := Op(r, AtRefresh(t + 1))][t + 1 := Op(r, AtRefreshTimer)];
    WithoutNew(s.tasks, t, Op(r, AtRefresh(t + 1)), Op(r, AtRefreshTimer));
    RefreshWaits(s, s', t, now);
  }

  lemma AskedByCore(s1: State, s: State, now: nat)
    requires s1.core == s.core
    ensures AskedCore(s1, now) == AskedCore(s, now)
  {
  }

  lemma RefreshWaits(s: State, s': State, t: nat, now: nat)
    requires var r := TakenNow(s, RefreshKind, now);
      t == s.nextTask && s'.nextTask == t + 2 && s'.ports == s.ports && IsIdle(s) && s'.core == AskedCore(s, now)
      && s'.tasks == s.tasks[t := Op(r, AtRefresh(t + 1))][t + 1 := Op(r, AtRefreshTimer)]
    ensures Waits(s', t, TakenNow(s, RefreshKind, now), AtRefresh(t + 1), EndRefresh(t + 1))
  {
  }

  /** What the whole answer comes to, with the timers gone. */
  lemma TimersLeave(s: State, s1: State, t: nat, ending: Ending)
    requires s1.tasks - {t, t + 1} == s.tasks && ending == EndRefresh(t + 1)
    ensures s1.tasks - {t} - TimersOf(ending) == s.tasks
  {
    assert s1.tasks - {t} - TimersOf(ending) == s1.tasks - {t, t + 1};
  }

  function RefreshRun(s: State, c: Candidate, now: nat, answer: PortResult<Candidate>): seq<Action> {
    var t := s.nextTask;
    AskSteps(t, c, now) + ([Resume(t, RefreshAnswer(answer))]
      + if answer.PortInvalidated? || answer.PortMalformed? then WipeSteps(t + 2) + ([Resume(t, Done)] + EndingSteps(t, EndRefresh(t + 1)))
        else EndingSteps(t, EndRefresh(t + 1)))
  }

  /**
   A request refused with 401, from its call to its end: a session that the provider
   refuses or cannot read is wiped from both stores and shown as EXPIRED_OR_REVOKED;
   a transient failure shows OFFLINE and a forbidden one SAFE_TERMINAL_ERROR, with
   the owner and the destination from before, and the stores as they were.
   */
  lemma RefusedRequestRuns(s: State, c: Candidate, now: nat, answer: PortResult<Candidate>)
    requires IsIdle(s) && s.core.refreshAttempted != Some(s.core.generation) && !answer.PortSuccess?
    ensures var (s', was) := (Steps(s, RefreshRun(s, c, now, answer)), s.core.snapshot);
      match answer
      case PortTransient =>
        Rests(s, s', s.core.generation, Snapshot(OfflineSessionCandidate, Present, was.verifiedOwner, was.destination, Some(TransientFailure)), s.ports)
      case PortForbidden =>
        Rests(s, s', s.core.generation, Snapshot(SafeTerminalError, was.candidate, was.verifiedOwner, was.destination, Some(Forbidden)), s.ports)
      case _ =>
        && Rests(s, s', s.core.generation + 1, Snapshot(ExpiredOrRevoked, Absent, false, SignedOutScreen, Some(ReauthenticationRequired)),
                 Ports(s.core.generation + 1, None, None))
        && SaysOnly(s, s', Payload(Some(Heading), Some(SaySessionEnded), Some(Assertive), None))
  {
    hide Step, Steps, Waits, WipeSteps, EndingSteps, AskSteps, TimersOf, Kept, IsIdle, EndsShown, EndsWiped, AskedCore, Rests, SaysOnly;
    var (t, r, ending) := (s.nextTask, TakenNow(s, RefreshKind, now), EndRefresh(s.nextTask + 1));
    RefreshBegins(s, c, now);
    var s1 := Steps(s, AskSteps(t, c, now));
    RefreshEndsAs(s1, t, r, t + 1, answer);
    var go := [Resume(t, RefreshAnswer(answer))];
    if answer.PortInvalidated? || answer.PortMalformed? {
      StepsConcat(s, AskSteps(t, c, now), go + WipeOut(s1, t, ending));
      WipedRests(s, s1, Steps(s1, go + WipeOut(s1, t, ending)), t, now);
    } else {
      StepsConcat(s, AskSteps(t, c, now), go + EndingSteps(t, ending));
      ShownRests(s, s1, Steps(s1, go + EndingSteps(t, ending)), t, r, now,
                 if answer.PortTransient? then OfflineWith(r.stable, TransientFailure) else FailedWith(r.stable, Forbidden),
                 if answer.PortTransient? then Some(OFFLINE_HEARD) else Some(FAILED_HEARD));
    }
  }

  lemma WipedRests(s: State, s1: State, s': State, t: nat, now: nat)
    requires s1.core == AskedCore(s, now) && s1.ports == s.ports && s1.tasks - {t, t + 1} == s.tasks && IsIdle(s)
    requires EndsWiped(s1, s', t, EndRefresh(t + 1), ExpiredOrRevoked, ReauthenticationRequired)
    ensures Rests(s, s', s.core.generation + 1, Snapshot(ExpiredOrRevoked, Absent, false, SignedOutScreen, Some(ReauthenticationRequired)),
                  Ports(s.core.generation + 1, None, None))
    ensures SaysOnly(s, s', Payload(Some(Heading), Some(SaySessionEnded), Some(Assertive), None))
  {
    TimersLeave(s, s1, t, EndRefresh(t + 1));
  }

  lemma ShownRests(s: State, s1: State, s': State, t: nat, r: Reservation, now: nat, sn: Snapshot, payload: Option<Payload>)
    requires s1.core == AskedCore(s, now) && s1.ports == s.ports && s1.tasks - {t, t + 1} == s.tasks && IsIdle(s)
    requires EndsShown(s1, s', t, r, EndRefresh(t + 1), sn, payload)
    ensures Rests(s, s', s.core.generation, sn, s.ports)
  {
    hide Kept;
    TimersLeave(s, s1, t, EndRefresh(t + 1));
  }

  /** A session that the provider renews is checked, stored with its owner, and shown as authenticated, without a word. */
  lemma RenewedSessionIsStored(s: State, c: Candidate, now: nat, session: Candidate, subject: Subject)
    requires IsIdle(s) && s.core.refreshAttempted != Some(s.core.generation) && s.ports.cell == s.core.generation
    ensures var t := s.nextTask;
      var s' := Steps(s, AskSteps(t, c, now) + ([Resume(t, RefreshAnswer(PortSuccess(session)))] + StoringSteps(t, subject, EndRefresh(t + 1))));
      && Rests(s, s', s.core.generation, Snapshot(Authenticated, Present, true, InternalFoundationHome, Some(Success)),
               Ports(s.ports.cell, Some(session), Some(subject)))
      && s'.core.effects == Without(s.core.effects, s.core.generation)
  {
    hide Step, Steps, Waits, AskSteps, StoringSteps, IsIdle, AskedCore, Rests, EndsAuthenticated;
    var (t, r, ending) := (s.nextTask, TakenNow(s, RefreshKind, now), EndRefresh(s.nextTask + 1));
    var go := [Resume(t, RefreshAnswer(PortSuccess(session)))];
    RefreshBegins(s, c, now);
    var s1 := Steps(s, AskSteps(t, c, now));
    RefreshEndsAs(s1, t, r, t + 1, PortSuccess(session));
    var s2 := Steps(s1, go);
    OneStep(s1, go[0]);
    RefreshLeads(s1, t, r, t + 1, PortSuccess(session));
    AskedAgain(s, s1, now);
    CheckedOwnerIsStored(s2, t, r, session, subject, false, ending);
    StepsConcat(s, AskSteps(t, c, now), go + StoringSteps(t, subject, ending));
    StepsConcat(s1, go, StoringSteps(t, subject, ending));
    RenewedRests(s, s1, s2, Steps(s2, StoringSteps(t, subject, ending)), now, session, subject);
  }

  lemma AskedAgain(s: State, s1: State, now: nat)
    requires s1.core == AskedCore(s, now)
    ensures s1.core.generation == s.core.generation
  {
  }

  lemma RenewedRests(s: State, s1: State, s2: State, s': State, now: nat, session: Candidate, subject: Subject)
    requires s1.core == AskedCore(s, now) && s1.ports == s.ports && s1.tasks - {s.nextTask, s.nextTask + 1} == s.tasks && IsIdle(s)
    requires var (t, r) := (s.nextTask, TakenNow(s, RefreshKind, now)); s2 == s1.Put(t, Op(r, AtVerify(session, false, EndRefresh(t + 1))))
    requires EndsAuthenticated(s2, s', s.nextTask, TakenNow(s, RefreshKind, now), session, subject, false, EndRefresh(s.nextTask + 1))
    ensures Rests(s, s', s.core.generation, Snapshot(Authenticated, Present, true, InternalFoundationHome, Some(Success)),
                  Ports(s.ports.cell, Some(session), Some(subject)))
    ensures s'.core.effects == Without(s.core.effects, s.core.generation)
  {
    var t := s.nextTask;
    assert s2.tasks - {t} - {t + 1} == s1.tasks - {t, t + 1};
    assert s.core.effects + [] == s.core.effects;
  }

  /** The second one of a generation asks no one: the session is wiped. */
  lemma SecondRefusedRequestWipes(s: State, c: Candidate, now: nat)
    requires IsIdle(s) && s.core.refreshAttempted == Some(s.core.generation)
    ensures var t := s.nextTask;
      var s' := Steps(s, AskSteps(t, c, now) + (WipeSteps(t + 1) + ([Resume(t, Done)] + EndingSteps(t, EndPlain))));
      && Rests(s, s', s.core.generation + 1, Snapshot(ExpiredOrRevoked, Absent, false, SignedOutScreen, Some(ReauthenticationRequired)),
               Ports(s.core.generation + 1, None, None))
      && SaysOnly(s, s', Payload(Some(Heading), Some(SaySessionEnded), Some(Assertive), None))
  {
    hide Step, Steps, WipeSteps, AskSteps, EndingSteps, Joins, EndsWiped, Rests, SaysOnly, Waits;
    var (t, r) := (s.nextTask, TakenNow(s, RefreshKind, now));
    SecondBegins(s, c, now);
    var s1 := Steps(s, AskSteps(t, c, now));
    var s0 := s1.(tasks := s.tasks[t := Op(r, AtRefresh(t + 1))], nextTask := t + 1);
    SecondJoins(s, s0, s1, now);
    StepsConcat(s, AskSteps(t, c, now), WipeSteps(t + 1) + ([Resume(t, Done)] + EndingSteps(t, EndPlain)));
    WipedRuns(s0, s1, t, r, AtRefresh(t + 1), EndPlain, ExpiredOrRevoked, ReauthenticationRequired);
    SecondRests(s, s0, Steps(s1, WipeSteps(t + 1) + ([Resume(t, Done)] + EndingSteps(t, EndPlain))), now);
  }

  lemma SecondJoins(s: State, s0: State, s1: State, now: nat)
    requires IsIdle(s)
    requires var (t, r) := (s.nextTask, TakenNow(s, RefreshKind, now));
      && s1.tasks == s.tasks[t := Op(r, AtJoin(t + 1, EndPlain))][t + 1 := Start(Wipe(ExpiredOrRevoked, ReauthenticationRequired), Some(r.generation))]
      && s1.nextTask == t + 2 && s1.ports == s.ports && s1.core == TakenCore(s, RefreshKind, now)
      && s0 == s1.(tasks := s.tasks[t := Op(r, AtRefresh(t + 1))], nextTask := t + 1)
    ensures var (t, r) := (s.nextTask, TakenNow(s, RefreshKind, now));
      && Waits(s0, t, r, AtRefresh(t + 1), EndPlain) && Joins(s0, s1, t, r, EndPlain, Wipe(ExpiredOrRevoked, ReauthenticationRequired))
  {
  }

  lemma SecondRests(s: State, s0: State, s': State, now: nat)
    requires IsIdle(s) && s0.core == TakenCore(s, RefreshKind, now)
    requires s0.tasks == s.tasks[s.nextTask := Op(TakenNow(s, RefreshKind, now), AtRefresh(s.nextTask + 1))]
    requires EndsWiped(s0, s', s.nextTask, EndPlain, ExpiredOrRevoked, ReauthenticationRequired)
    ensures Rests(s, s', s.core.generation + 1, Snapshot(ExpiredOrRevoked, Absent, false, SignedOutScreen, Some(ReauthenticationRequired)),
                  Ports(s.core.generation + 1, None, None))
    ensures SaysOnly(s, s', Payload(Some(Heading), Some(SaySessionEnded), Some(Assertive), None))
  {
    assert s0.tasks - {s.nextTask} - TimersOf(EndPlain) == s.tasks;
  }

  lemma SecondEnters(s: State, t: nat, c: Candidate, now: nat)
    requires !s.core.terminal && s.core.generation < MAX_GENERATION && s.core.active.None?
    requires t in s.tasks && s.tasks[t] == Enter(EnterRefresh(c)) && s.core.refreshAttempted == Some(s.core.generation)
    ensures var (r, s') := (TakenNow(s, RefreshKind, now), Step(s, Resume(t, Clock(now))));
      && s'.core == TakenCore(s, RefreshKind, now) && s'.ports == s.ports && s'.nextTask == s.nextTask + 1
      && s'.tasks == s.tasks[t := Op(r, AtJoin(s.nextTask, EndPlain))]
                            [s.nextTask := Start(Wipe(ExpiredOrRevoked, ReauthenticationRequired), Some(r.generation))]
  {
    hide ResumeOp, ResumeFence, ResumeStart;
  }

  lemma SecondBegins(s: State, c: Candidate, now: nat)
    requires IsIdle(s) && s.core.refreshAttempted == Some(s.core.generation)
    ensures var (t, r, s') := (s.nextTask, TakenNow(s, RefreshKind, now), Steps(s, AskSteps(s.nextTask, c, now)));
      && s'.tasks == s.tasks[t := Op(r, AtJoin(t + 1, EndPlain))][t + 1 := Start(Wipe(ExpiredOrRevoked, ReauthenticationRequired), Some(r.generation))]
      && s'.nextTask == t + 2 && s'.ports == s.ports && s'.core == TakenCore(s, RefreshKind, now)
  {
    hide Step, Steps;
    var t := s.nextTask;
    TwoSteps(s, Call(Handle401(c)), Resume(t, Clock(now)));
    Called(s, Handle401(c), EnterRefresh(c));
    SecondEnters(Step(s, Call(Handle401(c))), t, c, now);
  }

  // ---------------------------------------------------------------- signing out and switching accounts

  lemma LeavingBegins(s: State, request: Request)
    requires CanFence(s) && s.nextTask !in s.tasks && (request == SignOutRequest || request == SwitchAccountRequest)
    ensures var s' := Step(s, Call(request));
      var goal := if request == SignOutRequest then SignedOut else AccountSwitching;
      IsStart(s', s.nextTask, Wipe(goal, Success)) && CanFence(s') && s'.core == s.core && s'.tasks - {s.nextTask} == s.tasks
  {
    assert Step(s, Call(request)).tasks - {s.nextTask} == s.tasks;
  }

  /**
   Signing out, or switching accounts, at any moment, even in the middle of another
   operation: both stores end up empty and the goal is shown.
   */
  lemma LeavingEmptiesTheStores(s: State, request: Request)
    requires CanFence(s) && s.nextTask !in s.tasks && (request == SignOutRequest || request == SwitchAccountRequest)
    ensures var s' := Steps(s, [Call(request)] + WipeSteps(s.nextTask));
      && Rests(s, s', s.core.generation + 1,
               Snapshot(if request == SignOutRequest then SignedOut else AccountSwitching, Absent, false, SignedOutScreen, Some(Success)),
               Ports(s.core.generation + 1, None, None))
      && SaysOnly(s, s', if request == SignOutRequest then Payload(Some(Heading), Some(SaySessionEnded), Some(Assertive), None)
                         else Payload(Some(Heading), Some(SayAccountSwitching), Some(Polite), None))
  {
    var s1 := Step(s, Call(request));
    LeavingBegins(s, request);
    FirstThen(s, Call(request), WipeSteps(s.nextTask));
    hide Step, Steps, WipeSteps, CanFence, IsStart;
    WipeEndsAt(s1, s.nextTask, if request == SignOutRequest then SignedOut else AccountSwitching, Success);
  }

  // ---------------------------------------------------------------- callbacks and the start

  /** A link is taken to the callback store under a reservation of its own, unless something is reserved. */
  lemma CallbackBegins(s: State, now: nat)
    requires IsIdle(s)
    ensures var (t, s') := (s.nextTask, Steps(s, [Call(ReceiveCallback), Resume(s.nextTask, Clock(now))]));
      && Waits(s', t, TakenNow(s, CallbackKind, now), AtConsume, EndPlain)
      && s'.core == TakenCore(s, CallbackKind, now) && s'.ports == s.ports && s'.tasks - {t} == s.tasks
  {
    hide Step, Steps;
    var (t, r) := (s.nextTask, TakenNow(s, CallbackKind, now));
    TwoSteps(s, Call(ReceiveCallback), Resume(t, Clock(now)));
    Called(s, ReceiveCallback, EnterCallback);
    CallbackEnters(Step(s, Call(ReceiveCallback)), t, now);
    var s' := Step(Step(s, Call(ReceiveCallback)), Resume(t, Clock(now)));
    assert s'.tasks == s.tasks[t := Op(r, AtConsume)];
    WithoutNew(s.tasks, t, Op(r, AtConsume), Op(r, AtConsume));
  }

  lemma CallbackEnters(s: State, t: nat, now: nat)
    requires !s.core.terminal && s.core.generation < MAX_GENERATION && s.core.active.None?
    requires t in s.tasks && s.tasks[t] == Enter(EnterCallback)
    ensures var (r, s') := (TakenNow(s, CallbackKind, now), Step(s, Resume(t, Clock(now))));
      && s'.core == TakenCore(s, CallbackKind, now) && s'.ports == s.ports && s'.nextTask == s.nextTask
      && s'.tasks == s.tasks[t := Op(r, AtConsume)]
  {
    hide ResumeOp, ResumeFence, ResumeStart, BeginRefresh;
  }

  lemma InitializeEnters(s: State, t: nat, online: bool, now: nat)
    requires !s.core.terminal && s.core.generation < MAX_GENERATION && s.core.active.None?
    requires t in s.tasks && s.tasks[t] == Enter(EnterInitialize(online))
    ensures var (r, s') := (TakenNow(s, InitializeKind, now), Step(s, Resume(t, Clock(now))));
      && s'.core == TakenCore(s, InitializeKind, now) && s'.ports == s.ports && s'.nextTask == s.nextTask + 1
      && s'.tasks == s.tasks[t := Op(r, AtInitYield(online, s.nextTask))][s.nextTask := Op(r, AtInitTimer)]
  {
    hide ResumeOp, ResumeFence, ResumeStart, BeginRefresh;
  }

  lemma VaultIsRead(s: State, t: nat, r: Reservation, online: bool, timer: nat, refusal: Option<PortResult<Option<Candidate>>>)
    requires t in s.tasks && s.tasks[t] == Op(r, AtInitYield(online, timer))
    ensures var s' := Step(Step(s, Resume(t, Done)), ReadVault(t, refusal));
      var got := if refusal.Some? && !refusal.value.PortSuccess? then refusal.value else PortSuccess(s.ports.vault);
      && s'.core == s.core && s'.ports == s.ports && s'.nextTask == s.nextTask
      && s'.tasks == s.tasks[t := Op(r, AtVaultRead(online, timer, Some(got)))]
  {
    hide ResumeFence, ResumeStart, ResumeEnter, AfterVaultRead, AfterInitTimer, AfterVerify, AfterConsume, AfterExchange, AfterRefresh, AfterTimeout;
    var s1 := Step(s, Resume(t, Done));
    assert s1.tasks == s.tasks[t := Op(r, AtVaultRead(online, timer, None))];
  }

  lemma FourSteps(s: State, a: Action, b: Action, c: Action, d: Action)
    ensures Steps(s, [a, b] + [c, d]) == Step(Step(Step(Step(s, a), b), c), d)
  {
    hide Step, Steps;
    TwoSteps(s, a, b);
    TwoSteps(Step(Step(s, a), b), c, d);
    StepsConcat(s, [a, b], [c, d]);
  }

  lemma InitializeReads(s: State, online: bool, now: nat, refusal: Option<PortResult<Option<Candidate>>>)
    requires IsIdle(s)
    ensures var (t, r) := (s.nextTask, TakenNow(s, InitializeKind, now));
      var s' := Step(Step(Step(Step(s, Call(Initialize(online))), Resume(t, Clock(now))), Resume(t, Done)), ReadVault(t, refusal));
      var got := if refusal.Some? && !refusal.value.PortSuccess? then refusal.value else PortSuccess(s.ports.vault);
      && s'.core == TakenCore(s, InitializeKind, now) && s'.ports == s.ports && s'.nextTask == t + 2
      && s'.tasks == s.tasks[t := Op(r, AtVaultRead(online, t + 1, Some(got)))][t + 1 := Op(r, AtInitTimer)]
  {
    hide Step, TakenCore;
    var (t, r) := (s.nextTask, TakenNow(s, InitializeKind, now));
    Called(s, Initialize(online), EnterInitialize(online));
    var s1 := Step(s, Call(Initialize(online)));
    TakenByCore(s1, s, InitializeKind, now);
    InitializeEnters(s1, t, online, now);
    VaultIsRead(Step(s1, Resume(t, Clock(now))), t, r, online, t + 1, refusal);
  }

  /** The start reads the vault: it gets what the vault holds, or the vault's refusal. */
  lemma InitializeBegins(s: State, online: bool, now: nat, refusal: Option<PortResult<Option<Candidate>>>)
    requires IsIdle(s)
    ensures var (t, r) := (s.nextTask, TakenNow(s, InitializeKind, now));
      var s' := Steps(s, [Call(Initialize(online)), Resume(t, Clock(now))] + [Resume(t, Done), ReadVault(t, refusal)]);
      var got := if refusal.Some? && !refusal.value.PortSuccess? then refusal.value else PortSuccess(s.ports.vault);
      && Waits(s', t, r, AtVaultRead(online, t + 1, Some(got)), EndInitialize(t + 1))
      && s'.core == TakenCore(s, InitializeKind, now) && s'.ports == s.ports && s'.tasks - {t, t + 1} == s.tasks
  {
    hide Step, Steps, Waits, TakenCore;
    var (t, r) := (s.nextTask, TakenNow(s, InitializeKind, now));
    var got := if refusal.Some? && !refusal.value.PortSuccess? then refusal.value else PortSuccess(s.ports.vault);
    var s' := Steps(s, [Call(Initialize(online)), Resume(t, Clock(now))] + [Resume(t, Done), ReadVault(t, refusal)]);
    FourSteps(s, Call(Initialize(online)), Resume(t, Clock(now)), Resume(t, Done), ReadVault(t, refusal));
    InitializeReads(s, online, now, refusal);
    WithoutNew(s.tasks, t, Op(r, AtVaultRead(online, t + 1, Some(got))), Op(r, AtInitTimer));
    InitializeWaits(s, s', t, now, AtVaultRead(online, t + 1, Some(got)));
  }

  lemma TakenByCore(s1: State, s: State, kind: OperationKind, now: nat)
    requires s1.core == s.core
    ensures TakenCore(s1, kind, now) == TakenCore(s, kind, now)
  {
  }

  lemma InitializeWaits(s: State, s': State, t: nat, now: nat, at: OpPoint)
    requires var r := TakenNow(s, InitializeKind, now);
      t == s.nextTask && s'.nextTask == t + 2 && s'.ports == s.ports && IsIdle(s) && s'.core == TakenCore(s, InitializeKind, now)
      && s'.tasks == s.tasks[t := Op(r, at)][t + 1 := Op(r, AtInitTimer)]
    ensures Waits(s', t, TakenNow(s, InitializeKind, now), at, EndInitialize(t + 1))
  {
  }

  /** While something is reserved, none of the three begins: their clock is read for nothing. */
  lemma NothingBeginsTwice(s: State, t: nat, entering: Entering, now: nat)
    requires t in s.tasks && s.tasks[t] == Enter(entering) && !entering.EnterTimeout? && (s.core.active.Some? || s.core.terminal)
    ensures Step(s, Resume(t, Clock(now))) == s.Drop(t)
  {
    hide ResumeOp, ResumeFence, ResumeStart;
  }

  /** A timeout watches the operation that is under way, or reserves when there is none; a fence is not timed. */
  lemma TimeoutBegins(s: State, t: nat, timeout: TimeoutKind, now: nat)
    requires t in s.tasks && s.tasks[t] == Enter(EnterTimeout(timeout)) && !s.core.terminal && s.core.generation < MAX_GENERATION
    ensures var s' := Step(s, Resume(t, Clock(now)));
      match s.core.active
      case None => s'.core.active == Some(TakenNow(s, TimerKind, now)) && s'.tasks == s.tasks[t := Op(TakenNow(s, TimerKind, now), AtTimeoutSleep(timeout))]
      case Some(r) =>
        s'.core == s.core && if r.kind == CleanupKind then s'.tasks == s.tasks - {t} else s'.tasks == s.tasks[t := Op(r, AtTimeoutSleep(timeout))]
  {
    hide ResumeOp, ResumeFence, ResumeStart, BeginRefresh;
  }

  /** A cancel captures the operation of its kind, if it is the one under way, and is nothing otherwise. */
  lemma CancelBegins(s: State, request: Request)
    requires request == CancelCallback || request == CancelRefresh
    ensures var s' := Step(s, Call(request));
      var (kind, at) := if request == CancelCallback then (CallbackKind, AtCancelCallbackClock) else (RefreshKind, AtCancelRefreshClock);
      if !s.core.terminal && s.core.active.Some? && s.core.active.value.kind == kind && s.core.active.value.generation == s.core.generation
      then s' == s.(tasks := s.tasks[s.nextTask := Op(s.core.active.value, at)], nextTask := s.nextTask + 1)
      else s' == s
  {
  }

  // ---------------------------------------------------------------- announcements

  /** A request refused with 403 shows what is there as failed, unless an operation or the latch has the say. */
  lemma ForbiddenShowsFailure(s: State)
    ensures var s' := Step(s, Call(Handle403));
      if s.core.terminal || s.core.active.Some? then s' == s
      else s'.core == ShownCore(s.core, Snapshot(SafeTerminalError, s.core.snapshot.candidate, s.core.snapshot.verifiedOwner,
                                                 s.core.snapshot.destination, Some(Forbidden)),
                                Some(Payload(Some(Heading), Some(SaySafeTerminalError), Some(Assertive), None)))
           && s'.ports == s.ports && s'.tasks == s.tasks
  {
  }

  /** One more announcement, of the state that is shown, and nothing else. */
  predicate Announces(s: State, s': State, payload: Payload) {
    var e := Effect(s.core.generation, s.core.nextSequence, s.core.snapshot.state, payload);
    s'.core == s.core.(effects := s.core.effects + [e], effectHistory := s.core.effectHistory + [e], nextSequence := s.core.nextSequence + 1)
  }

  /** A delayed announcement is made exactly if its timer fires and nothing was shown, fenced or latched since. */
  lemma DelayedAnnouncementIff(s: State, t: nat, generation: nat, version: nat, state: RuntimeState, message: Announcement,
                               priority: Priority, input: Input)
    requires t in s.tasks && s.tasks[t] == Announce(generation, version, state, message, priority)
    ensures var s' := Step(s, Resume(t, input));
      && s'.tasks == s.tasks - {t} && s'.ports == s.ports
      && if input == Fired(true) && !s.core.terminal && s.core.generation == generation && s.core.stateVersion == version
            && s.core.snapshot.state == state
         then Announces(s, s', Payload(None, Some(message), Some(priority), None))
         else s'.core == s.core
  {
    hide ResumeOp, ResumeFence, ResumeStart, ResumeEnter;
  }

  lemma AnnouncementIsScheduled(s: State, message: Announcement, priority: Priority)
    ensures var s' := Step(s, Call(ScheduleAnnouncement(message, priority)));
      if s.core.terminal then s' == s
      else s' == s.(tasks := s.tasks[s.nextTask := Announce(s.core.generation, s.core.stateVersion, s.core.snapshot.state, message, priority)],
                    nextTask := s.nextTask + 1)
  {
  }

  /** The timers of the start and of a refresh speak up exactly if their operation is still waiting and still shown as such. */
  lemma OperationTimerIff(s: State, t: nat, r: Reservation, at: OpPoint, input: Input)
    requires t in s.tasks && s.tasks[t] == Op(r, at) && (at == AtInitTimer || at == AtRefreshTimer)
    ensures var s' := Step(s, Resume(t, input));
      && s'.tasks == s.tasks - {t} && s'.ports == s.ports
      && if at == AtInitTimer && input == Fired(true) && s.core.Accepts(r) && s.core.stateVersion == r.stateVersion
            && s.core.snapshot.state == Initializing
         then Announces(s, s', Payload(None, Some(SayInitializing), Some(Polite), None))
         else if at == AtRefreshTimer && input == Fired(true) && s.core.Accepts(r) && s.core.snapshot.state == RefreshPending
         then Announces(s, s', Payload(Some(Heading), Some(SayRefreshPending), Some(Polite), None))
         else s'.core == s.core
  {
    hide ResumeFence, ResumeStart, ResumeEnter, AfterVaultRead, AfterConsume, AfterExchange, AfterRefresh, AfterVerify, AfterTimeout;
  }

  /** Draining hands out the queue of the present generation, and nothing for any other. */
  lemma DrainHandsOut(s: State, generation: nat)
    ensures var s' := Step(s, Call(DrainEffects(generation)));
      && s'.log == s.log + [Drained(if generation == s.core.generation then s.core.effects else [])]
      && s'.core == s.core.(effects := if generation == s.core.generation then [] else s.core.effects)
  {
  }
}
