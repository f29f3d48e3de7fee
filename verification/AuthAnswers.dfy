/**
 What every answer of a port, and every request of a caller, comes to when it is
 left alone: the snapshot that is shown, the announcement, and what the stores hold
 in the end (apps/ios/Fluyo/AuthRuntimeKernel.swift).
 */
module AuthAnswers {
  import opened Basics
  import opened AuthKernel
  import opened AuthRuntime
  import opened AuthTheorems
  import opened AuthOutcomes

  // ---------------------------------------------------------------- how an operation ends

  /** The timers of an operation that waits for its own announcement. */
  function TimersOf(ending: Ending): set<nat> {
    match ending
    case EndPlain => {}
    case EndInitialize(timer) => {timer}
    case EndRefresh(timer) => {timer}
  }

  /** Timers are cancelled and awaited before the operation is over. */
  function EndingSteps(t: nat, ending: Ending): seq<Action> {
    match ending
    case EndPlain => []
    case EndInitialize(timer) => [Resume(t, Done), Resume(timer, Fired(false))] + [Resume(t, Done)]
    case EndRefresh(timer) => [Resume(t, Done), Resume(timer, Fired(false))] + [Resume(t, Done)]
  }

  /** A refresh that is over takes back its own announcements. */
  function Kept(ending: Ending, generation: nat, effects: seq<Effect>): seq<Effect> {
    if ending.EndRefresh? then Without(effects, generation) else effects
  }

  predicate HasTimer(s: State, t: nat, r: Reservation, ending: Ending) {
    match ending
    case EndPlain => true
    case EndInitialize(timer) => timer in s.tasks && timer != t && s.tasks[timer] == Op(r, AtInitTimer)
    case EndRefresh(timer) => timer in s.tasks && timer != t && s.tasks[timer] == Op(r, AtRefreshTimer)
  }

  /** The operation is suspended, still accepted, and free to fence. */
  predicate Waits(s: State, t: nat, r: Reservation, at: OpPoint, ending: Ending) {
    && t in s.tasks && s.tasks[t] == Op(r, at) && s.core.Accepts(r) && CanFence(s)
    && s.nextTask !in s.tasks && HasTimer(s, t, r, ending)
  }

  lemma TimerEnds(s: State, timer: nat, r: Reservation, at: OpPoint)
    requires timer in s.tasks && s.tasks[timer] == Op(r, at) && (at == AtInitTimer || at == AtRefreshTimer)
    ensures Step(s, Resume(timer, Fired(false))) == s.Drop(timer)
  {
    hide ResumeFence, ResumeEnter, ResumeStart;
  }

  lemma TimersAreCancelled(s: State, t: nat, r: Reservation, timer: nat, ending: Ending)
    requires t in s.tasks && s.tasks[t] == Op(r, AtEndCancelTimers(timer, ending))
    ensures Step(s, Resume(t, Done)) == s.Put(t, Op(r, AtEndJoinTimer(timer, ending)))
  {
    hide ResumeFence, ResumeEnter, ResumeStart, AfterVaultRead, AfterInitTimer;
  }

  lemma TimerIsJoined(s: State, t: nat, r: Reservation, timer: nat, ending: Ending)
    requires t in s.tasks && s.tasks[t] == Op(r, AtEndJoinTimer(timer, ending)) && timer !in s.tasks
    ensures var s' := Step(s, Resume(t, Done));
      s'.tasks == s.tasks - {t} && s'.ports == s.ports && s'.nextTask == s.nextTask
      && s'.core == s.core.(effects := Kept(ending, r.generation, s.core.effects)).Finish(r)
  {
    hide ResumeFence, ResumeEnter, ResumeStart, AfterVaultRead, AfterInitTimer;
  }

  lemma Closes(s: State, t: nat, r: Reservation, timer: nat, ending: Ending)
    requires ending == EndInitialize(timer) || ending == EndRefresh(timer)
    requires t in s.tasks && s.tasks[t] == Op(r, AtEndCancelTimers(timer, ending)) && HasTimer(s, t, r, ending)
    ensures var s' := Steps(s, EndingSteps(t, ending));
      s'.tasks == s.tasks - {t} - TimersOf(ending) && s'.ports == s.ports && s'.nextTask == s.nextTask
      && s'.core == s.core.(effects := Kept(ending, r.generation, s.core.effects)).Finish(r)
  {
    hide Step, Steps, Kept;
    var s1 := Step(s, Resume(t, Done));
    TimersAreCancelled(s, t, r, timer, ending);
    var s2 := Step(s1, Resume(timer, Fired(false)));
    TimerEnds(s1, timer, r, if ending.EndRefresh? then AtRefreshTimer else AtInitTimer);
    TimerIsJoined(s2, t, r, timer, ending);
    TwoSteps(s, Resume(t, Done), Resume(timer, Fired(false)));
    OneStep(s2, Resume(t, Done));
    StepsConcat(s, [Resume(t, Done), Resume(timer, Fired(false))], [Resume(t, Done)]);
    assert s2.tasks - {t} == s.tasks - {t} - TimersOf(ending);
  }

  // ---------------------------------------------------------------- four ways to go on

  /** The actor once it has shown something in its own generation. */
  function ShownCore(c: Core, sn: Snapshot, payload: Option<Payload>): Core {
    var e := match payload case None => [] case Some(p) => [Effect(c.generation, c.nextSequence, sn.state, p)];
    c.(snapshot := sn, stateVersion := c.stateVersion + 1, published := c.published + [(sn, c.generation)],
       effects := c.effects + e, effectHistory := c.effectHistory + e, nextSequence := c.nextSequence + |e|)
  }

  /** The operation shows the snapshot and is about to end. */
  predicate Shows(s: State, s': State, t: nat, r: Reservation, ending: Ending, sn: Snapshot, payload: Option<Payload>) {
    && s'.ports == s.ports && s'.nextTask == s.nextTask
    && (if ending.EndPlain? then s'.tasks == s.tasks - {t} && s'.core == ShownCore(s.core, sn, payload).Finish(r)
        else s'.tasks == s.tasks[t := Op(r, AtEndCancelTimers(ending.timer, ending))]
             && s'.core == ShownCore(s.core, sn, payload))
  }

  /** The operation waits for a fence that it started. */
  predicate Joins(s: State, s': State, t: nat, r: Reservation, ending: Ending, job: FenceJob) {
    && s'.tasks == s.tasks[t := Op(r, AtJoin(s.nextTask, ending))][s.nextTask := Start(job, Some(r.generation))]
    && s'.nextTask == s.nextTask + 1 && s'.core == s.core && s'.ports == s.ports
  }

  /** In the end: shown in the same generation. */
  predicate EndsShown(s: State, s': State, t: nat, r: Reservation, ending: Ending, sn: Snapshot, payload: Option<Payload>) {
    && s'.core == ShownCore(s.core, sn, payload).(active := None, effects := Kept(ending, r.generation, ShownCore(s.core, sn, payload).effects))
    && s'.tasks == s.tasks - {t} - TimersOf(ending) && s'.ports == s.ports
  }

  /** In the end: shown by a fence, in the next generation, with the stores as they were. */
  predicate EndsMoved(s: State, s': State, t: nat, ending: Ending, sn: Snapshot, payload: Option<Payload>) {
    && s'.core == FencedCore(s.core, sn, match payload
                                         case None => []
                                         case Some(p) => [Effect(s.core.generation + 1, s.core.nextSequence, sn.state, p)])
    && s'.tasks == s.tasks - {t} - TimersOf(ending) && s'.ports == s.ports.(cell := s.core.generation + 1)
  }

  /** In the end: both stores are empty, and the snapshot claims nothing. */
  predicate EndsWiped(s: State, s': State, t: nat, ending: Ending, goal: RuntimeState, outcome: Outcome) {
    && s'.core == FencedCore(s.core, Snapshot(goal, Absent, false, SignedOutScreen, Some(outcome)),
                             [Effect(s.core.generation + 1, s.core.nextSequence, goal, Farewell(goal))])
    && s'.tasks == s.tasks - {t} - TimersOf(ending) && s'.ports == Ports(s.core.generation + 1, None, None)
  }

  lemma ShownRuns(s: State, s1: State, t: nat, r: Reservation, at: OpPoint, ending: Ending, sn: Snapshot, payload: Option<Payload>)
    requires Waits(s, t, r, at, ending) && Shows(s, s1, t, r, ending, sn, payload)
    ensures EndsShown(s, Steps(s1, EndingSteps(t, ending)), t, r, ending, sn, payload)
  {
    if ending.EndPlain? {
      assert Steps(s1, []) == s1;
    } else {
      hide Step, Steps, Kept;
      Closes(s1, t, r, ending.timer, ending);
      assert s1.tasks - {t} - TimersOf(ending) == s.tasks - {t} - TimersOf(ending);
    }
  }

  /** Behind a fence the operation has nothing left to finish or to take back. */
  lemma NothingIsLeft(c: Core, sn: Snapshot, effects: seq<Effect>, ending: Ending, r: Reservation)
    requires |effects| <= 1 && (effects != [] ==> effects[0].generation == c.generation + 1) && r.generation == c.generation
    ensures var c' := FencedCore(c, sn, effects); c'.(effects := Kept(ending, r.generation, c'.effects)).Finish(r) == c'
  {
    assert Without(effects, r.generation) == effects by {
      if effects != [] { assert effects == [effects[0]] && effects[1..] == [] && Without([], r.generation) == []; }
    }
  }

  lemma JoinReturns(s: State, t: nat, r: Reservation, child: nat, ending: Ending)
    requires t in s.tasks && s.tasks[t] == Op(r, AtJoin(child, ending)) && child !in s.tasks
    ensures var s' := Step(s, Resume(t, Done));
      && s'.ports == s.ports && s'.nextTask == s.nextTask
      && (if ending.EndPlain? then s'.tasks == s.tasks - {t} && s'.core == s.core.Finish(r)
          else s'.tasks == s.tasks[t := Op(r, AtEndCancelTimers(ending.timer, ending))]
               && s'.core == s.core)
  {
    hide ResumeFence, ResumeEnter, ResumeStart, AfterVaultRead, AfterInitTimer;
  }

  /** Whatever the fence has done, the operation that waited for it ends without a trace. */
  lemma FenceReturns(s: State, s2: State, t: nat, r: Reservation, at: OpPoint, ending: Ending, sn: Snapshot, effects: seq<Effect>)
    requires Waits(s, t, r, at, ending)
    requires |effects| <= 1 && (effects != [] ==> effects[0].generation == s.core.generation + 1)
    requires s2.core == FencedCore(s.core, sn, effects)
    requires s2.tasks == s.tasks[t := Op(r, AtJoin(s.nextTask, ending))]
    ensures var s' := Steps(s2, [Resume(t, Done)] + EndingSteps(t, ending));
      s'.core == s2.core && s'.ports == s2.ports && s'.tasks == s.tasks - {t} - TimersOf(ending)
  {
    hide Step, Steps, Kept, FencedCore, CanFence;
    NothingIsLeft(s.core, sn, effects, ending, r);
    assert s2.core.Finish(r) == s2.core by { NothingIsLeft(s.core, sn, effects, EndPlain, r); KeptPlainly(s2.core, r.generation); }
    JoinReturns(s2, t, r, s.nextTask, ending);
    OneStep(s2, Resume(t, Done));
    var s3 := Step(s2, Resume(t, Done));
    StepsConcat(s2, [Resume(t, Done)], EndingSteps(t, ending));
    if ending.EndPlain? {
      assert Steps(s3, []) == s3 by { NoSteps(s3); }
      assert s2.tasks - {t} == s.tasks - {t} - TimersOf(ending);
    } else {
      Closes(s3, t, r, ending.timer, ending);
      assert s3.tasks - {t} - TimersOf(ending) == s.tasks - {t} - TimersOf(ending);
    }
  }

  lemma NoSteps(s: State)
    ensures Steps(s, []) == s
  {
  }

  lemma KeptPlainly(c: Core, generation: nat)
    ensures c.(effects := Kept(EndPlain, generation, c.effects)) == c
  {
  }

  lemma WipedRuns(s: State, s1: State, t: nat, r: Reservation, at: OpPoint, ending: Ending, goal: RuntimeState, outcome: Outcome)
    requires Waits(s, t, r, at, ending) && Joins(s, s1, t, r, ending, Wipe(goal, outcome)) && IsGoal(goal) && !goal.SignedOut?
    ensures EndsWiped(s, Steps(s1, WipeSteps(s.nextTask) + ([Resume(t, Done)] + EndingSteps(t, ending))), t, ending, goal, outcome)
  {
    var child := s.nextTask;
    assert CanFence(s1) && IsStart(s1, child, Wipe(goal, outcome));
    hide Step, Steps, FencedCore, CanFence, IsStart, Farewell, WipeSteps, EndingSteps;
    WipeEndsAt(s1, child, goal, outcome);
    var s2 := Steps(s1, WipeSteps(child));
    assert s2.tasks == s.tasks[t := Op(r, AtJoin(child, ending))];
    FenceReturns(s, s2, t, r, at, ending, Snapshot(goal, Absent, false, SignedOutScreen, Some(outcome)),
                 [Effect(s.core.generation + 1, s.core.nextSequence, goal, Farewell(goal))]);
    StepsConcat(s1, WipeSteps(child), [Resume(t, Done)] + EndingSteps(t, ending));
  }

  lemma MovedRuns(s: State, s1: State, t: nat, r: Reservation, at: OpPoint, ending: Ending, sn: Snapshot, payload: Option<Payload>)
    requires Waits(s, t, r, at, ending) && Joins(s, s1, t, r, ending, Transition(sn, Payloads(payload)))
    ensures EndsMoved(s, Steps(s1, TransitionSteps(s.nextTask) + ([Resume(t, Done)] + EndingSteps(t, ending))), t, ending, sn, payload)
  {
    var child := s.nextTask;
    assert CanFence(s1) && IsStart(s1, child, Transition(sn, Payloads(payload)));
    hide Step, Steps, FencedCore, CanFence, IsStart, TransitionSteps, EndingSteps;
    TransitionEndsAt(s1, child, sn, payload);
    var s2 := Steps(s1, TransitionSteps(child));
    assert s2.tasks == s.tasks[t := Op(r, AtJoin(child, ending))];
    FenceReturns(s, s2, t, r, at, ending, sn, match payload
                                              case None => []
                                              case Some(p) => [Effect(s.core.generation + 1, s.core.nextSequence, sn.state, p)]);
    StepsConcat(s1, TransitionSteps(child), [Resume(t, Done)] + EndingSteps(t, ending));
  }

  lemma PurgedRuns(s: State, s1: State, t: nat, r: Reservation, at: OpPoint, stable: Snapshot)
    requires Waits(s, t, r, at, EndPlain) && Joins(s, s1, t, r, EndPlain, StoreFailure(stable))
    ensures EndsMoved(s, Steps(s1, PurgeSteps(s.nextTask) + [Resume(t, Done)]), t, EndPlain,
                      Snapshot(SafeTerminalError, if stable.verifiedOwner then stable.candidate else Absent, stable.verifiedOwner,
                               stable.destination, Some(TransientFailure)),
                      Some(Heard(SaySafeTerminalError, Assertive)))
  {
    var child := s.nextTask;
    var sn := Snapshot(SafeTerminalError, if stable.verifiedOwner then stable.candidate else Absent, stable.verifiedOwner,
                       stable.destination, Some(TransientFailure));
    assert CanFence(s1) && IsStart(s1, child, StoreFailure(stable));
    hide Step, Steps, FencedCore, CanFence, IsStart, PurgeSteps, Heard;
    PurgeEndsAt(s1, child, stable);
    var s2 := Steps(s1, PurgeSteps(child));
    assert s2.tasks == s.tasks[t := Op(r, AtJoin(child, EndPlain))];
    FenceReturns(s, s2, t, r, at, EndPlain, sn,
                 [Effect(s.core.generation + 1, s.core.nextSequence, sn.state, Heard(SaySafeTerminalError, Assertive))]);
    StepsConcat(s1, PurgeSteps(child), [Resume(t, Done)]);
    assert [Resume(t, Done)] + EndingSteps(t, EndPlain) == [Resume(t, Done)];
  }

  // ---------------------------------------------------------------- the answer to a refresh

  /** What is shown of a stable snapshot that goes offline, fails, or had an unusable link. */
  function OfflineWith(stable: Snapshot, outcome: Outcome): Snapshot {
    Snapshot(OfflineSessionCandidate, Present, stable.verifiedOwner, stable.destination, Some(outcome))
  }

  function FailedWith(stable: Snapshot, outcome: Outcome): Snapshot {
    Snapshot(SafeTerminalError, stable.candidate, stable.verifiedOwner, stable.destination, Some(outcome))
  }

  /** A callback keeps the candidate only of a verified owner. */
  function CallbackShows(stable: Snapshot, state: RuntimeState, outcome: Option<Outcome>): Snapshot {
    Snapshot(state, if stable.verifiedOwner then stable.candidate else Absent, stable.verifiedOwner, stable.destination, outcome)
  }

  const OFFLINE_HEARD := Heard(SayOfflineCandidate, Polite)
  const FAILED_HEARD := Heard(SaySafeTerminalError, Assertive)
  const UNUSABLE_HEARD := Heard(SayUnusableLink, Assertive)

  /** The steps after an answer that wipes. */
  function WipeOut(s: State, t: nat, ending: Ending): seq<Action> {
    WipeSteps(s.nextTask) + ([Resume(t, Done)] + EndingSteps(t, ending))
  }

  function MoveOn(s: State, t: nat, ending: Ending): seq<Action> {
    TransitionSteps(s.nextTask) + ([Resume(t, Done)] + EndingSteps(t, ending))
  }

  lemma FirstThen(s: State, a: Action, rest: seq<Action>)
    ensures Steps(s, [a] + rest) == Steps(Step(s, a), rest)
  {
    hide Step;
    assert ([a] + rest)[1..] == rest;
  }

  lemma RefreshLeads(s: State, t: nat, r: Reservation, timer: nat, answer: PortResult<Candidate>)
    requires Waits(s, t, r, AtRefresh(timer), EndRefresh(timer))
    ensures var s' := Step(s, Resume(t, RefreshAnswer(answer)));
      match answer
      case PortSuccess(session) => s' == s.Put(t, Op(r, AtVerify(session, false, EndRefresh(timer))))
      case PortTransient => Shows(s, s', t, r, EndRefresh(timer), OfflineWith(r.stable, TransientFailure), Some(OFFLINE_HEARD))
      case PortForbidden => Shows(s, s', t, r, EndRefresh(timer), FailedWith(r.stable, Forbidden), Some(FAILED_HEARD))
      case PortInvalidated => Joins(s, s', t, r, EndRefresh(timer), Wipe(ExpiredOrRevoked, ReauthenticationRequired))
      case PortMalformed => Joins(s, s', t, r, EndRefresh(timer), Wipe(ExpiredOrRevoked, ReauthenticationRequired))
  {
    hide ResumeFence, ResumeEnter, ResumeStart, AfterVaultRead, AfterInitTimer, AfterConsume, AfterExchange, AfterVerify, AfterTimeout;
  }

  /**
   A refresh that the provider answers: a refused or unreadable session ends
   EXPIRED_OR_REVOKED with both stores empty; a transient failure goes offline and a
   forbidden one fails, each with the owner that was stable before and the stores as
   they were; and a new session goes on to the owner check.
   */
  lemma RefreshEndsAs(s: State, t: nat, r: Reservation, timer: nat, answer: PortResult<Candidate>)
    requires Waits(s, t, r, AtRefresh(timer), EndRefresh(timer))
    ensures var (go, ending) := ([Resume(t, RefreshAnswer(answer))], EndRefresh(timer));
      match answer
      case PortSuccess(session) => Waits(Steps(s, go), t, r, AtVerify(session, false, ending), ending) && Steps(s, go).ports == s.ports
      case PortTransient => EndsShown(s, Steps(s, go + EndingSteps(t, ending)), t, r, ending, OfflineWith(r.stable, TransientFailure), Some(OFFLINE_HEARD))
      case PortForbidden => EndsShown(s, Steps(s, go + EndingSteps(t, ending)), t, r, ending, FailedWith(r.stable, Forbidden), Some(FAILED_HEARD))
      case PortInvalidated => EndsWiped(s, Steps(s, go + WipeOut(s, t, ending)), t, ending, ExpiredOrRevoked, ReauthenticationRequired)
      case PortMalformed => EndsWiped(s, Steps(s, go + WipeOut(s, t, ending)), t, ending, ExpiredOrRevoked, ReauthenticationRequired)
  {
    var (a, ending) := (Resume(t, RefreshAnswer(answer)), EndRefresh(timer));
    RefreshLeads(s, t, r, timer, answer);
    var s1 := Step(s, a);
    OneStep(s, a);
    FirstThen(s, a, EndingSteps(t, ending));
    FirstThen(s, a, WipeOut(s, t, ending));
    hide Step, Steps, EndsShown, EndsWiped, EndingSteps, WipeSteps, Joins, Shows, CanFence;
    match answer
    case PortSuccess(session) =>
    case PortTransient => ShownRuns(s, s1, t, r, AtRefresh(timer), ending, OfflineWith(r.stable, TransientFailure), Some(OFFLINE_HEARD));
    case PortForbidden => ShownRuns(s, s1, t, r, AtRefresh(timer), ending, FailedWith(r.stable, Forbidden), Some(FAILED_HEARD));
    case PortInvalidated => WipedRuns(s, s1, t, r, AtRefresh(timer), ending, ExpiredOrRevoked, ReauthenticationRequired);
    case PortMalformed => WipedRuns(s, s1, t, r, AtRefresh(timer), ending, ExpiredOrRevoked, ReauthenticationRequired);
  }

  // ---------------------------------------------------------------- the owner check

  lemma VerifyLeads(s: State, t: nat, r: Reservation, candidate: Candidate, announce: bool, ending: Ending, answer: PortResult<Subject>)
    requires Waits(s, t, r, AtVerify(candidate, announce, ending), ending)
    ensures var s' := Step(s, Resume(t, VerifyAnswer(answer)));
      match answer
      case PortSuccess(subject) => s' == s.Log(OwnerVerified(r.generation, r.id, candidate, subject))
                                          .Put(t, Op(r, AtReplace(candidate, subject, announce, ending, None)))
      case PortTransient =>
        Shows(s, s', t, r, ending, Snapshot(OfflineSessionCandidate, Present, r.stable.verifiedOwner, SignedOutScreen, Some(Success)),
              Some(OFFLINE_HEARD))
      case PortForbidden => Shows(s, s', t, r, ending, FailedWith(r.stable, Forbidden), Some(FAILED_HEARD))
      case PortInvalidated => Joins(s, s', t, r, ending, Wipe(ExpiredOrRevoked, ReauthenticationRequired))
      case PortMalformed => Joins(s, s', t, r, ending, Wipe(SafeTerminalError, OwnerMismatch))
  {
    hide ResumeFence, ResumeEnter, ResumeStart, AfterVaultRead, AfterInitTimer, AfterConsume, AfterExchange, AfterRefresh, AfterTimeout;
  }

  /**
   The owner check of any operation: a refused session ends EXPIRED_OR_REVOKED and an
   unreadable owner SAFE_TERMINAL_ERROR, both with empty stores; otherwise the stores
   stay, a transient failure goes offline, and a forbidden one fails.
   */
  lemma VerifyEndsAs(s: State, t: nat, r: Reservation, candidate: Candidate, announce: bool, ending: Ending, answer: PortResult<Subject>)
    requires Waits(s, t, r, AtVerify(candidate, announce, ending), ending)
    ensures var go := [Resume(t, VerifyAnswer(answer))];
      match answer
      case PortSuccess(subject) =>
        Waits(Steps(s, go), t, r, AtReplace(candidate, subject, announce, ending, None), ending) && Steps(s, go).ports == s.ports
      case PortTransient =>
        EndsShown(s, Steps(s, go + EndingSteps(t, ending)), t, r, ending,
                  Snapshot(OfflineSessionCandidate, Present, r.stable.verifiedOwner, SignedOutScreen, Some(Success)), Some(OFFLINE_HEARD))
      case PortForbidden => EndsShown(s, Steps(s, go + EndingSteps(t, ending)), t, r, ending, FailedWith(r.stable, Forbidden), Some(FAILED_HEARD))
      case PortInvalidated => EndsWiped(s, Steps(s, go + WipeOut(s, t, ending)), t, ending, ExpiredOrRevoked, ReauthenticationRequired)
      case PortMalformed => EndsWiped(s, Steps(s, go + WipeOut(s, t, ending)), t, ending, SafeTerminalError, OwnerMismatch)
  {
    var (a, at) := (Resume(t, VerifyAnswer(answer)), AtVerify(candidate, announce, ending));
    var offline := Snapshot(OfflineSessionCandidate, Present, r.stable.verifiedOwner, SignedOutScreen, Some(Success));
    VerifyLeads(s, t, r, candidate, announce, ending, answer);
    var s1 := Step(s, a);
    OneStep(s, a);
    FirstThen(s, a, EndingSteps(t, ending));
    FirstThen(s, a, WipeOut(s, t, ending));
    hide Step, Steps, EndsShown, EndsWiped, EndingSteps, WipeSteps, Joins, Shows, CanFence;
    match answer
    case PortSuccess(subject) =>
    case PortTransient => ShownRuns(s, s1, t, r, at, ending, offline, Some(OFFLINE_HEARD));
    case PortForbidden => ShownRuns(s, s1, t, r, at, ending, FailedWith(r.stable, Forbidden), Some(FAILED_HEARD));
    case PortInvalidated => WipedRuns(s, s1, t, r, at, ending, ExpiredOrRevoked, ReauthenticationRequired);
    case PortMalformed => WipedRuns(s, s1, t, r, at, ending, SafeTerminalError, OwnerMismatch);
  }

  /** What a write of the operation comes to: it applies only in the activated generation. */
  function WriteResult(s: State, r: Reservation, wish: Mutation): Mutation {
    if s.ports.cell == r.generation then wish else StaleGeneration
  }

  lemma ReplaceLeads(s: State, t: nat, r: Reservation, candidate: Candidate, subject: Subject, announce: bool, ending: Ending, wish: Mutation)
    requires Waits(s, t, r, AtReplace(candidate, subject, announce, ending, None), ending)
    ensures var s1 := Step(s, Perform(t, wish));
      var s2 := Step(s1, Resume(t, Done));
      if WriteResult(s, r, wish) == Applied then
        s2.tasks == s.tasks[t := Op(r, AtBind(candidate, subject, announce, ending, None))] && s2.core == s.core && s2.nextTask == s.nextTask
        && s2.ports == s.ports.(vault := Some(candidate))
      else Joins(s, s2, t, r, ending, Wipe(SafeTerminalError, VaultCorrupt))
  {
    hide ResumeFence, ResumeEnter, ResumeStart, AfterVaultRead, AfterInitTimer, AfterConsume, AfterExchange, AfterRefresh, AfterVerify, AfterTimeout;
    var s1 := Step(s, Perform(t, wish));
    assert s1.tasks == s.tasks[t := Op(r, AtReplace(candidate, subject, announce, ending, Some(WriteResult(s, r, wish))))];
    assert s1.core == s.core && s1.nextTask == s.nextTask;
    var s2 := Step(s1, Resume(t, Done));
    if WriteResult(s, r, wish) == Applied {
      assert s2.tasks == s1.tasks[t := Op(r, AtBind(candidate, subject, announce, ending, None))];
    } else {
      assert s2.tasks == s1.tasks[t := Op(r, AtJoin(s.nextTask, ending))][s.nextTask := Start(Wipe(SafeTerminalError, VaultCorrupt), Some(r.generation))];
      assert s2.tasks == s.tasks[t := Op(r, AtJoin(s.nextTask, ending))][s.nextTask := Start(Wipe(SafeTerminalError, VaultCorrupt), Some(r.generation))];
    }
  }

  lemma BindLeads(s: State, t: nat, r: Reservation, candidate: Candidate, subject: Subject, announce: bool, ending: Ending, wish: Mutation)
    requires Waits(s, t, r, AtBind(candidate, subject, announce, ending, None), ending)
    ensures var s1 := Step(s, Perform(t, wish));
      var s2 := Step(s1, Resume(t, Done));
      if WriteResult(s, r, wish) == Applied then
        Shows(s.(ports := s.ports.(owner := Some(subject))), s2, t, r, ending,
              Snapshot(Authenticated, Present, true, InternalFoundationHome, Some(Success)),
              if announce then Some(Payload(Some(SafeDestinationFocus), Some(SayAuthenticatedAfterCallback), Some(Polite), Some(InternalFoundationHome)))
              else None)
      else Joins(s, s2, t, r, ending, Wipe(SafeTerminalError, OwnerMismatch))
  {
    hide ResumeFence, ResumeEnter, ResumeStart, AfterVaultRead, AfterInitTimer, AfterConsume, AfterExchange, AfterRefresh, AfterVerify, AfterTimeout;
    var s1 := Step(s, Perform(t, wish));
    assert s1.tasks == s.tasks[t := Op(r, AtBind(candidate, subject, announce, ending, Some(WriteResult(s, r, wish))))];
    assert s1.core == s.core && s1.nextTask == s.nextTask;
    var s2 := Step(s1, Resume(t, Done));
    if WriteResult(s, r, wish) == Applied {
      if ending.EndPlain? { assert s1.tasks - {t} == s.tasks - {t} && s2.tasks == s.tasks - {t}; }
      else { assert s2.tasks == s1.tasks[t := Op(r, AtEndCancelTimers(ending.timer, ending))]; }
    } else {
      assert s2.tasks == s1.tasks[t := Op(r, AtJoin(s.nextTask, ending))][s.nextTask := Start(Wipe(SafeTerminalError, OwnerMismatch), Some(r.generation))];
      assert s2.tasks == s.tasks[t := Op(r, AtJoin(s.nextTask, ending))][s.nextTask := Start(Wipe(SafeTerminalError, OwnerMismatch), Some(r.generation))];
    }
  }

  /**
   The two writes behind a verified owner: a vault that does not take the session is
   wiped as corrupt; otherwise the session is stored and the owner is next.
   */
  lemma ReplaceEndsAs(s: State, t: nat, r: Reservation, candidate: Candidate, subject: Subject, announce: bool, ending: Ending, wish: Mutation)
    requires Waits(s, t, r, AtReplace(candidate, subject, announce, ending, None), ending)
    ensures var go := [Perform(t, wish), Resume(t, Done)];
      if WriteResult(s, r, wish) == Applied then
        Waits(Steps(s, go), t, r, AtBind(candidate, subject, announce, ending, None), ending)
        && Steps(s, go).ports == s.ports.(vault := Some(candidate)) && Steps(s, go).core == s.core
      else EndsWiped(s, Steps(s, go + WipeOut(s, t, ending)), t, ending, SafeTerminalError, VaultCorrupt)
  {
    var (at, go) := (AtReplace(candidate, subject, announce, ending, None), [Perform(t, wish), Resume(t, Done)]);
    ReplaceLeads(s, t, r, candidate, subject, announce, ending, wish);
    TwoSteps(s, Perform(t, wish), Resume(t, Done));
    StepsConcat(s, go, WipeOut(s, t, ending));
    hide Step, Steps, EndsWiped, EndingSteps, WipeSteps, Joins;
    if WriteResult(s, r, wish) != Applied {
      WipedRuns(s, Step(Step(s, Perform(t, wish)), Resume(t, Done)), t, r, at, ending, SafeTerminalError, VaultCorrupt);
    }
  }

  /**
   An owner that cannot be bound is wiped as a mismatch; otherwise the operation ends
   authenticated, with its owner stored, and only a callback announces it.
   */
  lemma BindEndsAs(s: State, t: nat, r: Reservation, candidate: Candidate, subject: Subject, announce: bool, ending: Ending, wish: Mutation)
    requires Waits(s, t, r, AtBind(candidate, subject, announce, ending, None), ending)
    ensures var go := [Perform(t, wish), Resume(t, Done)];
      if WriteResult(s, r, wish) == Applied then
        EndsShown(s.(ports := s.ports.(owner := Some(subject))), Steps(s, go + EndingSteps(t, ending)), t, r, ending,
                  Snapshot(Authenticated, Present, true, InternalFoundationHome, Some(Success)),
                  if announce then Some(Payload(Some(SafeDestinationFocus), Some(SayAuthenticatedAfterCallback), Some(Polite), Some(InternalFoundationHome)))
                  else None)
      else EndsWiped(s, Steps(s, go + WipeOut(s, t, ending)), t, ending, SafeTerminalError, OwnerMismatch)
  {
    var (at, go) := (AtBind(candidate, subject, announce, ending, None), [Perform(t, wish), Resume(t, Done)]);
    var payload := if announce then Some(Payload(Some(SafeDestinationFocus), Some(SayAuthenticatedAfterCallback), Some(Polite), Some(InternalFoundationHome)))
                   else None;
    BindLeads(s, t, r, candidate, subject, announce, ending, wish);
    TwoSteps(s, Perform(t, wish), Resume(t, Done));
    StepsConcat(s, go, WipeOut(s, t, ending));
    StepsConcat(s, go, EndingSteps(t, ending));
    hide Step, Steps, EndsShown, EndsWiped, EndingSteps, WipeSteps, Joins, Shows;
    var s2 := Step(Step(s, Perform(t, wish)), Resume(t, Done));
    if WriteResult(s, r, wish) == Applied {
      ShownRuns(s.(ports := s.ports.(owner := Some(subject))), s2, t, r, at, ending,
                Snapshot(Authenticated, Present, true, InternalFoundationHome, Some(Success)), payload);
    } else {
      WipedRuns(s, s2, t, r, at, ending, SafeTerminalError, OwnerMismatch);
    }
  }

  /** What is shown, and to a callback announced, of an owner that was checked and stored. */
  predicate EndsAuthenticated(s: State, s': State, t: nat, r: Reservation, candidate: Candidate, subject: Subject, announce: bool, ending: Ending) {
    EndsShown(s.(ports := s.ports.(vault := Some(candidate), owner := Some(subject))), s', t, r, ending,
              Snapshot(Authenticated, Present, true, InternalFoundationHome, Some(Success)),
              if announce then Some(Payload(Some(SafeDestinationFocus), Some(SayAuthenticatedAfterCallback), Some(Polite), Some(InternalFoundationHome)))
              else None)
  }

  function StoringSteps(t: nat, subject: Subject, ending: Ending): seq<Action> {
    [Resume(t, VerifyAnswer(PortSuccess(subject)))] + ([Perform(t, Applied), Resume(t, Done)] + ([Perform(t, Applied), Resume(t, Done)] + EndingSteps(t, ending)))
  }

  /** The owner of a candidate is checked, and both are stored. */
  lemma CheckedOwnerIsStored(s: State, t: nat, r: Reservation, candidate: Candidate, subject: Subject, announce: bool, ending: Ending)
    requires Waits(s, t, r, AtVerify(candidate, announce, ending), ending) && s.ports.cell == s.core.generation
    ensures EndsAuthenticated(s, Steps(s, StoringSteps(t, subject, ending)), t, r, candidate, subject, announce, ending)
  {
    var (a, write) := (Resume(t, VerifyAnswer(PortSuccess(subject))), [Perform(t, Applied), Resume(t, Done)]);
    VerifyEndsAs(s, t, r, candidate, announce, ending, PortSuccess(subject));
    var s1 := Steps(s, [a]);
    assert s1.core == s.core && s1.tasks == s.tasks[t := Op(r, AtReplace(candidate, subject, announce, ending, None))] by {
      OneStep(s, a);
      VerifyLeads(s, t, r, candidate, announce, ending, PortSuccess(subject));
    }
    hide Step, Steps, EndsShown, EndingSteps, Waits, EndsWiped;
    assert WriteResult(s1, r, Applied) == Applied by { AcceptedIsCurrent(s, t, r, AtVerify(candidate, announce, ending), ending); }
    ReplaceEndsAs(s1, t, r, candidate, subject, announce, ending, Applied);
    var s2 := Steps(s1, write);
    assert s2.tasks == s.tasks[t := Op(r, AtBind(candidate, subject, announce, ending, None))] by { Replaced(s, s1, t, r, candidate, subject, announce, ending); }
    BindEndsAs(s2, t, r, candidate, subject, announce, ending, Applied);
    StepsConcat(s, [a], write + (write + EndingSteps(t, ending)));
    StepsConcat(s1, write, write + EndingSteps(t, ending));
    SameEnd(s, s2, Steps(s2, write + EndingSteps(t, ending)), t, r, candidate, subject, announce, ending);
  }

  lemma AcceptedIsCurrent(s: State, t: nat, r: Reservation, at: OpPoint, ending: Ending)
    requires Waits(s, t, r, at, ending)
    ensures r.generation == s.core.generation
  {
  }

  lemma Replaced(s: State, s1: State, t: nat, r: Reservation, candidate: Candidate, subject: Subject, announce: bool, ending: Ending)
    requires Waits(s1, t, r, AtReplace(candidate, subject, announce, ending, None), ending) && WriteResult(s1, r, Applied) == Applied
    requires s1.tasks == s.tasks[t := Op(r, AtReplace(candidate, subject, announce, ending, None))]
    ensures Steps(s1, [Perform(t, Applied), Resume(t, Done)]).tasks == s.tasks[t := Op(r, AtBind(candidate, subject, announce, ending, None))]
  {
    hide Step, Steps, Waits;
    ReplaceLeads(s1, t, r, candidate, subject, announce, ending, Applied);
    TwoSteps(s1, Perform(t, Applied), Resume(t, Done));
  }

  lemma SameEnd(s: State, s2: State, s': State, t: nat, r: Reservation, candidate: Candidate, subject: Subject, announce: bool, ending: Ending)
    requires s2.core == s.core && s2.ports == s.ports.(vault := Some(candidate))
    requires s2.tasks == s.tasks[t := Op(r, AtBind(candidate, subject, announce, ending, None))]
    requires EndsShown(s2.(ports := s2.ports.(owner := Some(subject))), s', t, r, ending,
                       Snapshot(Authenticated, Present, true, InternalFoundationHome, Some(Success)),
                       if announce then Some(Payload(Some(SafeDestinationFocus), Some(SayAuthenticatedAfterCallback), Some(Polite), Some(InternalFoundationHome)))
                       else None)
    ensures EndsAuthenticated(s, s', t, r, candidate, subject, announce, ending)
  {
    hide Kept;
    assert s2.tasks - {t} == s.tasks - {t};
  }

  // ---------------------------------------------------------------- the answers to a callback

  /** The callback was no use: the link is shown as unusable, for this reason. */
  predicate Rejects(s: State, s': State, t: nat, r: Reservation, outcome: Outcome) {
    EndsMoved(s, s', t, EndPlain, CallbackShows(r.stable, UnusableLink, Some(outcome)), Some(UNUSABLE_HEARD))
  }

  lemma ConsumeLeads(s: State, t: nat, r: Reservation, answer: ConsumeResult)
    requires Waits(s, t, r, AtConsume, EndPlain)
    ensures var s' := Step(s, Resume(t, ConsumeAnswer(answer)));
      match answer
      case Consumed(_) =>
        s'.core == ShownCore(s.core, CallbackShows(r.stable, CallbackPending, None), Some(Heard(SayCallbackPending, Polite)))
        && s'.ports == s.ports && s'.nextTask == s.nextTask && s'.tasks == s.tasks[t := Op(r, AtExchange)]
      case ConsumeDuplicate => s'.core == s.core.(active := None) && s'.tasks == s.tasks - {t} && s'.ports == s.ports
      case ConsumeStale => s'.core == s.core.(active := None) && s'.tasks == s.tasks - {t} && s'.ports == s.ports
      case ConsumeReplayed => Joins(s, s', t, r, EndPlain, Transition(CallbackShows(r.stable, UnusableLink, Some(Replayed)), Payloads(Some(UNUSABLE_HEARD))))
      case ConsumeExpired => Joins(s, s', t, r, EndPlain, Transition(CallbackShows(r.stable, UnusableLink, Some(Expired)), Payloads(Some(UNUSABLE_HEARD))))
      case ConsumeUnsupported => Joins(s, s', t, r, EndPlain, Transition(CallbackShows(r.stable, UnusableLink, Some(Unsupported)), Payloads(Some(UNUSABLE_HEARD))))
      case ConsumeMalformed => Joins(s, s', t, r, EndPlain, Transition(CallbackShows(r.stable, UnusableLink, Some(Malformed)), Payloads(Some(UNUSABLE_HEARD))))
      case ConsumeFailed => Joins(s, s', t, r, EndPlain, StoreFailure(r.stable))
  {
    hide ResumeFence, ResumeEnter, ResumeStart, AfterVaultRead, AfterInitTimer, AfterVerify, AfterExchange, AfterRefresh, AfterTimeout;
  }

  lemma RejectedRuns(s: State, t: nat, r: Reservation, at: OpPoint, a: Action, outcome: Outcome)
    requires Waits(s, t, r, at, EndPlain)
    requires Joins(s, Step(s, a), t, r, EndPlain,
                   Transition(CallbackShows(r.stable, UnusableLink, Some(outcome)), Payloads(Some(UNUSABLE_HEARD))))
    ensures Rejects(s, Steps(s, [a] + MoveOn(s, t, EndPlain)), t, r, outcome)
  {
    FirstThen(s, a, MoveOn(s, t, EndPlain));
    hide Step, Steps, EndsMoved, EndingSteps, TransitionSteps, Joins, CanFence, CallbackShows;
    MovedRuns(s, Step(s, a), t, r, at, EndPlain, CallbackShows(r.stable, UnusableLink, Some(outcome)), Some(UNUSABLE_HEARD));
  }

  /**
   What the callback store says of a link: a good one is shown as pending and goes to
   the provider; a duplicate or a stale one changes nothing; any other is unusable,
   with its reason; and a store that failed is purged.
   */
  lemma ConsumeEndsAs(s: State, t: nat, r: Reservation, answer: ConsumeResult)
    requires Waits(s, t, r, AtConsume, EndPlain)
    ensures var (go, a) := ([Resume(t, ConsumeAnswer(answer))], MoveOn(s, t, EndPlain));
      match answer
      case Consumed(_) =>
        && Waits(Steps(s, go), t, r, AtExchange, EndPlain) && Steps(s, go).ports == s.ports
        && Steps(s, go).core == ShownCore(s.core, CallbackShows(r.stable, CallbackPending, None), Some(Heard(SayCallbackPending, Polite)))
      case ConsumeDuplicate => Steps(s, go).core == s.core.(active := None) && Steps(s, go).tasks == s.tasks - {t} && Steps(s, go).ports == s.ports
      case ConsumeStale => Steps(s, go).core == s.core.(active := None) && Steps(s, go).tasks == s.tasks - {t} && Steps(s, go).ports == s.ports
      case ConsumeReplayed => Rejects(s, Steps(s, go + a), t, r, Replayed)
      case ConsumeExpired => Rejects(s, Steps(s, go + a), t, r, Expired)
      case ConsumeUnsupported => Rejects(s, Steps(s, go + a), t, r, Unsupported)
      case ConsumeMalformed => Rejects(s, Steps(s, go + a), t, r, Malformed)
      case ConsumeFailed =>
        EndsMoved(s, Steps(s, go + (PurgeSteps(s.nextTask) + [Resume(t, Done)])), t, EndPlain,
                  CallbackShows(r.stable, SafeTerminalError, Some(TransientFailure)), Some(FAILED_HEARD))
  {
    var a := Resume(t, ConsumeAnswer(answer));
    ConsumeLeads(s, t, r, answer);
    OneStep(s, a);
    if answer.ConsumeFailed? {
      FirstThen(s, a, PurgeSteps(s.nextTask) + [Resume(t, Done)]);
      hide Step, Steps, EndsMoved, PurgeSteps, Joins, CanFence;
      PurgedRuns(s, Step(s, a), t, r, AtConsume, r.stable);
    } else if !answer.Consumed? && !answer.ConsumeDuplicate? && !answer.ConsumeStale? {
      hide Step, Steps, Rejects, Joins, CanFence, CallbackShows, MoveOn;
      RejectedRuns(s, t, r, AtConsume, a, if answer.ConsumeReplayed? then Replayed else if answer.ConsumeExpired? then Expired
                                          else if answer.ConsumeUnsupported? then Unsupported else Malformed);
    }
  }

  lemma ExchangeLeads(s: State, t: nat, r: Reservation, answer: PortResult<Candidate>)
    requires Waits(s, t, r, AtExchange, EndPlain)
    ensures var s' := Step(s, Resume(t, ExchangeAnswer(answer, false)));
      match answer
      case PortSuccess(session) => s' == s.Put(t, Op(r, AtVerify(session, true, EndPlain)))
      case PortTransient =>
        Joins(s, s', t, r, EndPlain, Transition(CallbackShows(r.stable, SafeTerminalError, Some(TransientFailure)), Payloads(Some(FAILED_HEARD))))
      case PortForbidden =>
        Joins(s, s', t, r, EndPlain, Transition(CallbackShows(r.stable, SafeTerminalError, Some(Forbidden)), Payloads(Some(FAILED_HEARD))))
      case PortMalformed =>
        Joins(s, s', t, r, EndPlain, Transition(CallbackShows(r.stable, UnusableLink, Some(Malformed)), Payloads(Some(UNUSABLE_HEARD))))
      case PortInvalidated => Joins(s, s', t, r, EndPlain, Wipe(ExpiredOrRevoked, ReauthenticationRequired))
    ensures var s' := Step(s, Resume(t, ExchangeAnswer(answer, true)));
      s'.core == s.core.(active := None) && s'.tasks == s.tasks - {t} && s'.ports == s.ports
  {
    hide ResumeFence, ResumeEnter, ResumeStart, AfterVaultRead, AfterInitTimer, AfterVerify, AfterConsume, AfterRefresh, AfterTimeout;
  }

  /**
   What the provider says of the exchange: a session goes on to the owner check, to be
   announced; a refused one wipes; any other answer shows its failure and keeps what
   was stable. A cancelled caller hears nothing.
   */
  lemma ExchangeEndsAs(s: State, t: nat, r: Reservation, answer: PortResult<Candidate>)
    requires Waits(s, t, r, AtExchange, EndPlain)
    ensures var (go, a) := ([Resume(t, ExchangeAnswer(answer, false))], MoveOn(s, t, EndPlain));
      match answer
      case PortSuccess(session) => Waits(Steps(s, go), t, r, AtVerify(session, true, EndPlain), EndPlain) && Steps(s, go).ports == s.ports
      case PortTransient =>
        EndsMoved(s, Steps(s, go + a), t, EndPlain, CallbackShows(r.stable, SafeTerminalError, Some(TransientFailure)), Some(FAILED_HEARD))
      case PortForbidden =>
        EndsMoved(s, Steps(s, go + a), t, EndPlain, CallbackShows(r.stable, SafeTerminalError, Some(Forbidden)), Some(FAILED_HEARD))
      case PortMalformed => Rejects(s, Steps(s, go + a), t, r, Malformed)
      case PortInvalidated => EndsWiped(s, Steps(s, go + WipeOut(s, t, EndPlain)), t, EndPlain, ExpiredOrRevoked, ReauthenticationRequired)
    ensures var s' := Step(s, Resume(t, ExchangeAnswer(answer, true)));
      s'.core == s.core.(active := None) && s'.tasks == s.tasks - {t} && s'.ports == s.ports
  {
    var a := Resume(t, ExchangeAnswer(answer, false));
    ExchangeLeads(s, t, r, answer);
    OneStep(s, a);
    FirstThen(s, a, MoveOn(s, t, EndPlain));
    FirstThen(s, a, WipeOut(s, t, EndPlain));
    hide Step, Steps, EndsMoved, EndsWiped, EndingSteps, TransitionSteps, WipeSteps, Joins, CanFence, CallbackShows, Rejects;
    match answer
    case PortSuccess(session) =>
    case PortTransient =>
      MovedRuns(s, Step(s, a), t, r, AtExchange, EndPlain, CallbackShows(r.stable, SafeTerminalError, Some(TransientFailure)), Some(FAILED_HEARD));
    case PortForbidden =>
      MovedRuns(s, Step(s, a), t, r, AtExchange, EndPlain, CallbackShows(r.stable, SafeTerminalError, Some(Forbidden)), Some(FAILED_HEARD));
    case PortMalformed => RejectedRuns(s, t, r, AtExchange, a, Malformed);
    case PortInvalidated => WipedRuns(s, Step(s, a), t, r, AtExchange, EndPlain, ExpiredOrRevoked, ReauthenticationRequired);
  }

  // ---------------------------------------------------------------- the answer of the vault

  lemma VaultLeads(s: State, t: nat, r: Reservation, online: bool, timer: nat, got: PortResult<Option<Candidate>>)
    requires Waits(s, t, r, AtVaultRead(online, timer, Some(got)), EndInitialize(timer))
    ensures var (s', ending) := (Step(s, Resume(t, Done)), EndInitialize(timer));
      match got
      case PortSuccess(None) => Shows(s, s', t, r, ending, Snapshot(SignedOut, Absent, false, SignedOutScreen, Some(Success)), None)
      case PortSuccess(Some(candidate)) =>
        if online then s' == s.Put(t, Op(r, AtVerify(candidate, false, ending)))
        else Shows(s, s', t, r, ending, Snapshot(OfflineSessionCandidate, Present, false, SignedOutScreen, Some(Success)), Some(OFFLINE_HEARD))
      case PortTransient =>
        Shows(s, s', t, r, ending, Snapshot(SafeTerminalError, Unknown, false, SignedOutScreen, Some(TimedOut)), Some(FAILED_HEARD))
      case PortForbidden => Shows(s, s', t, r, ending, FailedWith(r.stable, Forbidden), Some(FAILED_HEARD))
      case PortInvalidated => Joins(s, s', t, r, ending, Wipe(SafeTerminalError, VaultCorrupt))
      case PortMalformed => Joins(s, s', t, r, ending, Wipe(SafeTerminalError, VaultCorrupt))
  {
    hide ResumeFence, ResumeEnter, ResumeStart, AfterInitTimer, AfterVerify, AfterConsume, AfterExchange, AfterRefresh, AfterTimeout;
  }

  /**
   What the vault holds at the start: nothing means signed out; a candidate is checked
   when online, and offline is shown without an owner; a vault that cannot be read is
   wiped as corrupt, unless it only failed for now.
   */
  lemma VaultEndsAs(s: State, t: nat, r: Reservation, online: bool, timer: nat, got: PortResult<Option<Candidate>>)
    requires Waits(s, t, r, AtVaultRead(online, timer, Some(got)), EndInitialize(timer))
    ensures var (go, ending) := ([Resume(t, Done)], EndInitialize(timer));
      match got
      case PortSuccess(None) =>
        EndsShown(s, Steps(s, go + EndingSteps(t, ending)), t, r, ending, Snapshot(SignedOut, Absent, false, SignedOutScreen, Some(Success)), None)
      case PortSuccess(Some(candidate)) =>
        if online then Waits(Steps(s, go), t, r, AtVerify(candidate, false, ending), ending) && Steps(s, go).ports == s.ports
        else EndsShown(s, Steps(s, go + EndingSteps(t, ending)), t, r, ending,
                       Snapshot(OfflineSessionCandidate, Present, false, SignedOutScreen, Some(Success)), Some(OFFLINE_HEARD))
      case PortTransient =>
        EndsShown(s, Steps(s, go + EndingSteps(t, ending)), t, r, ending,
                  Snapshot(SafeTerminalError, Unknown, false, SignedOutScreen, Some(TimedOut)), Some(FAILED_HEARD))
      case PortForbidden => EndsShown(s, Steps(s, go + EndingSteps(t, ending)), t, r, ending, FailedWith(r.stable, Forbidden), Some(FAILED_HEARD))
      case PortInvalidated => EndsWiped(s, Steps(s, go + WipeOut(s, t, ending)), t, ending, SafeTerminalError, VaultCorrupt)
      case PortMalformed => EndsWiped(s, Steps(s, go + WipeOut(s, t, ending)), t, ending, SafeTerminalError, VaultCorrupt)
  {
    var (a, ending, at) := (Resume(t, Done), EndInitialize(timer), AtVaultRead(online, timer, Some(got)));
    VaultLeads(s, t, r, online, timer, got);
    OneStep(s, a);
    FirstThen(s, a, EndingSteps(t, ending));
    FirstThen(s, a, WipeOut(s, t, ending));
    hide Step, Steps, EndsShown, EndsWiped, EndingSteps, WipeSteps, Joins, Shows, CanFence;
    match got
    case PortSuccess(None) => ShownRuns(s, Step(s, a), t, r, at, ending, Snapshot(SignedOut, Absent, false, SignedOutScreen, Some(Success)), None);
    case PortSuccess(Some(candidate)) =>
      if !online {
        ShownRuns(s, Step(s, a), t, r, at, ending, Snapshot(OfflineSessionCandidate, Present, false, SignedOutScreen, Some(Success)), Some(OFFLINE_HEARD));
      }
    case PortTransient =>
      ShownRuns(s, Step(s, a), t, r, at, ending, Snapshot(SafeTerminalError, Unknown, false, SignedOutScreen, Some(TimedOut)), Some(FAILED_HEARD));
    case PortForbidden => ShownRuns(s, Step(s, a), t, r, at, ending, FailedWith(r.stable, Forbidden), Some(FAILED_HEARD));
    case PortInvalidated => WipedRuns(s, Step(s, a), t, r, at, ending, SafeTerminalError, VaultCorrupt);
    case PortMalformed => WipedRuns(s, Step(s, a), t, r, at, ending, SafeTerminalError, VaultCorrupt);
  }

  // ---------------------------------------------------------------- timeouts and cancels

  /** What is shown when an operation takes too long: a refresh step goes offline, anything else fails. */
  function TimedOutShows(r: Reservation, timeout: TimeoutKind): Snapshot {
    if r.kind == CallbackKind then CallbackShows(r.stable, SafeTerminalError, Some(TimedOut))
    else if r.kind == RefreshKind && timeout == ProviderOrApiStep then OfflineWith(r.stable, TimedOut)
    else FailedWith(r.stable, TimedOut)
  }

  lemma TimeoutEndsAs(s: State, t: nat, r: Reservation, timeout: TimeoutKind)
    requires Waits(s, t, r, AtTimeoutSleep(timeout), EndPlain)
    ensures EndsMoved(s, Steps(s, [Resume(t, Fired(true))] + MoveOn(s, t, EndPlain)), t, EndPlain, TimedOutShows(r, timeout),
                      Some(if r.kind == RefreshKind && timeout == ProviderOrApiStep then OFFLINE_HEARD else FAILED_HEARD))
    ensures var s' := Step(s, Resume(t, Fired(false)));
      s'.core == s.core.(active := None) && s'.tasks == s.tasks - {t} && s'.ports == s.ports
  {
    var (a, heard) := (Resume(t, Fired(true)), if r.kind == RefreshKind && timeout == ProviderOrApiStep then OFFLINE_HEARD else FAILED_HEARD);
    TimeoutLeads(s, t, r, timeout);
    FirstThen(s, a, MoveOn(s, t, EndPlain));
    hide Step, Steps, EndsMoved, EndingSteps, TransitionSteps, Joins, CanFence, TimedOutShows;
    MovedRuns(s, Step(s, a), t, r, AtTimeoutSleep(timeout), EndPlain, TimedOutShows(r, timeout), Some(heard));
  }

  lemma TimeoutLeads(s: State, t: nat, r: Reservation, timeout: TimeoutKind)
    requires Waits(s, t, r, AtTimeoutSleep(timeout), EndPlain)
    ensures Joins(s, Step(s, Resume(t, Fired(true))), t, r, EndPlain,
                  Transition(TimedOutShows(r, timeout),
                             Payloads(Some(if r.kind == RefreshKind && timeout == ProviderOrApiStep then OFFLINE_HEARD else FAILED_HEARD))))
    ensures var s' := Step(s, Resume(t, Fired(false)));
      s'.core == s.core.(active := None) && s'.tasks == s.tasks - {t} && s'.ports == s.ports
  {
    hide ResumeFence, ResumeEnter, ResumeStart, AfterVaultRead, AfterInitTimer, AfterVerify, AfterConsume, AfterExchange, AfterRefresh;
  }

  /** A cancel waits at the clock for the reservation that it captured. */
  predicate Cancels(s: State, t: nat, r: Reservation, at: OpPoint) {
    t in s.tasks && s.tasks[t] == Op(r, at) && s.nextTask !in s.tasks && CanFence(s) && r.generation == s.core.generation
  }

  predicate IsDue(r: Reservation, now: nat) { r.startedAt + 500 <= now }

  /** A cancelled callback goes back to what was stable, if it had an owner. */
  function CanceledShows(r: Reservation): Snapshot {
    if r.stable.verifiedOwner then Snapshot(r.stable.state, r.stable.candidate, true, r.stable.destination, Some(Canceled))
    else Snapshot(SignedOut, Absent, false, SignedOutScreen, Some(Canceled))
  }

  /** The cancel is over, and a fence of its own is about to start. */
  predicate Spawns(s: State, s': State, t: nat, sn: Snapshot, payload: Option<Payload>) {
    && s'.core == s.core && s'.ports == s.ports && s'.nextTask == s.nextTask + 1
    && s'.tasks == (s.tasks - {t})[s.nextTask := Start(Transition(sn, Payloads(payload)), Some(s.core.generation))]
  }

  lemma CancelLeads(s: State, t: nat, r: Reservation, at: OpPoint, now: nat)
    requires Cancels(s, t, r, at) && (at == AtCancelCallbackClock || at == AtCancelRefreshClock)
    ensures var s' := Step(s, Resume(t, Clock(now)));
      if !IsDue(r, now) then s'.core == s.core && s'.ports == s.ports && s'.tasks == s.tasks - {t}
      else if at == AtCancelRefreshClock then Spawns(s, s', t, OfflineWith(r.stable, Canceled), Some(OFFLINE_HEARD))
      else Spawns(s, s', t, CanceledShows(r), None)
  {
    hide ResumeFence, ResumeEnter, ResumeStart, AfterVaultRead, AfterInitTimer, AfterVerify, AfterConsume, AfterExchange, AfterRefresh, AfterTimeout;
  }

  lemma SpawnedRuns(s: State, s1: State, t: nat, sn: Snapshot, payload: Option<Payload>)
    requires CanFence(s) && s.nextTask !in s.tasks && Spawns(s, s1, t, sn, payload)
    ensures EndsMoved(s, Steps(s1, TransitionSteps(s.nextTask)), t, EndPlain, sn, payload)
  {
    assert CanFence(s1) && IsStart(s1, s.nextTask, Transition(sn, Payloads(payload)));
    hide Step, Steps, TransitionSteps, CanFence, IsStart, FencedCore;
    TransitionEndsAt(s1, s.nextTask, sn, payload);
    assert s1.tasks - {s.nextTask} == s.tasks - {t} - TimersOf(EndPlain);
  }

  /**
   A cancel that comes half a second after its operation began shows the operation as
   canceled: a callback goes back to what was stable, or is signed out; a refresh goes
   offline. An earlier one changes nothing.
   */
  lemma CancelEndsAs(s: State, t: nat, r: Reservation, at: OpPoint, now: nat)
    requires Cancels(s, t, r, at) && (at == AtCancelCallbackClock || at == AtCancelRefreshClock)
    ensures var go := [Resume(t, Clock(now))];
      if !IsDue(r, now) then Steps(s, go).core == s.core && Steps(s, go).tasks == s.tasks - {t} && Steps(s, go).ports == s.ports
      else if at == AtCancelRefreshClock then
        EndsMoved(s, Steps(s, go + TransitionSteps(s.nextTask)), t, EndPlain, OfflineWith(r.stable, Canceled), Some(OFFLINE_HEARD))
      else EndsMoved(s, Steps(s, go + TransitionSteps(s.nextTask)), t, EndPlain, CanceledShows(r), None)
  {
    hide Step, Steps, TransitionSteps, CanFence, EndsMoved, Spawns, OfflineWith, CanceledShows;
    var a := Resume(t, Clock(now));
    CancelLeads(s, t, r, at, now);
    OneStep(s, a);
    FirstThen(s, a, TransitionSteps(s.nextTask));
    if IsDue(r, now) {
      if at == AtCancelRefreshClock { SpawnedRuns(s, Step(s, a), t, OfflineWith(r.stable, Canceled), Some(OFFLINE_HEARD)); }
      else { SpawnedRuns(s, Step(s, a), t, CanceledShows(r), None); }
    }
  }
}
