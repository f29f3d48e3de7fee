/**
 What each answer of a port and each request of a caller lead to when nothing
 interferes: the snapshot, the announcement, the stores, told literally and over
 whole sequences of steps
 (apps/ios/Fluyo/AuthRuntimeKernel.swift).
 */
module AuthOutcomes {
  import opened Basics
  import opened AuthKernel
  import opened AuthRuntime
  import opened AuthTheorems

  lemma {:induction false} StepsConcat(s: State, a: seq<Action>, b: seq<Action>)
    ensures Steps(s, a + b) == Steps(Steps(s, a), b)
    decreases |a|
  {
    hide Step;
    if a == [] {
      assert a + b == b;
    } else {
      assert (a + b)[1..] == a[1..] + b;
      StepsConcat(Step(s, a[0]), a[1..], b);
    }
  }

  lemma OneStep(s: State, a: Action)
    ensures Steps(s, [a]) == Step(s, a)
  {
    hide Step;
    assert [a][1..] == [] && Steps(Step(s, a), []) == Step(s, a);
  }

  lemma TwoSteps(s: State, a: Action, b: Action)
    ensures Steps(s, [a, b]) == Step(Step(s, a), b)
  {
    hide Step;
    StepsConcat(s, [a], [b]);
    assert [a] + [b] == [a, b];
    OneStep(s, a);
    OneStep(Step(s, a), b);
  }

  // ---------------------------------------------------------------- fences

  /** A fence can be installed at the present generation, and its writes will apply. */
  predicate CanFence(s: State) { !s.core.terminal && s.core.generation < MAX_GENERATION && s.ports.cell <= s.core.generation }

  predicate IsStart(s: State, child: nat, job: FenceJob) {
    child in s.tasks && (s.tasks[child] == Start(job, None) || s.tasks[child] == Start(job, Some(s.core.generation)))
  }

  /** Installation, the three cancellations, and the activation of the new generation. */
  function OpeningSteps(child: nat): seq<Action> {
    [Resume(child, Done), Resume(child, Done)] + [Resume(child, Done), Resume(child, Done)] + [Perform(child, Applied)]
  }

  function FenceOf(c: Core): Reservation {
    Reservation(c.generation + 1, c.nextReservation, CleanupKind, c.snapshot, c.stateVersion, 0)
  }

  /** The actor once a fence is installed. */
  function OpenedCore(c: Core): Core {
    c.(generation := c.generation + 1, nextReservation := c.nextReservation + 1, active := Some(FenceOf(c)), refreshAttempted := None, effects := [])
  }

  /** The state differs from `s` in the fence's task, in the core and in the ports. */
  predicate IsAt(s: State, s': State, child: nat, task: Task, core: Core, ports: Ports) {
    s'.tasks == s.tasks[child := task] && s'.nextTask == s.nextTask && s'.core == core && s'.ports == ports
  }

  lemma FenceStarts(s: State, child: nat, job: FenceJob)
    requires CanFence(s) && IsStart(s, child, job)
    ensures IsAt(s, Step(s, Resume(child, Done)), child, Fence(FenceOf(s.core), job, CANCEL_PROVIDER, None), OpenedCore(s.core), s.ports)
  {
    hide ResumeOp, ResumeFence, ResumeEnter;
  }

  /** Each cancellation is followed by the next stage. */
  lemma FenceAdvances(s: State, s1: State, child: nat, job: FenceJob, stage: nat, core: Core, ports: Ports)
    requires IsAt(s, s1, child, Fence(FenceOf(s.core), job, stage, None), core, ports) && stage < ACTIVATE
    requires core == OpenedCore(s.core) && !core.terminal
    ensures IsAt(s, Step(s1, Resume(child, Done)), child, Fence(FenceOf(s.core), job, stage + 1, None), core, ports)
  {
    hide ResumeOp, ResumeEnter, ResumeStart, AdvanceWipe, AdvanceStoreFailure, CommitTransition;
    assert core.Accepts(FenceOf(s.core));
    assert Step(s1, Resume(child, Done)).tasks == s1.tasks[child := Fence(FenceOf(s.core), job, stage + 1, None)];
  }

  lemma FenceActivates(s: State, s1: State, child: nat, job: FenceJob)
    requires CanFence(s) && IsAt(s, s1, child, Fence(FenceOf(s.core), job, ACTIVATE, None), OpenedCore(s.core), s.ports)
    ensures IsAt(s, Step(s1, Perform(child, Applied)), child, Fence(FenceOf(s.core), job, ACTIVATE, None), OpenedCore(s.core),
                 s.ports.(cell := s.core.generation + 1))
  {
    hide ResumeStep, CallStep;
  }

  lemma FenceOpens(s: State, child: nat, job: FenceJob)
    requires CanFence(s) && IsStart(s, child, job)
    ensures IsAt(s, Steps(s, OpeningSteps(child)), child, Fence(FenceOf(s.core), job, ACTIVATE, None), OpenedCore(s.core),
                 s.ports.(cell := s.core.generation + 1))
  {
    hide Step, IsAt, OpenedCore, IsStart;
    var go := Resume(child, Done);
    assert !OpenedCore(s.core).terminal by { StillOpen(s); }
    var s1 := Step(s, go);
    FenceStarts(s, child, job);
    var s2 := Step(s1, go);
    FenceAdvances(s, s1, child, job, 0, OpenedCore(s.core), s.ports);
    var s3 := Step(s2, go);
    FenceAdvances(s, s2, child, job, 1, OpenedCore(s.core), s.ports);
    var s4 := Step(s3, go);
    FenceAdvances(s, s3, child, job, 2, OpenedCore(s.core), s.ports);
    FenceActivates(s, s4, child, job);
    TwoSteps(s, go, go);
    TwoSteps(s2, go, go);
    OneStep(s4, Perform(child, Applied));
    StepsConcat(s, [go, go], [go, go]);
    StepsConcat(s, [go, go] + [go, go], [Perform(child, Applied)]);
  }

  lemma StillOpen(s: State)
    requires CanFence(s)
    ensures !OpenedCore(s.core).terminal
  {
  }

  /** The actor once the fence has published and announced. */
  function FencedCore(c: Core, sn: Snapshot, effects: seq<Effect>): Core {
    c.(generation := c.generation + 1, stateVersion := c.stateVersion + 1, nextReservation := c.nextReservation + 1,
       nextSequence := c.nextSequence + |effects|, active := None, refreshAttempted := None, snapshot := sn,
       effects := effects, effectHistory := c.effectHistory + effects, published := c.published + [(sn, c.generation + 1)])
  }

  /** Focus on the heading, and this announcement. */
  function Heard(announcement: Announcement, priority: Priority): Payload {
    Payload(Some(Heading), Some(announcement), Some(priority), None)
  }

  /** A fence took the actor to its next generation, showed the snapshot and announced it once. */
  predicate Fences(s: State, s': State, child: nat, sn: Snapshot, payload: Payload) {
    && s'.core == FencedCore(s.core, sn, [Effect(s.core.generation + 1, s.core.nextSequence, sn.state, payload)])
    && s'.tasks == s.tasks - {child} && s'.nextTask == s.nextTask
  }

  // ---------------------------------------------------------------- wipes

  function PortsAfter(stage: nat, ports: Ports): Ports {
    if stage == 6 then ports.(vault := None) else if stage == 7 then ports.(owner := None) else ports
  }

  lemma WipeWrites(s: State, s1: State, child: nat, goal: RuntimeState, outcome: Outcome, stage: nat, ports: Ports)
    requires CanFence(s) && 4 <= stage <= 7 && ports.cell == s.core.generation + 1
    requires IsAt(s, s1, child, Fence(FenceOf(s.core), Wipe(goal, outcome), stage, None), OpenedCore(s.core), ports)
    ensures IsAt(s, Steps(s1, [Perform(child, Applied), Resume(child, Done)]), child,
                 Fence(FenceOf(s.core), Wipe(goal, outcome), stage + 1, None), OpenedCore(s.core), PortsAfter(stage, ports))
  {
    hide CanFence, ResumeOp, ResumeEnter, ResumeStart, AdvanceStoreFailure, CommitTransition, PublishWipe;
    TwoSteps(s1, Perform(child, Applied), Resume(child, Done));
    var s2 := Step(s1, Perform(child, Applied));
    assert s2.tasks == s.tasks[child := Fence(FenceOf(s.core), Wipe(goal, outcome), stage, Some(Applied))];
    assert s2.core == OpenedCore(s.core) && s2.ports == PortsAfter(stage, ports);
    WipeMovesOn(s, s2, child, goal, outcome, stage);
  }

  lemma WipeMovesOn(s: State, s1: State, child: nat, goal: RuntimeState, outcome: Outcome, stage: nat)
    requires CanFence(s) && 4 <= stage <= 7 && s1.core == OpenedCore(s.core)
    requires s1.tasks == s.tasks[child := Fence(FenceOf(s.core), Wipe(goal, outcome), stage, Some(Applied))]
    ensures var s2 := Step(s1, Resume(child, Done));
      s2.core == s1.core && s2.ports == s1.ports && s2.nextTask == s1.nextTask
      && s2.tasks == s.tasks[child := Fence(FenceOf(s.core), Wipe(goal, outcome), stage + 1, None)]
  {
    hide ResumeOp, ResumeEnter, ResumeStart, AdvanceStoreFailure, CommitTransition, PublishWipe;
  }

  /** The activation leads on to the first write. */
  lemma WipeBegins(s: State, s1: State, child: nat, goal: RuntimeState, outcome: Outcome, ports: Ports)
    requires CanFence(s) && IsAt(s, s1, child, Fence(FenceOf(s.core), Wipe(goal, outcome), ACTIVATE, None), OpenedCore(s.core), ports)
    ensures IsAt(s, Step(s1, Resume(child, Done)), child, Fence(FenceOf(s.core), Wipe(goal, outcome), 4, None), OpenedCore(s.core), ports)
  {
    hide ResumeOp, ResumeEnter, ResumeStart, AdvanceStoreFailure, CommitTransition, PublishWipe;
    assert Step(s1, Resume(child, Done)).tasks == s1.tasks[child := Fence(FenceOf(s.core), Wipe(goal, outcome), 4, None)];
  }

  lemma WipeConfirms(s: State, s1: State, child: nat, goal: RuntimeState, outcome: Outcome, stage: nat, ports: Ports)
    requires CanFence(s) && 8 <= stage <= 9
    requires IsAt(s, s1, child, Fence(FenceOf(s.core), Wipe(goal, outcome), stage, None), OpenedCore(s.core), ports)
    ensures IsAt(s, Step(s1, Resume(child, Confirmed(true))), child, Fence(FenceOf(s.core), Wipe(goal, outcome), stage + 1, None),
                 OpenedCore(s.core), ports)
  {
    hide ResumeOp, ResumeEnter, ResumeStart, AdvanceStoreFailure, CommitTransition, PublishWipe;
    assert Step(s1, Resume(child, Confirmed(true))).tasks
      == s1.tasks[child := Fence(FenceOf(s.core), Wipe(goal, outcome), stage + 1, None)];
  }

  predicate IsGoal(goal: RuntimeState) { goal.SignedOut? || goal.AccountSwitching? || goal.ExpiredOrRevoked? || goal.SafeTerminalError? }

  /** What a wipe says: the session ended, the account is being switched, or something went wrong. */
  function Farewell(goal: RuntimeState): Payload {
    if goal.AccountSwitching? then Heard(SayAccountSwitching, Polite)
    else if goal.SafeTerminalError? then Heard(SaySafeTerminalError, Assertive)
    else Heard(SaySessionEnded, Assertive)
  }

  /** The wiped snapshot claims nothing. */
  lemma WipePublishes(s: State, s1: State, child: nat, goal: RuntimeState, outcome: Outcome, ports: Ports)
    requires CanFence(s) && IsGoal(goal) && (goal.SignedOut? ==> outcome == Success)
    requires IsAt(s, s1, child, Fence(FenceOf(s.core), Wipe(goal, outcome), CONFIRM_OWNER, None), OpenedCore(s.core), ports)
    ensures var s' := Step(s1, Resume(child, Confirmed(true)));
      Fences(s, s', child, Snapshot(goal, Absent, false, SignedOutScreen, Some(outcome)), Farewell(goal)) && s'.ports == ports
  {
    hide ResumeOp, ResumeEnter, ResumeStart, AdvanceStoreFailure, CommitTransition;
    assert s1.tasks - {child} == s.tasks - {child};
  }

  function WritingSteps(child: nat): seq<Action> {
    [Perform(child, Applied), Resume(child, Done)] + [Perform(child, Applied), Resume(child, Done)]
  }

  function ConfirmingSteps(child: nat): seq<Action> {
    [Resume(child, Confirmed(true)), Resume(child, Confirmed(true))] + [Resume(child, Confirmed(true))]
  }

  /** A whole wipe: fence, four writes that apply, three confirmations. */
  function WipeSteps(child: nat): seq<Action> {
    OpeningSteps(child) + [Resume(child, Done)] + (WritingSteps(child) + WritingSteps(child)) + ConfirmingSteps(child)
  }

  lemma TwoWrites(s: State, s1: State, child: nat, goal: RuntimeState, outcome: Outcome, stage: nat, ports: Ports)
    requires CanFence(s) && (stage == 4 || stage == 6) && ports.cell == s.core.generation + 1
    requires IsAt(s, s1, child, Fence(FenceOf(s.core), Wipe(goal, outcome), stage, None), OpenedCore(s.core), ports)
    ensures IsAt(s, Steps(s1, WritingSteps(child)), child, Fence(FenceOf(s.core), Wipe(goal, outcome), stage + 2, None), OpenedCore(s.core),
                 PortsAfter(stage + 1, PortsAfter(stage, ports)))
  {
    hide CanFence, IsAt, Step, Steps, OpenedCore, FenceOf;
    var pair := [Perform(child, Applied), Resume(child, Done)];
    WipeWrites(s, s1, child, goal, outcome, stage, ports);
    WipeWrites(s, Steps(s1, pair), child, goal, outcome, stage + 1, PortsAfter(stage, ports));
    StepsConcat(s1, pair, pair);
  }

  lemma ThreeConfirmations(s: State, s1: State, child: nat, goal: RuntimeState, outcome: Outcome, ports: Ports)
    requires CanFence(s) && IsGoal(goal) && (goal.SignedOut? ==> outcome == Success)
    requires IsAt(s, s1, child, Fence(FenceOf(s.core), Wipe(goal, outcome), 8, None), OpenedCore(s.core), ports)
    ensures var s' := Steps(s1, ConfirmingSteps(child));
      Fences(s, s', child, Snapshot(goal, Absent, false, SignedOutScreen, Some(outcome)), Farewell(goal)) && s'.ports == ports
  {
    hide CanFence, IsAt, Step, Steps, OpenedCore, FenceOf, Fences, Farewell;
    var sure := Resume(child, Confirmed(true));
    WipeConfirms(s, s1, child, goal, outcome, 8, ports);
    WipeConfirms(s, Step(s1, sure), child, goal, outcome, 9, ports);
    WipePublishes(s, Step(Step(s1, sure), sure), child, goal, outcome, ports);
    TwoSteps(s1, sure, sure);
    OneStep(Step(Step(s1, sure), sure), sure);
    StepsConcat(s1, [sure, sure], [sure]);
  }

  /**
   A wipe that nothing interferes with empties both stores and shows its goal,
   without candidate, owner or destination.
   */
  lemma WipeEndsAt(s: State, child: nat, goal: RuntimeState, outcome: Outcome)
    requires CanFence(s) && IsStart(s, child, Wipe(goal, outcome)) && IsGoal(goal) && (goal.SignedOut? ==> outcome == Success)
    ensures var s' := Steps(s, WipeSteps(child));
      Fences(s, s', child, Snapshot(goal, Absent, false, SignedOutScreen, Some(outcome)), Farewell(goal))
      && s'.ports == Ports(s.core.generation + 1, None, None)
  {
    hide CanFence, IsAt, IsStart, Step, Steps, OpenedCore, FenceOf, Fences, Farewell, OpeningSteps, WritingSteps, ConfirmingSteps;
    var ports := s.ports.(cell := s.core.generation + 1);
    FenceOpens(s, child, Wipe(goal, outcome));
    var s1 := Steps(s, OpeningSteps(child));
    WipeBegins(s, s1, child, goal, outcome, ports);
    OneStep(s1, Resume(child, Done));
    var s2 := Step(s1, Resume(child, Done));
    TwoWrites(s, s2, child, goal, outcome, 4, ports);
    var s3 := Steps(s2, WritingSteps(child));
    TwoWrites(s, s3, child, goal, outcome, 6, ports);
    var s4 := Steps(s3, WritingSteps(child));
    ThreeConfirmations(s, s4, child, goal, outcome, Ports(s.core.generation + 1, None, None));
    StepsConcat(s, OpeningSteps(child), [Resume(child, Done)]);
    StepsConcat(s2, WritingSteps(child), WritingSteps(child));
    StepsConcat(s, OpeningSteps(child) + [Resume(child, Done)], WritingSteps(child) + WritingSteps(child));
    StepsConcat(s, OpeningSteps(child) + [Resume(child, Done)] + (WritingSteps(child) + WritingSteps(child)), ConfirmingSteps(child));
  }

  // ---------------------------------------------------------------- transitions and purges

  function TransitionSteps(child: nat): seq<Action> { OpeningSteps(child) + [Resume(child, Done)] }

  /** A fence took the actor on and showed the snapshot, with at most this announcement. */
  predicate Moves(s: State, s': State, child: nat, sn: Snapshot, payload: Option<Payload>) {
    && s'.core == FencedCore(s.core, sn, match payload
                                         case None => []
                                         case Some(p) => [Effect(s.core.generation + 1, s.core.nextSequence, sn.state, p)])
    && s'.tasks == s.tasks - {child} && s'.nextTask == s.nextTask
    && s'.ports == s.ports.(cell := s.core.generation + 1)
  }

  function Payloads(payload: Option<Payload>): seq<Payload> { if payload.None? then [] else [payload.value] }

  lemma TransitionCommits(s: State, s1: State, child: nat, sn: Snapshot, payload: Option<Payload>)
    requires CanFence(s)
    requires IsAt(s, s1, child, Fence(FenceOf(s.core), Transition(sn, Payloads(payload)), ACTIVATE, None), OpenedCore(s.core),
                  s.ports.(cell := s.core.generation + 1))
    ensures Moves(s, Step(s1, Resume(child, Done)), child, sn, payload)
  {
    hide ResumeOp, ResumeEnter, ResumeStart, AdvanceStoreFailure, AdvanceWipe;
    var g := s.core.generation + 1;
    var core := OpenedCore(s.core).Publish(sn);
    assert Payloads(payload) != [] ==> Payloads(payload)[1..] == [];
    assert core.EnqueueAll(g, sn.state, Payloads(payload)) == if payload.None? then core else core.Enqueue(g, sn.state, payload.value);
    assert s1.tasks - {child} == s.tasks - {child};
  }

  /** A transition that nothing interferes with shows its snapshot in the next generation and leaves the stores alone. */
  lemma TransitionEndsAt(s: State, child: nat, sn: Snapshot, payload: Option<Payload>)
    requires CanFence(s) && IsStart(s, child, Transition(sn, Payloads(payload)))
    ensures Moves(s, Steps(s, TransitionSteps(child)), child, sn, payload)
  {
    hide CanFence, IsAt, IsStart, Step, Steps, OpenedCore, FenceOf, Moves, OpeningSteps;
    FenceOpens(s, child, Transition(sn, Payloads(payload)));
    var s1 := Steps(s, OpeningSteps(child));
    TransitionCommits(s, s1, child, sn, payload);
    OneStep(s1, Resume(child, Done));
    StepsConcat(s, OpeningSteps(child), [Resume(child, Done)]);
  }

  function PurgeSteps(child: nat): seq<Action> {
    OpeningSteps(child) + [Resume(child, Done)] + [Perform(child, Applied), Resume(child, Done)] + [Resume(child, Confirmed(true))]
  }

  lemma PurgeBegins(s: State, s1: State, child: nat, stable: Snapshot, ports: Ports)
    requires CanFence(s) && IsAt(s, s1, child, Fence(FenceOf(s.core), StoreFailure(stable), ACTIVATE, None), OpenedCore(s.core), ports)
    ensures IsAt(s, Step(s1, Resume(child, Done)), child, Fence(FenceOf(s.core), StoreFailure(stable), PURGE_CALLBACK, None),
                 OpenedCore(s.core), ports)
  {
    hide ResumeOp, ResumeEnter, ResumeStart, AdvanceWipe, CommitTransition;
    assert Step(s1, Resume(child, Done)).tasks
      == s1.tasks[child := Fence(FenceOf(s.core), StoreFailure(stable), PURGE_CALLBACK, None)];
  }

  lemma PurgeWrites(s: State, s1: State, child: nat, stable: Snapshot, ports: Ports)
    requires CanFence(s) && ports.cell == s.core.generation + 1
    requires IsAt(s, s1, child, Fence(FenceOf(s.core), StoreFailure(stable), PURGE_CALLBACK, None), OpenedCore(s.core), ports)
    ensures IsAt(s, Steps(s1, [Perform(child, Applied), Resume(child, Done)]), child,
                 Fence(FenceOf(s.core), StoreFailure(stable), CONFIRM_PURGE, None), OpenedCore(s.core), ports)
  {
    hide ResumeOp, ResumeEnter, ResumeStart, AdvanceWipe, CommitTransition;
    TwoSteps(s1, Perform(child, Applied), Resume(child, Done));
    var s2 := Step(s1, Perform(child, Applied));
    assert s2.tasks == s.tasks[child := Fence(FenceOf(s.core), StoreFailure(stable), PURGE_CALLBACK, Some(Applied))];
    assert s2.core == OpenedCore(s.core) && s2.ports == ports;
    assert Step(s2, Resume(child, Done)).tasks
      == s.tasks[child := Fence(FenceOf(s.core), StoreFailure(stable), CONFIRM_PURGE, None)];
  }

  lemma PurgePublishes(s: State, s1: State, child: nat, stable: Snapshot, ports: Ports)
    requires CanFence(s) && ports == s.ports.(cell := s.core.generation + 1)
    requires IsAt(s, s1, child, Fence(FenceOf(s.core), StoreFailure(stable), CONFIRM_PURGE, None), OpenedCore(s.core), ports)
    ensures Moves(s, Step(s1, Resume(child, Confirmed(true))), child,
                  Snapshot(SafeTerminalError, if stable.verifiedOwner then stable.candidate else Absent, stable.verifiedOwner,
                           stable.destination, Some(TransientFailure)),
                  Some(Heard(SaySafeTerminalError, Assertive)))
  {
    hide ResumeOp, ResumeEnter, ResumeStart, AdvanceWipe, CommitTransition;
    assert s1.tasks - {child} == s.tasks - {child};
  }

  /** A callback store that failed is purged, and the failure shown with what was stable before. */
  lemma PurgeEndsAt(s: State, child: nat, stable: Snapshot)
    requires CanFence(s) && IsStart(s, child, StoreFailure(stable))
    ensures Moves(s, Steps(s, PurgeSteps(child)), child,
                  Snapshot(SafeTerminalError, if stable.verifiedOwner then stable.candidate else Absent, stable.verifiedOwner,
                           stable.destination, Some(TransientFailure)),
                  Some(Heard(SaySafeTerminalError, Assertive)))
  {
    hide CanFence, IsAt, IsStart, Step, Steps, OpenedCore, FenceOf, Moves, OpeningSteps;
    var (go, sure, write) := (Resume(child, Done), Resume(child, Confirmed(true)), [Perform(child, Applied), Resume(child, Done)]);
    var ports := s.ports.(cell := s.core.generation + 1);
    FenceOpens(s, child, StoreFailure(stable));
    var s1 := Steps(s, OpeningSteps(child));
    PurgeBegins(s, s1, child, stable, ports);
    OneStep(s1, go);
    PurgeWrites(s, Step(s1, go), child, stable, ports);
    PurgePublishes(s, Steps(Step(s1, go), write), child, stable, ports);
    OneStep(Steps(Step(s1, go), write), sure);
    StepsConcat(s, OpeningSteps(child), [go]);
    StepsConcat(s, OpeningSteps(child) + [go], write);
    StepsConcat(s, OpeningSteps(child) + [go] + write, [sure]);
  }

  // ---------------------------------------------------------------- the latch

  /** The actor after the terminal latch: everything released, one last announcement. */
  predicate Latches(c: Core, c': Core) {
    var sn := Snapshot(SafeTerminalError, Unknown, false, SignedOutScreen, Some(TransientFailure));
    var e := Effect(c.generation, c.nextSequence, SafeTerminalError, Heard(SaySafeTerminalError, Assertive));
    c' == c.(terminal := true, active := None, snapshot := sn, stateVersion := c.stateVersion + 1, published := c.published + [(sn, c.generation)],
             effects := [e], effectHistory := c.effectHistory + [e], nextSequence := c.nextSequence + 1)
  }

  /** The fence waits for a write, or for a confirmation. */
  predicate AwaitsWrite(job: FenceJob, stage: nat) { (job.Wipe? && 4 <= stage <= 7) || (job.StoreFailure? && stage == 4) }

  predicate AwaitsConfirmation(job: FenceJob, stage: nat) { (job.Wipe? && 8 <= stage <= 10) || (job.StoreFailure? && stage == 5) }

  /** A cleanup that cannot write, or cannot confirm that nothing is left, latches the actor for good. */
  lemma FailedCleanupLatches(s: State, t: nat, f: Reservation, job: FenceJob, stage: nat, done: Option<Mutation>, input: Input)
    requires t in s.tasks && s.tasks[t] == Fence(f, job, stage, done) && s.core.Accepts(f)
    requires (AwaitsWrite(job, stage) && done.Some? && done.value != Applied) || (AwaitsConfirmation(job, stage) && input == Confirmed(false))
    ensures var s' := Step(s, Resume(t, input)); Latches(s.core, s'.core) && s'.tasks == s.tasks - {t} && s'.ports == s.ports
  {
    hide ResumeOp, ResumeEnter, ResumeStart, CommitTransition, PublishWipe;
  }

  /** At the last generation no operation is reserved and no fence installed: the actor latches instead. */
  lemma LastGenerationLatches(c: Core, kind: OperationKind, now: nat)
    requires !c.terminal && c.generation >= MAX_GENERATION
    ensures c.active.None? ==> Latches(c, c.Reserve(kind, now).0) && c.Reserve(kind, now).1.None?
    ensures c.active.None? ==> Latches(c, c.ReserveTimeout(now).0) && c.ReserveTimeout(now).1.None?
    ensures Latches(c, c.InstallFence(c.generation).0) && c.InstallFence(c.generation).1.None?
  {
  }
}
