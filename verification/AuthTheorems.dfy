/**
 What every run of the coordinator keeps, whatever the interleaving of its
 entries, continuations and port effects.
 */
module AuthTheorems {
  import opened Basics
  import opened AuthKernel
  import opened AuthRuntime
  import opened AuthStructure
  import opened AuthEvidence
  import opened AuthStores
  import opened AuthHistory

  ghost predicate Invariant(s: State, first: nat) {
    Structure(s) && Evidence(s) && Stores(s) && History(s, first)
  }

  lemma InitiallyInvariant(first: nat, ports: Ports)
    requires first <= MAX_GENERATION
    ensures Invariant(InitialState(first, ports), first)
  {
  }

  lemma StepKeepsInvariant(s: State, a: Action, first: nat)
    requires Invariant(s, first)
    ensures Invariant(Step(s, a), first)
  {
    StepKeepsStructure(s, a);
    StepKeepsEvidence(s, a);
    StepKeepsStores(s, a);
    StepKeepsHistory(s, a, first);
  }

  lemma {:induction false} RunKeepsInvariant(first: nat, ports: Ports, actions: seq<Action>)
    requires first <= MAX_GENERATION
    ensures Invariant(Run(InitialState(first, ports), actions), first)
    decreases |actions|
  {
    if actions == [] { InitiallyInvariant(first, ports); }
    else {
      RunKeepsInvariant(first, ports, actions[..|actions| - 1]);
      StepKeepsInvariant(Run(InitialState(first, ports), actions[..|actions| - 1]), actions[|actions| - 1], first);
    }
  }

  /**
   While the published state is account_switching or expired_or_revoked the
   session vault and the owner store are empty, and stay empty under every port
   call still in flight.
   */
  lemma WipedStatesHoldNothing(first: nat, ports: Ports, actions: seq<Action>)
    requires first <= MAX_GENERATION
    ensures var s := Run(InitialState(first, ports), actions);
      IsWipedState(s.core.snapshot.state) ==>
        && s.ports.vault.None? && s.ports.owner.None?
        && forall t, wish :: var s' := PerformStep(s, t, wish); s'.ports.vault.None? && s'.ports.owner.None?
  {
    hide Invariant;
    var s := Run(InitialState(first, ports), actions);
    RunKeepsInvariant(first, ports, actions);
    if IsWipedState(s.core.snapshot.state) {
      WipedHoldsNothing(s, first);
      forall t, wish ensures var s' := PerformStep(s, t, wish); s'.ports.vault.None? && s'.ports.owner.None? {
        PerformLeavesNothing(s, t, wish, first);
      }
    }
  }

  lemma WipedHoldsNothing(s: State, first: nat)
    requires Invariant(s, first) && IsWipedState(s.core.snapshot.state)
    ensures s.ports.vault.None? && s.ports.owner.None?
  {
  }

  lemma PerformLeavesNothing(s: State, t: nat, wish: Mutation, first: nat)
    requires Invariant(s, first) && IsWipedState(s.core.snapshot.state)
    ensures PerformStep(s, t, wish).ports.vault.None? && PerformStep(s, t, wish).ports.owner.None?
  {
    hide Invariant;
    StepKeepsInvariant(s, Perform(t, wish), first);
    PerformPublishesNothing(s, t, wish);
    WipedHoldsNothing(PerformStep(s, t, wish), first);
  }

  /**
   Every published snapshot that claims a verified owner has an authenticated
   publication behind it: owner verified, vault written and owner bound, in that
   order, for one reservation, with no completed wipe in between.
   */
  lemma VerifiedClaimsTraceBack(first: nat, ports: Ports, actions: seq<Action>)
    requires first <= MAX_GENERATION
    ensures var s := Run(InitialState(first, ports), actions);
      && s.core.published == Publications(s.log)
      && (forall i | 0 <= i < |s.log| && s.log[i].Published? && s.log[i].snapshot.verifiedOwner :: OwnerProven(s.log[..i + 1]))
      && (s.core.snapshot.verifiedOwner ==> OwnerProven(s.log))
  {
    RunKeepsInvariant(first, ports, actions);
  }

  /** A claimed owner is a stored one, unless a wipe is in the middle of its work. */
  lemma VerifiedOwnerIsStored(first: nat, ports: Ports, actions: seq<Action>)
    requires first <= MAX_GENERATION
    ensures var s := Run(InitialState(first, ports), actions);
      s.core.snapshot.verifiedOwner && !Wiping(s) ==> s.ports.vault.Some? && s.ports.owner.Some?
  {
    RunKeepsInvariant(first, ports, actions);
  }

  /** Of all the cancels, timeouts, rejections and cleanups aimed at a generation, exactly one fences it. */
  lemma EachGenerationIsFencedOnce(first: nat, ports: Ports, actions: seq<Action>)
    requires first <= MAX_GENERATION
    ensures var s := Run(InitialState(first, ports), actions);
      && s.core.generation == first + |Fences(s.log)| <= MAX_GENERATION
      && forall i | 0 <= i < |Fences(s.log)| :: Fences(s.log)[i] == first + i
  {
    RunKeepsInvariant(first, ports, actions);
  }

  /** A fence that comes too late changes nothing at all. */
  lemma LateFenceDoesNothing(s: State, t: nat, input: Input)
    requires t in s.tasks && s.tasks[t].Start? && s.tasks[t].expected.Some?
    requires s.core.terminal || s.core.generation != s.tasks[t].expected.value
    ensures Step(s, Resume(t, input)) == s.Drop(t)
  {
  }

  /** A fence that has been superseded publishes nothing and finishes nothing. */
  lemma SupersededFenceDoesNothing(first: nat, ports: Ports, actions: seq<Action>, t: nat, input: Input)
    requires first <= MAX_GENERATION
    ensures var s := Run(InitialState(first, ports), actions);
      t in s.tasks && s.tasks[t].Fence? && (s.core.terminal || s.core.generation != s.tasks[t].f.generation) ==>
        Step(s, Resume(t, input)) == s || Step(s, Resume(t, input)) == s.Drop(t)
  {
    var s := Run(InitialState(first, ports), actions);
    RunKeepsInvariant(first, ports, actions);
    if t in s.tasks && s.tasks[t].Fence? && s.core.active.Some? {
      var o :| o in s.tasks && Owns(s.tasks[o], s.core.active.value);
      if o != t { assert Apart(s.tasks[o], s.tasks[t].f); }
    }
  }

  /**
   At quiescence nothing is reserved, and the run has either latched, or never
   fenced, or published from the fence of its newest generation.
   */
  lemma QuiescentRunsAreSettled(first: nat, ports: Ports, actions: seq<Action>)
    requires first <= MAX_GENERATION
    ensures var s := Run(InitialState(first, ports), actions);
      (forall t | t in s.tasks :: s.tasks[t].Enter? || s.tasks[t].Announce?) ==>
        && s.core.active.None?
        && (s.core.terminal || s.core.generation == first || FencePublished(s.log, s.core.generation))
  {
    var s := Run(InitialState(first, ports), actions);
    RunKeepsInvariant(first, ports, actions);
    if s.core.active.Some? {
      var o :| o in s.tasks && Owns(s.tasks[o], s.core.active.value);
    }
  }

  /** The terminal latch fires at most once. */
  lemma LatchFiresOnce(first: nat, ports: Ports, actions: seq<Action>)
    requires first <= MAX_GENERATION
    ensures var s := Run(InitialState(first, ports), actions);
      Latches(s.log) == if s.core.terminal then 1 else 0
  {
    RunKeepsInvariant(first, ports, actions);
  }

  /** Once latched, only draining the queue changes anything a caller can see. */
  lemma TerminalAbsorbs(s: State, a: Action, first: nat)
    requires Invariant(s, first) && s.core.terminal
    ensures var core' := Step(s, a).core;
      && core' == s.core.(effects := core'.effects)
      && (core'.effects == s.core.effects || (a.Call? && a.request.DrainEffects?))
      && Publications(Step(s, a).log) == Publications(s.log)
  {
    hide Structure, Evidence, Stores, CallStep, PerformStep, ReadVaultStep, ResumeStep;
    match a
    case Call(request) => TerminalAbsorbsCall(s, request, first);
    case Perform(t, wish) => PerformPublishesNothing(s, t, wish);
    case ReadVault(t, refusal) => ReadingPublishesNothing(s, t, refusal);
    case Resume(t, input) => TerminalAbsorbsResume(s, t, input, first);
  }

  lemma TerminalAbsorbsCall(s: State, request: Request, first: nat)
    requires Invariant(s, first) && s.core.terminal
    ensures var core' := CallStep(s, request).core;
      && core' == s.core.(effects := core'.effects)
      && (core'.effects == s.core.effects || request.DrainEffects?)
      && Publications(CallStep(s, request).log) == Publications(s.log)
  {
    hide Structure, Evidence, Stores;
    if request.DrainEffects? { ReadAppended(s.log, Drained(s.core.Drain(request.generation).1)); }
  }

  lemma ReadingPublishesNothing(s: State, t: nat, refusal: Option<PortResult<Option<Candidate>>>)
    ensures ReadVaultStep(s, t, refusal).core == s.core && ReadVaultStep(s, t, refusal).log == s.log
  {
  }

  lemma PerformPublishesNothing(s: State, t: nat, wish: Mutation)
    ensures PerformStep(s, t, wish).core == s.core
    ensures Publications(PerformStep(s, t, wish).log) == Publications(s.log)
  {
    var s' := PerformStep(s, t, wish);
    if |s'.log| > |s.log| { ReadAppended(s.log, s'.log[|s.log|]); }
  }

  lemma TerminalAbsorbsResume(s: State, t: nat, input: Input, first: nat)
    requires Invariant(s, first) && s.core.terminal
    ensures ResumeStep(s, t, input).core == s.core && ResumeStep(s, t, input).log == s.log
  {
    hide Structure, Evidence, Stores, ResumeOp;
    if t in s.tasks && s.tasks[t].Op? { TerminalAbsorbsOp(s, t, s.tasks[t].r, s.tasks[t].at, input); }
  }

  lemma TerminalAbsorbsOp(s: State, t: nat, r: Reservation, at: OpPoint, input: Input)
    requires s.core.terminal && s.core.active.None? && forall e | e in s.core.effects :: e.origin != RefreshPending
    ensures ResumeOp(s, t, r, at, input).core == s.core && ResumeOp(s, t, r, at, input).log == s.log
  {
    WithoutNothing(s.core.effects, r.generation);
  }

  /** No step takes the generation back, and none takes it past the last one. */
  lemma GenerationOnlyRises(s: State, a: Action, first: nat)
    requires Invariant(s, first)
    ensures s.core.generation <= Step(s, a).core.generation <= MAX_GENERATION
  {
    StepKeepsStructure(s, a);
    match a
    case Resume(t, input) => if t in s.tasks { ResumeRaises(s, t, input); }
    case _ =>
  }

  lemma ResumeRaises(s: State, t: nat, input: Input)
    requires t in s.tasks
    ensures s.core.generation <= ResumeStep(s, t, input).core.generation
  {
    match s.tasks[t]
    case Fence(f, job, stage, done) => FenceKeepsGeneration(s, t, f, job, stage, done, input);
    case Op(r, at) => OpKeepsGeneration(s, t, r, at, input);
    case _ =>
  }

  lemma FenceKeepsGeneration(s: State, t: nat, f: Reservation, job: FenceJob, stage: nat, done: Option<Mutation>, input: Input)
    ensures ResumeFence(s, t, f, job, stage, done, input).core.generation == s.core.generation
  {
    if job.Transition? {
      EnqueueAllFrame(s.core.Publish(job.snapshot), f.generation, job.snapshot.state, job.payloads);
    }
  }

  lemma OpKeepsGeneration(s: State, t: nat, r: Reservation, at: OpPoint, input: Input)
    ensures ResumeOp(s, t, r, at, input).core.generation == s.core.generation
  {
  }

  /**
   Queued effects belong to the current generation; over the whole run the
   drained effects come in strictly increasing sequence, so each is drained at
   most once.
   */
  lemma EffectsAreCurrentAndDrainedOnce(first: nat, ports: Ports, actions: seq<Action>)
    requires first <= MAX_GENERATION
    ensures var s := Run(InitialState(first, ports), actions);
      && (forall e | e in s.core.effects :: e.generation == s.core.generation)
      && SequencesIncrease(DrainedEffects(s.log) + s.core.effects)
  {
    RunKeepsInvariant(first, ports, actions);
  }

  /** The provider is asked for a refresh at most once in a generation. */
  lemma RefreshIsCalledOncePerGeneration(first: nat, ports: Ports, actions: seq<Action>)
    requires first <= MAX_GENERATION
    ensures var refreshes := Refreshes(Run(InitialState(first, ports), actions).log);
      forall i, j | 0 <= i < j < |refreshes| :: refreshes[i] < refreshes[j]
  {
    RunKeepsInvariant(first, ports, actions);
  }

  // ---------------------------------------------------------------- what operations are for

  function Steps(s: State, actions: seq<Action>): State
    decreases |actions|
  {
    if actions == [] then s else Steps(Step(s, actions[0]), actions[1..])
  }

  /** Left alone, a callback ends authenticated, with its own session and owner stored. */
  lemma UninterruptedCallbackAuthenticates(s: State, now: nat, c: Candidate, session: Candidate, subject: Subject)
    requires !s.core.terminal && s.core.active.None? && s.core.generation < MAX_GENERATION
    requires s.ports.cell == s.core.generation && s.nextTask !in s.tasks
    ensures var t := s.nextTask;
      var s' := Steps(Step(Step(Step(Step(Step(s,
          Call(ReceiveCallback)), Resume(t, Clock(now))), Resume(t, ConsumeAnswer(Consumed(c)))),
          Resume(t, ExchangeAnswer(PortSuccess(session), false))), Resume(t, VerifyAnswer(PortSuccess(subject)))),
          [Perform(t, Applied), Resume(t, Done), Perform(t, Applied), Resume(t, Done)]);
      && s'.core.snapshot == AUTHENTICATED_SNAPSHOT && s'.core.active.None? && s'.tasks == s.tasks
      && s'.ports == s.ports.(vault := Some(session), owner := Some(subject))
      && |s'.core.effects| == |s.core.effects| + 2
  {
    var t := s.nextTask;
    var r := s.core.NewReservation(CallbackKind, now);
    var s1 := Step(Step(Step(s, Call(ReceiveCallback)), Resume(t, Clock(now))), Resume(t, ConsumeAnswer(Consumed(c))));
    assert s1.tasks == s.tasks[t := Op(r, AtExchange)] && s1.core.Accepts(r) && s1.ports == s.ports;
    var s2 := Step(Step(s1, Resume(t, ExchangeAnswer(PortSuccess(session), false))), Resume(t, VerifyAnswer(PortSuccess(subject))));
    assert s2.tasks == s.tasks[t := Op(r, AtReplace(session, subject, true, EndPlain, None))];
    assert s2.core == s1.core && s2.ports == s1.ports;
    WritesThenAuthenticates(s2, t, r, session, subject);
    assert (s2.tasks - {t}) == s.tasks;
  }

  lemma WritesThenAuthenticates(s: State, t: nat, r: Reservation, session: Candidate, subject: Subject)
    requires t in s.tasks && s.tasks[t] == Op(r, AtReplace(session, subject, true, EndPlain, None))
    requires s.core.Accepts(r) && s.ports.cell == s.core.generation
    ensures var s' := Steps(s, [Perform(t, Applied), Resume(t, Done), Perform(t, Applied), Resume(t, Done)]);
      && s'.core.snapshot == AUTHENTICATED_SNAPSHOT && s'.core.active.None? && s'.tasks == s.tasks - {t}
      && s'.ports == s.ports.(vault := Some(session), owner := Some(subject))
      && |s'.core.effects| == |s.core.effects| + 1
  {
    var s1 := Step(s, Perform(t, Applied));
    assert s1.tasks[t] == Op(r, AtReplace(session, subject, true, EndPlain, Some(Applied)));
    var s2 := Step(s1, Resume(t, Done));
    assert s2.tasks[t] == Op(r, AtBind(session, subject, true, EndPlain, None));
    var s3 := Step(s2, Perform(t, Applied));
    assert s3.tasks[t] == Op(r, AtBind(session, subject, true, EndPlain, Some(Applied)));
    var s4 := Step(s3, Resume(t, Done));
    assert s4.tasks == s.tasks - {t};
    UnfoldSteps(s, Perform(t, Applied), Resume(t, Done), Perform(t, Applied), Resume(t, Done));
  }

  lemma UnfoldSteps(s: State, a: Action, b: Action, c: Action, d: Action)
    ensures Steps(s, [a, b, c, d]) == Step(Step(Step(Step(s, a), b), c), d)
  {
    assert [a, b, c, d][1..] == [b, c, d] && [b, c, d][1..] == [c, d] && [c, d][1..] == [d] && [d][1..] == [];
    assert Steps(Step(Step(Step(Step(s, a), b), c), d), []) == Step(Step(Step(Step(s, a), b), c), d);
    assert Steps(Step(Step(Step(s, a), b), c), [d]) == Step(Step(Step(Step(s, a), b), c), d);
    assert Steps(Step(Step(s, a), b), [c, d]) == Step(Step(Step(Step(s, a), b), c), d);
  }

  /** A wipe that no one supersedes empties both stores and publishes its goal. */
  lemma UninterruptedWipeFinishes(s: State, t: nat, f: Reservation, goal: RuntimeState, outcome: Outcome)
    requires t in s.tasks && s.tasks[t] == Fence(f, Wipe(goal, outcome), CLEAR_VAULT, None)
    requires s.core.Accepts(f) && s.ports.cell == f.generation
    ensures var cleared := Steps(s, [Perform(t, Applied), Resume(t, Done), Perform(t, Applied), Resume(t, Done)]);
      var s' := Step(Step(Step(cleared, Resume(t, Confirmed(true))), Resume(t, Confirmed(true))), Resume(t, Confirmed(true)));
      && s'.core.snapshot == WipedSnapshot(goal, outcome) && s'.core.active.None?
      && s'.ports.vault.None? && s'.ports.owner.None? && s'.tasks == s.tasks - {t}
  {
    UnfoldSteps(s, Perform(t, Applied), Resume(t, Done), Perform(t, Applied), Resume(t, Done));
    var s1 := Step(s, Perform(t, Applied));
    assert s1.tasks[t] == Fence(f, Wipe(goal, outcome), CLEAR_VAULT, Some(Applied));
    var s2 := Step(s1, Resume(t, Done));
    assert s2.tasks[t] == Fence(f, Wipe(goal, outcome), PURGE_OWNER, None);
    var s3 := Step(s2, Perform(t, Applied));
    assert s3.tasks[t] == Fence(f, Wipe(goal, outcome), PURGE_OWNER, Some(Applied));
    var s4 := Step(s3, Resume(t, Done));
    assert s4.tasks[t] == Fence(f, Wipe(goal, outcome), CONFIRM_CALLBACK, None) && s4.core == s.core;
    var s5 := Step(s4, Resume(t, Confirmed(true)));
    assert s5.tasks[t] == Fence(f, Wipe(goal, outcome), CONFIRM_VAULT, None);
    var s6 := Step(s5, Resume(t, Confirmed(true)));
    assert s6.tasks[t] == Fence(f, Wipe(goal, outcome), CONFIRM_OWNER, None) && s6.core == s.core;
    assert s6.tasks - {t} == s.tasks - {t};
  }
}
