/**
 Crashes, restarts and recoveries over whole runs: what a verdict of recovery
 says about the files and about the response of the crashed broker, and that
 nothing runs again before such a verdict.
 */
module JournalCrashes {
  import opened Basics
  import opened BrokerFrame
  import opened JournalText
  import opened JournalResponse
  import opened Journal
  import opened JournalLoader
  import opened JournalBroker
  import opened JournalRuns
  import opened JournalSafety
  import opened JournalPast
  import opened JournalTheorems

  // ---------------------------------------------------------------- verdicts

  /** The verdict that this step of the run gives, if it is a recovery that gives one. */
  function VerdictOf(codec: Codec, s: Sys, a: Action): Option<Outcome> {
    if a.Request? && s.broker.Some? && s.broker.value.stage.Idle? && Plausible(codec, s.broker.value, a) then
      var core := s.broker.value;
      var identity := IdentityFor(codec, s, core, a.frame, a.digest, a.volatile);
      if Recovers(codec, core, a.frame, identity) then Some(Recover(codec, core, FieldOr(a.frame, 24, ""), identity).1.value) else None
    else None
  }

  /** The values in the response of a recovery. */
  function VerdictValues(s: Sys, o: Outcome): Values
    requires s.broker.Some?
  {
    OutcomeValues(s.broker.value.memory, o)
  }

  /** The verdict is answered at once, with its values. */
  lemma VerdictIsAnswered(codec: Codec, s: Sys, a: Action, o: Outcome)
    requires VerdictOf(codec, s, a) == Some(o)
    ensures var s' := Step(codec, s, a);
      && s'.broker.Some? && s'.broker.value.stage.Answered? && !s'.broker.value.stage.commit
      && exists core: Core ::
           s'.broker.value.stage.response == Passed(core, RefOf(a.frame, a.digest), a.frame.operation, VerdictValues(s, o))
  {
    var core := s.broker.value;
    var identity := IdentityFor(codec, s, core, a.frame, a.digest, a.volatile);
    var recovered := Recover(codec, core, FieldOr(a.frame, 24, ""), identity).0;
    hide IdentityFor, GateFor, Recover, Passed, FailedWith, OperationName, AppendState, RefOf, OutcomeValues, Plausible, FieldOr;
    assert Step(codec, s, a).broker.value.stage.response == Passed(recovered, RefOf(a.frame, a.digest), a.frame.operation, VerdictValues(s, o));
  }

  lemma VerdictMeans(codec: Codec, s: Sys, a: Action)
    requires VerdictOf(codec, s, a).Some?
    ensures var core := s.broker.value;
      var identity := CaptureLast(codec, s.world, core.memory, a.volatile);
      match VerdictOf(codec, s, a).value
      case VerifiedNotApplied => IsTracking(core) && core.memory.state.Last? && identity == Ok(core.memory.before)
      case VerifiedAppliedUnacked => IsTracking(core) && core.memory.state == Last(Applied)
      case VerifiedCommitted => IsTracking(core) && core.memory.state == Last(Acked)
      case _ => true
  {
    hide RecoveryBound, Append, RecoveredRecord, ResponseIntact, GateFor, CaptureLast, Capture, FieldOr, Plausible;
  }

  // ---------------------------------------------------------------- not applied

  /** No mutation begins in `later`, which follows `before`. */
  ghost predicate NothingStarts(codec: Codec, world: World, before: seq<Action>, later: seq<Action>) {
    forall i | 0 <= i < |later| ::
      var s := Run(codec, Initial(world), before + later[..i]);
      !Starts(s, later[i], Step(codec, s, later[i]))
  }

  lemma PastGrows(codec: Codec, world: World, before: seq<Action>, a: Action)
    ensures var s := Run(codec, Initial(world), before);
      && Run(codec, Initial(world), before + [a]) == Step(codec, s, a)
      && PastOf(codec, world, before + [a]) == NextPast(PastOf(codec, world, before), s, a, Step(codec, s, a))
  {
    var all := before + [a];
    assert all[..|all| - 1] == before;
    hide Step, NextPast;
  }

  lemma {:induction false} BeginningStays(codec: Codec, world: World, before: seq<Action>, later: seq<Action>)
    requires NothingStarts(codec, world, before, later)
    ensures PastOf(codec, world, before + later).begun == PastOf(codec, world, before).begun
    decreases |later|
  {
    hide Run, Step, Starts, PastOf;
    if later == [] {
      assert before + later == before;
    } else {
      var n := |later| - 1;
      var most := later[..n];
      assert before + later == (before + most) + [later[n]];
      assert forall i | 0 <= i < n :: most[..i] == later[..i];
      BeginningStays(codec, world, before, most);
      PastGrows(codec, world, before + most, later[n]);
    }
  }

  /**
   A mutation begins on a file, and nothing else begins after it. Whatever happens
   next, with crashes, restarts and recoveries in any order: when a recovery says
   VERIFIED_NOT_APPLIED, the file has the identity it had before the intent.
   */
  lemma NotAppliedMeansUntouched(codec: Codec, world: World, before: seq<Action>, begin: Action, later: seq<Action>, recover: Action)
    requires Sound(codec)
    requires var s := Run(codec, Initial(world), before); Starts(s, begin, Step(codec, s, begin))
    requires IsFileOperation(OperationName(begin.frame.operation))
    requires NothingStarts(codec, world, before + [begin], later)
    requires VerdictOf(codec, Run(codec, Initial(world), before + [begin] + later), recover) == Some(VerifiedNotApplied)
    ensures var (name, ref) := (OperationName(begin.frame.operation), RefOf(begin.frame, begin.digest));
      FileIdentity(codec, Run(codec, Initial(world), before + [begin] + later).world, name, ref.root, ref.path, ref.other)
        == FileIdentity(codec, Run(codec, Initial(world), before).world, name, ref.root, ref.path, ref.other)
  {
    var all := before + [begin] + later;
    var now := Run(codec, Initial(world), all);
    BeginningIs(codec, world, before, begin);
    BeginningStays(codec, world, before + [begin], later);
    var rs := RunRemembers(codec, world, all);
    VerdictMeans(codec, now, recover);
    LastRecord(codec, now, now.broker.value, rs);
    hide Invariant, Run, Step, VerdictOf, MemoryOf, NothingStarts, PastOf, OperationName, RefOf, IsFileOperation, FileIdentity, InStage;
    CapturedFile(codec, now.world, now.broker.value.memory, recover.volatile);
  }

  lemma BeginningIs(codec: Codec, world: World, before: seq<Action>, begin: Action)
    requires var s := Run(codec, Initial(world), before); Starts(s, begin, Step(codec, s, begin))
    ensures PastOf(codec, world, before + [begin]).begun
      == Some(Beginning(Run(codec, Initial(world), before).world, OperationName(begin.frame.operation), RefOf(begin.frame, begin.digest)))
  {
    hide Run, Step, OperationName, RefOf, PastOf;
    PastGrows(codec, world, before, begin);
  }

  lemma CapturedFile(codec: Codec, world: World, m: Memory, volatile: Answer<string>)
    requires IsFileOperation(m.operation)
    ensures var answer := CaptureLast(codec, world, m, volatile);
      answer.Ok? ==> answer.value == FileIdentity(codec, world, m.operation, m.root, m.path, m.other)
  {
    hide FileIdentity, IsFileOperation;
  }

  // ---------------------------------------------------------------- the response

  /** The response was the last that a broker of the run journaled for acknowledgement. */
  ghost predicate IsLastResponse(codec: Codec, world: World, actions: seq<Action>, response: string) {
    exists i :: 0 <= i <= |actions| && RespondsWith(Run(codec, Initial(world), actions[..i]), response)
      && forall j | i < j <= |actions| :: !Responds(Run(codec, Initial(world), actions[..j]))
  }

  predicate RespondsWith(s: Sys, response: string) { Responds(s) && s.broker.value.stage.response == response }

  ghost predicate NeverResponds(codec: Codec, world: World, actions: seq<Action>) {
    forall j | 0 <= j <= |actions| :: !Responds(Run(codec, Initial(world), actions[..j]))
  }

  lemma {:induction false} AnsweredIsLast(codec: Codec, world: World, actions: seq<Action>)
    ensures var p := PastOf(codec, world, actions);
      if p.answered.Some? then IsLastResponse(codec, world, actions, p.answered.value) else NeverResponds(codec, world, actions)
    decreases |actions|
  {
    if actions == [] {
      hide Step;
      assert NeverResponds(codec, world, []);
    } else {
      hide Run, Step, Starts, PastOf, Responds, IsLastResponse, NeverResponds;
      var before, a := actions[..|actions| - 1], actions[|actions| - 1];
      AnsweredIsLast(codec, world, before);
      assert actions == before + [a];
      LastAfter(codec, world, before, a);
    }
  }

  lemma LastAfter(codec: Codec, world: World, before: seq<Action>, a: Action)
    requires var p := PastOf(codec, world, before);
      if p.answered.Some? then IsLastResponse(codec, world, before, p.answered.value) else NeverResponds(codec, world, before)
    ensures var p := PastOf(codec, world, before + [a]);
      if p.answered.Some? then IsLastResponse(codec, world, before + [a], p.answered.value) else NeverResponds(codec, world, before + [a])
  {
    hide Run, Step, Starts, PastOf, Responds, IsLastResponse, NeverResponds;
    PastGrows(codec, world, before, a);
    if Responds(Run(codec, Initial(world), before + [a])) {
      NewIsLast(codec, world, before, a);
    } else if PastOf(codec, world, before).answered.Some? {
      LastOfMore(codec, world, before, a, PastOf(codec, world, before).answered.value);
    } else {
      NoneOfMore(codec, world, before, a);
    }
  }

  lemma NoneOfMore(codec: Codec, world: World, before: seq<Action>, a: Action)
    requires NeverResponds(codec, world, before) && !Responds(Run(codec, Initial(world), before + [a]))
    ensures NeverResponds(codec, world, before + [a])
  {
    hide Run, Responds;
    var all := before + [a];
    assert all[..|all|] == all;
    assert forall j | 0 <= j <= |before| :: before[..j] == all[..j];
  }

  lemma NewIsLast(codec: Codec, world: World, before: seq<Action>, a: Action)
    requires Responds(Run(codec, Initial(world), before + [a]))
    ensures IsLastResponse(codec, world, before + [a], Run(codec, Initial(world), before + [a]).broker.value.stage.response)
  {
    hide Run;
    var all := before + [a];
    assert all[..|all|] == all;
    assert RespondsWith(Run(codec, Initial(world), all[..|all|]), Run(codec, Initial(world), all).broker.value.stage.response);
  }

  lemma LastOfMore(codec: Codec, world: World, before: seq<Action>, a: Action, response: string)
    requires IsLastResponse(codec, world, before, response) && !Responds(Run(codec, Initial(world), before + [a]))
    ensures IsLastResponse(codec, world, before + [a], response)
  {
    hide Run, Responds;
    var all, n := before + [a], |before|;
    assert all[..n + 1] == all;
    assert forall j | 0 <= j <= n :: before[..j] == all[..j];
    var i :| 0 <= i <= n && RespondsWith(Run(codec, Initial(world), before[..i]), response)
      && forall j | i < j <= n :: !Responds(Run(codec, Initial(world), before[..j]));
    assert RespondsWith(Run(codec, Initial(world), all[..i]), response);
  }

  /**
   However many brokers crashed since: both replaying verdicts hand over, byte for
   byte, the last response that any broker of the run journaled, and the request it
   answered is the last that began.
   */
  lemma ReplayReturnsTheResponse(codec: Codec, world: World, actions: seq<Action>, recover: Action, o: Outcome)
    requires Sound(codec) && (o == VerifiedCommitted || o == VerifiedAppliedUnacked)
    requires VerdictOf(codec, Run(codec, Initial(world), actions), recover) == Some(o)
    ensures var s := Run(codec, Initial(world), actions);
      exists text, response ::
        && ("replayResponseBase64", text) in VerdictValues(s, o) && codec.unbase64(text) == Some(response)
        && IsLastResponse(codec, world, actions, response)
    ensures PastOf(codec, world, actions).begun.Some?
      && ("replayRequestSha256", PastOf(codec, world, actions).begun.value.ref.request)
           in VerdictValues(Run(codec, Initial(world), actions), o)
  {
    var s := Run(codec, Initial(world), actions);
    var p := PastOf(codec, world, actions);
    var rs := RunRemembers(codec, world, actions);
    VerdictMeans(codec, s, recover);
    AnsweredIsLast(codec, world, actions);
    ReplayCarriesTheResponse(s.broker.value.memory, o);
    LastRecord(codec, s, s.broker.value, rs);
    hide Invariant, Run, VerdictOf, MemoryOf, PastOf, OutcomeValues, IsLastResponse, FileIdentity, InStage;
    var response := p.answered.value;
    assert codec.unbase64(codec.base64(response)) == Some(response);
    assert ("replayResponseBase64", codec.base64(response)) in VerdictValues(s, o);
  }

  // ---------------------------------------------------------------- nothing runs before a verdict

  predicate IsUnsettled(state: LastState) { state != Empty && state != Last(Acked) }

  /** No broker is at work, or it is held, and the last record of the journal is not acknowledged. */
  ghost predicate IsUnresolved(codec: Codec, s: Sys) {
    && (s.broker.Some? ==> s.broker.value.crashHeld)
    && exists rs :: Invariant(codec, s, rs) && IsUnsettled(MemoryOf(codec, rs).state)
  }

  /** The recovery verified that the last mutation was, or was not, applied. */
  predicate Verifies(codec: Codec, s: Sys, a: Action) {
    VerdictOf(codec, s, a) == Some(VerifiedNotApplied) || VerdictOf(codec, s, a) == Some(VerifiedAppliedUnacked)
  }

  lemma HeldIsUnresolved(codec: Codec, world: World, actions: seq<Action>)
    requires Sound(codec)
    requires var s := Run(codec, Initial(world), actions);
      s.broker.Some? && IsTracking(s.broker.value) && s.broker.value.crashHeld && IsUnsettled(s.broker.value.memory.state)
    ensures IsUnresolved(codec, Run(codec, Initial(world), actions))
  {
    var rs := RunKeeps(codec, world, actions);
    var s := Run(codec, Initial(world), actions);
    LastRecord(codec, s, s.broker.value, rs);
    hide Invariant, MemoryOf, Run;
  }

  /** A crash while a mutation is executed, or before its response is acknowledged. */
  lemma CrashLeavesUnresolved(codec: Codec, world: World, actions: seq<Action>)
    requires Sound(codec)
    requires var s := Run(codec, Initial(world), actions); s.broker.Some? && (s.broker.value.stage.Executing? || Responds(s))
    ensures IsUnresolved(codec, Run(codec, Initial(world), actions + [Crash]))
  {
    hide Invariant, MemoryOf, Run, MakeRecord, StateNamed, InHand, IsIdentity, PastOf, OperationName, RefOf, Sound;
    var rs := RunKeeps(codec, world, actions);
    var s := Run(codec, Initial(world), actions);
    var core := s.broker.value;
    PastGrows(codec, world, actions, Crash);
    if core.stage.Executing? {
      ExecutingState(codec, s, core, rs);
    } else {
      AnsweredState(codec, s, core, rs);
      MadeState(codec, Applied, core.stage.ref, core.stage.operation, core.stage.before, core.stage.after, core.stage.response, core.session);
    }
    MemoryState(codec, rs);
    CrashKeeps(codec, s, rs);
    assert Step(codec, s, Crash) == s.(broker := None);
  }

  lemma HeldRequest(codec: Codec, s: Sys, core: Core, a: Action)
    requires a.Request? && s.broker == Some(core) && With(s, core) == s && core.crashHeld && !core.stage.Executing?
    requires Plausible(codec, core, a) && !Verifies(codec, s, a)
    requires core.crashHeld <==> core.hold != Closed
    ensures var s' := BrokerStep(codec, s, core, a);
      s'.broker.Some? && s'.journal == s.journal && s'.broker.value.crashHeld && !s'.broker.value.stage.Executing?
  {
    hide Recover, IdentityFor, GateFor, Receive, RequestStep, IsMutation, Begun, FitsSchema, RootKnown, FieldOr, Plausible;
    RequestShape(codec, s, core, a.frame, a.digest, a.volatile, a.result);
    var identity := IdentityFor(codec, s, core, a.frame, a.digest, a.volatile);
    if GateFor(core, a.frame) == Open { OpenGate(core, a.frame); }
    RecoverHolds(codec, core, FieldOr(a.frame, 24, ""), identity);
  }

  /** Only a verified outcome releases a held broker; any other leaves journal and hold. */
  lemma RecoverHolds(codec: Codec, core: Core, text: string, current: Answer<string>)
    requires core.crashHeld
    ensures var (core', outcome) := Recover(codec, core, text, current);
      outcome == Ok(VerifiedNotApplied) || outcome == Ok(VerifiedAppliedUnacked) || (core'.crashHeld && core'.journal == core.journal)
  {
    hide RecoveryBound, Append, RecoveredRecord, ResponseIntact;
  }

  lemma HeldStep(codec: Codec, s: Sys, core: Core, a: Action, rs: seq<Record>)
    requires Sound(codec) && Holds(codec, s, core, rs) && core.crashHeld && Plausible(codec, core, a) && !Verifies(codec, s, a)
    ensures var s' := BrokerStep(codec, s, core, a);
      s'.journal == s.journal && (s'.broker.Some? ==> s'.broker.value.crashHeld && !s'.broker.value.stage.Executing?)
  {
    HeldStage(codec, s, core, rs);
    SameCore(codec, s, core, rs);
    HoldsHold(codec, s, core, rs);
    hide Invariant, Sound, BrokerStep, Verifies, Plausible;
    if a.Request? {
      HeldRequest(codec, s, core, a);
    } else {
      IdleIsQuiet(codec, s, core, a);
      IdleKeepsHold(codec, s, core, a);
    }
  }

  lemma IdleKeepsHold(codec: Codec, s: Sys, core: Core, a: Action)
    requires s.broker == Some(core) && !a.Request? && !core.stage.Executing? && !Responds(s) && Plausible(codec, core, a)
    ensures var s' := BrokerStep(codec, s, core, a); s'.broker.Some? ==> s'.broker.value.crashHeld == core.crashHeld
  {
    hide AppendState, Passed, FailedWith, OperationName, AfterIdentity, ThrownIdentity, Size;
  }

  lemma HeldStage(codec: Codec, s: Sys, core: Core, rs: seq<Record>)
    requires Sound(codec) && Holds(codec, s, core, rs) && core.crashHeld
    ensures !core.stage.Executing? && !Responds(s)
  {
    if core.stage.Executing? { ExecutingState(codec, s, core, rs); }
    if Responds(s) { AnsweredState(codec, s, core, rs); }
  }

  lemma RestartIsHeld(codec: Codec, s: Sys, a: Action, rs: seq<Record>)
    requires Sound(codec) && Invariant(codec, s, rs) && s.broker.None? && IsUnsettled(MemoryOf(codec, rs).state) && a.Restart?
    ensures var s' := Step(codec, s, a);
      s'.journal == s.journal && (s'.broker.Some? ==> s'.broker.value.crashHeld && s'.broker.value.stage.Idle?)
  {
    hide Invariant, Load, MemoryOf, ChainText, RecordsOk, IsHex, Sound, IsAccepted, Legal, Trusted, Plausible, BrokerStep;
    JournalHolds(codec, s, rs);
    var trust := Trust(a.anchored, if a.anchored then s.confirmed else 0, if a.anchored then s.confirmedHash else Zeros(64));
    LoadedShape(codec, trust, a.created, s.journal);
    if IsAccepted(Load(codec, trust, a.created, s.journal)) { AcceptedRecords(codec, s.used, trust, a.created, rs); }
    NotLegacy(codec, rs);
  }

  lemma JournalHolds(codec: Codec, s: Sys, rs: seq<Record>)
    requires Invariant(codec, s, rs)
    ensures s.journal == ChainText(codec, rs) && RecordsOk(codec, s.used, rs)
  {
    hide Legal, AnchorOk, CoreOk, RecordsOk, ChainText;
  }

  lemma UnresolvedStep(codec: Codec, s: Sys, a: Action)
    requires Sound(codec) && IsUnresolved(codec, s) && !Verifies(codec, s, a)
    ensures var s' := Step(codec, s, a);
      IsUnresolved(codec, s') && s'.journal == s.journal && (s'.broker.Some? ==> !s'.broker.value.stage.Executing?)
  {
    hide Invariant, MemoryOf, BrokerStep, Plausible, Verifies, Sound, Start, IsHex;
    var rs :| Invariant(codec, s, rs) && IsUnsettled(MemoryOf(codec, rs).state);
    var rs' := StepKeeps(codec, s, a, rs);
    var s' := Step(codec, s, a);
    if s.broker.Some? { HeldStage(codec, s, s.broker.value, rs); }
    if s.broker.Some? && !a.Disturb? && !a.Restart? && Plausible(codec, s.broker.value, a) {
      HeldStep(codec, s, s.broker.value, a, rs);
    } else if s.broker.None? && a.Restart? {
      RestartIsHeld(codec, s, a, rs);
    }
    SameRecords(codec, s, s', rs, rs');
  }

  /**
   From an unresolved state, with crashes and restarts of any kind, the journal
   stays as it is and no mutation runs unless some recovery has verified what
   became of the last one.
   */
  lemma {:induction false} NothingRunsWithoutAVerdict(codec: Codec, s: Sys, later: seq<Action>)
    requires Sound(codec) && IsUnresolved(codec, s)
    requires forall i | 0 <= i < |later| :: !Verifies(codec, Run(codec, s, later[..i]), later[i])
    ensures var s' := Run(codec, s, later);
      IsUnresolved(codec, s') && s'.journal == s.journal && (later != [] && s'.broker.Some? ==> !s'.broker.value.stage.Executing?)
    decreases |later|
  {
    hide IsUnresolved, Verifies, Step;
    if later != [] {
      var n := |later| - 1;
      var most := later[..n];
      assert forall i | 0 <= i < n :: most[..i] == later[..i] && most[i] == later[i];
      NothingRunsWithoutAVerdict(codec, s, most);
      UnresolvedStep(codec, Run(codec, s, most), later[n]);
    }
  }

  /**
   A broker held for whatever reason runs nothing and writes nothing until a
   recovery verifies, or another process takes its place.
   */
  lemma {:induction false} HeldRunsNothing(codec: Codec, world: World, actions: seq<Action>, later: seq<Action>)
    requires Sound(codec)
    requires var s := Run(codec, Initial(world), actions); s.broker.Some? && s.broker.value.crashHeld
    requires forall i | 0 <= i < |later| ::
      !later[i].Restart? && !Verifies(codec, Run(codec, Initial(world), actions + later[..i]), later[i])
    ensures var s, s' := Run(codec, Initial(world), actions), Run(codec, Initial(world), actions + later);
      s'.journal == s.journal && (s'.broker.Some? ==> s'.broker.value.crashHeld && !s'.broker.value.stage.Executing?)
    decreases |later|
  {
    hide Run, Step, Verifies, Sound, Invariant, PastOf;
    if later == [] {
      assert actions + later == actions;
      var rs := RunKeeps(codec, world, actions);
      HeldStage(codec, Run(codec, Initial(world), actions), Run(codec, Initial(world), actions).broker.value, rs);
    } else {
      var n := |later| - 1;
      var most := later[..n];
      assert actions + later == (actions + most) + [later[n]];
      assert forall i | 0 <= i < n :: most[..i] == later[..i] && most[i] == later[i];
      HeldRunsNothing(codec, world, actions, most);
      PastGrows(codec, world, actions + most, later[n]);
      var rs := RunKeeps(codec, world, actions + most);
      HeldOneMore(codec, Run(codec, Initial(world), actions + most), later[n], rs);
    }
  }

  lemma HeldOneMore(codec: Codec, s: Sys, a: Action, rs: seq<Record>)
    requires Sound(codec) && Invariant(codec, s, rs) && !a.Restart? && !Verifies(codec, s, a)
    requires s.broker.Some? ==> s.broker.value.crashHeld && !s.broker.value.stage.Executing?
    ensures var s' := Step(codec, s, a);
      s'.journal == s.journal && (s'.broker.Some? ==> s'.broker.value.crashHeld && !s'.broker.value.stage.Executing?)
  {
    hide Invariant, BrokerStep, Plausible, Verifies, Sound;
    if s.broker.Some? && !a.Disturb? && Plausible(codec, s.broker.value, a) { HeldStep(codec, s, s.broker.value, a, rs); }
  }

  // ---------------------------------------------------------------- between two mutations

  /** The last record is not acknowledged, and no request can begin a mutation. */
  ghost predicate IsPending(codec: Codec, s: Sys) {
    && (s.broker.Some? ==> s.broker.value.crashHeld || IsBusy(s))
    && exists rs :: Invariant(codec, s, rs) && IsUnsettled(MemoryOf(codec, rs).state)
  }

  /** The broker is at work on a mutation, or has stopped. */
  predicate IsBusy(s: Sys) {
    s.broker.Some? && (s.broker.value.stage.Executing? || Responds(s) || s.broker.value.stage.Stopped?)
  }

  /** The controller acknowledges the last mutation, or a recovery verifies what became of it. */
  predicate Settles(codec: Codec, s: Sys, a: Action) { Verifies(codec, s, a) || (a.Ack? && Responds(s)) }

  lemma WorkIsUnsettled(codec: Codec, s: Sys, core: Core, rs: seq<Record>)
    requires Sound(codec) && Holds(codec, s, core, rs) && (core.stage.Executing? || Responds(s))
    ensures IsUnsettled(MemoryOf(codec, rs).state)
  {
    hide Invariant, MemoryOf, MakeRecord, StateNamed, InHand, IsIdentity, OperationName, Sound, AnswersRequest, Size;
    if core.stage.Executing? {
      ExecutingState(codec, s, core, rs);
    } else {
      AnsweredState(codec, s, core, rs);
      MadeState(codec, Applied, core.stage.ref, core.stage.operation, core.stage.before, core.stage.after, core.stage.response, core.session);
    }
    MemoryState(codec, rs);
  }

  /** What a step makes of a broker at work. */
  lemma WorkStep(codec: Codec, s: Sys, core: Core, a: Action)
    requires s.broker == Some(core) && With(s, core) == s && IsBusy(s) && Plausible(codec, core, a) && !(a.Ack? && Responds(s))
    ensures var s' := BrokerStep(codec, s, core, a);
      || (s'.journal == s.journal && (s'.broker.Some? ==> IsBusy(s')))
      || (s'.broker.Some? && (s'.broker.value.stage.Executing? || Responds(s')))
      || (a.Throw? && core.stage.Executing? && s' == With(s, Fail(codec, core, ThrownIdentity(codec, s, core, a.recaptured), a.message)))
      || (a.ControllerGone? && Responds(s) && s' == With(s, Abandon(codec, core)))
  {
    hide RequestStep, MakeRecord, Line, Hash, Remember, ResponseFor, Passed, FailedWith, OperationName, AfterIdentity, ThrownIdentity, Size,
         IsWord, Fail;
    if a.Request? { RequestShape(codec, s, core, a.frame, a.digest, a.volatile, a.result); }
  }

  /** A failure and an abandoned response end in a held broker over a record that says so. */
  lemma LostWork(codec: Codec, core: Core, after: string, message: string)
    requires Sound(codec)
    ensures core.stage.Executing? ==>
      var core' := Fail(codec, core, after, message); core'.crashHeld && IsTracking(core') && core'.memory.state == Last(Failed)
    ensures core.stage.Answered? && core.stage.commit ==>
      var core' := Abandon(codec, core); core'.crashHeld && core'.memory.state == Last(Permanent)
  {
    hide AppendState, FailedWith, OperationName, Sound, IsAbout;
    var st := core.stage;
    if st.Executing? {
      AppendedMemory(codec, core, Failed, st.ref, st.operation, st.before, after,
                     FailedWith(core, core.session, st.ref, OperationName(st.operation), message), core.session);
    } else if st.Answered? {
      AppendedMemory(codec, core, Permanent, st.ref, st.operation, st.before, st.after, "", core.session);
    }
  }

  lemma BusyStep(codec: Codec, s: Sys, core: Core, a: Action, rs: seq<Record>)
    requires Sound(codec) && Holds(codec, s, core, rs) && IsUnsettled(MemoryOf(codec, rs).state) && IsBusy(s)
    requires Plausible(codec, core, a) && !(a.Ack? && Responds(s))
    ensures IsPending(codec, BrokerStep(codec, s, core, a))
  {
    hide Invariant, MemoryOf, BrokerStep, Plausible, Sound, Fail, Abandon, ThrownIdentity;
    var s' := BrokerStep(codec, s, core, a);
    var rs' := BrokerStepKeeps(codec, s, core, a, rs);
    SameCore(codec, s, core, rs);
    WorkStep(codec, s, core, a);
    if s'.journal == s.journal && (s'.broker.Some? ==> IsBusy(s')) {
      SameRecords(codec, s, s', rs, rs');
    } else if s'.broker.Some? && (s'.broker.value.stage.Executing? || Responds(s')) {
      WorkIsUnsettled(codec, s', s'.broker.value, rs');
    } else if a.Throw? {
      LostWork(codec, core, ThrownIdentity(codec, s, core, a.recaptured), a.message);
      LastRecord(codec, s', s'.broker.value, rs');
    } else {
      LostWork(codec, core, "", "");
      var lost := PermanentKeeps(codec, s, core, rs);
      assert Invariant(codec, s', lost) && IsUnsettled(MemoryOf(codec, lost).state);
    }
  }

  lemma PendingStep(codec: Codec, s: Sys, a: Action)
    requires Sound(codec) && IsPending(codec, s) && !Settles(codec, s, a)
    ensures IsPending(codec, Step(codec, s, a)) && !Starts(s, a, Step(codec, s, a))
  {
    hide Invariant, MemoryOf, BrokerStep, Plausible, Verifies, Sound, Start, IsHex;
    if s.broker.None? || s.broker.value.crashHeld {
      UnresolvedStep(codec, s, a);
    } else {
      var rs :| Invariant(codec, s, rs) && IsUnsettled(MemoryOf(codec, rs).state);
      if !a.Disturb? && !a.Restart? && Plausible(codec, s.broker.value, a) {
        BusyStep(codec, s, s.broker.value, a, rs);
      } else {
        var rs' := StepKeeps(codec, s, a, rs);
        SameRecords(codec, s, Step(codec, s, a), rs, rs');
      }
    }
  }

  lemma {:induction false} StaysPending(codec: Codec, world: World, before: seq<Action>, later: seq<Action>)
    requires Sound(codec) && IsPending(codec, Run(codec, Initial(world), before))
    requires forall i | 0 <= i < |later| :: !Settles(codec, Run(codec, Initial(world), before + later[..i]), later[i])
    ensures IsPending(codec, Run(codec, Initial(world), before + later))
    decreases |later|
  {
    hide IsPending, Settles, Step, Run, PastOf;
    if later == [] {
      assert before + later == before;
    } else {
      var n := |later| - 1;
      var most := later[..n];
      assert before + later == (before + most) + [later[n]];
      assert forall i | 0 <= i < n :: most[..i] == later[..i] && most[i] == later[i];
      StaysPending(codec, world, before, most);
      PastGrows(codec, world, before + most, later[n]);
      PendingStep(codec, Run(codec, Initial(world), before + most), later[n]);
    }
  }

  /**
   Between two mutations of a run stands the acknowledgement of the first or a
   verdict on it, whatever fails, crashes or restarts in the meantime.
   */
  lemma MutationsAreSettledInTurn(codec: Codec, world: World, before: seq<Action>, begin: Action, later: seq<Action>, next: Action)
    requires Sound(codec)
    requires var s := Run(codec, Initial(world), before); Starts(s, begin, Step(codec, s, begin))
    requires var s := Run(codec, Initial(world), before + [begin] + later); Starts(s, next, Step(codec, s, next))
    ensures exists i :: 0 <= i < |later| && Settles(codec, Run(codec, Initial(world), before + [begin] + later[..i]), later[i])
  {
    hide IsPending, Settles, Step, Run, PastOf, Verifies, VerdictOf;
    var begun := before + [begin];
    if forall i | 0 <= i < |later| :: !Settles(codec, Run(codec, Initial(world), begun + later[..i]), later[i]) {
      BegunIsPending(codec, world, before, begin);
      StaysPending(codec, world, begun, later);
      PendingStartsNothing(codec, Run(codec, Initial(world), begun + later), next);
    }
  }

  lemma BegunIsPending(codec: Codec, world: World, before: seq<Action>, begin: Action)
    requires Sound(codec)
    requires var s := Run(codec, Initial(world), before); Starts(s, begin, Step(codec, s, begin))
    ensures IsPending(codec, Run(codec, Initial(world), before + [begin]))
  {
    hide Step, Run, PastOf, Invariant, MemoryOf;
    PastGrows(codec, world, before, begin);
    var rs := RunKeeps(codec, world, before + [begin]);
    WorkIsUnsettled(codec, Run(codec, Initial(world), before + [begin]), Run(codec, Initial(world), before + [begin]).broker.value, rs);
  }

  lemma PendingStartsNothing(codec: Codec, s: Sys, a: Action)
    requires Sound(codec) && IsPending(codec, s)
    ensures !Starts(s, a, Step(codec, s, a))
  {
    hide IsPending, Step, VerdictOf;
    if VerdictOf(codec, s, a).Some? {
      VerdictIsAnswered(codec, s, a, VerdictOf(codec, s, a).value);
    } else if a.Request? {
      PendingStep(codec, s, a);
    }
  }

  /**
   Without a verdict, the controller's own restart opens the broker exactly when
   there is nothing to resolve and the journal loads.
   */
  lemma RestartOpensIff(codec: Codec, world: World, actions: seq<Action>, session: string, controllerPid: nat, creation: string,
                        capability: string)
    requires Sound(codec) && Run(codec, Initial(world), actions).broker.None?
    requires session !in Run(codec, Initial(world), actions).used && IsHex(session, 32)
    ensures var s := Run(codec, Initial(world), actions);
      var s' := Step(codec, s, Restart(true, false, session, controllerPid, creation, capability));
      s'.broker.Some? && (!s'.broker.value.crashHeld <==>
        !IsUnresolved(codec, s) && !s.abandoned && Size(s.journal) <= JOURNAL_CAP)
  {
    hide Invariant, Load, MemoryOf, Run, Sound, IsHex, Size, HoldAfter;
    var s := Run(codec, Initial(world), actions);
    var a := Restart(true, false, session, controllerPid, creation, capability);
    var rs := RunKeeps(codec, world, actions);
    var l := Load(codec, AnchorOf(s), false, s.journal);
    LoadedShape(codec, AnchorOf(s), false, s.journal);
    AnchorIsMet(codec, s, rs);
    NotLegacy(codec, rs);
    if Size(s.journal) <= JOURNAL_CAP {
      LoadsIff(codec, AnchorOf(s), false, s, rs);
      if !s.abandoned { HoldOfSuccessor(AnchorOf(s), MemoryOf(codec, rs).state); }
    } else {
      assert !IsAccepted(l) && l.crashHeld by { OversizeIsHeld(codec, AnchorOf(s), s.journal); }
    }
    assert Step(codec, s, a).broker.value.crashHeld == l.crashHeld;
    if IsUnresolved(codec, s) {
      var other :| Invariant(codec, s, other) && IsUnsettled(MemoryOf(codec, other).state);
      SameRecords(codec, s, s, rs, other);
    }
  }

  lemma OversizeIsHeld(codec: Codec, trust: Trust, text: string)
    requires Size(text) > JOURNAL_CAP
    ensures var l := Load(codec, trust, false, text); l.crashHeld && !IsAccepted(l)
  {
    hide Size, ScanLines;
  }
}
