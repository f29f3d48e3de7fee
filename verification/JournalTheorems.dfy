/**
 What holds over every run of the broker: its journal loads back, a crash is
 recovered without running anything again, and a held broker writes nothing.
 */
module JournalTheorems {
  import opened Basics
  import opened BrokerFrame
  import opened JournalText
  import opened JournalResponse
  import opened Journal
  import opened JournalLoader
  import opened JournalBroker
  import opened JournalRuns
  import opened JournalSafety

  function AnchorOf(s: Sys): Trust { Trust(true, s.confirmed, s.confirmedHash) }

  const NO_ANCHOR := Trust(false, 0, Zeros(64))

  lemma AnchorIsMet(codec: Codec, s: Sys, rs: seq<Record>)
    requires Sound(codec) && Invariant(codec, s, rs)
    ensures IsHex(s.confirmedHash, 64) && Trusted(codec, AnchorOf(s), rs) && IsHex(Zeros(64), 64) && Trusted(codec, NO_ANCHOR, rs)
  {
    HashOfIsHex(codec, rs[..s.confirmed]);
    hide Legal, RecordsOk, CoreOk, ChainText, HashOf, OneRequest;
  }

  /** With the records at hand: the journal is accepted exactly when no intent was abandoned. */
  lemma LoadsUnlessAbandoned(codec: Codec, s: Sys, created: bool, rs: seq<Record>)
    requires Sound(codec) && Invariant(codec, s, rs) && Size(s.journal) <= JOURNAL_CAP
    ensures IsAccepted(Load(codec, AnchorOf(s), created, s.journal)) <==> !s.abandoned
    ensures IsAccepted(Load(codec, NO_ANCHOR, created, s.journal)) <==> !s.abandoned
    ensures !s.abandoned ==>
      && Load(codec, AnchorOf(s), created, s.journal).memory == MemoryOf(codec, rs)
      && Load(codec, NO_ANCHOR, created, s.journal).memory == MemoryOf(codec, rs)
  {
    AnchorIsMet(codec, s, rs);
    LoadsIff(codec, AnchorOf(s), created, s, rs);
    LoadsIff(codec, NO_ANCHOR, created, s, rs);
    hide Invariant, Load, Trusted, MemoryOf;
  }

  lemma LoadsIff(codec: Codec, trust: Trust, created: bool, s: Sys, rs: seq<Record>)
    requires Sound(codec) && Invariant(codec, s, rs) && Size(s.journal) <= JOURNAL_CAP
    requires IsHex(trust.digest, 64) && Trusted(codec, trust, rs)
    ensures IsAccepted(Load(codec, trust, created, s.journal)) <==> !s.abandoned
    ensures !s.abandoned ==>
      var hold := HoldAfter(trust, created, MemoryOf(codec, rs).state);
      Load(codec, trust, created, s.journal) == Loaded(MemoryOf(codec, rs), hold != Closed, hold, None)
  {
    hide Legal, RecordsOk, CoreOk, ChainText, AnchorOk, Load, Trusted, MemoryOf, Sound, Size;
    if !s.abandoned {
      WrittenJournalLoads(codec, trust, created, rs);
      ConcludedIsNoLegacy(trust, created, MemoryOf(codec, rs).state);
    } else if IsAccepted(Load(codec, trust, created, s.journal)) {
      AcceptedRecords(codec, s.used, trust, created, rs);
    }
  }

  /**
   Every journal of at most 16 MiB that a run has written is accepted, with the
   controller's anchor and without one, unless a mutation was begun over an
   abandoned intent; and loading it restores the memory of its writer.
   */
  lemma WrittenJournalsLoad(codec: Codec, world: World, actions: seq<Action>, created: bool)
    requires Sound(codec)
    ensures var s := Run(codec, Initial(world), actions);
      Size(s.journal) <= JOURNAL_CAP ==>
        && (IsAccepted(Load(codec, AnchorOf(s), created, s.journal)) <==> !s.abandoned)
        && (IsAccepted(Load(codec, NO_ANCHOR, created, s.journal)) <==> !s.abandoned)
        && (!s.abandoned && s.broker.Some? && IsTracking(s.broker.value) ==>
              && Load(codec, AnchorOf(s), created, s.journal).memory == s.broker.value.memory
              && Load(codec, NO_ANCHOR, created, s.journal).memory == s.broker.value.memory)
  {
    var rs := RunKeeps(codec, world, actions);
    var s := Run(codec, Initial(world), actions);
    if Size(s.journal) <= JOURNAL_CAP { LoadsUnlessAbandoned(codec, s, created, rs); }
    hide Load, Legal, RecordsOk, ChainText, AnchorOk, StageOk, MemoryOf, Sound;
  }

  /** A mutation that begins keeps the journal loadable exactly when the last record is not a bare intent. */
  lemma NextIntentLoadsIff(codec: Codec, world: World, actions: seq<Action>, f: Frame, digest: string, volatile: Answer<string>,
                           result: Answer<Values>, created: bool)
    requires Sound(codec) && WithinBounds(f) && IsHex(digest, 64) && LowerHex(digest) == digest
    ensures var s := Run(codec, Initial(world), actions);
      var s' := Step(codec, s, Request(f, digest, volatile, result));
      !s.abandoned && s.broker.Some? && s.broker.value.stage.Idle? && s'.broker.value.stage.Executing? && Size(s'.journal) <= JOURNAL_CAP ==>
        (IsAccepted(Load(codec, AnchorOf(s'), created, s'.journal)) <==> s.broker.value.memory.state != Last(Intent))
  {
    var a := Request(f, digest, volatile, result);
    var s := Run(codec, Initial(world), actions);
    var s' := Step(codec, s, a);
    if !s.abandoned && s.broker.Some? && s.broker.value.stage.Idle? && s'.broker.value.stage.Executing? && Size(s'.journal) <= JOURNAL_CAP {
      var all := actions + [a];
      assert all[..|all| - 1] == actions;
      var rs := RunKeeps(codec, world, all);
      LoadsUnlessAbandoned(codec, s', created, rs);
      hide Load, Invariant, Receive, IdentityFor, Sound, WithinBounds, IsHex, LowerHex;
      assert s' == RequestStep(codec, s, s.broker.value, f, digest, volatile, result);
    }
  }

  // ---------------------------------------------------------------- held brokers

  /** A held broker answers a mutation without writing, remembering or starting anything. */
  lemma HeldBrokerWritesNothing(codec: Codec, core: Core, f: Frame, request: string, identity: Answer<string>, result: Answer<Values>)
    requires core.crashHeld && core.stage.Idle? && IsMutation(f.operation)
    ensures var core' := Receive(codec, core, f, request, identity, result);
      core' == core.(stage := core'.stage) && (core'.stage.Stopped? || (core'.stage.Answered? && !core'.stage.commit))
  {
    if GateFor(core, f) == Open { OpenGate(core, f); }
    hide GateFor, FailedWith, OperationName, RefOf, Recover;
  }

  /** Only a recovery that verified what happened lets a held broker go. */
  lemma OnlyVerifiedRecoveryReleases(codec: Codec, core: Core, f: Frame, request: string, identity: Answer<string>, result: Answer<Values>)
    requires core.crashHeld && !Receive(codec, core, f, request, identity, result).crashHeld
    ensures f.operation == RECOVER_SESSION && core.stage.Idle? && RecoveryBound(core, FieldOr(f, 24, ""))
    ensures var outcome := Recover(codec, core, FieldOr(f, 24, ""), identity).1;
      outcome == Ok(VerifiedAppliedUnacked) || outcome == Ok(VerifiedNotApplied)
  {
    hide RecoveryBound, FailedWith, Passed, OperationName, RefOf, OutcomeValues, Append, RecoveredRecord, ResponseIntact;
    if GateFor(core, f) == Open { OpenGate(core, f); }
    hide GateFor;
  }

  /** No other step of a live broker does. */
  lemma NothingElseReleases(codec: Codec, core: Core, after: string, text: string, values: Values)
    requires core.crashHeld
    ensures CloseJob(codec, core, after, text).crashHeld && Finish(codec, core, after, values).crashHeld
    ensures Fail(codec, core, after, text).crashHeld && Acknowledge(codec, core).crashHeld && Abandon(codec, core).crashHeld
  {
    hide AppendState, Passed, FailedWith, OperationName, Line, Remember;
    assert forall state, ref, operation, before, after, response, nonce ::
      AppendState(codec, core, state, ref, operation, before, after, response, nonce).crashHeld by { AppendKeepsHold(codec, core); }
  }

  lemma AppendKeepsHold(codec: Codec, core: Core)
    ensures forall state, ref, operation, before, after, response, nonce ::
      AppendState(codec, core, state, ref, operation, before, after, response, nonce).crashHeld == core.crashHeld
  {
    hide MakeRecord, Line, Remember, Hash, ResponseFor;
  }

  /** Recovery writes at most an acknowledgement and executes nothing. */
  lemma RecoveryNeverExecutes(codec: Codec, core: Core, f: Frame, request: string, identity: Answer<string>, result: Answer<Values>)
    requires core.stage.Idle? && f.operation == RECOVER_SESSION
    ensures !Receive(codec, core, f, request, identity, result).stage.Executing?
  {
    hide Recover, FailedWith, Passed, OperationName, RefOf, GateFor, OutcomeValues;
  }

  // ---------------------------------------------------------------- recovery after a crash

  /** The broker process that a controller starts over the journal of a crashed one. */
  function Successor(codec: Codec, s: Sys, session: string, controllerPid: nat, creation: string, capability: string): Core {
    Start(codec, AnchorOf(s), false, s.journal, session, controllerPid, creation, capability)
  }

  /** The verdict of a recovery follows from the last record and the present identity of its target, alone. */
  ghost predicate VerdictFollows(codec: Codec, core: Core, text: string, current: string) {
    var memory := core.memory;
    var (after, outcome) := Recover(codec, core, text, Ok(current));
    && (memory.state == Last(Acked) ==> outcome == Ok(VerifiedCommitted))
    && (memory.state == Last(Applied) ==>
          outcome == if current == memory.after then Ok(VerifiedAppliedUnacked) else Ok(AmbiguousOutcome))
    && (memory.state == Last(Intent) || memory.state == Last(Failed) ==>
          outcome == if current == memory.before then Ok(VerifiedNotApplied) else Ok(AmbiguousOutcome))
    && (memory.state == Last(JobClosed) || memory.state == Last(Permanent) ==> outcome == Ok(JournalHeldOutcome))
    && (outcome != Ok(VerifiedAppliedUnacked) ==> after.journal == core.journal && after.memory == memory)
  }

  /**
   After a crash at any point, the successor remembers what the crashed broker
   knew, and judges by that and the identity that it is given.
   */
  lemma RecoveryAfterCrash(codec: Codec, world: World, actions: seq<Action>, session: string, controllerPid: nat, creation: string,
                           capability: string, text: string, current: string)
    requires Sound(codec)
    ensures var s := Run(codec, Initial(world), actions);
      !s.abandoned && Size(s.journal) <= JOURNAL_CAP && s.broker.Some? && IsTracking(s.broker.value) ==>
        var memory := s.broker.value.memory;
        var next := Successor(codec, s, session, controllerPid, creation, capability);
        && next.journal == s.journal && next.memory == memory
        && (next.crashHeld <==> memory.state != Empty && memory.state != Last(Acked))
        && (RecoveryBound(next, text) ==> VerdictFollows(codec, next, text, current))
  {
    var rs := RunKeeps(codec, world, actions);
    var s := Run(codec, Initial(world), actions);
    if !s.abandoned && Size(s.journal) <= JOURNAL_CAP && s.broker.Some? && IsTracking(s.broker.value) {
      hide VerdictFollows, Successor, RecoveryBound, Sound, Invariant, Size;
      RecoveryOver(codec, s, s.broker.value, rs, Successor(codec, s, session, controllerPid, creation, capability),
                   session, controllerPid, creation, capability, text, current);
    }
  }

  lemma RecoveryOver(codec: Codec, s: Sys, core: Core, rs: seq<Record>, next: Core, session: string, controllerPid: nat,
                     creation: string, capability: string, text: string, current: string)
    requires Sound(codec) && Holds(codec, s, core, rs) && !s.abandoned && Size(s.journal) <= JOURNAL_CAP && IsTracking(core)
    requires next == Successor(codec, s, session, controllerPid, creation, capability)
    ensures next.journal == s.journal && next.memory == core.memory
    ensures next.crashHeld <==> core.memory.state != Empty && core.memory.state != Last(Acked)
    ensures RecoveryBound(next, text) ==> VerdictFollows(codec, next, text, current)
  {
    LastRecord(codec, s, core, rs);
    AnchorIsMet(codec, s, rs);
    LoadsIff(codec, AnchorOf(s), false, s, rs);
    NotLegacy(codec, rs);
    if core.memory.state == Last(Applied) { AppliedIsIntact(codec, s.used, rs); }
    HoldOfSuccessor(AnchorOf(s), core.memory.state);
    hide Load, Invariant, Trusted, MemoryOf, Sound, RecoveryBound, RecordOk, StateNamed, ResponseIntact, VerdictFollows, HoldAfter, Size;
    if RecoveryBound(next, text) { Verdict(codec, next, text, current); }
  }

  lemma HoldOfSuccessor(trust: Trust, state: LastState)
    requires trust.anchored && state != Legacy
    ensures var hold := HoldAfter(trust, false, state);
      && (hold == Closed <==> state == Empty || state == Last(Acked))
      && (hold == JournalHeld <==> state == Last(JobClosed) || state == Last(Permanent))
      && (hold == Closed || hold == FailedHeld || hold == JournalHeld)
  {
    match state
    case Empty =>
    case Legacy =>
    case Last(last) =>
      match last
      case Intent =>
      case JobClosed =>
      case Applied =>
      case Acked =>
      case Failed =>
      case Permanent =>
  }

  /** An answer in the journal is intact: it decodes and has its digest. */
  lemma AppliedIsIntact(codec: Codec, used: set<string>, rs: seq<Record>)
    requires Sound(codec) && rs != [] && RecordOk(codec, used, rs[|rs| - 1]) && StateNamed(rs[|rs| - 1].state) == Some(Applied)
    ensures ResponseIntact(codec, MemoryOf(codec, rs))
  {
    var r := rs[|rs| - 1];
    RememberedFields(codec, rs);
    CheckedFields(codec, r);
    assert codec.unbase64(r.response64).value != "" by { RequiredResponse(codec, r); }
    assert codec.base64("") == "" && codec.unbase64(codec.base64("")) == Some("");
    hide MemoryOf, RecordError, StateNamed, CanonicalDecimal, Decimal, Size;
  }

  lemma RequiredResponse(codec: Codec, r: Record)
    requires RecordError(codec, r).None? && StateNamed(r.state) == Some(Applied)
    ensures codec.unbase64(r.response64).Some? && codec.unbase64(r.response64).value != ""
  {
    hide FieldsOk, AnswersRequest, ContentDigest, Size, ParseDecimal, StateNamed;
  }

  lemma Verdict(codec: Codec, core: Core, text: string, current: string)
    requires core.hold == Closed || core.hold == FailedHeld || core.hold == JournalHeld
    requires core.hold == JournalHeld <==> core.memory.state == Last(JobClosed) || core.memory.state == Last(Permanent)
    requires core.memory.state == Last(Applied) ==> ResponseIntact(codec, core.memory)
    requires RecoveryBound(core, text)
    ensures VerdictFollows(codec, core, text, current)
  {
    hide RecoveryBound, Append, RecoveredRecord, ResponseIntact;
  }

  /** A response that waits for its acknowledgement is the last record's, and the acknowledgement keeps it. */
  lemma AnsweredResponseIsRemembered(codec: Codec, world: World, actions: seq<Action>)
    requires Sound(codec)
    ensures var s := Run(codec, Initial(world), actions);
      s.broker.Some? && s.broker.value.stage.Answered? && s.broker.value.stage.commit ==>
        var core := s.broker.value;
        var acked := Acknowledge(codec, core);
        && core.memory.state == Last(Applied) && core.memory.response64 == codec.base64(core.stage.response)
        && acked.memory.state == Last(Acked) && acked.memory.response64 == codec.base64(core.stage.response)
        && codec.unbase64(core.memory.response64) == Some(core.stage.response)
  {
    hide Invariant, MemoryOf, MakeRecord, StateNamed, Acknowledge, InHand, AnswersRequest, Size, RecordOk, Run, RefOk, IsIdentity;
    var rs := RunKeeps(codec, world, actions);
    var s := Run(codec, Initial(world), actions);
    if s.broker.Some? && s.broker.value.stage.Answered? && s.broker.value.stage.commit {
      var core := s.broker.value;
      var st := core.stage;
      AnsweredState(codec, s, core, rs);
      LastRecord(codec, s, core, rs);
      JournalOf(codec, s, core, rs);
      MadeResponse(codec, Applied, st.ref, st.operation, st.before, st.after, st.response, core.session);
      MadeState(codec, Applied, st.ref, st.operation, st.before, st.after, st.response, core.session);
      RememberedResponse(codec, core, rs, st.response);
      AckShape(codec, core, rs);
      var r := MakeRecord(codec, Acked, st.ref, st.operation, st.before, st.after, st.response, core.session);
      MadeState(codec, Acked, st.ref, st.operation, st.before, st.after, st.response, core.session);
      MadeResponse(codec, Acked, st.ref, st.operation, st.before, st.after, st.response, core.session);
      MemoryState(codec, rs + [r]);
      RememberedFields(codec, rs + [r]);
    }
  }

  /** The values that a replaying outcome returns carry the remembered response. */
  lemma ReplayCarriesTheResponse(memory: Memory, outcome: Outcome)
    requires outcome == VerifiedCommitted || outcome == VerifiedAppliedUnacked
    ensures ("replayResponseBase64", memory.response64) in OutcomeValues(memory, outcome)
    ensures ("replayRequestSha256", memory.request) in OutcomeValues(memory, outcome)
  {
    var values := OutcomeValues(memory, outcome);
    assert values[1] == ("replayResponseBase64", memory.response64) && values[6] == ("replayRequestSha256", memory.request);
  }

  // ---------------------------------------------------------------- what not applied means

  /** The verdict on a bare intent lets the broker go and leaves the intent the last record, where no new one may follow. */
  lemma NotAppliedLeavesTheIntent(codec: Codec, core: Core, text: string, current: Answer<string>)
    requires core.memory.state == Last(Intent)
    ensures var (after, outcome) := Recover(codec, core, text, current);
      outcome == Ok(VerifiedNotApplied) ==> !after.crashHeld && after.memory.state == Last(Intent) && after.journal == core.journal
  {
    hide RecoveryBound, Append, RecoveredRecord, ResponseIntact;
  }

  /** An intent on a file remembers the identity its target has at that moment. */
  lemma IntentRemembersTarget(codec: Codec, world: World, actions: seq<Action>, f: Frame, digest: string, volatile: Answer<string>,
                              result: Answer<Values>)
    requires Sound(codec) && WithinBounds(f) && IsHex(digest, 64) && LowerHex(digest) == digest
    requires IsFileOperation(OperationName(f.operation))
    ensures var s := Run(codec, Initial(world), actions);
      var s' := Step(codec, s, Request(f, digest, volatile, result));
      var ref := RefOf(f, digest);
      s.broker.Some? && s.broker.value.stage.Idle? && s'.broker.value.stage.Executing? ==>
        var memory := s'.broker.value.memory;
        && memory.state == Last(Intent) && memory.operation == OperationName(f.operation)
        && memory.root == ref.root && memory.path == ref.path && memory.other == ref.other
        && memory.before == FileIdentity(codec, s.world, memory.operation, memory.root, memory.path, memory.other)
  {
    var rs := RunKeeps(codec, world, actions);
    var s := Run(codec, Initial(world), actions);
    var s' := Step(codec, s, Request(f, digest, volatile, result));
    if s.broker.Some? && s.broker.value.stage.Idle? && s'.broker.value.stage.Executing? {
      var core := s.broker.value;
      SameCore(codec, s, core, rs);
      hide Invariant, GateFor, Receive, RequestStep, Sound, WithinBounds, IsHex, LowerHex, OperationName, FileIdentity, IsFileOperation,
           Begun, Recover, RefOf, IsMutation;
      RequestShape(codec, s, core, f, digest, volatile, result);
      assert s' == RequestStep(codec, s, core, f, digest, volatile, result);
      IntentMemory(codec, s, core, f, digest, volatile);
    }
  }

  lemma IntentMemory(codec: Codec, s: Sys, core: Core, f: Frame, digest: string, volatile: Answer<string>)
    requires Sound(codec) && IsFileOperation(OperationName(f.operation)) && IsMutation(f.operation)
    requires IdentityFor(codec, s, core, f, digest, volatile).Ok?
    ensures var ref := RefOf(f, digest);
      var before := IdentityFor(codec, s, core, f, digest, volatile).value;
      var memory := Begun(codec, s, core, ref, f.operation, before).broker.value.memory;
      && before == FileIdentity(codec, s.world, OperationName(f.operation), ref.root, ref.path, ref.other)
      && memory.state == Last(Intent) && memory.operation == OperationName(f.operation) && memory.before == before
      && memory.root == ref.root && memory.path == ref.path && memory.other == ref.other
  {
    var ref := RefOf(f, digest);
    var before := IdentityFor(codec, s, core, f, digest, volatile).value;
    var r := MakeRecord(codec, Intent, ref, f.operation, before, before, "", core.session);
    MadeState(codec, Intent, ref, f.operation, before, before, "", core.session);
    MadeDecodes(codec, Intent, ref, f.operation, before, before, "", core.session);
    assert ResponseFor(codec, core.memory, Intent, "") == "";
    hide OperationName, FileIdentity, IsFileOperation, StateName, StateNamed, Decimal, ParseDecimal, Line, Hash, Sound, ContentDigest, Size,
         RefOf;
  }

  /** Equal target identities mean equal files: the two renamed paths, or the one path. */
  lemma SameIdentitySameTarget(codec: Codec, before: World, now: World, name: string, root: string, path: string, other: string)
    requires FileIdentity(codec, before, name, root, path, other) == FileIdentity(codec, now, name, root, path, other)
    requires var a := RenameText(PathIdentity(before, root, path), PathIdentity(before, root, other));
      var b := RenameText(PathIdentity(now, root, path), PathIdentity(now, root, other));
      codec.digest(a) == codec.digest(b) ==> a == b
    ensures PathIdentity(before, root, path) == PathIdentity(now, root, path)
    ensures name == "RENAME_EXCLUSIVE" ==> PathIdentity(before, root, other) == PathIdentity(now, root, other)
  {
    if name == "RENAME_EXCLUSIVE" {
      RenameBinds(PathIdentity(before, root, path), PathIdentity(before, root, other),
                  PathIdentity(now, root, path), PathIdentity(now, root, other));
    }
  }

  lemma RenameBinds(s: string, d: string, s': string, d': string)
    requires IsIdentity(s) && IsIdentity(d) && IsIdentity(s') && IsIdentity(d') && RenameText(s, d) == RenameText(s', d')
    ensures s == s' && d == d'
  {
    RenameParts(s, d);
    RenameParts(s', d');
    var a, b := ["RENAME_EXCLUSIVE", "SOURCE=" + s, "DESTINATION=" + d], ["RENAME_EXCLUSIVE", "SOURCE=" + s', "DESTINATION=" + d'];
    JoinIsInjective(a, b, '|');
    assert a[1] == b[1] && a[2] == b[2];
    assert ("SOURCE=" + s)[7..] == s && ("SOURCE=" + s')[7..] == s';
    assert ("DESTINATION=" + d)[12..] == d && ("DESTINATION=" + d')[12..] == d';
  }

  lemma RenameParts(s: string, d: string)
    requires IsIdentity(s) && IsIdentity(d)
    ensures var parts := ["RENAME_EXCLUSIVE", "SOURCE=" + s, "DESTINATION=" + d];
      RenameText(s, d) == Join(parts, '|') && Free(parts, '|')
  {
    JoinThree("RENAME_EXCLUSIVE", "SOURCE=" + s, "DESTINATION=" + d);
    IdentityIsPlain(s);
    IdentityIsPlain(d);
    LabelsArePlain();
    hide IsIdentity, Join;
  }

  lemma LabelsArePlain()
    ensures '|' !in "RENAME_EXCLUSIVE" && '|' !in "SOURCE=" && '|' !in "DESTINATION="
  {
    assert IsWord("RENAME_EXCLUSIVE") && IsWord("SOURCE") && IsWord("DESTINATION");
    WordIsPlain("RENAME_EXCLUSIVE");
    WordIsPlain("SOURCE");
    WordIsPlain("DESTINATION");
    assert "SOURCE=" == "SOURCE" + "=" && "DESTINATION=" == "DESTINATION" + "=";
  }

  lemma JoinThree(a: string, b: string, c: string)
    ensures Join([a, b, c], '|') == a + "|" + b + "|" + c
  {
    assert [a, b, c][1..] == [b, c] && [b, c][1..] == [c];
    assert Join([b, c], '|') == b + ['|'] + c;
    assert Join([a, b, c], '|') == a + ['|'] + (b + ['|'] + c);
  }
}
