/**
 What a run has done, beside what its broker remembers: the world in which the
 last mutation began, and the last response that was journaled for
 acknowledgement. Over every run, with any number of crashes, restarts and
 recoveries, the records of the journal still speak of exactly these.
 */
module JournalPast {
  import opened Basics
  import opened BrokerFrame
  import opened JournalText
  import opened JournalResponse
  import opened Journal
  import opened JournalLoader
  import opened JournalBroker
  import opened JournalRuns
  import opened JournalSafety

  /** A mutation at the moment its intent was written. */
  datatype Beginning = Beginning(world: World, operation: string, ref: Ref)

  datatype Past = Past(begun: Option<Beginning>, answered: Option<string>)

  /** The step writes the intent of the request. */
  predicate Starts(s: Sys, a: Action, s': Sys) {
    a.Request? && s.broker.Some? && s.broker.value.stage.Idle? && s'.broker.Some? && s'.broker.value.stage.Executing?
  }

  /** The broker has a committed response to send. */
  predicate Responds(s: Sys) { s.broker.Some? && s.broker.value.stage.Answered? && s.broker.value.stage.commit }

  function NextPast(p: Past, s: Sys, a: Action, s': Sys): Past {
    Past(if Starts(s, a, s') then Some(Beginning(s.world, OperationName(a.frame.operation), RefOf(a.frame, a.digest))) else p.begun,
         if Responds(s') then Some(s'.broker.value.stage.response) else p.answered)
  }

  function PastOf(codec: Codec, world: World, actions: seq<Action>): Past
    decreases |actions|
  {
    if actions == [] then Past(None, None)
    else
      var n := |actions| - 1;
      var s := Run(codec, Initial(world), actions[..n]);
      NextPast(PastOf(codec, world, actions[..n]), s, actions[n], Step(codec, s, actions[n]))
  }

  // ---------------------------------------------------------------- what the memory says of it

  predicate IsAbout(m: Memory, operation: string, ref: Ref, before: string) {
    && m.state.Last? && m.operation == operation && m.request == ref.request
    && m.root == ref.root && m.path == ref.path && m.other == ref.other && m.before == before
  }

  /** The memory is about the last mutation that began, and carries the last response. */
  ghost predicate Knows(codec: Codec, m: Memory, p: Past) {
    && (m.state != Empty ==>
          && p.begun.Some? && var b := p.begun.value;
             && m.operation == b.operation && m.request == b.ref.request && m.root == b.ref.root && m.path == b.ref.path && m.other == b.ref.other
             && (IsFileOperation(b.operation) ==>
                   m.before == FileIdentity(codec, b.world, b.operation, b.ref.root, b.ref.path, b.ref.other)))
    && (m.state == Last(Applied) || m.state == Last(Acked) ==>
          p.answered.Some? && m.response64 == codec.base64(p.answered.value))
  }

  /** What the stage has in hand is what the memory is about. */
  ghost predicate InStage(codec: Codec, core: Core, p: Past) {
    match core.stage
    case Executing(ref, operation, before) => IsAbout(core.memory, OperationName(operation), ref, before)
    case Answered(ref, operation, before, _, response, commit) =>
      commit ==>
        && IsAbout(core.memory, OperationName(operation), ref, before) && core.memory.state == Last(Applied)
        && response != "" && core.memory.response64 == codec.base64(response) && p.answered == Some(response)
    case _ => true
  }

  /** The broker's memory and stage both speak of the past. */
  ghost predicate Recalls(codec: Codec, core: Core, p: Past) { Knows(codec, core.memory, p) && InStage(codec, core, p) }

  ghost predicate Remembers(codec: Codec, s: Sys, rs: seq<Record>, p: Past) {
    && Invariant(codec, s, rs) && Knows(codec, MemoryOf(codec, rs), p)
    && (s.broker.Some? && IsTracking(s.broker.value) ==> InStage(codec, s.broker.value, p))
  }

  // ---------------------------------------------------------------- appending a record

  /** The memory of a record that was just made. */
  lemma AppendedMemory(codec: Codec, core: Core, state: JournalState, ref: Ref, operation: nat, before: string, after: string,
                       response: string, nonce: string)
    requires Sound(codec)
    ensures var core' := AppendState(codec, core, state, ref, operation, before, after, response, nonce);
      && core' == core.(journal := core'.journal, memory := core'.memory)
      && IsAbout(core'.memory, OperationName(operation), ref, before) && core'.memory.state == Last(state)
      && core'.memory.after == after
      && core'.memory.response64 == codec.base64(ResponseFor(codec, core.memory, state, response))
  {
    var full := ResponseFor(codec, core.memory, state, response);
    MadeState(codec, state, ref, operation, before, after, full, nonce);
    MadeDecodes(codec, state, ref, operation, before, after, full, nonce);
    assert codec.base64("") == "";
    hide OperationName, StateNamed, StateName, Line, Hash, Decimal, ParseDecimal, Size, ContentDigest, ResponseFor;
  }

  lemma KnowsByTarget(codec: Codec, m: Memory, m': Memory, operation: string, ref: Ref, before: string, p: Past)
    requires Knows(codec, m, p) && IsAbout(m, operation, ref, before) && IsAbout(m', operation, ref, before)
    requires m'.state != Last(Applied) && m'.state != Last(Acked)
    ensures Knows(codec, m', p)
  {
    hide FileIdentity;
  }

  lemma KnowsWithResponse(codec: Codec, m: Memory, m': Memory, operation: string, ref: Ref, before: string, response: string, p: Past)
    requires Knows(codec, m, p) && IsAbout(m, operation, ref, before) && IsAbout(m', operation, ref, before)
    requires m'.response64 == codec.base64(response)
    ensures Knows(codec, m', p.(answered := Some(response)))
  {
    hide FileIdentity;
  }

  // ---------------------------------------------------------------- the broker's own steps

  lemma JobRecalls(codec: Codec, core: Core, after: string, receipt: string, p: Past)
    requires Sound(codec) && Recalls(codec, core, p) && core.stage.Executing?
    ensures var core' := CloseJob(codec, core, after, receipt); Recalls(codec, core', p) && core'.stage == core.stage
  {
    var st := core.stage;
    hide Knows, AppendState, OperationName;
    if (st.operation == 15 || st.operation == 16) && core.memory.state == Last(Intent) {
      AppendedMemory(codec, core, JobClosed, st.ref, st.operation, st.before, after, receipt, core.session);
      KnowsByTarget(codec, core.memory, CloseJob(codec, core, after, receipt).memory, OperationName(st.operation), st.ref, st.before, p);
    }
  }

  lemma FinishRecalls(codec: Codec, core: Core, after: string, values: Values, p: Past)
    requires Sound(codec) && Recalls(codec, core, p) && core.stage.Executing?
    requires Passed(core, core.stage.ref, core.stage.operation, values) != ""
    ensures var core' := Finish(codec, core, after, values);
      && core'.stage.Answered? && core'.stage.commit
      && Recalls(codec, core', p.(answered := Some(core'.stage.response)))
  {
    var st := core.stage;
    var response := Passed(core, st.ref, st.operation, values);
    hide Knows, AppendState, OperationName, Passed;
    AppendedMemory(codec, core, Applied, st.ref, st.operation, st.before, after, response, core.session);
    KnowsWithResponse(codec, core.memory, Finish(codec, core, after, values).memory, OperationName(st.operation), st.ref, st.before, response, p);
  }

  lemma FailRecalls(codec: Codec, core: Core, after: string, message: string, p: Past)
    requires Sound(codec) && Recalls(codec, core, p) && core.stage.Executing?
    ensures var core' := Fail(codec, core, after, message);
      Recalls(codec, core', p) && core'.stage.Answered? && !core'.stage.commit
  {
    var st := core.stage;
    hide Knows, AppendState, OperationName, FailedWith;
    AppendedMemory(codec, core, Failed, st.ref, st.operation, st.before, after,
                   FailedWith(core, core.session, st.ref, OperationName(st.operation), message), core.session);
    KnowsByTarget(codec, core.memory, Fail(codec, core, after, message).memory, OperationName(st.operation), st.ref, st.before, p);
  }

  lemma SameAnswer(p: Past, response: string)
    requires p.answered == Some(response)
    ensures p.(answered := Some(response)) == p
  {
  }

  lemma AckRecalls(codec: Codec, core: Core, p: Past)
    requires Sound(codec) && Recalls(codec, core, p)
    ensures var core' := Acknowledge(codec, core);
      && Recalls(codec, core', p)
      && (core.stage.Answered? ==> core'.stage == Idle || core'.stage == Stopped) && (!core.stage.Answered? ==> core' == core)
  {
    hide Knows, AppendState, OperationName, FileIdentity;
    if core.stage.Answered? && core.stage.commit {
      var st := core.stage;
      AppendedMemory(codec, core, Acked, st.ref, st.operation, st.before, st.after, "", core.session);
      assert codec.unbase64(codec.base64(st.response)) == Some(st.response) && codec.unbase64(codec.base64("")) == Some("");
      KnowsWithResponse(codec, core.memory, Acknowledge(codec, core).memory, OperationName(st.operation), st.ref, st.before, st.response, p);
      SameAnswer(p, st.response);
    }
  }

  lemma AbandonRecalls(codec: Codec, core: Core, p: Past)
    requires Sound(codec) && Recalls(codec, core, p)
    ensures var core' := Abandon(codec, core); Recalls(codec, core', p) && core'.stage == Stopped
  {
    hide Knows, AppendState, OperationName;
    if core.stage.Answered? && core.stage.commit {
      var st := core.stage;
      AppendedMemory(codec, core, Permanent, st.ref, st.operation, st.before, st.after, "", core.session);
      KnowsByTarget(codec, core.memory, Abandon(codec, core).memory, OperationName(st.operation), st.ref, st.before, p);
    }
  }

  /** The acknowledgement that recovery writes repeats target and response of the last record. */
  lemma RecoverMemory(codec: Codec, s: Sys, core: Core, rs: seq<Record>)
    requires Sound(codec) && Holds(codec, s, core, rs) && IsTracking(core) && core.memory.state == Last(Applied)
    requires core.memory.response64 != ""
    ensures var m := Append(codec, core, RecoveredRecord(codec, core.memory)).memory;
      && m.state == Last(Acked) && m.operation == core.memory.operation && m.request == core.memory.request && m.root == core.memory.root && m.path == core.memory.path
      && m.other == core.memory.other && m.before == core.memory.before && m.response64 == core.memory.response64
  {
    LastRecord(codec, s, core, rs);
    RecoveredIsAcked(codec, s.used, rs);
    RememberedFields(codec, rs);
    StatesAreNamed(Acked);
    hide MemoryOf, Invariant, RecordOk, StateName, StateNamed, Line, Hash, ParseDecimal, RecoveredRecord, Sound;
  }

  lemma HoldsHold(codec: Codec, s: Sys, core: Core, rs: seq<Record>)
    requires Holds(codec, s, core, rs)
    ensures core.crashHeld <==> core.hold != Closed
  {
    hide Legal, RecordsOk, AnchorOk, ChainText, StageOk, MemoryOf;
  }

  lemma RecoverRecalls(codec: Codec, s: Sys, core: Core, text: string, current: Answer<string>, stage: Stage, rs: seq<Record>, p: Past)
    requires Sound(codec) && Holds(codec, s, core, rs) && IsTracking(core) && Knows(codec, core.memory, p)
    requires stage.Answered? && !stage.commit
    ensures Recalls(codec, Recover(codec, core, text, current).0.(stage := stage), p)
  {
    HoldsHold(codec, s, core, rs);
    hide Invariant, Recover, Append, RecoveredRecord, Sound, FileIdentity, ResponseIntact, IsFileOperation;
    RecoverShape(codec, core, text, current);
    if Recover(codec, core, text, current).1 == Ok(VerifiedAppliedUnacked) {
      RecoverMemory(codec, s, core, rs);
    }
  }

  lemma BeginRecalls(codec: Codec, s: Sys, core: Core, f: Frame, digest: string, volatile: Answer<string>, p: Past)
    requires Sound(codec) && IsMutation(f.operation) && IdentityFor(codec, s, core, f, digest, volatile).Ok?
    ensures var ref := RefOf(f, digest);
      var core' := BegunCore(codec, core, ref, f.operation, IdentityFor(codec, s, core, f, digest, volatile).value);
      && core'.stage.Executing?
      && Recalls(codec, core', p.(begun := Some(Beginning(s.world, OperationName(f.operation), ref))))
  {
    var ref := RefOf(f, digest);
    var before := IdentityFor(codec, s, core, f, digest, volatile).value;
    hide AppendState, OperationName, FileIdentity, RefOf, IsFileOperation;
    AppendedMemory(codec, core, Intent, ref, f.operation, before, before, "", core.session);
  }

  // ---------------------------------------------------------------- a request

  lemma QuietPast(p: Past, s: Sys, a: Action, s': Sys)
    requires s'.broker.Some? && !s'.broker.value.stage.Executing? && !Responds(s')
    ensures NextPast(p, s, a, s') == p
  {
    hide OperationName, RefOf;
  }

  lemma SamePast(codec: Codec, p: Past, s: Sys, a: Action)
    requires s.broker.Some? && InStage(codec, s.broker.value, p)
    ensures NextPast(p, s, a, s) == p
  {
    hide OperationName, RefOf;
  }

  lemma QuietRecalls(codec: Codec, core: Core, core': Core, p: Past)
    requires Knows(codec, core.memory, p) && core'.memory == core.memory
    requires core'.stage == Idle || core'.stage == Stopped || (core'.stage.Answered? && !core'.stage.commit)
    ensures Recalls(codec, core', p)
  {
    hide Knows;
  }

  lemma BeganRecalls(codec: Codec, s: Sys, core: Core, f: Frame, digest: string, volatile: Answer<string>, result: Answer<Values>, p: Past)
    requires Sound(codec) && s.broker == Some(core) && core.stage.Idle?
    requires IsMutation(f.operation) && IdentityFor(codec, s, core, f, digest, volatile).Ok?
    ensures var before := IdentityFor(codec, s, core, f, digest, volatile).value;
      var s' := Begun(codec, s, core, RefOf(f, digest), f.operation, before);
      Recalls(codec, s'.broker.value, NextPast(p, s, Request(f, digest, volatile, result), s'))
  {
    hide IdentityFor, BegunCore, Recalls, OperationName, RefOf, IsMutation;
    BeginRecalls(codec, s, core, f, digest, volatile, p);
  }

  /** The broker's memory is about the past, and so is what the request leaves of it. */
  lemma RequestRecalls(codec: Codec, s: Sys, core: Core, f: Frame, digest: string, volatile: Answer<string>, result: Answer<Values>,
                       rs: seq<Record>, p: Past)
    requires Sound(codec) && Holds(codec, s, core, rs) && IsTracking(core) && Recalls(codec, core, p)
    ensures var a := Request(f, digest, volatile, result);
      var s' := RequestStep(codec, s, core, f, digest, volatile, result);
      s'.broker.Some? && Recalls(codec, s'.broker.value, NextPast(p, s, a, s'))
  {
    SameCore(codec, s, core, rs);
    RequestShape(codec, s, core, f, digest, volatile, result);
    var identity := IdentityFor(codec, s, core, f, digest, volatile);
    var core' := Receive(codec, core, f, digest, identity, result);
    var a := Request(f, digest, volatile, result);
    var s' := RequestStep(codec, s, core, f, digest, volatile, result);
    hide Invariant, Recover, IdentityFor, GateFor, Sound, Receive, RequestStep, IsMutation, Knows, InStage, Begun, RefOf, OperationName, NextPast;
    if !core.stage.Idle? {
      SamePast(codec, p, s, a);
    } else if JournalSafety.Begins(codec, s, core, f, digest, volatile) {
      hide Recalls;
      BeganRecalls(codec, s, core, f, digest, volatile, result, p);
    } else {
      QuietPast(p, s, a, s');
      if Recovers(codec, core, f, identity) {
        RecoverRecalls(codec, s, core, FieldOr(f, 24, ""), identity, core'.stage, rs, p);
      } else {
        QuietRecalls(codec, core, core', p);
      }
    }
  }

  // ---------------------------------------------------------------- every step of a tracking broker

  lemma SucceedRecalls(codec: Codec, s: Sys, core: Core, a: Action, after: string, values: Values, rs: seq<Record>, p: Past)
    requires Sound(codec) && Holds(codec, s, core, rs) && Recalls(codec, core, p) && core.stage.Executing?
    requires forall i | 0 <= i < |values| :: IsWord(values[i].0) && values[i].0 !in RESERVED
    ensures var s' := With(s, Finish(codec, core, after, values));
      Recalls(codec, s'.broker.value, NextPast(p, s, a, s'))
  {
    hide Invariant, Recalls, Passed, OperationName, RefOf, AppendState, ResponseFits, Finish, InHand;
    HandRefOk(codec, s, core, rs);
    PassedFits(codec, core, core.stage.ref, core.stage.operation, values);
    assert Passed(core, core.stage.ref, core.stage.operation, values) != "" by { PassedIsSome(codec, core, values); }
    FinishRecalls(codec, core, after, values, p);
  }

  lemma HandRefOk(codec: Codec, s: Sys, core: Core, rs: seq<Record>)
    requires Sound(codec) && Holds(codec, s, core, rs) && core.stage.Executing?
    ensures RefOk(core.stage.ref) && IsHex(core.session, 32)
  {
    ExecutingState(codec, s, core, rs);
    hide Legal, RecordsOk, AnchorOk, ChainText, RefOk, MemoryOf, IsHex, InHand;
    HandIsOk(codec, core, rs);
  }

  lemma PassedIsSome(codec: Codec, core: Core, values: Values)
    requires core.stage.Executing?
    requires ResponseFits(codec, Applied, core.stage.ref, core.stage.operation, Passed(core, core.stage.ref, core.stage.operation, values), core.session)
    ensures Passed(core, core.stage.ref, core.stage.operation, values) != ""
  {
    hide Passed, AnswersRequest;
  }

  /** What a step of a tracking broker leaves alive is still about the past. */
  lemma BrokerRecalls(codec: Codec, s: Sys, core: Core, a: Action, rs: seq<Record>, p: Past)
    requires Sound(codec) && Holds(codec, s, core, rs) && IsTracking(core) && Recalls(codec, core, p) && Plausible(codec, core, a)
    ensures var s' := BrokerStep(codec, s, core, a);
      s'.broker.Some? ==> Recalls(codec, s'.broker.value, NextPast(p, s, a, s'))
  {
    var s' := BrokerStep(codec, s, core, a);
    hide Invariant, Sound, RequestStep, CloseJob, Finish, Fail, Abandon, Acknowledge, Recalls, IsIdentity, AfterIdentity, ThrownIdentity,
         WithinBounds, IsHex, LowerHex, Size, Passed, FailedWith, NextPast, OperationName;
    match a
    case Request(f, digest, volatile, result) => RequestRecalls(codec, s, core, f, digest, volatile, result, rs, p);
    case JobIsClosed(after, receipt) => ClosingRecalls(codec, s, core, a, AfterIdentity(codec, s, core, after), receipt, p);
    case Succeed(after, values) => SucceedRecalls(codec, s, core, a, AfterIdentity(codec, s, core, after), values, rs, p);
    case Throw(recaptured, message) =>
      FailRecalls(codec, core, ThrownIdentity(codec, s, core, recaptured), message, p);
      QuietPast(p, s, a, s');
    case Ack => SettlingRecalls(codec, s, core, a, p);
    case ControllerGone =>
      AbandonRecalls(codec, core, p);
      QuietPast(p, s, a, s');
    case _ => WorldRecalls(codec, s, core, a, s', p);
  }

  lemma ClosingRecalls(codec: Codec, s: Sys, core: Core, a: Action, after: string, receipt: string, p: Past)
    requires Sound(codec) && s.broker == Some(core) && Recalls(codec, core, p) && !a.Request?
    ensures var s' := With(s, CloseJob(codec, core, after, receipt)); Recalls(codec, s'.broker.value, NextPast(p, s, a, s'))
  {
    hide Knows, AppendState, OperationName;
    if core.stage.Executing? { JobRecalls(codec, core, after, receipt, p); }
  }

  lemma SettlingRecalls(codec: Codec, s: Sys, core: Core, a: Action, p: Past)
    requires Sound(codec) && s.broker == Some(core) && Recalls(codec, core, p)
    ensures var s' := AckStep(codec, s, core); s'.broker.Some? && Recalls(codec, s'.broker.value, NextPast(p, s, a, s'))
  {
    AckRecalls(codec, core, p);
    hide Knows, Acknowledge, OperationName, RefOf;
  }

  lemma WorldRecalls(codec: Codec, s: Sys, core: Core, a: Action, s': Sys, p: Past)
    requires s.broker == Some(core) && Recalls(codec, core, p) && (s'.broker == s.broker || s'.broker.None?)
    ensures s'.broker.Some? ==> Recalls(codec, core, NextPast(p, s, a, s'))
  {
    hide Knows, OperationName, RefOf;
  }

  // ---------------------------------------------------------------- a broker that lost track writes nothing

  /** The step leaves the journal alone, and no mutation is in hand after it. */
  predicate IsQuiet(s: Sys, s': Sys) {
    && s'.journal == s.journal
    && (s'.broker.Some? ==> !s'.broker.value.stage.Executing? && !Responds(s'))
  }

  lemma UntrackedIsQuiet(codec: Codec, s: Sys, core: Core, a: Action, rs: seq<Record>)
    requires Sound(codec) && Holds(codec, s, core, rs) && !IsTracking(core) && Plausible(codec, core, a)
    ensures var s' := BrokerStep(codec, s, core, a);
      IsQuiet(s, s') && (s'.broker.Some? ==> !IsTracking(s'.broker.value))
  {
    UntrackedStage(codec, s, core, rs);
    SameCore(codec, s, core, rs);
    hide Invariant, Sound;
    match a
    case Request(f, digest, volatile, result) =>
      hide RequestStep;
      UntrackedRequest(codec, s, core, f, digest, volatile, result);
    case _ =>
      hide BrokerStep;
      IdleIsQuiet(codec, s, core, a);
  }

  /** Without a mutation in hand, nothing but a request writes. */
  lemma IdleIsQuiet(codec: Codec, s: Sys, core: Core, a: Action)
    requires s.broker == Some(core) && With(s, core) == s && !a.Request? && Plausible(codec, core, a)
    requires !core.stage.Executing? && !Responds(s)
    ensures var s' := BrokerStep(codec, s, core, a);
      IsQuiet(s, s') && (s'.broker.Some? ==> s'.broker.value.hold == core.hold)
  {
    hide AppendState, Passed, FailedWith, OperationName, AfterIdentity, ThrownIdentity, Size, IsWord;
  }

  lemma UntrackedStage(codec: Codec, s: Sys, core: Core, rs: seq<Record>)
    requires Sound(codec) && Holds(codec, s, core, rs) && !IsTracking(core)
    ensures !core.stage.Executing? && !Responds(s) && core.crashHeld && core.hold != Closed
  {
    if core.stage.Executing? { ExecutingState(codec, s, core, rs); }
    if Responds(s) { AnsweredState(codec, s, core, rs); }
    hide Legal, RecordsOk, AnchorOk, ChainText, StageOk, MemoryOf;
  }

  lemma UntrackedRequest(codec: Codec, s: Sys, core: Core, f: Frame, digest: string, volatile: Answer<string>, result: Answer<Values>)
    requires With(s, core) == s && !IsTracking(core) && core.crashHeld && core.hold != Closed && !core.stage.Executing? && !Responds(s)
    ensures var s' := RequestStep(codec, s, core, f, digest, volatile, result);
      IsQuiet(s, s') && s'.broker.Some? && !IsTracking(s'.broker.value)
  {
    hide Recover, IdentityFor, GateFor, Receive, RequestStep, IsMutation, Begun, Append, RecoveredRecord, FitsSchema, RootKnown, FieldOr;
    RequestShape(codec, s, core, f, digest, volatile, result);
    var identity := IdentityFor(codec, s, core, f, digest, volatile);
    if GateFor(core, f) == Open { OpenGate(core, f); }
    RecoverShape(codec, core, FieldOr(f, 24, ""), identity);
  }

  /** Track is lost by an abandoned response, which is journaled, or by a step that writes nothing. */
  lemma LosingTrack(codec: Codec, s: Sys, core: Core, a: Action, rs: seq<Record>)
    requires Sound(codec) && Holds(codec, s, core, rs) && IsTracking(core) && Plausible(codec, core, a)
    requires var s' := BrokerStep(codec, s, core, a); s'.broker.Some? && !IsTracking(s'.broker.value)
    ensures (a.ControllerGone? && Responds(s)) || IsQuiet(s, BrokerStep(codec, s, core, a))
  {
    SameCore(codec, s, core, rs);
    hide Invariant, Sound, Plausible;
    match a
    case Request(f, digest, volatile, result) =>
      hide RequestStep;
      LosingTrackToRequest(codec, s, core, f, digest, volatile, result, rs);
    case _ =>
      hide BrokerStep;
      HoldOfStep(codec, s, core, a);
  }

  /** Apart from requests, only a failure and an abandoned response change the hold. */
  lemma HoldOfStep(codec: Codec, s: Sys, core: Core, a: Action)
    requires s.broker == Some(core) && !a.Request?
    ensures var s' := BrokerStep(codec, s, core, a);
      s'.broker.Some? ==>
        || s'.broker.value.hold == core.hold || (a.Throw? && s'.broker.value.hold == FailedHeld) || (a.ControllerGone? && Responds(s))
  {
    hide MakeRecord, Line, Hash, Remember, ResponseFor, Passed, FailedWith, OperationName, AfterIdentity, ThrownIdentity;
  }

  lemma LosingTrackToRequest(codec: Codec, s: Sys, core: Core, f: Frame, digest: string, volatile: Answer<string>,
                             result: Answer<Values>, rs: seq<Record>)
    requires With(s, core) == s && Holds(codec, s, core, rs) && IsTracking(core)
    requires var s' := RequestStep(codec, s, core, f, digest, volatile, result); s'.broker.Some? && !IsTracking(s'.broker.value)
    ensures IsQuiet(s, RequestStep(codec, s, core, f, digest, volatile, result))
  {
    HoldsHold(codec, s, core, rs);
    hide Recover, IdentityFor, GateFor, Receive, RequestStep, IsMutation, AppendState, RecoveredRecord, Invariant, Append, ResponseIntact, FieldOr;
    RequestShape(codec, s, core, f, digest, volatile, result);
    RecoverShape(codec, core, FieldOr(f, 24, ""), IdentityFor(codec, s, core, f, digest, volatile));
  }

  // ---------------------------------------------------------------- every step, and every run

  lemma QuietRemembers(codec: Codec, s: Sys, a: Action, s': Sys, rs: seq<Record>, rs': seq<Record>, p: Past)
    requires Sound(codec) && Remembers(codec, s, rs, p) && Invariant(codec, s', rs') && IsQuiet(s, s')
    ensures NextPast(p, s, a, s') == p && Remembers(codec, s', rs', p)
  {
    SameRecords(codec, s, s', rs, rs');
    hide Invariant, Knows, OperationName, RefOf, MemoryOf;
  }

  lemma LiveRemembers(codec: Codec, s: Sys, core: Core, a: Action, rs: seq<Record>, p: Past) returns (rs': seq<Record>)
    requires Sound(codec) && Remembers(codec, s, rs, p) && s.broker == Some(core) && IsTracking(core) && Plausible(codec, core, a)
    ensures var s' := BrokerStep(codec, s, core, a); Remembers(codec, s', rs', NextPast(p, s, a, s'))
  {
    hide Invariant, Knows, MemoryOf, NextPast, BrokerStep, Plausible, InStage, Abandon;
    var s' := BrokerStep(codec, s, core, a);
    rs' := BrokerStepKeeps(codec, s, core, a, rs);
    LastRecord(codec, s, core, rs);
    BrokerRecalls(codec, s, core, a, rs, p);
    if s'.broker.None? {
      CrashIsQuiet(codec, s, core, a);
      QuietRemembers(codec, s, a, s', rs, rs', p);
    } else if IsTracking(s'.broker.value) {
      LastRecord(codec, s', s'.broker.value, rs');
    } else {
      LosingTrack(codec, s, core, a, rs);
      if IsQuiet(s, s') {
        QuietRemembers(codec, s, a, s', rs, rs', p);
      } else {
        rs' := PermanentKeeps(codec, s, core, rs);
        assert s' == With(s, Abandon(codec, core)) by { AbandonedStep(codec, s, core, a); }
      }
    }
  }

  lemma AbandonedStep(codec: Codec, s: Sys, core: Core, a: Action)
    requires a.ControllerGone?
    ensures BrokerStep(codec, s, core, a) == With(s, Abandon(codec, core))
  {
    hide Abandon;
  }

  lemma CrashIsQuiet(codec: Codec, s: Sys, core: Core, a: Action)
    requires s.broker == Some(core) && BrokerStep(codec, s, core, a).broker.None?
    ensures IsQuiet(s, BrokerStep(codec, s, core, a))
  {
    hide Receive, IdentityFor, CloseJob, Finish, Fail, Acknowledge, Abandon, AfterIdentity, ThrownIdentity;
  }

  lemma StepRemembers(codec: Codec, s: Sys, a: Action, rs: seq<Record>, p: Past) returns (rs': seq<Record>)
    requires Sound(codec) && Remembers(codec, s, rs, p)
    ensures var s' := Step(codec, s, a); Remembers(codec, s', rs', NextPast(p, s, a, s'))
  {
    hide Invariant, Knows, MemoryOf, InStage, NextPast, BrokerStep, Start, Plausible, IsHex;
    var s' := Step(codec, s, a);
    rs' := StepKeeps(codec, s, a, rs);
    if s.broker.Some? && !a.Disturb? && !a.Restart? {
      var core := s.broker.value;
      if !Plausible(codec, core, a) {
        StillRemembers(codec, s, a, s', rs, rs', p);
      } else if IsTracking(core) {
        rs' := LiveRemembers(codec, s, core, a, rs, p);
      } else {
        UntrackedIsQuiet(codec, s, core, a, rs);
        QuietRemembers(codec, s, a, s', rs, rs', p);
      }
    } else if s'.broker == s.broker {
      StillRemembers(codec, s, a, s', rs, rs', p);
    } else {
      RestartIsQuiet(codec, s, a);
      QuietRemembers(codec, s, a, s', rs, rs', p);
    }
  }

  lemma StillRemembers(codec: Codec, s: Sys, a: Action, s': Sys, rs: seq<Record>, rs': seq<Record>, p: Past)
    requires Sound(codec) && Remembers(codec, s, rs, p) && Invariant(codec, s', rs')
    requires s'.journal == s.journal && s'.broker == s.broker
    ensures Remembers(codec, s', rs', NextPast(p, s, a, s'))
  {
    hide Invariant, Knows, MemoryOf, NextPast, OperationName, IsAbout;
    SameRecords(codec, s, s', rs, rs');
    if Responds(s) { AnsweredState(codec, s, s.broker.value, rs); }
    UnmovedPast(p, s, a, s');
  }

  lemma UnmovedPast(p: Past, s: Sys, a: Action, s': Sys)
    requires s'.broker == s.broker && (Responds(s) ==> p.answered == Some(s.broker.value.stage.response))
    ensures NextPast(p, s, a, s') == p
  {
    hide OperationName, RefOf;
  }

  lemma RestartIsQuiet(codec: Codec, s: Sys, a: Action)
    requires s.broker.None? || a.Restart? || a.Disturb?
    requires Step(codec, s, a).broker != s.broker
    ensures IsQuiet(s, Step(codec, s, a))
  {
    hide Load, IsHex, Plausible;
  }

  /** Over every run the journal's records are about the last mutation that began and carry the last response. */
  lemma {:induction false} RunRemembers(codec: Codec, world: World, actions: seq<Action>) returns (rs: seq<Record>)
    requires Sound(codec)
    ensures Remembers(codec, Run(codec, Initial(world), actions), rs, PastOf(codec, world, actions))
    decreases |actions|
  {
    if actions == [] {
      rs := [];
      InitiallyHolds(codec, world);
    } else {
      hide Remembers, Step, NextPast;
      var before := actions[..|actions| - 1];
      rs := RunRemembers(codec, world, before);
      rs := StepRemembers(codec, Run(codec, Initial(world), before), actions[|actions| - 1], rs, PastOf(codec, world, before));
    }
  }
}
