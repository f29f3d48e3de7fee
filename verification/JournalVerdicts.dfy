/**
 Recovery, told from the text of the request, the memory of the journal and the
 present identity of the target: which recoveries are bound to the journal, which
 verdict each one gets, and what that verdict answers and leaves behind
 (scripts/r4b-evidence/windows-native-boundary.cs, RECOVER_SESSION in Execute).
 */
module JournalVerdicts {
  import opened Basics
  import opened BrokerFrame
  import opened JournalText
  import opened JournalResponse
  import opened Journal
  import opened JournalLoader
  import opened JournalBroker
  import opened JournalGate

  // ---------------------------------------------------------------- the binding

  /** What the controller has to know: what failed, the remembered request, itself, and the end of the journal. */
  function BindingText(kind: string, request: string, creation: string, count: string, hash: string): string {
    kind + "|" + request + "|" + creation + "|" + count + "|" + hash
  }

  predicate IsFailureKind(kind: string) {
    kind == "BUILD_TRANSACTION_FAILED" || kind == "OBSERVATION_TRANSACTION_FAILED" || kind == "NATIVE_TRANSACTION_FAILED"
  }

  ghost predicate IsBound(core: Core, text: string) {
    && IsHex(core.memory.request, 64) && core.memory.count < 0x8000_0000_0000_0000
    && '|' !in core.creation && '|' !in core.memory.lastHash
    && exists kind, count :: IsFailureKind(kind) && ParseDecimal(count) == Some(core.memory.count)
         && text == BindingText(kind, core.memory.request, core.creation, count, core.memory.lastHash)
  }

  lemma BindingIsJoined(a: string, b: string, c: string, d: string, e: string)
    ensures Join([a, b, c, d, e], '|') == BindingText(a, b, c, d, e)
  {
    assert [a, b, c, d, e][1..] == [b, c, d, e] && [b, c, d, e][1..] == [c, d, e] && [c, d, e][1..] == [d, e] && [d, e][1..] == [e];
    assert Join([e], '|') == e;
    assert Join([d, e], '|') == d + ['|'] + e;
    assert Join([c, d, e], '|') == c + ['|'] + (d + ['|'] + e);
    assert Join([b, c, d, e], '|') == b + ['|'] + (c + ['|'] + (d + ['|'] + e));
  }

  lemma {:induction false} DigitsOnly(s: string)
    requires ParseDecimal(s).Some?
    ensures '|' !in s
    decreases |s|
  {
    var (init, last) := (s[..|s| - 1], s[|s| - 1]);
    if |s| > 1 { DigitsOnly(init); }
    assert s == init + [last];
  }

  lemma KindsHaveNoBar(kind: string)
    requires IsFailureKind(kind)
    ensures '|' !in kind
  {
  }

  /** A recovery is bound exactly when its text is written from the end of this journal. */
  lemma BoundIff(core: Core, text: string)
    ensures RecoveryBound(core, text) <==> IsBound(core, text)
  {
    var parts := Split(text, '|');
    if RecoveryBound(core, text) {
      hide Split, Join, IsHex, ParseDecimal, BindingText, IsFailureKind;
      JoinOfSplit(text, '|');
      assert parts == [parts[0], parts[1], parts[2], parts[3], parts[4]];
      BindingIsJoined(parts[0], parts[1], parts[2], parts[3], parts[4]);
      assert IsFailureKind(parts[0]) by { KindsByName(parts[0]); }
    }
    if IsBound(core, text) { BoundTexts(core, text); }
  }

  lemma KindsByName(kind: string)
    ensures IsFailureKind(kind) <==> kind in {"BUILD_TRANSACTION_FAILED", "OBSERVATION_TRANSACTION_FAILED", "NATIVE_TRANSACTION_FAILED"}
  {
  }

  lemma BoundTexts(core: Core, text: string)
    requires IsBound(core, text)
    ensures RecoveryBound(core, text)
  {
    hide Split, Join, ParseDecimal, BindingText, IsFailureKind;
    var kind, count :| IsFailureKind(kind) && ParseDecimal(count) == Some(core.memory.count)
      && text == BindingText(kind, core.memory.request, core.creation, count, core.memory.lastHash);
    var parts := [kind, core.memory.request, core.creation, count, core.memory.lastHash];
    KindsHaveNoBar(kind);
    KindsByName(kind);
    DigitsOnly(count);
    assert '|' !in core.memory.request;
    BindingIsJoined(kind, core.memory.request, core.creation, count, core.memory.lastHash);
    SplitOfJoin(parts, '|');
  }

  // ---------------------------------------------------------------- the verdicts

  /** What a recovery is entitled to hear; nothing is executed for it. */
  ghost predicate Deserves(codec: Codec, core: Core, current: Answer<string>, outcome: string) {
    var m := core.memory;
    || (outcome == "LEGACY_JOURNAL_PERMANENT_HELD" && core.hold == LegacyHeld)
    || (outcome == "JOURNAL_PERMANENT_HELD" && IsHeldForGood(core))
    || (outcome == "VERIFIED_COMMITTED" && IsOpenToVerdicts(core) && m.state == Last(Acked))
    || (outcome == "VERIFIED_APPLIED_UNACKED" && IsOpenToVerdicts(core) && m.state == Last(Applied) && current == Ok(m.after) && HasResponse(codec, m))
    || (outcome == "VERIFIED_NOT_APPLIED" && IsOpenToVerdicts(core) && (m.state == Last(Intent) || m.state == Last(Failed)) && current == Ok(m.before))
    || (outcome == "AMBIGUOUS_PERMANENT_HELD" && IsOpenToVerdicts(core) && m.state != Last(Acked) && current.Ok?
          && !(m.state == Last(Applied) && current.value == m.after && HasResponse(codec, m))
          && !((m.state == Last(Intent) || m.state == Last(Failed)) && current.value == m.before))
  }

  predicate IsHeldForGood(core: Core) {
    core.hold != LegacyHeld && (core.hold == JournalHeld || core.hold == OrphanedHeld || core.memory.state == Last(Permanent))
  }

  predicate IsOpenToVerdicts(core: Core) {
    (core.hold == Closed || core.hold == FailedHeld || core.hold == AmbiguousHeld) && core.memory.state != Last(Permanent)
  }

  /** The remembered response is there and is the one whose digest was journaled. */
  predicate HasResponse(codec: Codec, m: Memory) {
    m.response64 != "" && codec.unbase64(m.response64).Some? && codec.digest(codec.unbase64(m.response64).value) == m.digest
  }

  /** Of the verdicts a recovery deserves at most one; none only if the target could not be identified where that matters. */
  lemma OneVerdict(codec: Codec, core: Core, current: Answer<string>, a: string, b: string)
    requires Deserves(codec, core, current, a) && Deserves(codec, core, current, b)
    ensures a == b
  {
    hide HasResponse;
  }

  lemma NoVerdictIff(codec: Codec, core: Core, current: Answer<string>)
    ensures (forall outcome :: !Deserves(codec, core, current, outcome))
      <==> IsOpenToVerdicts(core) && core.memory.state != Last(Acked) && current.Err?
  {
    assert core.hold == LegacyHeld ==> Deserves(codec, core, current, "LEGACY_JOURNAL_PERMANENT_HELD");
    assert IsHeldForGood(core) ==> Deserves(codec, core, current, "JOURNAL_PERMANENT_HELD");
    assert IsOpenToVerdicts(core) && core.memory.state == Last(Acked) ==> Deserves(codec, core, current, "VERIFIED_COMMITTED");
    if IsOpenToVerdicts(core) && core.memory.state != Last(Acked) && current.Ok? {
      assert Deserves(codec, core, current, "VERIFIED_APPLIED_UNACKED") || Deserves(codec, core, current, "VERIFIED_NOT_APPLIED")
        || Deserves(codec, core, current, "AMBIGUOUS_PERMANENT_HELD");
    }
  }

  /** The values that go with a verdict: the two that say the mutation took place hand its response over. */
  function Handed(m: Memory, outcome: string): Values {
    [("outcome", outcome)]
    + if outcome == "VERIFIED_COMMITTED" || outcome == "VERIFIED_APPLIED_UNACKED" then
        [("replayResponseBase64", m.response64), ("replayResponseSha256", m.digest), ("replaySessionNonce", m.nonce),
         ("replaySequence", Decimal(m.sequence)), ("replayOperation", m.operation), ("replayRequestSha256", m.request)]
      else []
  }

  /** The acknowledgement that a recovery writes for the remembered mutation. */
  function LateAcknowledgement(codec: Codec, m: Memory): Record
    requires codec.unbase64(m.response64).Some?
  {
    var response := codec.unbase64(m.response64).value;
    Record("ACKED_COMMITTED_DURABLE", Decimal(m.sequence), m.nonce, m.operation, LowerHex(m.request), m.root,
           codec.base64(if m.root == "SESSION" then "" else m.path), codec.base64(m.other), m.before, m.after,
           if response == "" then Zeros(64) else codec.digest(response), Decimal(Size(response)),
           if response == "" then "" else codec.base64(response))
  }

  /** What a verdict leaves behind: journal, hold, and nothing else. */
  ghost predicate LeavesBehind(codec: Codec, core: Core, core': Core, outcome: string) {
    && core' == core.(journal := core'.journal, memory := core'.memory, crashHeld := core'.crashHeld, hold := core'.hold, stage := core'.stage)
    && (if outcome == "VERIFIED_APPLIED_UNACKED" then
          && codec.unbase64(core.memory.response64).Some?
          && core'.journal == core.journal + Line(codec, LateAcknowledgement(codec, core.memory), core.memory.lastHash) + "\n"
          && core'.memory.state == Last(Acked) && core'.memory.count == core.memory.count + 1
        else core'.journal == core.journal && core'.memory == core.memory)
    && (outcome == "VERIFIED_APPLIED_UNACKED" || outcome == "VERIFIED_NOT_APPLIED" ==> !core'.crashHeld && core'.hold == Closed)
    && (outcome == "VERIFIED_COMMITTED" ==> core'.crashHeld == core.crashHeld && core'.hold == core.hold)
    && (outcome == "LEGACY_JOURNAL_PERMANENT_HELD" ==> core'.crashHeld && core'.hold == LegacyHeld)
    && (outcome == "JOURNAL_PERMANENT_HELD" ==> core'.crashHeld && core'.hold == if core.hold == OrphanedHeld then OrphanedHeld else JournalHeld)
    && (outcome == "AMBIGUOUS_PERMANENT_HELD" ==> core'.crashHeld && core'.hold == AmbiguousHeld)
  }

  ghost predicate IsVerdict(codec: Codec, core: Core, current: Answer<string>, recovered: Core, o: Outcome, outcome: string) {
    && Deserves(codec, core, current, outcome) && OutcomeValues(core.memory, o) == Handed(core.memory, outcome)
    && recovered.stage == core.stage && LeavesBehind(codec, core, recovered, outcome)
  }

  lemma VerdictOf(codec: Codec, core: Core, text: string, current: Answer<string>) returns (outcome: string)
    requires Sound(codec) && RecoveryBound(core, text) && Recover(codec, core, text, current).1.Ok?
    ensures IsVerdict(codec, core, current, Recover(codec, core, text, current).0, Recover(codec, core, text, current).1.value, outcome)
  {
    hide RecoveryBound, Sound, Line, Hash, Remember, Decimal, Size, RecoveryRefusal, LateAcknowledgement, Append, RecoveredRecord;
    var (recovered, o) := Recover(codec, core, text, current);
    outcome := match o.value
      case VerifiedCommitted => "VERIFIED_COMMITTED"
      case VerifiedAppliedUnacked => "VERIFIED_APPLIED_UNACKED"
      case VerifiedNotApplied => "VERIFIED_NOT_APPLIED"
      case LegacyHeldOutcome => "LEGACY_JOURNAL_PERMANENT_HELD"
      case JournalHeldOutcome => "JOURNAL_PERMANENT_HELD"
      case AmbiguousOutcome => "AMBIGUOUS_PERMANENT_HELD";
    if o.value.VerifiedAppliedUnacked? { AcknowledgesLate(codec, core); }
  }

  lemma AcknowledgesLate(codec: Codec, core: Core)
    requires Sound(codec) && codec.unbase64(core.memory.response64).Some?
    ensures var acked := Append(codec, core, RecoveredRecord(codec, core.memory));
      && acked == core.(journal := acked.journal, memory := acked.memory)
      && acked.journal == core.journal + Line(codec, LateAcknowledgement(codec, core.memory), core.memory.lastHash) + "\n"
      && acked.memory.state == Last(Acked) && acked.memory.count == core.memory.count + 1
  {
    hide Line, Hash, Decimal, Size, ParseDecimal, StateNamed;
    assert RecoveredRecord(codec, core.memory) == LateAcknowledgement(codec, core.memory);
    assert StateNamed("ACKED_COMMITTED_DURABLE") == Some(Acked) by { StatesAreNamed(Acked); }
  }

  // ---------------------------------------------------------------- the answer

  /**
   A recovery that the gate lets through. Bound to the end of the journal, it is
   answered PASS with the one verdict it deserves; with none, because the target
   could not be identified, it is answered FAIL with the reason of that. Not bound,
   it is answered FAIL.
   */
  lemma RecoveryAnswers(codec: Codec, core: Core, f: Frame, request: string, current: Answer<string>, result: Answer<Values>)
    requires Sound(codec) && core.stage.Idle? && f.sequence == core.nextSequence && Admits(core, f) && f.operation == 21
    ensures 24 in f.fields
    ensures var core' := Receive(codec, core, f, request, current, result);
      if !IsBound(core, f.fields[24]) then
        AnsweredWith(core, core', RefusalText(core, f, request, core.session, "RECOVER_SESSION", UnboundReason(f.fields[24])))
      else if current.Err? && IsOpenToVerdicts(core) && core.memory.state != Last(Acked) then
        AnsweredWith(core, core', RefusalText(core, f, request, core.session, "RECOVER_SESSION", current.error))
      else
        exists outcome ::
          && Deserves(codec, core, current, outcome) && LeavesBehind(codec, core, core', outcome)
          && core'.stage.Answered? && !core'.stage.commit
          && core'.stage.response == Verdict(core, core', f, request, outcome)
  {
    FitsIff(f);
    assert 24 in f.fields by { assert Carries(21, 24); }
    OpensIff(core, f);
    BoundIff(core, f.fields[24]);
    hide GateFor, Admits, FitsSchema, Carries, RecoveryBound, IsBound;
    if RecoveryBound(core, f.fields[24]) {
      NoVerdictIff(codec, core, current);
      if Recover(codec, core, f.fields[24], current).1.Ok? {
        var outcome := VerdictOf(codec, core, f.fields[24], current);
        AnswersVerdict(codec, core, f, request, current, result, outcome);
      } else { NoVerdictFails(codec, core, f, request, current, result); }
    } else { UnboundFails(codec, core, f, request, current, result); }
  }

  function UnboundReason(text: string): string {
    "InvalidDataException:" + if |Split(text, '|')| == 5 then "RECOVERY_RECORD_BINDING" else "RECOVERY_RECORD_SCHEMA"
  }

  /** The verdict in a passing response, with the end of the journal as it now is. */
  function Verdict(core: Core, core': Core, f: Frame, request: string, outcome: string): string {
    Response(core.session, Decimal(f.sequence), "RECOVER_SESSION", request, "PASS", "",
             Handed(core.memory, outcome)
             + [("journalBeforeResponseSha256", core'.memory.lastHash), ("journalBeforeResponseSequence", Decimal(core'.memory.count))])
  }

  lemma AnswersVerdict(codec: Codec, core: Core, f: Frame, request: string, current: Answer<string>, result: Answer<Values>, outcome: string)
    requires core.stage.Idle? && f.sequence == core.nextSequence && GateFor(core, f) == Open && f.operation == 21 && 24 in f.fields
    requires Recover(codec, core, f.fields[24], current).1.Ok?
    requires IsVerdict(codec, core, current, Recover(codec, core, f.fields[24], current).0, Recover(codec, core, f.fields[24], current).1.value, outcome)
    ensures var core' := Receive(codec, core, f, request, current, result);
      && Deserves(codec, core, current, outcome) && LeavesBehind(codec, core, core', outcome)
      && core'.stage.Answered? && !core'.stage.commit && core'.stage.response == Verdict(core, core', f, request, outcome)
  {
    hide GateFor, Recover, Deserves, Response, Handed, OutcomeValues, Line, LateAcknowledgement, Decimal;
    assert OperationName(21) == "RECOVER_SESSION" && !IsMutation(21);
    hide OperationName;
    var recovered := Recover(codec, core, f.fields[24], current).0;
    var core' := Receive(codec, core, f, request, current, result);
    assert core' == recovered.(stage := core'.stage);
    assert recovered.session == core.session;
  }

  lemma NoVerdictFails(codec: Codec, core: Core, f: Frame, request: string, current: Answer<string>, result: Answer<Values>)
    requires core.stage.Idle? && f.sequence == core.nextSequence && GateFor(core, f) == Open && f.operation == 21 && 24 in f.fields
    requires RecoveryBound(core, f.fields[24]) && Recover(codec, core, f.fields[24], current).1.Err?
    ensures current.Err? && IsOpenToVerdicts(core) && core.memory.state != Last(Acked)
    ensures AnsweredWith(core, Receive(codec, core, f, request, current, result),
                         RefusalText(core, f, request, core.session, "RECOVER_SESSION", current.error))
  {
    hide GateFor, RecoveryBound, Response, Append, RecoveredRecord, ResponseIntact, RecoveryRefusal, Decimal;
    assert OperationName(21) == "RECOVER_SESSION" && !IsMutation(21);
    hide OperationName;
  }

  lemma UnboundFails(codec: Codec, core: Core, f: Frame, request: string, current: Answer<string>, result: Answer<Values>)
    requires core.stage.Idle? && f.sequence == core.nextSequence && GateFor(core, f) == Open && f.operation == 21 && 24 in f.fields
    requires !RecoveryBound(core, f.fields[24])
    ensures AnsweredWith(core, Receive(codec, core, f, request, current, result),
                         RefusalText(core, f, request, core.session, "RECOVER_SESSION", UnboundReason(f.fields[24])))
  {
    hide GateFor, RecoveryBound, Response, Append, RecoveredRecord, ResponseIntact, Decimal, Split;
    assert OperationName(21) == "RECOVER_SESSION" && !IsMutation(21);
    hide OperationName;
  }
}
