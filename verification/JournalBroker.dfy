/**
 The broker that writes the journal
 (scripts/r4b-evidence/windows-native-boundary.cs, AppendJournal,
 ProcessRequest, RECOVER_SESSION in Execute, and the loop of RunPipeServer):
 intent, effect, response, acknowledgement, and recovery after a crash.

 `Core` is the value of the broker's fields with the journal text; its functions
 are the specification of the class `NativeBroker`, which updates the fields in
 place. What the operating system answers, an identity or the values of an
 operation, is a parameter of each step.
 */
module JournalBroker {
  import opened Basics
  import opened BrokerFrame
  import opened JournalText
  import opened JournalResponse
  import opened Journal
  import opened JournalLoader

  type Values = seq<(string, string)>

  /** What the journal keeps of a request. */
  datatype Ref = Ref(sequence: nat, request: string, root: string, path: string, other: string)

  function FieldOr(f: Frame, id: nat, default: string): string {
    if id in f.fields then f.fields[id] else default
  }

  function RefOf(f: Frame, request: string): Ref {
    Ref(f.sequence, request, FieldOr(f, 2, "SESSION"), FieldOr(f, 3, ""), FieldOr(f, 4, ""))
  }

  const HELLO: nat := 1
  const SHUTDOWN: nat := 20
  const RECOVER_SESSION: nat := 21

  function OperationName(operation: nat): string {
    match operation
    case 1 => "HELLO"
    case 2 => "READ_BOUNDED"
    case 3 => "HASH_BOUNDED"
    case 4 => "INVENTORY_TREE"
    case 5 => "CREATE_DIRECTORY"
    case 6 => "WRITE_NEW"
    case 7 => "APPEND_DURABLE"
    case 8 => "RENAME_EXCLUSIVE"
    case 9 => "UNLINK_EXACT"
    case 10 => "REMOVE_TREE_EXACT"
    case 11 => "PIN_FILE"
    case 12 => "UNPIN_FILE"
    case 13 => "JOB_CREATE_SUSPENDED"
    case 14 => "JOB_RESUME"
    case 15 => "JOB_STATUS"
    case 16 => "JOB_TERMINATE"
    case 17 => "NVDA_START_WITH_HANDLES"
    case 18 => "NVDA_STOP"
    case 19 => "TEST_SYNCHRONIZED_SWAP"
    case 20 => "SHUTDOWN"
    case 21 => "RECOVER_SESSION"
    case 22 => "TEST_CRASH_AFTER_INTENT"
    case 23 => "REPLACE_EXISTING_EXACT"
    case 24 => "TEST_POST_ACK_JOURNAL_FAILURE"
    case _ => "UNKNOWN"
  }

  predicate IsMutation(operation: nat) {
    5 <= operation <= 10 || 12 <= operation <= 18 || 22 <= operation <= 24
  }

  predicate RootKnown(root: string) {
    root in {"FROZEN_REPOSITORY_READ", "RUNTIME_CONTROL_ROOT", "ATTEMPT_ROOT", "RAW_ROOT", "NVDA_RAW_ROOT", "NVDA_CONFIG_ROOT",
             "NVDA_PORTABLE_ROOT", "BUILD_OUTPUT_ROOT", "BUILD_TEMP_ROOT", "TOOLS_READ", "DOWNLOADS_READ", "TEST_ROOT"}
  }

  // ---------------------------------------------------------------- the broker's fields

  datatype Stage =
    | Idle
    | Executing(ref: Ref, operation: nat, before: string)
    | Answered(ref: Ref, operation: nat, before: string, after: string, response: string, commit: bool)
    | Stopped

  datatype Core = Core(
    journal: string, memory: Memory, crashHeld: bool, hold: Hold,
    session: string, nextSequence: nat, controllerPid: nat, creation: string, capability: string, stage: Stage)

  function RecordFor(codec: Codec, state: JournalState, ref: Ref, operation: string, before: string, after: string,
                     response: string, nonce: string): Record {
    Record(StateName(state), Decimal(ref.sequence), nonce, operation, ref.request, ref.root,
           codec.base64(ref.path), codec.base64(ref.other), before, after,
           ContentDigest(codec, response), Decimal(Size(response)), if response == "" then "" else codec.base64(response))
  }

  function MakeRecord(codec: Codec, state: JournalState, ref: Ref, operation: nat, before: string, after: string,
                      response: string, nonce: string): Record {
    RecordFor(codec, state, ref, OperationName(operation), before, after, response, nonce)
  }

  /** An append without a response of its own repeats the remembered one when it acknowledges. */
  function ResponseFor(codec: Codec, memory: Memory, state: JournalState, response: string): string {
    if response == "" && state == Acked && memory.response64 != "" then OrEmpty(codec.unbase64(memory.response64)) else response
  }

  function Append(codec: Codec, core: Core, r: Record): Core {
    core.(journal := core.journal + Line(codec, r, core.memory.lastHash) + "\n",
          memory := Remember(codec, core.memory, r, Hash(codec, r, core.memory.lastHash)))
  }

  function AppendState(codec: Codec, core: Core, state: JournalState, ref: Ref, operation: nat, before: string,
                       after: string, response: string, nonce: string): Core {
    Append(codec, core, MakeRecord(codec, state, ref, operation, before, after, ResponseFor(codec, core.memory, state, response), nonce))
  }

  function Anchor(core: Core): Values {
    [("journalBeforeResponseSha256", core.memory.lastHash), ("journalBeforeResponseSequence", Decimal(core.memory.count))]
  }

  function Passed(core: Core, ref: Ref, operation: nat, values: Values): string {
    Response(core.session, Decimal(ref.sequence), OperationName(operation), ref.request, "PASS", "", values + Anchor(core))
  }

  function FailedWith(core: Core, session: string, ref: Ref, operation: string, message: string): string {
    Response(session, Decimal(ref.sequence), operation, ref.request, "FAIL", message, Anchor(core))
  }

  // ---------------------------------------------------------------- admission

  datatype Gate = Open | Shut(session: string, operation: string, message: string)

  function HoldName(hold: Hold): string {
    match hold
    case Closed => "CLOSED"
    case FailedHeld => "FAILED_HELD"
    case JournalHeld => "JOURNAL_PERMANENT_HELD"
    case OrphanedHeld => "ORPHANED_PERMANENT_HELD"
    case LegacyHeld => "LEGACY_JOURNAL_PERMANENT_HELD"
    case AmbiguousHeld => "AMBIGUOUS_PERMANENT_HELD"
  }

  /** White space as String.IsNullOrWhiteSpace knows it. */
  predicate IsSpace(c: char) {
    var n := c as int;
    || 0x09 <= n <= 0x0D || n == 0x20 || n == 0x85 || n == 0xA0 || n == 0x1680 || 0x2000 <= n <= 0x200A
    || n == 0x2028 || n == 0x2029 || n == 0x202F || n == 0x205F || n == 0x3000
  }

  predicate IsBlank(s: string) { forall i | 0 <= i < |s| :: IsSpace(s[i]) }

  predicate Parses(s: string, limit: nat) { ParseDecimal(s).Some? && ParseDecimal(s).value < limit }

  const LIMIT31: nat := 0x8000_0000
  const LIMIT63: nat := 0x8000_0000_0000_0000

  /** Why a frame that does not fit is refused: its operation, its fields or its payload. */
  function SchemaRefusal(f: Frame): string {
    var schema := SchemaOf(f.operation);
    if schema.None? then "OPERATION_UNIMPLEMENTED"
    else if f.fields.Keys != schema.value.ids then "FIELD_SCHEMA_" + Decimal(f.operation)
    else "PAYLOAD_CAP_" + Decimal(f.operation)
  }

  datatype Objection =
    | BadNonce | BadIdentity | OtherCreation | OtherAnchor | BadToken | OtherSession | BadRoot

  function ObjectionName(o: Objection): string {
    match o
    case BadNonce => "SESSION_NONCE"
    case BadIdentity => "CAPABILITY_FRAME_IDENTITY"
    case OtherCreation => "CONTROLLER_CREATION_IDENTITY_CHANGED"
    case OtherAnchor => "CAPABILITY_FRAME_JOURNAL_ANCHOR"
    case BadToken => "CAPABILITY_TOKEN"
    case OtherSession => "SESSION_NONCE_MISMATCH"
    case BadRoot => "ROOT_ID"
  }

  /** The message of an InvalidDataException. */
  function Invalid(reason: string): string { "InvalidDataException:" + reason }

  /** The checks of ProcessRequest before anything is written, in its order. */
  function GateFor(core: Core, f: Frame): Gate {
    if !FitsSchema(f) then Shut("", "UNKNOWN", Invalid(SchemaRefusal(f)))
    else
      SchemaCoversSession(f);
      var session, name := f.fields[1], OperationName(f.operation);
      if !IsHex(session, 32) then Shut(session, "UNKNOWN", Invalid(ObjectionName(BadNonce)))
      else if !IsHex(f.fields[17], 64) || !Parses(f.fields[18], LIMIT31) || ParseDecimal(f.fields[18]).value != core.controllerPid
              || IsBlank(f.fields[19]) || !Parses(f.fields[20], LIMIT63)
      then Shut(session, name, Invalid(ObjectionName(BadIdentity)))
      else if f.fields[19] != core.creation then Shut(session, name, Invalid(ObjectionName(OtherCreation)))
      else if f.operation != HELLO && !(ParseDecimal(f.fields[20]).value == core.memory.count && f.fields[21] == core.memory.lastHash)
      then Shut(session, name, Invalid(ObjectionName(OtherAnchor)))
      else if f.operation !in {HELLO, SHUTDOWN, RECOVER_SESSION} && f.fields[22] != core.capability
      then Shut(session, name, Invalid(ObjectionName(BadToken)))
      else if session != core.session then Shut(session, name, Invalid(ObjectionName(OtherSession)))
      else if core.crashHeld && IsMutation(f.operation) then Shut(session, name, Invalid(HoldName(core.hold)))
      else if IsMutation(f.operation) && 2 in f.fields && !RootKnown(f.fields[2]) then Shut(session, name, Invalid(ObjectionName(BadRoot)))
      else Open
  }

  /** What the system answered when asked for an identity or a harmless operation. */
  type Answer<T> = Result<T, string>

  /** Any other frame ends the request loop: it is out of sequence, or its operation has no name. */
  predicate IsExpected(core: Core, f: Frame) { f.sequence == core.nextSequence && 1 <= f.operation <= 24 }

  function Deny(core: Core, ref: Ref, operation: nat, session: string, name: string, message: string): Core {
    core.(stage := Answered(ref, operation, "", "", FailedWith(core, session, ref, name, message), false))
  }

  /** A request arrives: it is refused, its intent is written, the session is recovered, or a harmless operation runs. */
  function Receive(codec: Codec, core: Core, f: Frame, request: string, identity: Answer<string>, result: Answer<Values>): Core {
    var ref, name := RefOf(f, request), OperationName(f.operation);
    if !core.stage.Idle? then core
    else if !IsExpected(core, f) then core.(stage := Stopped)
    else
      match GateFor(core, f)
      case Shut(session, operation, message) => Deny(core, ref, f.operation, session, operation, message)
      case Open =>
        if IsMutation(f.operation) then
          match identity
          case Err(message) => Deny(core, ref, f.operation, core.session, name, message)
          case Ok(before) =>
            AppendState(codec, core, Intent, ref, f.operation, before, before, "", core.session)
            .(stage := Executing(ref, f.operation, before))
        else if f.operation == RECOVER_SESSION then
          var (recovered, outcome) := Recover(codec, core, FieldOr(f, 24, ""), identity);
          match outcome
          case Err(message) => Deny(core, ref, f.operation, core.session, name, message)
          case Ok(o) =>
            recovered.(stage := Answered(ref, f.operation, "", "", Passed(recovered, ref, f.operation, OutcomeValues(core.memory, o)), false))
        else
          match result
          case Err(message) => Deny(core, ref, f.operation, core.session, name, message)
          case Ok(values) => core.(stage := Answered(ref, f.operation, "", "", Passed(core, ref, f.operation, values), false))
  }

  // ---------------------------------------------------------------- the effect and its response

  /** The job of a finished process is closed durably, once, before the response is written. */
  function CloseJob(codec: Codec, core: Core, after: string, receipt: string): Core {
    match core.stage
    case Executing(ref, operation, before) =>
      if (operation == 15 || operation == 16) && core.memory.state == Last(Intent) then AppendState(codec, core, JobClosed, ref, operation, before, after, receipt, core.session)
      else core
    case _ => core
  }

  /** The operation succeeded: its response is in the journal before anyone sees it. */
  function Finish(codec: Codec, core: Core, after: string, values: Values): Core {
    match core.stage
    case Executing(ref, operation, before) =>
      var response := Passed(core, ref, operation, values);
      AppendState(codec, core, Applied, ref, operation, before, after, response, core.session)
      .(stage := Answered(ref, operation, before, after, response, true))
    case _ => core
  }

  /** The operation threw after its intent was written. */
  function Fail(codec: Codec, core: Core, after: string, message: string): Core {
    match core.stage
    case Executing(ref, operation, before) =>
      var response := FailedWith(core, core.session, ref, OperationName(operation), message);
      AppendState(codec, core, Failed, ref, operation, before, after, response, core.session)
      .(crashHeld := true, hold := FailedHeld, stage := Answered(ref, operation, before, after, response, false))
    case _ => core
  }

  /** The controller acknowledged the digest of the response. */
  function Acknowledge(codec: Codec, core: Core): Core {
    match core.stage
    case Answered(ref, operation, before, after, _, commit) =>
      var acked := if commit then AppendState(codec, core, Acked, ref, operation, before, after, "", core.session) else core;
      acked.(nextSequence := core.nextSequence + 1, stage := if operation == SHUTDOWN then Stopped else Idle)
    case _ => core
  }

  /** The controller exited before acknowledging a mutation. */
  function Abandon(codec: Codec, core: Core): Core {
    match core.stage
    case Answered(ref, operation, before, after, _, commit) =>
      if commit then
        AppendState(codec, core, Permanent, ref, operation, before, after, "", core.session)
        .(crashHeld := true, hold := JournalHeld, stage := Stopped)
      else core.(stage := Stopped)
    case _ => core.(stage := Stopped)
  }

  // ---------------------------------------------------------------- recovery

  datatype Outcome =
    | VerifiedCommitted | VerifiedAppliedUnacked | VerifiedNotApplied
    | LegacyHeldOutcome | JournalHeldOutcome | AmbiguousOutcome

  function OutcomeName(o: Outcome): string {
    match o
    case VerifiedCommitted => "VERIFIED_COMMITTED"
    case VerifiedAppliedUnacked => "VERIFIED_APPLIED_UNACKED"
    case VerifiedNotApplied => "VERIFIED_NOT_APPLIED"
    case LegacyHeldOutcome => "LEGACY_JOURNAL_PERMANENT_HELD"
    case JournalHeldOutcome => "JOURNAL_PERMANENT_HELD"
    case AmbiguousOutcome => "AMBIGUOUS_PERMANENT_HELD"
  }

  /** The two replaying outcomes hand over the remembered response and its request. */
  function OutcomeValues(memory: Memory, o: Outcome): Values {
    [("outcome", OutcomeName(o))]
    + (if o == VerifiedCommitted || o == VerifiedAppliedUnacked then
         [("replayResponseBase64", memory.response64), ("replayResponseSha256", memory.digest),
          ("replaySessionNonce", memory.nonce), ("replaySequence", Decimal(memory.sequence)),
          ("replayOperation", memory.operation), ("replayRequestSha256", memory.request)]
       else [])
  }

  predicate RecoveryBound(core: Core, text: string) {
    var parts := Split(text, '|');
    && |parts| == 5
    && parts[0] in {"BUILD_TRANSACTION_FAILED", "OBSERVATION_TRANSACTION_FAILED", "NATIVE_TRANSACTION_FAILED"}
    && IsHex(parts[1], 64) && parts[2] == core.creation && Parses(parts[3], LIMIT63)
    && ParseDecimal(parts[3]).value == core.memory.count && parts[4] == core.memory.lastHash && parts[1] == core.memory.request
  }

  /** Why a recovery is refused: the wrong number of parts, or a part that does not fit. */
  function RecoveryRefusal(text: string): string {
    Invalid(if |Split(text, '|')| != 5 then "RECOVERY_RECORD_SCHEMA" else "RECOVERY_RECORD_BINDING")
  }

  /** The acknowledgement written by recovery, for the request as the journal remembers it. */
  function RecoveredRecord(codec: Codec, memory: Memory): Record {
    RecordFor(codec, Acked, RecoveredRef(memory), memory.operation, memory.before, memory.after,
              OrEmpty(codec.unbase64(memory.response64)), memory.nonce)
  }

  function RecoveredRef(memory: Memory): Ref {
    Ref(memory.sequence, LowerHex(memory.request), memory.root, if memory.root != "SESSION" then memory.path else "", memory.other)
  }

  predicate ResponseIntact(codec: Codec, memory: Memory) {
    && memory.response64 != "" && codec.unbase64(memory.response64).Some?
    && codec.digest(codec.unbase64(memory.response64).value) == memory.digest
  }

  /**
   What became of the last journaled request, judged by its journal state and by
   the present identity of its target. Nothing is executed.
   */
  function Recover(codec: Codec, core: Core, text: string, current: Answer<string>): (Core, Result<Outcome, string>) {
    var memory := core.memory;
    if !RecoveryBound(core, text) then (core, Err(RecoveryRefusal(text)))
    else if core.hold == LegacyHeld then (core.(crashHeld := true), Ok(LegacyHeldOutcome))
    else if core.hold == JournalHeld || core.hold == OrphanedHeld || memory.state == Last(Permanent) then
      (core.(crashHeld := true, hold := if core.hold == OrphanedHeld then OrphanedHeld else JournalHeld), Ok(JournalHeldOutcome))
    else if memory.state == Last(Acked) then (core, Ok(VerifiedCommitted))
    else
      match current
      case Err(message) => (core, Err(message))
      case Ok(identity) =>
        if memory.state == Last(Applied) && identity == memory.after && ResponseIntact(codec, memory) then
          (Append(codec, core, RecoveredRecord(codec, memory)).(crashHeld := false, hold := Closed), Ok(VerifiedAppliedUnacked))
        else if (memory.state == Last(Intent) || memory.state == Last(Failed)) && identity == memory.before then
          (core.(crashHeld := false, hold := Closed), Ok(VerifiedNotApplied))
        else (core.(crashHeld := true, hold := AmbiguousHeld), Ok(AmbiguousOutcome))
  }

  /** A broker process that opens the journal. */
  function Start(codec: Codec, trust: Trust, created: bool, journal: string, session: string, controllerPid: nat,
                 creation: string, capability: string): Core {
    var l := Load(codec, trust, created, journal);
    Core(journal, l.memory, l.crashHeld, l.hold, session, 1, controllerPid, creation, capability, Idle)
  }

  /** What an executed operation came to. */
  datatype Effect =
    | Succeeded(after: string, receipt: Option<string>, values: Values)
    | Threw(recaptured: Option<string>, message: string)

  /** The identity after the operation: the one before it, until it is captured again. */
  function PendingIdentity(core: Core, recaptured: Option<string>): string {
    if recaptured.Some? then recaptured.value else if core.stage.Executing? then core.stage.before else ""
  }

  /** A whole request: what arrives, and for a mutation what came of it. */
  function Processed(codec: Codec, core: Core, f: Frame, request: string, identity: Answer<string>, result: Answer<Values>,
                     effect: Effect): Core {
    var received := Receive(codec, core, f, request, identity, result);
    if !core.stage.Idle? || !received.stage.Executing? then received
    else
      match effect
      case Threw(recaptured, message) => Fail(codec, received, PendingIdentity(received, recaptured), message)
      case Succeeded(after, receipt, values) =>
        var closed := if receipt.Some? then CloseJob(codec, received, after, receipt.value) else received;
        Finish(codec, closed, after, values)
  }

  // ---------------------------------------------------------------- the broker itself

  /** The broker's fields; those about the last record are kept together in `memory`. */
  class NativeBroker {
    var journal: string
    var memory: Memory
    var crashHeld: bool
    var holdState: Hold
    var nextSequence: nat
    var stage: Stage
    const sessionNonce: string
    const controllerPid: nat
    const creation: string
    const capability: string

    function View(): Core
      reads this
    {
      Core(journal, memory, crashHeld, holdState, sessionNonce, nextSequence, controllerPid, creation, capability, stage)
    }

    constructor (session: string, pid: nat, controllerCreation: string, token: string)
      ensures View() == Core("", INITIAL_MEMORY, false, Closed, session, 1, pid, controllerCreation, token, Idle)
    {
      journal, memory, crashHeld, holdState, nextSequence, stage := "", INITIAL_MEMORY, false, Closed, 1, Idle;
      sessionNonce, controllerPid, creation, capability := session, pid, controllerCreation, token;
    }

    /** One line at the end of the journal, and the memory of it. */
    method AppendJournal(codec: Codec, state: JournalState, ref: Ref, operation: string, before: string, after: string,
                         response: string, nonce: string)
      requires Sound(codec)
      modifies this`journal, this`memory
      ensures View() == Append(codec, old(View()),
                               RecordFor(codec, state, ref, operation, before, after,
                                         ResponseFor(codec, old(memory), state, response), nonce))
    {
      hide StateName, Decimal, Size, Join, Remember, Line, Hash, Zeros;
      var exactResponse := response;
      if response == "" && state == Acked && memory.response64 != "" {
        exactResponse := OrEmpty(codec.unbase64(memory.response64));
      }
      var responseDigest := if exactResponse == "" then Zeros(64) else codec.digest(exactResponse);
      var responseBase64 := if exactResponse == "" then "" else codec.base64(exactResponse);
      var fields := ["J2", StateName(state), Decimal(ref.sequence), nonce, operation, ref.request, ref.root, codec.base64(ref.path),
                     codec.base64(ref.other), before, after, responseDigest, Decimal(Size(exactResponse)), responseBase64, memory.lastHash];
      var hash := codec.digest(Join(fields, '|'));
      var line := Join(fields + [hash], '|') + "\n";
      ghost var r := RecordFor(codec, state, ref, operation, before, after, exactResponse, nonce);
      WritesTheRecord(codec, r, memory.lastHash, fields);
      RemembersWhatItWrites(codec, memory, r, state, ref, hash);
      journal := journal + line;
      memory := Memory(hash, memory.count + 1, Last(state), ref.request, nonce, operation, ref.sequence, ref.root, ref.path, ref.other,
                       before, after, responseDigest, responseBase64);
      hide Sound;
      assert View() == Append(codec, old(View()), r) by { assert old(journal) + line == old(journal) + Line(codec, r, old(memory.lastHash)) + "\n"; }
    }

    /** Line by line, as far as the lines check out. */
    method LoadJournal(codec: Codec, trust: Trust, created: bool, text: string) returns (failure: Option<Refusal>)
      modifies this`journal, this`memory, this`crashHeld, this`holdState
      ensures journal == text && Loaded(memory, crashHeld, holdState, failure) == Load(codec, trust, created, text)
    {
      hide CheckLine, Lines, HoldAfter, Zeros, IsHex, StartsWith, Size;
      journal, memory, crashHeld, holdState := text, INITIAL_MEMORY, false, Closed;
      if !IsHex(trust.digest, 64) {
        failure := Refuse(trust, PrefixArgument);
        return;
      }
      if Size(text) > JOURNAL_CAP {
        failure := Refuse(trust, Journal(ByteBound));
        return;
      }
      if text != "" && text[|text| - 1] != '\n' {
        failure := Refuse(trust, Journal(JournalTruncated));
        return;
      }
      if text != "" && !StartsWith(text, "J2|") {
        crashHeld, holdState, memory := true, LegacyHeld, memory.(state := Legacy);
        return None;
      }
      var lines := Lines(text);
      var cursor := InitialCursor(trust);
      var i := 0;
      while i < |lines|
        invariant 0 <= i <= |lines|
        invariant ScanLines(codec, trust, lines[..i]) == Scan(cursor, None) && memory == cursor.memory
        invariant journal == text && !crashHeld && holdState == Closed
      {
        var scan := CheckLine(codec, trust, cursor, lines[i]);
        ScanOneMore(codec, trust, lines, i);
        if scan.error.Some? {
          ScanStops(codec, trust, lines, i + 1);
          ErrorKeepsCursor(codec, trust, cursor, lines[i]);
          failure := Refuse(trust, Journal(scan.error.value));
          return;
        }
        cursor := scan.cursor;
        memory := cursor.memory;
        i := i + 1;
      }
      assert lines[..i] == lines;
      if trust.anchored && (!cursor.prefixVerified || trust.confirmed > memory.count) {
        failure := Refuse(trust, Journal(JournalPrefixMissing));
        return;
      }
      holdState := HoldAfter(trust, created, memory.state);
      crashHeld := holdState != Closed;
      return None;
    }

    /** The caller of a failed load holds the broker and drops its anchor. */
    method Refuse(trust: Trust, refusal: Refusal) returns (failure: Option<Refusal>)
      modifies this`memory, this`crashHeld, this`holdState
      ensures Loaded(memory, crashHeld, holdState, failure) == Refused(trust, old(memory), refusal)
    {
      crashHeld := true;
      holdState := if trust.anchored then JournalHeld else OrphanedHeld;
      memory := memory.(lastHash := Zeros(64), count := 0);
      return Some(refusal);
    }

    method RecoverSession(codec: Codec, text: string, current: Answer<string>) returns (outcome: Result<Outcome, string>)
      requires Sound(codec)
      modifies this
      ensures (View(), outcome) == Recover(codec, old(View()), text, current)
    {
      if !RecoveryBound(View(), text) {
        return Err(RecoveryRefusal(text));
      }
      if holdState == LegacyHeld {
        crashHeld := true;
        return Ok(LegacyHeldOutcome);
      }
      if holdState == JournalHeld || holdState == OrphanedHeld || memory.state == Last(Permanent) {
        crashHeld := true;
        if holdState != OrphanedHeld { holdState := JournalHeld; }
        return Ok(JournalHeldOutcome);
      }
      if memory.state == Last(Acked) {
        return Ok(VerifiedCommitted);
      }
      if current.Err? {
        return Err(current.error);
      }
      if memory.state == Last(Applied) && current.value == memory.after && ResponseIntact(codec, memory) {
        var response := codec.unbase64(memory.response64).value;
        RepeatsItsResponse(codec, memory);
        AppendJournal(codec, Acked, RecoveredRef(memory), memory.operation, memory.before, memory.after, response,
                      memory.nonce);
        crashHeld, holdState := false, Closed;
        return Ok(VerifiedAppliedUnacked);
      }
      if (memory.state == Last(Intent) || memory.state == Last(Failed)) && current.value == memory.before {
        crashHeld, holdState := false, Closed;
        return Ok(VerifiedNotApplied);
      }
      crashHeld, holdState := true, AmbiguousHeld;
      return Ok(AmbiguousOutcome);
    }

    /** The request loop's body up to the response. */
    method ProcessRequest(codec: Codec, f: Frame, request: string, identity: Answer<string>, result: Answer<Values>, effect: Effect)
      requires Sound(codec) && stage.Idle?
      modifies this
      ensures View() == Processed(codec, old(View()), f, request, identity, result, effect)
    {
      hide FailedWith, Passed, GateFor, OperationName, RecordFor, Line, Hash, Remember, Recover, OutcomeValues, Fail, Finish, CloseJob,
           Append, FieldOr, RefOf;
      var ref, name := RefOf(f, request), OperationName(f.operation);
      if f.sequence != nextSequence || f.operation == 0 || f.operation > 24 {
        stage := Stopped;
        return;
      }
      var gate := GateFor(View(), f);
      if gate.Shut? {
        stage := Answered(ref, f.operation, "", "", FailedWith(View(), gate.session, ref, gate.operation, gate.message), false);
        return;
      }
      if IsMutation(f.operation) {
        if identity.Err? {
          stage := Answered(ref, f.operation, "", "", FailedWith(View(), sessionNonce, ref, name, identity.error), false);
          return;
        }
        AppendJournal(codec, Intent, ref, name, identity.value, identity.value, "", sessionNonce);
        stage := Executing(ref, f.operation, identity.value);
        CompleteMutation(codec, effect);
      } else if f.operation == RECOVER_SESSION {
        var before := memory;
        var outcome := RecoverSession(codec, FieldOr(f, 24, ""), identity);
        if outcome.Err? {
          RefusedRecovery(codec, old(View()), FieldOr(f, 24, ""), identity);
          stage := Answered(ref, f.operation, "", "", FailedWith(View(), sessionNonce, ref, name, outcome.error), false);
        } else {
          stage := Answered(ref, f.operation, "", "", Passed(View(), ref, f.operation, OutcomeValues(before, outcome.value)), false);
        }
      } else if result.Err? {
        stage := Answered(ref, f.operation, "", "", FailedWith(View(), sessionNonce, ref, name, result.error), false);
      } else {
        stage := Answered(ref, f.operation, "", "", Passed(View(), ref, f.operation, result.value), false);
      }
    }

    /** The effect is journaled together with the response, before the response is sent. */
    method CompleteMutation(codec: Codec, effect: Effect)
      requires Sound(codec) && stage.Executing?
      modifies this
      ensures View() == match effect
        case Threw(recaptured, message) => Fail(codec, old(View()), PendingIdentity(old(View()), recaptured), message)
        case Succeeded(after, receipt, values) =>
          Finish(codec, if receipt.Some? then CloseJob(codec, old(View()), after, receipt.value) else old(View()), after, values)
    {
      hide OperationName, RecordFor, Passed, FailedWith, Sound, Line, Hash, Remember;
      var ref, operation, before := stage.ref, stage.operation, stage.before;
      var name := OperationName(operation);
      match effect
      case Threw(recaptured, message) =>
        var after := if recaptured.Some? then recaptured.value else before;
        var response := FailedWith(View(), sessionNonce, ref, name, message);
        AppendJournal(codec, Failed, ref, name, before, after, response, sessionNonce);
        crashHeld, holdState := true, FailedHeld;
        stage := Answered(ref, operation, before, after, response, false);
      case Succeeded(after, receipt, values) =>
        if receipt.Some? && (operation == 15 || operation == 16) && memory.state == Last(Intent) {
          AppendJournal(codec, JobClosed, ref, name, before, after, receipt.value, sessionNonce);
        }
        var response := Passed(View(), ref, operation, values);
        AppendJournal(codec, Applied, ref, name, before, after, response, sessionNonce);
        stage := Answered(ref, operation, before, after, response, true);
    }

    /** The acknowledged response is committed, and the next sequence opens. */
    method AcknowledgePending(codec: Codec)
      requires Sound(codec) && stage.Answered?
      modifies this
      ensures View() == Acknowledge(codec, old(View()))
    {
      var operation := stage.operation;
      if stage.commit {
        AppendJournal(codec, Acked, stage.ref, OperationName(operation), stage.before, stage.after, "", sessionNonce);
      }
      nextSequence := nextSequence + 1;
      stage := if operation == SHUTDOWN then Stopped else Idle;
    }
  }

  // ---------------------------------------------------------------- facts the class uses

  lemma RemembersWhatItWrites(codec: Codec, memory: Memory, r: Record, state: JournalState, ref: Ref, hash: string)
    requires Sound(codec) && r.state == StateName(state) && r.sequence == Decimal(ref.sequence)
    requires r.path64 == codec.base64(ref.path) && r.other64 == codec.base64(ref.other)
    ensures Remember(codec, memory, r, hash)
         == Memory(hash, memory.count + 1, Last(state), r.request, r.nonce, r.operation, ref.sequence, r.root, ref.path, ref.other,
                   r.before, r.after, r.digest, r.response64)
  {
    StatesAreNamed(state);
    ParseOfDecimal(ref.sequence);
    hide StateName, StateNamed, Decimal, ParseDecimal;
  }

  lemma WritesTheRecord(codec: Codec, r: Record, previous: string, fields: seq<string>)
    requires |fields| == 15 && fields == Fields(r, previous, "")[..15]
    ensures var hash := codec.digest(Join(fields, '|'));
      hash == Hash(codec, r, previous) && Join(fields + [hash], '|') == Line(codec, r, previous)
  {
    var hash := codec.digest(Join(fields, '|'));
    assert fields + [hash] == Fields(r, previous, hash);
  }

  lemma ErrorKeepsCursor(codec: Codec, trust: Trust, cursor: Cursor, line: string)
    ensures var scan := CheckLine(codec, trust, cursor, line); scan.error.Some? ==> scan.cursor == cursor
  {
    hide RecordError, TransitionError, Remember, RequestIdentity, Join, Split, IsHex;
  }

  lemma ScanOneMore(codec: Codec, trust: Trust, lines: seq<string>, i: nat)
    requires i < |lines|
    ensures var scan := ScanLines(codec, trust, lines[..i]);
      ScanLines(codec, trust, lines[..i + 1]) == if scan.error.Some? then scan else CheckLine(codec, trust, scan.cursor, lines[i])
  {
    assert lines[..i + 1][..i] == lines[..i];
  }

  /** A scan that has stopped stays where it stopped. */
  lemma {:induction false} ScanStops(codec: Codec, trust: Trust, lines: seq<string>, i: nat)
    requires i <= |lines| && ScanLines(codec, trust, lines[..i]).error.Some?
    ensures ScanLines(codec, trust, lines) == ScanLines(codec, trust, lines[..i])
    decreases |lines| - i
  {
    if i == |lines| { assert lines[..i] == lines; }
    else {
      ScanOneMore(codec, trust, lines, i);
      ScanStops(codec, trust, lines, i + 1);
    }
  }

  lemma RepeatsItsResponse(codec: Codec, memory: Memory)
    requires ResponseIntact(codec, memory)
    ensures ResponseFor(codec, memory, Acked, codec.unbase64(memory.response64).value) == OrEmpty(codec.unbase64(memory.response64))
  {
  }

  lemma RefusedRecovery(codec: Codec, core: Core, text: string, current: Answer<string>)
    requires Recover(codec, core, text, current).1.Err?
    ensures Recover(codec, core, text, current).0 == core
  {
    hide RecoveryBound, Append, RecoveredRecord, ResponseIntact;
  }
}
