/**
 Which requests the broker lets through, told from the fields of the frame and of
 the broker, and what becomes of every other one
 (scripts/r4b-evidence/windows-native-boundary.cs, ValidateOperationSchema and
 ProcessRequest).
 */
module JournalGate {
  import opened Basics
  import opened BrokerFrame
  import opened JournalText
  import opened JournalResponse
  import opened Journal
  import opened JournalLoader
  import opened JournalBroker
  import opened JournalRuns
  import opened JournalSafety
  import opened JournalPast

  // ---------------------------------------------------------------- schemas, field by field

  /** The operations that name a path. */
  const PATH_OPERATIONS: set<nat> := {2, 3, 4, 5, 6, 7, 8, 9, 10, 11, 19, 22, 23}

  /** Which operations carry a field: the schema read by columns. */
  function CarriersOf(id: nat): set<nat> {
    match id
    case 2 => PATH_OPERATIONS
    case 3 => PATH_OPERATIONS
    case 4 => {8}
    case 5 => {2, 3, 4, 10, 11}
    case 6 => {4, 10}
    case 7 => {4, 10}
    case 8 => {4, 10}
    case 9 => {4, 10}
    case 10 => {2, 3, 10}
    case 11 => {7, 8, 9, 23}
    case 12 => {7, 8, 9, 23}
    case 13 => {19}
    case 14 => {13}
    case 15 => {13}
    case 16 => {10}
    case 22 => {2, 3, 4, 5, 6, 7, 8, 9, 10, 11, 12, 13, 14, 15, 16, 17, 18, 19, 22, 23, 24}
    case 23 => {12, 13, 14, 15, 16, 17, 18}
    case 24 => {21}
    case _ => {}
  }

  predicate Carries(operation: nat, id: nat) { id in {1, 17, 18, 19, 20, 21} || operation in CarriersOf(id) }

  lemma ReadSchemas(id: nat)
    ensures forall operation | 1 <= operation <= 8 :: SchemaOf(operation).Some? && (id in SchemaOf(operation).value.ids <==> Carries(operation, id))
  {
  }

  lemma WriteSchemas(id: nat)
    ensures forall operation | 9 <= operation <= 16 :: SchemaOf(operation).Some? && (id in SchemaOf(operation).value.ids <==> Carries(operation, id))
  {
  }

  lemma SpeechSchemas(id: nat)
    ensures forall operation | 17 <= operation <= 20 :: SchemaOf(operation).Some? && (id in SchemaOf(operation).value.ids <==> Carries(operation, id))
  {
  }

  lemma LastSchemas(id: nat)
    ensures forall operation | 21 <= operation <= 24 :: SchemaOf(operation).Some? && (id in SchemaOf(operation).value.ids <==> Carries(operation, id))
  {
  }

  lemma SchemaByField(operation: nat, id: nat)
    requires 1 <= operation <= 24
    ensures SchemaOf(operation).Some? && (id in SchemaOf(operation).value.ids <==> Carries(operation, id))
  {
    hide SchemaOf, Carries, CarriersOf;
    ReadSchemas(id);
    WriteSchemas(id);
    SpeechSchemas(id);
    LastSchemas(id);
  }

  /**
   A frame fits exactly when its operation is one of the twenty-four, it has each
   field that the operation carries and no other, and only a write, an append or a
   replacement has a payload, of at most 64 MiB.
   */
  lemma FitsIff(f: Frame)
    ensures FitsSchema(f) <==>
      && 1 <= f.operation <= 24 && (forall id: nat :: id in f.fields <==> Carries(f.operation, id))
      && |f.payload| <= (if f.operation in {6, 7, 23} then 64 * 1024 * 1024 else 0)
  {
    PayloadCaps(f.operation);
    hide SchemaOf, Carries;
    if 1 <= f.operation <= 24 {
      forall id: nat ensures SchemaOf(f.operation).Some? && (id in SchemaOf(f.operation).value.ids <==> Carries(f.operation, id)) {
        SchemaByField(f.operation, id);
      }
    }
  }

  lemma PayloadCaps(operation: nat)
    ensures SchemaOf(operation).Some? <==> 1 <= operation <= 24
    ensures SchemaOf(operation).Some? ==> SchemaOf(operation).value.payloadCap == if operation in {6, 7, 23} then 64 * 1024 * 1024 else 0
  {
  }

  // ---------------------------------------------------------------- names

  const NAMES: seq<string> :=
    ["", "HELLO", "READ_BOUNDED", "HASH_BOUNDED", "INVENTORY_TREE", "CREATE_DIRECTORY", "WRITE_NEW", "APPEND_DURABLE",
     "RENAME_EXCLUSIVE", "UNLINK_EXACT", "REMOVE_TREE_EXACT", "PIN_FILE", "UNPIN_FILE", "JOB_CREATE_SUSPENDED", "JOB_RESUME",
     "JOB_STATUS", "JOB_TERMINATE", "NVDA_START_WITH_HANDLES", "NVDA_STOP", "TEST_SYNCHRONIZED_SWAP", "SHUTDOWN",
     "RECOVER_SESSION", "TEST_CRASH_AFTER_INTENT", "REPLACE_EXISTING_EXACT", "TEST_POST_ACK_JOURNAL_FAILURE"]

  /** The operations that the source names as mutations. */
  predicate IsMutatingName(name: string) {
    || name == "CREATE_DIRECTORY" || name == "WRITE_NEW" || name == "APPEND_DURABLE" || name == "RENAME_EXCLUSIVE"
    || name == "UNLINK_EXACT" || name == "REMOVE_TREE_EXACT" || name == "UNPIN_FILE" || name == "JOB_CREATE_SUSPENDED"
    || name == "JOB_RESUME" || name == "JOB_STATUS" || name == "JOB_TERMINATE" || name == "NVDA_START_WITH_HANDLES"
    || name == "NVDA_STOP" || name == "TEST_CRASH_AFTER_INTENT" || name == "REPLACE_EXISTING_EXACT"
    || name == "TEST_POST_ACK_JOURNAL_FAILURE"
  }

  lemma NamesInOrder(operation: nat)
    requires 1 <= operation <= 24
    ensures OperationName(operation) == NAMES[operation]
  {
  }

  /** What is journaled and held back is exactly what the source names. */
  lemma MutationsByName(operation: nat)
    requires 1 <= operation <= 24
    ensures IsMutation(operation) <==> IsMutatingName(OperationName(operation))
  {
    if !IsMutation(operation) {
      hide IsMutation;
      if operation in {1, 2, 3, 4} { ReadsAreNoMutations(operation); } else { OthersAreNoMutations(operation); }
    }
  }

  lemma ReadsAreNoMutations(operation: nat)
    requires operation in {1, 2, 3, 4}
    ensures !IsMutatingName(OperationName(operation))
  {
    assert "READ_BOUNDED"[0] == 'R' && "HASH_BOUNDED"[0] == 'H' && "UNLINK_EXACT"[0] == 'U';
    assert "INVENTORY_TREE"[0] == 'I' && "APPEND_DURABLE"[0] == 'A';
  }

  lemma OthersAreNoMutations(operation: nat)
    requires operation in {11, 19, 20, 21}
    ensures !IsMutatingName(OperationName(operation))
  {
    assert "TEST_SYNCHRONIZED_SWAP"[0] == 'T' && "REPLACE_EXISTING_EXACT"[0] == 'R';
  }

  lemma RootsByName(root: string)
    ensures RootKnown(root) <==>
      || root == "FROZEN_REPOSITORY_READ" || root == "RUNTIME_CONTROL_ROOT" || root == "ATTEMPT_ROOT" || root == "RAW_ROOT"
      || root == "NVDA_RAW_ROOT" || root == "NVDA_CONFIG_ROOT" || root == "NVDA_PORTABLE_ROOT" || root == "BUILD_OUTPUT_ROOT"
      || root == "BUILD_TEMP_ROOT" || root == "TOOLS_READ" || root == "DOWNLOADS_READ" || root == "TEST_ROOT"
  {
  }

  // ---------------------------------------------------------------- admission

  /** The frame speaks for this controller, in this session, over this journal. */
  predicate SpeaksForController(core: Core, f: Frame) {
    && 1 in f.fields && IsHex(f.fields[1], 32) && f.fields[1] == core.session
    && 17 in f.fields && IsHex(f.fields[17], 64)
    && 18 in f.fields && ParseDecimal(f.fields[18]) == Some(core.controllerPid) && core.controllerPid < 0x8000_0000
    && 19 in f.fields && f.fields[19] == core.creation && !IsBlank(core.creation)
    && 20 in f.fields && ParseDecimal(f.fields[20]).Some? && ParseDecimal(f.fields[20]).value < 0x8000_0000_0000_0000
  }

  /** It knows the end of the journal. */
  predicate KnowsJournal(core: Core, f: Frame) {
    && 20 in f.fields && ParseDecimal(f.fields[20]) == Some(core.memory.count)
    && 21 in f.fields && f.fields[21] == core.memory.lastHash
  }

  predicate HasCapability(core: Core, f: Frame) { 22 in f.fields && f.fields[22] == core.capability }

  /**
   Only HELLO may be ignorant of the journal, only HELLO, SHUTDOWN and
   RECOVER_SESSION may lack the capability, and a mutation needs a broker that is
   not held and, if it names a root, a known one.
   */
  predicate Admits(core: Core, f: Frame) {
    && FitsSchema(f) && SpeaksForController(core, f)
    && (f.operation != 1 ==> KnowsJournal(core, f))
    && (f.operation != 1 && f.operation != 20 && f.operation != 21 ==> HasCapability(core, f))
    && (IsMutatingName(OperationName(f.operation)) ==> !core.crashHeld && (2 in f.fields ==> RootKnown(f.fields[2])))
  }

  lemma OpensIff(core: Core, f: Frame)
    ensures GateFor(core, f) == Open <==> Admits(core, f)
  {
    if FitsSchema(f) {
      FitsIff(f);
      SchemaCoversSession(f);
      MutationsByName(f.operation);
    }
    hide FitsSchema, OperationName, IsMutation, IsMutatingName, IsHex, ParseDecimal, IsBlank, HoldName, RootKnown, SchemaRefusal, Carries;
  }

  /** What a mutation needs besides: all of it, with nothing said about any other operation. */
  predicate MayMutate(core: Core, f: Frame) {
    && FitsSchema(f) && IsMutatingName(OperationName(f.operation)) && SpeaksForController(core, f)
    && KnowsJournal(core, f) && HasCapability(core, f)
    && !core.crashHeld && (2 in f.fields ==> RootKnown(f.fields[2]))
  }

  lemma MutationsNeedAll(core: Core, f: Frame)
    requires FitsSchema(f)
    ensures IsMutation(f.operation) <==> IsMutatingName(OperationName(f.operation))
    ensures Admits(core, f) && IsMutation(f.operation) <==> MayMutate(core, f)
    ensures 1 <= f.operation <= 24
  {
    FitsIff(f);
    MutationsByName(f.operation);
    hide FitsSchema, OperationName, IsMutatingName, RootKnown, SpeaksForController, KnowsJournal, HasCapability, Carries;
  }

  /**
   A request at the expected sequence number, to an idle broker that can capture the
   target's identity, begins a mutation exactly when it may.
   */
  lemma BeginsIff(codec: Codec, core: Core, f: Frame, request: string, identity: Answer<string>, result: Answer<Values>)
    requires core.stage.Idle?
    ensures var core' := Receive(codec, core, f, request, identity, result);
      core'.stage.Executing? <==> f.sequence == core.nextSequence && MayMutate(core, f) && identity.Ok?
  {
    OpensIff(core, f);
    if FitsSchema(f) { MutationsNeedAll(core, f); }
    hide GateFor, Admits, MayMutate, FitsSchema, OperationName, AppendState, Recover, FailedWith, Passed, RefOf, OutcomeValues;
  }

  /** The answer to a request that goes no further. */
  predicate AnsweredWith(core: Core, core': Core, response: string) {
    && core'.stage.Answered? && core'.stage.response == response && !core'.stage.commit
    && core' == core.(stage := core'.stage)
  }

  /** The text of a refusal: FAIL, why, and where the journal stands. */
  function RefusalText(core: Core, f: Frame, request: string, session: string, operation: string, reason: string): string {
    Response(session, Decimal(f.sequence), operation, request, "FAIL", reason,
             [("journalBeforeResponseSha256", core.memory.lastHash), ("journalBeforeResponseSequence", Decimal(core.memory.count))])
  }

  /** What was wrong with a refused frame: the reason names something that is. */
  ghost predicate Explains(core: Core, f: Frame, session: string, operation: string, reason: string) {
    || (reason == Invalid("FIELD_SCHEMA_" + Decimal(f.operation)) && exists id: nat :: (id in f.fields) != Carries(f.operation, id))
    || (reason == Invalid("PAYLOAD_CAP_" + Decimal(f.operation))
        && |f.payload| > if f.operation in {6, 7, 23} then 64 * 1024 * 1024 else 0)
    || (1 in f.fields && session == f.fields[1] && Names(core, f, operation, reason))
  }

  ghost predicate Names(core: Core, f: Frame, operation: string, reason: string) {
    || (exists o: Objection :: reason == Invalid(ObjectionName(o)) && IsObjectionable(core, f, o)
          && operation == if o.BadNonce? then "UNKNOWN" else OperationName(f.operation))
    || (reason == Invalid(HoldName(core.hold)) && core.crashHeld && IsMutatingName(OperationName(f.operation))
        && operation == OperationName(f.operation))
  }

  predicate IsObjectionable(core: Core, f: Frame, o: Objection) {
    match o
    case BadNonce => 1 in f.fields && !IsHex(f.fields[1], 32)
    case BadIdentity => !IsWellFormed(core, f)
    case OtherCreation => 19 in f.fields && f.fields[19] != core.creation
    case OtherAnchor => f.operation != 1 && !KnowsJournal(core, f)
    case BadToken => f.operation != 1 && f.operation != 20 && f.operation != 21 && !HasCapability(core, f)
    case OtherSession => 1 in f.fields && f.fields[1] != core.session
    case BadRoot => IsMutatingName(OperationName(f.operation)) && 2 in f.fields && !RootKnown(f.fields[2])
  }

  /** The words of the refusals. */
  lemma ObjectionsByName()
    ensures Invalid("") == "InvalidDataException:"
    ensures ObjectionName(BadNonce) == "SESSION_NONCE" && ObjectionName(BadIdentity) == "CAPABILITY_FRAME_IDENTITY"
    ensures ObjectionName(OtherCreation) == "CONTROLLER_CREATION_IDENTITY_CHANGED"
    ensures ObjectionName(OtherAnchor) == "CAPABILITY_FRAME_JOURNAL_ANCHOR" && ObjectionName(BadToken) == "CAPABILITY_TOKEN"
    ensures ObjectionName(OtherSession) == "SESSION_NONCE_MISMATCH" && ObjectionName(BadRoot) == "ROOT_ID"
  {
  }

  lemma HoldsByName()
    ensures HoldName(Closed) == "CLOSED" && HoldName(FailedHeld) == "FAILED_HELD" && HoldName(JournalHeld) == "JOURNAL_PERMANENT_HELD"
    ensures HoldName(OrphanedHeld) == "ORPHANED_PERMANENT_HELD" && HoldName(LegacyHeld) == "LEGACY_JOURNAL_PERMANENT_HELD"
    ensures HoldName(AmbiguousHeld) == "AMBIGUOUS_PERMANENT_HELD"
  {
  }

  /** Key, controller, creation identity and journal position can be read, and the controller is this one. */
  predicate IsWellFormed(core: Core, f: Frame) {
    && 17 in f.fields && IsHex(f.fields[17], 64)
    && 18 in f.fields && ParseDecimal(f.fields[18]) == Some(core.controllerPid) && core.controllerPid < 0x8000_0000
    && 19 in f.fields && !IsBlank(f.fields[19])
    && 20 in f.fields && ParseDecimal(f.fields[20]).Some? && ParseDecimal(f.fields[20]).value < 0x8000_0000_0000_0000
  }

  lemma SchemaIsExplained(core: Core, f: Frame)
    requires !FitsSchema(f) && 1 <= f.operation <= 24
    ensures Explains(core, f, "", "UNKNOWN", Invalid(SchemaRefusal(f)))
  {
    hide OperationName, Carries, Names, Decimal, Invalid;
    PayloadCaps(f.operation);
    var ids := SchemaOf(f.operation).value.ids;
    hide SchemaOf;
    if f.fields.Keys != ids {
      var id: nat :| (id in f.fields) != (id in ids);
      SchemaByField(f.operation, id);
    }
  }

  /** The first objection to a frame that fits; with none before it, a root is left. */
  ghost function Objected(core: Core, f: Frame): Objection
    requires FitsSchema(f)
  {
    SchemaCoversSession(f);
    if !IsHex(f.fields[1], 32) then BadNonce
    else if !IsWellFormed(core, f) then BadIdentity
    else if f.fields[19] != core.creation then OtherCreation
    else if f.operation != 1 && !KnowsJournal(core, f) then OtherAnchor
    else if f.operation != 1 && f.operation != 20 && f.operation != 21 && !HasCapability(core, f) then BadToken
    else if f.fields[1] != core.session then OtherSession
    else BadRoot
  }

  lemma GateObjects(core: Core, f: Frame)
    requires FitsSchema(f) && GateFor(core, f).Shut?
    ensures 1 in f.fields
    ensures var (gate, o) := (GateFor(core, f), Objected(core, f));
      || (gate == Shut(f.fields[1], OperationName(f.operation), Invalid(HoldName(core.hold))) && core.crashHeld && IsMutation(f.operation))
      || (gate == Shut(f.fields[1], if o.BadNonce? then "UNKNOWN" else OperationName(f.operation), Invalid(ObjectionName(o)))
          && (o.BadRoot? ==> IsMutation(f.operation) && 2 in f.fields && !RootKnown(f.fields[2])))
  {
    SchemaCoversSession(f);
    hide FitsSchema, OperationName, ObjectionName, IsMutation, IsHex, ParseDecimal, IsBlank, HoldName, RootKnown, SchemaRefusal, Invalid;
  }

  lemma GateExplains(core: Core, f: Frame)
    requires GateFor(core, f).Shut? && 1 <= f.operation <= 24
    ensures Explains(core, f, GateFor(core, f).session, GateFor(core, f).operation, GateFor(core, f).message)
  {
    if !FitsSchema(f) {
      SchemaIsExplained(core, f);
      hide FitsSchema, SchemaRefusal, Explains;
    } else {
      FitsIff(f);
      SchemaCoversSession(f);
      MutationsByName(f.operation);
      GateObjects(core, f);
      hide GateFor, FitsSchema, OperationName, ObjectionName, IsMutation, IsMutatingName, IsHex, IsWellFormed, HoldName, RootKnown, Carries, Invalid, Decimal;
      assert Names(core, f, GateFor(core, f).operation, GateFor(core, f).message) by {
        assert IsObjectionable(core, f, Objected(core, f)) || (core.crashHeld && IsMutation(f.operation));
      }
    }
  }

  /**
   Any other request leaves journal, memory and hold alone. Out of sequence, or with
   an operation that has no name, it stops the broker; refused it is answered with
   FAIL and a reason that holds of it.
   */
  lemma RefusedIsAnsweredFail(codec: Codec, core: Core, f: Frame, request: string, identity: Answer<string>, result: Answer<Values>)
    requires core.stage.Idle?
    ensures f.sequence != core.nextSequence || !(1 <= f.operation <= 24) ==>
      Receive(codec, core, f, request, identity, result) == core.(stage := Stopped)
    ensures f.sequence == core.nextSequence && 1 <= f.operation <= 24 && !Admits(core, f) ==>
      exists session, operation, reason ::
        && AnsweredWith(core, Receive(codec, core, f, request, identity, result), RefusalText(core, f, request, session, operation, reason))
        && Explains(core, f, session, operation, reason)
  {
    hide GateFor, Admits, Response, Explains, AnsweredWith, RefusalText, Receive;
    if f.sequence != core.nextSequence || !(1 <= f.operation <= 24) {
      UnexpectedStops(codec, core, f, request, identity, result);
    } else if !Admits(core, f) {
      OpensIff(core, f);
      GateExplains(core, f);
      ShutIsAnswered(codec, core, f, request, identity, result);
    }
  }

  lemma UnexpectedStops(codec: Codec, core: Core, f: Frame, request: string, identity: Answer<string>, result: Answer<Values>)
    requires core.stage.Idle? && (f.sequence != core.nextSequence || !(1 <= f.operation <= 24))
    ensures Receive(codec, core, f, request, identity, result) == core.(stage := Stopped)
  {
    hide GateFor, OperationName, RefOf;
  }

  lemma ShutIsAnswered(codec: Codec, core: Core, f: Frame, request: string, identity: Answer<string>, result: Answer<Values>)
    requires core.stage.Idle? && f.sequence == core.nextSequence && 1 <= f.operation <= 24 && GateFor(core, f) != Open
    ensures var gate := GateFor(core, f);
      AnsweredWith(core, Receive(codec, core, f, request, identity, result), RefusalText(core, f, request, gate.session, gate.operation, gate.message))
  {
    hide GateFor, Response, OperationName, Decimal, FieldOr;
  }

  /** An admitted mutation whose target cannot be captured fails with the reason of that. */
  lemma UncapturedIsAnsweredFail(codec: Codec, core: Core, f: Frame, request: string, identity: Answer<string>, result: Answer<Values>)
    requires core.stage.Idle? && f.sequence == core.nextSequence && MayMutate(core, f) && identity.Err?
    ensures AnsweredWith(core, Receive(codec, core, f, request, identity, result),
                         RefusalText(core, f, request, core.session, OperationName(f.operation), identity.error))
  {
    OpensIff(core, f);
    MutationsNeedAll(core, f);
    hide GateFor, Admits, MayMutate, FitsSchema, Response, OperationName, Decimal, RefOf;
  }

  /** An admitted request that changes nothing answers PASS with what the system said, or FAIL with its reason. */
  lemma HarmlessIsAnswered(codec: Codec, core: Core, f: Frame, request: string, identity: Answer<string>, result: Answer<Values>)
    requires core.stage.Idle? && f.sequence == core.nextSequence && Admits(core, f)
    requires f.operation != 21 && !IsMutatingName(OperationName(f.operation))
    ensures AnsweredWith(core, Receive(codec, core, f, request, identity, result),
      match result
      case Err(reason) => RefusalText(core, f, request, core.session, OperationName(f.operation), reason)
      case Ok(values) =>
        Response(core.session, Decimal(f.sequence), OperationName(f.operation), request, "PASS", "",
                 values + [("journalBeforeResponseSha256", core.memory.lastHash), ("journalBeforeResponseSequence", Decimal(core.memory.count))]))
  {
    OpensIff(core, f);
    MutationsNeedAll(core, f);
    hide GateFor, Admits, FitsSchema, Response, OperationName, Decimal, RefOf, IsMutatingName;
  }

  // ---------------------------------------------------------------- over runs

  /** In a run a step begins a mutation exactly when its request may, and nothing else does. */
  lemma StartsIff(codec: Codec, s: Sys, a: Action)
    ensures Starts(s, a, Step(codec, s, a)) <==>
      && a.Request? && s.broker.Some? && s.broker.value.stage.Idle? && Plausible(codec, s.broker.value, a)
      && a.frame.sequence == s.broker.value.nextSequence && MayMutate(s.broker.value, a.frame)
      && IdentityFor(codec, s, s.broker.value, a.frame, a.digest, a.volatile).Ok?
  {
    hide MayMutate, Receive, IdentityFor, Plausible;
    if a.Request? && s.broker.Some? && s.broker.value.stage.Idle? {
      BeginsIff(codec, s.broker.value, a.frame, a.digest, IdentityFor(codec, s, s.broker.value, a.frame, a.digest, a.volatile), a.result);
    }
  }
}
