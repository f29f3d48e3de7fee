/**
 The broker, the files it works on and its journal over whole runs: requests,
 effects, acknowledgements, crashes between any two steps, and restarts.

 `records` of the journal are not part of the state: the invariant says which
 records the journal text holds.
 */
module JournalRuns {
  import opened Basics
  import opened BrokerFrame
  import opened JournalText
  import opened JournalResponse
  import opened Journal
  import opened JournalLoader
  import opened JournalBroker

  // ---------------------------------------------------------------- identities

  type Path = (string, string)
  type World = map<Path, string>

  /** An identity is ABSENT or a digest. */
  predicate IsIdentity(s: string) { s == "ABSENT" || IsHex(s, 64) }

  predicate IsFileOperation(name: string) {
    name == "CREATE_DIRECTORY" || name == "WRITE_NEW" || name == "APPEND_DURABLE" || name == "RENAME_EXCLUSIVE"
    || name == "UNLINK_EXACT" || name == "REPLACE_EXISTING_EXACT" || name == "TEST_CRASH_AFTER_INTENT"
  }

  function PathIdentity(world: World, root: string, path: string): string {
    if (root, path) in world && IsHex(world[(root, path)], 64) then world[(root, path)] else "ABSENT"
  }

  function RenameText(source: string, destination: string): string {
    "RENAME_EXCLUSIVE" + "|" + ("SOURCE=" + source) + "|" + ("DESTINATION=" + destination)
  }

  function FileIdentity(codec: Codec, world: World, name: string, root: string, path: string, other: string): string {
    if name == "RENAME_EXCLUSIVE" then codec.digest(RenameText(PathIdentity(world, root, path), PathIdentity(world, root, other)))
    else PathIdentity(world, root, path)
  }

  /** The target's identity: of files from the world, of jobs and leases from the broker process. */
  function Capture(codec: Codec, world: World, name: string, root: string, path: string, other: string,
                   volatile: Answer<string>): Answer<string> {
    if IsFileOperation(name) then Ok(FileIdentity(codec, world, name, root, path, other))
    else if volatile.Ok? && !IsIdentity(volatile.value) then Err("IDENTITY")
    else volatile
  }

  /** Recovery captures the target of the request that the journal remembers. */
  function CaptureLast(codec: Codec, world: World, memory: Memory, volatile: Answer<string>): Answer<string> {
    if memory.operation == "RENAME_EXCLUSIVE" && memory.other == "" then Err("InvalidDataException:FIELD_REQUIRED_4")
    else Capture(codec, world, memory.operation, memory.root, memory.path, memory.other, volatile)
  }

  // ---------------------------------------------------------------- steps

  /** The controller's anchor is the count and hash it last used or was told. */
  datatype Sys = Sys(journal: string, world: World, broker: Option<Core>, used: set<string>, confirmed: nat, confirmedHash: string,
                     abandoned: bool)

  datatype Action =
    | Request(frame: Frame, digest: string, volatile: Answer<string>, result: Answer<Values>)
    | Mutate(root: string, path: string, identity: string)
    | Disturb(root: string, path: string, identity: string)
    | JobIsClosed(after: string, receipt: string)
    | Succeed(after: string, values: Values)
    | Throw(recaptured: Option<string>, message: string)
    | Ack
    | ControllerGone
    | Crash
    | Restart(anchored: bool, created: bool, session: string, controllerPid: nat, creation: string, capability: string)

  predicate IsTracking(core: Core) { core.hold == Closed || core.hold == FailedHeld || core.hold == AmbiguousHeld }

  function With(s: Sys, core: Core): Sys { s.(broker := Some(core), journal := core.journal) }

  function IdentityFor(codec: Codec, s: Sys, core: Core, f: Frame, digest: string, volatile: Answer<string>): Answer<string> {
    var ref := RefOf(f, digest);
    if f.operation == RECOVER_SESSION then CaptureLast(codec, s.world, core.memory, volatile)
    else Capture(codec, s.world, OperationName(f.operation), ref.root, ref.path, ref.other, volatile)
  }

  function RequestStep(codec: Codec, s: Sys, core: Core, f: Frame, digest: string, volatile: Answer<string>, result: Answer<Values>): Sys {
    var core' := Receive(codec, core, f, digest, IdentityFor(codec, s, core, f, digest, volatile), result);
    var began := core.stage.Idle? && core'.stage.Executing?;
    With(s, core').(confirmed := if began then core.memory.count else s.confirmed,
                    confirmedHash := if began then core.memory.lastHash else s.confirmedHash,
                    abandoned := s.abandoned || (began && core.memory.state == Last(Intent)))
  }

  function AfterIdentity(codec: Codec, s: Sys, core: Core, volatile: string): string {
    match core.stage
    case Executing(ref, operation, before) =>
      var answer := Capture(codec, s.world, OperationName(operation), ref.root, ref.path, ref.other, Ok(volatile));
      if answer.Ok? then answer.value else before
    case _ => volatile
  }

  /** An operation that throws leaves the identity it began with, unless it was captured again before. */
  function ThrownIdentity(codec: Codec, s: Sys, core: Core, recaptured: Option<string>): string {
    if recaptured.Some? then AfterIdentity(codec, s, core, recaptured.value)
    else if core.stage.Executing? then core.stage.before
    else ""
  }

  function AckStep(codec: Codec, s: Sys, core: Core): Sys {
    var core' := Acknowledge(codec, core);
    if core.stage.Answered? && IsTracking(core) then
      With(s, core').(confirmed := core'.memory.count, confirmedHash := core'.memory.lastHash)
    else With(s, core')
  }

  function Change(world: World, root: string, path: string, identity: string): World {
    if IsHex(identity, 64) then world[(root, path) := identity] else world - {(root, path)}
  }

  /** A request comes from the frame parser; responses are shorter than 2^64 bytes; receipts come from the job. */
  predicate Plausible(codec: Codec, core: Core, a: Action) {
    match a
    case Request(f, digest, _, _) => WithinBounds(f) && IsHex(digest, 64) && LowerHex(digest) == digest
    case JobIsClosed(_, receipt) => codec.receiptOk(receipt) && Size(receipt) < LIMIT64
    case Succeed(_, values) =>
      && core.stage.Executing? && (forall i | 0 <= i < |values| :: IsWord(values[i].0) && values[i].0 !in RESERVED)
      && Size(Passed(core, core.stage.ref, core.stage.operation, values)) < LIMIT64
    case Throw(_, message) =>
      core.stage.Executing?
      && Size(FailedWith(core, core.session, core.stage.ref, OperationName(core.stage.operation), message)) < LIMIT64
    case _ => true
  }

  function BrokerStep(codec: Codec, s: Sys, core: Core, a: Action): Sys {
    match a
    case Request(f, digest, volatile, result) => RequestStep(codec, s, core, f, digest, volatile, result)
    case Mutate(root, path, identity) =>
      if core.stage.Executing? then s.(world := Change(s.world, root, path, identity)) else s
    case JobIsClosed(volatile, receipt) => With(s, CloseJob(codec, core, AfterIdentity(codec, s, core, volatile), receipt))
    case Succeed(volatile, values) => With(s, Finish(codec, core, AfterIdentity(codec, s, core, volatile), values))
    case Throw(recaptured, message) => With(s, Fail(codec, core, ThrownIdentity(codec, s, core, recaptured), message))
    case Ack => AckStep(codec, s, core)
    case ControllerGone => With(s, Abandon(codec, core))
    case Crash => s.(broker := None)
    case _ => s
  }

  function Step(codec: Codec, s: Sys, a: Action): Sys {
    match a
    case Disturb(root, path, identity) => s.(world := Change(s.world, root, path, identity))
    case Restart(anchored, created, session, controllerPid, creation, capability) =>
      if s.broker.Some? || session in s.used || !IsHex(session, 32) || (created && (anchored || s.journal != "")) then s
      else
        var trust := Trust(anchored, if anchored then s.confirmed else 0, if anchored then s.confirmedHash else Zeros(64));
        s.(broker := Some(Start(codec, trust, created, s.journal, session, controllerPid, creation, capability)),
           used := s.used + {session})
    case _ => if s.broker.Some? && Plausible(codec, s.broker.value, a) then BrokerStep(codec, s, s.broker.value, a) else s
  }

  function Run(codec: Codec, s: Sys, actions: seq<Action>): Sys
    decreases |actions|
  {
    if actions == [] then s else Step(codec, Run(codec, s, actions[..|actions| - 1]), actions[|actions| - 1])
  }

  function Initial(world: World): Sys { Sys("", world, None, {}, 0, Zeros(64), false) }

  // ---------------------------------------------------------------- the invariant

  predicate RefOk(ref: Ref) {
    && ref.sequence < LIMIT64 && IsHex(ref.request, 64) && LowerHex(ref.request) == ref.request
    && Plain(ref.root) && (ref.root == "SESSION" ==> ref.path == "")
  }

  /** The record belongs to the request that the broker has in hand. */
  ghost predicate InHand(codec: Codec, core: Core, r: Record, ref: Ref, operation: nat, before: string) {
    && RefOk(ref) && IsMutation(operation) && IsIdentity(before) && ref.sequence == core.nextSequence
    && r.before == before && RequestIdentity(r) == RequestIdentity(MakeRecord(codec, Intent, ref, operation, before, before, "", core.session))
  }

  ghost predicate StageOk(codec: Codec, core: Core, rs: seq<Record>) {
    match core.stage
    case Idle => rs != [] && rs[|rs| - 1].nonce == core.session ==> SequenceBelow(rs[|rs| - 1], core.nextSequence)
    case Executing(ref, operation, before) =>
      && !core.crashHeld && rs != [] && InHand(codec, core, rs[|rs| - 1], ref, operation, before)
      && (StateNamed(rs[|rs| - 1].state) == Some(Intent) || StateNamed(rs[|rs| - 1].state) == Some(JobClosed))
    case Answered(ref, operation, before, after, response, commit) =>
      && (rs != [] && rs[|rs| - 1].nonce == core.session ==> SequenceBelow(rs[|rs| - 1], core.nextSequence + 1))
      && (commit ==>
            && !core.crashHeld && rs != [] && InHand(codec, core, rs[|rs| - 1], ref, operation, before)
            && IsIdentity(after) && response != "" && Size(response) < LIMIT64
            && AnswersRequest(response, core.session, Decimal(ref.sequence), OperationName(operation), ref.request)
            && rs[|rs| - 1] == MakeRecord(codec, Applied, ref, operation, before, after, response, core.session))
    case Stopped => true
  }

  ghost predicate SequenceBelow(r: Record, bound: nat) {
    exists k: nat :: k < bound && r.sequence == Decimal(k)
  }

  ghost predicate CoreOk(codec: Codec, core: Core, rs: seq<Record>) {
    && IsHex(core.session, 32)
    && (IsTracking(core) ==> core.memory == MemoryOf(codec, rs))
    && (core.crashHeld <==> core.hold != Closed)
    && (!core.crashHeld && (core.stage.Idle? || (core.stage.Answered? && !core.stage.commit)) ==>
          core.memory.state == Empty || core.memory.state == Last(Acked) || core.memory.state == Last(Failed) || core.memory.state == Last(Intent))
    && StageOk(codec, core, rs)
  }

  ghost predicate AnchorOk(codec: Codec, s: Sys, rs: seq<Record>) {
    && s.confirmed <= |rs| && s.confirmedHash == HashOf(codec, rs[..s.confirmed]) && OneRequest(rs[s.confirmed..])
    && (s.broker.Some? && (s.broker.value.stage.Executing? || (s.broker.value.stage.Answered? && s.broker.value.stage.commit)) ==>
          s.confirmed < |rs|)
  }

  /** Every record checks out by itself, comes from a known session and is in written form. */
  ghost predicate RecordOk(codec: Codec, used: set<string>, r: Record) {
    && RecordError(codec, r).None? && PlainRecord(r) && r.nonce in used && IsIdentity(r.before)
    && LowerHex(r.request) == r.request && (r.root == "SESSION" ==> codec.unbase64(r.path64) == Some(""))
  }

  ghost predicate RecordsOk(codec: Codec, used: set<string>, rs: seq<Record>) {
    forall i | 0 <= i < |rs| :: RecordOk(codec, used, rs[i])
  }

  ghost predicate Invariant(codec: Codec, s: Sys, rs: seq<Record>) {
    && s.journal == ChainText(codec, rs) && (s.abandoned <==> !Legal(codec, rs))
    && RecordsOk(codec, s.used, rs) && AnchorOk(codec, s, rs)
    && (s.broker.Some? ==>
          s.broker.value.journal == s.journal && s.broker.value.session in s.used && CoreOk(codec, s.broker.value, rs))
  }

  // ---------------------------------------------------------------- facts about made records

  lemma {:induction false} DecimalIsWord(n: nat)
    ensures IsWord(Decimal(n))
  {
    if n >= 10 { DecimalIsWord(n / 10); }
  }

  lemma HexIsWord(s: string, n: nat)
    requires IsHex(s, n)
    ensures IsWord(s)
  {
  }

  lemma WordIsPlain(s: string)
    requires IsWord(s)
    ensures Plain(s)
  {
  }

  lemma OperationIsWord(operation: nat)
    ensures IsWord(OperationName(operation))
  {
    hide OperationName;
    if operation <= 3 { FirstOperationIsWord(operation); }
    else if operation <= 6 { LowOperationIsWord(operation); }
    else if operation <= 12 { MiddleOperationIsWord(operation); }
    else if operation <= 15 { HighOperationIsWord(operation); }
    else if operation <= 18 { JobOperationIsWord(operation); }
    else if operation <= 21 { SessionOperationIsWord(operation); }
    else if operation <= 23 { TestOperationIsWord(operation); }
    else { LastOperationIsWord(operation); }
  }

  lemma FirstOperationIsWord(operation: nat)
    requires operation <= 3
    ensures IsWord(OperationName(operation))
  {
  }

  lemma LowOperationIsWord(operation: nat)
    requires 3 < operation <= 6
    ensures IsWord(OperationName(operation))
  {
  }

  lemma MiddleOperationIsWord(operation: nat)
    requires 6 < operation <= 12
    ensures IsWord(OperationName(operation))
  {
  }

  lemma HighOperationIsWord(operation: nat)
    requires 12 < operation <= 15
    ensures IsWord(OperationName(operation))
  {
  }

  lemma JobOperationIsWord(operation: nat)
    requires 15 < operation <= 18
    ensures IsWord(OperationName(operation))
  {
  }

  lemma SessionOperationIsWord(operation: nat)
    requires 18 < operation <= 21
    ensures IsWord(OperationName(operation))
  {
  }

  lemma TestOperationIsWord(operation: nat)
    requires 21 < operation <= 23
    ensures IsWord(OperationName(operation))
  {
  }

  lemma LastOperationIsWord(operation: nat)
    requires 23 < operation
    ensures IsWord(OperationName(operation))
  {
  }

  lemma KnownRootIsPlain(root: string)
    requires RootKnown(root)
    ensures Plain(root) && root != "SESSION"
  {
    KnownRootIsNoSession(root);
    if root == "FROZEN_REPOSITORY_READ" {
      RepositoryRootIsWord();
    } else if root in {"RUNTIME_CONTROL_ROOT", "ATTEMPT_ROOT"} {
      FirstRootIsWord(root);
    } else if root in {"TOOLS_READ", "DOWNLOADS_READ", "TEST_ROOT"} {
      ReadRootIsWord(root);
    } else if root in {"RAW_ROOT", "NVDA_RAW_ROOT", "NVDA_CONFIG_ROOT"} {
      RawRootIsWord(root);
    } else {
      LastRootIsWord(root);
    }
    WordIsPlain(root);
  }

  lemma KnownRootIsNoSession(root: string)
    requires RootKnown(root)
    ensures root != "SESSION"
  {
    assert |"SESSION"| == 7;
  }

  lemma RepositoryRootIsWord()
    ensures IsWord("FROZEN_REPOSITORY_READ")
  {
  }

  lemma ReadRootIsWord(root: string)
    requires root in {"TOOLS_READ", "DOWNLOADS_READ", "TEST_ROOT"}
    ensures IsWord(root)
  {
  }

  lemma FirstRootIsWord(root: string)
    requires root in {"RUNTIME_CONTROL_ROOT", "ATTEMPT_ROOT"}
    ensures IsWord(root)
  {
  }

  lemma RawRootIsWord(root: string)
    requires root in {"RAW_ROOT", "NVDA_RAW_ROOT", "NVDA_CONFIG_ROOT"}
    ensures IsWord(root)
  {
  }

  lemma LastRootIsWord(root: string)
    requires root in {"NVDA_PORTABLE_ROOT", "BUILD_OUTPUT_ROOT", "BUILD_TEMP_ROOT"}
    ensures IsWord(root)
  {
  }

  lemma IdentityIsPlain(s: string)
    requires IsIdentity(s)
    ensures Plain(s) && s != ""
  {
    if s == "ABSENT" { assert IsWord(s); } else { HexIsWord(s, 64); }
    WordIsPlain(s);
  }

  lemma ContentDigestIsHex(codec: Codec, response: string)
    requires Sound(codec)
    ensures IsHex(ContentDigest(codec, response), 64)
  {
  }

  /** What a state demands of its response. */
  ghost predicate ResponseFits(codec: Codec, state: JournalState, ref: Ref, operation: nat, response: string, nonce: string) {
    && (response != "" <==> ResponseRequired(state))
    && (state == JobClosed ==> codec.receiptOk(response))
    && (state == Applied || state == Acked || state == Failed ==>
          AnswersRequest(response, nonce, Decimal(ref.sequence), OperationName(operation), ref.request))
  }

  /** The fields of a made record are plain text. */
  lemma MadeIsPlain(codec: Codec, state: JournalState, ref: Ref, operation: nat, before: string, after: string,
                    response: string, nonce: string)
    requires Sound(codec) && RefOk(ref) && IsIdentity(before) && IsIdentity(after) && IsHex(nonce, 32)
    ensures PlainRecord(MakeRecord(codec, state, ref, operation, before, after, response, nonce))
  {
    var r := MakeRecord(codec, state, ref, operation, before, after, response, nonce);
    StateNamesArePlain(state);
    DecimalIsWord(ref.sequence);
    WordIsPlain(Decimal(ref.sequence));
    HexIsPlain(nonce, 32);
    OperationIsWord(operation);
    WordIsPlain(OperationName(operation));
    HexIsPlain(ref.request, 64);
    IdentityIsPlain(before);
    IdentityIsPlain(after);
    ContentDigestIsHex(codec, response);
    HexIsPlain(ContentDigest(codec, response), 64);
    DecimalIsWord(Size(response));
    WordIsPlain(Decimal(Size(response)));
    assert Plain(r.path64) && Plain(r.other64) && Plain(r.response64);
    hide IsIdentity, IsHex, Sound, RefOk, StateName, OperationName, Decimal, Size, ContentDigest, MakeRecord;
    PlainByFields(r);
  }

  lemma PlainByFields(r: Record)
    requires Plain(r.state) && Plain(r.sequence) && Plain(r.nonce) && Plain(r.operation) && Plain(r.request) && Plain(r.root)
    requires Plain(r.path64) && Plain(r.other64) && Plain(r.before) && Plain(r.after)
    requires Plain(r.digest) && Plain(r.length) && Plain(r.response64)
    ensures PlainRecord(r)
  {
    assert Plain("J2") && Plain("");
    hide Plain;
    var fields := Fields(r, "", "");
    assert forall i | 0 <= i < 16 :: Plain(fields[i]);
    PlainIsFree(fields);
  }

  lemma PlainIsFree(fields: seq<string>)
    requires forall i | 0 <= i < |fields| :: Plain(fields[i])
    ensures Free(fields, '|') && Free(fields, '\n')
  {
  }

  /** A made record passes the loader's checks of single records. */
  lemma MadeIsAccepted(codec: Codec, state: JournalState, ref: Ref, operation: nat, before: string, after: string,
                       response: string, nonce: string)
    requires Sound(codec) && RefOk(ref) && IsIdentity(before) && IsIdentity(after) && IsHex(nonce, 32)
    requires Size(response) < LIMIT64 && ResponseFits(codec, state, ref, operation, response, nonce)
    ensures RecordError(codec, MakeRecord(codec, state, ref, operation, before, after, response, nonce)).None?
  {
    var r := MakeRecord(codec, state, ref, operation, before, after, response, nonce);
    MadeFieldsOk(codec, state, ref, operation, before, after, response, nonce);
    StatesAreNamed(state);
    ParseOfDecimal(Size(response));
    MadeDecodes(codec, state, ref, operation, before, after, response, nonce);
    hide FieldsOk, StateName, StateNamed, Sound, AnswersRequest, OperationName, Decimal, ParseDecimal, Size;
  }

  lemma DecimalIsCanonical(n: nat)
    requires n < LIMIT64
    ensures CanonicalDecimal(Decimal(n))
  {
    ParseOfDecimal(n);
  }

  lemma MadeFieldsOk(codec: Codec, state: JournalState, ref: Ref, operation: nat, before: string, after: string,
                     response: string, nonce: string)
    requires Sound(codec) && RefOk(ref) && IsIdentity(before) && IsIdentity(after) && IsHex(nonce, 32) && Size(response) < LIMIT64
    ensures FieldsOk(MakeRecord(codec, state, ref, operation, before, after, response, nonce))
  {
    DecimalIsCanonical(ref.sequence);
    DecimalIsCanonical(Size(response));
    IdentityIsPlain(before);
    IdentityIsPlain(after);
    ContentDigestIsHex(codec, response);
    hide CanonicalDecimal, Decimal, Size, ContentDigest, Sound, StateName, OperationName;
  }

  lemma MadeDecodes(codec: Codec, state: JournalState, ref: Ref, operation: nat, before: string, after: string,
                    response: string, nonce: string)
    requires Sound(codec)
    ensures var r := MakeRecord(codec, state, ref, operation, before, after, response, nonce);
      codec.unbase64(r.path64) == Some(ref.path) && codec.unbase64(r.other64) == Some(ref.other)
      && codec.unbase64(r.response64) == Some(response)
  {
  }

  /** The record of a request in hand is fit to be journaled. */
  lemma MadeIsOk(codec: Codec, used: set<string>, state: JournalState, ref: Ref, operation: nat, before: string, after: string,
                 response: string, nonce: string)
    requires Sound(codec) && RefOk(ref) && IsIdentity(before) && IsIdentity(after) && IsHex(nonce, 32) && nonce in used
    requires Size(response) < LIMIT64 && ResponseFits(codec, state, ref, operation, response, nonce)
    ensures RecordOk(codec, used, MakeRecord(codec, state, ref, operation, before, after, response, nonce))
  {
    MadeIsPlain(codec, state, ref, operation, before, after, response, nonce);
    MadeIsAccepted(codec, state, ref, operation, before, after, response, nonce);
    MadeDecodes(codec, state, ref, operation, before, after, response, nonce);
    hide PlainRecord, RecordError, Sound, IsIdentity, IsHex, ResponseFits, Size;
  }

  /** The identity of a request is that of its session, sequence and target, whatever the state. */
  lemma MadeIdentity(codec: Codec, state: JournalState, state': JournalState, ref: Ref, operation: nat, before: string,
                     after: string, response: string, before': string, after': string, response': string, nonce: string)
    ensures RequestIdentity(MakeRecord(codec, state, ref, operation, before, after, response, nonce))
         == RequestIdentity(MakeRecord(codec, state', ref, operation, before', after', response', nonce))
  {
  }

  /** Equal request identities mean equal sessions and sequences. */
  lemma IdentityBinds(a: Record, b: Record)
    requires PlainRecord(a) && PlainRecord(b) && RequestIdentity(a) == RequestIdentity(b)
    ensures a.sequence == b.sequence && a.nonce == b.nonce
  {
    IdentityPartsFree(a);
    IdentityPartsFree(b);
    var pa, pb := IdentityParts(a), IdentityParts(b);
    JoinIsInjective(pa, pb, '|');
    assert pa[0] == pb[0] && pa[1] == pb[1];
  }

  function IdentityParts(r: Record): seq<string> {
    [r.sequence, r.nonce, r.operation, r.request, r.root, r.path64, r.other64]
  }

  lemma IdentityPartsFree(r: Record)
    requires PlainRecord(r)
    ensures Free(IdentityParts(r), '|') && RequestIdentity(r) == Join(IdentityParts(r), '|')
  {
    var parts := IdentityParts(r);
    var fields := Fields(r, "", "");
    forall i | 0 <= i < |parts| ensures '|' !in parts[i] { assert parts[i] == fields[i + 2]; }
  }

  // ---------------------------------------------------------------- appending

  lemma AppendTracks(codec: Codec, core: Core, rs: seq<Record>, r: Record)
    requires core.journal == ChainText(codec, rs) && core.memory == MemoryOf(codec, rs)
    ensures Append(codec, core, r).journal == ChainText(codec, rs + [r])
    ensures Append(codec, core, r).memory == MemoryOf(codec, rs + [r])
  {
    MemoryBasics(codec, rs);
    ChainGrows(codec, rs, r);
    hide ChainText, MemoryOf, HashOf, Line, Hash, Remember;
  }

  lemma MemoryState(codec: Codec, rs: seq<Record>)
    requires rs != [] ==> StateNamed(rs[|rs| - 1].state).Some?
    ensures MemoryOf(codec, rs).state == if rs == [] then Empty else Last(StateNamed(rs[|rs| - 1].state).value)
  {
  }

  lemma StateIsNamed(codec: Codec, r: Record)
    requires RecordError(codec, r).None?
    ensures StateNamed(r.state).Some?
  {
  }

  lemma MadeState(codec: Codec, state: JournalState, ref: Ref, operation: nat, before: string, after: string,
                  response: string, nonce: string)
    ensures StateNamed(MakeRecord(codec, state, ref, operation, before, after, response, nonce).state) == Some(state)
  {
    StatesAreNamed(state);
  }

  /** A record of the request in hand may follow the last one. */
  lemma SameRequestNext(codec: Codec, rs: seq<Record>, r: Record, last: JournalState, next: JournalState)
    requires rs != [] && RequestIdentity(r) == RequestIdentity(rs[|rs| - 1]) && StateNamed(rs[|rs| - 1].state) == Some(last)
    requires StateNamed(r.state) == Some(next) && Follows(last, next) && next != Acked
    ensures NextOk(rs, r)
  {
  }

  lemma AnchorGrows(codec: Codec, s: Sys, s': Sys, rs: seq<Record>, r: Record)
    requires AnchorOk(codec, s, rs) && s'.confirmed == s.confirmed && s'.confirmedHash == s.confirmedHash
    requires s.confirmed < |rs| ==> RequestIdentity(r) == RequestIdentity(rs[|rs| - 1])
    ensures AnchorOk(codec, s', rs + [r])
  {
    var k, all := s.confirmed, rs + [r];
    assert all[..k] == rs[..k] && all[k..] == rs[k..] + [r];
    if k < |rs| {
      assert rs[k..][|rs| - 1 - k] == rs[|rs| - 1] && rs[k..][0] == rs[k];
    }
    OneRequestGrows(rs[k..], r);
  }

  /** The anchor moves up to the whole journal. */
  lemma AnchorMoves(codec: Codec, s: Sys, rs: seq<Record>)
    requires s.confirmed == |rs| && s.confirmedHash == HashOf(codec, rs)
    requires s.broker.Some? ==> !s.broker.value.stage.Executing? && !(s.broker.value.stage.Answered? && s.broker.value.stage.commit)
    ensures AnchorOk(codec, s, rs)
  {
    assert rs[..|rs|] == rs && rs[|rs|..] == [];
  }

  lemma RecordsGrow(codec: Codec, used: set<string>, rs: seq<Record>, r: Record)
    requires RecordsOk(codec, used, rs) && RecordOk(codec, used, r)
    ensures RecordsOk(codec, used, rs + [r])
  {
  }

  lemma ResponseTextFits(core: Core, ref: Ref, operation: nat, status: string, message: string, values: Values)
    requires IsHex(core.session, 32) && RefOk(ref) && (status == "PASS" || status == "FAIL")
    requires forall i | 0 <= i < |values| :: IsWord(values[i].0) && values[i].0 !in RESERVED
    ensures var text := Response(core.session, Decimal(ref.sequence), OperationName(operation), ref.request, status, message,
                                 values + Anchor(core));
      AnswersRequest(text, core.session, Decimal(ref.sequence), OperationName(operation), ref.request) && text != ""
  {
    HexIsWord(core.session, 32);
    HexIsWord(ref.request, 64);
    DecimalIsWord(ref.sequence);
    OperationIsWord(operation);
    AnchorKeysAreFree(core, values);
    hide IsWord, IsHex, OperationName, Decimal, RefOk, Anchor;
    ResponseAnswersItsRequest(core.session, Decimal(ref.sequence), OperationName(operation), ref.request, status, message,
                              values + Anchor(core));
    hide AnswersRequest;
    assert Render(AllItems(core.session, Decimal(ref.sequence), OperationName(operation), ref.request, status, message,
                           values + Anchor(core))) != "";
  }

  lemma AnchorKeysAreFree(core: Core, values: Values)
    requires forall i | 0 <= i < |values| :: IsWord(values[i].0) && values[i].0 !in RESERVED
    ensures FreeKeys(values + Anchor(core))
  {
    assert IsWord("journalBeforeResponseSha256") && IsWord("journalBeforeResponseSequence");
    var all := values + Anchor(core);
    forall i | 0 <= i < |all| ensures IsWord(all[i].0) && all[i].0 !in RESERVED {
      if i >= |values| { assert all[i] == Anchor(core)[i - |values|]; }
    }
  }
  // ---------------------------------------------------------------- every step

  /** The broker moves on without touching journal, memory or hold. */
  lemma KeepCore(codec: Codec, s: Sys, s': Sys, rs: seq<Record>)
    requires Invariant(codec, s, rs) && s'.journal == s.journal && s'.abandoned == s.abandoned && s'.used == s.used
    requires AnchorOk(codec, s', rs)
    requires s'.broker.Some? ==>
      s'.broker.value.journal == s'.journal && s'.broker.value.session in s'.used && CoreOk(codec, s'.broker.value, rs)
    ensures Invariant(codec, s', rs)
  {
  }

  /** The broker appended a record that fits. */
  lemma GrowCore(codec: Codec, s: Sys, s': Sys, rs: seq<Record>, r: Record)
    requires Invariant(codec, s, rs) && s'.used == s.used && s'.broker.Some?
    requires s'.journal == s'.broker.value.journal == ChainText(codec, rs + [r])
    requires RecordOk(codec, s.used, r) && AnchorOk(codec, s', rs + [r])
    requires s'.abandoned <==> s.abandoned || !NextOk(rs, r)
    requires s'.broker.value.session in s'.used && CoreOk(codec, s'.broker.value, rs + [r])
    ensures Invariant(codec, s', rs + [r])
  {
    hide CoreOk, AnchorOk, NextOk, PlainRecord, ChainText, Legal, RecordError, RecordsOk;
    if Legal(codec, rs) { LegalGrows(codec, rs, r); }
    else if Legal(codec, rs + [r]) { LegalBefore(codec, rs, r); }
    assert RecordError(codec, r).None? && PlainRecord(r);
    RecordsGrow(codec, s.used, rs, r);
  }
}
