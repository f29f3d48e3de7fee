/**
 A run that exists: a mutation is journaled, its broker crashes, the recovery says
 VERIFIED_NOT_APPLIED, and the next mutation makes the journal unloadable. It
 shows that what the theorems of `JournalTheorems` and `JournalCrashes` assume
 does happen.
 */
module JournalWitness {
  import opened Basics
  import opened BrokerFrame
  import opened JournalText
  import opened Journal
  import opened JournalLoader
  import opened JournalBroker
  import opened JournalRuns
  import opened JournalSafety
  import opened JournalPast
  import opened JournalTheorems
  import opened JournalCrashes
  import Utf8

  // ---------------------------------------------------------------- sizes

  lemma {:induction false} EncodingIsShort(s: string)
    ensures |Utf8.Encode(s)| <= 4 * |s|
  {
    if s != "" { EncodingIsShort(s[1..]); }
  }

  /** A header of short fields with ids up to 24 is short. */
  lemma {:induction false} HeaderIsShort(fields: map<nat, string>, p: nat, bound: nat)
    requires forall id | id in fields :: id <= 24 && |fields[id]| <= bound
    ensures |EncodeFields(fields, p)| <= (if p < 24 then 24 - p else 0) * (6 + 4 * bound)
    decreases LAST_ID - p
  {
    if p < LAST_ID {
      HeaderIsShort(fields, p + 1, bound);
      if p + 1 in fields { EncodingIsShort(fields[p + 1]); }
      if p < 24 { assert (24 - p) * (6 + 4 * bound) == (24 - (p + 1)) * (6 + 4 * bound) + (6 + 4 * bound); }
    }
  }

  lemma FrameIsShort(f: Frame)
    requires f.sequence < 10 && f.operation < 100 && f.payload == []
    requires forall id | id in f.fields :: 0 < id <= 24 && |f.fields[id]| <= 400
    ensures WithinBounds(f)
  {
    HeaderIsShort(f.fields, 0, 400);
  }

  lemma {:induction false} JoinIsShort(parts: seq<string>, bound: nat)
    requires |parts| >= 1 && forall i | 0 <= i < |parts| :: |parts[i]| <= bound
    ensures |Join(parts, '|')| <= |parts| * (bound + 1)
  {
    if |parts| > 1 {
      JoinIsShort(parts[1..], bound);
      assert |parts| * (bound + 1) == |parts[1..]| * (bound + 1) + (bound + 1);
    }
  }

  // ---------------------------------------------------------------- two requests

  const NAME := Zeros(64)

  /** A broker whose fields are short, as the fields below need them. */
  predicate IsModest(core: Core) {
    && core.stage.Idle? && IsHex(core.session, 32) && core.controllerPid < 10 && core.creation == "c" && core.capability == "k"
    && core.nextSequence < 10 && core.memory.count < 10 && IsHex(core.memory.lastHash, 64)
  }

  function CreateFields(core: Core): map<nat, string> {
    map[1 := core.session, 2 := "TEST_ROOT", 3 := "x", 17 := NAME, 18 := Decimal(core.controllerPid), 19 := core.creation,
        20 := Decimal(core.memory.count), 21 := core.memory.lastHash, 22 := core.capability]
  }

  /** CREATE_DIRECTORY of one fixed path. */
  function Create(core: Core): Action {
    Request(Frame(core.nextSequence, 5, CreateFields(core), []), NAME, Err(""), Err(""))
  }

  function RecoveryParts(core: Core): seq<string> {
    ["NATIVE_TRANSACTION_FAILED", core.memory.request, core.creation, Decimal(core.memory.count), core.memory.lastHash]
  }

  function RecoverFields(core: Core): map<nat, string> {
    map[1 := core.session, 17 := NAME, 18 := Decimal(core.controllerPid), 19 := core.creation,
        20 := Decimal(core.memory.count), 21 := core.memory.lastHash, 24 := Join(RecoveryParts(core), '|')]
  }

  function Recovery(core: Core): Action {
    Request(Frame(core.nextSequence, RECOVER_SESSION, RecoverFields(core), []), NAME, Err(""), Err(""))
  }

  lemma NameIsLower()
    ensures IsHex(NAME, 64) && LowerHex(NAME) == NAME
  {
    assert |LowerHex(NAME)| == 64;
    assert forall i | 0 <= i < 64 :: LowerHex(NAME)[i] == NAME[i];
  }

  lemma SmallDecimal(n: nat)
    requires n < 10
    ensures |Decimal(n)| == 1 && ParseDecimal(Decimal(n)) == Some(n) && Plain(Decimal(n))
  {
    ParseOfDecimal(n);
  }

  lemma NotBlank()
    ensures !IsBlank("c")
  {
    assert "c"[0] == 'c';
  }

  /** The checks that both frames pass. */
  lemma GateOpens(core: Core, f: Frame)
    requires IsModest(core) && FitsSchema(f) && f.operation != HELLO && (core.crashHeld ==> !IsMutation(f.operation))
    requires BASE <= f.fields.Keys
    requires f.fields[1] == core.session && f.fields[17] == NAME && f.fields[18] == Decimal(core.controllerPid)
    requires f.fields[19] == core.creation && f.fields[20] == Decimal(core.memory.count) && f.fields[21] == core.memory.lastHash
    requires f.operation != RECOVER_SESSION ==> 22 in f.fields && f.fields[22] == core.capability
    requires 2 in f.fields ==> f.fields[2] == "TEST_ROOT"
    ensures GateFor(core, f) == Open
  {
    SmallDecimal(core.controllerPid);
    SmallDecimal(core.memory.count);
    NameIsLower();
    NotBlank();
    assert RootKnown("TEST_ROOT");
    hide Decimal, ParseDecimal, IsHex, FitsSchema, LowerHex, IsBlank, RootKnown, OperationName, HoldName;
  }

  lemma CreateIsShort(core: Core)
    requires IsModest(core)
    ensures forall id | id in CreateFields(core) :: 0 < id <= 24 && |CreateFields(core)[id]| <= 400
  {
    SmallDecimal(core.controllerPid);
    SmallDecimal(core.memory.count);
    assert |NAME| == 64 && |core.session| == 32 && |core.memory.lastHash| == 64;
    hide Decimal, ParseDecimal, IsHex, Zeros;
  }

  lemma CreateKeys(core: Core)
    ensures CreateFields(core).Keys == TARGET
  {
    hide Decimal, Zeros;
  }

  lemma CreateFits(core: Core)
    requires IsModest(core)
    ensures FitsSchema(Create(core).frame) && WithinBounds(Create(core).frame)
  {
    CreateIsShort(core);
    CreateKeys(core);
    hide CreateFields, WithinBounds;
    FrameIsShort(Create(core).frame);
  }

  lemma CreateField(core: Core)
    ensures var fields := CreateFields(core);
      && fields.Keys == TARGET && fields[1] == core.session && fields[2] == "TEST_ROOT" && fields[17] == NAME
      && fields[18] == Decimal(core.controllerPid) && fields[19] == core.creation && fields[20] == Decimal(core.memory.count)
      && fields[21] == core.memory.lastHash && fields[22] == core.capability
  {
    hide Decimal, Zeros;
    CreateKeys(core);
  }

  lemma CreateOpens(core: Core)
    requires IsModest(core) && !core.crashHeld
    ensures var f := Create(core).frame;
      WithinBounds(f) && GateFor(core, f) == Open && IsMutation(f.operation) && OperationName(f.operation) == "CREATE_DIRECTORY"
  {
    hide GateFor, FitsSchema, WithinBounds, Decimal, IsModest, CreateFields, Zeros;
    CreateFits(core);
    CreateField(core);
    GateOpens(core, Create(core).frame);
  }

  lemma RecoverIsShort(core: Core)
    requires IsModest(core) && IsHex(core.memory.request, 64)
    ensures forall id | id in RecoverFields(core) :: 0 < id <= 24 && |RecoverFields(core)[id]| <= 400
  {
    SmallDecimal(core.controllerPid);
    SmallDecimal(core.memory.count);
    assert |NAME| == 64 && |core.session| == 32 && |core.memory.lastHash| == 64;
    JoinIsShort(RecoveryParts(core), 64);
    hide Decimal, ParseDecimal, IsHex, Zeros, Join;
  }

  lemma RecoverKeys(core: Core)
    ensures RecoverFields(core).Keys == BASE + {24}
  {
    hide Decimal, Zeros, Join, RecoveryParts;
  }

  lemma RecoverFits(core: Core)
    requires IsModest(core) && IsHex(core.memory.request, 64)
    ensures FitsSchema(Recovery(core).frame) && WithinBounds(Recovery(core).frame)
  {
    RecoverIsShort(core);
    RecoverKeys(core);
    hide RecoverFields, WithinBounds;
    FrameIsShort(Recovery(core).frame);
  }

  lemma RecoverField(core: Core)
    ensures var fields := RecoverFields(core);
      && 2 !in fields && 24 in fields && fields[24] == Join(RecoveryParts(core), '|') && BASE <= fields.Keys
      && fields[1] == core.session && fields[17] == NAME && fields[18] == Decimal(core.controllerPid) && fields[19] == core.creation
      && fields[20] == Decimal(core.memory.count) && fields[21] == core.memory.lastHash
  {
    hide Decimal, Zeros, Join, RecoveryParts;
  }

  lemma RecoveryOpens(core: Core)
    requires IsModest(core) && IsHex(core.memory.request, 64)
    ensures var f := Recovery(core).frame;
      && WithinBounds(f) && GateFor(core, f) == Open && !IsMutation(f.operation) && f.operation == RECOVER_SESSION
      && RecoveryBound(core, FieldOr(f, 24, ""))
  {
    RecoverFits(core);
    RecoveryIsBound(core);
    RecoverField(core);
    hide GateFor, FitsSchema, WithinBounds, Decimal, IsModest, RecoveryBound, Join, RecoverFields, IsHex, Zeros, RecoveryParts;
    GateOpens(core, Recovery(core).frame);
  }

  lemma RecoveryIsBound(core: Core)
    requires IsModest(core) && IsHex(core.memory.request, 64)
    ensures RecoveryBound(core, Join(RecoveryParts(core), '|'))
  {
    var parts := RecoveryParts(core);
    SmallDecimal(core.memory.count);
    HexIsPlain(core.memory.request, 64);
    HexIsPlain(core.memory.lastHash, 64);
    assert Plain(parts[0]) && Plain(parts[1]) && Plain(parts[2]) && Plain(parts[3]) && Plain(parts[4]);
    hide Plain, Decimal, ParseDecimal, IsHex;
    assert Free(parts, '|') by { PlainPartsAreFree(parts); }
    SplitOfJoin(parts, '|');
  }

  lemma PlainPartsAreFree(parts: seq<string>)
    requires forall i | 0 <= i < |parts| :: Plain(parts[i])
    ensures Free(parts, '|')
  {
  }

  // ---------------------------------------------------------------- their steps

  const FIRST := Zeros(32)
  const SECOND := "1" + Zeros(31)

  lemma SessionsDiffer()
    ensures IsHex(FIRST, 32) && IsHex(SECOND, 32) && FIRST != SECOND
  {
    assert FIRST[0] == '0' && SECOND[0] == '1';
  }

  /** A new broker over a new journal. */
  lemma FirstStart(codec: Codec)
    requires Sound(codec)
    ensures var s := Step(codec, Initial(map[]), Restart(false, true, FIRST, 1, "c", "k"));
      s == Initial(map[]).(broker := Some(Core("", INITIAL_MEMORY, false, Closed, FIRST, 1, 1, "c", "k", Idle)), used := {FIRST})
  {
    var trust := Trust(false, 0, Zeros(64));
    SessionsDiffer();
    InitiallyHolds(codec, map[]);
    assert Size("") == 0;
    assert Trusted(codec, trust, []);
    LoadsIff(codec, trust, true, Initial(map[]), []);
    assert {} + {FIRST} == {FIRST};
    hide Sound, Load, IsHex, Size, Trusted, Invariant;
  }

  lemma RequestIsStep(codec: Codec, s: Sys, core: Core, a: Action)
    requires s.broker == Some(core) && a.Request? && WithinBounds(a.frame) && a.digest == NAME
    ensures Plausible(codec, core, a) && Step(codec, s, a) == RequestStep(codec, s, core, a.frame, a.digest, a.volatile, a.result)
  {
    NameIsLower();
    hide RequestStep, WithinBounds, IsHex, LowerHex, Zeros;
  }

  lemma CreateIdentity(codec: Codec, s: Sys, core: Core)
    ensures var a := Create(core);
      IdentityFor(codec, s, core, a.frame, NAME, a.volatile) == Ok(PathIdentity(s.world, "TEST_ROOT", "x"))
  {
    hide PathIdentity, Decimal, Zeros;
  }

  lemma CreateBegins(codec: Codec, s: Sys, core: Core)
    requires IsModest(core) && !core.crashHeld
    ensures var a := Create(core); JournalSafety.Begins(codec, s, core, a.frame, NAME, a.volatile)
  {
    CreateOpens(core);
    CreateIdentity(codec, s, core);
    hide GateFor, IdentityFor, WithinBounds, IsMutation, PathIdentity, CreateFields, IsModest, OperationName;
  }

  lemma BegunIs(codec: Codec, s: Sys, core: Core, a: Action, before: string)
    requires s.broker == Some(core) && core.stage.Idle? && a.Request?
    ensures var ref := RefOf(a.frame, a.digest);
      var r := MakeRecord(codec, Intent, ref, 5, before, before, "", core.session);
      var s' := Begun(codec, s, core, ref, 5, before);
      && Starts(s, a, s') && s'.world == s.world && s'.used == s.used
      && s'.abandoned == (s.abandoned || core.memory.state == Last(Intent))
      && s'.broker.value == Append(codec, core, r).(stage := Executing(ref, 5, before))
      && s'.journal == s'.broker.value.journal
  {
    assert ResponseFor(codec, core.memory, Intent, "") == "";
    hide MakeRecord, Append, RefOf, ResponseFor;
  }

  /** The step of a mutation: its intent is the last record. */
  lemma MutationStep(codec: Codec, s: Sys, core: Core)
    requires s.broker == Some(core) && With(s, core) == s && IsModest(core) && !core.crashHeld
    ensures var a := Create(core);
      var s' := Step(codec, s, a);
      var before := PathIdentity(s.world, "TEST_ROOT", "x");
      var r := MakeRecord(codec, Intent, RefOf(a.frame, NAME), 5, before, before, "", core.session);
      && Starts(s, a, s') && s'.world == s.world && s'.used == s.used
      && s'.abandoned == (s.abandoned || core.memory.state == Last(Intent))
      && s'.broker.value == Append(codec, core, r).(stage := Executing(RefOf(a.frame, NAME), 5, before))
      && s'.journal == s'.broker.value.journal
  {
    var a := Create(core);
    CreateOpens(core);
    CreateIdentity(codec, s, core);
    CreateBegins(codec, s, core);
    BegunIs(codec, s, core, a, PathIdentity(s.world, "TEST_ROOT", "x"));
    hide IdentityFor, GateFor, Receive, MakeRecord, Append, IsMutation, WithinBounds, RefOf, PathIdentity, Begun, Step, RequestStep, JournalSafety.Begins;
    RequestIsStep(codec, s, core, a);
    RequestShape(codec, s, core, a.frame, NAME, a.volatile, a.result);
  }

  lemma IntentMemory(codec: Codec, core: Core, r: Record, ref: Ref, before: string)
    requires Sound(codec) && r == MakeRecord(codec, Intent, ref, 5, before, before, "", core.session)
    ensures Append(codec, core, r).hold == core.hold
    ensures var m := Append(codec, core, r).memory;
      && m.state == Last(Intent) && m.operation == "CREATE_DIRECTORY" && m.request == ref.request && m.before == before
      && m.root == ref.root && m.path == ref.path && m.other == ref.other
      && m.count == core.memory.count + 1 && IsHex(m.lastHash, 64)
  {
    MadeState(codec, Intent, ref, 5, before, before, "", core.session);
    MadeDecodes(codec, Intent, ref, 5, before, before, "", core.session);
    hide StateNamed, StateName, Line, Decimal, ParseDecimal, Size, ContentDigest, Join, Fields;
  }

  /** The recovery of an intent whose target is untouched. */
  lemma RecoveryStep(codec: Codec, s: Sys, core: Core)
    requires Sound(codec) && s.broker == Some(core) && With(s, core) == s && IsModest(core) && IsHex(core.memory.request, 64)
    requires core.hold == FailedHeld && core.memory.state == Last(Intent) && core.memory.operation == "CREATE_DIRECTORY"
    requires core.memory.before == PathIdentity(s.world, core.memory.root, core.memory.path)
    ensures var a := Recovery(core);
      var s' := Step(codec, s, a);
      && VerdictOf(codec, s, a) == Some(VerifiedNotApplied)
      && s'.broker.Some? && s'.broker.value.stage.Answered? && !s'.broker.value.stage.commit
      && s'.broker.value.stage.operation == RECOVER_SESSION
      && s'.broker.value == core.(crashHeld := false, hold := Closed, stage := s'.broker.value.stage)
      && s' == s.(broker := s'.broker)
  {
    var a := Recovery(core);
    RecoveryOpens(core);
    RecoveryIdentity(codec, s, core);
    var identity := IdentityFor(codec, s, core, a.frame, NAME, a.volatile);
    UntouchedIsNotApplied(codec, core, FieldOr(a.frame, 24, ""));
    hide IdentityFor, GateFor, Receive, Recover, IsMutation, WithinBounds, RefOf, PathIdentity, IsHex, IsModest, RecoveryBound,
         Step, RequestStep, FieldOr, Plausible, RecoverFields;
    RequestIsStep(codec, s, core, a);
    RequestShape(codec, s, core, a.frame, NAME, a.volatile, a.result);
    RecoveryOperation(codec, core, a.frame, NAME, identity, a.result);
  }

  lemma RecoveryIdentity(codec: Codec, s: Sys, core: Core)
    requires core.memory.operation == "CREATE_DIRECTORY"
    ensures var a := Recovery(core);
      IdentityFor(codec, s, core, a.frame, NAME, a.volatile) == Ok(PathIdentity(s.world, core.memory.root, core.memory.path))
  {
    hide PathIdentity, RecoverFields;
  }

  lemma UntouchedIsNotApplied(codec: Codec, core: Core, text: string)
    requires RecoveryBound(core, text) && core.hold == FailedHeld && core.memory.state == Last(Intent)
    ensures Recover(codec, core, text, Ok(core.memory.before)) == (core.(crashHeld := false, hold := Closed), Ok(VerifiedNotApplied))
  {
    hide RecoveryBound, Append;
  }

  lemma RecoveryOperation(codec: Codec, core: Core, f: Frame, digest: string, identity: Answer<string>, result: Answer<Values>)
    requires core.stage.Idle? && Recovers(codec, core, f, identity)
    ensures var core' := Receive(codec, core, f, digest, identity, result);
      core'.stage.Answered? && core'.stage.operation == RECOVER_SESSION
  {
    hide Recover, Passed, GateFor, FailedWith, OutcomeValues, OperationName;
  }

  lemma AckStepOf(codec: Codec, s: Sys, core: Core)
    requires s.broker == Some(core) && core.stage.Answered? && !core.stage.commit && core.stage.operation != SHUTDOWN
    ensures var s' := Step(codec, s, Ack);
      && s'.broker == Some(core.(nextSequence := core.nextSequence + 1, stage := Idle)) && s'.journal == core.journal
      && s'.abandoned == s.abandoned && s'.world == s.world
  {
    hide AppendState;
  }

  /** The process that the controller starts over the journal of a crashed mutation. */
  lemma SecondStart(codec: Codec, s: Sys, rs: seq<Record>)
    requires Sound(codec) && Invariant(codec, s, rs) && s.broker.None? && !s.abandoned && Size(s.journal) <= JOURNAL_CAP
    requires MemoryOf(codec, rs).state == Last(Intent) && SECOND !in s.used
    ensures var s' := Step(codec, s, Restart(true, false, SECOND, 1, "c", "k"));
      s' == s.(broker := Some(Core(s.journal, MemoryOf(codec, rs), true, FailedHeld, SECOND, 1, 1, "c", "k", Idle)), used := s.used + {SECOND})
  {
    hide Sound, Load, IsHex, Size, Invariant, MemoryOf, FIRST, SECOND, Step, Start, AnchorOf;
    SessionsDiffer();
    LoadOfIntent(codec, s, rs);
    RestartStarts(codec, s, SECOND);
    StartHeld(codec, AnchorOf(s), s.journal, SECOND, MemoryOf(codec, rs));
  }

  lemma RestartStarts(codec: Codec, s: Sys, session: string)
    requires s.broker.None? && session !in s.used && IsHex(session, 32)
    ensures Step(codec, s, Restart(true, false, session, 1, "c", "k"))
      == s.(broker := Some(Start(codec, AnchorOf(s), false, s.journal, session, 1, "c", "k")), used := s.used + {session})
  {
    hide Start, IsHex, BrokerStep, Plausible;
  }

  lemma StartHeld(codec: Codec, trust: Trust, journal: string, session: string, m: Memory)
    requires Load(codec, trust, false, journal) == Loaded(m, true, FailedHeld, None)
    ensures Start(codec, trust, false, journal, session, 1, "c", "k") == Core(journal, m, true, FailedHeld, session, 1, 1, "c", "k", Idle)
  {
    hide Load;
  }

  lemma LoadOfIntent(codec: Codec, s: Sys, rs: seq<Record>)
    requires Sound(codec) && Invariant(codec, s, rs) && !s.abandoned && Size(s.journal) <= JOURNAL_CAP
    requires MemoryOf(codec, rs).state == Last(Intent)
    ensures Load(codec, AnchorOf(s), false, s.journal) == Loaded(MemoryOf(codec, rs), true, FailedHeld, None)
  {
    hide Sound, Load, IsHex, Size, Trusted, Invariant, MemoryOf;
    AnchorIsMet(codec, s, rs);
    LoadsIff(codec, AnchorOf(s), false, s, rs);
  }

  /** One short record makes a short journal. */
  lemma JournalIsShort(codec: Codec, core: Core, r: Record, ref: Ref)
    requires Sound(codec) && |codec.base64("x")| <= 1000 && IsModest(core) && core.journal == "" && IsHex(ref.request, 64)
    requires ref.sequence < 10 && ref.root == "TEST_ROOT" && ref.path == "x" && ref.other == ""
    requires r == MakeRecord(codec, Intent, ref, 5, "ABSENT", "ABSENT", "", core.session)
    ensures Size(Append(codec, core, r).journal) <= JOURNAL_CAP
  {
    var hash := Hash(codec, r, core.memory.lastHash);
    var line := Line(codec, r, core.memory.lastHash);
    assert IsHex(hash, 64);
    SmallDecimal(ref.sequence);
    SmallDecimal(0);
    assert Size("") == 0;
    FieldsAreShort(codec, r, core.memory.lastHash, hash);
    JoinIsShort(Fields(r, core.memory.lastHash, hash), 1000);
    EncodingIsShort("" + line + "\n");
    hide Join, Fields, Decimal, IsHex, Hash, MakeRecord, Utf8.Encode;
    assert Append(codec, core, r).journal == "" + line + "\n";
  }

  lemma FieldsAreShort(codec: Codec, r: Record, previous: string, hash: string)
    requires |r.state| <= 1000 && |r.sequence| <= 1000 && |r.nonce| <= 1000 && |r.operation| <= 1000 && |r.request| <= 1000
    requires |r.root| <= 1000 && |r.path64| <= 1000 && |r.other64| <= 1000 && |r.before| <= 1000 && |r.after| <= 1000
    requires |r.digest| <= 1000 && |r.length| <= 1000 && |r.response64| <= 1000 && |previous| <= 1000 && |hash| <= 1000
    ensures forall i | 0 <= i < 16 :: |Fields(r, previous, hash)[i]| <= 1000
  {
  }

  // ---------------------------------------------------------------- the run

  /** The first start and the intent of the mutation. */
  lemma IntentIsWritten(codec: Codec) returns (s1: Sys, s2: Sys, rs: seq<Record>)
    requires Sound(codec) && |codec.base64("x")| <= 1000
    ensures s1 == Step(codec, Initial(map[]), Restart(false, true, FIRST, 1, "c", "k")) && s1.broker.Some?
    ensures s2 == Step(codec, s1, Create(s1.broker.value)) && Starts(s1, Create(s1.broker.value), s2)
    ensures Invariant(codec, s2, rs) && !s2.abandoned && s2.world == map[] && SECOND !in s2.used && Size(s2.journal) <= JOURNAL_CAP
    ensures var m := MemoryOf(codec, rs);
      && m.state == Last(Intent) && m.operation == "CREATE_DIRECTORY" && m.request == NAME && m.before == PathIdentity(map[], m.root, m.path)
      && m.count == 1 && IsHex(m.lastHash, 64)
  {
    hide Sound, Invariant, MemoryOf, IsModest, IsHex, Create, MakeRecord, Append, RefOf, Step, Size, FIRST, SECOND, NAME, PathIdentity, AnchorOf;
    FirstStart(codec);
    SessionsDiffer();
    s1 := Step(codec, Initial(map[]), Restart(false, true, FIRST, 1, "c", "k"));
    var core := s1.broker.value;
    FirstIsModest(core);
    MutationStep(codec, s1, core);
    s2 := Step(codec, s1, Create(core));
    FirstIntent(codec, core);
    InitiallyHolds(codec, map[]);
    rs := StepKeeps(codec, Initial(map[]), Restart(false, true, FIRST, 1, "c", "k"), []);
    rs := StepKeeps(codec, s1, Create(core), rs);
    LastRecord(codec, s2, s2.broker.value, rs);
  }

  lemma FirstIsModest(core: Core)
    requires core == Core("", INITIAL_MEMORY, false, Closed, FIRST, 1, 1, "c", "k", Idle)
    ensures IsModest(core)
  {
    SessionsDiffer();
    NameIsLower();
  }

  /** The intent of the first mutation: short, and remembered. */
  lemma FirstIntent(codec: Codec, core: Core)
    requires Sound(codec) && |codec.base64("x")| <= 1000
    requires core == Core("", INITIAL_MEMORY, false, Closed, FIRST, 1, 1, "c", "k", Idle)
    ensures PathIdentity(map[], "TEST_ROOT", "x") == "ABSENT"
    ensures var ref := RefOf(Create(core).frame, NAME);
      var after := Append(codec, core, MakeRecord(codec, Intent, ref, 5, "ABSENT", "ABSENT", "", core.session));
      var m := after.memory;
      && Size(after.journal) <= JOURNAL_CAP && after.hold == Closed
      && m.state == Last(Intent) && m.operation == "CREATE_DIRECTORY" && m.request == NAME && m.before == "ABSENT"
      && m.root == "TEST_ROOT" && m.path == "x" && m.count == 1 && IsHex(m.lastHash, 64)
  {
    hide Sound, IsModest, IsHex, CreateFields, MakeRecord, Append, RefOf, Size, FIRST, NAME;
    FirstIsModest(core);
    CreateRef(core);
    NameIsLower();
    var ref := RefOf(Create(core).frame, NAME);
    var r := MakeRecord(codec, Intent, ref, 5, "ABSENT", "ABSENT", "", core.session);
    IntentMemory(codec, core, r, ref, "ABSENT");
    JournalIsShort(codec, core, r, ref);
  }

  /** The crash of its broker, up to the second start. */
  lemma HeldAfterCrash(codec: Codec) returns (core: Core)
    requires Sound(codec) && |codec.base64("x")| <= 1000
    ensures core.nextSequence == 1
    ensures var before := [Restart(false, true, FIRST, 1, "c", "k")];
      var s1 := Run(codec, Initial(map[]), before);
      && s1.broker.Some? && Starts(s1, Create(s1.broker.value), Step(codec, s1, Create(s1.broker.value)))
      && var s := Run(codec, Initial(map[]), before + [Create(s1.broker.value)] + [Crash, Restart(true, false, SECOND, 1, "c", "k")]);
        && s.broker == Some(core) && With(s, core) == s && !s.abandoned && s.world == map[]
        && IsModest(core) && core.crashHeld && core.hold == FailedHeld
        && core.memory.state == Last(Intent) && core.memory.operation == "CREATE_DIRECTORY" && IsHex(core.memory.request, 64)
        && core.memory.before == PathIdentity(map[], core.memory.root, core.memory.path)
  {
    hide Sound, Invariant, MemoryOf, IsHex, Create, Step, Size, PathIdentity, FIRST, SECOND, NAME, Run, IsModest;
    var s1, s2, rs := IntentIsWritten(codec);
    var (start, begin, again) := (Restart(false, true, FIRST, 1, "c", "k"), Create(s1.broker.value), Restart(true, false, SECOND, 1, "c", "k"));
    CrashStep(codec, s2);
    CrashKeeps(codec, s2, rs);
    var s3 := Step(codec, s2, Crash);
    SecondStart(codec, s3, rs);
    core := Step(codec, s3, again).broker.value;
    SecondIsModest(core);
    FirstTwo(codec, start, begin);
    TwoMore(codec, [start] + [begin], Crash, again);
  }

  lemma SecondIsModest(core: Core)
    requires core.stage.Idle? && core.session == SECOND && core.controllerPid == 1 && core.creation == "c" && core.capability == "k"
    requires core.nextSequence == 1 && core.memory.count == 1 && IsHex(core.memory.lastHash, 64) && core.memory.request == NAME
    ensures IsModest(core) && IsHex(core.memory.request, 64)
  {
    hide IsHex;
    SessionsDiffer();
    NameIsLower();
  }

  lemma CreateRef(core: Core)
    ensures var ref := RefOf(Create(core).frame, NAME);
      ref.sequence == core.nextSequence && ref.request == NAME && ref.root == "TEST_ROOT" && ref.path == "x" && ref.other == ""
  {
    hide Decimal, Zeros;
  }

  lemma CrashStep(codec: Codec, s: Sys)
    requires s.broker.Some?
    ensures Step(codec, s, Crash) == s.(broker := None)
  {
    hide RequestStep, Start, With, CloseJob, Finish, Fail, AckStep, Abandon, AfterIdentity, ThrownIdentity, Change;
  }

  lemma FirstTwo(codec: Codec, a: Action, b: Action)
    ensures Run(codec, Initial(map[]), [a]) == Step(codec, Initial(map[]), a)
    ensures Run(codec, Initial(map[]), [a] + [b]) == Step(codec, Step(codec, Initial(map[]), a), b)
  {
    hide Step, PastOf;
    PastGrows(codec, map[], [], a);
    PastGrows(codec, map[], [a], b);
    assert [] + [a] == [a] && Run(codec, Initial(map[]), []) == Initial(map[]);
  }

  lemma TwoMore(codec: Codec, before: seq<Action>, a: Action, b: Action)
    ensures Run(codec, Initial(map[]), before + [a, b]) == Step(codec, Step(codec, Run(codec, Initial(map[]), before), a), b)
  {
    hide Step, PastOf, Run;
    PastGrows(codec, map[], before, a);
    PastGrows(codec, map[], before + [a], b);
    assert before + [a, b] == before + [a] + [b];
  }

  lemma ThreeMore(codec: Codec, before: seq<Action>, a: Action, b: Action, c: Action)
    ensures Run(codec, Initial(map[]), before + [a] + [b, c])
      == Step(codec, Step(codec, Step(codec, Run(codec, Initial(map[]), before), a), b), c)
  {
    hide Step, PastOf, Run;
    PastGrows(codec, map[], before, a);
    TwoMore(codec, before + [a], b, c);
  }

  /** Recovery, its acknowledgement, and the next mutation. */
  lemma RecoveredGoesOn(codec: Codec, s: Sys, core: Core)
    requires Sound(codec) && s.broker == Some(core) && With(s, core) == s && IsModest(core) && core.nextSequence < 9
    requires core.hold == FailedHeld && core.memory.state == Last(Intent) && core.memory.operation == "CREATE_DIRECTORY"
    requires IsHex(core.memory.request, 64) && core.memory.before == PathIdentity(s.world, core.memory.root, core.memory.path)
    ensures var s1 := Step(codec, s, Recovery(core));
      var s2 := Step(codec, s1, Ack);
      && VerdictOf(codec, s, Recovery(core)) == Some(VerifiedNotApplied)
      && s2.broker.Some? && Step(codec, s2, Create(s2.broker.value)).abandoned
  {
    RecoveryStep(codec, s, core);
    var s1 := Step(codec, s, Recovery(core));
    hide Sound, Step, Recovery, VerdictOf, IsHex, PathIdentity, Create, Append, MakeRecord;
    AckStepOf(codec, s1, s1.broker.value);
    var s2 := Step(codec, s1, Ack);
    MutationStep(codec, s2, s2.broker.value);
  }

  /**
   There is such a run: a mutation begins, the broker crashes, its successor
   recovers VERIFIED_NOT_APPLIED, and the mutation that begins next leaves a journal
   that is refused with the controller's anchor and without one.
   */
  lemma ARunLosesItsJournal(codec: Codec)
    returns (before: seq<Action>, begin: Action, later: seq<Action>, recover: Action, next: seq<Action>)
    requires Sound(codec) && |codec.base64("x")| <= 1000
    ensures var s := Run(codec, Initial(map[]), before); Starts(s, begin, Step(codec, s, begin))
    ensures VerdictOf(codec, Run(codec, Initial(map[]), before + [begin] + later), recover) == Some(VerifiedNotApplied)
    ensures var s := Run(codec, Initial(map[]), (before + [begin] + later) + [recover] + next);
      && s.abandoned
      && forall created :: !IsAccepted(Load(codec, AnchorOf(s), created, s.journal)) && !IsAccepted(Load(codec, NO_ANCHOR, created, s.journal))
  {
    var core := HeldAfterCrash(codec);
    hide Sound, Step, Run, IsHex, PathIdentity, Create, Recovery, VerdictOf, Load, Invariant, IsAccepted;
    before := [Restart(false, true, FIRST, 1, "c", "k")];
    begin := Create(Run(codec, Initial(map[]), before).broker.value);
    later := [Crash, Restart(true, false, SECOND, 1, "c", "k")];
    var held := before + [begin] + later;
    var s := Run(codec, Initial(map[]), held);
    recover := Recovery(core);
    RecoveredGoesOn(codec, s, core);
    next := [Ack, Create(Step(codec, Step(codec, s, recover), Ack).broker.value)];
    ThreeMore(codec, held, recover, next[0], next[1]);
    AbandonedIsRefused(codec, held + [recover] + next);
  }

  lemma AbandonedIsRefused(codec: Codec, actions: seq<Action>)
    requires Sound(codec) && Run(codec, Initial(map[]), actions).abandoned
    ensures var s := Run(codec, Initial(map[]), actions);
      forall created :: !IsAccepted(Load(codec, AnchorOf(s), created, s.journal)) && !IsAccepted(Load(codec, NO_ANCHOR, created, s.journal))
  {
    var rs := RunKeeps(codec, map[], actions);
    var s := Run(codec, Initial(map[]), actions);
    JournalHolds(codec, s, rs);
    IllegalIfAbandoned(codec, s, rs);
    hide Invariant, Legal, Load, Sound, IsAccepted, Run, RecordsOk, ChainText, Trusted;
    forall created ensures !IsAccepted(Load(codec, AnchorOf(s), created, s.journal)) && !IsAccepted(Load(codec, NO_ANCHOR, created, s.journal)) {
      if IsAccepted(Load(codec, AnchorOf(s), created, s.journal)) { AcceptedRecords(codec, s.used, AnchorOf(s), created, rs); }
      if IsAccepted(Load(codec, NO_ANCHOR, created, s.journal)) { AcceptedRecords(codec, s.used, NO_ANCHOR, created, rs); }
    }
  }

  lemma IllegalIfAbandoned(codec: Codec, s: Sys, rs: seq<Record>)
    requires Invariant(codec, s, rs) && s.abandoned
    ensures !Legal(codec, rs)
  {
    hide Legal, AnchorOk, CoreOk, RecordsOk, ChainText;
  }

  // ---------------------------------------------------------------- a codec

  function Symbol(d: int): char
    requires 0 <= d < 256
  {
    '\U{100}' + d as char
  }

  /** Three symbols for each character. */
  function Spelled(s: string): (t: string)
    ensures |t| == 3 * |s|
  {
    if s == "" then ""
    else
      var n := s[0] as int;
      [Symbol(n / 65536), Symbol(n / 256 % 256), Symbol(n % 256)] + Spelled(s[1..])
  }

  lemma {:induction false} SpelledIsPlain(s: string)
    ensures Plain(Spelled(s))
  {
    if s != "" { SpelledIsPlain(s[1..]); }
  }

  lemma {:induction false} SpelledIsInjective(s: string, t: string)
    requires Spelled(s) == Spelled(t)
    ensures s == t
  {
    if s != "" && t != "" {
      var a, b := Spelled(s), Spelled(t);
      assert a[0] == b[0] && a[1] == b[1] && a[2] == b[2];
      SameSymbols(s[0], t[0]);
      assert a[3..] == Spelled(s[1..]) && b[3..] == Spelled(t[1..]);
      SpelledIsInjective(s[1..], t[1..]);
      assert s == [s[0]] + s[1..] && t == [t[0]] + t[1..];
    }
  }

  lemma SameSymbols(c: char, d: char)
    requires Symbol(c as int / 65536) == Symbol(d as int / 65536) && Symbol(c as int / 256 % 256) == Symbol(d as int / 256 % 256)
    requires Symbol(c as int % 256) == Symbol(d as int % 256)
    ensures c == d
  {
    hide Symbol;
    ThreeDigits(c as int);
    ThreeDigits(d as int);
    SameSymbol(c as int / 65536, d as int / 65536);
    SameSymbol(c as int / 256 % 256, d as int / 256 % 256);
    SameSymbol(c as int % 256, d as int % 256);
  }

  lemma SameSymbol(d: int, e: int)
    requires 0 <= d < 256 && 0 <= e < 256 && Symbol(d) == Symbol(e)
    ensures d == e
  {
  }

  lemma ThreeDigits(n: nat)
    ensures n == (n / 65536) * 65536 + (n / 256 % 256) * 256 + n % 256
  {
    var m := n / 256;
    assert n / 65536 == m / 256;
  }

  ghost function Unspelled(t: string): Option<string> {
    if exists s :: Spelled(s) == t then
      var s :| Spelled(s) == t;
      Some(s)
    else None
  }

  /** What the theorems ask of digest, base64 and receipts can be had. */
  lemma ASoundCodecExists()
    ensures exists codec :: Sound(codec) && |codec.base64("x")| <= 1000
  {
    var codec := Codec(s => Zeros(64), s => Spelled(s), t => Unspelled(t), s => s != "");
    forall s ensures Plain(codec.base64(s)) && codec.unbase64(codec.base64(s)) == Some(s) {
      SpelledIsPlain(s);
      var t :| Spelled(t) == Spelled(s) && Unspelled(Spelled(s)) == Some(t);
      SpelledIsInjective(t, s);
    }
    assert codec.base64("") == "";
    assert |codec.base64("x")| == 3;
    assert Sound(codec);
  }
}
