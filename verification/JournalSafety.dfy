/** Every step of broker, world and journal keeps the invariant. */
module JournalSafety {
  import opened Basics
  import opened BrokerFrame
  import opened JournalText
  import opened JournalResponse
  import opened Journal
  import opened JournalLoader
  import opened JournalBroker
  import opened JournalRuns

  ghost predicate Holds(codec: Codec, s: Sys, core: Core, rs: seq<Record>) {
    Invariant(codec, s, rs) && s.broker == Some(core)
  }

  lemma LastRecord(codec: Codec, s: Sys, core: Core, rs: seq<Record>)
    requires Holds(codec, s, core, rs) && IsTracking(core)
    ensures core.memory == MemoryOf(codec, rs)
    ensures core.memory.state == if rs == [] then Empty else Last(StateNamed(rs[|rs| - 1].state).value)
    ensures rs != [] ==> StateNamed(rs[|rs| - 1].state).Some? && RecordOk(codec, s.used, rs[|rs| - 1])
  {
    hide StateNamed, MemoryOf, RecordError, StageOk, AnchorOk, PlainRecord;
    if rs != [] {
      assert RecordOk(codec, s.used, rs[|rs| - 1]);
      StateIsNamed(codec, rs[|rs| - 1]);
    }
    MemoryState(codec, rs);
  }

  // ---------------------------------------------------------------- requests that write nothing

  lemma SequenceLoosens(r: Record, bound: nat)
    requires SequenceBelow(r, bound)
    ensures SequenceBelow(r, bound + 1)
  {
  }

  /** An idle broker answers, or stops, with its journal as it was. */
  lemma AnswerKeeps(codec: Codec, s: Sys, core: Core, core': Core, rs: seq<Record>)
    requires Holds(codec, s, core, rs) && core.stage.Idle?
    requires core'.stage == Stopped || (core'.stage.Answered? && !core'.stage.commit)
    requires core' == core.(stage := core'.stage, crashHeld := core'.crashHeld, hold := core'.hold)
    requires core'.crashHeld <==> core'.hold != Closed
    requires IsTracking(core') ==> IsTracking(core)
    requires !core'.crashHeld ==> !core.crashHeld || core.memory.state == Last(Failed) || core.memory.state == Last(Intent)
    ensures Invariant(codec, With(s, core'), rs)
  {
    hide MemoryOf, Legal, RecordsOk, ChainText;
    if rs != [] && rs[|rs| - 1].nonce == core.session { SequenceLoosens(rs[|rs| - 1], core.nextSequence); }
    KeepCore(codec, s, With(s, core'), rs);
  }

  // ---------------------------------------------------------------- the intent

  lemma SessionIsPlain()
    ensures Plain("SESSION")
  {
    assert IsWord("SESSION");
    WordIsPlain("SESSION");
  }

  lemma FrameRefOk(f: Frame, digest: string)
    requires WithinBounds(f) && IsHex(digest, 64) && LowerHex(digest) == digest && FitsSchema(f)
    requires 2 in f.fields ==> RootKnown(f.fields[2])
    ensures RefOk(RefOf(f, digest))
  {
    hide RootKnown, FitsSchema, SchemaOf, Plain, IsHex, LowerHex;
    SchemaCoversSession(f);
    if 2 in f.fields { KnownRootIsPlain(f.fields[2]); } else { SessionIsPlain(); }
  }

  lemma CapturedIsIdentity(codec: Codec, world: World, name: string, root: string, path: string, other: string, volatile: Answer<string>)
    requires Sound(codec)
    ensures var answer := Capture(codec, world, name, root, path, other, volatile); answer.Ok? ==> IsIdentity(answer.value)
  {
    hide RenameText, IsFileOperation;
  }

  /** A record of a new request differs from the last one, unless that was never finished. */
  lemma NewRequestNext(codec: Codec, s: Sys, core: Core, rs: seq<Record>, r: Record)
    requires Holds(codec, s, core, rs) && core.stage.Idle? && !core.crashHeld && PlainRecord(r) && StateNamed(r.state) == Some(Intent)
    requires r.nonce == core.session && r.sequence == Decimal(core.nextSequence)
    ensures NextOk(rs, r) <==> core.memory.state != Last(Intent)
  {
    LastRecord(codec, s, core, rs);
    if rs != [] {
      var p := rs[|rs| - 1];
      if RequestIdentity(r) == RequestIdentity(p) {
        IdentityBinds(r, p);
        var k: nat :| k < core.nextSequence && p.sequence == Decimal(k);
        ParseOfDecimal(k);
        ParseOfDecimal(core.nextSequence);
      }
      hide RequestIdentity, StateNamed, MemoryOf, RecordOk, PlainRecord, Invariant, Decimal;
    }
  }

  lemma BeginRecord(codec: Codec, s: Sys, core: Core, ref: Ref, operation: nat, before: string, rs: seq<Record>)
    requires Sound(codec) && Holds(codec, s, core, rs) && core.stage.Idle? && ref.sequence == core.nextSequence
    requires RefOk(ref) && !core.crashHeld && IsIdentity(before)
    ensures var r := MakeRecord(codec, Intent, ref, operation, before, before, "", core.session);
      && RecordOk(codec, s.used, r) && StateNamed(r.state) == Some(Intent)
      && (NextOk(rs, r) <==> core.memory.state != Last(Intent))
  {
    var r := MakeRecord(codec, Intent, ref, operation, before, before, "", core.session);
    SizeOfNothing();
    assert ResponseFits(codec, Intent, ref, operation, "", core.session);
    assert IsHex(core.session, 32) && core.session in s.used;
    assert r.nonce == core.session && r.sequence == Decimal(core.nextSequence);
    hide *;
    MadeIsOk(codec, s.used, Intent, ref, operation, before, before, "", core.session);
    MadeState(codec, Intent, ref, operation, before, before, "", core.session);
    MadeIsPlain(codec, Intent, ref, operation, before, before, "", core.session);
    NewRequestNext(codec, s, core, rs, r);
  }

  function BegunCore(codec: Codec, core: Core, ref: Ref, operation: nat, before: string): Core {
    AppendState(codec, core, Intent, ref, operation, before, before, "", core.session).(stage := Executing(ref, operation, before))
  }

  function Begun(codec: Codec, s: Sys, core: Core, ref: Ref, operation: nat, before: string): Sys {
    With(s, BegunCore(codec, core, ref, operation, before))
    .(confirmed := core.memory.count, confirmedHash := core.memory.lastHash,
      abandoned := s.abandoned || core.memory.state == Last(Intent))
  }

  lemma BegunShape(codec: Codec, s: Sys, core: Core, ref: Ref, operation: nat, before: string, rs: seq<Record>)
    requires core.journal == ChainText(codec, rs) && core.memory == MemoryOf(codec, rs)
    ensures var r := MakeRecord(codec, Intent, ref, operation, before, before, "", core.session);
      var core' := BegunCore(codec, core, ref, operation, before);
      && core'.journal == ChainText(codec, rs + [r]) && core'.memory == MemoryOf(codec, rs + [r])
      && core' == core.(journal := core'.journal, memory := core'.memory, stage := Executing(ref, operation, before))
      && core.memory.count == |rs| && core.memory.lastHash == HashOf(codec, rs)
  {
    var r := MakeRecord(codec, Intent, ref, operation, before, before, "", core.session);
    AppendTracks(codec, core, rs, r);
    MemoryBasics(codec, rs);
    AppendFrame(codec, core, r);
    assert ResponseFor(codec, core.memory, Intent, "") == "";
    hide Append, MakeRecord, ChainText, MemoryOf, HashOf;
  }

  lemma BeginKeeps(codec: Codec, s: Sys, core: Core, ref: Ref, operation: nat, before: string, rs: seq<Record>) returns (rs': seq<Record>)
    requires Sound(codec) && Holds(codec, s, core, rs) && core.stage.Idle? && ref.sequence == core.nextSequence
    requires RefOk(ref) && IsMutation(operation) && !core.crashHeld && IsIdentity(before)
    ensures Invariant(codec, Begun(codec, s, core, ref, operation, before), rs')
  {
    var r := MakeRecord(codec, Intent, ref, operation, before, before, "", core.session);
    rs' := rs + [r];
    LastRecord(codec, s, core, rs);
    BeginRecord(codec, s, core, ref, operation, before, rs);
    BegunShape(codec, s, core, ref, operation, before, rs);
    var s' := Begun(codec, s, core, ref, operation, before);
    BeginAnchor(codec, s', rs, r);
    BeginStage(codec, s'.broker.value, rs, r, ref, operation, before);
    hide BegunCore, RecordOk, MakeRecord, Sound, IsIdentity, RefOk, NextOk, StateNamed, Legal, RecordsOk, ChainText, MemoryOf, AnchorOk,
         StageOk;
    GrowCore(codec, s, s', rs, r);
  }

  lemma SizeOfNothing()
    ensures Size("") < LIMIT64
  {
  }

  lemma AppendFrame(codec: Codec, core: Core, r: Record)
    ensures Append(codec, core, r) == core.(journal := Append(codec, core, r).journal, memory := Append(codec, core, r).memory)
  {
  }

  lemma BeginAnchor(codec: Codec, s: Sys, rs: seq<Record>, r: Record)
    requires s.confirmed == |rs| && s.confirmedHash == HashOf(codec, rs)
    ensures AnchorOk(codec, s, rs + [r])
  {
    var all := rs + [r];
    assert all[..|rs|] == rs && all[|rs|..] == [r];
  }

  lemma BeginStage(codec: Codec, core: Core, rs: seq<Record>, r: Record, ref: Ref, operation: nat, before: string)
    requires r == MakeRecord(codec, Intent, ref, operation, before, before, "", core.session)
    requires core.stage == Executing(ref, operation, before) && ref.sequence == core.nextSequence
    requires RefOk(ref) && IsMutation(operation) && IsIdentity(before) && !core.crashHeld && StateNamed(r.state) == Some(Intent)
    ensures StageOk(codec, core, rs + [r])
  {
    hide StateNamed, RefOk, IsIdentity, RequestIdentity;
    assert (rs + [r])[|rs|] == r;
  }

  // ---------------------------------------------------------------- records of the request in hand

  /** A further record of the request in hand: fit, of the same request, and covered by the same anchor. */
  lemma HandRecord(codec: Codec, s: Sys, core: Core, rs: seq<Record>, state: JournalState, ref: Ref, operation: nat,
                   before: string, after: string, response: string)
    requires Sound(codec) && Holds(codec, s, core, rs) && rs != [] && InHand(codec, core, rs[|rs| - 1], ref, operation, before)
    requires IsIdentity(after) && Size(response) < LIMIT64 && ResponseFits(codec, state, ref, operation, response, core.session)
    ensures var r := MakeRecord(codec, state, ref, operation, before, after, response, core.session);
      && RecordOk(codec, s.used, r) && StateNamed(r.state) == Some(state)
      && RequestIdentity(r) == RequestIdentity(rs[|rs| - 1]) && InHand(codec, core, r, ref, operation, before)
      && r.nonce == core.session && SequenceBelow(r, core.nextSequence + 1)
  {
    var r := MakeRecord(codec, state, ref, operation, before, after, response, core.session);
    assert IsHex(core.session, 32) && core.session in s.used;
    assert r.nonce == core.session && r.sequence == Decimal(core.nextSequence) && r.before == before;
    assert SequenceBelow(r, core.nextSequence + 1);
    MadeIdentity(codec, state, Intent, ref, operation, before, after, response, before, before, "", core.session);
    hide RecordOk, MakeRecord, Sound, RefOk, IsIdentity, StateNamed, Holds, ResponseFits, RequestIdentity, Size, SequenceBelow;
    MadeIsOk(codec, s.used, state, ref, operation, before, after, response, core.session);
    MadeState(codec, state, ref, operation, before, after, response, core.session);
  }

  /** What an append does to the fields of the broker. */
  lemma AppendedShape(codec: Codec, core: Core, rs: seq<Record>, state: JournalState, ref: Ref, operation: nat,
                      before: string, after: string, response: string)
    requires core.journal == ChainText(codec, rs) && core.memory == MemoryOf(codec, rs)
    ensures var full := ResponseFor(codec, core.memory, state, response);
      var r := MakeRecord(codec, state, ref, operation, before, after, full, core.session);
      var core' := AppendState(codec, core, state, ref, operation, before, after, response, core.session);
      && core' == core.(journal := core'.journal, memory := core'.memory)
      && core'.journal == ChainText(codec, rs + [r]) && core'.memory == MemoryOf(codec, rs + [r])
  {
    var full := ResponseFor(codec, core.memory, state, response);
    var r := MakeRecord(codec, state, ref, operation, before, after, full, core.session);
    AppendTracks(codec, core, rs, r);
    AppendFrame(codec, core, r);
    hide Append, MakeRecord, ChainText, MemoryOf, ResponseFor;
  }

  lemma CloseJobKeeps(codec: Codec, s: Sys, core: Core, after: string, receipt: string, rs: seq<Record>) returns (rs': seq<Record>)
    requires Sound(codec) && Holds(codec, s, core, rs) && IsIdentity(after) && codec.receiptOk(receipt) && Size(receipt) < LIMIT64
    ensures Invariant(codec, With(s, CloseJob(codec, core, after, receipt)), rs')
  {
    rs' := rs;
    hide Invariant, MakeRecord, AppendState, OperationName;
    if core.stage.Executing? && (core.stage.operation == 15 || core.stage.operation == 16) && core.memory.state == Last(Intent) {
      rs' := ReceiptKeeps(codec, s, core, after, receipt, rs);
    } else {
      SameCore(codec, s, core, rs);
    }
  }

  lemma ReceiptFits(codec: Codec, ref: Ref, operation: nat, receipt: string, nonce: string)
    requires Sound(codec) && codec.receiptOk(receipt)
    ensures ResponseFits(codec, JobClosed, ref, operation, receipt, nonce)
  {
  }

  lemma ReceiptShape(codec: Codec, core: Core, after: string, receipt: string, rs: seq<Record>)
    requires core.stage.Executing? && core.journal == ChainText(codec, rs) && core.memory == MemoryOf(codec, rs)
    requires (core.stage.operation == 15 || core.stage.operation == 16) && core.memory.state == Last(Intent)
    ensures var st := core.stage;
      var r := MakeRecord(codec, JobClosed, st.ref, st.operation, st.before, after, receipt, core.session);
      var core' := CloseJob(codec, core, after, receipt);
      && core' == core.(journal := core'.journal, memory := core'.memory)
      && core'.journal == ChainText(codec, rs + [r]) && core'.memory == MemoryOf(codec, rs + [r])
  {
    hide MakeRecord, ChainText, MemoryOf, AppendState, OperationName;
    var st := core.stage;
    AppendedShape(codec, core, rs, JobClosed, st.ref, st.operation, st.before, after, receipt);
    assert ResponseFor(codec, core.memory, JobClosed, receipt) == receipt;
  }

  lemma ReceiptStage(codec: Codec, core: Core, rs: seq<Record>, r: Record)
    requires core.stage.Executing? && !core.crashHeld && StateNamed(r.state) == Some(JobClosed)
    requires InHand(codec, core, r, core.stage.ref, core.stage.operation, core.stage.before)
    ensures StageOk(codec, core, rs + [r])
  {
    assert (rs + [r])[|rs|] == r;
    hide InHand, StateNamed;
  }

  lemma ReceiptKeeps(codec: Codec, s: Sys, core: Core, after: string, receipt: string, rs: seq<Record>) returns (rs': seq<Record>)
    requires Sound(codec) && Holds(codec, s, core, rs) && IsIdentity(after) && codec.receiptOk(receipt) && Size(receipt) < LIMIT64
    requires core.stage.Executing? && (core.stage.operation == 15 || core.stage.operation == 16) && core.memory.state == Last(Intent)
    ensures Invariant(codec, With(s, CloseJob(codec, core, after, receipt)), rs')
  {
    ExecutingState(codec, s, core, rs);
    LastRecord(codec, s, core, rs);
    hide RecordOk, NextOk, StageOk, ChainText, MemoryOf, RequestIdentity, Invariant, MakeRecord, IsIdentity, ResponseFits,
         StateNamed, Sound, Size, SequenceBelow, CloseJob, AnswersRequest, OperationName, Decimal;
    var ref, operation, before := core.stage.ref, core.stage.operation, core.stage.before;
    JournalOf(codec, s, core, rs);
    ReceiptFits(codec, ref, operation, receipt, core.session);
    HandRecord(codec, s, core, rs, JobClosed, ref, operation, before, after, receipt);
    ReceiptShape(codec, core, after, receipt, rs);
    var r := MakeRecord(codec, JobClosed, ref, operation, before, after, receipt, core.session);
    SameRequestNext(codec, rs, r, Intent, JobClosed);
    rs' := rs + [r];
    var core' := CloseJob(codec, core, after, receipt);
    assert InHand(codec, core', r, ref, operation, before);
    ReceiptStage(codec, core', rs, r);
    hide InHand;
    HandAssembles(codec, s, core, core', rs, r);
  }

  /** The pieces of a step that appends a record of the request in hand. */
  lemma HandAssembles(codec: Codec, s: Sys, core: Core, core': Core, rs: seq<Record>, r: Record)
    requires Holds(codec, s, core, rs) && rs != [] && s.confirmed < |rs|
    requires RecordOk(codec, s.used, r) && NextOk(rs, r) && RequestIdentity(r) == RequestIdentity(rs[|rs| - 1])
    requires core'.journal == ChainText(codec, rs + [r]) && core'.memory == MemoryOf(codec, rs + [r])
    requires core'.session == core.session && (core'.crashHeld <==> core'.hold != Closed)
    requires StageOk(codec, core', rs + [r])
    requires !core'.crashHeld && (core'.stage.Idle? || (core'.stage.Answered? && !core'.stage.commit)) ==>
      core'.memory.state == Last(Acked) || core'.memory.state == Last(Failed)
    ensures Invariant(codec, With(s, core'), rs + [r])
  {
    var s' := With(s, core');
    AnchorGrows(codec, s, s', rs, r);
    assert CoreOk(codec, core', rs + [r]);
    hide RecordOk, NextOk, StageOk, CoreOk, AnchorOk, ChainText, MemoryOf, RequestIdentity;
    GrowCore(codec, s, s', rs, r);
  }

  lemma PassedFits(codec: Codec, core: Core, ref: Ref, operation: nat, values: Values)
    requires IsHex(core.session, 32) && RefOk(ref)
    requires forall i | 0 <= i < |values| :: IsWord(values[i].0) && values[i].0 !in RESERVED
    ensures ResponseFits(codec, Applied, ref, operation, Passed(core, ref, operation, values), core.session)
  {
    hide AnswersRequest, Response, RefOk, IsWord, IsHex, Decimal, OperationName, Anchor;
    ResponseTextFits(core, ref, operation, "PASS", "", values);
  }

  lemma FailedFits(codec: Codec, core: Core, ref: Ref, operation: nat, message: string)
    requires IsHex(core.session, 32) && RefOk(ref)
    ensures ResponseFits(codec, Failed, ref, operation, FailedWith(core, core.session, ref, OperationName(operation), message), core.session)
  {
    hide AnswersRequest, Response, RefOk, IsWord, IsHex, Decimal, OperationName, Anchor;
    ResponseTextFits(core, ref, operation, "FAIL", message, []);
    assert [] + Anchor(core) == Anchor(core);
  }

  /** The state of the last record while a request executes. */
  lemma ExecutingState(codec: Codec, s: Sys, core: Core, rs: seq<Record>)
    requires Holds(codec, s, core, rs) && core.stage.Executing?
    ensures rs != [] && s.confirmed < |rs| && !core.crashHeld && IsTracking(core)
    ensures InHand(codec, core, rs[|rs| - 1], core.stage.ref, core.stage.operation, core.stage.before)
    ensures StateNamed(rs[|rs| - 1].state) == Some(Intent) || StateNamed(rs[|rs| - 1].state) == Some(JobClosed)
  {
    hide MemoryOf, Legal, RecordsOk, ChainText, StateNamed, InHand;
  }

  lemma FinishKeeps(codec: Codec, s: Sys, core: Core, after: string, values: Values, rs: seq<Record>) returns (rs': seq<Record>)
    requires Sound(codec) && Holds(codec, s, core, rs) && IsIdentity(after) && core.stage.Executing?
    requires forall i | 0 <= i < |values| :: IsWord(values[i].0) && values[i].0 !in RESERVED
    requires Size(Passed(core, core.stage.ref, core.stage.operation, values)) < LIMIT64
    ensures Invariant(codec, With(s, Finish(codec, core, after, values)), rs')
  {
    var ref, operation, before := core.stage.ref, core.stage.operation, core.stage.before;
    var response := Passed(core, ref, operation, values);
    var core' := Finish(codec, core, after, values);
    ExecutingState(codec, s, core, rs);
    LastRecord(codec, s, core, rs);
    PassedFits(codec, core, ref, operation, values);
    HandRecord(codec, s, core, rs, Applied, ref, operation, before, after, response);
    AppendedShape(codec, core, rs, Applied, ref, operation, before, after, response);
    assert ResponseFor(codec, core.memory, Applied, response) == response;
    var r := MakeRecord(codec, Applied, ref, operation, before, after, response, core.session);
    SameRequestNext(codec, rs, r, StateNamed(rs[|rs| - 1].state).value, Applied);
    rs' := rs + [r];
    AppliedStage(codec, core', rs, r, ref, operation, before, after, response);
    hide RecordOk, NextOk, StageOk, ChainText, MemoryOf, RequestIdentity, InHand, Holds, MakeRecord, Passed, IsIdentity, ResponseFits;
    HandAssembles(codec, s, core, core', rs, r);
  }

  lemma AppliedStage(codec: Codec, core: Core, rs: seq<Record>, r: Record, ref: Ref, operation: nat, before: string, after: string,
                     response: string)
    requires r == MakeRecord(codec, Applied, ref, operation, before, after, response, core.session)
    requires core.stage == Answered(ref, operation, before, after, response, true) && !core.crashHeld
    requires InHand(codec, core.(stage := Idle), r, ref, operation, before) && SequenceBelow(r, core.nextSequence + 1)
    requires IsIdentity(after) && Size(response) < LIMIT64 && ResponseFits(codec, Applied, ref, operation, response, core.session)
    ensures StageOk(codec, core, rs + [r])
  {
    assert (rs + [r])[|rs|] == r;
    assert InHand(codec, core, r, ref, operation, before);
    hide InHand, MakeRecord, SequenceBelow, AnswersRequest, Size;
  }

  /** Once nothing is in hand any more, the stage asks only that later sequences be new. */
  lemma SettledStage(codec: Codec, core: Core, rs: seq<Record>, r: Record, bound: nat)
    requires core.stage == Stopped || (core.stage.Answered? && !core.stage.commit && bound <= core.nextSequence + 1)
             || (core.stage.Idle? && bound <= core.nextSequence)
    requires SequenceBelow(r, bound)
    ensures StageOk(codec, core, rs + [r])
  {
    assert (rs + [r])[|rs|] == r;
    if core.stage.Answered? { SequenceBelowLoosens(r, bound, core.nextSequence + 1); }
    if core.stage.Idle? { SequenceBelowLoosens(r, bound, core.nextSequence); }
    hide SequenceBelow, InHand;
  }

  lemma SequenceBelowLoosens(r: Record, bound: nat, bound': nat)
    requires SequenceBelow(r, bound) && bound <= bound'
    ensures SequenceBelow(r, bound')
  {
  }

  lemma FailShape(codec: Codec, core: Core, after: string, message: string, rs: seq<Record>)
    requires core.stage.Executing? && core.journal == ChainText(codec, rs) && core.memory == MemoryOf(codec, rs)
    ensures var (ref, operation, before) := (core.stage.ref, core.stage.operation, core.stage.before);
      var response := FailedWith(core, core.session, ref, OperationName(operation), message);
      var r := MakeRecord(codec, Failed, ref, operation, before, after, response, core.session);
      var core' := Fail(codec, core, after, message);
      && core' == core.(journal := core'.journal, memory := core'.memory, crashHeld := true, hold := FailedHeld,
                        stage := Answered(ref, operation, before, after, response, false))
      && core'.journal == ChainText(codec, rs + [r]) && core'.memory == MemoryOf(codec, rs + [r])
  {
    hide MakeRecord, ChainText, MemoryOf, FailedWith, AppendState, OperationName;
    var ref, operation, before := core.stage.ref, core.stage.operation, core.stage.before;
    var response := FailedWith(core, core.session, ref, OperationName(operation), message);
    AppendedShape(codec, core, rs, Failed, ref, operation, before, after, response);
    assert ResponseFor(codec, core.memory, Failed, response) == response;
  }

  lemma FailKeeps(codec: Codec, s: Sys, core: Core, after: string, message: string, rs: seq<Record>) returns (rs': seq<Record>)
    requires Sound(codec) && Holds(codec, s, core, rs) && IsIdentity(after) && core.stage.Executing?
    requires Size(FailedWith(core, core.session, core.stage.ref, OperationName(core.stage.operation), message)) < LIMIT64
    ensures Invariant(codec, With(s, Fail(codec, core, after, message)), rs')
  {
    ExecutingState(codec, s, core, rs);
    LastRecord(codec, s, core, rs);
    HandIsOk(codec, core, rs);
    hide RecordOk, NextOk, StageOk, ChainText, MemoryOf, RequestIdentity, InHand, Holds, MakeRecord, FailedWith, IsIdentity, IsHex,
         ResponseFits, StateNamed, RefOk, Sound, Size, SequenceBelow, Fail;
    var ref, operation, before := core.stage.ref, core.stage.operation, core.stage.before;
    var response := FailedWith(core, core.session, ref, OperationName(operation), message);
    FailedFits(codec, core, ref, operation, message);
    HandRecord(codec, s, core, rs, Failed, ref, operation, before, after, response);
    FailShape(codec, core, after, message, rs);
    var r := MakeRecord(codec, Failed, ref, operation, before, after, response, core.session);
    SameRequestNext(codec, rs, r, StateNamed(rs[|rs| - 1].state).value, Failed);
    rs' := rs + [r];
    var core' := Fail(codec, core, after, message);
    SettledStage(codec, core', rs, r, core.nextSequence + 1);
    HandAssembles(codec, s, core, core', rs, r);
  }

  lemma HandIsOk(codec: Codec, core: Core, rs: seq<Record>)
    requires core.stage.Executing? && rs != [] && CoreOk(codec, core, rs)
    ensures RefOk(core.stage.ref) && IsHex(core.session, 32)
  {
    hide MemoryOf, StateNamed, RequestIdentity, IsIdentity;
  }

  /** What an unacknowledged answer of a mutation rests on. */
  lemma AnsweredState(codec: Codec, s: Sys, core: Core, rs: seq<Record>)
    requires Holds(codec, s, core, rs) && core.stage.Answered? && core.stage.commit
    ensures rs != [] && s.confirmed < |rs| && !core.crashHeld && IsTracking(core)
    ensures InHand(codec, core, rs[|rs| - 1], core.stage.ref, core.stage.operation, core.stage.before)
    ensures IsIdentity(core.stage.after) && core.stage.response != "" && Size(core.stage.response) < LIMIT64
    ensures AnswersRequest(core.stage.response, core.session, Decimal(core.stage.ref.sequence), OperationName(core.stage.operation),
                           core.stage.ref.request)
    ensures rs[|rs| - 1] == MakeRecord(codec, Applied, core.stage.ref, core.stage.operation, core.stage.before, core.stage.after,
                                       core.stage.response, core.session)
  {
    hide MemoryOf, Legal, RecordsOk, ChainText, StateNamed, InHand, AnswersRequest, MakeRecord, Size, IsIdentity;
  }

  lemma RememberedResponse(codec: Codec, core: Core, rs: seq<Record>, response: string)
    requires Sound(codec) && rs != [] && core.memory == MemoryOf(codec, rs) && response != ""
    requires rs[|rs| - 1].response64 == codec.base64(response)
    ensures core.memory.response64 == codec.base64(response) && ResponseFor(codec, core.memory, Acked, "") == response
  {
    assert codec.unbase64(codec.base64(response)) == Some(response);
    assert codec.unbase64(codec.base64("")) == Some("");
    hide HashOf, StateNamed, ParseDecimal;
  }

  lemma AckedNext(codec: Codec, rs: seq<Record>, ref: Ref, operation: nat, before: string, after: string, response: string, nonce: string)
    requires rs != [] && rs[|rs| - 1] == MakeRecord(codec, Applied, ref, operation, before, after, response, nonce)
    ensures NextOk(rs, MakeRecord(codec, Acked, ref, operation, before, after, response, nonce))
  {
    MadeState(codec, Applied, ref, operation, before, after, response, nonce);
    MadeState(codec, Acked, ref, operation, before, after, response, nonce);
    MadeIdentity(codec, Acked, Applied, ref, operation, before, after, response, before, after, response, nonce);
    hide StateNamed, RequestIdentity, StateName;
  }

  lemma AckShape(codec: Codec, core: Core, rs: seq<Record>)
    requires Sound(codec) && core.stage.Answered? && core.stage.commit && core.stage.response != "" && rs != []
    requires core.journal == ChainText(codec, rs) && core.memory == MemoryOf(codec, rs)
    requires rs[|rs| - 1].response64 == codec.base64(core.stage.response)
    ensures var st := core.stage;
      var r := MakeRecord(codec, Acked, st.ref, st.operation, st.before, st.after, st.response, core.session);
      var core' := Acknowledge(codec, core);
      && core' == core.(journal := core'.journal, memory := core'.memory, nextSequence := core.nextSequence + 1, stage := core'.stage)
      && (core'.stage == Idle || core'.stage == Stopped)
      && core'.journal == ChainText(codec, rs + [r]) && core'.memory == MemoryOf(codec, rs + [r])
  {
    hide MakeRecord, ChainText, MemoryOf, AppendState, ResponseFor, Sound;
    var st := core.stage;
    AppendedShape(codec, core, rs, Acked, st.ref, st.operation, st.before, st.after, "");
    RememberedResponse(codec, core, rs, st.response);
  }

  lemma AckedFits(codec: Codec, core: Core, ref: Ref, operation: nat, response: string)
    requires AnswersRequest(response, core.session, Decimal(ref.sequence), OperationName(operation), ref.request) && response != ""
    ensures ResponseFits(codec, Acked, ref, operation, response, core.session)
  {
    hide AnswersRequest, OperationName, Decimal;
  }

  lemma MadeResponse(codec: Codec, state: JournalState, ref: Ref, operation: nat, before: string, after: string, response: string, nonce: string)
    requires response != ""
    ensures MakeRecord(codec, state, ref, operation, before, after, response, nonce).response64 == codec.base64(response)
  {
  }

  lemma AckCommitRecord(codec: Codec, s: Sys, core: Core, rs: seq<Record>)
    requires Sound(codec) && Holds(codec, s, core, rs) && core.stage.Answered? && core.stage.commit
    ensures var st := core.stage;
      var r := MakeRecord(codec, Acked, st.ref, st.operation, st.before, st.after, st.response, core.session);
      && rs != [] && s.confirmed < |rs| && st.response != "" && rs[|rs| - 1].response64 == codec.base64(st.response)
      && RecordOk(codec, s.used, r) && NextOk(rs, r) && RequestIdentity(r) == RequestIdentity(rs[|rs| - 1])
      && StateNamed(r.state) == Some(Acked) && SequenceBelow(r, core.nextSequence + 1)
      && IsTracking(core) && (core.crashHeld <==> core.hold != Closed)
  {
    AnsweredState(codec, s, core, rs);
    hide RecordOk, NextOk, StageOk, ChainText, MemoryOf, RequestIdentity, InHand, Holds, MakeRecord, IsIdentity, ResponseFits,
         StateNamed, Sound, Size, SequenceBelow, AnswersRequest, OperationName, Decimal;
    var ref, operation, before, after := core.stage.ref, core.stage.operation, core.stage.before, core.stage.after;
    var response := core.stage.response;
    MadeResponse(codec, Applied, ref, operation, before, after, response, core.session);
    AckedFits(codec, core, ref, operation, response);
    HandRecord(codec, s, core, rs, Acked, ref, operation, before, after, response);
    AckedNext(codec, rs, ref, operation, before, after, response, core.session);
  }

  lemma AckCommitKeeps(codec: Codec, s: Sys, core: Core, rs: seq<Record>) returns (rs': seq<Record>)
    requires Sound(codec) && Holds(codec, s, core, rs) && core.stage.Answered? && core.stage.commit
    ensures Invariant(codec, AckStep(codec, s, core), rs')
  {
    hide RecordOk, NextOk, StageOk, ChainText, MemoryOf, RequestIdentity, InHand, Invariant, MakeRecord, Sound, SequenceBelow,
         Acknowledge, StateNamed, Holds, HashOf;
    AckCommitRecord(codec, s, core, rs);
    LastRecord(codec, s, core, rs);
    SameCore(codec, s, core, rs);
    JournalOf(codec, s, core, rs);
    AckShape(codec, core, rs);
    var st := core.stage;
    var r := MakeRecord(codec, Acked, st.ref, st.operation, st.before, st.after, st.response, core.session);
    rs' := rs + [r];
    var core' := Acknowledge(codec, core);
    SettledStage(codec, core', rs, r, core.nextSequence + 1);
    MemoryState(codec, rs');
    HandAssembles(codec, s, core, core', rs, r);
    MoveAnchor(codec, With(s, core'), AckStep(codec, s, core), rs');
  }

  lemma JournalOf(codec: Codec, s: Sys, core: Core, rs: seq<Record>)
    requires Holds(codec, s, core, rs)
    ensures core.journal == ChainText(codec, rs)
  {
    hide CoreOk, AnchorOk, RecordsOk, Legal, ChainText;
  }

  lemma MoveAnchor(codec: Codec, s: Sys, s': Sys, rs: seq<Record>)
    requires Invariant(codec, s, rs) && s.broker.Some? && IsTracking(s.broker.value)
    requires !s.broker.value.stage.Executing? && !(s.broker.value.stage.Answered? && s.broker.value.stage.commit)
    requires s' == s.(confirmed := s.broker.value.memory.count, confirmedHash := s.broker.value.memory.lastHash)
    ensures Invariant(codec, s', rs)
  {
    MemoryBasics(codec, rs);
    AnchorMoves(codec, s', rs);
    hide StageOk, ChainText, MemoryOf, AnchorOk, RecordsOk, Legal;
  }

  lemma PlainAckSettles(codec: Codec, s: Sys, core: Core, rs: seq<Record>)
    requires Holds(codec, s, core, rs) && core.stage.Answered? && !core.stage.commit
    ensures Invariant(codec, With(s, Acknowledge(codec, core)), rs)
  {
    hide MemoryOf, Legal, RecordsOk, ChainText, SequenceBelow, OneRequest, AppendState, HashOf;
    KeepCore(codec, s, With(s, Acknowledge(codec, core)), rs);
  }

  lemma PlainAckKeeps(codec: Codec, s: Sys, core: Core, rs: seq<Record>)
    requires Holds(codec, s, core, rs) && core.stage.Answered? && !core.stage.commit
    ensures Invariant(codec, AckStep(codec, s, core), rs)
  {
    var core' := Acknowledge(codec, core);
    PlainAckSettles(codec, s, core, rs);
    hide Invariant, AppendState;
    if IsTracking(core) { MoveAnchor(codec, With(s, core'), AckStep(codec, s, core), rs); }
  }

  lemma AckKeeps(codec: Codec, s: Sys, core: Core, rs: seq<Record>) returns (rs': seq<Record>)
    requires Sound(codec) && Holds(codec, s, core, rs)
    ensures Invariant(codec, AckStep(codec, s, core), rs')
  {
    hide Invariant;
    rs' := rs;
    if core.stage.Answered? {
      if core.stage.commit { rs' := AckCommitKeeps(codec, s, core, rs); } else { PlainAckKeeps(codec, s, core, rs); }
    } else {
      assert Acknowledge(codec, core) == core;
      SameCore(codec, s, core, rs);
    }
  }

  lemma SameCore(codec: Codec, s: Sys, core: Core, rs: seq<Record>)
    requires Holds(codec, s, core, rs)
    ensures With(s, core) == s
  {
    hide CoreOk, AnchorOk, RecordsOk, Legal, ChainText;
  }

  lemma AbandonKeeps(codec: Codec, s: Sys, core: Core, rs: seq<Record>) returns (rs': seq<Record>)
    requires Sound(codec) && Holds(codec, s, core, rs)
    ensures Invariant(codec, With(s, Abandon(codec, core)), rs')
  {
    rs' := rs;
    if core.stage.Answered? && core.stage.commit {
      rs' := PermanentKeeps(codec, s, core, rs);
    } else {
      StopKeeps(codec, s, core, rs);
    }
  }

  lemma PermanentShape(codec: Codec, core: Core, rs: seq<Record>)
    requires core.stage.Answered? && core.stage.commit
    requires core.journal == ChainText(codec, rs) && core.memory == MemoryOf(codec, rs)
    ensures var st := core.stage;
      var r := MakeRecord(codec, Permanent, st.ref, st.operation, st.before, st.after, "", core.session);
      var core' := Abandon(codec, core);
      && core' == core.(journal := core'.journal, memory := core'.memory, crashHeld := true, hold := JournalHeld, stage := Stopped)
      && core'.journal == ChainText(codec, rs + [r]) && core'.memory == MemoryOf(codec, rs + [r])
      && ResponseFits(codec, Permanent, st.ref, st.operation, "", core.session)
  {
    hide MakeRecord, ChainText, MemoryOf, AppendState, AnswersRequest;
    var st := core.stage;
    AppendedShape(codec, core, rs, Permanent, st.ref, st.operation, st.before, st.after, "");
  }

  lemma PermanentKeeps(codec: Codec, s: Sys, core: Core, rs: seq<Record>) returns (rs': seq<Record>)
    requires Sound(codec) && Holds(codec, s, core, rs) && core.stage.Answered? && core.stage.commit
    ensures Invariant(codec, With(s, Abandon(codec, core)), rs') && Abandon(codec, core).memory == MemoryOf(codec, rs')
  {
    AnsweredState(codec, s, core, rs);
    LastRecord(codec, s, core, rs);
    hide RecordOk, NextOk, StageOk, ChainText, MemoryOf, RequestIdentity, InHand, Invariant, MakeRecord, IsIdentity, ResponseFits,
         StateNamed, Sound, Size, SequenceBelow, Abandon, AnswersRequest, OperationName, Decimal;
    var ref, operation, before, after := core.stage.ref, core.stage.operation, core.stage.before, core.stage.after;
    JournalOf(codec, s, core, rs);
    SizeOfNothing();
    PermanentShape(codec, core, rs);
    HandRecord(codec, s, core, rs, Permanent, ref, operation, before, after, "");
    var r := MakeRecord(codec, Permanent, ref, operation, before, after, "", core.session);
    MadeState(codec, Applied, ref, operation, before, after, core.stage.response, core.session);
    SameRequestNext(codec, rs, r, Applied, Permanent);
    rs' := rs + [r];
    var core' := Abandon(codec, core);
    SettledStage(codec, core', rs, r, core.nextSequence + 1);
    HandAssembles(codec, s, core, core', rs, r);
  }

  lemma StopKeeps(codec: Codec, s: Sys, core: Core, rs: seq<Record>)
    requires Holds(codec, s, core, rs)
    ensures Invariant(codec, With(s, core.(stage := Stopped)), rs)
  {
    hide MemoryOf, Legal, RecordsOk, ChainText, SequenceBelow, OneRequest;
    KeepCore(codec, s, With(s, core.(stage := Stopped)), rs);
  }

  // ---------------------------------------------------------------- recovery

  lemma CanonicalDigits(s: string)
    requires CanonicalDecimal(s)
    ensures ParseDecimal(s).Some? && Decimal(ParseDecimal(s).value) == s
  {
  }

  /** What the memory holds of the last record. */
  lemma RememberedFields(codec: Codec, rs: seq<Record>)
    requires rs != []
    ensures var m, r := MemoryOf(codec, rs), rs[|rs| - 1];
      && m.request == r.request && m.nonce == r.nonce && m.operation == r.operation && m.root == r.root
      && m.before == r.before && m.after == r.after && m.digest == r.digest && m.response64 == r.response64
      && m.path == OrEmpty(codec.unbase64(r.path64)) && m.other == OrEmpty(codec.unbase64(r.other64))
      && (ParseDecimal(r.sequence).Some? ==> m.sequence == ParseDecimal(r.sequence).value)
  {
    hide HashOf, StateNamed, ParseDecimal;
  }

  lemma CheckedFields(codec: Codec, r: Record)
    requires Sound(codec) && RecordError(codec, r).None?
    ensures CanonicalDecimal(r.sequence) && r.length == Decimal(Size(OrEmpty(codec.unbase64(r.response64))))
    ensures codec.unbase64(r.path64).Some? && codec.base64(codec.unbase64(r.path64).value) == r.path64
    ensures codec.unbase64(r.other64).Some? && codec.base64(codec.unbase64(r.other64).value) == r.other64
    ensures codec.unbase64(r.response64).Some? && codec.base64(codec.unbase64(r.response64).value) == r.response64
    ensures r.digest == ContentDigest(codec, codec.unbase64(r.response64).value)
  {
    LengthText(codec, r);
    hide CanonicalDecimal, Decimal, Size, ParseDecimal, AnswersRequest, StateNamed, ContentDigest;
  }

  /** The acknowledgement that recovery writes is the last record, acknowledged. */
  lemma RecoveredIsAcked(codec: Codec, used: set<string>, rs: seq<Record>)
    requires Sound(codec) && rs != [] && RecordOk(codec, used, rs[|rs| - 1]) && MemoryOf(codec, rs).response64 != ""
    ensures RecoveredRecord(codec, MemoryOf(codec, rs)) == rs[|rs| - 1].(state := StateName(Acked))
  {
    var r := rs[|rs| - 1];
    RememberedFields(codec, rs);
    CheckedFields(codec, r);
    CanonicalDigits(r.sequence);
    assert codec.base64("") == "";
    hide MemoryOf, RecordError, Sound, PlainRecord, IsIdentity, LowerHex, ContentDigest, Size, Decimal, ParseDecimal, CanonicalDecimal, StateName;
  }

  lemma AckedIsOk(codec: Codec, used: set<string>, rs: seq<Record>)
    requires rs != [] && RecordOk(codec, used, rs[|rs| - 1]) && StateNamed(rs[|rs| - 1].state) == Some(Applied)
    ensures var r := rs[|rs| - 1].(state := StateName(Acked));
      RecordOk(codec, used, r) && NextOk(rs, r) && RequestIdentity(r) == RequestIdentity(rs[|rs| - 1]) && StateNamed(r.state) == Some(Acked)
  {
    var p := rs[|rs| - 1];
    var r := p.(state := StateName(Acked));
    StatesAreNamed(Acked);
    AckedIsPlain(p);
    AckedChecks(codec, p);
    assert RequestIdentity(r) == RequestIdentity(p);
    hide StateNamed, StateName, RecordError, PlainRecord, IsIdentity, LowerHex, RequestIdentity;
  }

  lemma AckedIsPlain(p: Record)
    requires PlainRecord(p)
    ensures PlainRecord(p.(state := StateName(Acked)))
  {
    StateNamesArePlain(Acked);
    var name := StateName(Acked);
    hide StateName;
    var a, b := Fields(p, "", ""), Fields(p.(state := name), "", "");
    forall i | 0 <= i < 16 ensures '|' !in b[i] && '\n' !in b[i] {
      if i != 1 { assert b[i] == a[i]; }
    }
  }

  lemma AckedChecks(codec: Codec, p: Record)
    requires RecordError(codec, p).None? && StateNamed(p.state) == Some(Applied)
    ensures RecordError(codec, p.(state := StateName(Acked))).None?
  {
    StatesAreNamed(Acked);
    hide StateName, StateNamed, AnswersRequest, ContentDigest, Size, ParseDecimal, CanonicalDecimal;
  }

  lemma RecoverAppends(codec: Codec, s: Sys, core: Core, rs: seq<Record>, stage: Stage) returns (rs': seq<Record>)
    requires Sound(codec) && Holds(codec, s, core, rs) && core.stage.Idle? && IsTracking(core)
    requires core.memory.state == Last(Applied) && ResponseIntact(codec, core.memory) && stage.Answered? && !stage.commit
    ensures var core' := Append(codec, core, RecoveredRecord(codec, core.memory)).(crashHeld := false, hold := Closed, stage := stage);
      Invariant(codec, With(s, core'), rs')
  {
    LastRecord(codec, s, core, rs);
    JournalOf(codec, s, core, rs);
    LastSequence(codec, s, core, rs);
    hide RecordOk, NextOk, StageOk, ChainText, MemoryOf, RequestIdentity, Invariant, IsIdentity, StateNamed, Sound, SequenceBelow, Append,
         RecoveredRecord, StateName;
    var p := rs[|rs| - 1];
    var r := p.(state := StateName(Acked));
    RecoveredIsAcked(codec, s.used, rs);
    AckedIsOk(codec, s.used, rs);
    AppendTracks(codec, core, rs, r);
    AppendFrame(codec, core, r);
    rs' := rs + [r];
    MemoryState(codec, rs');
    var core' := Append(codec, core, r).(crashHeld := false, hold := Closed, stage := stage);
    if r.nonce == core.session { SequenceOfAcked(p, r, core.nextSequence); }
    AnsweredStage(codec, core', rs, r);
    RecoveryAssembles(codec, s, core, core', rs, r);
  }

  lemma LastSequence(codec: Codec, s: Sys, core: Core, rs: seq<Record>)
    requires Holds(codec, s, core, rs) && core.stage.Idle? && rs != []
    ensures rs[|rs| - 1].nonce == core.session ==> SequenceBelow(rs[|rs| - 1], core.nextSequence)
  {
    hide SequenceBelow, MemoryOf, AnchorOk, RecordsOk, Legal, ChainText;
  }

  lemma SequenceOfAcked(p: Record, r: Record, bound: nat)
    requires SequenceBelow(p, bound) && r.sequence == p.sequence
    ensures SequenceBelow(r, bound + 1)
  {
  }

  lemma AnsweredStage(codec: Codec, core: Core, rs: seq<Record>, r: Record)
    requires core.stage.Answered? && !core.stage.commit && (r.nonce == core.session ==> SequenceBelow(r, core.nextSequence + 1))
    ensures StageOk(codec, core, rs + [r])
  {
    assert (rs + [r])[|rs|] == r;
    hide SequenceBelow, InHand;
  }

  lemma RecoveryAssembles(codec: Codec, s: Sys, core: Core, core': Core, rs: seq<Record>, r: Record)
    requires Holds(codec, s, core, rs) && rs != []
    requires RecordOk(codec, s.used, r) && NextOk(rs, r) && RequestIdentity(r) == RequestIdentity(rs[|rs| - 1])
    requires core'.journal == ChainText(codec, rs + [r]) && core'.memory == MemoryOf(codec, rs + [r])
    requires core'.session == core.session && !core'.crashHeld && core'.hold == Closed && core'.memory.state == Last(Acked)
    requires StageOk(codec, core', rs + [r]) && core'.stage.Answered? && !core'.stage.commit
    ensures Invariant(codec, With(s, core'), rs + [r])
  {
    var s' := With(s, core');
    assert AnchorOk(codec, s.(broker := None), rs) by { hide CoreOk, RecordsOk, Legal, ChainText; }
    AnchorGrows(codec, s.(broker := None), s', rs, r) by { hide CoreOk, RecordsOk, Legal, ChainText, MemoryOf; }
    assert CoreOk(codec, core', rs + [r]);
    hide RecordOk, NextOk, StageOk, CoreOk, AnchorOk, ChainText, MemoryOf, RequestIdentity;
    GrowCore(codec, s, s', rs, r);
  }

  /** A recovery leaves the hold and the journal as its outcome says. */
  lemma RecoverKeeps(codec: Codec, s: Sys, core: Core, text: string, current: Answer<string>, stage: Stage, rs: seq<Record>)
    returns (rs': seq<Record>)
    requires Sound(codec) && Holds(codec, s, core, rs) && core.stage.Idle? && stage.Answered? && !stage.commit
    ensures Invariant(codec, With(s, Recover(codec, core, text, current).0.(stage := stage)), rs')
  {
    JournalOf(codec, s, core, rs);
    RecoverShape(codec, core, text, current);
    hide Invariant, Recover, Append, RecoveredRecord, Sound, ResponseIntact;
    rs' := rs;
    var (core', outcome) := Recover(codec, core, text, current);
    if outcome == Ok(VerifiedAppliedUnacked) {
      rs' := RecoverAppends(codec, s, core, rs, stage);
    } else {
      AnswerKeeps(codec, s, core, core'.(stage := stage), rs);
    }
  }

  lemma RecoverShape(codec: Codec, core: Core, text: string, current: Answer<string>)
    requires core.crashHeld <==> core.hold != Closed
    ensures var (core', outcome) := Recover(codec, core, text, current);
      if outcome == Ok(VerifiedAppliedUnacked) then
        && IsTracking(core) && core.memory.state == Last(Applied) && ResponseIntact(codec, core.memory)
        && core' == Append(codec, core, RecoveredRecord(codec, core.memory)).(crashHeld := false, hold := Closed)
      else
        && core' == core.(crashHeld := core'.crashHeld, hold := core'.hold) && (core'.crashHeld <==> core'.hold != Closed)
        && (IsTracking(core') ==> IsTracking(core))
        && (!core'.crashHeld ==> !core.crashHeld || core.memory.state == Last(Failed) || core.memory.state == Last(Intent))
  {
    hide RecoveryBound, Append, RecoveredRecord, ResponseIntact;
  }

  lemma OpenGate(core: Core, f: Frame)
    requires GateFor(core, f) == Open
    ensures FitsSchema(f)
    ensures IsMutation(f.operation) ==> !core.crashHeld && (2 in f.fields ==> RootKnown(f.fields[2]))
  {
    hide RootKnown, SchemaOf, IsHex, Parses, ParseDecimal, OperationName, HoldName, IsBlank;
  }

  lemma MutationKeeps(codec: Codec, s: Sys, core: Core, f: Frame, digest: string, volatile: Answer<string>, rs: seq<Record>)
    returns (rs': seq<Record>)
    requires Sound(codec) && Holds(codec, s, core, rs) && core.stage.Idle? && f.sequence == core.nextSequence
    requires GateFor(core, f) == Open && IsMutation(f.operation) && WithinBounds(f) && IsHex(digest, 64) && LowerHex(digest) == digest
    requires IdentityFor(codec, s, core, f, digest, volatile).Ok?
    ensures Invariant(codec, Begun(codec, s, core, RefOf(f, digest), f.operation, IdentityFor(codec, s, core, f, digest, volatile).value), rs')
  {
    hide Invariant, Begun, Sound, IsIdentity, RootKnown, FitsSchema, WithinBounds, GateFor, IsHex, LowerHex;
    OpenGate(core, f);
    FrameRefOk(f, digest);
    var ref := RefOf(f, digest);
    CapturedIsIdentity(codec, s.world, OperationName(f.operation), ref.root, ref.path, ref.other, volatile);
    rs' := BeginKeeps(codec, s, core, ref, f.operation, IdentityFor(codec, s, core, f, digest, volatile).value, rs);
  }

  lemma RequestKeeps(codec: Codec, s: Sys, core: Core, f: Frame, digest: string, volatile: Answer<string>, result: Answer<Values>,
                     rs: seq<Record>) returns (rs': seq<Record>)
    requires Sound(codec) && Holds(codec, s, core, rs) && WithinBounds(f) && IsHex(digest, 64) && LowerHex(digest) == digest
    ensures Invariant(codec, RequestStep(codec, s, core, f, digest, volatile, result), rs')
  {
    SameCore(codec, s, core, rs);
    JournalOf(codec, s, core, rs);
    RequestShape(codec, s, core, f, digest, volatile, result);
    hide Invariant, Recover, IdentityFor, GateFor, Sound, WithinBounds, IsHex, LowerHex, Receive, Begun, RequestStep, IsMutation;
    rs' := rs;
    if core.stage.Idle? {
      var identity := IdentityFor(codec, s, core, f, digest, volatile);
      if Begins(codec, s, core, f, digest, volatile) {
        rs' := MutationKeeps(codec, s, core, f, digest, volatile, rs);
      } else {
        var core' := Receive(codec, core, f, digest, identity, result);
        if Recovers(codec, core, f, identity) {
          rs' := RecoverKeeps(codec, s, core, FieldOr(f, 24, ""), identity, core'.stage, rs);
        } else {
          AnswerKeeps(codec, s, core, core', rs);
        }
      }
    }
  }

  predicate Begins(codec: Codec, s: Sys, core: Core, f: Frame, digest: string, volatile: Answer<string>) {
    IsExpected(core, f) && GateFor(core, f) == Open && IsMutation(f.operation)
    && IdentityFor(codec, s, core, f, digest, volatile).Ok?
  }

  predicate Recovers(codec: Codec, core: Core, f: Frame, identity: Answer<string>) {
    IsExpected(core, f) && GateFor(core, f) == Open && !IsMutation(f.operation) && f.operation == RECOVER_SESSION
    && Recover(codec, core, FieldOr(f, 24, ""), identity).1.Ok?
  }

  /** The three things a request can come to: an intent, a recovery, or an answer that writes nothing. */
  lemma RequestShape(codec: Codec, s: Sys, core: Core, f: Frame, digest: string, volatile: Answer<string>, result: Answer<Values>)
    requires With(s, core) == s
    ensures var identity := IdentityFor(codec, s, core, f, digest, volatile);
      var core' := Receive(codec, core, f, digest, identity, result);
      var s' := RequestStep(codec, s, core, f, digest, volatile, result);
      if !core.stage.Idle? then s' == s
      else if Begins(codec, s, core, f, digest, volatile) then
        s' == Begun(codec, s, core, RefOf(f, digest), f.operation, identity.value)
      else
        && s' == With(s, core')
        && (core'.stage == Stopped || (core'.stage.Answered? && !core'.stage.commit))
        && if Recovers(codec, core, f, identity) then
             core'.stage.Answered? && core' == Recover(codec, core, FieldOr(f, 24, ""), identity).0.(stage := core'.stage)
           else core' == core.(stage := core'.stage)
  {
    hide IdentityFor, GateFor, Recover, Passed, FailedWith, OperationName, AppendState, RefOf, OutcomeValues;
  }

  // ---------------------------------------------------------------- restarts

  lemma AcceptedRecords(codec: Codec, used: set<string>, trust: Trust, created: bool, rs: seq<Record>)
    requires Sound(codec) && RecordsOk(codec, used, rs)
    requires IsAccepted(Load(codec, trust, created, ChainText(codec, rs)))
    ensures Legal(codec, rs) && Trusted(codec, trust, rs)
    ensures Load(codec, trust, created, ChainText(codec, rs)).memory == MemoryOf(codec, rs)
  {
    hide Load, Legal, Sound, ChainText, ChainLines, MemoryOf, Trusted, RecordError, PlainRecord;
    RecordsArePlain(codec, used, rs);
    var loaded := AcceptedIsLegal(codec, trust, created, ChainText(codec, rs));
    TextHasChainLines(codec, rs);
    LegalIsPlain(codec, loaded);
    LinesDetermineChain(codec, loaded, rs);
  }

  lemma RecordsArePlain(codec: Codec, used: set<string>, rs: seq<Record>)
    requires RecordsOk(codec, used, rs)
    ensures PlainChain(rs)
  {
    hide RecordError, PlainRecord, IsIdentity, LowerHex;
    forall i | 0 <= i < |rs| ensures PlainRecord(rs[i]) { assert RecordOk(codec, used, rs[i]); }
  }

  /** The journal determines its records. */
  lemma SameRecords(codec: Codec, s: Sys, s': Sys, rs: seq<Record>, rs': seq<Record>)
    requires Sound(codec) && Invariant(codec, s, rs) && Invariant(codec, s', rs') && s'.journal == s.journal
    ensures rs' == rs
  {
    hide Legal, AnchorOk, CoreOk, RecordOk, ChainText, ChainLines, Sound, PlainRecord;
    RecordsArePlain(codec, s.used, rs);
    RecordsArePlain(codec, s'.used, rs');
    TextHasChainLines(codec, rs);
    TextHasChainLines(codec, rs');
    LinesDetermineChain(codec, rs, rs');
  }

  /** A freshly loaded broker: either the journal was accepted, or nothing will ever be written by it. */
  lemma LoadedShape(codec: Codec, trust: Trust, created: bool, text: string)
    ensures var l := Load(codec, trust, created, text);
      && (l.crashHeld <==> l.hold != Closed)
      && (l.hold == Closed || l.hold == FailedHeld || l.hold == AmbiguousHeld ==> IsAccepted(l))
      && (!l.crashHeld ==> l.memory.state == Empty || l.memory.state == Last(Acked) || l.memory.state == Legacy)
  {
    hide ScanLines, Lines, Size, IsHex, Zeros, HoldAfter, StartsWith;
    HoldIsClosed(trust, created, ScanLines(codec, trust, Lines(text)).cursor.memory.state);
  }

  predicate ClosedMeans(trust: Trust, created: bool, state: LastState) {
    var hold := HoldAfter(trust, created, state);
    hold != LegacyHeld && (hold == Closed ==> state == Empty || state == Last(Acked) || state == Legacy)
  }

  lemma HoldIsClosed(trust: Trust, created: bool, state: LastState)
    ensures ClosedMeans(trust, created, state)
  {
    match state
    case Empty =>
    case Legacy =>
    case Last(last) =>
      match last
      case Intent =>
      case JobClosed =>
      case Applied =>
      case Acked =>
      case Failed =>
      case Permanent =>
  }

  lemma NotLegacy(codec: Codec, rs: seq<Record>)
    ensures MemoryOf(codec, rs).state != Legacy
  {
  }

  lemma RestartKeeps(codec: Codec, s: Sys, trust: Trust, created: bool, session: string, controllerPid: nat, creation: string,
                     capability: string, rs: seq<Record>)
    requires Sound(codec) && Invariant(codec, s, rs) && s.broker.None? && session !in s.used && IsHex(session, 32)
    ensures Invariant(codec, s.(broker := Some(Start(codec, trust, created, s.journal, session, controllerPid, creation, capability)),
                                used := s.used + {session}), rs)
  {
    var core := Start(codec, trust, created, s.journal, session, controllerPid, creation, capability);
    LoadedShape(codec, trust, created, s.journal);
    if IsAccepted(Load(codec, trust, created, s.journal)) { AcceptedRecords(codec, s.used, trust, created, rs); }
    NotLegacy(codec, rs);
    FreshSession(codec, s.used, session, rs);
    hide Load, Legal, MemoryOf, ChainText, RecordOk, SequenceBelow, OneRequest, HashOf, IsHex;
    assert StageOk(codec, core, rs);
    assert CoreOk(codec, core, rs);
  }

  lemma FreshSession(codec: Codec, used: set<string>, session: string, rs: seq<Record>)
    requires RecordsOk(codec, used, rs) && session !in used
    ensures RecordsOk(codec, used + {session}, rs) && (rs != [] ==> rs[|rs| - 1].nonce != session)
  {
    hide RecordError, PlainRecord, IsIdentity, LowerHex;
    if rs != [] { assert RecordOk(codec, used, rs[|rs| - 1]); }
    forall i | 0 <= i < |rs| ensures RecordOk(codec, used + {session}, rs[i]) { assert RecordOk(codec, used, rs[i]); }
  }

  lemma WorldKeeps(codec: Codec, s: Sys, world: World, rs: seq<Record>)
    requires Invariant(codec, s, rs)
    ensures Invariant(codec, s.(world := world), rs)
  {
    hide CoreOk, RecordsOk, Legal, ChainText, OneRequest;
  }

  lemma CrashKeeps(codec: Codec, s: Sys, rs: seq<Record>)
    requires Invariant(codec, s, rs)
    ensures Invariant(codec, s.(broker := None), rs)
  {
    hide CoreOk, RecordsOk, Legal, ChainText, OneRequest;
  }

  // ---------------------------------------------------------------- every step

  lemma AfterIsIdentity(codec: Codec, s: Sys, core: Core, after: string, rs: seq<Record>)
    requires Sound(codec) && Holds(codec, s, core, rs) && core.stage.Executing?
    ensures IsIdentity(AfterIdentity(codec, s, core, after))
  {
    ExecutingState(codec, s, core, rs);
    var ref := core.stage.ref;
    CapturedIsIdentity(codec, s.world, OperationName(core.stage.operation), ref.root, ref.path, ref.other, Ok(after));
    hide Invariant, IsIdentity, Sound, OperationName, Capture, RequestIdentity;
  }

  lemma ThrownIsIdentity(codec: Codec, s: Sys, core: Core, recaptured: Option<string>, rs: seq<Record>)
    requires Sound(codec) && Holds(codec, s, core, rs) && core.stage.Executing?
    ensures IsIdentity(ThrownIdentity(codec, s, core, recaptured))
  {
    ExecutingState(codec, s, core, rs);
    if recaptured.Some? { AfterIsIdentity(codec, s, core, recaptured.value, rs); }
    hide Invariant, IsIdentity, AfterIdentity;
    assert InHand(codec, core, rs[|rs| - 1], core.stage.ref, core.stage.operation, core.stage.before);
  }

  lemma BrokerStepKeeps(codec: Codec, s: Sys, core: Core, a: Action, rs: seq<Record>) returns (rs': seq<Record>)
    requires Sound(codec) && Holds(codec, s, core, rs) && Plausible(codec, core, a)
    ensures Invariant(codec, BrokerStep(codec, s, core, a), rs')
  {
    hide Invariant, Sound, RequestStep, CloseJob, AckStep, IsIdentity, AfterIdentity, ThrownIdentity, WithinBounds, IsHex, LowerHex, Size, Passed, FailedWith;
    rs' := rs;
    match a
    case Request(f, digest, volatile, result) => rs' := RequestKeeps(codec, s, core, f, digest, volatile, result, rs);
    case Mutate(root, path, identity) => WorldKeeps(codec, s, Change(s.world, root, path, identity), rs);
    case JobIsClosed(after, receipt) =>
      if core.stage.Executing? {
        AfterIsIdentity(codec, s, core, after, rs);
        rs' := CloseJobKeeps(codec, s, core, AfterIdentity(codec, s, core, after), receipt, rs);
      } else {
        IdleJob(codec, s, core, AfterIdentity(codec, s, core, after), receipt, rs);
      }
    case Succeed(after, values) =>
      AfterIsIdentity(codec, s, core, after, rs);
      rs' := FinishKeeps(codec, s, core, AfterIdentity(codec, s, core, after), values, rs);
    case Throw(recaptured, message) =>
      ThrownIsIdentity(codec, s, core, recaptured, rs);
      rs' := FailKeeps(codec, s, core, ThrownIdentity(codec, s, core, recaptured), message, rs);
    case Ack => rs' := AckKeeps(codec, s, core, rs);
    case ControllerGone => rs' := AbandonKeeps(codec, s, core, rs);
    case Crash => CrashKeeps(codec, s, rs);
    case _ =>
  }

  lemma IdleJob(codec: Codec, s: Sys, core: Core, after: string, receipt: string, rs: seq<Record>)
    requires Holds(codec, s, core, rs) && !core.stage.Executing?
    ensures With(s, CloseJob(codec, core, after, receipt)) == s
  {
    SameCore(codec, s, core, rs);
    hide Invariant;
  }

  lemma StepKeeps(codec: Codec, s: Sys, a: Action, rs: seq<Record>) returns (rs': seq<Record>)
    requires Sound(codec) && Invariant(codec, s, rs)
    ensures Invariant(codec, Step(codec, s, a), rs')
  {
    hide Invariant, Sound, BrokerStep, Plausible, Start, IsHex;
    rs' := rs;
    match a
    case Disturb(root, path, identity) => WorldKeeps(codec, s, Change(s.world, root, path, identity), rs);
    case Restart(anchored, created, session, controllerPid, creation, capability) =>
      if s.broker.None? && session !in s.used && IsHex(session, 32) && !(created && (anchored || s.journal != "")) {
        var trust := Trust(anchored, if anchored then s.confirmed else 0, if anchored then s.confirmedHash else Zeros(64));
        RestartKeeps(codec, s, trust, created, session, controllerPid, creation, capability, rs);
      }
    case _ =>
      if s.broker.Some? && Plausible(codec, s.broker.value, a) {
        rs' := BrokerStepKeeps(codec, s, s.broker.value, a, rs);
      }
  }

  lemma InitiallyHolds(codec: Codec, world: World)
    ensures Invariant(codec, Initial(world), [])
  {
  }

  /** Every run keeps the invariant, and so has records behind its journal. */
  lemma {:induction false} RunKeeps(codec: Codec, world: World, actions: seq<Action>) returns (rs: seq<Record>)
    requires Sound(codec)
    ensures Invariant(codec, Run(codec, Initial(world), actions), rs)
    decreases |actions|
  {
    hide Invariant, Sound, Step;
    if actions == [] {
      InitiallyHolds(codec, world);
      rs := [];
    } else {
      var before := actions[..|actions| - 1];
      rs := RunKeeps(codec, world, before);
      rs := StepKeeps(codec, Run(codec, Initial(world), before), actions[|actions| - 1], rs);
    }
  }
}
