/**
 A mutation from its request to its end: which lines it adds to the journal, what
 they say and which response they carry, when it succeeds, when it throws, and when
 the controller leaves before acknowledging it
 (scripts/r4b-evidence/windows-native-boundary.cs, ProcessRequest, AppendJournal
 and the loop of RunPipeServer).
 */
module JournalMutations {
  import opened Basics
  import opened BrokerFrame
  import opened JournalText
  import opened JournalResponse
  import opened Journal
  import opened JournalLoader
  import opened JournalBroker
  import opened JournalGate

  // ---------------------------------------------------------------- lines

  /** The record of the request in a state, with the identities around it and the response it carries. */
  function Entry(codec: Codec, core: Core, f: Frame, request: string, state: string, before: string, after: string, response: string): Record {
    Record(state, Decimal(f.sequence), core.session, OperationName(f.operation), request,
           if 2 in f.fields then f.fields[2] else "SESSION",
           codec.base64(if 3 in f.fields then f.fields[3] else ""), codec.base64(if 4 in f.fields then f.fields[4] else ""),
           before, after,
           if response == "" then Zeros(64) else codec.digest(response), Decimal(Size(response)),
           if response == "" then "" else codec.base64(response))
  }

  /** The hash at the end of the lines, each chained to the one before it. */
  function ChainEnd(codec: Codec, hash: string, rs: seq<Record>): string
    decreases |rs|
  {
    if rs == [] then hash else Hash(codec, rs[|rs| - 1], ChainEnd(codec, hash, rs[..|rs| - 1]))
  }

  function ChainText(codec: Codec, hash: string, rs: seq<Record>): string
    decreases |rs|
  {
    if rs == [] then ""
    else
      var init := rs[..|rs| - 1];
      ChainText(codec, hash, init) + Line(codec, rs[|rs| - 1], ChainEnd(codec, hash, init)) + "\n"
  }

  /** The journal has grown by exactly these lines. */
  predicate Grew(codec: Codec, core: Core, core': Core, rs: seq<Record>) {
    && core'.journal == core.journal + ChainText(codec, core.memory.lastHash, rs)
    && core'.memory.lastHash == ChainEnd(codec, core.memory.lastHash, rs) && core'.memory.count == core.memory.count + |rs|
  }

  /** Nothing else about the broker has changed. */
  predicate OnlyWrote(core: Core, core': Core) {
    core' == core.(journal := core'.journal, memory := core'.memory, stage := core'.stage)
  }

  lemma OneLineMore(codec: Codec, core: Core, core': Core, core'': Core, rs: seq<Record>, r: Record)
    requires Grew(codec, core, core', rs) && core''.journal == core'.journal + Line(codec, r, core'.memory.lastHash) + "\n"
    requires core''.memory.lastHash == Hash(codec, r, core'.memory.lastHash) && core''.memory.count == core'.memory.count + 1
    ensures Grew(codec, core, core'', rs + [r])
  {
    hide Line, Hash;
    assert (rs + [r])[..|rs|] == rs;
    var text := ChainText(codec, core.memory.lastHash, rs);
    assert core.journal + text + Line(codec, r, core'.memory.lastHash) + "\n" == core.journal + (text + Line(codec, r, core'.memory.lastHash) + "\n");
  }

  /** One append, for the request in hand. */
  lemma AppendsEntry(codec: Codec, core: Core, now: Core, f: Frame, request: string, state: JournalState, before: string, after: string,
                     response: string)
    requires now.session == core.session
    ensures var next := AppendState(codec, now, state, RefOf(f, request), f.operation, before, after, response, now.session);
      var r := Entry(codec, core, f, request, StateName(state), before, after, ResponseFor(codec, now.memory, state, response));
      && next.journal == now.journal + Line(codec, r, now.memory.lastHash) + "\n"
      && next.memory.lastHash == Hash(codec, r, now.memory.lastHash) && next.memory.count == now.memory.count + 1
      && next.memory.state == Last(state) && next.memory.response64 == r.response64 && OnlyWrote(now, next)
  {
    StatesAreNamed(state);
    hide OperationName, Line, Hash, Zeros, Decimal, Size, ResponseFor, StateName, StateNamed, ParseDecimal;
  }

  /** A mutation that begins writes its intent and nothing else. */
  lemma IntentIsJournaled(codec: Codec, core: Core, f: Frame, request: string, before: string, result: Answer<Values>)
    requires core.stage.Idle? && f.sequence == core.nextSequence && MayMutate(core, f)
    ensures var core' := Receive(codec, core, f, request, Ok(before), result);
      && Grew(codec, core, core', [Entry(codec, core, f, request, "INTENT_DURABLE", before, before, "")]) && OnlyWrote(core, core')
      && core'.memory.state == Last(Intent) && core'.stage == Executing(RefOf(f, request), f.operation, before)
  {
    OpensIff(core, f);
    MutationsNeedAll(core, f);
    hide GateFor, MayMutate, Admits, FitsSchema, OperationName, Line, Hash, Entry, StateName, IsMutatingName, RefOf, ChainText, ChainEnd;
    AppendsEntry(codec, core, core, f, request, Intent, before, before, "");
    var core' := Receive(codec, core, f, request, Ok(before), result);
    assert StateName(Intent) == "INTENT_DURABLE" by { IntentName(); }
    assert Grew(codec, core, core, []) by { NothingGrew(codec, core); }
    hide AppendState;
    OneLineMore(codec, core, core, core', [], Entry(codec, core, f, request, "INTENT_DURABLE", before, before, ""));
    assert [] + [Entry(codec, core, f, request, "INTENT_DURABLE", before, before, "")]
      == [Entry(codec, core, f, request, "INTENT_DURABLE", before, before, "")];
  }

  lemma IntentName()
    ensures StateName(Intent) == "INTENT_DURABLE"
  {
  }

  lemma NothingGrew(codec: Codec, core: Core)
    ensures Grew(codec, core, core, [])
  {
  }

  // ---------------------------------------------------------------- a mutation that succeeds

  /** The lines of a mutation up to its response: a finished process adds the receipt of its job. */
  function LinesBefore(codec: Codec, core: Core, f: Frame, request: string, before: string, after: string, receipt: Option<string>): seq<Record> {
    [Entry(codec, core, f, request, "INTENT_DURABLE", before, before, "")]
    + if receipt.Some? && (f.operation == 15 || f.operation == 16)
      then [Entry(codec, core, f, request, "JOB_CLOSED_DURABLE", before, after, receipt.value)] else []
  }

  /** What the controller reads: the outcome, and the end of the journal before it. */
  function Told(codec: Codec, core: Core, f: Frame, request: string, lines: seq<Record>, status: string, reason: string, values: Values): string {
    Response(core.session, Decimal(f.sequence), OperationName(f.operation), request, status, reason,
             values + [("journalBeforeResponseSha256", ChainEnd(codec, core.memory.lastHash, lines)),
                       ("journalBeforeResponseSequence", Decimal(core.memory.count + |lines|))])
  }

  lemma JobIsClosed(codec: Codec, core: Core, f: Frame, request: string, before: string, after: string, result: Answer<Values>, receipt: Option<string>)
    requires core.stage.Idle? && f.sequence == core.nextSequence && MayMutate(core, f)
    ensures var begun := Receive(codec, core, f, request, Ok(before), result);
      var closed := if receipt.Some? then CloseJob(codec, begun, after, receipt.value) else begun;
      && Grew(codec, core, closed, LinesBefore(codec, core, f, request, before, after, receipt)) && OnlyWrote(core, closed)
      && closed.stage == Executing(RefOf(f, request), f.operation, before)
  {
    hide Receive, Line, Hash, Entry, RefOf, ChainText, ChainEnd, MayMutate, OperationName, StateName;
    IntentIsJournaled(codec, core, f, request, before, result);
    var begun := Receive(codec, core, f, request, Ok(before), result);
    var intent := Entry(codec, core, f, request, "INTENT_DURABLE", before, before, "");
    if receipt.Some? && (f.operation == 15 || f.operation == 16) {
      AppendsEntry(codec, core, begun, f, request, JobClosed, before, after, receipt.value);
      assert StateName(JobClosed) == "JOB_CLOSED_DURABLE" by { OtherNames(); }
      hide AppendState;
      OneLineMore(codec, core, begun, CloseJob(codec, begun, after, receipt.value), [intent],
                  Entry(codec, core, f, request, "JOB_CLOSED_DURABLE", before, after, receipt.value));
    } else {
      assert LinesBefore(codec, core, f, request, before, after, receipt) == [intent];
    }
  }

  lemma OtherNames()
    ensures StateName(JobClosed) == "JOB_CLOSED_DURABLE" && StateName(Applied) == "APPLIED_UNACKED_DURABLE"
    ensures StateName(Acked) == "ACKED_COMMITTED_DURABLE" && StateName(Failed) == "FAILED_HELD" && StateName(Permanent) == "PERMANENT_HELD"
  {
  }

  /**
   A mutation that succeeds is in the journal with its intent, its effect and the
   very response, before anyone has read that response.
   */
  lemma SuccessIsJournaled(codec: Codec, core: Core, f: Frame, request: string, before: string, result: Answer<Values>,
                           after: string, receipt: Option<string>, values: Values)
    requires core.stage.Idle? && f.sequence == core.nextSequence && MayMutate(core, f)
    ensures var core' := Processed(codec, core, f, request, Ok(before), result, Succeeded(after, receipt, values));
      var lines := LinesBefore(codec, core, f, request, before, after, receipt);
      var response := Told(codec, core, f, request, lines, "PASS", "", values);
      && Grew(codec, core, core', lines + [Entry(codec, core, f, request, "APPLIED_UNACKED_DURABLE", before, after, response)])
      && OnlyWrote(core, core') && core'.memory.state == Last(Applied)
      && core'.memory.response64 == (if response == "" then "" else codec.base64(response))
      && core'.stage == Answered(RefOf(f, request), f.operation, before, after, response, true)
  {
    hide Receive, CloseJob, Line, Hash, ChainText, MayMutate, OperationName, StateName, LinesBefore, Response, Decimal, Size, Zeros;
    JobIsClosed(codec, core, f, request, before, after, result, receipt);
    IntentIsJournaled(codec, core, f, request, before, result);
    var begun := Receive(codec, core, f, request, Ok(before), result);
    var closed := if receipt.Some? then CloseJob(codec, begun, after, receipt.value) else begun;
    var lines := LinesBefore(codec, core, f, request, before, after, receipt);
    var response := Told(codec, core, f, request, lines, "PASS", "", values);
    assert Passed(closed, RefOf(f, request), f.operation, values) == response;
    AppendsEntry(codec, core, closed, f, request, Applied, before, after, response);
    assert StateName(Applied) == "APPLIED_UNACKED_DURABLE" by { OtherNames(); }
    hide AppendState, Told, Passed, RefOf, ChainEnd;
    OneLineMore(codec, core, closed, Processed(codec, core, f, request, Ok(before), result, Succeeded(after, receipt, values)), lines,
                Entry(codec, core, f, request, "APPLIED_UNACKED_DURABLE", before, after, response));
  }

  /** Acknowledged, it is committed under the same response, and the next sequence number opens. */
  lemma AcknowledgementIsJournaled(codec: Codec, core: Core, f: Frame, request: string, before: string, result: Answer<Values>,
                                   after: string, receipt: Option<string>, values: Values)
    requires Sound(codec) && core.stage.Idle? && f.sequence == core.nextSequence && MayMutate(core, f)
    ensures var core' := Acknowledge(codec, Processed(codec, core, f, request, Ok(before), result, Succeeded(after, receipt, values)));
      var lines := LinesBefore(codec, core, f, request, before, after, receipt);
      var response := Told(codec, core, f, request, lines, "PASS", "", values);
      && Grew(codec, core, core', lines + [Entry(codec, core, f, request, "APPLIED_UNACKED_DURABLE", before, after, response)]
                                        + [Entry(codec, core, f, request, "ACKED_COMMITTED_DURABLE", before, after, response)])
      && core' == core.(journal := core'.journal, memory := core'.memory, nextSequence := core.nextSequence + 1, stage := Idle)
  {
    hide Processed, Line, Hash, ChainText, ChainEnd, OperationName, StateName, LinesBefore, Response, Decimal, Size, Zeros, RefOf;
    SuccessIsJournaled(codec, core, f, request, before, result, after, receipt, values);
    var now := Processed(codec, core, f, request, Ok(before), result, Succeeded(after, receipt, values));
    var lines := LinesBefore(codec, core, f, request, before, after, receipt);
    var response := Told(codec, core, f, request, lines, "PASS", "", values);
    assert f.operation != 20 by { NoShutdown(core, f); }
    hide MayMutate;
    AppendsEntry(codec, core, now, f, request, Acked, before, after, "");
    assert StateName(Acked) == "ACKED_COMMITTED_DURABLE" by { OtherNames(); }
    assert ResponseFor(codec, now.memory, Acked, "") == response by { RepeatsTheResponse(codec, now.memory, response); }
    hide AppendState, ResponseFor, Told, Entry, Sound;
    OneLineMore(codec, core, now, Acknowledge(codec, now),
                lines + [Entry(codec, core, f, request, "APPLIED_UNACKED_DURABLE", before, after, response)],
                Entry(codec, core, f, request, "ACKED_COMMITTED_DURABLE", before, after, response));
  }

  lemma NoShutdown(core: Core, f: Frame)
    requires MayMutate(core, f)
    ensures f.operation != 20
  {
    hide FitsSchema, SpeaksForController, KnowsJournal, HasCapability, OperationName, IsMutatingName;
    MutationsNeedAll(core, f);
  }

  lemma RepeatsTheResponse(codec: Codec, m: Memory, response: string)
    requires Sound(codec) && m.response64 == if response == "" then "" else codec.base64(response)
    ensures ResponseFor(codec, m, Acked, "") == response
  {
    if response != "" { assert codec.unbase64(codec.base64(response)) == Some(response); assert codec.unbase64("") == Some(""); }
  }

  /** If the controller leaves instead, the journal says so, without a response, and the broker stays held. */
  lemma DepartureIsJournaled(codec: Codec, core: Core, f: Frame, request: string, before: string, result: Answer<Values>,
                             after: string, receipt: Option<string>, values: Values)
    requires core.stage.Idle? && f.sequence == core.nextSequence && MayMutate(core, f)
    ensures var core' := Abandon(codec, Processed(codec, core, f, request, Ok(before), result, Succeeded(after, receipt, values)));
      var lines := LinesBefore(codec, core, f, request, before, after, receipt);
      var response := Told(codec, core, f, request, lines, "PASS", "", values);
      && Grew(codec, core, core', lines + [Entry(codec, core, f, request, "APPLIED_UNACKED_DURABLE", before, after, response)]
                                        + [Entry(codec, core, f, request, "PERMANENT_HELD", before, after, "")])
      && core' == core.(journal := core'.journal, memory := core'.memory, crashHeld := true, hold := JournalHeld, stage := Stopped)
  {
    hide Processed, Line, Hash, ChainText, ChainEnd, OperationName, StateName, LinesBefore, Response, Decimal, Size, Zeros, RefOf, MayMutate;
    SuccessIsJournaled(codec, core, f, request, before, result, after, receipt, values);
    var now := Processed(codec, core, f, request, Ok(before), result, Succeeded(after, receipt, values));
    var lines := LinesBefore(codec, core, f, request, before, after, receipt);
    var response := Told(codec, core, f, request, lines, "PASS", "", values);
    AppendsEntry(codec, core, now, f, request, Permanent, before, after, "");
    assert StateName(Permanent) == "PERMANENT_HELD" by { OtherNames(); }
    assert ResponseFor(codec, now.memory, Permanent, "") == "";
    hide AppendState, ResponseFor, Told, Entry;
    OneLineMore(codec, core, now, Abandon(codec, now),
                lines + [Entry(codec, core, f, request, "APPLIED_UNACKED_DURABLE", before, after, response)],
                Entry(codec, core, f, request, "PERMANENT_HELD", before, after, ""));
  }

  // ---------------------------------------------------------------- a mutation that throws

  /**
   A mutation that throws is in the journal with its intent and its failure, under
   the identity captured last, and the broker is held; acknowledging that writes
   nothing and only opens the next sequence number.
   */
  lemma FailureIsJournaled(codec: Codec, core: Core, f: Frame, request: string, before: string, result: Answer<Values>,
                           recaptured: Option<string>, message: string)
    requires core.stage.Idle? && f.sequence == core.nextSequence && MayMutate(core, f)
    ensures var core' := Processed(codec, core, f, request, Ok(before), result, Threw(recaptured, message));
      var intent := [Entry(codec, core, f, request, "INTENT_DURABLE", before, before, "")];
      var response := Told(codec, core, f, request, intent, "FAIL", message, []);
      var after := if recaptured.Some? then recaptured.value else before;
      && Grew(codec, core, core', intent + [Entry(codec, core, f, request, "FAILED_HELD", before, after, response)])
      && core' == core.(journal := core'.journal, memory := core'.memory, crashHeld := true, hold := FailedHeld, stage := core'.stage)
      && core'.stage == Answered(RefOf(f, request), f.operation, before, after, response, false)
      && Acknowledge(codec, core') == core'.(nextSequence := core.nextSequence + 1, stage := Idle)
  {
    hide Receive, Line, Hash, ChainText, OperationName, StateName, Response, Decimal, Size, Zeros;
    assert f.operation != 20 by { NoShutdown(core, f); }
    hide MayMutate;
    IntentIsJournaled(codec, core, f, request, before, result);
    var begun := Receive(codec, core, f, request, Ok(before), result);
    var intent := [Entry(codec, core, f, request, "INTENT_DURABLE", before, before, "")];
    var response := Told(codec, core, f, request, intent, "FAIL", message, []);
    var after := if recaptured.Some? then recaptured.value else before;
    assert FailedWith(begun, begun.session, RefOf(f, request), OperationName(f.operation), message) == response by {
      assert [] + Anchor(begun) == Anchor(begun);
    }
    AppendsEntry(codec, core, begun, f, request, Failed, before, after, response);
    assert StateName(Failed) == "FAILED_HELD" by { OtherNames(); }
    assert ResponseFor(codec, begun.memory, Failed, response) == response;
    hide AppendState, ResponseFor, Told, FailedWith, RefOf, ChainEnd, Entry;
    OneLineMore(codec, core, begun, Processed(codec, core, f, request, Ok(before), result, Threw(recaptured, message)), intent,
                Entry(codec, core, f, request, "FAILED_HELD", before, after, response));
  }
}
