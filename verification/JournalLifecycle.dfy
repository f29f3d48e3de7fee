/**
 What a legal journal says: each record is one that a writer could have made, and
 the records of each request run through one of twelve lifecycles
 (scripts/r4b-evidence/windows-native-boundary.cs:1838-1942).
 */
module JournalLifecycle {
  import opened Basics
  import opened JournalText
  import opened JournalResponse
  import opened Journal
  import opened JournalLoader

  // ---------------------------------------------------------------- one record

  /** The digest and the base64 of a response, which are blank for none. */
  predicate Carries(codec: Codec, r: Record, response: string) {
    && r.length == Decimal(Size(response)) && Size(response) < 0x1_0000_0000_0000_0000
    && (if response == "" then r.digest == Zeros(64) && r.response64 == ""
        else r.digest == codec.digest(response) && r.response64 == codec.base64(response))
  }

  /** What the state of a record demands of its response. */
  predicate Demands(codec: Codec, r: Record, response: string) {
    || ((r.state == "INTENT_DURABLE" || r.state == "PERMANENT_HELD") && response == "")
    || (r.state == "JOB_CLOSED_DURABLE" && response != "" && codec.receiptOk(response))
    || ((r.state == "APPLIED_UNACKED_DURABLE" || r.state == "ACKED_COMMITTED_DURABLE" || r.state == "FAILED_HELD") && response != ""
        && AnswersRequest(response, r.nonce, r.sequence, r.operation, r.request))
  }

  /** A record as it is written: canonical numbers, hexadecimal identifiers, encoded paths, and a response that fits its state. */
  ghost predicate IsWritten(codec: Codec, r: Record) {
    && (exists n: nat :: n < 0x1_0000_0000_0000_0000 && r.sequence == Decimal(n))
    && IsHex(r.nonce, 32) && IsHex(r.request, 64) && r.before != "" && r.after != ""
    && (exists path :: r.path64 == codec.base64(path)) && (exists other :: r.other64 == codec.base64(other))
    && exists response :: Carries(codec, r, response) && Demands(codec, r, response)
  }

  lemma StateNames(name: string)
    ensures StateNamed(name) == if name == "INTENT_DURABLE" then Some(Intent) else if name == "JOB_CLOSED_DURABLE" then Some(JobClosed)
      else if name == "APPLIED_UNACKED_DURABLE" then Some(Applied) else if name == "ACKED_COMMITTED_DURABLE" then Some(Acked)
      else if name == "FAILED_HELD" then Some(Failed) else if name == "PERMANENT_HELD" then Some(Permanent) else None
  {
  }

  lemma Encoded(codec: Codec, text: string)
    requires Sound(codec)
    ensures codec.unbase64(text).Some? <==> exists s :: text == codec.base64(s)
    ensures codec.unbase64(text).Some? ==> codec.base64(codec.unbase64(text).value) == text
  {
    if s :| text == codec.base64(s) { assert codec.unbase64(text) == Some(s); }
  }

  lemma ParsesLength(text: string, n: nat)
    requires n < LIMIT64
    ensures CanonicalDecimal(text) && ParseDecimal(text) == Some(n) <==> text == Decimal(n)
  {
    ParseOfDecimal(n);
  }

  /** With its decoded response at hand. */
  lemma ResponseIff(codec: Codec, r: Record, response: string)
    requires Sound(codec) && codec.unbase64(r.response64) == Some(response) && FieldsOk(r)
    ensures Carries(codec, r, response) <==> ParseDecimal(r.length) == Some(Size(response)) && ContentDigest(codec, response) == r.digest
  {
    Encoded(codec, r.response64);
    hide Decimal, ParseDecimal, Size, IsHex;
    if ParseDecimal(r.length) == Some(Size(response)) { ParsesLength(r.length, Size(response)); }
    if r.length == Decimal(Size(response)) && Size(response) < LIMIT64 { ParsesLength(r.length, Size(response)); }
  }

  lemma CarriedIsDecoded(codec: Codec, r: Record, response: string)
    requires Sound(codec) && Carries(codec, r, response)
    ensures codec.unbase64(r.response64) == Some(response) && CanonicalDecimal(r.length) && IsHex(r.digest, 64)
  {
    ParsesLength(r.length, Size(response));
    assert codec.unbase64(codec.base64("")) == Some("") && codec.base64("") == "";
    hide Decimal, ParseDecimal, Size;
  }

  /** The state's demand, as the loader checks it. */
  lemma DemandIff(codec: Codec, r: Record, response: string)
    requires Carries(codec, r, response)
    ensures var state := StateNamed(r.state);
      Demands(codec, r, response) <==>
        && state.Some? && (ResponseRequired(state.value) ==> response != "")
        && (!ResponseRequired(state.value) ==> response == "" && r.digest == Zeros(64) && r.response64 == "")
        && (state.value == JobClosed ==> codec.receiptOk(response))
        && (state.value == Applied || state.value == Acked || state.value == Failed ==>
              AnswersRequest(response, r.nonce, r.sequence, r.operation, r.request))
  {
    StateNames(r.state);
    NamesDiffer();
    hide AnswersRequest, StateNamed, Decimal, Size;
  }

  lemma NamesDiffer()
    ensures "INTENT_DURABLE" != "PERMANENT_HELD"
    ensures "INTENT_DURABLE" != "JOB_CLOSED_DURABLE" && "JOB_CLOSED_DURABLE" != "PERMANENT_HELD"
    ensures "APPLIED_UNACKED_DURABLE" != "ACKED_COMMITTED_DURABLE"
    ensures "APPLIED_UNACKED_DURABLE" != "INTENT_DURABLE" && "APPLIED_UNACKED_DURABLE" != "JOB_CLOSED_DURABLE"
      && "APPLIED_UNACKED_DURABLE" != "FAILED_HELD" && "APPLIED_UNACKED_DURABLE" != "PERMANENT_HELD"
    ensures "ACKED_COMMITTED_DURABLE" != "INTENT_DURABLE" && "ACKED_COMMITTED_DURABLE" != "JOB_CLOSED_DURABLE"
      && "ACKED_COMMITTED_DURABLE" != "FAILED_HELD" && "ACKED_COMMITTED_DURABLE" != "PERMANENT_HELD"
    ensures "FAILED_HELD" != "INTENT_DURABLE" && "FAILED_HELD" != "JOB_CLOSED_DURABLE" && "FAILED_HELD" != "PERMANENT_HELD"
  {
    assert "INTENT_DURABLE"[0] == 'I' && "PERMANENT_HELD"[0] == 'P' && "JOB_CLOSED_DURABLE"[0] == 'J' && "FAILED_HELD"[0] == 'F';
    assert "APPLIED_UNACKED_DURABLE"[1] == 'P' && "ACKED_COMMITTED_DURABLE"[1] == 'C' && "APPLIED_UNACKED_DURABLE"[0] == 'A';
    assert "ACKED_COMMITTED_DURABLE"[0] == 'A';
  }

  /** The loader's checks of one record pass exactly the records that could have been written. */
  lemma LegalRecordIff(codec: Codec, r: Record)
    requires Sound(codec)
    ensures RecordError(codec, r).None? <==> IsWritten(codec, r)
  {
    CanonicalMeans(r.sequence);
    Encoded(codec, r.path64);
    Encoded(codec, r.other64);
    Encoded(codec, r.response64);
    hide Sound, AnswersRequest, StateNamed, CanonicalDecimal, Decimal, ParseDecimal, Size, IsHex, ContentDigest;
    if IsWritten(codec, r) { WrittenPasses(codec, r); }
    if RecordError(codec, r).None? {
      var response := codec.unbase64(r.response64).value;
      ResponseIff(codec, r, response);
      DemandIff(codec, r, response);
      hide Carries, Demands;
      assert Carries(codec, r, response) && Demands(codec, r, response);
    }
  }

  lemma WrittenPasses(codec: Codec, r: Record)
    requires Sound(codec) && IsWritten(codec, r)
    ensures RecordError(codec, r).None?
  {
    hide Sound, AnswersRequest, StateNamed, CanonicalDecimal, Decimal, ParseDecimal, Size, IsHex, ContentDigest, Carries, Demands;
    var n: nat :| n < 0x1_0000_0000_0000_0000 && r.sequence == Decimal(n);
    var response :| Carries(codec, r, response) && Demands(codec, r, response);
    Encoded(codec, r.path64);
    Encoded(codec, r.other64);
    ParsesLength(r.sequence, n);
    CarriedIsDecoded(codec, r, response);
    assert FieldsOk(r);
    hide FieldsOk;
    ResponseIff(codec, r, response);
    DemandIff(codec, r, response);
  }

  // ---------------------------------------------------------------- the records of a request

  /** The states that the records of one request may have, in order. */
  predicate IsLifecycle(states: seq<JournalState>) {
    || states == [Intent] || states == [Intent, JobClosed]
    || states == [Intent, Applied] || states == [Intent, JobClosed, Applied]
    || states == [Intent, Failed] || states == [Intent, JobClosed, Failed]
    || states == [Intent, Permanent] || states == [Intent, JobClosed, Permanent]
    || states == [Intent, Applied, Acked] || states == [Intent, JobClosed, Applied, Acked]
    || states == [Intent, Applied, Permanent] || states == [Intent, JobClosed, Applied, Permanent]
  }

  /** Only behind one of these may another request begin. */
  predicate IsOver(states: seq<JournalState>) { states != [] && (states[|states| - 1] == Acked || states[|states| - 1] == Failed) }

  /** The states of the last record's request so far; an unknown state has none. */
  function RequestStates(rs: seq<Record>): Option<seq<JournalState>> {
    if rs == [] then Some([])
    else
      var n := |rs| - 1;
      var state := StateNamed(rs[n].state);
      if state.None? then None
      else if n == 0 || RequestIdentity(rs[n]) != RequestIdentity(rs[n - 1]) then Some([state.value])
      else
        var before := RequestStates(rs[..n]);
        if before.None? then None else Some(before.value + [state.value])
  }

  /** Every request runs through a lifecycle, ends before the next begins, and is acknowledged with its own response. */
  ghost predicate RunThroughLifecycles(rs: seq<Record>) {
    rs == [] ||
      var n := |rs| - 1;
      && RunThroughLifecycles(rs[..n])
      && RequestStates(rs).Some? && IsLifecycle(RequestStates(rs).value)
      && (n > 0 && RequestIdentity(rs[n]) != RequestIdentity(rs[n - 1]) ==> RequestStates(rs[..n]).Some? && IsOver(RequestStates(rs[..n]).value))
      && (n > 0 && StateNamed(rs[n].state) == Some(Acked) ==>
            rs[n].digest == rs[n - 1].digest && rs[n].length == rs[n - 1].length && rs[n].response64 == rs[n - 1].response64)
  }

  lemma LastState(rs: seq<Record>)
    requires rs != [] && RequestStates(rs).Some?
    ensures var states := RequestStates(rs).value;
      states != [] && StateNamed(rs[|rs| - 1].state) == Some(states[|states| - 1])
  {
  }

  /** One more state continues a lifecycle exactly when it may follow the last. */
  lemma LifecycleGrows(states: seq<JournalState>, next: JournalState)
    requires IsLifecycle(states)
    ensures IsLifecycle(states + [next]) <==> Follows(states[|states| - 1], next)
  {
    var more := states + [next];
    assert more[|states|] == next && more[|states| - 1] == states[|states| - 1];
    assert |states| <= 4;
    if |states| == 1 { assert more == [states[0], next]; }
    else if |states| == 2 { assert more == [states[0], states[1], next]; }
    else if |states| == 3 { assert more == [states[0], states[1], states[2], next]; }
  }

  lemma OneStateLives(state: JournalState)
    ensures IsLifecycle([state]) <==> state == Intent
  {
  }

  /**
   A journal is legal exactly when each record could have been written and the
   records of each request run through one of the twelve lifecycles.
   */
  lemma {:induction false} LegalIff(codec: Codec, rs: seq<Record>)
    requires Sound(codec)
    ensures Legal(codec, rs) <==> (forall r | r in rs :: IsWritten(codec, r) && PlainRecord(r)) && RunThroughLifecycles(rs)
    decreases |rs|
  {
    if rs != [] {
      var n := |rs| - 1;
      LegalIff(codec, rs[..n]);
      LegalRecordIff(codec, rs[n]);
      assert rs == rs[..n] + [rs[n]];
      if RunThroughLifecycles(rs[..n]) { NextIff(rs); }
      hide Sound, IsWritten, PlainRecord, RecordError, RequestIdentity, StateNamed, NextOk, RequestStates, IsLifecycle, IsOver;
    }
  }

  lemma NextIff(rs: seq<Record>)
    requires rs != [] && RunThroughLifecycles(rs[..|rs| - 1])
    ensures NextOk(rs[..|rs| - 1], rs[|rs| - 1]) <==> RunThroughLifecycles(rs)
  {
    hide RequestIdentity, StateNamed, Follows, IsLifecycle;
    var n := |rs| - 1;
    var state := StateNamed(rs[n].state);
    if state.Some? { OneStateLives(state.value); }
    if n > 0 {
      assert rs[..n][n - 1] == rs[n - 1];
      LastState(rs[..n]);
      if state.Some? { LifecycleGrows(RequestStates(rs[..n]).value, state.value); }
      OnlyAckedAfter(RequestStates(rs[..n]).value, state);
    }
  }

  lemma OnlyAckedAfter(states: seq<JournalState>, state: Option<JournalState>)
    requires IsLifecycle(states)
    ensures state == Some(Acked) ==> !IsLifecycle([state.value])
  {
  }

  // ---------------------------------------------------------------- the hold that a journal leaves

  /** The state of the last record, if there is one. */
  function EndOf(rs: seq<Record>): Option<JournalState> { if rs == [] then None else StateNamed(rs[|rs| - 1].state) }

  /**
   An accepted journal leaves the broker open exactly when its last request is over
   and the controller's anchor, or a new journal, vouches for it; an anchored one that
   is not over can be recovered, and any other is held for good.
   */
  lemma HoldIff(codec: Codec, trust: Trust, created: bool, text: string) returns (rs: seq<Record>)
    requires Sound(codec) && IsAccepted(Load(codec, trust, created, text))
    ensures Lines(text) == ChainLines(codec, rs) && Legal(codec, rs)
    ensures var (l, end) := (Load(codec, trust, created, text), EndOf(rs));
      && (l.crashHeld <==> l.hold != Closed)
      && (l.hold == Closed <==> (end == None || end == Some(Acked)) && (trust.anchored || created))
      && (l.hold == OrphanedHeld <==> (end == None || end == Some(Acked)) && !trust.anchored && !created)
      && (l.hold == FailedHeld <==> (end == Some(Intent) || end == Some(Applied) || end == Some(Failed)) && trust.anchored)
      && (l.hold == JournalHeld <==>
            || end == Some(Permanent) || end == Some(JobClosed)
            || ((end == Some(Intent) || end == Some(Applied) || end == Some(Failed)) && !trust.anchored))
  {
    hide ScanLines, Legal, Trusted, ChainLines, Sound, Lines, StateNamed, IsHex, Size, Zeros;
    rs := AcceptedIsLegal(codec, trust, created, text);
    LegalEnds(codec, rs);
    hide MemoryOf;
    HoldTable(trust, created, EndOf(rs));
    assert Load(codec, trust, created, text).hold == HoldAfter(trust, created, MemoryOf(codec, rs).state);
  }

  lemma HoldTable(trust: Trust, created: bool, end: Option<JournalState>)
    ensures var hold := HoldAfter(trust, created, if end.None? then Empty else Last(end.value));
      && (hold == Closed <==> (end == None || end == Some(Acked)) && (trust.anchored || created))
      && (hold == OrphanedHeld <==> (end == None || end == Some(Acked)) && !trust.anchored && !created)
      && (hold == FailedHeld <==> (end == Some(Intent) || end == Some(Applied) || end == Some(Failed)) && trust.anchored)
      && (hold == JournalHeld <==>
            || end == Some(Permanent) || end == Some(JobClosed)
            || ((end == Some(Intent) || end == Some(Applied) || end == Some(Failed)) && !trust.anchored))
  {
    if end.Some? {
      match end.value
      case Intent =>
      case JobClosed =>
      case Applied =>
      case Acked =>
      case Failed =>
      case Permanent =>
    }
  }

  lemma LegalEnds(codec: Codec, rs: seq<Record>)
    requires Legal(codec, rs)
    ensures MemoryOf(codec, rs).state == (if rs == [] then Empty else Last(EndOf(rs).value)) && (rs != [] ==> EndOf(rs).Some?)
  {
    hide Follows, FieldsOk, AnswersRequest, PlainRecord, RequestIdentity;
  }

  /** A refused journal is held, with nothing for a request to be anchored to. */
  lemma RefusedIsHeld(codec: Codec, trust: Trust, created: bool, text: string)
    requires Load(codec, trust, created, text).failure.Some?
    ensures var l := Load(codec, trust, created, text);
      l.crashHeld && l.hold == (if trust.anchored then JournalHeld else OrphanedHeld) && l.memory.count == 0 && l.memory.lastHash == Zeros(64)
  {
    hide ScanLines, Lines, IsHex, Size, StartsWith, Zeros;
  }
}
