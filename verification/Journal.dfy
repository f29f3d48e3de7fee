/**
 The write-ahead journal of the native broker: its hash-chained records, the
 writer and the loader (scripts/r4b-evidence/windows-native-boundary.cs,
 JournalHash, AppendJournal and LoadJournal).

 SHA-256, canonical base64 and the job-receipt check are parameters, a `Codec`.
 Text stands for its UTF-8 bytes, which determine it.
 */
module Journal {
  import opened Basics
  import opened JournalText
  import opened JournalResponse
  import Utf8

  datatype Codec = Codec(
    digest: string -> string,
    base64: string -> string,
    unbase64: string -> Option<string>,
    receiptOk: string -> bool)

  /** What the loader and the writer rely on: 64 hexadecimal digits, and one base64 text for each content. */
  ghost predicate Sound(codec: Codec) {
    && (forall s :: IsHex(codec.digest(s), 64))
    && (forall s :: Plain(codec.base64(s)) && codec.unbase64(codec.base64(s)) == Some(s))
    && (forall s, t :: codec.unbase64(s) == Some(t) ==> codec.base64(t) == s)
    && codec.base64("") == "" && !codec.receiptOk("")
  }

  datatype JournalState = Intent | JobClosed | Applied | Acked | Failed | Permanent

  function StateName(state: JournalState): string {
    match state
    case Intent => "INTENT_DURABLE"
    case JobClosed => "JOB_CLOSED_DURABLE"
    case Applied => "APPLIED_UNACKED_DURABLE"
    case Acked => "ACKED_COMMITTED_DURABLE"
    case Failed => "FAILED_HELD"
    case Permanent => "PERMANENT_HELD"
  }

  function StateNamed(name: string): Option<JournalState> {
    if name == StateName(Intent) then Some(Intent)
    else if name == StateName(JobClosed) then Some(JobClosed)
    else if name == StateName(Applied) then Some(Applied)
    else if name == StateName(Acked) then Some(Acked)
    else if name == StateName(Failed) then Some(Failed)
    else if name == StateName(Permanent) then Some(Permanent)
    else None
  }

  lemma StatesAreNamed(state: JournalState)
    ensures StateNamed(StateName(state)) == Some(state)
  {
  }

  lemma StateNamesArePlain(state: JournalState)
    ensures Plain(StateName(state))
  {
    if state.Applied? || state.Acked? { LongStateNamesAreWords(state); } else { ShortStateNamesAreWords(state); }
    hide StateName;
    WordsArePlain(StateName(state));
  }

  lemma LongStateNamesAreWords(state: JournalState)
    requires state.Applied? || state.Acked?
    ensures IsWord(StateName(state))
  {
  }

  lemma ShortStateNamesAreWords(state: JournalState)
    requires !state.Applied? && !state.Acked?
    ensures IsWord(StateName(state))
  {
  }

  lemma WordsArePlain(s: string)
    requires IsWord(s)
    ensures Plain(s)
  {
  }

  // ---------------------------------------------------------------- records

  /** The fields of a record as they stand in the line, without the chain fields. */
  datatype Record = Record(
    state: string, sequence: string, nonce: string, operation: string, request: string, root: string,
    path64: string, other64: string, before: string, after: string,
    digest: string, length: string, response64: string)

  function Fields(r: Record, previous: string, hash: string): (fields: seq<string>)
    ensures |fields| == 16
  {
    ["J2", r.state, r.sequence, r.nonce, r.operation, r.request, r.root, r.path64, r.other64, r.before, r.after,
     r.digest, r.length, r.response64, previous, hash]
  }

  function RecordOf(fields: seq<string>): Record
    requires |fields| == 16
  {
    Record(fields[1], fields[2], fields[3], fields[4], fields[5], fields[6], fields[7], fields[8], fields[9], fields[10],
           fields[11], fields[12], fields[13])
  }

  function Hash(codec: Codec, r: Record, previous: string): string {
    codec.digest(Join(Fields(r, previous, "")[..15], '|'))
  }

  function Line(codec: Codec, r: Record, previous: string): string {
    Join(Fields(r, previous, Hash(codec, r, previous)), '|')
  }

  function RequestIdentity(r: Record): string {
    Join([r.sequence, r.nonce, r.operation, r.request, r.root, r.path64, r.other64], '|')
  }

  ghost predicate PlainRecord(r: Record) {
    Free(Fields(r, "", ""), '|') && Free(Fields(r, "", ""), '\n')
  }

  lemma FieldsRestore(fields: seq<string>)
    requires |fields| == 16 && fields[0] == "J2"
    ensures Fields(RecordOf(fields), fields[14], fields[15]) == fields
  {
  }

  lemma PlainFields(r: Record, previous: string, hash: string, c: char)
    requires Free(Fields(r, "", ""), c) && c !in previous && c !in hash
    ensures Free(Fields(r, previous, hash), c)
  {
    var all := Fields(r, previous, hash);
    forall i | 0 <= i < |all| ensures c !in all[i] {
      if i < 14 { assert all[i] == Fields(r, "", "")[i]; }
    }
  }

  lemma FieldsArePlain(r: Record, previous: string, hash: string, c: char)
    requires Free(Fields(r, previous, hash), c)
    ensures Free(Fields(r, "", ""), c)
  {
    var bare := Fields(r, "", "");
    forall i | 0 <= i < |bare| ensures c !in bare[i] {
      if i < 14 { assert bare[i] == Fields(r, previous, hash)[i]; }
    }
  }

  lemma HexIsPlain(s: string, n: nat)
    requires IsHex(s, n)
    ensures Plain(s)
  {
  }

  /** A written line splits into the fields it was written from. */
  lemma LineSplits(codec: Codec, r: Record, previous: string)
    requires Sound(codec) && PlainRecord(r) && IsHex(previous, 64)
    ensures Split(Line(codec, r, previous), '|') == Fields(r, previous, Hash(codec, r, previous))
    ensures '\n' !in Line(codec, r, previous) && Line(codec, r, previous) != ""
    ensures RecordOf(Fields(r, previous, Hash(codec, r, previous))) == r
  {
    var hash := Hash(codec, r, previous);
    var fields := Fields(r, previous, hash);
    HexIsPlain(previous, 64);
    HexIsPlain(hash, 64);
    PlainFields(r, previous, hash, '|');
    PlainFields(r, previous, hash, '\n');
    SplitOfJoin(fields, '|');
    JoinHasNo(fields, '|', '\n');
    assert Join(fields, '|') == fields[0] + ['|'] + Join(fields[1..], '|');
  }

  /** A line with the right shape and hash is a written line. */
  lemma SplitIsLine(codec: Codec, line: string)
    requires '\n' !in line
    requires var fields := Split(line, '|');
      |fields| == 16 && fields[0] == "J2" && codec.digest(Join(fields[..15], '|')) == fields[15]
    ensures var fields := Split(line, '|');
      line == Line(codec, RecordOf(fields), fields[14]) && fields[15] == Hash(codec, RecordOf(fields), fields[14])
      && PlainRecord(RecordOf(fields))
  {
    var fields := Split(line, '|');
    var r := RecordOf(fields);
    JoinOfSplit(line, '|');
    FieldsRestore(fields);
    assert Fields(r, fields[14], "")[..15] == fields[..15];
    JoinPartsFree(fields, '|', '\n');
    FieldsArePlain(r, fields[14], fields[15], '|');
    FieldsArePlain(r, fields[14], fields[15], '\n');
  }

  lemma {:induction false} JoinPartsFree(parts: seq<string>, c: char, d: char)
    requires |parts| >= 1 && d !in Join(parts, c)
    ensures Free(parts, d)
  {
    if |parts| > 1 { JoinPartsFree(parts[1..], c, d); }
  }

  /** Equal hashes without a collision: equal records and equal predecessors. */
  lemma HashBinds(codec: Codec, r: Record, previous: string, r': Record, previous': string)
    requires PlainRecord(r) && PlainRecord(r') && IsHex(previous, 64) && IsHex(previous', 64)
    requires Join(Fields(r, previous, "")[..15], '|') == Join(Fields(r', previous', "")[..15], '|')
    ensures r == r' && previous == previous'
  {
    HexIsPlain(previous, 64);
    HexIsPlain(previous', 64);
    PlainFields(r, previous, "", '|');
    PlainFields(r', previous', "", '|');
    var a, b := Fields(r, previous, "")[..15], Fields(r', previous', "")[..15];
    JoinIsInjective(a, b, '|');
    assert a[1] == b[1] && a[2] == b[2] && a[3] == b[3] && a[4] == b[4] && a[5] == b[5] && a[6] == b[6] && a[7] == b[7];
    assert a[8] == b[8] && a[9] == b[9] && a[10] == b[10] && a[11] == b[11] && a[12] == b[12] && a[13] == b[13] && a[14] == b[14];
  }

  // ---------------------------------------------------------------- one record

  datatype JournalError =
    | ByteBound | JournalTruncated | JournalChain | JournalRecord | JournalEncoding | JournalResponseBase64
    | JournalResponseDigest | JournalStateSchema | JobClosedReceipt | JournalResponseIdentity | JournalHash
    | JournalTransition | JournalResponseReplay | JournalPrefixMismatch | JournalSuffixRequest | JournalPrefixMissing

  function Size(text: string): nat { |Utf8.Encode(text)| }

  predicate FieldsOk(r: Record) {
    && CanonicalDecimal(r.sequence) && IsHex(r.nonce, 32) && IsHex(r.request, 64)
    && r.before != "" && r.after != "" && IsHex(r.digest, 64) && CanonicalDecimal(r.length)
  }

  predicate ResponseRequired(state: JournalState) {
    state == JobClosed || state == Applied || state == Acked || state == Failed
  }

  function ContentDigest(codec: Codec, response: string): string {
    if response == "" then Zeros(64) else codec.digest(response)
  }

  /** The checks that concern one record alone, in the order of the loader. */
  function RecordError(codec: Codec, r: Record): Option<JournalError> {
    if !FieldsOk(r) then Some(JournalRecord)
    else if codec.unbase64(r.path64).None? || codec.unbase64(r.other64).None? then Some(JournalEncoding)
    else if codec.unbase64(r.response64).None? then Some(JournalResponseBase64)
    else
      var response := codec.unbase64(r.response64).value;
      var state := StateNamed(r.state);
      if ParseDecimal(r.length) != Some(Size(response)) || ContentDigest(codec, response) != r.digest then Some(JournalResponseDigest)
      else if state.None? || (ResponseRequired(state.value) && response == "")
              || (!ResponseRequired(state.value) && (response != "" || r.digest != Zeros(64) || r.response64 != ""))
      then Some(JournalStateSchema)
      else if state.value == JobClosed && !codec.receiptOk(response) then Some(JobClosedReceipt)
      else if (state.value == Applied || state.value == Acked || state.value == Failed)
              && !AnswersRequest(response, r.nonce, r.sequence, r.operation, r.request)
      then Some(JournalResponseIdentity)
      else None
  }

  /** May `next` follow `last` within one request? */
  predicate Follows(last: JournalState, next: JournalState) {
    match last
    case Intent => next == JobClosed || next == Applied || next == Failed || next == Permanent
    case JobClosed => next == Applied || next == Failed || next == Permanent
    case Applied => next == Acked || next == Permanent
    case _ => false
  }

  // ---------------------------------------------------------------- what the broker remembers

  datatype LastState = Empty | Legacy | Last(state: JournalState)

  datatype Memory = Memory(
    lastHash: string, count: nat, state: LastState, request: string, nonce: string, operation: string, sequence: nat,
    root: string, path: string, other: string, before: string, after: string, digest: string, response64: string)

  const INITIAL_MEMORY := Memory(
    Zeros(64), 0, Empty, Zeros(64), Zeros(32), "NONE", 0, "SESSION", "", "", "ABSENT", "ABSENT", Zeros(64), "")

  function OrEmpty(text: Option<string>): string { if text.Some? then text.value else "" }

  function Remember(codec: Codec, mem: Memory, r: Record, hash: string): Memory {
    var state, sequence := StateNamed(r.state), ParseDecimal(r.sequence);
    Memory(hash, mem.count + 1, if state.Some? then Last(state.value) else Empty, r.request, r.nonce, r.operation,
           if sequence.Some? then sequence.value else 0, r.root,
           OrEmpty(codec.unbase64(r.path64)), OrEmpty(codec.unbase64(r.other64)), r.before, r.after, r.digest, r.response64)
  }

  // ---------------------------------------------------------------- the loader

  /** The controller's anchor: the sequence and digest of the prefix it has confirmed. */
  datatype Trust = Trust(anchored: bool, confirmed: nat, digest: string)

  datatype Cursor = Cursor(memory: Memory, lastIdentity: string, suffixIdentity: string, prefixVerified: bool)

  datatype Scan = Scan(cursor: Cursor, error: Option<JournalError>)

  function TransitionError(codec: Codec, cur: Cursor, r: Record): Option<JournalError> {
    var mem, state := cur.memory, StateNamed(r.state);
    if mem.count == 0 then (if state == Some(Intent) then None else Some(JournalTransition))
    else if RequestIdentity(r) != cur.lastIdentity then
      if (mem.state == Last(Acked) || mem.state == Last(Failed)) && state == Some(Intent) then None else Some(JournalTransition)
    else if !(mem.state.Last? && state.Some? && Follows(mem.state.state, state.value)) then Some(JournalTransition)
    else if state == Some(Acked)
            && (r.digest != mem.digest || r.length != Decimal(Size(OrEmpty(codec.unbase64(mem.response64))))
                || r.response64 != mem.response64)
    then Some(JournalResponseReplay)
    else None
  }

  function Accept(codec: Codec, trust: Trust, cur: Cursor, r: Record, hash: string): Scan {
    var count, identity := cur.memory.count + 1, RequestIdentity(r);
    var memory := Remember(codec, cur.memory, r, hash);
    if trust.anchored && count == trust.confirmed then
      if hash != trust.digest then Scan(cur, Some(JournalPrefixMismatch)) else Scan(Cursor(memory, identity, "", true), None)
    else if trust.anchored && count > trust.confirmed then
      if cur.suffixIdentity == "" then Scan(Cursor(memory, identity, identity, cur.prefixVerified), None)
      else if identity != cur.suffixIdentity then Scan(cur, Some(JournalSuffixRequest))
      else Scan(Cursor(memory, identity, cur.suffixIdentity, cur.prefixVerified), None)
    else Scan(Cursor(memory, identity, cur.suffixIdentity, cur.prefixVerified), None)
  }

  function CheckLine(codec: Codec, trust: Trust, cur: Cursor, line: string): Scan {
    var fields := Split(line, '|');
    if |fields| != 16 || fields[0] != "J2" || fields[14] != cur.memory.lastHash || |fields[15]| != 64 then
      Scan(cur, Some(JournalChain))
    else
      var r := RecordOf(fields);
      var alone := RecordError(codec, r);
      if |fields[14]| != 64 || !IsHex(fields[15], 64) then Scan(cur, Some(JournalRecord))
      else if alone.Some? then Scan(cur, alone)
      else if codec.digest(Join(fields[..15], '|')) != fields[15] then Scan(cur, Some(JournalHash))
      else
        var transition := TransitionError(codec, cur, r);
        if transition.Some? then Scan(cur, transition) else Accept(codec, trust, cur, r, fields[15])
  }

  function InitialCursor(trust: Trust): Cursor {
    Cursor(INITIAL_MEMORY, "", "", trust.confirmed == 0 && trust.digest == Zeros(64))
  }

  function ScanLines(codec: Codec, trust: Trust, lines: seq<string>): Scan {
    if lines == [] then Scan(InitialCursor(trust), None)
    else
      var scan := ScanLines(codec, trust, lines[..|lines| - 1]);
      if scan.error.Some? then scan else CheckLine(codec, trust, scan.cursor, lines[|lines| - 1])
  }

  // ---------------------------------------------------------------- chains of records

  function HashOf(codec: Codec, rs: seq<Record>): string {
    if rs == [] then Zeros(64) else Hash(codec, rs[|rs| - 1], HashOf(codec, rs[..|rs| - 1]))
  }

  function ChainLines(codec: Codec, rs: seq<Record>): seq<string> {
    if rs == [] then []
    else
      var n := |rs| - 1;
      ChainLines(codec, rs[..n]) + [Line(codec, rs[n], HashOf(codec, rs[..n]))]
  }

  function ChainText(codec: Codec, rs: seq<Record>): string {
    if rs == [] then ""
    else
      var n := |rs| - 1;
      ChainText(codec, rs[..n]) + Line(codec, rs[n], HashOf(codec, rs[..n])) + "\n"
  }

  function MemoryOf(codec: Codec, rs: seq<Record>): Memory {
    if rs == [] then INITIAL_MEMORY
    else Remember(codec, MemoryOf(codec, rs[..|rs| - 1]), rs[|rs| - 1], HashOf(codec, rs))
  }

  /** May r be the next record after the records so far? */
  ghost predicate NextOk(rs: seq<Record>, r: Record) {
    if rs == [] then StateNamed(r.state) == Some(Intent)
    else
      var p := rs[|rs| - 1];
      var last, next := StateNamed(p.state), StateNamed(r.state);
      if RequestIdentity(r) != RequestIdentity(p) then
        (last == Some(Acked) || last == Some(Failed)) && next == Some(Intent)
      else
        && last.Some? && next.Some? && Follows(last.value, next.value)
        && (next == Some(Acked) ==> r.digest == p.digest && r.length == p.length && r.response64 == p.response64)
  }

  ghost predicate Legal(codec: Codec, rs: seq<Record>) {
    rs == [] ||
      var n := |rs| - 1;
      Legal(codec, rs[..n]) && RecordError(codec, rs[n]).None? && PlainRecord(rs[n]) && NextOk(rs[..n], rs[n])
  }

  /** All records belong to one request. */
  ghost predicate OneRequest(rs: seq<Record>) {
    forall i, j | 0 <= i < |rs| && 0 <= j < |rs| :: RequestIdentity(rs[i]) == RequestIdentity(rs[j])
  }

  /** What an anchor at (confirmed, digest) demands of the records, as far as they go. */
  ghost predicate Agrees(codec: Codec, trust: Trust, rs: seq<Record>) {
    trust.anchored && |rs| >= trust.confirmed ==>
      (trust.confirmed > 0 ==> HashOf(codec, rs[..trust.confirmed]) == trust.digest) && OneRequest(rs[trust.confirmed..])
  }

  function CursorOf(codec: Codec, trust: Trust, rs: seq<Record>): Cursor {
    Cursor(MemoryOf(codec, rs),
           if rs == [] then "" else RequestIdentity(rs[|rs| - 1]),
           if trust.anchored && |rs| > trust.confirmed then RequestIdentity(rs[trust.confirmed]) else "",
           (trust.confirmed == 0 && trust.digest == Zeros(64)) || (trust.anchored && 1 <= trust.confirmed <= |rs|))
  }

  function RecordsOf(lines: seq<string>): seq<Record>
    requires forall line | line in lines :: |Split(line, '|')| == 16
  {
    seq(|lines|, i requires 0 <= i < |lines| => RecordOf(Split(lines[i], '|')))
  }

  // ---------------------------------------------------------------- facts about chains

  lemma HashOfIsHex(codec: Codec, rs: seq<Record>)
    requires Sound(codec)
    ensures IsHex(HashOf(codec, rs), 64)
  {
  }

  lemma MemoryBasics(codec: Codec, rs: seq<Record>)
    ensures MemoryOf(codec, rs).count == |rs| && MemoryOf(codec, rs).lastHash == HashOf(codec, rs)
  {
  }

  lemma IdentityIsSome(r: Record)
    ensures RequestIdentity(r) != ""
  {
    var parts := [r.sequence, r.nonce, r.operation, r.request, r.root, r.path64, r.other64];
    assert Join(parts, '|') == parts[0] + ['|'] + Join(parts[1..], '|');
  }

  lemma OneRequestGrows(rs: seq<Record>, r: Record)
    requires OneRequest(rs) && (rs == [] || RequestIdentity(r) == RequestIdentity(rs[0]))
    ensures OneRequest(rs + [r])
  {
    var all := rs + [r];
    forall i, j | 0 <= i < |all| && 0 <= j < |all| ensures RequestIdentity(all[i]) == RequestIdentity(all[j]) {
      if i < |rs| { assert RequestIdentity(rs[i]) == RequestIdentity(rs[0]); }
      if j < |rs| { assert RequestIdentity(rs[j]) == RequestIdentity(rs[0]); }
    }
  }

  lemma OneRequestShrinks(rs: seq<Record>, r: Record)
    requires OneRequest(rs + [r])
    ensures OneRequest(rs) && (rs == [] || RequestIdentity(r) == RequestIdentity(rs[0]))
  {
    var all := rs + [r];
    forall i, j | 0 <= i < |rs| && 0 <= j < |rs| ensures RequestIdentity(rs[i]) == RequestIdentity(rs[j]) {
      assert all[i] == rs[i] && all[j] == rs[j];
    }
    if rs != [] { assert all[0] == rs[0] && all[|rs|] == r; }
  }

  /** The loader's replay comparison with the last record's decoded length is one of texts. */
  lemma LengthText(codec: Codec, p: Record)
    requires RecordError(codec, p).None?
    ensures p.length == Decimal(Size(OrEmpty(codec.unbase64(p.response64))))
  {
  }

  lemma TransitionMeans(codec: Codec, trust: Trust, rs: seq<Record>, r: Record)
    requires Legal(codec, rs)
    ensures TransitionError(codec, CursorOf(codec, trust, rs), r).None? <==> NextOk(rs, r)
  {
    MemoryBasics(codec, rs);
    if rs != [] { LengthText(codec, rs[|rs| - 1]); }
    hide MemoryOf, RecordError, PlainRecord, HashOf, StateName, Size, Decimal;
  }

  /** One accepted line: the record extends the chain, and the anchor still agrees. */
  lemma AcceptMeans(codec: Codec, trust: Trust, rs: seq<Record>, r: Record)
    requires Agrees(codec, trust, rs)
    ensures var hash := Hash(codec, r, HashOf(codec, rs));
      var scan := Accept(codec, trust, CursorOf(codec, trust, rs), r, hash);
      if Agrees(codec, trust, rs + [r]) then scan == Scan(CursorOf(codec, trust, rs + [r]), None) else scan.error.Some?
  {
    ChainGrows(codec, rs, r);
    MemoryBasics(codec, rs);
    hide HashOf, Hash, MemoryOf, Remember, RequestIdentity, OneRequest;
    var all := rs + [r];
    assert all[..|rs|] == rs;
    if trust.anchored && |all| >= trust.confirmed {
      if trust.confirmed == |all| {
        assert all[..trust.confirmed] == all && all[trust.confirmed..] == [];
        NothingIsOneRequest();
      } else {
        var k := trust.confirmed;
        assert all[..k] == rs[..k] && all[k..] == rs[k..] + [r];
        SuffixGrows(rs[k..], r);
        if rs[k..] != [] { assert rs[k..][0] == rs[k]; IdentityIsSome(rs[k]); }
      }
    }
  }

  lemma NothingIsOneRequest()
    ensures OneRequest([])
  {
  }

  lemma SuffixGrows(rs: seq<Record>, r: Record)
    requires OneRequest(rs)
    ensures OneRequest(rs + [r]) <==> rs == [] || RequestIdentity(r) == RequestIdentity(rs[0])
  {
    if OneRequest(rs + [r]) { OneRequestShrinks(rs, r); }
    else if rs == [] || RequestIdentity(r) == RequestIdentity(rs[0]) { OneRequestGrows(rs, r); }
  }

  /** Checking a line against a legal chain: it is accepted exactly when it is the next line of a longer one. */
  lemma CheckLineMeans(codec: Codec, trust: Trust, rs: seq<Record>, line: string)
    requires Sound(codec) && Legal(codec, rs) && Agrees(codec, trust, rs) && '\n' !in line
    ensures var scan := CheckLine(codec, trust, CursorOf(codec, trust, rs), line);
      scan.error.None? ==>
        && |Split(line, '|')| == 16
        && var r := RecordOf(Split(line, '|'));
           && line == Line(codec, r, HashOf(codec, rs)) && Legal(codec, rs + [r]) && Agrees(codec, trust, rs + [r])
           && scan.cursor == CursorOf(codec, trust, rs + [r])
  {
    hide Legal, Agrees, CursorOf, RecordError, Accept, TransitionError, Join, Split;
    var cur := CursorOf(codec, trust, rs);
    CursorBasics(codec, trust, rs);
    if CheckLine(codec, trust, cur, line).error.None? {
      var fields := Split(line, '|');
      var r := RecordOf(fields);
      SplitIsLine(codec, line);
      TransitionMeans(codec, trust, rs, r);
      AcceptMeans(codec, trust, rs, r);
      LegalGrows(codec, rs, r);
    }
  }

  lemma CursorBasics(codec: Codec, trust: Trust, rs: seq<Record>)
    ensures CursorOf(codec, trust, rs).memory.lastHash == HashOf(codec, rs)
  {
    MemoryBasics(codec, rs);
  }

  lemma LegalGrows(codec: Codec, rs: seq<Record>, r: Record)
    requires Legal(codec, rs)
    ensures Legal(codec, rs + [r]) <==> RecordError(codec, r).None? && PlainRecord(r) && NextOk(rs, r)
  {
    assert (rs + [r])[..|rs|] == rs;
  }

  lemma LegalBefore(codec: Codec, rs: seq<Record>, r: Record)
    requires Legal(codec, rs + [r])
    ensures Legal(codec, rs)
  {
    assert (rs + [r])[..|rs|] == rs;
  }

  lemma NextLineIsAccepted(codec: Codec, trust: Trust, rs: seq<Record>, r: Record)
    requires Sound(codec) && Legal(codec, rs) && Agrees(codec, trust, rs)
    requires Legal(codec, rs + [r]) && Agrees(codec, trust, rs + [r])
    ensures CheckLine(codec, trust, CursorOf(codec, trust, rs), Line(codec, r, HashOf(codec, rs)))
         == Scan(CursorOf(codec, trust, rs + [r]), None)
  {
    hide Legal, Agrees, CursorOf, RecordError, Accept, TransitionError, Join, Split, Line;
    var previous := HashOf(codec, rs);
    HashOfIsHex(codec, rs);
    LegalGrows(codec, rs, r);
    LineSplits(codec, r, previous);
    CursorBasics(codec, trust, rs);
    TransitionMeans(codec, trust, rs, r);
    AcceptMeans(codec, trust, rs, r);
    assert Fields(r, previous, Hash(codec, r, previous))[..15] == Fields(r, previous, "")[..15];
  }

  // ---------------------------------------------------------------- exactly which lines load

  /** Lines that scan without an error are a legal chain that agrees with the anchor. */
  lemma {:induction false} ScannedIsLegal(codec: Codec, trust: Trust, lines: seq<string>)
    requires Sound(codec) && (forall line | line in lines :: '\n' !in line)
    requires ScanLines(codec, trust, lines).error.None?
    ensures forall line | line in lines :: |Split(line, '|')| == 16
    ensures var rs := RecordsOf(lines);
      && lines == ChainLines(codec, rs) && Legal(codec, rs) && Agrees(codec, trust, rs)
      && ScanLines(codec, trust, lines).cursor == CursorOf(codec, trust, rs)
  {
    hide Split, Line, CheckLine, RecordOf, CursorOf, Legal, Agrees, ChainLines, Sound;
    if lines == [] {
      EmptyChain(codec, trust);
      assert RecordsOf(lines) == [];
    } else {
      var n := |lines| - 1;
      var before, line := lines[..n], lines[n];
      ScannedIsLegal(codec, trust, before);
      var rs := RecordsOf(before);
      CheckLineMeans(codec, trust, rs, line);
      assert lines == before + [line];
      var r := RecordOf(Split(line, '|'));
      assert RecordsOf(lines) == rs + [r];
      ChainGrows(codec, rs, r);
    }
  }

  lemma EmptyChain(codec: Codec, trust: Trust)
    ensures ChainLines(codec, []) == [] && Legal(codec, []) && Agrees(codec, trust, []) && CursorOf(codec, trust, []) == InitialCursor(trust)
  {
  }

  lemma ChainGrows(codec: Codec, rs: seq<Record>, r: Record)
    ensures ChainLines(codec, rs + [r]) == ChainLines(codec, rs) + [Line(codec, r, HashOf(codec, rs))]
    ensures ChainText(codec, rs + [r]) == ChainText(codec, rs) + Line(codec, r, HashOf(codec, rs)) + "\n"
    ensures HashOf(codec, rs + [r]) == Hash(codec, r, HashOf(codec, rs))
    ensures MemoryOf(codec, rs + [r]) == Remember(codec, MemoryOf(codec, rs), r, Hash(codec, r, HashOf(codec, rs)))
  {
    assert (rs + [r])[..|rs|] == rs;
  }

  /** What an anchor demands of a chain it demands of its beginnings. */
  lemma AgreesBefore(codec: Codec, trust: Trust, rs: seq<Record>, r: Record)
    requires Agrees(codec, trust, rs + [r])
    ensures Agrees(codec, trust, rs)
  {
    var k := trust.confirmed;
    if trust.anchored && |rs| >= k {
      assert (rs + [r])[..k] == rs[..k] && (rs + [r])[k..] == rs[k..] + [r];
      OneRequestShrinks(rs[k..], r);
    }
  }

  lemma SplitLast(rs: seq<Record>) returns (before: seq<Record>, last: Record)
    requires rs != []
    ensures rs == before + [last]
  {
    before, last := rs[..|rs| - 1], rs[|rs| - 1];
  }

  lemma ScansOneMore(codec: Codec, trust: Trust, rs: seq<Record>, r: Record)
    requires Sound(codec) && Legal(codec, rs + [r]) && Agrees(codec, trust, rs + [r])
    requires Legal(codec, rs) && Agrees(codec, trust, rs)
    requires ScanLines(codec, trust, ChainLines(codec, rs)) == Scan(CursorOf(codec, trust, rs), None)
    ensures ScanLines(codec, trust, ChainLines(codec, rs + [r])) == Scan(CursorOf(codec, trust, rs + [r]), None)
  {
    hide Line, CheckLine, CursorOf, Agrees, Legal, ChainLines, Sound, ScanLines, HashOf, Hash, MemoryOf, ChainText;
    NextLineIsAccepted(codec, trust, rs, r);
    ChainGrows(codec, rs, r);
    ScanGrows(codec, trust, ChainLines(codec, rs), Line(codec, r, HashOf(codec, rs)));
  }

  /** A legal chain that agrees with the anchor scans, and yields the memory of its writer. */
  lemma {:induction false} LegalScans(codec: Codec, trust: Trust, rs: seq<Record>)
    requires Sound(codec) && Legal(codec, rs) && Agrees(codec, trust, rs)
    ensures ScanLines(codec, trust, ChainLines(codec, rs)) == Scan(CursorOf(codec, trust, rs), None)
    decreases |rs|
  {
    if rs == [] {
      EmptyChain(codec, trust);
    } else {
      hide CursorOf, Agrees, Legal, ChainLines, Sound, ScanLines;
      var before, last := SplitLast(rs);
      LegalBefore(codec, before, last);
      AgreesBefore(codec, trust, before, last);
      LegalScans(codec, trust, before);
      ScansOneMore(codec, trust, before, last);
    }
  }

  lemma ScanGrows(codec: Codec, trust: Trust, lines: seq<string>, line: string)
    ensures var scan := ScanLines(codec, trust, lines);
      ScanLines(codec, trust, lines + [line]) == if scan.error.Some? then scan else CheckLine(codec, trust, scan.cursor, line)
  {
    assert (lines + [line])[..|lines|] == lines;
  }

  ghost predicate PlainChain(rs: seq<Record>) {
    forall i | 0 <= i < |rs| :: PlainRecord(rs[i])
  }

  lemma {:induction false} LegalIsPlain(codec: Codec, rs: seq<Record>)
    requires Legal(codec, rs)
    ensures PlainChain(rs)
  {
    hide RecordError, PlainRecord, NextOk;
    if rs != [] {
      var n := |rs| - 1;
      LegalIsPlain(codec, rs[..n]);
      forall i | 0 <= i < |rs| ensures PlainRecord(rs[i]) {
        if i < n { assert rs[..n][i] == rs[i]; }
      }
    }
  }

  /** The text of a chain has the chain's lines. */
  lemma {:induction false} TextHasChainLines(codec: Codec, rs: seq<Record>)
    requires Sound(codec) && PlainChain(rs)
    ensures Lines(ChainText(codec, rs)) == ChainLines(codec, rs)
    ensures rs != [] ==> ChainText(codec, rs) != "" && ChainText(codec, rs)[|ChainText(codec, rs)| - 1] == '\n'
  {
    if rs == [] {
      assert Split("", '\n') == [""] && NonEmpty([""]) == NonEmpty([""][1..]) && [""][1..] == [];
    } else {
      hide Line, PlainRecord, Lines;
      var n := |rs| - 1;
      TextHasChainLines(codec, rs[..n]);
      HashOfIsHex(codec, rs[..n]);
      LineSplits(codec, rs[n], HashOf(codec, rs[..n]));
      LinesAppend(ChainText(codec, rs[..n]), Line(codec, rs[n], HashOf(codec, rs[..n])));
    }
  }

  /** The lines of a chain determine its records. */
  lemma {:induction false} LinesDetermineChain(codec: Codec, a: seq<Record>, b: seq<Record>)
    requires Sound(codec) && PlainChain(a) && PlainChain(b) && ChainLines(codec, a) == ChainLines(codec, b)
    ensures a == b
  {
    hide Line, PlainRecord, Split, Fields;
    ChainLength(codec, a);
    ChainLength(codec, b);
    if a != [] {
      var n := |a| - 1;
      var la, lb := ChainLines(codec, a), ChainLines(codec, b);
      assert la[..n] == ChainLines(codec, a[..n]) && lb[..n] == ChainLines(codec, b[..n]) by {
        ChainLength(codec, a[..n]);
        ChainLength(codec, b[..n]);
      }
      LinesDetermineChain(codec, a[..n], b[..n]);
      HashOfIsHex(codec, a[..n]);
      LineSplits(codec, a[n], HashOf(codec, a[..n]));
      LineSplits(codec, b[n], HashOf(codec, b[..n]));
      assert la[n] == Line(codec, a[n], HashOf(codec, a[..n])) && lb[n] == Line(codec, b[n], HashOf(codec, b[..n])) by {
        ChainLength(codec, a[..n]);
        ChainLength(codec, b[..n]);
      }
      assert a == a[..n] + [a[n]] && b == b[..n] + [b[n]];
    }
  }

  lemma {:induction false} ChainLength(codec: Codec, rs: seq<Record>)
    ensures |ChainLines(codec, rs)| == |rs|
  {
    if rs != [] { ChainLength(codec, rs[..|rs| - 1]); }
  }
}
