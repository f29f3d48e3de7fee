/**
 Loading a journal as a whole (scripts/r4b-evidence/windows-native-boundary.cs,
 LoadJournal and its caller in RunPipeServer): exactly which texts load, that a
 written journal loads back, and what a confirmed prefix fixes.
 */
module JournalLoader {
  import opened Basics
  import opened JournalText
  import opened JournalResponse
  import opened Journal

  const JOURNAL_CAP: nat := 16777216

  datatype Hold = Closed | FailedHeld | JournalHeld | OrphanedHeld | LegacyHeld | AmbiguousHeld

  datatype Refusal = Journal(error: JournalError) | PrefixArgument

  datatype Loaded = Loaded(memory: Memory, crashHeld: bool, hold: Hold, failure: Option<Refusal>)

  /** A refused journal leaves the broker held, with no anchor to offer. */
  function Refused(trust: Trust, memory: Memory, refusal: Refusal): Loaded {
    Loaded(memory.(lastHash := Zeros(64), count := 0), true, if trust.anchored then JournalHeld else OrphanedHeld, Some(refusal))
  }

  function HoldAfter(trust: Trust, created: bool, state: LastState): Hold {
    if state == Last(Permanent) || state == Last(JobClosed) then JournalHeld
    else if state == Last(Intent) || state == Last(Applied) || state == Last(Failed) then
      if trust.anchored then FailedHeld else JournalHeld
    else if !trust.anchored && !created then OrphanedHeld
    else Closed
  }

  function Conclude(trust: Trust, created: bool, cur: Cursor): Loaded {
    if trust.anchored && (!cur.prefixVerified || trust.confirmed > cur.memory.count) then
      Refused(trust, cur.memory, Journal(JournalPrefixMissing))
    else
      var hold := HoldAfter(trust, created, cur.memory.state);
      Loaded(cur.memory, hold != Closed, hold, None)
  }

  function Load(codec: Codec, trust: Trust, created: bool, text: string): Loaded {
    if !IsHex(trust.digest, 64) then Refused(trust, INITIAL_MEMORY, PrefixArgument)
    else if Size(text) > JOURNAL_CAP then Refused(trust, INITIAL_MEMORY, Journal(ByteBound))
    else if text != "" && text[|text| - 1] != '\n' then Refused(trust, INITIAL_MEMORY, Journal(JournalTruncated))
    else if text != "" && !StartsWith(text, "J2|") then
      Loaded(INITIAL_MEMORY.(state := Legacy), true, LegacyHeld, None)
    else
      var scan := ScanLines(codec, trust, Lines(text));
      if scan.error.Some? then Refused(trust, scan.cursor.memory, Journal(scan.error.value)) else Conclude(trust, created, scan.cursor)
  }

  predicate IsAccepted(l: Loaded) { l.failure.None? && l.hold != LegacyHeld }

  /** The anchor's first `confirmed` records are there, and what follows them belongs to one request. */
  ghost predicate Trusted(codec: Codec, trust: Trust, rs: seq<Record>) {
    trust.anchored ==>
      && trust.confirmed <= |rs| && HashOf(codec, rs[..trust.confirmed]) == trust.digest
      && OneRequest(rs[trust.confirmed..])
  }

  ghost predicate WellTerminated(text: string) {
    text == "" || (text[|text| - 1] == '\n' && StartsWith(text, "J2|"))
  }

  /** A chain that scans is concluded well exactly when the anchor is met in full. */
  lemma ConcludeMeans(codec: Codec, trust: Trust, created: bool, rs: seq<Record>)
    requires Agrees(codec, trust, rs) && IsHex(trust.digest, 64)
    ensures IsAccepted(Conclude(trust, created, CursorOf(codec, trust, rs))) <==> Trusted(codec, trust, rs)
    ensures Trusted(codec, trust, rs) ==>
      var hold := HoldAfter(trust, created, MemoryOf(codec, rs).state);
      Conclude(trust, created, CursorOf(codec, trust, rs)) == Loaded(MemoryOf(codec, rs), hold != Closed, hold, None)
  {
    MemoryBasics(codec, rs);
    EmptyHash(codec, rs);
    hide MemoryOf, HashOf, Zeros, OneRequest;
  }

  lemma EmptyHash(codec: Codec, rs: seq<Record>)
    ensures HashOf(codec, rs[..0]) == Zeros(64)
  {
    assert rs[..0] == [];
  }

  lemma TrustedAgrees(codec: Codec, trust: Trust, rs: seq<Record>)
    requires Trusted(codec, trust, rs)
    ensures Agrees(codec, trust, rs)
  {
  }

  /** An accepted journal is a legal chain that meets the anchor, and the broker remembers its end. */
  lemma AcceptedIsLegal(codec: Codec, trust: Trust, created: bool, text: string) returns (rs: seq<Record>)
    requires Sound(codec) && IsAccepted(Load(codec, trust, created, text))
    ensures WellTerminated(text) && Size(text) <= JOURNAL_CAP
    ensures Lines(text) == ChainLines(codec, rs) && Legal(codec, rs) && Trusted(codec, trust, rs)
    ensures Load(codec, trust, created, text).memory == MemoryOf(codec, rs)
  {
    hide ScanLines, Lines, Legal, Agrees, Trusted, ChainLines, CursorOf, Sound, MemoryOf;
    LinesHaveNoBreak(text);
    ScannedIsLegal(codec, trust, Lines(text));
    rs := RecordsOf(Lines(text));
    ConcludeMeans(codec, trust, created, rs);
  }

  /** Every legal chain that meets the anchor is accepted in any text with its lines. */
  lemma LegalIsAccepted(codec: Codec, trust: Trust, created: bool, text: string, rs: seq<Record>)
    requires Sound(codec) && IsHex(trust.digest, 64) && WellTerminated(text) && Size(text) <= JOURNAL_CAP
    requires Lines(text) == ChainLines(codec, rs) && Legal(codec, rs) && Trusted(codec, trust, rs)
    ensures var hold := HoldAfter(trust, created, MemoryOf(codec, rs).state);
      Load(codec, trust, created, text) == Loaded(MemoryOf(codec, rs), hold != Closed, hold, None)
  {
    hide ScanLines, Lines, Legal, Agrees, Trusted, ChainLines, CursorOf, Sound, MemoryOf, Size;
    TrustedAgrees(codec, trust, rs);
    LegalScans(codec, trust, rs);
    ConcludeMeans(codec, trust, created, rs);
  }

  /** Exactly the well-terminated texts of legal chains that meet the anchor are accepted. */
  lemma AcceptedIff(codec: Codec, trust: Trust, created: bool, text: string)
    requires Sound(codec) && IsHex(trust.digest, 64)
    ensures IsAccepted(Load(codec, trust, created, text)) <==>
      && WellTerminated(text) && Size(text) <= JOURNAL_CAP
      && exists rs :: Lines(text) == ChainLines(codec, rs) && Legal(codec, rs) && Trusted(codec, trust, rs)
  {
    hide ScanLines, Lines, Legal, Agrees, Trusted, ChainLines, MemoryOf, Sound, Size, Load;
    if IsAccepted(Load(codec, trust, created, text)) {
      var rs := AcceptedIsLegal(codec, trust, created, text);
    } else if WellTerminated(text) && Size(text) <= JOURNAL_CAP {
      forall rs | Lines(text) == ChainLines(codec, rs) && Legal(codec, rs) && Trusted(codec, trust, rs) ensures false {
        LegalIsAccepted(codec, trust, created, text, rs);
        ConcludedIsNoLegacy(trust, created, MemoryOf(codec, rs).state);
      }
    }
  }

  lemma ConcludedIsNoLegacy(trust: Trust, created: bool, state: LastState)
    ensures HoldAfter(trust, created, state) != LegacyHeld
  {
  }

  // ---------------------------------------------------------------- write, then load

  lemma LineStart(codec: Codec, r: Record, previous: string)
    ensures StartsWith(Line(codec, r, previous), "J2|")
  {
    var fields := Fields(r, previous, Hash(codec, r, previous));
    hide Hash;
    assert Line(codec, r, previous) == "J2" + ['|'] + Join(fields[1..], '|');
  }

  lemma {:induction false} ChainTextStart(codec: Codec, rs: seq<Record>)
    requires rs != []
    ensures StartsWith(ChainText(codec, rs), "J2|")
  {
    var n := |rs| - 1;
    if n == 0 {
      assert rs[..0] == [];
      LineStart(codec, rs[0], HashOf(codec, rs[..0]));
      hide Line;
      assert ChainText(codec, rs) == "" + Line(codec, rs[0], HashOf(codec, [])) + "\n";
    } else {
      ChainTextStart(codec, rs[..n]);
    }
  }

  /**
   A written journal of at most 16 MiB loads back to exactly the memory of its
   writer, without an anchor or with any anchor it meets.
   */
  lemma WrittenJournalLoads(codec: Codec, trust: Trust, created: bool, rs: seq<Record>)
    requires Sound(codec) && IsHex(trust.digest, 64) && Legal(codec, rs) && Trusted(codec, trust, rs)
    requires Size(ChainText(codec, rs)) <= JOURNAL_CAP
    ensures var hold := HoldAfter(trust, created, MemoryOf(codec, rs).state);
      Load(codec, trust, created, ChainText(codec, rs)) == Loaded(MemoryOf(codec, rs), hold != Closed, hold, None)
  {
    LegalIsPlain(codec, rs);
    TextHasChainLines(codec, rs);
    if rs != [] { ChainTextStart(codec, rs); }
    hide ChainLines, Legal, Trusted, MemoryOf, Sound, Size, Load, HashOf;
    LegalIsAccepted(codec, trust, created, ChainText(codec, rs), rs);
  }

  /** A record cut short by a crash is never taken for a record. */
  lemma TornTailIsRefused(codec: Codec, trust: Trust, created: bool, rs: seq<Record>, r: Record, kept: nat)
    requires Sound(codec) && IsHex(trust.digest, 64) && Legal(codec, rs) && PlainRecord(r)
    requires 0 < kept <= |Line(codec, r, HashOf(codec, rs))|
    ensures var text := ChainText(codec, rs) + Line(codec, r, HashOf(codec, rs))[..kept];
      Size(text) <= JOURNAL_CAP ==>
        Load(codec, trust, created, text).failure == Some(Journal(JournalTruncated)) && Load(codec, trust, created, text).crashHeld
  {
    HashOfIsHex(codec, rs);
    LineSplits(codec, r, HashOf(codec, rs));
    hide *;
    TornText(ChainText(codec, rs), Line(codec, r, HashOf(codec, rs)), kept);
    var text := ChainText(codec, rs) + Line(codec, r, HashOf(codec, rs))[..kept];
    if Size(text) <= JOURNAL_CAP { UnterminatedIsRefused(codec, trust, created, text); }
  }

  lemma TornText(front: string, line: string, kept: nat)
    requires '\n' !in line && 0 < kept <= |line|
    ensures var text := front + line[..kept]; text != "" && text[|text| - 1] != '\n'
  {
    var text := front + line[..kept];
    assert text[|text| - 1] == line[kept - 1];
  }

  lemma UnterminatedIsRefused(codec: Codec, trust: Trust, created: bool, text: string)
    requires IsHex(trust.digest, 64) && text != "" && text[|text| - 1] != '\n' && Size(text) <= JOURNAL_CAP
    ensures Load(codec, trust, created, text).failure == Some(Journal(JournalTruncated)) && Load(codec, trust, created, text).crashHeld
  {
  }

  // ---------------------------------------------------------------- the confirmed prefix

  function HashInput(codec: Codec, rs: seq<Record>, i: nat): string
    requires i < |rs|
  {
    Join(Fields(rs[i], HashOf(codec, rs[..i]), "")[..15], '|')
  }

  /** The digest tells the hashed texts of these two chains apart. */
  ghost predicate NoCollision(codec: Codec, a: seq<Record>, b: seq<Record>) {
    forall i, j | 0 <= i < |a| && 0 <= j < |b| && codec.digest(HashInput(codec, a, i)) == codec.digest(HashInput(codec, b, j)) ::
      HashInput(codec, a, i) == HashInput(codec, b, j)
  }

  lemma HashAt(codec: Codec, rs: seq<Record>, n: nat)
    requires 0 < n <= |rs|
    ensures HashOf(codec, rs[..n]) == codec.digest(HashInput(codec, rs, n - 1))
  {
    assert rs[..n][..n - 1] == rs[..n - 1];
  }

  lemma HashInputIs(codec: Codec, rs: seq<Record>, i: nat)
    requires i < |rs|
    ensures HashInput(codec, rs, i) == Join(Fields(rs[i], HashOf(codec, rs[..i]), "")[..15], '|')
  {
  }

  /** One link of the chain, followed back from equal hashes. */
  lemma LinkBinds(codec: Codec, a: seq<Record>, b: seq<Record>, n: nat)
    requires Sound(codec) && PlainChain(a) && PlainChain(b) && 0 < n <= |a| && n <= |b| && NoCollision(codec, a, b)
    requires HashOf(codec, a[..n]) == HashOf(codec, b[..n])
    ensures a[n - 1] == b[n - 1] && HashOf(codec, a[..n - 1]) == HashOf(codec, b[..n - 1])
  {
    hide PlainRecord, Fields, Hash, Join, HashOf, HashInput, Sound;
    HashAt(codec, a, n);
    HashAt(codec, b, n);
    assert HashInput(codec, a, n - 1) == HashInput(codec, b, n - 1);
    HashInputIs(codec, a, n - 1);
    HashInputIs(codec, b, n - 1);
    HashOfIsHex(codec, a[..n - 1]);
    HashOfIsHex(codec, b[..n - 1]);
    HashBinds(codec, a[n - 1], HashOf(codec, a[..n - 1]), b[n - 1], HashOf(codec, b[..n - 1]));
  }

  /** Equal hashes at n mean equal records below n. */
  lemma {:induction false} EqualHashEqualPrefix(codec: Codec, a: seq<Record>, b: seq<Record>, n: nat)
    requires Sound(codec) && PlainChain(a) && PlainChain(b) && n <= |a| && n <= |b| && NoCollision(codec, a, b)
    requires HashOf(codec, a[..n]) == HashOf(codec, b[..n])
    ensures a[..n] == b[..n]
  {
    hide PlainChain, NoCollision, HashOf, Sound;
    if n > 0 {
      LinkBinds(codec, a, b, n);
      EqualHashEqualPrefix(codec, a, b, n - 1);
      assert a[..n] == a[..n - 1] + [a[n - 1]] && b[..n] == b[..n - 1] + [b[n - 1]];
    }
  }

  /**
   A journal accepted under the anchor (n, hash of the first n confirmed records)
   starts with exactly those n records, and all its other records belong to one
   request: no edit, reordering or truncation below n gets through.
   */
  lemma ConfirmedPrefixIsFixed(codec: Codec, confirmed: seq<Record>, n: nat, created: bool, text: string) returns (rs: seq<Record>)
    requires Sound(codec) && Legal(codec, confirmed) && n <= |confirmed|
    requires IsAccepted(Load(codec, Trust(true, n, HashOf(codec, confirmed[..n])), created, text))
    requires forall rs | Legal(codec, rs) && Lines(text) == ChainLines(codec, rs) :: NoCollision(codec, confirmed, rs)
    ensures Lines(text) == ChainLines(codec, rs) && n <= |rs| && rs[..n] == confirmed[..n] && OneRequest(rs[n..])
  {
    rs := AcceptedIsLegal(codec, Trust(true, n, HashOf(codec, confirmed[..n])), created, text);
    hide Legal, Load, Sound, ChainLines, HashOf, NoCollision, PlainChain;
    LegalIsPlain(codec, confirmed);
    LegalIsPlain(codec, rs);
    EqualHashEqualPrefix(codec, confirmed, rs, n);
  }
}
