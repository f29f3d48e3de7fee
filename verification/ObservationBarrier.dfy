/**
 The observation barrier of the speech recorder
 (scripts/r4b-evidence/nvda-adapter/scratchpad/globalPlugins/fluyoPreflightSpeech.py):
 one thread reads controls that open and close observations, speech callbacks of
 any number of threads append to the transcript, and one lock protects what they
 share.

 Each function of the first part is one section under the lock; the class
 `GlobalPlugin` performs the same sections in place and is proved against them.
 `Step` interleaves the sections: between any two of them every other thread can
 move.
 */
module ObservationBarrier {
  import opened Basics
  import opened SpeechGrammar

  const MAX_TOTAL_BYTES := 2097152
  const MAX_LINE_BYTES := 4096
  const QUIET_MILLISECONDS := 50

  type Observation = string

  /** A generation as the control spells it, and the number it spells. */
  datatype Generation = Generation(spelling: string, number: nat)

  datatype Phase = Observe | Close

  datatype Control = Control(observation: Observation, generation: Generation, phase: Phase, created: int)

  datatype Key = Key(observation: Observation, generation: Generation)

  datatype Kind = Speak | Cancel

  datatype Priority = Normal | Next | Now

  /** A line of the transcript, of which `written` bytes out of `length` reached the file. */
  datatype Line = Line(
    key: Key, sequence: nat, kind: Kind, priority: Priority, text: string, length: nat, written: nat)

  /** What a callback wants to record, and how its write will go. */
  datatype Request = Request(
    kind: Kind, priority: Priority, text: string, length: nat, written: nat, synced: bool, now: int)

  /** The file and what is counted about its lines. */
  datatype Book = Book(
    transcript: seq<Line>, size: nat, sequences: map<Observation, nat>, counts: map<Key, nat>, lastEvent: map<Key, int>)

  datatype Shared = Shared(
    active: Option<Control>, failed: bool, stopped: bool, closing: Option<Key>, seen: set<Observation>, closed: set<nat>,
    lastCreated: int, inflight: map<Key, nat>, book: Book)

  /** A line is never empty, and a write never exceeds it. */
  predicate IsRequest(r: Request) { 1 <= r.length && r.written <= r.length }

  function KeyOf(c: Control): Key { Key(c.observation, c.generation) }

  function Get<K, V>(m: map<K, V>, k: K, missing: V): V { if k in m then m[k] else missing }

  // ---------------------------------------------------------------- sections under the lock

  predicate IsActive(active: Option<Control>, key: Key) { active.Some? && KeyOf(active.value) == key }

  predicate IsAdmitted(s: Shared, c: Control) {
    && c.created >= s.lastCreated
    && (if c.phase.Observe? then c.observation !in s.seen && c.generation.number !in s.closed
        else IsActive(s.active, KeyOf(c)))
  }

  function Admitted(s: Shared, c: Control): Shared
    requires IsAdmitted(s, c)
  {
    s.(seen := if c.phase.Observe? then s.seen + {c.observation} else s.seen, lastCreated := c.created)
  }

  function Latched(s: Shared, c: Control): Shared { s.(active := Some(c), closing := None) }

  function Marked(s: Shared, c: Control): Shared { s.(closing := Some(KeyOf(c))) }

  predicate StillCloses(s: Shared, c: Control) { IsActive(s.active, KeyOf(c)) && s.closing == Some(KeyOf(c)) }

  function Closed(s: Shared, c: Control): Shared {
    s.(closed := s.closed + {c.generation.number}, active := None, closing := None)
  }

  function Broken(s: Shared): Shared { if s.stopped then s else s.(failed := true) }

  /** No callback of the generation is running and its last event is long enough ago. */
  predicate IsQuiet(s: Shared, key: Key, started: int, now: int) {
    Get(s.inflight, key, 0) == 0 && QUIET_MILLISECONDS - (now - Get(s.book.lastEvent, key, started)) <= 0
  }

  predicate CanBegin(s: Shared) { !s.failed && s.active.Some? }

  function Begun(s: Shared, key: Key): Shared { s.(inflight := s.inflight[key := Get(s.inflight, key, 0) + 1]) }

  function Finished(s: Shared, key: Key): Shared {
    var n := Get(s.inflight, key, 1);
    s.(inflight := s.inflight[key := if n == 0 then 0 else n - 1])
  }

  function NextSequence(b: Book, key: Key): nat { Get(b.sequences, key.observation, 0) + 1 }

  predicate Fits(b: Book, r: Request) { r.length <= MAX_LINE_BYTES && b.size + r.length <= MAX_TOTAL_BYTES }

  function LineOf(b: Book, key: Key, r: Request, text: string): Line {
    Line(key, NextSequence(b, key), r.kind, r.priority, text, r.length, r.written)
  }

  predicate IsOpen(s: Shared, key: Key) { IsActive(s.active, key) && key.generation.number !in s.closed }

  /** The line is of the grammar and fits, and at least its beginning is written. */
  ghost predicate CanStore(g: Grammar, b: Book, r: Request) { Normalized(g, r.text).Some? && Fits(b, r) && r.written > 0 }

  function Counted(b: Book, key: Key): Book { b.(sequences := b.sequences[key.observation := NextSequence(b, key)]) }

  /** The line is in the file; the event counts when the write is complete. */
  function Entered(b: Book, line: Line, r: Request): Book {
    var written := b.(transcript := b.transcript + [line], size := b.size + line.written);
    if r.written < r.length || !r.synced then written
    else written.(counts := b.counts[line.key := Get(b.counts, line.key, 0) + 1],
                  lastEvent := b.lastEvent[line.key := r.now])
  }

  function Stored(b: Book, key: Key, r: Request, text: string): Book {
    Entered(Counted(b, key), LineOf(b, key, r, text), r)
  }

  ghost function Noted(g: Grammar, b: Book, key: Key, r: Request): Book {
    if CanStore(g, b, r) then Stored(b, key, r, Normalized(g, r.text).value) else Counted(b, key)
  }

  /**
   A callback's append. Whatever stops it after the first check, the sequence
   number it took stays taken; a write that breaks off leaves what it wrote.
   */
  ghost function Appended(g: Grammar, s: Shared, key: Key, r: Request): Shared {
    if IsOpen(s, key) then s.(book := Noted(g, s.book, key, r)) else s
  }

  // ---------------------------------------------------------------- threads

  datatype Reader =
    | Reading | Latching(control: Control) | Marking(control: Control)
    | Queued(control: Control) | Quieting(control: Control, started: int)
    | Ending(control: Control) | Replying(control: Control) | Ended

  /** A callback under way, for the control it found active; it has appended or not. */
  datatype Callback = Callback(key: Key, appended: bool)

  /** A reply to a control, and the length of the transcript when it was sent. */
  datatype Reply = Reply(control: Control, at: nat)

  datatype State = State(
    shared: Shared, reader: Reader, callbacks: map<nat, Callback>, observed: seq<Control>, replies: seq<Reply>)

  datatype Move =
    | ReadControl(control: Control, genuine: bool)
    | LatchControl
    | MarkClosing
    | CrossQueue(reached: bool, now: int)
    | AwaitQuiet(now: int, expired: bool)
    | EndGeneration
    | SendReply(sent: bool)
    | BeginCallback(id: nat)
    | AppendLine(id: nat, request: Request)
    | FinishCallback(id: nat)
    | Stop

  function Failing(s: State): State { s.(shared := Broken(s.shared), reader := Ended) }

  function StepRead(s: State, c: Control, genuine: bool): State {
    if !s.reader.Reading? then s
    else if genuine && c.generation.number >= 1 && IsAdmitted(s.shared, c) then
      s.(shared := Admitted(s.shared, c), reader := if c.phase.Observe? then Latching(c) else Marking(c))
    else Failing(s)
  }

  function StepLatch(s: State): State {
    if !s.reader.Latching? then s
    else if s.shared.stopped then s.(reader := Ended)
    else s.(shared := Latched(s.shared, s.reader.control), reader := Replying(s.reader.control),
            observed := s.observed + [s.reader.control])
  }

  function StepMark(s: State): State {
    if !s.reader.Marking? then s
    else if s.shared.stopped then s.(reader := Ended)
    else s.(shared := Marked(s.shared, s.reader.control), reader := Queued(s.reader.control))
  }

  function StepCross(s: State, reached: bool, now: int): State {
    if !s.reader.Queued? then s
    else if reached then s.(reader := Quieting(s.reader.control, now))
    else Failing(s)
  }

  function StepAwait(s: State, now: int, expired: bool): State {
    if !s.reader.Quieting? then s
    else if IsQuiet(s.shared, KeyOf(s.reader.control), s.reader.started, now) then s.(reader := Ending(s.reader.control))
    else if expired then Failing(s)
    else s
  }

  function StepEnd(s: State): State {
    if !s.reader.Ending? then s
    else if s.shared.stopped then s.(reader := Ended)
    else if !StillCloses(s.shared, s.reader.control) then Failing(s)
    else s.(shared := Closed(s.shared, s.reader.control), reader := Replying(s.reader.control))
  }

  function StepReply(s: State, sent: bool): State {
    if !s.reader.Replying? then s
    else if sent then s.(replies := s.replies + [Reply(s.reader.control, |s.shared.book.transcript|)], reader := Reading)
    else Failing(s)
  }

  function StepBegin(s: State, id: nat): State {
    if id in s.callbacks || !CanBegin(s.shared) then s
    else
      var key := KeyOf(s.shared.active.value);
      s.(shared := Begun(s.shared, key), callbacks := s.callbacks[id := Callback(key, false)])
  }

  ghost function StepAppend(g: Grammar, s: State, id: nat, r: Request): State {
    if id !in s.callbacks || s.callbacks[id].appended || !IsRequest(r) then s
    else s.(shared := Appended(g, s.shared, s.callbacks[id].key, r),
            callbacks := s.callbacks[id := s.callbacks[id].(appended := true)])
  }

  function StepFinish(s: State, id: nat): State {
    if id !in s.callbacks || !s.callbacks[id].appended then s
    else s.(shared := Finished(s.shared, s.callbacks[id].key), callbacks := s.callbacks - {id})
  }

  ghost function Step(g: Grammar, s: State, m: Move): State {
    match m
    case ReadControl(c, genuine) => StepRead(s, c, genuine)
    case LatchControl => StepLatch(s)
    case MarkClosing => StepMark(s)
    case CrossQueue(reached, now) => StepCross(s, reached, now)
    case AwaitQuiet(now, expired) => StepAwait(s, now, expired)
    case EndGeneration => StepEnd(s)
    case SendReply(sent) => StepReply(s, sent)
    case BeginCallback(id) => StepBegin(s, id)
    case AppendLine(id, r) => StepAppend(g, s, id, r)
    case FinishCallback(id) => StepFinish(s, id)
    case Stop => s.(shared := s.shared.(stopped := true))
  }

  /** Before anything happened, with what the file held already. */
  function Initial(size: nat): State {
    State(Shared(None, false, false, None, {}, {}, -1, map[], Book([], size, map[], map[], map[])), Reading, map[], [], [])
  }

  ghost function Run(g: Grammar, size: nat, moves: seq<Move>): State {
    if moves == [] then Initial(size) else Step(g, Run(g, size, moves[..|moves| - 1]), moves[|moves| - 1])
  }

  // ---------------------------------------------------------------- observations

  /** An observation was latched at most once, and nothing latched is new to the reader. */
  ghost predicate ObservedOnce(s: State) {
    && (forall i, j | 0 <= i < j < |s.observed| :: s.observed[i].observation != s.observed[j].observation)
    && (forall i | 0 <= i < |s.observed| :: s.observed[i].observation in s.shared.seen && s.observed[i].phase.Observe?)
    && (s.reader.Latching? ==>
          && s.reader.control.observation in s.shared.seen && s.reader.control.phase.Observe?
          && forall i | 0 <= i < |s.observed| :: s.observed[i].observation != s.reader.control.observation)
  }

  /** What is active is the newest observation, and its generation is not closed. */
  ghost predicate ActiveIsNewest(s: State) {
    && (s.shared.active.Some? ==>
          && s.observed != [] && s.observed[|s.observed| - 1] == s.shared.active.value
          && s.shared.active.value.generation.number !in s.shared.closed)
    && (s.reader.Latching? ==> s.reader.control.generation.number !in s.shared.closed)
  }

  /** While the reader closes an observation, that one stays active. */
  ghost predicate CloseIsBound(s: State) {
    && (s.reader.Marking? || s.reader.Queued? || s.reader.Quieting? || s.reader.Ending? ==>
          IsActive(s.shared.active, KeyOf(s.reader.control)) && s.reader.control.phase.Close?)
    && (s.reader.Queued? || s.reader.Quieting? || s.reader.Ending? ==> StillCloses(s.shared, s.reader.control))
  }

  ghost predicate Observing(s: State) { ObservedOnce(s) && ActiveIsNewest(s) && CloseIsBound(s) }

  lemma ReadKeepsObserving(s: State, c: Control, genuine: bool)
    requires Observing(s)
    ensures Observing(StepRead(s, c, genuine))
  {
    var s' := StepRead(s, c, genuine);
    assert s'.observed == s.observed && s'.shared.active == s.shared.active && s'.shared.closed == s.shared.closed;
    assert s.shared.seen <= s'.shared.seen;
  }

  lemma LatchKeepsObserving(s: State)
    requires Observing(s)
    ensures Observing(StepLatch(s))
  {
    var s' := StepLatch(s);
    if s.reader.Latching? && !s.shared.stopped {
      assert s'.observed == s.observed + [s.reader.control] && s'.shared.seen == s.shared.seen;
    }
  }

  lemma MarkKeepsObserving(s: State)
    requires Observing(s)
    ensures Observing(StepMark(s))
  {
  }

  lemma EndKeepsObserving(s: State)
    requires Observing(s)
    ensures Observing(StepEnd(s))
  {
    var s' := StepEnd(s);
    assert s'.shared.active.None? || s'.shared.active == s.shared.active;
  }

  /** The other sections of the reader open and close nothing. */
  lemma WaitingKeepsObserving(s: State, m: Move)
    requires Observing(s)
    ensures m.CrossQueue? ==> Observing(StepCross(s, m.reached, m.now))
    ensures m.AwaitQuiet? ==> Observing(StepAwait(s, m.now, m.expired))
    ensures m.SendReply? ==> Observing(StepReply(s, m.sent))
  {
    hide IsQuiet;
  }

  /** What an observation depends on is left alone. */
  ghost predicate SameObserving(s: State, s': State) {
    && s'.reader == s.reader && s'.observed == s.observed && s'.shared.seen == s.shared.seen
    && s'.shared.active == s.shared.active && s'.shared.closed == s.shared.closed && s'.shared.closing == s.shared.closing
  }

  lemma CallbacksObserveNothing(g: Grammar, s: State, m: Move)
    requires m.BeginCallback? || m.AppendLine? || m.FinishCallback? || m.Stop?
    ensures SameObserving(s, Step(g, s, m)) && Step(g, s, m).replies == s.replies
  {
    hide Noted, IsRequest, CanBegin;
  }

  lemma SameKeepsObserving(s: State, s': State)
    requires Observing(s) && SameObserving(s, s')
    ensures Observing(s')
  {
  }

  lemma StepKeepsObserving(g: Grammar, s: State, m: Move)
    requires Observing(s)
    ensures Observing(Step(g, s, m))
  {
    hide Observing, SameObserving, StepRead, StepLatch, StepMark, StepCross, StepAwait, StepEnd, StepReply, StepBegin, StepAppend, StepFinish;
    match m
    case ReadControl(c, genuine) => ReadKeepsObserving(s, c, genuine);
    case LatchControl => LatchKeepsObserving(s);
    case BeginCallback(_) => CallbacksObserveNothing(g, s, m); SameKeepsObserving(s, Step(g, s, m));
    case AppendLine(_, _) => CallbacksObserveNothing(g, s, m); SameKeepsObserving(s, Step(g, s, m));
    case FinishCallback(_) => CallbacksObserveNothing(g, s, m); SameKeepsObserving(s, Step(g, s, m));
    case Stop => CallbacksObserveNothing(g, s, m); SameKeepsObserving(s, Step(g, s, m));
    case MarkClosing => MarkKeepsObserving(s);
    case EndGeneration => EndKeepsObserving(s);
    case _ => WaitingKeepsObserving(s, m);
  }

  /** Only an append writes, and it writes at most one line, of an active observation whose generation is open. */
  lemma OnlyAppendsWrite(g: Grammar, s: State, m: Move) returns (key: Key, r: Request)
    ensures var b := Step(g, s, m).shared.book;
      b == s.shared.book || (IsOpen(s.shared, key) && IsRequest(r) && b == Noted(g, s.shared.book, key, r))
  {
    hide Noted, IsQuiet, IsRequest;
    if m.AppendLine? && m.id in s.callbacks {
      key, r := s.callbacks[m.id].key, m.request;
    } else {
      key, r := *, *;
    }
  }

  lemma NotedMeans(g: Grammar, b: Book, key: Key, r: Request)
    ensures var t := Noted(g, b, key, r);
      && t.sequences == b.sequences[key.observation := NextSequence(b, key)]
      && (if CanStore(g, b, r)
          then t.transcript == b.transcript + [LineOf(b, key, r, Normalized(g, r.text).value)] && t.size == b.size + r.written
          else t.transcript == b.transcript && t.size == b.size)
  {
    hide CanStore, Normalized;
  }

  // ---------------------------------------------------------------- blocks

  /** The lines of one observation, in the order of the transcript. */
  function BlockOf(transcript: seq<Line>, key: Key): seq<Line> {
    if transcript == [] then []
    else
      var n := |transcript| - 1;
      BlockOf(transcript[..n], key) + if transcript[n].key == key then [transcript[n]] else []
  }

  /** One block after the other, in the order in which the observations were opened. */
  function Blocks(observed: seq<Control>, transcript: seq<Line>): seq<Line> {
    if observed == [] then []
    else Blocks(observed[..|observed| - 1], transcript) + BlockOf(transcript, KeyOf(observed[|observed| - 1]))
  }

  lemma {:induction false} EmptyBlock(transcript: seq<Line>, key: Key)
    requires forall i | 0 <= i < |transcript| :: transcript[i].key != key
    ensures BlockOf(transcript, key) == []
  {
    if transcript != [] { EmptyBlock(transcript[..|transcript| - 1], key); }
  }

  lemma BlockGrows(transcript: seq<Line>, line: Line, key: Key)
    ensures BlockOf(transcript + [line], key) == if line.key == key then BlockOf(transcript, key) + [line] else BlockOf(transcript, key)
  {
    assert (transcript + [line])[..|transcript|] == transcript;
  }

  lemma {:induction false} OtherBlocksStay(observed: seq<Control>, transcript: seq<Line>, line: Line)
    requires forall i | 0 <= i < |observed| :: KeyOf(observed[i]) != line.key
    ensures Blocks(observed, transcript + [line]) == Blocks(observed, transcript)
  {
    hide BlockOf, KeyOf;
    if observed != [] {
      var n := |observed| - 1;
      var key := KeyOf(observed[n]);
      assert key != line.key;
      BlockGrows(transcript, line, key);
      OtherBlocksStay(observed[..n], transcript, line);
      assert Blocks(observed, transcript + [line]) == Blocks(observed[..n], transcript + [line]) + BlockOf(transcript + [line], key);
    }
  }

  /** The transcript is one contiguous block per observation, and every line belongs to one. */
  ghost predicate InBlocks(observed: seq<Control>, transcript: seq<Line>) {
    && transcript == Blocks(observed, transcript)
    && forall i | 0 <= i < |transcript| :: exists k :: 0 <= k < |observed| && KeyOf(observed[k]) == transcript[i].key
  }

  lemma BlocksTakeALine(observed: seq<Control>, transcript: seq<Line>, line: Line)
    requires InBlocks(observed, transcript) && observed != []
    requires forall i, j | 0 <= i < j < |observed| :: KeyOf(observed[i]) != KeyOf(observed[j])
    requires KeyOf(observed[|observed| - 1]) == line.key
    ensures InBlocks(observed, transcript + [line])
  {
    var n := |observed| - 1;
    var longer := transcript + [line];
    OtherBlocksStay(observed[..n], transcript, line);
    BlockGrows(transcript, line, line.key);
    forall i | 0 <= i < |longer| ensures exists k :: 0 <= k < |observed| && KeyOf(observed[k]) == longer[i].key {
      if i < |transcript| { assert longer[i] == transcript[i]; } else { assert KeyOf(observed[n]) == longer[i].key; }
    }
  }

  lemma BlocksTakeAnObservation(observed: seq<Control>, transcript: seq<Line>, c: Control)
    requires InBlocks(observed, transcript)
    requires forall i | 0 <= i < |observed| :: KeyOf(observed[i]) != KeyOf(c)
    ensures InBlocks(observed + [c], transcript)
  {
    var more := observed + [c];
    EmptyBlock(transcript, KeyOf(c));
    assert more[..|observed|] == observed;
    forall i | 0 <= i < |transcript| ensures exists k :: 0 <= k < |more| && KeyOf(more[k]) == transcript[i].key {
      var k :| 0 <= k < |observed| && KeyOf(observed[k]) == transcript[i].key;
      assert KeyOf(more[k]) == transcript[i].key;
    }
  }

  lemma KeysDiffer(observed: seq<Control>, i: nat, j: nat)
    requires i < j < |observed| && forall i, j | 0 <= i < j < |observed| :: observed[i].observation != observed[j].observation
    ensures KeyOf(observed[i]) != KeyOf(observed[j])
  {
  }

  lemma StepKeepsBlocks(g: Grammar, s: State, m: Move)
    requires Observing(s) && InBlocks(s.observed, s.shared.book.transcript)
    ensures InBlocks(Step(g, s, m).observed, Step(g, s, m).shared.book.transcript)
  {
    var s' := Step(g, s, m);
    ObservedGrowsByLatch(g, s, m);
    var key, r := OnlyAppendsWrite(g, s, m);
    hide InBlocks, Step, Noted, IsRequest, Normalized, IsQuiet;
    if s'.observed != s.observed {
      BlocksTakeAnObservation(s.observed, s.shared.book.transcript, s.reader.control);
    } else if s'.shared.book.transcript != s.shared.book.transcript {
      NotedMeans(g, s.shared.book, key, r);
      forall i, j | 0 <= i < j < |s.observed| ensures KeyOf(s.observed[i]) != KeyOf(s.observed[j]) {
        KeysDiffer(s.observed, i, j);
      }
      BlocksTakeALine(s.observed, s.shared.book.transcript, LineOf(s.shared.book, key, r, Normalized(g, r.text).value));
    }
  }

  lemma ObservedGrowsByLatch(g: Grammar, s: State, m: Move)
    ensures var s' := Step(g, s, m);
      || s'.observed == s.observed
      || (s.reader.Latching? && s'.observed == s.observed + [s.reader.control] && s'.shared.book.transcript == s.shared.book.transcript)
  {
    hide Noted, IsQuiet, IsRequest;
  }

  // ---------------------------------------------------------------- lines

  ghost predicate SequencesRise(b: Book) {
    && (forall i | 0 <= i < |b.transcript| ::
          1 <= b.transcript[i].sequence <= Get(b.sequences, b.transcript[i].key.observation, 0))
    && (forall i, j | 0 <= i < j < |b.transcript| && b.transcript[i].key.observation == b.transcript[j].key.observation ::
          b.transcript[i].sequence < b.transcript[j].sequence)
  }

  function Written(transcript: seq<Line>): nat {
    if transcript == [] then 0 else Written(transcript[..|transcript| - 1]) + transcript[|transcript| - 1].written
  }

  /** The file holds what it held at first and the lines, and stays within its limit. */
  ghost predicate Measured(size: nat, b: Book) {
    b.size == size + Written(b.transcript) && (size <= MAX_TOTAL_BYTES ==> b.size <= MAX_TOTAL_BYTES)
  }

  ghost predicate LinesAreClosed(g: Grammar, b: Book) {
    forall i | 0 <= i < |b.transcript| ::
      IsClosed(g, b.transcript[i].text) && b.transcript[i].written <= b.transcript[i].length <= MAX_LINE_BYTES
  }

  lemma RisingTakesALine(b: Book, t: Book, line: Line)
    requires SequencesRise(b) && t.transcript == b.transcript + [line]
    requires line.sequence == Get(b.sequences, line.key.observation, 0) + 1
    requires t.sequences == b.sequences[line.key.observation := line.sequence]
    ensures SequencesRise(t)
  {
  }

  lemma RisingTakesANumber(b: Book, t: Book, o: Observation)
    requires SequencesRise(b) && t.transcript == b.transcript
    requires t.sequences == b.sequences[o := Get(b.sequences, o, 0) + 1]
    ensures SequencesRise(t)
  {
  }

  lemma NotingKeepsRising(g: Grammar, b: Book, key: Key, r: Request)
    requires SequencesRise(b)
    ensures SequencesRise(Noted(g, b, key, r))
  {
    NotedMeans(g, b, key, r);
    hide SequencesRise, Normalized, Noted, Fits;
    if CanStore(g, b, r) {
      RisingTakesALine(b, Noted(g, b, key, r), LineOf(b, key, r, Normalized(g, r.text).value));
    } else {
      RisingTakesANumber(b, Noted(g, b, key, r), key.observation);
    }
  }

  lemma MeasuredTakesALine(size: nat, b: Book, t: Book, line: Line)
    requires Measured(size, b) && t.transcript == b.transcript + [line] && t.size == b.size + line.written
    requires b.size + line.length <= MAX_TOTAL_BYTES && line.written <= line.length
    ensures Measured(size, t)
  {
    assert t.transcript[..|b.transcript|] == b.transcript;
  }

  lemma NotingKeepsMeasure(g: Grammar, size: nat, b: Book, key: Key, r: Request)
    requires Measured(size, b) && LinesAreClosed(g, b) && IsRequest(r)
    ensures Measured(size, Noted(g, b, key, r)) && LinesAreClosed(g, Noted(g, b, key, r))
  {
    var t := Noted(g, b, key, r);
    NotedMeans(g, b, key, r);
    hide IsClosed, Normalized, Noted;
    if CanStore(g, b, r) {
      NormalizedIsClosed(g, r.text);
      MeasuredTakesALine(size, b, t, LineOf(b, key, r, Normalized(g, r.text).value));
    }
  }

  lemma NormalizedIsClosed(g: Grammar, text: string)
    requires Normalized(g, text).Some?
    ensures IsClosed(g, Normalized(g, text).value)
  {
  }

  ghost predicate BookIsSound(g: Grammar, size: nat, b: Book) {
    SequencesRise(b) && Measured(size, b) && LinesAreClosed(g, b)
  }

  lemma StepKeepsBook(g: Grammar, size: nat, s: State, m: Move)
    requires BookIsSound(g, size, s.shared.book)
    ensures BookIsSound(g, size, Step(g, s, m).shared.book)
  {
    var key, r := OnlyAppendsWrite(g, s, m);
    hide Step, Noted, IsOpen, SequencesRise, Measured, LinesAreClosed;
    if Step(g, s, m).shared.book != s.shared.book {
      NotingKeepsRising(g, s.shared.book, key, r);
      NotingKeepsMeasure(g, size, s.shared.book, key, r);
    }
  }

  // ---------------------------------------------------------------- idle generations

  /** The numbers of generations whose observation was reported idle. */
  ghost predicate IdleIsFinal(s: State) {
    && (forall i | 0 <= i < |s.replies| && s.replies[i].control.phase.Close? ::
          && s.replies[i].control.generation.number in s.shared.closed
          && s.replies[i].at <= |s.shared.book.transcript|
          && forall k | s.replies[i].at <= k < |s.shared.book.transcript| ::
               s.shared.book.transcript[k].key.generation.number != s.replies[i].control.generation.number)
    && (forall i, j | 0 <= i < j < |s.replies| && s.replies[i].control.phase.Close? && s.replies[j].control.phase.Close? ::
          s.replies[i].control.generation.number != s.replies[j].control.generation.number)
    && (s.reader.Replying? && s.reader.control.phase.Close? ==>
          && s.reader.control.generation.number in s.shared.closed
          && forall i | 0 <= i < |s.replies| && s.replies[i].control.phase.Close? ::
               s.replies[i].control.generation.number != s.reader.control.generation.number)
  }

  lemma AppendKeepsIdleFinal(s: State, s': State, line: Line)
    requires IdleIsFinal(s) && line.key.generation.number !in s.shared.closed
    requires s'.replies == s.replies && s'.reader == s.reader && s'.shared.closed == s.shared.closed
    requires s'.shared.book.transcript == s.shared.book.transcript + [line]
    ensures IdleIsFinal(s')
  {
  }

  lemma EndKeepsIdleFinal(s: State)
    requires Observing(s) && IdleIsFinal(s)
    ensures IdleIsFinal(StepEnd(s))
  {
  }

  lemma ReplyKeepsIdleFinal(s: State, sent: bool)
    requires IdleIsFinal(s)
    ensures IdleIsFinal(StepReply(s, sent))
  {
  }

  /** A latched control opens an observation, so its reply is no OBSERVATION_IDLE. */
  lemma ReaderKeepsIdleFinal(s: State, m: Move)
    requires Observing(s) && IdleIsFinal(s)
    ensures IdleIsFinal(StepLatch(s)) && IdleIsFinal(StepMark(s))
    ensures m.ReadControl? ==> IdleIsFinal(StepRead(s, m.control, m.genuine))
    ensures m.CrossQueue? ==> IdleIsFinal(StepCross(s, m.reached, m.now))
    ensures m.AwaitQuiet? ==> IdleIsFinal(StepAwait(s, m.now, m.expired))
  {
    hide IsQuiet, IsAdmitted;
  }

  lemma CallbacksKeepIdleFinal(g: Grammar, s: State, m: Move)
    requires m.BeginCallback? || m.AppendLine? || m.FinishCallback? || m.Stop?
    requires IdleIsFinal(s)
    ensures IdleIsFinal(Step(g, s, m))
  {
    var s' := Step(g, s, m);
    CallbacksObserveNothing(g, s, m);
    var key, r := OnlyAppendsWrite(g, s, m);
    hide IdleIsFinal, Step, Noted, IsRequest, Normalized;
    if s'.shared.book.transcript == s.shared.book.transcript {
      SameKeepsIdleFinal(s, s');
    } else {
      NotedMeans(g, s.shared.book, key, r);
      AppendKeepsIdleFinal(s, s', LineOf(s.shared.book, key, r, Normalized(g, r.text).value));
    }
  }

  lemma SameKeepsIdleFinal(s: State, s': State)
    requires IdleIsFinal(s) && s'.replies == s.replies && s'.reader == s.reader
    requires s'.shared.closed == s.shared.closed && s'.shared.book.transcript == s.shared.book.transcript
    ensures IdleIsFinal(s')
  {
  }

  lemma StepKeepsIdleFinal(g: Grammar, s: State, m: Move)
    requires Observing(s) && IdleIsFinal(s)
    ensures IdleIsFinal(Step(g, s, m))
  {
    hide Observing, IdleIsFinal, StepRead, StepLatch, StepMark, StepCross, StepAwait, StepEnd, StepReply, StepBegin, StepAppend, StepFinish;
    match m
    case EndGeneration => EndKeepsIdleFinal(s);
    case SendReply(sent) => ReplyKeepsIdleFinal(s, sent);
    case BeginCallback(_) => CallbacksKeepIdleFinal(g, s, m);
    case AppendLine(_, _) => CallbacksKeepIdleFinal(g, s, m);
    case FinishCallback(_) => CallbacksKeepIdleFinal(g, s, m);
    case Stop => CallbacksKeepIdleFinal(g, s, m);
    case _ => ReaderKeepsIdleFinal(s, m);
  }

  // ---------------------------------------------------------------- running callbacks

  ghost function Running(callbacks: map<nat, Callback>, key: Key): set<nat> {
    set id | id in callbacks && callbacks[id].key == key
  }

  /** The counter of a generation is the number of its callbacks under way. */
  ghost predicate Counts(inflight: map<Key, nat>, callbacks: map<nat, Callback>) {
    forall key :: Get(inflight, key, 0) == |Running(callbacks, key)|
  }

  ghost predicate InflightCounts(s: State) { Counts(s.shared.inflight, s.callbacks) }

  lemma RunningTakesOne(callbacks: map<nat, Callback>, id: nat, mine: Key, key: Key)
    requires id !in callbacks
    ensures |Running(callbacks[id := Callback(mine, false)], key)| == |Running(callbacks, key)| + if key == mine then 1 else 0
  {
    var more := callbacks[id := Callback(mine, false)];
    if key == mine {
      assert Running(more, key) == Running(callbacks, key) + {id};
    } else {
      assert Running(more, key) == Running(callbacks, key);
    }
  }

  lemma CountsTakeOne(inflight: map<Key, nat>, callbacks: map<nat, Callback>, id: nat, mine: Key)
    requires Counts(inflight, callbacks) && id !in callbacks
    ensures Counts(inflight[mine := Get(inflight, mine, 0) + 1], callbacks[id := Callback(mine, false)])
  {
    hide Running;
    var more := callbacks[id := Callback(mine, false)];
    forall key ensures Get(inflight[mine := Get(inflight, mine, 0) + 1], key, 0) == |Running(more, key)| {
      RunningTakesOne(callbacks, id, mine, key);
    }
  }

  lemma CountsDropOne(inflight: map<Key, nat>, callbacks: map<nat, Callback>, id: nat)
    requires Counts(inflight, callbacks) && id in callbacks
    ensures var mine := callbacks[id].key;
      Get(inflight, mine, 0) > 0 && Counts(inflight[mine := Get(inflight, mine, 0) - 1], callbacks - {id})
  {
    var mine := callbacks[id].key;
    assert id in Running(callbacks, mine);
    forall key ensures Get(inflight[mine := Get(inflight, mine, 0) - 1], key, 0) == |Running(callbacks - {id}, key)| {
      assert Running(callbacks - {id}, key) == Running(callbacks, key) - if key == mine then {id} else {};
    }
  }

  lemma CountsKeepMarked(inflight: map<Key, nat>, callbacks: map<nat, Callback>, id: nat)
    requires Counts(inflight, callbacks) && id in callbacks
    ensures Counts(inflight, callbacks[id := callbacks[id].(appended := true)])
  {
    var marked := callbacks[id := callbacks[id].(appended := true)];
    forall key ensures Get(inflight, key, 0) == |Running(marked, key)| {
      assert Running(marked, key) == Running(callbacks, key);
    }
  }

  lemma AppendKeepsInflight(g: Grammar, s: State, id: nat, r: Request)
    requires InflightCounts(s)
    ensures InflightCounts(StepAppend(g, s, id, r))
  {
    hide Counts, Noted, IsRequest;
    if id in s.callbacks {
      CountsKeepMarked(s.shared.inflight, s.callbacks, id);
    }
  }

  lemma BeginKeepsInflight(s: State, id: nat)
    requires InflightCounts(s)
    ensures InflightCounts(StepBegin(s, id))
  {
    hide Counts;
    if id !in s.callbacks && CanBegin(s.shared) {
      CountsTakeOne(s.shared.inflight, s.callbacks, id, KeyOf(s.shared.active.value));
    }
  }

  lemma FinishKeepsInflight(s: State, id: nat)
    requires InflightCounts(s)
    ensures InflightCounts(StepFinish(s, id))
  {
    hide Counts;
    if id in s.callbacks && s.callbacks[id].appended {
      CountsDropOne(s.shared.inflight, s.callbacks, id);
    }
  }

  lemma OthersKeepInflight(g: Grammar, s: State, m: Move)
    requires !m.BeginCallback? && !m.AppendLine? && !m.FinishCallback?
    ensures Step(g, s, m).shared.inflight == s.shared.inflight && Step(g, s, m).callbacks == s.callbacks
  {
    hide IsQuiet, IsAdmitted, StillCloses;
  }

  lemma StepKeepsInflight(g: Grammar, s: State, m: Move)
    requires InflightCounts(s)
    ensures InflightCounts(Step(g, s, m))
  {
    hide Counts, StepRead, StepLatch, StepMark, StepCross, StepAwait, StepEnd, StepReply, StepBegin, StepAppend, StepFinish;
    match m
    case BeginCallback(id) => BeginKeepsInflight(s, id);
    case AppendLine(id, r) => AppendKeepsInflight(g, s, id, r);
    case FinishCallback(id) => FinishKeepsInflight(s, id);
    case _ => OthersKeepInflight(g, s, m);
  }

  // ---------------------------------------------------------------- every run

  ghost predicate Invariant(g: Grammar, size: nat, s: State) {
    && Observing(s) && InBlocks(s.observed, s.shared.book.transcript)
    && BookIsSound(g, size, s.shared.book) && IdleIsFinal(s) && InflightCounts(s)
  }

  lemma {:induction false} RunKeepsInvariant(g: Grammar, size: nat, moves: seq<Move>)
    ensures Invariant(g, size, Run(g, size, moves))
    decreases |moves|
  {
    if moves == [] {
      forall key ensures Running(map[], key) == {} {}
    } else {
      var s, m := Run(g, size, moves[..|moves| - 1]), moves[|moves| - 1];
      RunKeepsInvariant(g, size, moves[..|moves| - 1]);
      hide Observing, InBlocks, BookIsSound, IdleIsFinal, InflightCounts, Step;
      StepKeepsObserving(g, s, m);
      StepKeepsBlocks(g, s, m);
      StepKeepsBook(g, size, s, m);
      StepKeepsIdleFinal(g, s, m);
      StepKeepsInflight(g, s, m);
    }
  }

  /**
   However reader and callbacks interleave, the transcript is one block per
   observation in the order of their OBSERVE controls, its sequence numbers rise
   within a block, all its text is from the closed grammar, and it fits 2 MiB.
   */
  lemma TranscriptIsOrdered(g: Grammar, size: nat, moves: seq<Move>)
    ensures var s := Run(g, size, moves);
      && s.shared.book.transcript == Blocks(s.observed, s.shared.book.transcript)
      && (forall i, j | 0 <= i < j < |s.observed| :: s.observed[i].observation != s.observed[j].observation)
      && SequencesRise(s.shared.book) && LinesAreClosed(g, s.shared.book) && s.shared.book.size == size + Written(s.shared.book.transcript)
      && (size <= MAX_TOTAL_BYTES ==> s.shared.book.size <= MAX_TOTAL_BYTES)
  {
    RunKeepsInvariant(g, size, moves);
  }

  /** After OBSERVATION_IDLE for a generation, no line of that generation is written any more. */
  lemma NothingFollowsIdle(g: Grammar, size: nat, moves: seq<Move>, later: seq<Move>, i: nat, k: nat)
    requires i < |Run(g, size, moves).replies| && Run(g, size, moves).replies[i].control.phase.Close?
    requires |Run(g, size, moves).shared.book.transcript| <= k < |Run(g, size, moves + later).shared.book.transcript|
    ensures Run(g, size, moves + later).shared.book.transcript[k].key.generation.number
      != Run(g, size, moves).replies[i].control.generation.number
  {
    RunKeepsInvariant(g, size, moves);
    RunKeepsInvariant(g, size, moves + later);
    RepliesStay(g, size, moves, later);
  }

  lemma StepOnlyAdds(g: Grammar, s: State, m: Move)
    ensures s.replies <= Step(g, s, m).replies && s.shared.book.transcript <= Step(g, s, m).shared.book.transcript
  {
    var key, r := OnlyAppendsWrite(g, s, m);
    NotedMeans(g, s.shared.book, key, r);
    hide Noted, Normalized, IsRequest, IsQuiet, IsAdmitted;
  }

  lemma {:induction false} RepliesStay(g: Grammar, size: nat, moves: seq<Move>, later: seq<Move>)
    ensures Run(g, size, moves).replies <= Run(g, size, moves + later).replies
    ensures Run(g, size, moves).shared.book.transcript <= Run(g, size, moves + later).shared.book.transcript
    decreases |later|
  {
    if later == [] {
      assert moves + later == moves;
    } else {
      var n := |later| - 1;
      RepliesStay(g, size, moves, later[..n]);
      assert (moves + later)[..|moves + later| - 1] == moves + later[..n];
      StepOnlyAdds(g, Run(g, size, moves + later[..n]), later[n]);
      hide Step;
    }
  }

  /** No generation is reported idle twice. */
  lemma EachGenerationIdlesOnce(g: Grammar, size: nat, moves: seq<Move>, i: nat, j: nat)
    requires i < j < |Run(g, size, moves).replies|
    requires Run(g, size, moves).replies[i].control.phase.Close? && Run(g, size, moves).replies[j].control.phase.Close?
    ensures Run(g, size, moves).replies[i].control.generation.number != Run(g, size, moves).replies[j].control.generation.number
  {
    RunKeepsInvariant(g, size, moves);
  }

  lemma OnlyDrainingEnds(g: Grammar, s: State, m: Move)
    requires !s.reader.Ending? && Step(g, s, m).reader.Ending?
    ensures s.reader.Quieting? && Get(s.shared.inflight, KeyOf(s.reader.control), 0) == 0
  {
    hide Noted, IsRequest, IsAdmitted;
  }

  /** The drain ends only in a state in which no callback of the closing generation is running. */
  lemma DrainedMeansNoneRunning(g: Grammar, size: nat, moves: seq<Move>, m: Move, id: nat)
    requires var s := Run(g, size, moves); !s.reader.Ending? && Step(g, s, m).reader.Ending?
    requires id in Run(g, size, moves).callbacks
    ensures Run(g, size, moves).callbacks[id].key != KeyOf(Run(g, size, moves).reader.control)
  {
    RunKeepsInvariant(g, size, moves);
    var s := Run(g, size, moves);
    OnlyDrainingEnds(g, s, m);
    hide Step, Run, Observing, InBlocks, BookIsSound, IdleIsFinal;
    var key := KeyOf(s.reader.control);
    assert |Running(s.callbacks, key)| == Get(s.shared.inflight, key, 0) == 0;
    assert id !in Running(s.callbacks, key);
  }

  /** A callback under way now was under way before, or has begun since. */
  lemma {:induction false} CallbacksBegin(g: Grammar, size: nat, moves: seq<Move>, later: seq<Move>, id: nat)
    requires id in Run(g, size, moves + later).callbacks
    ensures BeganIn(later, id)
      || (id in Run(g, size, moves).callbacks && Run(g, size, moves).callbacks[id].key == Run(g, size, moves + later).callbacks[id].key)
    decreases |later|
  {
    if later == [] {
      assert moves + later == moves;
    } else {
      var n := |later| - 1;
      assert (moves + later)[..|moves + later| - 1] == moves + later[..n];
      if later[n] == BeginCallback(id) {
        assert BeganIn(later, id);
      } else {
        StepBegins(g, Run(g, size, moves + later[..n]), later[n], id);
        hide Step;
        CallbacksBegin(g, size, moves, later[..n], id);
        if BeganIn(later[..n], id) {
          var i :| 0 <= i < n && later[..n][i] == BeginCallback(id);
          assert later[i] == BeginCallback(id);
        }
      }
    }
  }

  predicate BeganIn(moves: seq<Move>, id: nat) { exists i :: 0 <= i < |moves| && moves[i] == BeginCallback(id) }

  lemma StepBegins(g: Grammar, s: State, m: Move, id: nat)
    requires id in Step(g, s, m).callbacks && m != BeginCallback(id)
    ensures id in s.callbacks && s.callbacks[id].key == Step(g, s, m).callbacks[id].key
  {
    hide Noted, IsRequest, IsQuiet, IsAdmitted, StillCloses, CanBegin;
  }

  /**
   The lock is free between the end of the drain and the closing section. A
   callback of the closing generation that runs at that section has begun in this
   gap.
   */
  lemma OnlyLateCallbacksRunAtTheEnd(g: Grammar, size: nat, moves: seq<Move>, m: Move, later: seq<Move>, id: nat)
    requires !Run(g, size, moves).reader.Ending? && Step(g, Run(g, size, moves), m).reader.Ending?
    requires Run(g, size, moves + [m] + later).reader == Step(g, Run(g, size, moves), m).reader
    requires id in Run(g, size, moves + [m] + later).callbacks
    requires Run(g, size, moves + [m] + later).callbacks[id].key == KeyOf(Run(g, size, moves + [m] + later).reader.control)
    ensures BeganIn(later, id)
  {
    var s := Run(g, size, moves);
    assert (moves + [m])[..|moves + [m]| - 1] == moves;
    DrainKeepsControl(g, s, m);
    CallbacksBegin(g, size, moves + [m], later, id);
    if !BeganIn(later, id) {
      StepBegins(g, s, m, id);
      DrainedMeansNoneRunning(g, size, moves, m, id);
    }
  }

  lemma DrainKeepsControl(g: Grammar, s: State, m: Move)
    requires !s.reader.Ending? && Step(g, s, m).reader.Ending?
    ensures s.reader.Quieting? && Step(g, s, m).reader.control == s.reader.control && !m.BeginCallback?
  {
    hide Noted, IsRequest, IsAdmitted;
  }

  /** Such a callback exists, and once the generation has ended its line is refused. */
  lemma LateCallbackIsRefused(g: Grammar, size: nat, moves: seq<Move>, id: nat, r: Request)
    requires var s := Run(g, size, moves);
      s.reader.Ending? && !s.shared.stopped && !s.shared.failed && id !in s.callbacks && IsRequest(r)
    ensures var s := Run(g, size, moves);
      var begun := Step(g, s, BeginCallback(id));
      var ended := Step(g, begun, EndGeneration);
      && id in begun.callbacks && begun.callbacks[id].key == KeyOf(s.reader.control)
      && ended.reader == Replying(s.reader.control)
      && Step(g, ended, AppendLine(id, r)).shared.book == s.shared.book
  {
    RunKeepsInvariant(g, size, moves);
    var s := Run(g, size, moves);
    hide Run, Observing, InBlocks, BookIsSound, IdleIsFinal, InflightCounts, IsRequest, Appended;
    ClosingIsActive(s);
    var begun := StepBegin(s, id);
    assert begun.shared == Begun(s.shared, KeyOf(s.reader.control)) && begun.reader == s.reader;
    var ended := StepEnd(begun);
    assert ended.shared == Closed(begun.shared, s.reader.control) && ended.callbacks == begun.callbacks;
    ClosedDropsAppends(g, ended.shared, KeyOf(s.reader.control), r);
  }

  lemma ClosingIsActive(s: State)
    requires Observing(s) && s.reader.Ending?
    ensures StillCloses(s.shared, s.reader.control) && s.shared.active.Some?
  {
  }

  lemma ClosedDropsAppends(g: Grammar, s: Shared, key: Key, r: Request)
    requires s.active.None?
    ensures Appended(g, s, key, r) == s
  {
  }

  /** The check that the generation is still the closing one never fails: only stopping keeps a drained close from its reply. */
  lemma DrainedCloseEnds(g: Grammar, size: nat, moves: seq<Move>)
    requires Run(g, size, moves).reader.Ending? && !Run(g, size, moves).shared.stopped
    ensures var s := Run(g, size, moves);
      Step(g, s, EndGeneration) == s.(shared := Closed(s.shared, s.reader.control), reader := Replying(s.reader.control))
  {
    RunKeepsInvariant(g, size, moves);
  }

  /**
   A callback's line reaches the transcript exactly when its observation is still
   active, the text is of the grammar, the line fits, and something is written: no
   other callback can take its place or its number.
   */
  lemma RecordedIff(g: Grammar, size: nat, moves: seq<Move>, id: nat, r: Request)
    requires var s := Run(g, size, moves); id in s.callbacks && !s.callbacks[id].appended && IsRequest(r)
    ensures var s := Run(g, size, moves); var after := Step(g, s, AppendLine(id, r)).shared.book;
      if IsActive(s.shared.active, s.callbacks[id].key) && Normalized(g, r.text).Some? && Fits(s.shared.book, r) && r.written > 0
      then after.transcript == s.shared.book.transcript + [LineOf(s.shared.book, s.callbacks[id].key, r, Normalized(g, r.text).value)]
      else after.transcript == s.shared.book.transcript
  {
    RunKeepsInvariant(g, size, moves);
  }

  lemma AppendedCases(g: Grammar, s: Shared, key: Key, r: Request)
    ensures !IsOpen(s, key) ==> Appended(g, s, key, r) == s
    ensures IsOpen(s, key) && !CanStore(g, s.book, r) ==> Appended(g, s, key, r) == s.(book := Counted(s.book, key))
    ensures IsOpen(s, key) && CanStore(g, s.book, r) ==>
      Appended(g, s, key, r) == s.(book := Stored(s.book, key, r, Normalized(g, r.text).value))
  {
  }

  // ---------------------------------------------------------------- the plug-in

  class GlobalPlugin {
    var active: Option<Control>
    var failed: bool
    var stopped: bool
    var closing: Option<Key>
    var seen: set<Observation>
    var closed: set<nat>
    var lastCreated: int
    var sequences: map<Observation, nat>
    var counts: map<Key, nat>
    var lastEvent: map<Key, int>
    var inflight: map<Key, nat>
    var transcript: seq<Line>
    var size: nat

    ghost function Entries(): Book
      reads this
    {
      Book(transcript, size, sequences, counts, lastEvent)
    }

    ghost function Contents(): Shared
      reads this
    {
      Shared(active, failed, stopped, closing, seen, closed, lastCreated, inflight, Entries())
    }

    constructor (size: nat)
      ensures Contents() == Initial(size).shared
    {
      active, failed, stopped, closing := None, false, false, None;
      seen, closed, lastCreated := {}, {}, -1;
      sequences, counts, lastEvent, inflight := map[], map[], map[], map[];
      transcript := [];
      this.size := size;
    }

    method ValidateControl(c: Control) returns (admitted: bool)
      modifies this`seen, this`lastCreated
      ensures admitted == IsAdmitted(old(Contents()), c)
      ensures Contents() == if admitted then Admitted(old(Contents()), c) else old(Contents())
    {
      if c.created < lastCreated {
        return false;
      }
      if c.phase.Observe? {
        if c.observation in seen || c.generation.number in closed {
          return false;
        }
        seen := seen + {c.observation};
      } else if active.None? || active.value.observation != c.observation || active.value.generation != c.generation {
        return false;
      }
      lastCreated := c.created;
      return true;
    }

    method Latch(c: Control) returns (latched: bool)
      modifies this`active, this`closing
      ensures latched == !stopped
      ensures Contents() == if latched then Latched(old(Contents()), c) else old(Contents())
    {
      if stopped {
        return false;
      }
      active, closing := Some(c), None;
      return true;
    }

    method Mark(c: Control) returns (marked: bool)
      modifies this`closing
      ensures marked == !stopped
      ensures Contents() == if marked then Marked(old(Contents()), c) else old(Contents())
    {
      if stopped {
        return false;
      }
      closing := Some(Key(c.observation, c.generation));
      return true;
    }

    /** Ends the closing generation; an error is raised when another one took its place. */
    method EndClosing(c: Control) returns (r: Result<bool, string>)
      modifies this`active, this`closing, this`closed
      ensures r == if stopped then Ok(false) else if StillCloses(old(Contents()), c) then Ok(true)
                   else Err("NVDA CLOSE generation changed during queue drain")
      ensures Contents() == if r == Ok(true) then Closed(old(Contents()), c) else old(Contents())
    {
      if stopped {
        return Ok(false);
      }
      if active.None? || active.value.observation != c.observation || active.value.generation != c.generation
         || closing != Some(Key(c.observation, c.generation)) {
        return Err("NVDA CLOSE generation changed during queue drain");
      }
      closed := closed + {c.generation.number};
      active, closing := None, None;
      return Ok(true);
    }

    method Begin() returns (key: Option<Key>)
      modifies this`inflight
      ensures key == if CanBegin(old(Contents())) then Some(KeyOf(active.value)) else None
      ensures Contents() == if key.Some? then Begun(old(Contents()), key.value) else old(Contents())
    {
      if failed || active.None? {
        return None;
      }
      var mine := Key(active.value.observation, active.value.generation);
      inflight := inflight[mine := Get(inflight, mine, 0) + 1];
      return Some(mine);
    }

    method Finish(key: Key)
      modifies this`inflight
      ensures Contents() == Finished(old(Contents()), key)
    {
      var n := Get(inflight, key, 1);
      inflight := inflight[key := if n > 0 then n - 1 else 0];
    }

    /** Writes at the end of the file; the write may break off, or its flush may fail. */
    method WriteInherited(line: Line, synced: bool) returns (ok: bool)
      modifies this`transcript, this`size
      ensures transcript == if line.written > 0 then old(transcript) + [line] else old(transcript)
      ensures size == old(size) + line.written
      ensures ok == (line.written >= line.length && synced)
    {
      if line.written > 0 {
        transcript := transcript + [line];
        size := size + line.written;
      }
      return line.written >= line.length && synced;
    }

    /** Enters the line under its number, if it is of the grammar and fits. */
    method Enter(g: Grammar, key: Key, sequence: nat, r: Request) returns (ok: bool)
      requires IsRequest(r)
      modifies this`transcript, this`size, this`counts, this`lastEvent
      ensures Entries() == if CanStore(g, old(Entries()), r)
        then Entered(old(Entries()), Line(key, sequence, r.kind, r.priority, Normalized(g, r.text).value, r.length, r.written), r)
        else old(Entries())
      ensures ok <==> CanStore(g, old(Entries()), r) && r.written == r.length && r.synced
    {
      hide Normalized;
      var text := Normalize(g, r.text);
      if text.None? || r.length > MAX_LINE_BYTES || size + r.length > MAX_TOTAL_BYTES {
        return false;
      }
      ok := WriteInherited(Line(key, sequence, r.kind, r.priority, text.value, r.length, r.written), r.synced);
      if ok {
        counts := counts[key := Get(counts, key, 0) + 1];
        lastEvent := lastEvent[key := r.now];
      }
    }

    /** Appends one line; the result says whether the callback ended without an error. */
    method Append(g: Grammar, key: Key, r: Request) returns (ok: bool)
      requires IsRequest(r)
      modifies this`sequences, this`transcript, this`size, this`counts, this`lastEvent
      ensures Contents() == Appended(g, old(Contents()), key, r)
      ensures ok <==> IsOpen(old(Contents()), key) && CanStore(g, old(Entries()), r) && r.written == r.length && r.synced
    {
      ghost var before := Contents();
      AppendedCases(g, before, key, r);
      hide Normalized, Appended, Entered;
      if active.None? || active.value.observation != key.observation || active.value.generation != key.generation
         || key.generation.number in closed {
        return false;
      }
      var sequence := Get(sequences, key.observation, 0) + 1;
      sequences := sequences[key.observation := sequence];
      assert Contents() == before.(book := Counted(before.book, key));
      ok := Enter(g, key, sequence, r);
    }
  }
}
