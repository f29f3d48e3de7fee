/**
 The quiet interval before an observation is reported idle, over every
 interleaving of the reader with its callbacks
 (scripts/r4b-evidence/nvda-adapter/scratchpad/globalPlugins/fluyoPreflightSpeech.py:410-436),
 and what a failure of the reader stops.
 */
module ObservationQuiet {
  import opened Basics
  import opened SpeechGrammar
  import opened ObservationBarrier

  // ---------------------------------------------------------------- complete lines

  /** The move writes a whole line of the generation, flushed to the file. */
  ghost predicate Completes(g: Grammar, s: State, m: Move, key: Key) {
    && m.AppendLine? && m.id in s.callbacks && !s.callbacks[m.id].appended && s.callbacks[m.id].key == key
    && IsActive(s.shared.active, key) && Normalized(g, m.request.text).Some?
    && 1 <= m.request.length <= 4096 && s.shared.book.size + m.request.length <= 2 * 1024 * 1024
    && m.request.written == m.request.length && m.request.synced
  }

  ghost predicate CompletesAt(g: Grammar, size: nat, moves: seq<Move>, key: Key, i: nat) {
    i < |moves| && Completes(g, Run(g, size, moves[..i]), moves[i], key)
  }

  /** How many of the moves do. */
  ghost function Completions(g: Grammar, size: nat, moves: seq<Move>, key: Key): nat {
    if moves == [] then 0
    else
      var n := |moves| - 1;
      Completions(g, size, moves[..n], key) + if Completes(g, Run(g, size, moves[..n]), moves[n], key) then 1 else 0
  }

  /** The time of the last of them, if there is one. */
  ghost function LastHeard(g: Grammar, size: nat, moves: seq<Move>, key: Key): Option<int> {
    if moves == [] then None
    else
      var n := |moves| - 1;
      if Completes(g, Run(g, size, moves[..n]), moves[n], key) then Some(moves[n].request.now)
      else LastHeard(g, size, moves[..n], key)
  }

  /** What the book remembers of a generation. */
  ghost predicate Remembers(b: Book, key: Key, count: nat, last: Option<int>) {
    && Get(b.counts, key, 0) == count && (key in b.lastEvent <==> last.Some?) && (last.Some? ==> b.lastEvent[key] == last.value)
  }

  lemma NotingRemembers(g: Grammar, b: Book, mine: Key, r: Request, key: Key, count: nat, last: Option<int>)
    requires Remembers(b, key, count, last) && IsRequest(r)
    ensures var complete := mine == key && Normalized(g, r.text).Some? && r.length <= 4096 && b.size + r.length <= 2 * 1024 * 1024
                            && r.written == r.length && r.synced;
      Remembers(Noted(g, b, mine, r), key, if complete then count + 1 else count, if complete then Some(r.now) else last)
  {
    hide Normalized;
  }

  lemma StepRemembers(g: Grammar, size: nat, s: State, m: Move, key: Key, count: nat, last: Option<int>)
    requires Invariant(g, size, s) && Remembers(s.shared.book, key, count, last)
    ensures var c := Completes(g, s, m, key);
      Remembers(Step(g, s, m).shared.book, key, if c then count + 1 else count, if c then Some(m.request.now) else last)
  {
    ActiveIsOpen(g, size, s);
    hide Invariant, Noted, Normalized, Remembers, IsQuiet;
    if m.AppendLine? && m.id in s.callbacks && !s.callbacks[m.id].appended && IsRequest(m.request) && IsOpen(s.shared, s.callbacks[m.id].key) {
      NotingRemembers(g, s.shared.book, s.callbacks[m.id].key, m.request, key, count, last);
    }
  }

  lemma ActiveIsOpen(g: Grammar, size: nat, s: State)
    requires Invariant(g, size, s)
    ensures forall key :: IsActive(s.shared.active, key) ==> key.generation.number !in s.shared.closed
  {
    hide InBlocks, BookIsSound, IdleIsFinal, InflightCounts;
  }

  /**
   The event count and the event time of a generation are exactly those of its lines
   that were completely written.
   */
  lemma {:induction false} OnlyWholeLinesCount(g: Grammar, size: nat, moves: seq<Move>, key: Key)
    ensures Remembers(Run(g, size, moves).shared.book, key, Completions(g, size, moves, key), LastHeard(g, size, moves, key))
    decreases |moves|
  {
    if moves != [] {
      hide Remembers, Completes, Invariant, Step;
      var n := |moves| - 1;
      OnlyWholeLinesCount(g, size, moves[..n], key);
      RunKeepsInvariant(g, size, moves[..n]);
      StepRemembers(g, size, Run(g, size, moves[..n]), moves[n], key, Completions(g, size, moves[..n], key), LastHeard(g, size, moves[..n], key));
    }
  }

  /** The last whole line of the generation, at its time. */
  ghost predicate IsLastWhole(g: Grammar, size: nat, moves: seq<Move>, key: Key, i: nat, time: int) {
    && CompletesAt(g, size, moves, key, i) && moves[i].request.now == time
    && forall j: nat | j > i :: !CompletesAt(g, size, moves, key, j)
  }

  lemma EarlierLines(g: Grammar, size: nat, moves: seq<Move>, key: Key, n: nat)
    requires |moves| == n + 1
    ensures forall i: nat :: CompletesAt(g, size, moves[..n], key, i) <==> i != n && CompletesAt(g, size, moves, key, i)
    ensures CompletesAt(g, size, moves, key, n) == Completes(g, Run(g, size, moves[..n]), moves[n], key)
  {
    hide Completes, Run;
    forall i: nat
      ensures CompletesAt(g, size, moves[..n], key, i) <==> i != n && CompletesAt(g, size, moves, key, i)
    {
      if i < n { assert moves[..n][..i] == moves[..i]; }
    }
  }

  lemma IsAppend(g: Grammar, s: State, m: Move, key: Key)
    requires Completes(g, s, m, key)
    ensures m.AppendLine?
  {
  }

  lemma NewestIsLast(g: Grammar, size: nat, moves: seq<Move>, key: Key, n: nat)
    requires |moves| == n + 1 && Completes(g, Run(g, size, moves[..n]), moves[n], key)
    ensures moves[n].AppendLine? && IsLastWhole(g, size, moves, key, n, moves[n].request.now)
  {
    IsAppend(g, Run(g, size, moves[..n]), moves[n], key);
    hide Completes, Run;
  }

  lemma OlderStaysLast(g: Grammar, size: nat, moves: seq<Move>, key: Key, n: nat, i: nat, time: int)
    requires |moves| == n + 1 && !Completes(g, Run(g, size, moves[..n]), moves[n], key)
    requires IsLastWhole(g, size, moves[..n], key, i, time)
    ensures IsLastWhole(g, size, moves, key, i, time)
  {
    assert i < n && moves[..n][i] == moves[i] by { hide Completes, Run; }
    EarlierLines(g, size, moves, key, n);
    hide CompletesAt, Completes, Run;
  }

  lemma NoneStaysNone(g: Grammar, size: nat, moves: seq<Move>, key: Key, n: nat)
    requires |moves| == n + 1 && !Completes(g, Run(g, size, moves[..n]), moves[n], key)
    requires forall i: nat :: !CompletesAt(g, size, moves[..n], key, i)
    ensures forall i: nat :: !CompletesAt(g, size, moves, key, i)
  {
    hide CompletesAt, Completes, Run;
    EarlierLines(g, size, moves, key, n);
  }

  /** The time last heard is that of a whole line, after which no other was completed. */
  lemma {:induction false} LastHeardMeans(g: Grammar, size: nat, moves: seq<Move>, key: Key)
    ensures LastHeard(g, size, moves, key).None? ==> forall i: nat :: !CompletesAt(g, size, moves, key, i)
    ensures LastHeard(g, size, moves, key).Some? ==> exists i: nat :: IsLastWhole(g, size, moves, key, i, LastHeard(g, size, moves, key).value)
    decreases |moves|
  {
    hide Completes, Run, IsLastWhole;
    if moves == [] {
    } else {
      hide CompletesAt;
      var n := |moves| - 1;
      LastHeardMeans(g, size, moves[..n], key);
      if Completes(g, Run(g, size, moves[..n]), moves[n], key) {
        NewestIsLast(g, size, moves, key, n);
      } else if LastHeard(g, size, moves[..n], key).Some? {
        var time := LastHeard(g, size, moves[..n], key).value;
        var i: nat :| IsLastWhole(g, size, moves[..n], key, i, time);
        OlderStaysLast(g, size, moves, key, n, i, time);
      } else {
        NoneStaysNone(g, size, moves, key, n);
      }
    }
  }

  // ---------------------------------------------------------------- the quiet interval

  /** No callback of the generation is running, and nothing was heard of it for fifty milliseconds. */
  ghost predicate HasFallenQuiet(g: Grammar, size: nat, moves: seq<Move>, key: Key, started: int, now: int) {
    && (forall id | id in Run(g, size, moves).callbacks :: Run(g, size, moves).callbacks[id].key != key)
    && match LastHeard(g, size, moves, key)
       case None => now >= started + 50
       case Some(last) => now >= last + 50
  }

  lemma NoneRunning(inflight: map<Key, nat>, callbacks: map<nat, Callback>, key: Key)
    requires Counts(inflight, callbacks)
    ensures Get(inflight, key, 0) == 0 <==> forall id | id in callbacks :: callbacks[id].key != key
  {
    assert Get(inflight, key, 0) == |Running(callbacks, key)|;
    if id :| id in callbacks && callbacks[id].key == key { assert id in Running(callbacks, key); }
    if forall id | id in callbacks :: callbacks[id].key != key { assert Running(callbacks, key) == {}; }
  }

  /**
   The drain of a generation ends exactly when the generation has fallen quiet, and
   gives up exactly when its time is over and it has not.
   */
  lemma DrainEndsIff(g: Grammar, size: nat, moves: seq<Move>, now: int, expired: bool)
    requires Run(g, size, moves).reader.Quieting?
    ensures var s := Run(g, size, moves);
      var quiet := HasFallenQuiet(g, size, moves, KeyOf(s.reader.control), s.reader.started, now);
      Step(g, s, AwaitQuiet(now, expired)) ==
        if quiet then s.(reader := Ending(s.reader.control))
        else if expired then s.(reader := Ended, shared := s.shared.(failed := s.shared.failed || !s.shared.stopped))
        else s
  {
    var s := Run(g, size, moves);
    var key := KeyOf(s.reader.control);
    RunKeepsInvariant(g, size, moves);
    OnlyWholeLinesCount(g, size, moves, key);
    hide Run, Observing, InBlocks, BookIsSound, IdleIsFinal, LastHeard, Completions;
    NoneRunning(s.shared.inflight, s.callbacks, key);
    hide Counts;
    assert s.shared == s.shared.(failed := s.shared.failed);
  }

  // ---------------------------------------------------------------- failures

  /** The reader gives up: a control that is not in order, a queue not crossed, a drain that never ends, a reply not sent. */
  ghost predicate GivesUp(s: State, m: Move) {
    match m
    case ReadControl(c, genuine) => s.reader.Reading? && !(genuine && c.generation.number >= 1 && IsAdmitted(s.shared, c))
    case CrossQueue(reached, _) => s.reader.Queued? && !reached
    case AwaitQuiet(now, expired) => s.reader.Quieting? && expired && !IsQuiet(s.shared, KeyOf(s.reader.control), s.reader.started, now)
    case SendReply(sent) => s.reader.Replying? && !sent
    case _ => false
  }

  /** A run fails exactly when the reader gives up before it was stopped, and then the reader is done. */
  lemma FailsIff(g: Grammar, size: nat, moves: seq<Move>, m: Move)
    ensures var s := Run(g, size, moves);
      var s' := Step(g, s, m);
      && (s'.shared.failed <==> s.shared.failed || (GivesUp(s, m) && !s.shared.stopped))
      && (GivesUp(s, m) ==> s'.reader == Ended)
  {
    RunKeepsInvariant(g, size, moves);
    var s := Run(g, size, moves);
    hide Run, InBlocks, BookIsSound, IdleIsFinal, InflightCounts, Noted, IsQuiet, IsAdmitted;
    if m.EndGeneration? && s.reader.Ending? { assert StillCloses(s.shared, s.reader.control); }
  }

  /** After a failure the reader is done and no callback begins any more. */
  lemma {:induction false} NothingBeginsAfterFailure(g: Grammar, size: nat, moves: seq<Move>, later: seq<Move>)
    requires Run(g, size, moves).shared.failed
    ensures var (s, s') := (Run(g, size, moves), Run(g, size, moves + later));
      s'.shared.failed && s'.reader == Ended && s'.replies == s.replies && s'.observed == s.observed && s'.callbacks.Keys <= s.callbacks.Keys
    decreases |later|
  {
    if later == [] {
      assert moves + later == moves;
      FailedIsEnded(g, size, moves);
    } else {
      var n := |later| - 1;
      assert (moves + later)[..|moves + later| - 1] == moves + later[..n] && (moves + later)[|moves + later| - 1] == later[n];
      NothingBeginsAfterFailure(g, size, moves, later[..n]);
      hide Noted, IsQuiet, IsAdmitted, Normalized;
      EndedStays(g, Run(g, size, moves + later[..n]), later[n]);
    }
  }

  lemma EndedStays(g: Grammar, s: State, m: Move)
    requires s.shared.failed && s.reader == Ended
    ensures var s' := Step(g, s, m);
      s'.shared.failed && s'.reader == Ended && s'.replies == s.replies && s'.observed == s.observed && s'.callbacks.Keys <= s.callbacks.Keys
  {
    hide Noted, IsQuiet, IsAdmitted;
  }

  lemma {:induction false} FailedIsEnded(g: Grammar, size: nat, moves: seq<Move>)
    ensures Run(g, size, moves).shared.failed ==> Run(g, size, moves).reader == Ended
    decreases |moves|
  {
    if moves != [] {
      var n := |moves| - 1;
      FailedIsEnded(g, size, moves[..n]);
      FailsIff(g, size, moves[..n], moves[n]);
      if Run(g, size, moves[..n]).shared.failed { EndedStays(g, Run(g, size, moves[..n]), moves[n]); }
    }
  }
}
