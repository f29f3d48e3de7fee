/**
 Which controls the reader takes, told from the controls it took before and the
 generations it reported idle, over every interleaving with the callbacks
 (scripts/r4b-evidence/nvda-adapter/scratchpad/globalPlugins/fluyoPreflightSpeech.py,
 _read_and_validate_control and _control_reader).
 */
module ObservationOrder {
  import opened Basics
  import opened SpeechGrammar
  import opened ObservationBarrier

  /** The reader takes the control: it goes on to latch it or to close with it. */
  ghost predicate Takes(g: Grammar, s: State, m: Move) {
    m.ReadControl? && s.reader.Reading? && (Step(g, s, m).reader == Latching(m.control) || Step(g, s, m).reader == Marking(m.control))
  }

  /** The controls that the reader took, in order. */
  ghost function Taken(g: Grammar, size: nat, moves: seq<Move>): seq<Control> {
    if moves == [] then []
    else
      var n := |moves| - 1;
      Taken(g, size, moves[..n]) + if Takes(g, Run(g, size, moves[..n]), moves[n]) then [moves[n].control] else []
  }

  /** The generation was reported idle. */
  ghost predicate IsIdle(replies: seq<Reply>, number: nat) {
    exists i :: 0 <= i < |replies| && replies[i].control.phase.Close? && replies[i].control.generation.number == number
  }

  /** The controls may be followed by this one. */
  ghost predicate MayFollow(taken: seq<Control>, replies: seq<Reply>, c: Control) {
    && c.generation.number >= 1 && c.created >= -1
    && (forall i | 0 <= i < |taken| :: taken[i].created <= c.created)
    && (c.phase.Observe? ==>
          && (forall i | 0 <= i < |taken| && taken[i].phase.Observe? :: taken[i].observation != c.observation)
          && !IsIdle(replies, c.generation.number))
    && (c.phase.Close? ==> taken != [] && taken[|taken| - 1].phase.Observe? && KeyOf(taken[|taken| - 1]) == KeyOf(c))
  }

  // ---------------------------------------------------------------- what the reader remembers of them

  ghost predicate RemembersOrder(taken: seq<Control>, s: Shared) {
    && s.lastCreated == (if taken == [] then -1 else taken[|taken| - 1].created) && s.lastCreated >= -1
    && (forall i | 0 <= i < |taken| :: taken[i].created <= s.lastCreated)
    && (forall o :: o in s.seen <==> exists i :: 0 <= i < |taken| && taken[i].phase.Observe? && taken[i].observation == o)
  }

  /** Between two controls, and while the reader answers the newest one. */
  ghost predicate IsAt(taken: seq<Control>, s: Shared, reader: Reader) {
    var n := |taken|;
    match reader
    case Reading => s.active == if taken != [] && taken[n - 1].phase.Observe? then Some(taken[n - 1]) else None
    case Latching(c) => n > 0 && taken[n - 1] == c && c.phase.Observe?
    case Replying(c) => n > 0 && taken[n - 1] == c && s.active == if c.phase.Observe? then Some(c) else None
    case Ended => true
    case _ => n > 0 && taken[n - 1] == reader.control && reader.control.phase.Close?
  }

  /** A generation is closed when it was reported idle, or is about to be. */
  ghost predicate RemembersIdle(replies: seq<Reply>, s: Shared, reader: Reader) {
    !reader.Ended? ==>
      forall number: nat :: number in s.closed <==>
        IsIdle(replies, number) || (reader.Replying? && reader.control.phase.Close? && reader.control.generation.number == number)
  }

  ghost predicate Follows(taken: seq<Control>, s: State) {
    RemembersOrder(taken, s.shared) && IsAt(taken, s.shared, s.reader) && RemembersIdle(s.replies, s.shared, s.reader)
  }

  /** Between two controls, the reader takes exactly those that may follow. */
  lemma TakesIff(g: Grammar, taken: seq<Control>, s: State, c: Control, genuine: bool)
    requires Follows(taken, s) && s.reader.Reading?
    ensures Takes(g, s, ReadControl(c, genuine)) <==> genuine && MayFollow(taken, s.replies, c)
    ensures !Takes(g, s, ReadControl(c, genuine)) ==> Step(g, s, ReadControl(c, genuine)).reader.Ended?
  {
    hide IsIdle;
    if c.phase.Observe? && c.observation in s.shared.seen {
      var i :| 0 <= i < |taken| && taken[i].phase.Observe? && taken[i].observation == c.observation;
    }
  }

  lemma IdleGrows(replies: seq<Reply>, reply: Reply)
    ensures forall number: nat :: IsIdle(replies + [reply], number) <==>
              IsIdle(replies, number) || (reply.control.phase.Close? && reply.control.generation.number == number)
  {
    forall number: nat
      ensures IsIdle(replies + [reply], number) <==>
        IsIdle(replies, number) || (reply.control.phase.Close? && reply.control.generation.number == number)
    {
      var all := replies + [reply];
      if IsIdle(replies, number) {
        var i :| 0 <= i < |replies| && replies[i].control.phase.Close? && replies[i].control.generation.number == number;
        assert all[i] == replies[i];
      }
      if reply.control.phase.Close? && reply.control.generation.number == number { assert all[|replies|] == reply; }
    }
  }

  lemma TakingFollows(g: Grammar, taken: seq<Control>, s: State, c: Control, genuine: bool)
    requires Follows(taken, s) && Takes(g, s, ReadControl(c, genuine))
    ensures Follows(taken + [c], Step(g, s, ReadControl(c, genuine)))
  {
    hide IsIdle;
    var (all, s') := (taken + [c], Step(g, s, ReadControl(c, genuine)));
    assert forall i | 0 <= i < |taken| :: all[i] == taken[i];
    assert all[|taken|] == c;
    forall o ensures o in s'.shared.seen <==> exists i :: 0 <= i < |all| && all[i].phase.Observe? && all[i].observation == o {
      if o in s.shared.seen {
        var i :| 0 <= i < |taken| && taken[i].phase.Observe? && taken[i].observation == o;
        assert all[i].phase.Observe? && all[i].observation == o;
      }
    }
  }

  lemma ReaderFollows(g: Grammar, taken: seq<Control>, s: State, m: Move)
    requires Follows(taken, s) && !m.ReadControl? && (s.reader.Quieting? || s.reader.Queued? || s.reader.Ending? ==> CloseIsBound(s))
    requires !(m.BeginCallback? || m.AppendLine? || m.FinishCallback? || m.Stop?)
    ensures Follows(taken, Step(g, s, m))
  {
    hide IsIdle, IsQuiet, RemembersOrder;
    if m.SendReply? && s.reader.Replying? && m.sent {
      IdleGrows(s.replies, Reply(s.reader.control, |s.shared.book.transcript|));
    }
    assert RemembersOrder(taken, Step(g, s, m).shared) by { SameOrder(taken, s.shared, Step(g, s, m).shared); }
  }

  lemma SameOrder(taken: seq<Control>, s: Shared, s': Shared)
    requires RemembersOrder(taken, s) && s'.lastCreated == s.lastCreated && s'.seen == s.seen
    ensures RemembersOrder(taken, s')
  {
  }

  lemma OthersFollow(g: Grammar, taken: seq<Control>, s: State, m: Move)
    requires Follows(taken, s) && (m.BeginCallback? || m.AppendLine? || m.FinishCallback? || m.Stop?)
    ensures Follows(taken, Step(g, s, m))
  {
    hide IsIdle, RemembersOrder, Step;
    CallbacksObserveNothing(g, s, m);
    assert Step(g, s, m).shared.lastCreated == s.shared.lastCreated by { OrderIsTheReaders(g, s, m); }
    SameOrder(taken, s.shared, Step(g, s, m).shared);
  }

  lemma OrderIsTheReaders(g: Grammar, s: State, m: Move)
    requires m.BeginCallback? || m.AppendLine? || m.FinishCallback? || m.Stop?
    ensures Step(g, s, m).shared.lastCreated == s.shared.lastCreated
  {
    hide Noted;
  }

  lemma {:induction false} RunFollows(g: Grammar, size: nat, moves: seq<Move>)
    ensures Follows(Taken(g, size, moves), Run(g, size, moves))
    decreases |moves|
  {
    if moves != [] {
      var n := |moves| - 1;
      RunFollows(g, size, moves[..n]);
      RunKeepsInvariant(g, size, moves[..n]);
      hide Follows, Invariant, Step, Takes;
      assert CloseIsBound(Run(g, size, moves[..n])) by { IsBoundIn(g, size, Run(g, size, moves[..n])); }
      hide CloseIsBound;
      StepFollows(g, Taken(g, size, moves[..n]), Run(g, size, moves[..n]), moves[n]);
    }
  }

  lemma IsBoundIn(g: Grammar, size: nat, s: State)
    requires Invariant(g, size, s)
    ensures CloseIsBound(s)
  {
    hide CloseIsBound, InBlocks, BookIsSound, IdleIsFinal, InflightCounts;
  }

  lemma StepFollows(g: Grammar, taken: seq<Control>, s: State, m: Move)
    requires Follows(taken, s) && CloseIsBound(s)
    ensures Follows(taken + if Takes(g, s, m) then [m.control] else [], Step(g, s, m))
  {
    assert taken + [] == taken;
    hide Step;
    if m.ReadControl? {
      ReadFollows(g, taken, s, m.control, m.genuine);
    } else if m.BeginCallback? || m.AppendLine? || m.FinishCallback? || m.Stop? {
      hide Follows, CloseIsBound;
      OthersFollow(g, taken, s, m);
    } else {
      hide Follows;
      ReaderFollows(g, taken, s, m);
    }
  }

  lemma ReadFollows(g: Grammar, taken: seq<Control>, s: State, c: Control, genuine: bool)
    requires Follows(taken, s)
    ensures var m := ReadControl(c, genuine); Follows(taken + if Takes(g, s, m) then [c] else [], Step(g, s, m))
  {
    var m := ReadControl(c, genuine);
    assert taken + [] == taken;
    if Takes(g, s, m) {
      TakingFollows(g, taken, s, c, genuine);
    } else if s.reader.Reading? {
      TakesIff(g, taken, s, c, genuine);
      hide IsIdle, IsAdmitted, MayFollow, RemembersOrder, Takes;
      assert RemembersOrder(taken, Step(g, s, m).shared) by { RefusedOrder(g, taken, s, c, genuine); }
    }
  }

  lemma RefusedOrder(g: Grammar, taken: seq<Control>, s: State, c: Control, genuine: bool)
    requires RemembersOrder(taken, s.shared) && Step(g, s, ReadControl(c, genuine)).reader.Ended? && s.reader.Reading?
    ensures RemembersOrder(taken, Step(g, s, ReadControl(c, genuine)).shared)
  {
    hide RemembersOrder, IsAdmitted;
    SameOrder(taken, s.shared, Step(g, s, ReadControl(c, genuine)).shared);
  }

  /**
   Between two controls of any run, the reader takes a control exactly when it is
   genuine and may follow those it took: not created before any of them; to observe,
   it names an observation never named before and a generation not reported idle; to
   close, it names the observation and the generation of the one it took last. Any
   other control ends the reader.
   */
  lemma ControlIsTakenIff(g: Grammar, size: nat, moves: seq<Move>, c: Control, genuine: bool)
    requires Run(g, size, moves).reader.Reading?
    ensures var (s, m) := (Run(g, size, moves), ReadControl(c, genuine));
      && (Takes(g, s, m) <==> genuine && MayFollow(Taken(g, size, moves), s.replies, c))
      && (!Takes(g, s, m) ==> Step(g, s, m).reader.Ended?)
  {
    RunFollows(g, size, moves);
    hide Follows, Run, Takes, Step, MayFollow;
    TakesIff(g, Taken(g, size, moves), Run(g, size, moves), c, genuine);
  }

  // ---------------------------------------------------------------- one observation, undisturbed

  ghost function Moved(g: Grammar, s: State, moves: seq<Move>): State
    decreases |moves|
  {
    if moves == [] then s else Step(g, Moved(g, s, moves[..|moves| - 1]), moves[|moves| - 1])
  }

  lemma {:induction false} RunIsMoved(g: Grammar, size: nat, moves: seq<Move>)
    ensures Run(g, size, moves) == Moved(g, Initial(size), moves)
    decreases |moves|
  {
    hide Step;
    if moves != [] { RunIsMoved(g, size, moves[..|moves| - 1]); }
  }

  lemma OneMore(g: Grammar, s: State, moves: seq<Move>, m: Move)
    ensures Moved(g, s, moves + [m]) == Step(g, Moved(g, s, moves), m)
  {
    hide Step;
    assert (moves + [m])[..|moves|] == moves;
  }

  lemma ThreeMore(g: Grammar, s: State, moves: seq<Move>, a: Move, b: Move, c: Move)
    ensures Moved(g, s, moves + [a, b, c]) == Step(g, Step(g, Step(g, Moved(g, s, moves), a), b), c)
  {
    hide Step, Moved;
    OneMore(g, s, moves, a);
    OneMore(g, s, moves + [a], b);
    OneMore(g, s, moves + [a] + [b], c);
    assert moves + [a, b, c] == moves + [a] + [b] + [c];
  }

  function Opening(c: Control): seq<Move> { [ReadControl(c, true), LatchControl, SendReply(true)] }

  function Speaking(id: nat, r: Request): seq<Move> { [BeginCallback(id), AppendLine(id, r), FinishCallback(id)] }

  function Closing(c: Control, reached: int): seq<Move> { [ReadControl(c, true), MarkClosing, CrossQueue(true, reached)] }

  function Draining(now: int): seq<Move> { [AwaitQuiet(now, false), EndGeneration, SendReply(true)] }

  lemma Opens(g: Grammar, s: State, c: Control)
    requires s.reader.Reading? && !s.shared.stopped && c.phase.Observe? && c.generation.number >= 1 && IsAdmitted(s.shared, c)
    ensures var s' := Step(g, Step(g, Step(g, s, ReadControl(c, true)), LatchControl), SendReply(true));
      s' == s.(shared := Latched(Admitted(s.shared, c), c), observed := s.observed + [c], replies := s.replies + [Reply(c, |s.shared.book.transcript|)])
  {
  }

  lemma Speaks(g: Grammar, s: State, id: nat, r: Request)
    requires id !in s.callbacks && !s.shared.failed && s.shared.active.Some? && IsRequest(r)
    requires var key := KeyOf(s.shared.active.value);
      key.generation.number !in s.shared.closed && Get(s.shared.inflight, key, 0) == 0
    ensures var key := KeyOf(s.shared.active.value);
      var s' := Step(g, Step(g, Step(g, s, BeginCallback(id)), AppendLine(id, r)), FinishCallback(id));
      s' == s.(shared := s.shared.(inflight := s.shared.inflight[key := 0], book := Noted(g, s.shared.book, key, r)))
  {
    hide Noted;
    var s1 := Step(g, s, BeginCallback(id));
    var s2 := Step(g, s1, AppendLine(id, r));
    assert s2.callbacks - {id} == s.callbacks;
    var key := KeyOf(s.shared.active.value);
    assert s.shared.inflight[key := 1][key := 0] == s.shared.inflight[key := 0];
  }

  lemma StartsClosing(g: Grammar, s: State, d: Control, reached: int)
    requires s.reader.Reading? && !s.shared.stopped && d.phase.Close? && d.generation.number >= 1 && IsAdmitted(s.shared, d)
    ensures var s' := Step(g, Step(g, Step(g, s, ReadControl(d, true)), MarkClosing), CrossQueue(true, reached));
      s' == s.(shared := Marked(Admitted(s.shared, d), d), reader := Quieting(d, reached))
  {
  }

  lemma Drains(g: Grammar, s: State, now: int)
    requires s.reader.Quieting? && !s.shared.stopped && StillCloses(s.shared, s.reader.control)
    requires IsQuiet(s.shared, KeyOf(s.reader.control), s.reader.started, now)
    ensures var d := s.reader.control;
      var s' := Step(g, Step(g, Step(g, s, AwaitQuiet(now, false)), EndGeneration), SendReply(true));
      s' == s.(shared := Closed(s.shared, d), reader := Reading, replies := s.replies + [Reply(d, |s.shared.book.transcript|)])
  {
    hide IsQuiet;
  }

  /**
   From the very beginning: an observation is opened and answered, one callback writes
   its line in full, the observation is closed fifty milliseconds later, and the
   generation is reported idle, with that line as the whole transcript.
   */
  lemma OneObservation(g: Grammar, size: nat, c: Control, d: Control, id: nat, r: Request, reached: int, now: int)
    requires c.phase.Observe? && d.phase.Close? && KeyOf(d) == KeyOf(c) && c.generation.number >= 1 && -1 <= c.created <= d.created
    requires Normalized(g, r.text).Some? && 1 <= r.length <= 4096 && size + r.length <= 2 * 1024 * 1024
    requires r.written == r.length && r.synced && now >= r.now + 50
    ensures var s := Run(g, size, Opening(c) + Speaking(id, r) + Closing(d, reached) + Draining(now));
      && s.shared.book.transcript == [Line(KeyOf(c), 1, r.kind, r.priority, Normalized(g, r.text).value, r.length, r.length)]
      && s.shared.book.size == size + r.length
      && s.replies == [Reply(c, 0), Reply(d, 1)] && s.observed == [c]
      && s.reader == Reading && s.shared.active == None && !s.shared.failed && s.shared.closed == {c.generation.number} && s.callbacks == map[]
  {
    hide Moved, Step, Run, Normalized;
    var s0 := Initial(size);
    assert [] + Opening(c) == Opening(c);
    ThreeMore(g, s0, [], ReadControl(c, true), LatchControl, SendReply(true));
    assert Moved(g, s0, []) == s0 by { NotMoved(g, s0); }
    Opens(g, s0, c);
    var s1 := Moved(g, s0, Opening(c));
    ThreeMore(g, s0, Opening(c), BeginCallback(id), AppendLine(id, r), FinishCallback(id));
    Speaks(g, s1, id, r);
    var s2 := Moved(g, s0, Opening(c) + Speaking(id, r));
    ThreeMore(g, s0, Opening(c) + Speaking(id, r), ReadControl(d, true), MarkClosing, CrossQueue(true, reached));
    StartsClosing(g, s2, d, reached);
    var s3 := Moved(g, s0, Opening(c) + Speaking(id, r) + Closing(d, reached));
    ThreeMore(g, s0, Opening(c) + Speaking(id, r) + Closing(d, reached), AwaitQuiet(now, false), EndGeneration, SendReply(true));
    Drains(g, s3, now);
    RunIsMoved(g, size, Opening(c) + Speaking(id, r) + Closing(d, reached) + Draining(now));
  }

  lemma NotMoved(g: Grammar, s: State)
    ensures Moved(g, s, []) == s
  {
  }
}
