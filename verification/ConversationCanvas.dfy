/**
 The conversation canvas reducer
 (apps/web/app/learn/session/conversation-canvas-state.ts): which answers of an
 attempt are still accepted after the learner has left, retried, or been handed a
 fresh activity.
 */
module ConversationCanvas {
  import opened Basics

  type Key = string

  datatype Envelope = Envelope(
    activityId: string, contentVersion: int, selectedChoiceId: string, idempotencyKey: Key, operationGeneration: int)

  datatype AttemptResult = Correct | Incorrect

  datatype Active = Active(
    activityId: string, contentVersion: int, selectedChoiceId: Option<string>, idempotencyKey: Key, operationGeneration: int)

  datatype Origin = Prepare | Submit

  datatype OfflineOrigin = WhilePreparing | WhileActive

  datatype Ending = StaleContent | SessionEnded | AccessBlocked | EmptyReview

  datatype State =
    | Preparing(generation: int)
    | ActiveState(active: Active)
    | Submitting(attempt: Envelope)
    | Confirmed(attempt: Envelope, result: AttemptResult, feedback: string, nextActivityAvailable: bool)
    | RetryableError(origin: Origin, failed: Option<Envelope>, generation: int)
    | Terminal(ending: Ending, generation: int)
    | OfflineReadOnly(lostWhile: OfflineOrigin, kept: Option<Active>, generation: int)

  datatype Event =
    | AuthoritativeReset(state: State)
    | ActivityReady(activityId: string, contentVersion: int, idempotencyKey: Key)
    | SelectChoice(selectedChoiceId: string, idempotencyKey: Key)
    | SubmitAnswer
    | Confirm(attempt: Envelope, result: AttemptResult, feedback: string, nextActivityAvailable: bool)
    | PrepareFailed
    | SubmitFailed(attempt: Envelope)
    | TryAgain
    | End(ending: Ending)
    | ConnectivityLost
    | Leave

  function Generation(s: State): int {
    match s
    case Preparing(generation) => generation
    case ActiveState(active) => active.operationGeneration
    case Submitting(attempt) => attempt.operationGeneration
    case Confirmed(attempt, _, _, _) => attempt.operationGeneration
    case RetryableError(_, _, generation) => generation
    case Terminal(_, generation) => generation
    case OfflineReadOnly(_, _, generation) => generation
  }

  function FencedPreparing(s: State): State { Preparing(Generation(s) + 1) }

  predicate EnvelopesMatch(expected: Envelope, observed: Envelope) {
    && expected.activityId == observed.activityId && expected.contentVersion == observed.contentVersion
    && expected.selectedChoiceId == observed.selectedChoiceId && expected.idempotencyKey == observed.idempotencyKey
    && expected.operationGeneration == observed.operationGeneration
  }

  function EnvelopeOf(a: Active): Option<Envelope> {
    if a.selectedChoiceId.None? || a.selectedChoiceId.value == "" then None
    else Some(Envelope(a.activityId, a.contentVersion, a.selectedChoiceId.value, a.idempotencyKey, a.operationGeneration))
  }

  function Reduce(s: State, e: Event): State {
    match e
    case AuthoritativeReset(state) => state
    case Leave => FencedPreparing(s)
    case End(ending) => Terminal(ending, Generation(FencedPreparing(s)))
    case ConnectivityLost =>
      if s.ActiveState? then OfflineReadOnly(WhileActive, Some(s.active), s.active.operationGeneration)
      else if s.Preparing? then OfflineReadOnly(WhilePreparing, None, s.generation)
      else s
    case PrepareFailed => if s.Preparing? then RetryableError(Prepare, None, s.generation) else s
    case ActivityReady(activityId, contentVersion, key) =>
      if s.Preparing? then ActiveState(Active(activityId, contentVersion, None, key, s.generation)) else s
    case SelectChoice(choice, key) =>
      if s.ActiveState? then ActiveState(s.active.(selectedChoiceId := Some(choice), idempotencyKey := key)) else s
    case SubmitAnswer =>
      if s.ActiveState? && EnvelopeOf(s.active).Some? then Submitting(EnvelopeOf(s.active).value) else s
    case SubmitFailed(attempt) =>
      if s.Submitting? && EnvelopesMatch(s.attempt, attempt)
      then RetryableError(Submit, Some(s.attempt), s.attempt.operationGeneration) else s
    case Confirm(attempt, result, feedback, next) =>
      if s.Submitting? && EnvelopesMatch(s.attempt, attempt) then Confirmed(s.attempt, result, feedback, next) else s
    case TryAgain =>
      if !s.RetryableError? then s
      else if s.origin == Submit && s.failed.Some? then Submitting(s.failed.value)
      else Preparing(s.generation)
  }

  function Run(s: State, events: seq<Event>): State
    decreases |events|
  {
    if events == [] then s else Reduce(Run(s, events[..|events| - 1]), events[|events| - 1])
  }

  function FromAuthority(activityId: string, contentVersion: int, key: Key, choice: Option<string>): State {
    ActiveState(Active(activityId, contentVersion, choice, key, 1))
  }

  /** A selection kept offline survives only onto the very same activity and version. */
  function RebindOfflineSelection(previous: State, renewed: State): State {
    if previous.OfflineReadOnly? && previous.lostWhile == WhileActive && previous.kept.Some? && renewed.ActiveState?
       && previous.kept.value.activityId == renewed.active.activityId
       && previous.kept.value.contentVersion == renewed.active.contentVersion
    then ActiveState(renewed.active.(selectedChoiceId := previous.kept.value.selectedChoiceId))
    else renewed
  }

  // ---------------------------------------------------------------- generations

  /** Retryable errors of a submit carry the generation of their attempt; every state that a run without resets builds is such. */
  predicate Coherent(s: State) {
    && (s.RetryableError? && s.failed.Some? ==> s.failed.value.operationGeneration == s.generation && s.origin == Submit)
    && (s.OfflineReadOnly? && s.kept.Some? ==> s.kept.value.operationGeneration == s.generation)
  }

  predicate IsExit(e: Event) { e.Leave? || e.End? }

  predicate HasReset(events: seq<Event>) { exists i :: 0 <= i < |events| && events[i].AuthoritativeReset? }

  predicate HasExit(events: seq<Event>) { exists i :: 0 <= i < |events| && IsExit(events[i]) }

  /** Without a reset the generation never goes back, and every exit moves it on. */
  lemma GenerationNeverGoesBack(s: State, e: Event)
    requires Coherent(s) && !e.AuthoritativeReset?
    ensures Coherent(Reduce(s, e)) && Generation(Reduce(s, e)) >= Generation(s)
    ensures IsExit(e) ==> Generation(Reduce(s, e)) == Generation(s) + 1
  {
  }

  lemma {:induction false} RunsMoveForward(s: State, events: seq<Event>)
    requires Coherent(s) && !HasReset(events)
    ensures Coherent(Run(s, events)) && Generation(Run(s, events)) >= Generation(s)
    ensures HasExit(events) ==> Generation(Run(s, events)) > Generation(s)
    decreases |events|
  {
    if events != [] {
      var n := |events| - 1;
      var before := events[..n];
      assert forall i | 0 <= i < n :: before[i] == events[i];
      RunsMoveForward(s, before);
      GenerationNeverGoesBack(Run(s, before), events[n]);
      if HasExit(events) && !IsExit(events[n]) {
        var i :| 0 <= i < |events| && IsExit(events[i]);
        assert IsExit(before[i]);
      }
    }
  }

  // ---------------------------------------------------------------- late answers

  predicate Answers(e: Event, a: Envelope) { (e.Confirm? || e.SubmitFailed?) && e.attempt == a }

  /** An answer is accepted exactly by the state that submits its very envelope. */
  lemma AcceptedIffSubmitting(s: State, e: Event, a: Envelope)
    requires Answers(e, a)
    ensures Reduce(s, e) != s <==> s == Submitting(a)
  {
  }

  /**
   After any exit, no answer to an attempt of a generation from before it changes
   anything, whatever happened in between.
   */
  lemma LateAnswersChangeNothing(s: State, a: Envelope, events: seq<Event>, e: Event)
    requires Coherent(s) && a.operationGeneration <= Generation(s)
    requires !HasReset(events) && HasExit(events) && Answers(e, a)
    ensures Reduce(Run(s, events), e) == Run(s, events)
  {
    RunsMoveForward(s, events);
    AcceptedIffSubmitting(Run(s, events), e, a);
  }

  // ---------------------------------------------------------------- late answers across resets

  /** The idempotency key the state would submit, or has submitted, under. */
  function KeyOf(s: State): Option<Key> {
    match s
    case ActiveState(active) => Some(active.idempotencyKey)
    case Submitting(attempt) => Some(attempt.idempotencyKey)
    case Confirmed(attempt, _, _, _) => Some(attempt.idempotencyKey)
    case RetryableError(_, failed, _) => if failed.Some? then Some(failed.value.idempotencyKey) else None
    case OfflineReadOnly(_, kept, _) => if kept.Some? then Some(kept.value.idempotencyKey) else None
    case _ => None
  }

  function KeyIn(e: Event): Option<Key> {
    match e
    case AuthoritativeReset(state) => KeyOf(state)
    case ActivityReady(_, _, key) => Some(key)
    case SelectChoice(_, key) => Some(key)
    case _ => None
  }

  /** Every key that an event brings is new, or is the one the state already has. */
  ghost predicate FreshKeys(s: State, seen: set<Key>, events: seq<Event>)
    decreases |events|
  {
    events == [] ||
    (var key := KeyIn(events[0]);
     && (key.Some? ==> key.value !in seen || (events[0].SelectChoice? && key == KeyOf(s)))
     && FreshKeys(Reduce(s, events[0]), seen + (if key.Some? then {key.value} else {}), events[1..]))
  }

  function Continue(s: State, events: seq<Event>): State
    decreases |events|
  {
    if events == [] then s else Continue(Reduce(s, events[0]), events[1..])
  }

  predicate MovesOn(e: Event) { IsExit(e) || e.AuthoritativeReset? }

  /** Nothing the state may still submit is the attempt. */
  predicate IsDead(s: State, a: Envelope) { KeyOf(s) != Some(a.idempotencyKey) }

  lemma {:induction false} DeadStaysDead(s: State, a: Envelope, seen: set<Key>, events: seq<Event>)
    requires IsDead(s, a) && a.idempotencyKey in seen && FreshKeys(s, seen, events)
    ensures IsDead(Continue(s, events), a)
    decreases |events|
  {
    if events != [] {
      var key := KeyIn(events[0]);
      DeadStaysDead(Reduce(s, events[0]), a, seen + (if key.Some? then {key.value} else {}), events[1..]);
    }
  }

  /**
   Even when the authority resets the canvas, and with it the generation, no
   answer to an attempt from before an exit or a reset is accepted any more,
   provided the keys handed out are fresh.
   */
  lemma LateAnswersAcrossResetsChangeNothing(s: State, a: Envelope, seen: set<Key>, exit: Event, events: seq<Event>, e: Event)
    requires a.idempotencyKey in seen && MovesOn(exit) && Answers(e, a)
    requires FreshKeys(s, seen, [exit] + events)
    ensures var s' := Continue(Reduce(s, exit), events); Reduce(s', e) == s'
  {
    var key := KeyIn(exit);
    assert ([exit] + events)[1..] == events;
    DeadStaysDead(Reduce(s, exit), a, seen + (if key.Some? then {key.value} else {}), events);
    AcceptedIffSubmitting(Continue(Reduce(s, exit), events), e, a);
  }

  /** No further reset, no further activity, and selections only under the key already handed out. */
  predicate HandsOutNothing(events: seq<Event>, key: Key) {
    forall i | 0 <= i < |events| ::
      && !events[i].AuthoritativeReset? && !events[i].ActivityReady?
      && (events[i].SelectChoice? ==> events[i].idempotencyKey == key)
  }

  /** The activity, version and key are those of the attempt, and the attempt is of the first generation. */
  predicate CouldBeOf(a: Envelope, activityId: string, contentVersion: int, key: Key) {
    && a.activityId == activityId && a.contentVersion == contentVersion && a.idempotencyKey == key
    && a.operationGeneration == 1
  }

  /** Whatever the state still submits is of this activity, version and key, and of the first generation. */
  predicate SubmitsOnly(s: State, activityId: string, contentVersion: int, key: Key) {
    match s
    case ActiveState(x) => x.activityId == activityId && x.contentVersion == contentVersion && x.idempotencyKey == key && x.operationGeneration == 1
    case Submitting(a) => CouldBeOf(a, activityId, contentVersion, key)
    case RetryableError(_, failed, _) => failed.Some? ==> CouldBeOf(failed.value, activityId, contentVersion, key)
    case _ => true
  }

  lemma {:induction false} SubmitsOnlyItsOwn(s: State, activityId: string, contentVersion: int, key: Key, events: seq<Event>)
    requires SubmitsOnly(s, activityId, contentVersion, key) && HandsOutNothing(events, key)
    ensures SubmitsOnly(Continue(s, events), activityId, contentVersion, key)
    decreases |events|
  {
    if events != [] {
      assert !events[0].AuthoritativeReset? && !events[0].ActivityReady?;
      assert forall i | 0 <= i < |events| - 1 :: events[1..][i] == events[i + 1];
      SubmitsOnlyItsOwn(Reduce(s, events[0]), activityId, contentVersion, key, events[1..]);
    }
  }

  /** Some answer to the attempt is accepted at the end of these events. */
  ghost predicate AcceptsAfter(s: State, a: Envelope, events: seq<Event>) {
    exists e :: Answers(e, a) && Reduce(Continue(s, events), e) != Continue(s, events)
  }

  lemma AcceptsAfterMeans(s: State, a: Envelope, events: seq<Event>)
    ensures AcceptsAfter(s, a, events) <==> Continue(s, events) == Submitting(a)
  {
    if e :| Answers(e, a) && Reduce(Continue(s, events), e) != Continue(s, events) {
      AcceptedIffSubmitting(Continue(s, events), e, a);
    }
    if Continue(s, events) == Submitting(a) {
      AcceptedIffSubmitting(Submitting(a), SubmitFailed(a), a);
      assert Answers(SubmitFailed(a), a);
    }
  }

  /**
   Without fresh keys a reset can bring a dead attempt back, whatever happened
   before it. It can exactly when it hands out the attempt's own activity, version
   and key and the attempt is of the first generation: that the learner left in
   between plays no part.
   */
  lemma StaleKeyRevivesIff(before: State, a: Envelope, activityId: string, contentVersion: int, key: Key, choice: Option<string>)
    requires a.selectedChoiceId != ""
    ensures var s := Reduce(before, AuthoritativeReset(FromAuthority(activityId, contentVersion, key, choice)));
      (exists events :: HandsOutNothing(events, key) && AcceptsAfter(s, a, events))
        <==> CouldBeOf(a, activityId, contentVersion, key)
  {
    var s := FromAuthority(activityId, contentVersion, key, choice);
    if events :| HandsOutNothing(events, key) && AcceptsAfter(s, a, events) {
      AcceptsAfterMeans(s, a, events);
      SubmitsOnlyItsOwn(s, activityId, contentVersion, key, events);
    }
    if CouldBeOf(a, activityId, contentVersion, key) {
      var events := [SelectChoice(a.selectedChoiceId, key), SubmitAnswer];
      assert events[1..] == [SubmitAnswer] && events[1..][1..] == [];
      assert Continue(Reduce(s, events[0]), [SubmitAnswer]) == Submitting(a);
      AcceptsAfterMeans(s, a, events);
      assert HandsOutNothing(events, key);
    }
  }

  // ---------------------------------------------------------------- retries

  /** The attempt is being submitted, waits for a retry, or is confirmed, always as the same envelope. */
  predicate Pursues(s: State, a: Envelope) {
    s == Submitting(a) || s == RetryableError(Submit, Some(a), a.operationGeneration) || (s.Confirmed? && s.attempt == a)
  }

  predicate HasMovedOn(events: seq<Event>) { exists i :: 0 <= i < |events| && MovesOn(events[i]) }

  /** Until the learner exits or the authority resets, retries keep the submitted envelope, through to its confirmation. */
  lemma {:induction false} RetriesKeepTheEnvelope(s: State, a: Envelope, events: seq<Event>)
    requires Pursues(s, a) && !HasMovedOn(events)
    ensures Pursues(Run(s, events), a)
    ensures s.Confirmed? ==> Run(s, events) == s
    decreases |events|
  {
    if events != [] {
      var n := |events| - 1;
      assert forall i | 0 <= i < n :: events[..n][i] == events[i];
      RetriesKeepTheEnvelope(s, a, events[..n]);
      assert !MovesOn(events[n]);
    }
  }

  // ---------------------------------------------------------------- what the answers decide

  /** A failure of the attempt has arrived, or was pending at the start, and no retry has followed it. */
  predicate FailurePends(pending: bool, a: Envelope, events: seq<Event>) {
    || (pending && TryAgain !in events)
    || exists i: nat :: i < |events| && events[i] == SubmitFailed(a) && TryAgain !in events[i + 1..]
  }

  /** A confirmation of the attempt that arrives while no failure is pending. */
  predicate Confirms(pending: bool, a: Envelope, events: seq<Event>, i: nat) {
    i < |events| && events[i].Confirm? && events[i].attempt == a && !FailurePends(pending, a, events[..i])
  }

  /** The first of these. */
  predicate Decides(pending: bool, a: Envelope, events: seq<Event>, i: nat) {
    Confirms(pending, a, events, i) && forall j: nat | j < i :: !Confirms(pending, a, events, j)
  }

  predicate IsDecided(pending: bool, a: Envelope, events: seq<Event>) {
    exists i: nat :: i < |events| && Decides(pending, a, events, i)
  }

  predicate StaysOn(events: seq<Event>) { forall e | e in events :: !MovesOn(e) }

  lemma PendsAfter(pending: bool, a: Envelope, before: seq<Event>, e: Event)
    ensures FailurePends(pending, a, before + [e]) <==>
      e == SubmitFailed(a) || (FailurePends(pending, a, before) && e != TryAgain)
  {
    var all := before + [e];
    assert all[|before|] == e && all[|before| + 1..] == [];
    assert forall i: nat | i < |before| :: all[i] == before[i] && all[i + 1..] == before[i + 1..] + [e];
    if FailurePends(pending, a, before) && e != TryAgain && !(pending && TryAgain !in before) {
      var i: nat :| i < |before| && before[i] == SubmitFailed(a) && TryAgain !in before[i + 1..];
      assert all[i] == SubmitFailed(a) && TryAgain !in all[i + 1..];
    }
  }

  lemma ConfirmsAfter(pending: bool, a: Envelope, before: seq<Event>, e: Event, i: nat)
    ensures i < |before| ==> (Confirms(pending, a, before + [e], i) <==> Confirms(pending, a, before, i))
    ensures Confirms(pending, a, before + [e], |before|) <==> e.Confirm? && e.attempt == a && !FailurePends(pending, a, before)
  {
    hide FailurePends;
    var all := before + [e];
    assert all[..|before|] == before;
    if i < |before| { assert all[..i] == before[..i]; }
  }

  lemma DecidesAfter(pending: bool, a: Envelope, before: seq<Event>, e: Event, i: nat)
    ensures i < |before| ==> (Decides(pending, a, before + [e], i) <==> Decides(pending, a, before, i))
    ensures Decides(pending, a, before + [e], |before|) <==>
      (e.Confirm? && e.attempt == a && !FailurePends(pending, a, before)) && forall j: nat | j < |before| :: !Confirms(pending, a, before, j)
  {
    hide Confirms, FailurePends;
    forall j: nat ensures j < |before| ==> (Confirms(pending, a, before + [e], j) <==> Confirms(pending, a, before, j)) {
      ConfirmsAfter(pending, a, before, e, j);
    }
    ConfirmsAfter(pending, a, before, e, 0);
  }

  /** Undecided means that nothing has confirmed yet. */
  lemma {:induction false} DecidedIfConfirmed(pending: bool, a: Envelope, events: seq<Event>, i: nat)
    requires Confirms(pending, a, events, i)
    ensures IsDecided(pending, a, events)
  {
    if j: nat :| j < i && Confirms(pending, a, events, j) { DecidedIfConfirmed(pending, a, events, j); }
    else { assert Decides(pending, a, events, i); }
  }

  /** What the events say the attempt has come to. */
  ghost predicate Comes(pending: bool, a: Envelope, events: seq<Event>, s: State) {
    if IsDecided(pending, a, events) then
      exists i: nat :: i < |events| && Decides(pending, a, events, i)
        && s == Confirmed(a, events[i].result, events[i].feedback, events[i].nextActivityAvailable)
    else if FailurePends(pending, a, events) then s == RetryableError(Submit, Some(a), a.operationGeneration)
    else s == Submitting(a)
  }

  lemma ComesAfter(pending: bool, a: Envelope, before: seq<Event>, e: Event, s: State)
    requires Comes(pending, a, before, s) && !MovesOn(e)
    ensures Comes(pending, a, before + [e], Reduce(s, e))
  {
    hide FailurePends;
    var all, n := before + [e], |before|;
    assert all[n] == e;
    PendsAfter(pending, a, before, e);
    forall j: nat ensures j < n ==> (Decides(pending, a, all, j) <==> Decides(pending, a, before, j)) {
      DecidesAfter(pending, a, before, e, j);
    }
    DecidesAfter(pending, a, before, e, 0);
    if IsDecided(pending, a, before) {
      var i: nat :| i < n && Decides(pending, a, before, i)
        && s == Confirmed(a, before[i].result, before[i].feedback, before[i].nextActivityAvailable);
      assert Decides(pending, a, all, i) && all[i] == before[i];
    } else {
      forall j: nat | j < n ensures !Confirms(pending, a, before, j) {
        if Confirms(pending, a, before, j) { DecidedIfConfirmed(pending, a, before, j); }
      }
      if e.Confirm? && e.attempt == a && !FailurePends(pending, a, before) { assert Decides(pending, a, all, n); }
    }
  }

  lemma {:induction false} RunComes(pending: bool, a: Envelope, events: seq<Event>)
    requires StaysOn(events)
    ensures Comes(pending, a, events, Run(if pending then RetryableError(Submit, Some(a), a.operationGeneration) else Submitting(a), events))
    decreases |events|
  {
    if events != [] {
      hide Comes, Reduce;
      var before, e := events[..|events| - 1], events[|events| - 1];
      assert events == before + [e];
      RunComes(pending, a, before);
      ComesAfter(pending, a, before, e, Run(if pending then RetryableError(Submit, Some(a), a.operationGeneration) else Submitting(a), before));
    }
  }

  lemma OneDecides(pending: bool, a: Envelope, events: seq<Event>, i: nat, j: nat)
    requires Decides(pending, a, events, i) && Decides(pending, a, events, j)
    ensures i == j
  {
    hide Confirms;
  }

  /**
   Until the learner leaves or the canvas is reset, the events alone say what an
   attempt comes to: the first confirmation that finds no failure pending decides
   it, with its own result, feedback and next step; a failure pends until the
   learner tries again; and otherwise the very same attempt is being submitted.
   */
  lemma AnswersDecide(pending: bool, a: Envelope, events: seq<Event>)
    requires StaysOn(events)
    ensures var s := Run(if pending then RetryableError(Submit, Some(a), a.operationGeneration) else Submitting(a), events);
      && (forall result, feedback, next :: s == Confirmed(a, result, feedback, next) <==>
            exists i: nat :: i < |events| && Decides(pending, a, events, i) && events[i] == Confirm(a, result, feedback, next))
      && (s == RetryableError(Submit, Some(a), a.operationGeneration) <==> !IsDecided(pending, a, events) && FailurePends(pending, a, events))
      && (s == Submitting(a) <==> !IsDecided(pending, a, events) && !FailurePends(pending, a, events))
  {
    RunComes(pending, a, events);
    hide FailurePends, Run;
    var s := Run(if pending then RetryableError(Submit, Some(a), a.operationGeneration) else Submitting(a), events);
    if IsDecided(pending, a, events) {
      var i: nat :| i < |events| && Decides(pending, a, events, i)
        && s == Confirmed(a, events[i].result, events[i].feedback, events[i].nextActivityAvailable);
      forall j: nat ensures Decides(pending, a, events, j) ==> j == i {
        if Decides(pending, a, events, j) { OneDecides(pending, a, events, i, j); }
      }
    }
  }

  // ---------------------------------------------------------------- how an attempt begins

  /** The choice and key of the last selection. */
  function LastSelection(events: seq<Event>): Option<(string, Key)>
    decreases |events|
  {
    if events == [] then None
    else
      var e := events[|events| - 1];
      if e.SelectChoice? then Some((e.selectedChoiceId, e.idempotencyKey)) else LastSelection(events[..|events| - 1])
  }

  /** A failed preparation is pending. */
  predicate PreparationFailed(events: seq<Event>) {
    exists i: nat :: i < |events| && events[i] == PrepareFailed && TryAgain !in events[i + 1..]
  }

  predicate KeepsPreparing(events: seq<Event>) {
    StaysOn(events) && forall e | e in events :: !e.ActivityReady? && !e.ConnectivityLost?
  }

  predicate KeepsChoosing(events: seq<Event>) {
    StaysOn(events) && forall e | e in events :: !e.SubmitAnswer? && !e.ConnectivityLost?
  }

  lemma PreparationFailedAfter(before: seq<Event>, e: Event)
    ensures PreparationFailed(before + [e]) <==> e == PrepareFailed || (PreparationFailed(before) && e != TryAgain)
  {
    var all := before + [e];
    assert all[|before|] == e && all[|before| + 1..] == [];
    assert forall i: nat | i < |before| :: all[i] == before[i] && all[i + 1..] == before[i + 1..] + [e];
    if PreparationFailed(before) && e != TryAgain {
      var i: nat :| i < |before| && before[i] == PrepareFailed && TryAgain !in before[i + 1..];
      assert all[i] == PrepareFailed && TryAgain !in all[i + 1..];
    }
  }

  /** While nothing is ready, the canvas prepares, or waits for a retry of its preparation. */
  lemma {:induction false} StillPreparing(generation: int, events: seq<Event>)
    requires KeepsPreparing(events)
    ensures Run(Preparing(generation), events)
      == if PreparationFailed(events) then RetryableError(Prepare, None, generation) else Preparing(generation)
    decreases |events|
  {
    if events != [] {
      hide PreparationFailed;
      var before, e := events[..|events| - 1], events[|events| - 1];
      assert events == before + [e];
      assert e in events && KeepsPreparing(before);
      StillPreparing(generation, before);
      PreparationFailedAfter(before, e);
    } else {
      assert !PreparationFailed([]);
    }
  }

  /** An activity becomes ready under the generation of its preparation, unless a failure is pending. */
  lemma WhatBecomesReady(generation: int, events: seq<Event>, activityId: string, contentVersion: int, key: Key)
    requires KeepsPreparing(events)
    ensures Run(Preparing(generation), events + [ActivityReady(activityId, contentVersion, key)])
      == if PreparationFailed(events) then RetryableError(Prepare, None, generation)
         else ActiveState(Active(activityId, contentVersion, None, key, generation))
  {
    hide PreparationFailed, Run;
    StillPreparing(generation, events);
    RunOne(Preparing(generation), events, ActivityReady(activityId, contentVersion, key));
  }

  /** While the learner chooses, the activity stays and the last selection counts. */
  lemma {:induction false} StillChoosing(x: Active, events: seq<Event>)
    requires KeepsChoosing(events)
    ensures Run(ActiveState(x), events) ==
      match LastSelection(events)
      case None => ActiveState(x)
      case Some(picked) => ActiveState(Active(x.activityId, x.contentVersion, Some(picked.0), picked.1, x.operationGeneration))
    decreases |events|
  {
    if events != [] {
      var before, e := events[..|events| - 1], events[|events| - 1];
      assert events == before + [e];
      assert e in events && KeepsChoosing(before);
      StillChoosing(x, before);
    }
  }

  lemma {:induction false} RunOn(s: State, before: seq<Event>, later: seq<Event>)
    ensures Run(s, before + later) == Run(Run(s, before), later)
    decreases |later|
  {
    if later == [] {
      assert before + later == before;
    } else {
      hide Reduce;
      var n := |later| - 1;
      assert (before + later)[..|before + later| - 1] == before + later[..n];
      RunOn(s, before, later[..n]);
    }
  }

  /**
   A whole lesson step: what is prepared is the activity that became ready, what is
   submitted is the last selection under its key, once it names a choice, and
   `AnswersDecide` says the rest.
   */
  lemma WhatIsSubmitted(generation: int, prepare: seq<Event>, activityId: string, contentVersion: int, first: Key, choose: seq<Event>)
    requires KeepsPreparing(prepare) && !PreparationFailed(prepare) && KeepsChoosing(choose)
    ensures var s := Run(Preparing(generation), prepare + [ActivityReady(activityId, contentVersion, first)] + choose + [SubmitAnswer]);
      match LastSelection(choose)
      case None => s == ActiveState(Active(activityId, contentVersion, None, first, generation))
      case Some(picked) =>
        s == if picked.0 == "" then ActiveState(Active(activityId, contentVersion, Some(""), picked.1, generation))
             else Submitting(Envelope(activityId, contentVersion, picked.0, picked.1, generation))
  {
    var ready, x := ActivityReady(activityId, contentVersion, first), Active(activityId, contentVersion, None, first, generation);
    var s := Preparing(generation);
    WhatBecomesReady(generation, prepare, activityId, contentVersion, first);
    StillChoosing(x, choose);
    RunOn(s, prepare + [ready], choose);
    RunOne(s, prepare + [ready] + choose, SubmitAnswer);
    hide Run, LastSelection;
  }

  lemma RunOne(s: State, before: seq<Event>, e: Event)
    ensures Run(s, before + [e]) == Reduce(Run(s, before), e)
  {
    hide Reduce;
    assert (before + [e])[..|before|] == before;
  }

  /** Losing the connection freezes what was there, until the learner leaves or the canvas is reset. */
  lemma {:induction false} OfflineStays(s: State, events: seq<Event>)
    requires (s.Preparing? || s.ActiveState?) && StaysOn(events)
    ensures Run(s, [ConnectivityLost] + events)
      == if s.Preparing? then OfflineReadOnly(WhilePreparing, None, Generation(s))
         else OfflineReadOnly(WhileActive, Some(s.active), Generation(s))
    decreases |events|
  {
    var all := [ConnectivityLost] + events;
    if events == [] {
      assert all[..0] == [];
    } else {
      var n := |events| - 1;
      assert all[..|all| - 1] == [ConnectivityLost] + events[..n];
      assert events[n] in events;
      OfflineStays(s, events[..n]);
    }
  }

  /** Only sessions that were choosing or preparing go offline: a submission is never frozen. */
  lemma OnlyThenOffline(s: State)
    ensures Reduce(s, ConnectivityLost) != s <==> s.Preparing? || s.ActiveState?
  {
  }

  /** Until the next move, an exit leaves exactly its ending, one generation on. */
  lemma {:induction false} EndingStays(s: State, ending: Ending, events: seq<Event>)
    requires StaysOn(events)
    ensures Run(s, [End(ending)] + events) == Terminal(ending, Generation(s) + 1)
    decreases |events|
  {
    var all := [End(ending)] + events;
    if events == [] {
      assert all[..0] == [];
    } else {
      var n := |events| - 1;
      assert all[..|all| - 1] == [End(ending)] + events[..n];
      assert events[n] in events;
      EndingStays(s, ending, events[..n]);
    }
  }

  /** Leaving prepares anew, one generation on, and a reset puts its own state in place. */
  lemma FreshStart(s: State, renewed: State)
    ensures Reduce(s, Leave) == Preparing(Generation(s) + 1) && Reduce(s, AuthoritativeReset(renewed)) == renewed
  {
  }

  // ---------------------------------------------------------------- rebinding

  /** Rebinding takes over at most a selection: key, generation and activity are the authority's. */
  lemma RebindingTakesOnlyTheSelection(previous: State, renewed: State)
    ensures KeyOf(RebindOfflineSelection(previous, renewed)) == KeyOf(renewed)
    ensures Generation(RebindOfflineSelection(previous, renewed)) == Generation(renewed)
    ensures RebindOfflineSelection(previous, renewed) != renewed ==>
      && previous.OfflineReadOnly? && previous.lostWhile == WhileActive && previous.kept.Some? && renewed.ActiveState?
      && previous.kept.value.activityId == renewed.active.activityId && previous.kept.value.contentVersion == renewed.active.contentVersion
      && RebindOfflineSelection(previous, renewed).active == renewed.active.(selectedChoiceId := previous.kept.value.selectedChoiceId)
  {
  }

  /** A selection made before going offline is the one submitted after reconnecting, under the fresh key. */
  lemma OfflineSelectionIsSubmitted(a: Active, key: Key)
    requires a.selectedChoiceId.Some? && a.selectedChoiceId.value != ""
    ensures var offline := Reduce(ActiveState(a), ConnectivityLost);
      var renewed := FromAuthority(a.activityId, a.contentVersion, key, None);
      Reduce(RebindOfflineSelection(offline, renewed), SubmitAnswer)
        == Submitting(Envelope(a.activityId, a.contentVersion, a.selectedChoiceId.value, key, 1))
  {
  }
}
