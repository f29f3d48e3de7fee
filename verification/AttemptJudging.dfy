/**
 What an answer is worth, told from the published content, and that over every run
 each stored attempt and each refusal is what the content said that judged it
 (apps/api/src/learning/activity-attempt.service.ts).
 */
module AttemptJudging {
  import opened Basics
  import opened AttemptStore
  import opened AttemptProtocol
  import opened AttemptTheorems
  import opened AttemptTotals
  import L = RateLimiter

  // ---------------------------------------------------------------- one answer

  /** The learner may see the activity and its lesson. */
  ghost predicate IsShown(a: Activity, id: Id, keys: set<string>) {
    && a.id == id && !a.archived && !a.lessonArchived
    && (a.requiredEntitlement == None || a.requiredEntitlement.value in keys)
    && (a.lessonEntitlement == None || a.lessonEntitlement.value in keys)
  }

  ghost predicate IsFirstShown(catalog: Catalog, id: Id, keys: set<string>, i: nat) {
    i < |catalog| && IsShown(catalog[i], id, keys) && forall j: nat | j < i :: !IsShown(catalog[j], id, keys)
  }

  ghost predicate IsHidden(catalog: Catalog, id: Id, keys: set<string>) { forall a | a in catalog :: !IsShown(a, id, keys) }

  ghost predicate IsPublished(a: Activity) { a.publishedVersion.Some? && a.publishedContent.Some? }

  /** The text under a member of an object. */
  ghost predicate Says(j: Json, member: string, text: string) { j.JObject? && member in j.members && j.members[member] == JString(text) }

  ghost predicate HasChoice(choices: Json, id: string) { choices.JArray? && exists c :: c in choices.items && Says(c, "id", id) }

  /** Every choice has an id, the correct one is among them, and both kinds of feedback are there. */
  ghost predicate IsSound(content: (Json, Json, Json), correct: string, right: string, wrong: string) {
    && content.0.JArray? && (forall c | c in content.0.items :: HasString(c, "id"))
    && Says(content.1, "correctChoiceId", correct) && HasChoice(content.0, correct)
    && Says(content.2, "correct", right) && Says(content.2, "incorrect", wrong)
  }

  ghost predicate IsUnsound(content: (Json, Json, Json)) { forall correct, right, wrong :: !IsSound(content, correct, right, wrong) }

  /** The activity's own published content judges the answer. */
  ghost predicate Judges(a: Activity, sub: Submission, ev: Evaluation) {
    && a.publishedVersion == Some(sub.input.contentVersion) && a.publishedContent.Some?
    && ev.activityId == a.id && ev.lesson == a.lessonId
    && HasChoice(a.publishedContent.value.0, sub.input.selectedChoiceId)
    && exists correct, right, wrong ::
         && IsSound(a.publishedContent.value, correct, right, wrong)
         && (ev.correct <==> sub.input.selectedChoiceId == correct)
         && ev.feedback == if ev.correct then right else wrong
  }

  /** Some shown activity of the catalog judges the answer like this. */
  ghost predicate IsJudged(catalog: Catalog, keys: set<string>, sub: Submission, ev: Evaluation) {
    exists i: nat :: IsFirstShown(catalog, sub.activityId, keys, i) && Judges(catalog[i], sub, ev)
  }

  /** Why the activity refuses the answer, if it is for this reason. */
  ghost predicate IsRefusedBy(a: Activity, sub: Submission, failure: Failure) {
    match failure
    case ResourceNotFound => !IsPublished(a)
    case ContentVersionConflict => IsPublished(a) && a.publishedVersion != Some(sub.input.contentVersion)
    case InvalidContent => IsPublished(a) && a.publishedVersion == Some(sub.input.contentVersion) && IsUnsound(a.publishedContent.value)
    case UnknownChoice =>
      && IsPublished(a) && a.publishedVersion == Some(sub.input.contentVersion) && !IsUnsound(a.publishedContent.value)
      && !HasChoice(a.publishedContent.value.0, sub.input.selectedChoiceId)
    case _ => false
  }

  /** Why an answer is refused, if it is for this reason. */
  ghost predicate IsRefused(catalog: Catalog, keys: set<string>, sub: Submission, failure: Failure) {
    || (failure == ResourceNotFound && IsHidden(catalog, sub.activityId, keys))
    || exists i: nat :: IsFirstShown(catalog, sub.activityId, keys, i) && IsRefusedBy(catalog[i], sub, failure)
  }

  lemma {:induction false} FindIsFirstShown(catalog: Catalog, id: Id, keys: set<string>)
    ensures Find(catalog, id, keys).None? ==> IsHidden(catalog, id, keys)
    ensures Find(catalog, id, keys).Some? ==>
      exists i: nat :: IsFirstShown(catalog, id, keys, i) && Find(catalog, id, keys).value == catalog[i]
  {
    if catalog != [] {
      FindIsFirstShown(catalog[1..], id, keys);
      assert catalog == [catalog[0]] + catalog[1..];
      if IsShown(catalog[0], id, keys) {
        assert IsFirstShown(catalog, id, keys, 0);
      } else if Find(catalog, id, keys).Some? {
        var i: nat :| IsFirstShown(catalog[1..], id, keys, i) && Find(catalog, id, keys).value == catalog[1..][i];
        forall j: nat | j < i + 1 ensures !IsShown(catalog[j], id, keys) {
          if j > 0 { assert catalog[j] == catalog[1..][j - 1]; }
        }
        assert IsFirstShown(catalog, id, keys, i + 1);
      }
    }
  }

  lemma FirstShownIsOne(catalog: Catalog, id: Id, keys: set<string>, i: nat, j: nat)
    requires IsFirstShown(catalog, id, keys, i) && IsFirstShown(catalog, id, keys, j)
    ensures i == j
  {
    hide IsShown;
  }

  lemma ListedIffChoice(choices: Json, id: string)
    requires choices.JArray? && ChoiceIds(choices.items).Some?
    ensures id in ChoiceIds(choices.items).value <==> HasChoice(choices, id)
  {
    ChoiceIdsInOrder(choices.items);
    var ids := ChoiceIds(choices.items).value;
    if id in ids {
      var i :| 0 <= i < |ids| && ids[i] == id;
      assert choices.items[i] in choices.items && Says(choices.items[i], "id", id);
    }
    if HasChoice(choices, id) {
      var c :| c in choices.items && Says(c, "id", id);
      var i :| 0 <= i < |choices.items| && choices.items[i] == c;
      assert ids[i] == id;
    }
  }

  /** What the content parser returns is what the content says. */
  lemma ContentSays(content: (Json, Json, Json))
    ensures var c := ContentOf(content.0, content.1, content.2);
      if c.Some? then
        && content.0.JArray? && ChoiceIds(content.0.items) == Some(c.value.choiceIds)
        && IsSound(content, c.value.correctChoiceId, c.value.correctFeedback, c.value.incorrectFeedback)
      else IsUnsound(content)
  {
    if content.0.JArray? {
      ChoiceIdsInOrder(content.0.items);
      if ChoiceIds(content.0.items).Some? && HasString(content.1, "correctChoiceId") {
        ListedIffChoice(content.0, Member(content.1, "correctChoiceId"));
      }
    }
  }

  lemma SoundOnce(content: (Json, Json, Json), c1: string, r1: string, w1: string, c2: string, r2: string, w2: string)
    requires IsSound(content, c1, r1, w1) && IsSound(content, c2, r2, w2)
    ensures c1 == c2 && r1 == r2 && w1 == w2
  {
  }

  /**
   The evaluation is what the first shown activity's published content says: the
   answer is correct exactly when it is the correct choice, with the feedback for
   that; and each refusal is given exactly for its reason.
   */
  lemma EvaluateIff(catalog: Catalog, keys: set<string>, sub: Submission, ev: Evaluation, failure: Failure)
    ensures Evaluate(catalog, keys, sub) == Ok(ev) <==> IsJudged(catalog, keys, sub, ev)
    ensures Evaluate(catalog, keys, sub) == Err(failure) <==> IsRefused(catalog, keys, sub, failure)
  {
    hide IsShown, Find;
    FindIsFirstShown(catalog, sub.activityId, keys);
    FindGivesTheActivity(catalog, sub.activityId, keys);
    var found := Find(catalog, sub.activityId, keys);
    if found.None? {
      NoneIsFirstShown(catalog, sub.activityId, keys);
    } else {
      var i: nat :| IsFirstShown(catalog, sub.activityId, keys, i) && found.value == catalog[i];
      forall j: nat ensures IsFirstShown(catalog, sub.activityId, keys, j) <==> j == i {
        if IsFirstShown(catalog, sub.activityId, keys, j) { FirstShownIsOne(catalog, sub.activityId, keys, i, j); }
      }
      assert !IsHidden(catalog, sub.activityId, keys) by { assert catalog[i] in catalog && IsShownAt(catalog, sub.activityId, keys, i); }
      hide IsFirstShown, IsHidden;
      EvaluateFound(catalog, keys, sub, catalog[i], ev, failure);
    }
  }

  ghost predicate IsShownAt(catalog: Catalog, id: Id, keys: set<string>, i: nat)
    requires i < |catalog|
  {
    IsShown(catalog[i], id, keys)
  }

  lemma NoneIsFirstShown(catalog: Catalog, id: Id, keys: set<string>)
    requires IsHidden(catalog, id, keys)
    ensures forall i: nat :: !IsFirstShown(catalog, id, keys, i)
  {
    hide IsShown;
    forall i: nat ensures !IsFirstShown(catalog, id, keys, i) {
      if i < |catalog| { assert catalog[i] in catalog; }
    }
  }

  lemma EvaluateFound(catalog: Catalog, keys: set<string>, sub: Submission, a: Activity, ev: Evaluation, failure: Failure)
    requires Find(catalog, sub.activityId, keys) == Some(a)
    ensures Evaluate(catalog, keys, sub) == Ok(ev) <==> Judges(a, sub, ev)
    ensures Evaluate(catalog, keys, sub) == Err(failure) <==> IsRefusedBy(a, sub, failure)
  {
    hide Find, ContentOf, ChoiceIds, IsSound;
    if IsPublished(a) {
      var content := a.publishedContent.value;
      ContentSays(content);
      var c := ContentOf(content.0, content.1, content.2);
      if c.Some? {
        ListedIffChoice(content.0, sub.input.selectedChoiceId);
        forall correct, right, wrong | IsSound(content, correct, right, wrong)
          ensures correct == c.value.correctChoiceId && right == c.value.correctFeedback && wrong == c.value.incorrectFeedback
        {
          SoundOnce(content, correct, right, wrong, c.value.correctChoiceId, c.value.correctFeedback, c.value.incorrectFeedback);
        }
      }
    }
  }

  // ---------------------------------------------------------------- what the learner is shown

  /** The activity counts towards the lesson. */
  predicate IsOffered(a: Activity, lesson: Id, keys: set<string>) {
    && a.lessonId == lesson && !a.archived && a.publishedVersion.Some?
    && (a.requiredEntitlement == None || a.requiredEntitlement.value in keys)
  }

  /** Everything offered is completed. */
  ghost predicate IsDone(catalog: Catalog, lesson: Id, keys: set<string>, completed: seq<Id>) {
    forall a | a in catalog :: IsOffered(a, lesson, keys) ==> a.id in completed
  }

  /** The first offered activity that is not completed. */
  ghost predicate IsNext(catalog: Catalog, lesson: Id, keys: set<string>, completed: seq<Id>, id: Id) {
    exists i: nat :: i < |catalog| && IsOffered(catalog[i], lesson, keys) && catalog[i].id == id && id !in completed
      && IsDone(catalog[..i], lesson, keys, completed)
  }

  lemma {:induction false} NextIsFirstOffered(catalog: Catalog, lesson: Id, keys: set<string>, completed: seq<Id>)
    ensures match FirstMissing(PublishedIn(catalog, lesson, keys), completed)
      case None => IsDone(catalog, lesson, keys, completed)
      case Some(id) => IsNext(catalog, lesson, keys, completed, id)
  {
    if catalog != [] {
      hide IsOffered;
      NextIsFirstOffered(catalog[1..], lesson, keys, completed);
      OfferedFirst(catalog, lesson, keys, completed);
      assert catalog == [catalog[0]] + catalog[1..];
      if IsOffered(catalog[0], lesson, keys) && catalog[0].id !in completed {
        assert catalog[..0] == [];
        assert IsNext(catalog, lesson, keys, completed, catalog[0].id);
      } else if FirstMissing(PublishedIn(catalog[1..], lesson, keys), completed).Some? {
        var id := FirstMissing(PublishedIn(catalog[1..], lesson, keys), completed).value;
        var i: nat :| i < |catalog[1..]| && IsOffered(catalog[1..][i], lesson, keys) && catalog[1..][i].id == id && id !in completed
          && IsDone(catalog[1..][..i], lesson, keys, completed);
        assert catalog[..i + 1] == [catalog[0]] + catalog[1..][..i] && catalog[i + 1] == catalog[1..][i];
        assert IsDone(catalog[..i + 1], lesson, keys, completed);
      }
    }
  }

  /** Looking for the first missing one skips what is not offered or completed. */
  lemma OfferedFirst(catalog: Catalog, lesson: Id, keys: set<string>, completed: seq<Id>)
    requires catalog != []
    ensures FirstMissing(PublishedIn(catalog, lesson, keys), completed) ==
      if IsOffered(catalog[0], lesson, keys) && catalog[0].id !in completed then Some(catalog[0].id)
      else FirstMissing(PublishedIn(catalog[1..], lesson, keys), completed)
  {
    var rest := PublishedIn(catalog[1..], lesson, keys);
    if IsOffered(catalog[0], lesson, keys) {
      assert ([catalog[0].id] + rest)[1..] == rest;
    } else {
      assert [] + rest == rest;
    }
  }

  lemma FirstOfAll(catalog: Catalog, lesson: Id, keys: set<string>)
    ensures FirstMissing(PublishedIn(catalog, lesson, keys), []) ==
      if PublishedIn(catalog, lesson, keys) == [] then None else Some(PublishedIn(catalog, lesson, keys)[0])
  {
  }

  /** The next activity, if there is one. */
  ghost predicate Continues(catalog: Catalog, lesson: Id, keys: set<string>, completed: seq<Id>, next: Option<Id>) {
    match next
    case None => IsDone(catalog, lesson, keys, completed)
    case Some(id) => IsNext(catalog, lesson, keys, completed, id)
  }

  /**
   The progress that an answer shows, over the tables it finds: a first correct
   answer adds its activity, moves on to the first one left, and completes the lesson
   when none is left, at the time of the earlier completion if there was one; any
   other answer shows what is stored, or the beginning of the lesson.
   */
  ghost predicate ShowsProgress(db: Db, catalog: Catalog, keys: set<string>, sub: Submission, ev: Evaluation, shown: Progress) {
    var k := (sub.user, ev.lesson);
    if ev.correct && !(k in db.progress && ev.activityId in db.progress[k].completed) then
      && shown.completed == (if k in db.progress then db.progress[k].completed else []) + [ev.activityId]
      && Continues(catalog, ev.lesson, keys, shown.completed, shown.next)
      && (shown.next.Some? ==> shown.completedAt == None)
      && (shown.next.None? && k in db.progress && db.progress[k].completedAt.Some? ==> shown.completedAt == db.progress[k].completedAt)
      && (shown.next.None? && !(k in db.progress && db.progress[k].completedAt.Some?) ==> shown.completedAt == Some(sub.completedAt))
    else if k in db.progress then shown == db.progress[k]
    else shown.completed == [] && shown.completedAt == None && Continues(catalog, ev.lesson, keys, [], shown.next)
  }

  /** The row of an answer: what was sent, what it is worth, and the progress shown. */
  ghost predicate IsRowOf(db: Db, catalog: Catalog, keys: set<string>, sub: Submission, ev: Evaluation, attemptId: string, row: Row) {
    && row.user == sub.user && row.key == sub.key && row.hash == sub.hash && row.selectedChoiceId == sub.input.selectedChoiceId
    && row.response.attemptId == attemptId && row.response.contentVersion == sub.input.contentVersion
    && row.response.completedAt == sub.completedAt
    && row.response.activityId == ev.activityId && row.response.lesson == ev.lesson
    && row.response.correct == ev.correct && row.response.feedback == ev.feedback
    && ShowsProgress(db, catalog, keys, sub, ev, row.response.progress)
  }

  lemma DraftIsRowOf(db: Db, catalog: Catalog, keys: set<string>, sub: Submission, ev: Evaluation, attemptId: string, date: Date)
    ensures var draft := DraftFor(db, sub, ev, PublishedIn(catalog, ev.lesson, keys), attemptId, date);
      IsRowOf(db, catalog, keys, sub, ev, attemptId, draft.row) && draft.date == date
  {
    FirstOfAll(catalog, ev.lesson, keys);
    NextIsFirstOffered(catalog, ev.lesson, keys, []);
    NextIsFirstOffered(catalog, ev.lesson, keys, db.Ids(sub.user, ev.lesson) + [ev.activityId]);
    hide PublishedIn, FirstMissing, IsDone, IsNext;
  }

  // ---------------------------------------------------------------- where rows and refusals come from

  function Submissions(actions: seq<Action>): seq<Submission> {
    if actions == [] then []
    else
      var before, a := actions[..|actions| - 1], actions[|actions| - 1];
      Submissions(before) + if a.Submit? then [a.sub] else []
  }

  /** The keys of the learner were read for the submit. */
  ghost predicate WasEntitled(actions: seq<Action>, t: nat, keys: set<string>) { Do(t, Entitle(keys)) in actions }

  /** The content that was read for the submit judges its answer like this. */
  ghost predicate WasJudged(actions: seq<Action>, t: nat, sub: Submission, keys: set<string>, ev: Evaluation) {
    && WasEntitled(actions, t, keys)
    && exists catalog :: Do(t, Judge(catalog)) in actions && IsJudged(catalog, keys, sub, ev)
  }

  ghost predicate WasRefused(actions: seq<Action>, t: nat, sub: Submission, failure: Failure) {
    exists catalog, keys :: WasEntitled(actions, t, keys) && Do(t, Judge(catalog)) in actions && IsRefused(catalog, keys, sub, failure)
  }

  /** The row was computed from the tables that the submit found under its lock. */
  ghost predicate WasComputed(limit: int, windowMs: L.Time, actions: seq<Action>, t: nat, sub: Submission, keys: set<string>,
                              ev: Evaluation, row: Row, date: Date) {
    exists i: nat, catalog, attemptId :: i < |actions| && actions[i] == Do(t, Compute(catalog, attemptId, date))
      && IsRowOf(Run(Initial(limit, windowMs), actions[..i]).db, catalog, keys, sub, ev, attemptId, row)
  }

  ghost predicate IsTraced(limit: int, windowMs: L.Time, actions: seq<Action>, t: nat, task: Task) {
    match task
    case Evaluating(_, _, keys) => WasEntitled(actions, t, keys)
    case Locking(sub, _, keys, ev) => WasJudged(actions, t, sub, keys, ev)
    case Locked(sub, _, keys, ev) => WasJudged(actions, t, sub, keys, ev)
    case Ready(sub, _, ev, draft) =>
      exists keys :: WasJudged(actions, t, sub, keys, ev) && WasComputed(limit, windowMs, actions, t, sub, keys, ev, draft.row, draft.date)
    case Failing(sub, _, failure) => failure == Fault || WasRefused(actions, t, sub, failure)
    case Ended(sub, Err(failure)) =>
      failure == Fault || failure == IdempotencyConflict || failure == WinnerMissing || failure.RateLimited? || WasRefused(actions, t, sub, failure)
    case _ => true
  }

  /** Some submit of the run was judged and computed to this row, dated like this. */
  ghost predicate RowIsTraced(limit: int, windowMs: L.Time, actions: seq<Action>, row: Row, date: Date) {
    exists t: nat, keys, ev :: t < |Submissions(actions)| && WasJudged(actions, t, Submissions(actions)[t], keys, ev)
      && WasComputed(limit, windowMs, actions, t, Submissions(actions)[t], keys, ev, row, date)
  }

  ghost predicate AreTraced(limit: int, windowMs: L.Time, actions: seq<Action>, s: State) {
    && |s.tasks| == |Submissions(actions)| && |s.dates| == |s.db.rows|
    && (forall t: nat | t < |s.tasks| :: s.tasks[t].sub == Submissions(actions)[t] && IsTraced(limit, windowMs, actions, t, s.tasks[t]))
    && (forall i: nat | i < |s.db.rows| :: RowIsTraced(limit, windowMs, actions, s.db.rows[i], s.dates[i]))
  }

  lemma SubmissionsGrow(before: seq<Action>, a: Action)
    ensures Submissions(before + [a]) == Submissions(before) + if a.Submit? then [a.sub] else []
  {
    assert (before + [a])[..|before|] == before;
  }

  lemma JudgedStays(before: seq<Action>, a: Action, t: nat, sub: Submission, keys: set<string>, ev: Evaluation)
    requires WasJudged(before, t, sub, keys, ev)
    ensures WasJudged(before + [a], t, sub, keys, ev)
  {
    hide IsJudged;
  }

  lemma ComputedStays(limit: int, windowMs: L.Time, before: seq<Action>, a: Action, t: nat, sub: Submission, keys: set<string>,
                      ev: Evaluation, row: Row, date: Date)
    requires WasComputed(limit, windowMs, before, t, sub, keys, ev, row, date)
    ensures WasComputed(limit, windowMs, before + [a], t, sub, keys, ev, row, date)
  {
    hide IsRowOf, Run;
    var i: nat, catalog, attemptId :| i < |before| && before[i] == Do(t, Compute(catalog, attemptId, date))
      && IsRowOf(Run(Initial(limit, windowMs), before[..i]).db, catalog, keys, sub, ev, attemptId, row);
    assert (before + [a])[..i] == before[..i] && (before + [a])[i] == before[i];
  }

  lemma TraceStays(limit: int, windowMs: L.Time, before: seq<Action>, a: Action, t: nat, task: Task)
    requires IsTraced(limit, windowMs, before, t, task)
    ensures IsTraced(limit, windowMs, before + [a], t, task)
  {
    hide IsJudged, WasComputed, IsRefused;
    match task
    case Ready(sub, _, ev, draft) =>
      var keys :| WasJudged(before, t, sub, keys, ev) && WasComputed(limit, windowMs, before, t, sub, keys, ev, draft.row, draft.date);
      JudgedStays(before, a, t, sub, keys, ev);
      ComputedStays(limit, windowMs, before, a, t, sub, keys, ev, draft.row, draft.date);
    case _ =>
  }

  lemma RowTraceStays(limit: int, windowMs: L.Time, before: seq<Action>, a: Action, row: Row, date: Date)
    requires RowIsTraced(limit, windowMs, before, row, date)
    ensures RowIsTraced(limit, windowMs, before + [a], row, date)
  {
    hide WasJudged, WasComputed, Submissions;
    var t: nat, keys, ev :| t < |Submissions(before)| && WasJudged(before, t, Submissions(before)[t], keys, ev)
      && WasComputed(limit, windowMs, before, t, Submissions(before)[t], keys, ev, row, date);
    var sub := Submissions(before)[t];
    SubmissionsGrow(before, a);
    assert Submissions(before + [a])[t] == sub;
    JudgedStays(before, a, t, sub, keys, ev);
    ComputedStays(limit, windowMs, before, a, t, sub, keys, ev, row, date);
  }

  lemma JudgeTraces(before: seq<Action>, t: nat, sub: Submission, keys: set<string>, catalog: Catalog)
    requires WasEntitled(before, t, keys)
    ensures var (all, ev) := (before + [Do(t, Judge(catalog))], Evaluate(catalog, keys, sub));
      if ev.Ok? then WasJudged(all, t, sub, keys, ev.value) else WasRefused(all, t, sub, ev.error)
  {
    hide IsJudged, IsRefused, Evaluate;
    var (all, ev) := (before + [Do(t, Judge(catalog))], Evaluate(catalog, keys, sub));
    assert all[|before|] == Do(t, Judge(catalog)) && WasEntitled(all, t, keys);
    if ev.Ok? { EvaluateIff(catalog, keys, sub, ev.value, Fault); }
    else { EvaluateIff(catalog, keys, sub, Evaluation("", "", false, ""), ev.error); }
  }

  lemma ComputeTraces(limit: int, windowMs: L.Time, before: seq<Action>, t: nat, sub: Submission, keys: set<string>, ev: Evaluation,
                      catalog: Catalog, attemptId: string, date: Date)
    ensures var all := before + [Do(t, Compute(catalog, attemptId, date))];
      var draft := DraftFor(Run(Initial(limit, windowMs), before).db, sub, ev, PublishedIn(catalog, ev.lesson, keys), attemptId, date);
      WasComputed(limit, windowMs, all, t, sub, keys, ev, draft.row, draft.date)
  {
    hide Run, IsRowOf, DraftFor, PublishedIn;
    var all := before + [Do(t, Compute(catalog, attemptId, date))];
    assert all[|before|] == Do(t, Compute(catalog, attemptId, date)) && all[..|before|] == before;
    DraftIsRowOf(Run(Initial(limit, windowMs), before).db, catalog, keys, sub, ev, attemptId, date);
  }

  /** The task that a step leaves behind is traced. */
  lemma StepTraces(limit: int, windowMs: L.Time, before: seq<Action>, t: nat, move: Move)
    requires var s := Run(Initial(limit, windowMs), before);
      t < |s.tasks| && IsTraced(limit, windowMs, before, t, s.tasks[t])
    ensures var s' := DoStep(Run(Initial(limit, windowMs), before), t, move);
      |s'.tasks| > t && s'.tasks[t].sub == Run(Initial(limit, windowMs), before).tasks[t].sub
      && IsTraced(limit, windowMs, before + [Do(t, move)], t, s'.tasks[t])
  {
    hide Run, WasJudged, WasRefused, WasComputed, Evaluate, DraftFor, Lookup, Committed, PublishedIn, IsLocked;
    var s := Run(Initial(limit, windowMs), before);
    TraceStays(limit, windowMs, before, Do(t, move), t, s.tasks[t]);
    match (s.tasks[t], move)
    case (Admitted(_, _), Entitle(_)) => assert (before + [Do(t, move)])[|before|] == Do(t, move);
    case (Evaluating(sub, _, keys), Judge(catalog)) => JudgeTraces(before, t, sub, keys, catalog);
    case (Locked(sub, _, keys, ev), Compute(catalog, attemptId, date)) =>
      ComputeTraces(limit, windowMs, before, t, sub, keys, ev, catalog, attemptId, date);
    case _ =>
  }

  lemma OthersStay(s: State, t: nat, move: Move, u: nat)
    requires u < |s.tasks| && u != t
    ensures |DoStep(s, t, move).tasks| == |s.tasks| && DoStep(s, t, move).tasks[u] == s.tasks[u]
  {
    hide Evaluate, DraftFor, Lookup, Committed, PublishedIn, IsLocked;
  }

  /** What a step does to the rows: nothing, or the draft of a commit is appended. */
  lemma RowsAfter(s: State, t: nat, move: Move)
    ensures var s' := DoStep(s, t, move);
      (s'.db.rows == s.db.rows && s'.dates == s.dates)
      || (t < |s.tasks| && s.tasks[t].Ready? && s'.db.rows == s.db.rows + [s.tasks[t].draft.row] && s'.dates == s.dates + [s.tasks[t].draft.date])
  {
    hide Evaluate, DraftFor, Lookup, PublishedIn, IsLocked;
  }

  lemma DoKeepsTraces(limit: int, windowMs: L.Time, before: seq<Action>, t: nat, move: Move)
    requires AreTraced(limit, windowMs, before, Run(Initial(limit, windowMs), before))
    ensures AreTraced(limit, windowMs, before + [Do(t, move)], DoStep(Run(Initial(limit, windowMs), before), t, move))
  {
    hide Run, DoStep, IsTraced, RowIsTraced, Submissions;
    var s, a := Run(Initial(limit, windowMs), before), Do(t, move);
    var s' := DoStep(s, t, move);
    SubmissionsGrow(before, a);
    assert |s'.tasks| == |s.tasks| by { TasksStay(s, t, move); }
    forall u: nat | u < |s'.tasks|
      ensures s'.tasks[u].sub == Submissions(before + [a])[u] && IsTraced(limit, windowMs, before + [a], u, s'.tasks[u])
    {
      if u == t { StepTraces(limit, windowMs, before, t, move); }
      else { OthersStay(s, t, move, u); TraceStays(limit, windowMs, before, a, u, s.tasks[u]); }
    }
    RowsAfter(s, t, move);
    forall i: nat | i < |s'.db.rows| ensures RowIsTraced(limit, windowMs, before + [a], s'.db.rows[i], s'.dates[i]) {
      if i < |s.db.rows| { RowTraceStays(limit, windowMs, before, a, s.db.rows[i], s.dates[i]); }
      else { ReadyIsTraced(limit, windowMs, before, a, t, s.tasks[t]); }
    }
  }

  lemma TasksStay(s: State, t: nat, move: Move)
    ensures |DoStep(s, t, move).tasks| == |s.tasks|
  {
    hide Evaluate, DraftFor, Lookup, Committed, PublishedIn, IsLocked;
  }

  lemma ReadyIsTraced(limit: int, windowMs: L.Time, before: seq<Action>, a: Action, t: nat, task: Task)
    requires task.Ready? && t < |Submissions(before)| && task.sub == Submissions(before)[t] && IsTraced(limit, windowMs, before, t, task)
    ensures RowIsTraced(limit, windowMs, before + [a], task.draft.row, task.draft.date)
  {
    hide WasJudged, WasComputed, Submissions;
    var keys :| WasJudged(before, t, task.sub, keys, task.ev)
      && WasComputed(limit, windowMs, before, t, task.sub, keys, task.ev, task.draft.row, task.draft.date);
    assert RowIsTraced(limit, windowMs, before, task.draft.row, task.draft.date);
    RowTraceStays(limit, windowMs, before, a, task.draft.row, task.draft.date);
  }

  lemma SubmitKeepsTraces(limit: int, windowMs: L.Time, before: seq<Action>, sub: Submission)
    requires AreTraced(limit, windowMs, before, Run(Initial(limit, windowMs), before))
    ensures AreTraced(limit, windowMs, before + [Submit(sub)], Step(Run(Initial(limit, windowMs), before), Submit(sub)))
  {
    hide Run, IsTraced, RowIsTraced, Submissions;
    var s, a := Run(Initial(limit, windowMs), before), Submit(sub);
    var s' := Step(s, a);
    SubmissionsGrow(before, a);
    forall u: nat | u < |s'.tasks|
      ensures s'.tasks[u].sub == Submissions(before + [a])[u] && IsTraced(limit, windowMs, before + [a], u, s'.tasks[u])
    {
      if u < |s.tasks| { TraceStays(limit, windowMs, before, a, u, s.tasks[u]); }
      else { NewIsTraced(limit, windowMs, before + [a], u, sub); }
    }
    forall i: nat | i < |s'.db.rows| ensures RowIsTraced(limit, windowMs, before + [a], s'.db.rows[i], s'.dates[i]) {
      RowTraceStays(limit, windowMs, before, a, s.db.rows[i], s.dates[i]);
    }
  }

  lemma NewIsTraced(limit: int, windowMs: L.Time, actions: seq<Action>, t: nat, sub: Submission)
    ensures IsTraced(limit, windowMs, actions, t, Looking(sub))
  {
  }

  lemma {:induction false} RunIsTraced(limit: int, windowMs: L.Time, actions: seq<Action>)
    ensures AreTraced(limit, windowMs, actions, Run(Initial(limit, windowMs), actions))
    decreases |actions|
  {
    if actions != [] {
      hide AreTraced, DoStep;
      var before, a := actions[..|actions| - 1], actions[|actions| - 1];
      assert actions == before + [a];
      RunIsTraced(limit, windowMs, before);
      match a
      case Submit(sub) => SubmitKeepsTraces(limit, windowMs, before, sub);
      case Do(t, move) => DoKeepsTraces(limit, windowMs, before, t, move);
    }
  }

  /**
   Every stored attempt of every run comes from one submit, was judged by the
   published content that was read for it, and shows the progress that follows from
   the tables it found.
   */
  lemma RowsAreJudged(limit: int, windowMs: L.Time, actions: seq<Action>, i: nat)
    ensures var s := Run(Initial(limit, windowMs), actions);
      i < |s.db.rows| ==> i < |s.dates| && RowIsTraced(limit, windowMs, actions, s.db.rows[i], s.dates[i])
  {
    RunIsTraced(limit, windowMs, actions);
  }

  /** And a submit is refused for its content only when the content that was read for it says so. */
  lemma RefusalsAreJudged(limit: int, windowMs: L.Time, actions: seq<Action>, t: nat)
    ensures var s := Run(Initial(limit, windowMs), actions);
      t < |s.tasks| && s.tasks[t].Ended? && s.tasks[t].outcome.Err?
        && s.tasks[t].outcome.error in {ResourceNotFound, ContentVersionConflict, InvalidContent, UnknownChoice} ==>
        t < |Submissions(actions)| && WasRefused(actions, t, Submissions(actions)[t], s.tasks[t].outcome.error)
  {
    RunIsTraced(limit, windowMs, actions);
    var s := Run(Initial(limit, windowMs), actions);
    hide Run, WasRefused, RowIsTraced, Submissions;
    if t < |s.tasks| { assert IsTraced(limit, windowMs, actions, t, s.tasks[t]); }
  }
}
