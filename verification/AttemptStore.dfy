/**
 What one learning attempt reads and writes inside its transaction
 (apps/api/src/learning/activity-attempt.service.ts): the evaluation of the
 answer, the progress of a lesson, the practice days and the attempt rows under
 their unique (user, idempotency key).

 The functions are the specification; the class `LearningTables` performs the
 writes of the transaction one after the other and is proved against them.
 */
module AttemptStore {
  import opened Basics

  type User = string
  type Key = string
  type Id = string
  type Date = string
  type Instant = int

  // ---------------------------------------------------------------- requests

  datatype Input = Input(contentVersion: int, selectedChoiceId: string)

  /** The fields that the request hash covers. */
  datatype Fingerprint = Fingerprint(activityId: Id, contentVersion: int, key: Key, selectedChoiceId: string)

  datatype Submission = Submission(
    user: User, activityId: Id, key: Key, input: Input, completedAt: Instant, hash: string)

  /** Activity ids and keys are normalised before anything looks at them. */
  function Normalise(digest: Fingerprint -> string, user: User, activityId: Id, key: Key, input: Input,
                     completedAt: Instant): Submission {
    Submission(user, Lower(activityId), Lower(key), input, completedAt,
               digest(Fingerprint(Lower(activityId), input.contentVersion, Lower(key), input.selectedChoiceId)))
  }

  lemma SpellingDoesNotMatter(digest: Fingerprint -> string, user: User, a1: Id, a2: Id, k1: Key, k2: Key,
                              input: Input, completedAt: Instant)
    requires |a1| == |a2| && (forall i | 0 <= i < |a1| :: LowerChar(a1[i]) == LowerChar(a2[i]))
    requires |k1| == |k2| && (forall i | 0 <= i < |k1| :: LowerChar(k1[i]) == LowerChar(k2[i]))
    ensures Normalise(digest, user, a1, k1, input, completedAt) == Normalise(digest, user, a2, k2, input, completedAt)
  {
    assert Lower(a1) == Lower(a2) && Lower(k1) == Lower(k2);
  }

  // ---------------------------------------------------------------- published content

  datatype Json = JNull | JBool(b: bool) | JNumber(lexeme: string) | JString(s: string)
                | JArray(items: seq<Json>) | JObject(members: map<string, Json>)

  datatype ActivityContent = ActivityContent(
    choiceIds: seq<string>, correctChoiceId: string, correctFeedback: string, incorrectFeedback: string)

  predicate HasString(j: Json, member: string) {
    j.JObject? && member in j.members && j.members[member].JString?
  }

  function Member(j: Json, member: string): string
    requires HasString(j, member)
  {
    j.members[member].s
  }

  function ChoiceIds(choices: seq<Json>): Option<seq<string>> {
    if choices == [] then Some([])
    else if !HasString(choices[0], "id") then None
    else
      var rest := ChoiceIds(choices[1..]);
      if rest.None? then None else Some([Member(choices[0], "id")] + rest.value)
  }

  function ContentOf(choices: Json, validation: Json, feedback: Json): Option<ActivityContent> {
    if !choices.JArray? then None
    else
      var ids := ChoiceIds(choices.items);
      if ids.None? || !HasString(validation, "correctChoiceId")
         || Member(validation, "correctChoiceId") !in ids.value
         || !HasString(feedback, "correct") || !HasString(feedback, "incorrect")
      then None
      else Some(ActivityContent(ids.value, Member(validation, "correctChoiceId"),
                                Member(feedback, "correct"), Member(feedback, "incorrect")))
  }

  lemma {:induction false} ChoiceIdsInOrder(choices: seq<Json>)
    ensures ChoiceIds(choices).Some? <==> forall c | c in choices :: HasString(c, "id")
    ensures ChoiceIds(choices).Some? ==>
      && |ChoiceIds(choices).value| == |choices|
      && forall i | 0 <= i < |choices| :: HasString(choices[i], "id") && ChoiceIds(choices).value[i] == Member(choices[i], "id")
  {
    if choices != [] {
      ChoiceIdsInOrder(choices[1..]);
      assert choices == [choices[0]] + choices[1..];
    }
  }

  /** Content is usable exactly when every choice has an id and one of them is the correct one. */
  lemma ContentIsUsable(choices: Json, validation: Json, feedback: Json)
    ensures ContentOf(choices, validation, feedback).Some? <==>
      && choices.JArray? && (forall c | c in choices.items :: HasString(c, "id"))
      && HasString(validation, "correctChoiceId")
      && (exists c :: c in choices.items && HasString(c, "id") && Member(c, "id") == Member(validation, "correctChoiceId"))
      && HasString(feedback, "correct") && HasString(feedback, "incorrect")
  {
    if choices.JArray? && HasString(validation, "correctChoiceId") {
      var items, correct := choices.items, Member(validation, "correctChoiceId");
      ChoiceIdsInOrder(items);
      var ids := ChoiceIds(items);
      if ids.Some? {
        if correct in ids.value {
          var i :| 0 <= i < |ids.value| && ids.value[i] == correct;
          assert items[i] in items;
        }
        if c :| c in items && HasString(c, "id") && Member(c, "id") == correct {
          var i :| 0 <= i < |items| && items[i] == c;
          assert ids.value[i] == correct;
        }
      }
    }
  }

  datatype Activity = Activity(
    id: Id,
    lessonId: Id,
    archived: bool,
    lessonArchived: bool,
    requiredEntitlement: Option<string>,
    lessonEntitlement: Option<string>,
    publishedVersion: Option<int>,
    publishedContent: Option<(Json, Json, Json)>)

  /** The activities in (sortOrder, id) order, as one read of the transaction sees them. */
  type Catalog = seq<Activity>

  predicate Granted(required: Option<string>, keys: set<string>) {
    required.None? || required.value in keys
  }

  function Find(catalog: Catalog, id: Id, keys: set<string>): Option<Activity> {
    if catalog == [] then None
    else
      var a := catalog[0];
      if a.id == id && !a.archived && Granted(a.requiredEntitlement, keys)
         && !a.lessonArchived && Granted(a.lessonEntitlement, keys)
      then Some(a)
      else Find(catalog[1..], id, keys)
  }

  function PublishedIn(catalog: Catalog, lesson: Id, keys: set<string>): seq<Id> {
    if catalog == [] then []
    else
      var a := catalog[0];
      (if a.lessonId == lesson && !a.archived && a.publishedVersion.Some? && Granted(a.requiredEntitlement, keys)
       then [a.id] else [])
      + PublishedIn(catalog[1..], lesson, keys)
  }

  datatype Failure =
    | IdempotencyConflict | RateLimited(retryAfterSeconds: int) | ResourceNotFound | ContentVersionConflict
    | UnknownChoice | InvalidContent | WinnerMissing | Fault

  datatype Evaluation = Evaluation(activityId: Id, lesson: Id, correct: bool, feedback: string)

  /** What an answer is worth, or why it is refused before anything is locked or written. */
  function Evaluate(catalog: Catalog, keys: set<string>, sub: Submission): Result<Evaluation, Failure> {
    var found := Find(catalog, sub.activityId, keys);
    if found.None? || found.value.publishedVersion.None? || found.value.publishedContent.None? then Err(ResourceNotFound)
    else if found.value.publishedVersion.value != sub.input.contentVersion then Err(ContentVersionConflict)
    else
      var (choices, validation, feedback) := found.value.publishedContent.value;
      var content := ContentOf(choices, validation, feedback);
      if content.None? then Err(InvalidContent)
      else if sub.input.selectedChoiceId !in content.value.choiceIds then Err(UnknownChoice)
      else
        var correct := sub.input.selectedChoiceId == content.value.correctChoiceId;
        Ok(Evaluation(found.value.id, found.value.lessonId, correct,
                      if correct then content.value.correctFeedback else content.value.incorrectFeedback))
  }

  lemma {:induction false} FindGivesTheActivity(catalog: Catalog, id: Id, keys: set<string>)
    ensures Find(catalog, id, keys).Some? ==> Find(catalog, id, keys).value in catalog && Find(catalog, id, keys).value.id == id
  {
    if catalog != [] { FindGivesTheActivity(catalog[1..], id, keys); }
  }

  // ---------------------------------------------------------------- tables

  datatype Progress = Progress(completed: seq<Id>, next: Option<Id>, completedAt: Option<Instant>)

  datatype Response = Response(
    attemptId: string, activityId: Id, contentVersion: int, correct: bool, feedback: string,
    completedAt: Instant, lesson: Id, progress: Progress)

  datatype Row = Row(
    user: User, key: Key, hash: string, selectedChoiceId: string, response: Response)

  datatype Db = Db(rows: seq<Row>, progress: map<(User, Id), Progress>, days: map<(User, Date), nat>)
  {
    function Stored(user: User, lesson: Id): Option<Progress> {
      if (user, lesson) in progress then Some(progress[(user, lesson)]) else None
    }

    function Ids(user: User, lesson: Id): seq<Id> {
      if (user, lesson) in progress then progress[(user, lesson)].completed else []
    }

    function Count(user: User, date: Date): nat {
      if (user, date) in days then days[(user, date)] else 0
    }

    predicate Has(user: User, key: Key) {
      exists i :: 0 <= i < |rows| && rows[i].user == user && rows[i].key == key
    }
  }

  /** The row stored for a user and key, as the replay store finds it. */
  function Lookup(rows: seq<Row>, user: User, key: Key): Option<Row> {
    if rows == [] then None
    else if rows[0].user == user && rows[0].key == key then Some(rows[0])
    else Lookup(rows[1..], user, key)
  }

  lemma {:induction false} LookupFinds(rows: seq<Row>, user: User, key: Key)
    ensures var found := Lookup(rows, user, key);
      && (found.Some? ==> found.value in rows && found.value.user == user && found.value.key == key)
      && (found.None? ==> forall i | 0 <= i < |rows| :: !(rows[i].user == user && rows[i].key == key))
  {
    if rows != [] { LookupFinds(rows[1..], user, key); }
  }

  function FirstMissing(published: seq<Id>, completed: seq<Id>): Option<Id> {
    if published == [] then None
    else if published[0] !in completed then Some(published[0])
    else FirstMissing(published[1..], completed)
  }

  lemma {:induction false} FirstMissingMeans(published: seq<Id>, completed: seq<Id>)
    ensures FirstMissing(published, completed).None? <==> forall id | id in published :: id in completed
    ensures FirstMissing(published, completed).Some? ==>
      exists i :: 0 <= i < |published| && published[i] == FirstMissing(published, completed).value
                  && published[i] !in completed && forall j | 0 <= j < i :: published[j] in completed
  {
    if published != [] {
      FirstMissingMeans(published[1..], completed);
      if published[0] in completed && FirstMissing(published, completed).Some? {
        var i :| 0 <= i < |published[1..]| && published[1..][i] == FirstMissing(published[1..], completed).value
                 && published[1..][i] !in completed && forall j | 0 <= j < i :: published[1..][j] in completed;
        assert published[i + 1] == published[1..][i];
        forall j | 0 <= j < i + 1 ensures published[j] in completed {
          if j > 0 { assert published[j] == published[1..][j - 1]; }
        }
      }
    }
  }

  /** What the transaction is going to write, computed under the lesson lock. */
  datatype Draft = Draft(row: Row, date: Date, awarded: bool)

  function Advance(existing: Option<Progress>, activity: Id, published: seq<Id>, at: Instant): Progress {
    var completed := (if existing.Some? then existing.value.completed else []) + [activity];
    var next := FirstMissing(published, completed);
    var first := if existing.Some? && existing.value.completedAt.Some? then existing.value.completedAt else Some(at);
    Progress(completed, next, if next.None? then first else None)
  }

  function DraftFor(db: Db, sub: Submission, ev: Evaluation, published: seq<Id>, attemptId: string, date: Date): Draft {
    var existing := db.Stored(sub.user, ev.lesson);
    var awarded := ev.correct && ev.activityId !in db.Ids(sub.user, ev.lesson);
    var shown :=
      if awarded then Advance(existing, ev.activityId, published, sub.completedAt)
      else if existing.Some? then existing.value
      else Progress([], if published == [] then None else Some(published[0]), None);
    Draft(Row(sub.user, sub.key, sub.hash, sub.input.selectedChoiceId,
              Response(attemptId, ev.activityId, sub.input.contentVersion, ev.correct, ev.feedback,
                       sub.completedAt, ev.lesson, shown)),
          date, awarded)
  }

  /** The writes of a committed attempt. */
  function Committed(db: Db, draft: Draft): Db {
    var row := draft.row;
    var lesson := row.response.lesson;
    Db(db.rows + [row],
       if draft.awarded then db.progress[(row.user, lesson) := row.response.progress] else db.progress,
       if draft.awarded then db.days[(row.user, draft.date) := db.Count(row.user, draft.date) + 1] else db.days)
  }

  // ---------------------------------------------------------------- the tables, written in place

  class LearningTables {
    var rows: seq<Row>
    var progress: map<(User, Id), Progress>
    var days: map<(User, Date), nat>

    ghost function View(): Db
      reads this
    {
      Db(rows, progress, days)
    }

    constructor ()
      ensures View() == Db([], map[], map[])
    {
      rows, progress, days := [], map[], map[];
    }

    /** The first published activity that is not completed yet. */
    method NextActivity(published: seq<Id>, completed: seq<Id>) returns (next: Option<Id>)
      ensures next == FirstMissing(published, completed)
    {
      var i := 0;
      while i < |published|
        invariant 0 <= i <= |published|
        invariant FirstMissing(published, completed) == FirstMissing(published[i..], completed)
      {
        assert published[i..][1..] == published[i + 1..];
        if published[i] !in completed {
          return Some(published[i]);
        }
        i := i + 1;
      }
      return None;
    }

    /**
     The writing half of an attempt: practice day, progress, then the attempt row,
     whose unique (user, key) may reject the whole transaction.
     */
    method WriteAttempt(sub: Submission, ev: Evaluation, published: seq<Id>, attemptId: string, date: Date)
      returns (response: Option<Response>)
      modifies this
      ensures response.None? <==> old(View()).Has(sub.user, sub.key)
      ensures response.None? ==> View() == old(View())
      ensures response.Some? ==>
        var draft := DraftFor(old(View()), sub, ev, published, attemptId, date);
        View() == Committed(old(View()), draft) && response.value == draft.row.response
    {
      ghost var before := View();
      var rowsBefore, progressBefore, daysBefore := rows, progress, days;
      var k := (sub.user, ev.lesson);
      var existing := if k in progress then Some(progress[k]) else None;
      var completed := if existing.Some? then existing.value.completed else [];
      var awarded := ev.correct && ev.activityId !in completed;
      var shown := existing;
      if awarded {
        var count := if (sub.user, date) in days then days[(sub.user, date)] else 0;
        days := days[(sub.user, date) := count + 1];
        var next := NextActivity(published, completed + [ev.activityId]);
        var lessonCompletedAt :=
          if next.Some? then None
          else if existing.Some? && existing.value.completedAt.Some? then existing.value.completedAt
          else Some(sub.completedAt);
        var advanced := Progress(completed + [ev.activityId], next, lessonCompletedAt);
        progress := progress[k := advanced];
        shown := Some(advanced);
      }
      var snapshot :=
        if shown.Some? then shown.value
        else Progress([], if published == [] then None else Some(published[0]), None);
      var answer := Response(attemptId, ev.activityId, sub.input.contentVersion, ev.correct, ev.feedback,
                             sub.completedAt, ev.lesson, snapshot);
      var taken := IsTaken(sub.user, sub.key);
      if taken {
        rows, progress, days := rowsBefore, progressBefore, daysBefore;
        return None;
      }
      rows := rows + [Row(sub.user, sub.key, sub.hash, sub.input.selectedChoiceId, answer)];
      return Some(answer);
    }

    /** The unique index on (user, key). */
    method IsTaken(user: User, key: Key) returns (taken: bool)
      ensures taken <==> View().Has(user, key)
    {
      for i := 0 to |rows|
        invariant forall j | 0 <= j < i :: !(rows[j].user == user && rows[j].key == key)
      {
        if rows[i].user == user && rows[i].key == key {
          return true;
        }
      }
      return false;
    }
  }
}
