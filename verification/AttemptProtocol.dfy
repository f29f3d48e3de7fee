/**
 Concurrent submits of learning attempts: the lookup for a replay, the admission
 through the rate limiter, the transaction under the per-lesson lock, the loss of
 a unique-key race and the settlement of the lease
 (apps/api/src/learning/activity-attempt.service.ts and
 apps/api/src/learning/activity-attempt-admission.service.ts).

 Every await is a point where any other submit may run. A read takes effect when
 it is performed and its answer is used later; a transaction takes effect at
 its commit or not at all; and the database may fail at every await.
 */
module AttemptProtocol {
  import opened Basics
  import opened AttemptStore
  import L = RateLimiter

  datatype Task =
    | Looking(sub: Submission)
    | Looked(sub: Submission, found: Option<Row>)
    | Admitted(sub: Submission, lease: nat)
    | Evaluating(sub: Submission, lease: nat, keys: set<string>)
    | Locking(sub: Submission, lease: nat, keys: set<string>, ev: Evaluation)
    | Locked(sub: Submission, lease: nat, keys: set<string>, ev: Evaluation)
    | Ready(sub: Submission, lease: nat, ev: Evaluation, draft: Draft)
    | Written(sub: Submission, lease: nat, response: Response)
    | Conflicted(sub: Submission, lease: nat, genuine: bool)
    | Recovered(sub: Submission, lease: nat, found: Option<Row>)
    | Failing(sub: Submission, lease: nat, failure: Failure)
    | Ended(sub: Submission, outcome: Result<Response, Failure>)
  {
    predicate HasLease() {
      !Looking? && !Looked? && !Ended?
    }

    predicate HoldsLock(user: User, lesson: Id) {
      (Locked? || Ready?) && sub.user == user && ev.lesson == lesson
    }
  }

  /** `dates` remembers, beside each row, the local date its transaction computed. */
  datatype State = State(db: Db, dates: seq<Date>, limiter: L.Use, tasks: seq<Task>)

  datatype Move =
    | Perform                                        // a read or the settlement of a lease
    | Admit(elapsed: L.Time)
    | Entitle(keys: set<string>)
    | Judge(catalog: Catalog)
    | Lock
    | Compute(catalog: Catalog, attemptId: string, date: Date)
    | Commit(acknowledged: bool)
    | Break(uniqueViolation: bool)

  datatype Action =
    | Submit(sub: Submission)
    | Do(task: nat, move: Move)

  predicate IsLocked(tasks: seq<Task>, user: User, lesson: Id) {
    exists i :: 0 <= i < |tasks| && tasks[i].HoldsLock(user, lesson)
  }

  function Put(s: State, t: nat, task: Task): State
    requires t < |s.tasks|
  {
    s.(tasks := s.tasks[t := task])
  }

  function Settle(s: State, lease: nat): State {
    s.(limiter := L.Apply(s.limiter, L.SettleLease(lease)))
  }

  function Replay(sub: Submission, row: Row): Result<Response, Failure> {
    if row.hash == sub.hash then Ok(row.response) else Err(IdempotencyConflict)
  }

  /** admit, from the answer of the lookup on: replay, conflict, or a lease from the limiter. */
  function AdmitStep(s: State, t: nat, sub: Submission, found: Option<Row>, elapsed: L.Time): State
    requires t < |s.tasks|
  {
    if found.Some? then Put(s, t, Ended(sub, Replay(sub, found.value)))
    else
      var now := L.Later(s.limiter.now, elapsed);
      var decision := s.limiter.limiter.CheckAndConsume(sub.user, sub.key, now).1;
      var s1 := s.(limiter := L.Apply(s.limiter, L.Check(sub.user, sub.key, elapsed)));
      if decision.Allowed? then Put(s1, t, Admitted(sub, |s.limiter.leases|))
      else Put(s1, t, Ended(sub, Err(RateLimited(decision.retryAfterSeconds))))
  }

  /** The unique index decides; a commit whose acknowledgement is lost has happened all the same. */
  function CommitStep(s: State, t: nat, sub: Submission, lease: nat, draft: Draft, acknowledged: bool): State
    requires t < |s.tasks|
  {
    if s.db.Has(sub.user, sub.key) then Put(s, t, Conflicted(sub, lease, true))
    else
      Put(s.(db := Committed(s.db, draft), dates := s.dates + [draft.date]), t,
          if acknowledged then Written(sub, lease, draft.row.response) else Failing(sub, lease, Fault))
  }

  /** The recovery helper settles the lease whatever the lookup said. */
  function RecoverStep(s: State, t: nat, sub: Submission, lease: nat, found: Option<Row>): State
    requires t < |s.tasks|
  {
    Put(Settle(s, lease), t,
        Ended(sub, if found.None? then Err(WinnerMissing) else Replay(sub, found.value)))
  }

  function BreakStep(s: State, t: nat, uniqueViolation: bool): State
    requires t < |s.tasks|
  {
    match s.tasks[t]
    case Looking(sub) => Put(s, t, Ended(sub, Err(Fault)))
    case Admitted(sub, lease) => Put(s, t, Failing(sub, lease, Fault))
    case Evaluating(sub, lease, _) => Put(s, t, Broken(sub, lease, uniqueViolation))
    case Locking(sub, lease, _, _) => Put(s, t, Broken(sub, lease, uniqueViolation))
    case Locked(sub, lease, _, _) => Put(s, t, Broken(sub, lease, uniqueViolation))
    case Ready(sub, lease, _, _) => Put(s, t, Broken(sub, lease, uniqueViolation))
    case Conflicted(sub, lease, _) => Put(Settle(s, lease), t, Ended(sub, Err(Fault)))
    case _ => s
  }

  /** A unique violation of any table sends the submit into recovery, any other error fails it. */
  function Broken(sub: Submission, lease: nat, uniqueViolation: bool): Task {
    if uniqueViolation then Conflicted(sub, lease, false) else Failing(sub, lease, Fault)
  }

  function DoStep(s: State, t: nat, move: Move): State {
    if t >= |s.tasks| then s
    else if move.Break? then BreakStep(s, t, move.uniqueViolation)
    else
      match (s.tasks[t], move)
      case (Looking(sub), Perform) => Put(s, t, Looked(sub, Lookup(s.db.rows, sub.user, sub.key)))
      case (Looked(sub, found), Admit(elapsed)) => AdmitStep(s, t, sub, found, elapsed)
      case (Admitted(sub, lease), Entitle(keys)) => Put(s, t, Evaluating(sub, lease, keys))
      case (Evaluating(sub, lease, keys), Judge(catalog)) =>
        var ev := Evaluate(catalog, keys, sub);
        Put(s, t, if ev.Ok? then Locking(sub, lease, keys, ev.value) else Failing(sub, lease, ev.error))
      case (Locking(sub, lease, keys, ev), Lock) =>
        if IsLocked(s.tasks, sub.user, ev.lesson) then s else Put(s, t, Locked(sub, lease, keys, ev))
      case (Locked(sub, lease, keys, ev), Compute(catalog, attemptId, date)) =>
        Put(s, t, Ready(sub, lease, ev, DraftFor(s.db, sub, ev, PublishedIn(catalog, ev.lesson, keys), attemptId, date)))
      case (Ready(sub, lease, ev, draft), Commit(acknowledged)) => CommitStep(s, t, sub, lease, draft, acknowledged)
      case (Written(sub, lease, response), Perform) => Put(Settle(s, lease), t, Ended(sub, Ok(response)))
      case (Conflicted(sub, lease, _), Perform) =>
        Put(s, t, Recovered(sub, lease, Lookup(s.db.rows, sub.user, sub.key)))
      case (Recovered(sub, lease, found), Perform) => RecoverStep(s, t, sub, lease, found)
      case (Failing(sub, lease, failure), Perform) => Put(Settle(s, lease), t, Ended(sub, Err(failure)))
      case _ => s
  }

  function Step(s: State, a: Action): State {
    match a
    case Submit(sub) => s.(tasks := s.tasks + [Looking(sub)])
    case Do(t, move) => DoStep(s, t, move)
  }

  function Run(s: State, actions: seq<Action>): State
    decreases |actions|
  {
    if actions == [] then s else Step(Run(s, actions[..|actions| - 1]), actions[|actions| - 1])
  }

  function Initial(limit: int, windowMs: L.Time): State {
    State(Db([], map[], map[]), [], L.Fresh(limit, windowMs), [])
  }

  // ---------------------------------------------------------------- what the rows say

  /** The activities of a lesson completed by the rows, each once, in the order of the first correct answer. */
  function Completed(rows: seq<Row>, user: User, lesson: Id): seq<Id> {
    if rows == [] then []
    else
      var before := Completed(rows[..|rows| - 1], user, lesson);
      var r := rows[|rows| - 1];
      if r.user == user && r.response.lesson == lesson && r.response.correct && r.response.activityId !in before
      then before + [r.response.activityId]
      else before
  }

  /** Does row i complete its activity for the first time? */
  predicate FirstCorrect(rows: seq<Row>, i: nat)
    requires i < |rows|
  {
    rows[i].response.correct
    && rows[i].response.activityId !in Completed(rows[..i], rows[i].user, rows[i].response.lesson)
  }

  /** How many activities the rows complete on a date. */
  function CompletedOn(rows: seq<Row>, dates: seq<Date>, user: User, date: Date): nat
    requires |dates| == |rows|
  {
    if rows == [] then 0
    else
      var n := |rows| - 1;
      CompletedOn(rows[..n], dates[..n], user, date)
      + (if rows[n].user == user && dates[n] == date && FirstCorrect(rows, n) then 1 else 0)
  }

  predicate CompletesIn(r: Row, user: User, lesson: Id, activity: Id) {
    r.user == user && r.response.lesson == lesson && r.response.correct && r.response.activityId == activity
  }

  /** The completed activities are exactly those with a correct row, without duplicates. */
  lemma {:induction false} CompletedMeans(rows: seq<Row>, user: User, lesson: Id, activity: Id)
    ensures activity in Completed(rows, user, lesson)
       <==> exists i :: 0 <= i < |rows| && CompletesIn(rows[i], user, lesson, activity)
    ensures forall i, j | 0 <= i < j < |Completed(rows, user, lesson)| ::
              Completed(rows, user, lesson)[i] != Completed(rows, user, lesson)[j]
  {
    if rows != [] {
      var n := |rows| - 1;
      CompletedMeans(rows[..n], user, lesson, activity);
      if activity in Completed(rows[..n], user, lesson) {
        var i :| 0 <= i < n && CompletesIn(rows[..n][i], user, lesson, activity);
        assert CompletesIn(rows[i], user, lesson, activity);
      }
      if i :| 0 <= i < |rows| && CompletesIn(rows[i], user, lesson, activity) {
        if i < n { assert CompletesIn(rows[..n][i], user, lesson, activity); }
      }
    }
  }
}
