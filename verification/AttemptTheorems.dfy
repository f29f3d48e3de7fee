/**
 What concurrent submits keep in every interleaving: one row per user and key,
 progress effects exactly once, one answer per key, and every lease settled.
 */
module AttemptTheorems {
  import opened Basics
  import opened AttemptStore
  import opened AttemptProtocol
  import L = RateLimiter

  // ---------------------------------------------------------------- the rows

  ghost predicate Unique(rows: seq<Row>) {
    forall i, j | 0 <= i < j < |rows| :: !(rows[i].user == rows[j].user && rows[i].key == rows[j].key)
  }

  /** A row of this user and key holds this hash and this response. */
  ghost predicate Answers(rows: seq<Row>, sub: Submission, response: Response) {
    exists i :: 0 <= i < |rows| && rows[i].user == sub.user && rows[i].key == sub.key
                && rows[i].hash == sub.hash && rows[i].response == response
  }

  ghost predicate IsStored(rows: seq<Row>, sub: Submission, row: Row) {
    row in rows && row.user == sub.user && row.key == sub.key
  }

  ghost predicate CompletionOk(p: Progress) {
    p.completed != [] && (p.next.None? <==> p.completedAt.Some?)
  }

  ghost predicate ProgressOk(db: Db) {
    && (forall u, l :: db.Ids(u, l) == Completed(db.rows, u, l))
    && (forall k | k in db.progress :: CompletionOk(db.progress[k]))
  }

  ghost predicate DaysOk(db: Db, dates: seq<Date>) {
    && |dates| == |db.rows|
    && (forall u, d :: db.Count(u, d) == CompletedOn(db.rows, dates, u, d))
  }

  ghost predicate DbOk(db: Db, dates: seq<Date>) {
    Unique(db.rows) && ProgressOk(db) && DaysOk(db, dates)
  }

  // ---------------------------------------------------------------- the tasks

  /** A draft still fits the tables it was computed from. */
  ghost predicate Fits(db: Db, sub: Submission, ev: Evaluation, draft: Draft) {
    var row := draft.row;
    && row.user == sub.user && row.key == sub.key && row.hash == sub.hash
    && row.response.lesson == ev.lesson && row.response.activityId == ev.activityId && row.response.correct == ev.correct
    && (draft.awarded <==> ev.correct && ev.activityId !in db.Ids(sub.user, ev.lesson))
    && (draft.awarded ==>
          && row.response.progress.completed == db.Ids(sub.user, ev.lesson) + [ev.activityId]
          && CompletionOk(row.response.progress))
  }

  ghost predicate TaskOk(db: Db, task: Task) {
    match task
    case Looked(sub, Some(row)) => IsStored(db.rows, sub, row)
    case Ready(sub, _, ev, draft) => Fits(db, sub, ev, draft)
    case Written(sub, _, response) => Answers(db.rows, sub, response)
    case Conflicted(sub, _, genuine) => genuine ==> db.Has(sub.user, sub.key)
    case Recovered(sub, _, Some(row)) => IsStored(db.rows, sub, row)
    case Ended(sub, Ok(response)) => Answers(db.rows, sub, response)
    case _ => true
  }

  ghost predicate TasksOk(db: Db, tasks: seq<Task>) {
    forall i | 0 <= i < |tasks| :: TaskOk(db, tasks[i])
  }

  ghost predicate Exclusive(a: Task, b: Task) {
    (a.Locked? || a.Ready?) && (b.Locked? || b.Ready?) ==> a.sub.user != b.sub.user || a.ev.lesson != b.ev.lesson
  }

  ghost predicate LocksOk(tasks: seq<Task>) {
    forall i, j | 0 <= i < j < |tasks| :: Exclusive(tasks[i], tasks[j])
  }

  ghost predicate Carries(task: Task, lease: nat) {
    task.HasLease() && task.lease == lease
  }

  ghost predicate Carried(tasks: seq<Task>, lease: nat) {
    exists i :: 0 <= i < |tasks| && Carries(tasks[i], lease)
  }

  ghost predicate Apart(a: Task, b: Task) {
    a.HasLease() && b.HasLease() ==> a.lease != b.lease
  }

  /** The unsettled leases are exactly those some submit still carries, each carried once. */
  ghost predicate LeasesOk(leases: seq<L.Lease>, tasks: seq<Task>) {
    && (forall i | 0 <= i < |tasks| && tasks[i].HasLease() :: tasks[i].lease < |leases| && !leases[tasks[i].lease].settled)
    && (forall i, j | 0 <= i < j < |tasks| :: Apart(tasks[i], tasks[j]))
    && (forall k | 0 <= k < |leases| && !leases[k].settled :: Carried(tasks, k))
  }

  ghost predicate Invariant(s: State) {
    DbOk(s.db, s.dates) && TasksOk(s.db, s.tasks) && LocksOk(s.tasks) && LeasesOk(s.limiter.leases, s.tasks)
  }

  // ---------------------------------------------------------------- one task moves on

  lemma MoveTask(db: Db, leases: seq<L.Lease>, tasks: seq<Task>, t: nat, task: Task)
    requires t < |tasks| && TasksOk(db, tasks) && LocksOk(tasks) && LeasesOk(leases, tasks)
    requires TaskOk(db, task)
    requires task.HasLease() == tasks[t].HasLease() && (task.HasLease() ==> task.lease == tasks[t].lease)
    requires task.Locked? || task.Ready? ==>
      || ((tasks[t].Locked? || tasks[t].Ready?) && task.sub == tasks[t].sub && task.ev == tasks[t].ev)
      || !IsLocked(tasks, task.sub.user, task.ev.lesson)
    ensures TasksOk(db, tasks[t := task]) && LocksOk(tasks[t := task]) && LeasesOk(leases, tasks[t := task])
  {
    var tasks' := tasks[t := task];
    forall i, j | 0 <= i < j < |tasks'| ensures Exclusive(tasks'[i], tasks'[j]) {
      assert Exclusive(tasks[i], tasks[j]);
      if task.Locked? || task.Ready? {
        var o := if i == t then j else i;
        if !IsLocked(tasks, task.sub.user, task.ev.lesson) { assert !tasks[o].HoldsLock(task.sub.user, task.ev.lesson); }
      }
    }
    LeasesMove(leases, tasks, t, task);
  }

  lemma LeasesMove(leases: seq<L.Lease>, tasks: seq<Task>, t: nat, task: Task)
    requires t < |tasks| && LeasesOk(leases, tasks)
    requires task.HasLease() == tasks[t].HasLease() && (task.HasLease() ==> task.lease == tasks[t].lease)
    ensures LeasesOk(leases, tasks[t := task])
  {
    var tasks' := tasks[t := task];
    forall i, j | 0 <= i < j < |tasks'| ensures Apart(tasks'[i], tasks'[j]) { assert Apart(tasks[i], tasks[j]); }
    forall k | 0 <= k < |leases| && !leases[k].settled ensures Carried(tasks', k) {
      assert Carried(tasks, k);
      var i :| 0 <= i < |tasks| && Carries(tasks[i], k);
      assert Carries(tasks'[i], k);
    }
  }

  /** A submit that holds no lock and no lease takes its place. */
  lemma EndTask(db: Db, tasks: seq<Task>, t: nat, task: Task)
    requires t < |tasks| && TasksOk(db, tasks) && LocksOk(tasks) && TaskOk(db, task) && !task.Locked? && !task.Ready?
    ensures TasksOk(db, tasks[t := task]) && LocksOk(tasks[t := task])
  {
    var tasks' := tasks[t := task];
    forall i, j | 0 <= i < j < |tasks'| ensures Exclusive(tasks'[i], tasks'[j]) { assert Exclusive(tasks[i], tasks[j]); }
  }

  lemma LeaseTaken(leases: seq<L.Lease>, lease: L.Lease, tasks: seq<Task>, t: nat, task: Task)
    requires t < |tasks| && LeasesOk(leases, tasks) && !tasks[t].HasLease() && Carries(task, |leases|) && !lease.settled
    ensures LeasesOk(leases + [lease], tasks[t := task])
  {
    var tasks' := tasks[t := task];
    forall i, j | 0 <= i < j < |tasks'| ensures Apart(tasks'[i], tasks'[j]) { assert Apart(tasks[i], tasks[j]); }
    forall k | 0 <= k < |leases| + 1 && !(leases + [lease])[k].settled ensures Carried(tasks', k) {
      if k < |leases| {
        assert Carried(tasks, k);
        var i :| 0 <= i < |tasks| && Carries(tasks[i], k);
        assert Carries(tasks'[i], k);
      } else {
        assert Carries(tasks'[t], k);
      }
    }
  }

  lemma LeaseSettled(leases: seq<L.Lease>, tasks: seq<Task>, t: nat, task: Task)
    requires t < |tasks| && LeasesOk(leases, tasks) && tasks[t].HasLease() && !task.HasLease()
    ensures tasks[t].lease < |leases|
    ensures LeasesOk(leases[tasks[t].lease := leases[tasks[t].lease].(settled := true)], tasks[t := task])
  {
    var lease := tasks[t].lease;
    var leases' := leases[lease := leases[lease].(settled := true)];
    var tasks' := tasks[t := task];
    forall i, j | 0 <= i < j < |tasks'| ensures Apart(tasks'[i], tasks'[j]) { assert Apart(tasks[i], tasks[j]); }
    forall i | 0 <= i < |tasks'| && tasks'[i].HasLease() ensures tasks'[i].lease < |leases'| && !leases'[tasks'[i].lease].settled {
      if i < t { assert Apart(tasks[i], tasks[t]); } else { assert Apart(tasks[t], tasks[i]); }
    }
    forall k | 0 <= k < |leases'| && !leases'[k].settled ensures Carried(tasks', k) {
      assert Carried(tasks, k);
      var i :| 0 <= i < |tasks| && Carries(tasks[i], k);
      assert Carries(tasks'[i], k);
    }
  }

  lemma EndKeepsInvariant(s: State, t: nat, lease: nat, task: Task)
    requires Invariant(s) && t < |s.tasks| && Carries(s.tasks[t], lease)
    requires task.Ended? && TaskOk(s.db, task)
    ensures Invariant(Put(Settle(s, lease), t, task))
  {
    EndTask(s.db, s.tasks, t, task);
    LeaseSettled(s.limiter.leases, s.tasks, t, task);
  }

  lemma MoveKeepsInvariant(s: State, t: nat, task: Task)
    requires Invariant(s) && t < |s.tasks| && TaskOk(s.db, task)
    requires task.HasLease() == s.tasks[t].HasLease() && (task.HasLease() ==> task.lease == s.tasks[t].lease)
    requires task.Locked? || task.Ready? ==>
      || ((s.tasks[t].Locked? || s.tasks[t].Ready?) && task.sub == s.tasks[t].sub && task.ev == s.tasks[t].ev)
      || !IsLocked(s.tasks, task.sub.user, task.ev.lesson)
    ensures Invariant(Put(s, t, task))
  {
    MoveTask(s.db, s.limiter.leases, s.tasks, t, task);
  }

  // ---------------------------------------------------------------- commits

  lemma CompletedAppend(rows: seq<Row>, row: Row, user: User, lesson: Id)
    ensures Completed(rows + [row], user, lesson) ==
      if CompletesIn(row, user, lesson, row.response.activityId) && row.response.activityId !in Completed(rows, user, lesson)
      then Completed(rows, user, lesson) + [row.response.activityId]
      else Completed(rows, user, lesson)
  {
    assert (rows + [row])[..|rows|] == rows;
  }

  lemma CompletedOnAppend(rows: seq<Row>, dates: seq<Date>, row: Row, date: Date, user: User, day: Date)
    requires |dates| == |rows|
    ensures CompletedOn(rows + [row], dates + [date], user, day) == CompletedOn(rows, dates, user, day)
      + (if row.user == user && date == day && row.response.correct
            && row.response.activityId !in Completed(rows, row.user, row.response.lesson) then 1 else 0)
  {
    assert (rows + [row])[..|rows|] == rows && (dates + [date])[..|rows|] == dates;
  }

  lemma CommitKeepsDb(db: Db, dates: seq<Date>, sub: Submission, ev: Evaluation, draft: Draft)
    requires DbOk(db, dates) && Fits(db, sub, ev, draft) && !db.Has(sub.user, sub.key)
    ensures DbOk(Committed(db, draft), dates + [draft.date])
  {
    var db' := Committed(db, draft);
    var row := draft.row;
    forall u, l ensures db'.Ids(u, l) == Completed(db'.rows, u, l) { CompletedAppend(db.rows, row, u, l); }
    forall u, d ensures db'.Count(u, d) == CompletedOn(db'.rows, dates + [draft.date], u, d) {
      CompletedOnAppend(db.rows, dates, row, draft.date, u, d);
    }
  }

  lemma RowsGrow(rows: seq<Row>, row: Row, task: Task, db: Db, db': Db)
    requires db.rows == rows && db'.rows == rows + [row] && TaskOk(db, task) && !task.Ready?
    ensures TaskOk(db', task)
  {
    match task
    case Written(sub, _, response) => AnswersGrow(rows, row, sub, response);
    case Ended(sub, Ok(response)) => AnswersGrow(rows, row, sub, response);
    case Conflicted(sub, _, genuine) =>
      if genuine {
        var i :| 0 <= i < |rows| && rows[i].user == sub.user && rows[i].key == sub.key;
        assert db'.rows[i] == rows[i];
      }
    case _ =>
  }

  lemma AnswersGrow(rows: seq<Row>, row: Row, sub: Submission, response: Response)
    requires Answers(rows, sub, response)
    ensures Answers(rows + [row], sub, response)
  {
    var i :| 0 <= i < |rows| && rows[i].user == sub.user && rows[i].key == sub.key
             && rows[i].hash == sub.hash && rows[i].response == response;
    assert (rows + [row])[i] == rows[i];
  }

  /** The lesson lock: no one else's draft is about the lesson whose progress this commit replaces. */
  lemma CommitKeepsOthers(s: State, t: nat, sub: Submission, lease: nat, ev: Evaluation, draft: Draft, i: nat)
    requires TasksOk(s.db, s.tasks) && LocksOk(s.tasks) && t < |s.tasks| && s.tasks[t] == Ready(sub, lease, ev, draft)
    requires i < |s.tasks| && i != t
    ensures TaskOk(Committed(s.db, draft), s.tasks[i])
  {
    var db' := Committed(s.db, draft);
    assert TaskOk(s.db, s.tasks[t]) && TaskOk(s.db, s.tasks[i]);
    if s.tasks[i].Ready? {
      if i < t { assert Exclusive(s.tasks[i], s.tasks[t]); } else { assert Exclusive(s.tasks[t], s.tasks[i]); }
      assert db'.Ids(s.tasks[i].sub.user, s.tasks[i].ev.lesson) == s.db.Ids(s.tasks[i].sub.user, s.tasks[i].ev.lesson);
    } else {
      RowsGrow(s.db.rows, draft.row, s.tasks[i], s.db, db');
    }
  }

  lemma CommitKeepsInvariant(s: State, t: nat, sub: Submission, lease: nat, ev: Evaluation, draft: Draft, acknowledged: bool)
    requires Invariant(s) && t < |s.tasks| && s.tasks[t] == Ready(sub, lease, ev, draft)
    ensures Invariant(CommitStep(s, t, sub, lease, draft, acknowledged))
  {
    assert TaskOk(s.db, s.tasks[t]);
    if s.db.Has(sub.user, sub.key) { MoveKeepsInvariant(s, t, Conflicted(sub, lease, true)); }
    else {
      var s' := CommitStep(s, t, sub, lease, draft, acknowledged);
      CommitKeepsDb(s.db, s.dates, sub, ev, draft);
      LeasesMove(s.limiter.leases, s.tasks, t, s'.tasks[t]);
      forall i | 0 <= i < |s'.tasks| ensures TaskOk(s'.db, s'.tasks[i]) {
        if i == t { NewRowAnswers(s.db.rows, draft.row, sub); } else { CommitKeepsOthers(s, t, sub, lease, ev, draft, i); }
      }
      EndLock(s.tasks, t, s'.tasks[t]);
    }
  }

  lemma NewRowAnswers(rows: seq<Row>, row: Row, sub: Submission)
    requires row.user == sub.user && row.key == sub.key && row.hash == sub.hash
    ensures Answers(rows + [row], sub, row.response)
  {
    assert (rows + [row])[|rows|] == row;
  }

  lemma EndLock(tasks: seq<Task>, t: nat, task: Task)
    requires t < |tasks| && LocksOk(tasks) && !task.Locked? && !task.Ready?
    ensures LocksOk(tasks[t := task])
  {
    var tasks' := tasks[t := task];
    forall i, j | 0 <= i < j < |tasks'| ensures Exclusive(tasks'[i], tasks'[j]) { assert Exclusive(tasks[i], tasks[j]); }
  }

  // ---------------------------------------------------------------- every step

  lemma AdmitKeepsInvariant(s: State, t: nat, sub: Submission, found: Option<Row>, elapsed: L.Time)
    requires Invariant(s) && t < |s.tasks| && s.tasks[t] == Looked(sub, found)
    ensures Invariant(AdmitStep(s, t, sub, found, elapsed))
  {
    assert TaskOk(s.db, s.tasks[t]);
    var s' := AdmitStep(s, t, sub, found, elapsed);
    if found.Some? {
      ReplayIsOk(s.db, sub, found.value);
      MoveKeepsInvariant(s, t, s'.tasks[t]);
    } else {
      var now := L.Later(s.limiter.now, elapsed);
      var decision := s.limiter.limiter.CheckAndConsume(sub.user, sub.key, now).1;
      EndTask(s.db, s.tasks, t, s'.tasks[t]);
      if decision.Allowed? {
        LeaseTaken(s.limiter.leases, decision.lease, s.tasks, t, s'.tasks[t]);
      } else {
        LeasesMove(s.limiter.leases, s.tasks, t, s'.tasks[t]);
      }
    }
  }

  lemma ReplayIsOk(db: Db, sub: Submission, row: Row)
    requires IsStored(db.rows, sub, row)
    ensures TaskOk(db, Ended(sub, Replay(sub, row)))
  {
    var i :| 0 <= i < |db.rows| && db.rows[i] == row;
  }

  lemma BreakKeepsInvariant(s: State, t: nat, uniqueViolation: bool)
    requires Invariant(s) && t < |s.tasks|
    ensures Invariant(BreakStep(s, t, uniqueViolation))
  {
    match s.tasks[t]
    case Conflicted(sub, lease, _) => EndKeepsInvariant(s, t, lease, Ended(sub, Err(Fault)));
    case Looking(sub) => MoveKeepsInvariant(s, t, Ended(sub, Err(Fault)));
    case Admitted(sub, lease) => MoveKeepsInvariant(s, t, Failing(sub, lease, Fault));
    case Evaluating(sub, lease, _) => MoveKeepsInvariant(s, t, Broken(sub, lease, uniqueViolation));
    case Locking(sub, lease, _, _) => MoveKeepsInvariant(s, t, Broken(sub, lease, uniqueViolation));
    case Locked(sub, lease, _, _) => MoveKeepsInvariant(s, t, Broken(sub, lease, uniqueViolation));
    case Ready(sub, lease, _, _) => MoveKeepsInvariant(s, t, Broken(sub, lease, uniqueViolation));
    case _ =>
  }

  lemma TaskIsOk(s: State, t: nat)
    requires Invariant(s) && t < |s.tasks|
    ensures TaskOk(s.db, s.tasks[t])
  {
  }

  lemma DoKeepsInvariant(s: State, t: nat, move: Move)
    requires Invariant(s)
    ensures Invariant(DoStep(s, t, move))
  {
    hide Invariant;
    if t < |s.tasks| {
      var s' := DoStep(s, t, move);
      if move.Break? { BreakKeepsInvariant(s, t, move.uniqueViolation); }
      else {
        TaskIsOk(s, t);
        match (s.tasks[t], move)
        case (Looking(sub), Perform) =>
          LookupFinds(s.db.rows, sub.user, sub.key);
          MoveKeepsInvariant(s, t, Looked(sub, Lookup(s.db.rows, sub.user, sub.key)));
        case (Looked(sub, found), Admit(elapsed)) => AdmitKeepsInvariant(s, t, sub, found, elapsed);
        case (Admitted(sub, lease), Entitle(keys)) => MoveKeepsInvariant(s, t, Evaluating(sub, lease, keys));
        case (Evaluating(sub, lease, keys), Judge(catalog)) => MoveKeepsInvariant(s, t, s'.tasks[t]);
        case (Locking(sub, lease, keys, ev), Lock) =>
          if !IsLocked(s.tasks, sub.user, ev.lesson) { MoveKeepsInvariant(s, t, Locked(sub, lease, keys, ev)); }
        case (Locked(sub, lease, keys, ev), Compute(catalog, attemptId, date)) => MoveKeepsInvariant(s, t, s'.tasks[t]);
        case (Ready(sub, lease, ev, draft), Commit(acknowledged)) =>
          CommitKeepsInvariant(s, t, sub, lease, ev, draft, acknowledged);
        case (Written(sub, lease, response), Perform) => EndKeepsInvariant(s, t, lease, Ended(sub, Ok(response)));
        case (Conflicted(sub, lease, _), Perform) =>
          LookupFinds(s.db.rows, sub.user, sub.key);
          MoveKeepsInvariant(s, t, Recovered(sub, lease, Lookup(s.db.rows, sub.user, sub.key)));
        case (Recovered(sub, lease, found), Perform) => RecoverKeepsInvariant(s, t, sub, lease, found);
        case (Failing(sub, lease, failure), Perform) => EndKeepsInvariant(s, t, lease, Ended(sub, Err(failure)));
        case _ =>
      }
    }
  }

  lemma RecoverKeepsInvariant(s: State, t: nat, sub: Submission, lease: nat, found: Option<Row>)
    requires Invariant(s) && t < |s.tasks| && s.tasks[t] == Recovered(sub, lease, found)
    ensures Invariant(RecoverStep(s, t, sub, lease, found))
  {
    assert TaskOk(s.db, s.tasks[t]);
    if found.Some? { ReplayIsOk(s.db, sub, found.value); }
    EndKeepsInvariant(s, t, lease, RecoverStep(s, t, sub, lease, found).tasks[t]);
  }

  lemma SubmitKeepsInvariant(s: State, sub: Submission)
    requires Invariant(s)
    ensures Invariant(Step(s, Submit(sub)))
  {
    var s' := Step(s, Submit(sub));
    forall k | 0 <= k < |s.limiter.leases| && !s.limiter.leases[k].settled ensures Carried(s'.tasks, k) {
      assert Carried(s.tasks, k);
      var i :| 0 <= i < |s.tasks| && Carries(s.tasks[i], k);
      assert Carries(s'.tasks[i], k);
    }
  }

  lemma StepKeepsInvariant(s: State, a: Action)
    requires Invariant(s)
    ensures Invariant(Step(s, a))
  {
    match a
    case Submit(sub) => SubmitKeepsInvariant(s, sub);
    case Do(t, move) => DoKeepsInvariant(s, t, move);
  }

  lemma {:induction false} RunKeepsInvariant(limit: int, windowMs: L.Time, actions: seq<Action>)
    ensures Invariant(Run(Initial(limit, windowMs), actions))
    decreases |actions|
  {
    if actions != [] {
      RunKeepsInvariant(limit, windowMs, actions[..|actions| - 1]);
      StepKeepsInvariant(Run(Initial(limit, windowMs), actions[..|actions| - 1]), actions[|actions| - 1]);
    }
  }
}
