/**
 The headline properties of concurrent learning attempts, over every run.
 */
module AttemptTotals {
  import opened Basics
  import opened AttemptStore
  import opened AttemptProtocol
  import opened AttemptTheorems
  import L = RateLimiter

  // ---------------------------------------------------------------- one row, one answer

  /** At most one attempt row exists for a user and key. */
  lemma OneRowPerKey(limit: int, windowMs: L.Time, actions: seq<Action>)
    ensures var rows := Run(Initial(limit, windowMs), actions).db.rows;
      forall i, j | 0 <= i < |rows| && 0 <= j < |rows| && rows[i].user == rows[j].user && rows[i].key == rows[j].key :: i == j
  {
    RunKeepsInvariant(limit, windowMs, actions);
  }

  /** A recorded attempt stays, unchanged and in place. */
  lemma RowsStay(s: State, a: Action)
    ensures |s.db.rows| <= |Step(s, a).db.rows| && Step(s, a).db.rows[..|s.db.rows|] == s.db.rows
  {
  }

  /**
   Every submit that succeeds returns the response of the one row of its user and
   key, and was sent with that row's request hash.
   */
  lemma SuccessIsTheStoredResponse(limit: int, windowMs: L.Time, actions: seq<Action>, t: nat, i: nat)
    ensures var s := Run(Initial(limit, windowMs), actions);
      t < |s.tasks| && s.tasks[t].Ended? && s.tasks[t].outcome.Ok? ==>
        && s.db.Has(s.tasks[t].sub.user, s.tasks[t].sub.key)
        && (i < |s.db.rows| && s.db.rows[i].user == s.tasks[t].sub.user && s.db.rows[i].key == s.tasks[t].sub.key ==>
              s.db.rows[i].hash == s.tasks[t].sub.hash && s.db.rows[i].response == s.tasks[t].outcome.value)
  {
    RunKeepsInvariant(limit, windowMs, actions);
    var s := Run(Initial(limit, windowMs), actions);
    if t < |s.tasks| && s.tasks[t].Ended? && s.tasks[t].outcome.Ok? {
      assert TaskOk(s.db, s.tasks[t]);
    }
  }

  /** Of two submits with one user and key, different request hashes never both succeed. */
  lemma DifferentHashesNeverBothSucceed(limit: int, windowMs: L.Time, actions: seq<Action>, t: nat, u: nat)
    ensures var s := Run(Initial(limit, windowMs), actions);
      && t < |s.tasks| && s.tasks[t].Ended? && s.tasks[t].outcome.Ok?
      && u < |s.tasks| && s.tasks[u].Ended? && s.tasks[u].outcome.Ok?
      && s.tasks[t].sub.user == s.tasks[u].sub.user && s.tasks[t].sub.key == s.tasks[u].sub.key ==>
        s.tasks[t].sub.hash == s.tasks[u].sub.hash && s.tasks[t].outcome == s.tasks[u].outcome
  {
    RunKeepsInvariant(limit, windowMs, actions);
    var s := Run(Initial(limit, windowMs), actions);
    if t < |s.tasks| && s.tasks[t].Ended? && s.tasks[t].outcome.Ok? {
      assert TaskOk(s.db, s.tasks[t]);
      var i :| 0 <= i < |s.db.rows| && s.db.rows[i].user == s.tasks[t].sub.user && s.db.rows[i].key == s.tasks[t].sub.key
               && s.db.rows[i].hash == s.tasks[t].sub.hash && s.db.rows[i].response == s.tasks[t].outcome.value;
      if u < |s.tasks| { SuccessIsTheStoredResponse(limit, windowMs, actions, u, i); }
    }
  }

  /** Whoever lost a race to a committed winner gets the winner's response, or a conflict if it asked for something else. */
  lemma LosersFindTheWinner(limit: int, windowMs: L.Time, actions: seq<Action>, t: nat)
    ensures var s := Run(Initial(limit, windowMs), actions);
      t < |s.tasks| && s.tasks[t].Conflicted? && s.tasks[t].genuine ==>
        exists row :: IsStored(s.db.rows, s.tasks[t].sub, row)
          && Step(Step(s, Do(t, Perform)), Do(t, Perform)).tasks[t] == Ended(s.tasks[t].sub, Replay(s.tasks[t].sub, row))
  {
    RunKeepsInvariant(limit, windowMs, actions);
    var s := Run(Initial(limit, windowMs), actions);
    if t < |s.tasks| && s.tasks[t].Conflicted? && s.tasks[t].genuine {
      assert TaskOk(s.db, s.tasks[t]);
      LookupFinds(s.db.rows, s.tasks[t].sub.user, s.tasks[t].sub.key);
      var row := Lookup(s.db.rows, s.tasks[t].sub.user, s.tasks[t].sub.key).value;
      assert IsStored(s.db.rows, s.tasks[t].sub, row);
    }
  }

  /** A repeated submit replays the stored response and touches neither the tables nor the limiter. */
  lemma ReplayChangesNothing(limit: int, windowMs: L.Time, actions: seq<Action>, sub: Submission, row: Row, elapsed: L.Time)
    requires IsStored(Run(Initial(limit, windowMs), actions).db.rows, sub, row)
    ensures var s := Run(Initial(limit, windowMs), actions);
      var s' := Step(Step(Step(s, Submit(sub)), Do(|s.tasks|, Perform)), Do(|s.tasks|, Admit(elapsed)));
      s' == s.(tasks := s.tasks + [Ended(sub, if row.hash == sub.hash then Ok(row.response) else Err(IdempotencyConflict))])
  {
    var s := Run(Initial(limit, windowMs), actions);
    RunKeepsInvariant(limit, windowMs, actions);
    LookupFinds(s.db.rows, sub.user, sub.key);
    var found := Lookup(s.db.rows, sub.user, sub.key);
    assert found == Some(row) by { SameRow(s.db.rows, sub, found.value, row); }
    var s1 := Step(s, Submit(sub));
    var s2 := Step(s1, Do(|s.tasks|, Perform));
    assert s2.tasks == s.tasks + [Looked(sub, Some(row))];
  }

  lemma SameRow(rows: seq<Row>, sub: Submission, a: Row, b: Row)
    requires Unique(rows) && IsStored(rows, sub, a) && IsStored(rows, sub, b)
    ensures a == b
  {
    var i :| 0 <= i < |rows| && rows[i] == a;
    var j :| 0 <= j < |rows| && rows[j] == b;
  }

  // ---------------------------------------------------------------- effects exactly once

  /**
   The tables are a function of the committed rows: an activity is completed iff a
   row answers it correctly, it is listed once, and it is counted on the date of
   its first correct row and on no other. Losers and failures leave no trace.
   */
  lemma EffectsHappenOnce(limit: int, windowMs: L.Time, actions: seq<Action>, user: User, lesson: Id, activity: Id, date: Date)
    ensures var s := Run(Initial(limit, windowMs), actions);
      var ids := s.db.Ids(user, lesson);
      && (activity in ids <==> exists i :: 0 <= i < |s.db.rows| && CompletesIn(s.db.rows[i], user, lesson, activity))
      && (forall i, j | 0 <= i < j < |ids| :: ids[i] != ids[j])
      && |s.dates| == |s.db.rows| && s.db.Count(user, date) == CompletedOn(s.db.rows, s.dates, user, date)
  {
    RunKeepsInvariant(limit, windowMs, actions);
    CompletedMeans(Run(Initial(limit, windowMs), actions).db.rows, user, lesson, activity);
  }

  /** A lesson is marked completed exactly when no published activity is left. */
  lemma CompletionIsMarked(limit: int, windowMs: L.Time, actions: seq<Action>, user: User, lesson: Id)
    ensures var db := Run(Initial(limit, windowMs), actions).db;
      (user, lesson) in db.progress ==>
        (db.progress[(user, lesson)].next.None? <==> db.progress[(user, lesson)].completedAt.Some?)
  {
    RunKeepsInvariant(limit, windowMs, actions);
  }

  // ---------------------------------------------------------------- totals

  ghost function Sum<K>(m: map<K, nat>): nat
    decreases |m.Keys|
  {
    if m == map[] then 0
    else
      var k :| k in m;
      m[k] + Sum(m - {k})
  }

  lemma {:induction false} SumWithout<K>(m: map<K, nat>, k: K)
    requires k in m
    ensures Sum(m) == m[k] + Sum(m - {k})
    decreases |m.Keys|
  {
    assert m.Keys != {};
    var o :| o in m && Sum(m) == m[o] + Sum(m - {o});
    if o != k {
      SumWithout(m - {o}, k);
      SumWithout(m - {k}, o);
      assert (m - {o}) - {k} == (m - {k}) - {o};
    }
  }

  lemma SumUpdate<K>(m: map<K, nat>, k: K, v: nat)
    ensures Sum(m[k := v]) == Sum(m) - (if k in m then m[k] else 0) + v
  {
    SumWithout(m[k := v], k);
    assert m[k := v] - {k} == m - {k};
    if k in m { SumWithout(m, k); } else { assert m - {k} == m; }
  }

  ghost function DaysOf(db: Db, user: User): map<Date, nat> {
    map k | k in db.days && k.0 == user :: k.1 := db.days[k]
  }

  ghost function LessonsOf(db: Db, user: User): map<Id, nat> {
    map k | k in db.progress && k.0 == user :: k.1 := |db.progress[k].completed|
  }

  ghost predicate TotalsAgree(db: Db) {
    forall user :: Sum(DaysOf(db, user)) == Sum(LessonsOf(db, user))
  }

  lemma AwardMovesDays(db: Db, draft: Draft, user: User)
    requires draft.awarded
    ensures Sum(DaysOf(Committed(db, draft), user)) == Sum(DaysOf(db, user)) + (if user == draft.row.user then 1 else 0)
  {
    hide Sum;
    var db' := Committed(db, draft);
    if user == draft.row.user {
      assert DaysOf(db', user) == DaysOf(db, user)[draft.date := db.Count(user, draft.date) + 1];
      SumUpdate(DaysOf(db, user), draft.date, db.Count(user, draft.date) + 1);
    } else {
      assert DaysOf(db', user) == DaysOf(db, user);
    }
  }

  lemma AwardMovesLessons(db: Db, draft: Draft, user: User)
    requires draft.awarded
    requires |draft.row.response.progress.completed| == |db.Ids(draft.row.user, draft.row.response.lesson)| + 1
    ensures Sum(LessonsOf(Committed(db, draft), user)) == Sum(LessonsOf(db, user)) + (if user == draft.row.user then 1 else 0)
  {
    hide Sum;
    var db' := Committed(db, draft);
    var lesson := draft.row.response.lesson;
    hide LessonsOf;
    if user == draft.row.user {
      LessonMoves(db, db', user, lesson, draft.row.response.progress);
      SumUpdate(LessonsOf(db, user), lesson, |db.Ids(user, lesson)| + 1);
      LessonCount(db, user, lesson);
    } else {
      OtherLessonsStay(db, db', user, draft.row.user, lesson, draft.row.response.progress);
    }
  }

  lemma LessonMoves(db: Db, db': Db, user: User, lesson: Id, p: Progress)
    requires db'.progress == db.progress[(user, lesson) := p]
    ensures LessonsOf(db', user) == LessonsOf(db, user)[lesson := |p.completed|]
  {
  }

  lemma LessonCount(db: Db, user: User, lesson: Id)
    ensures (if lesson in LessonsOf(db, user) then LessonsOf(db, user)[lesson] else 0) == |db.Ids(user, lesson)|
  {
  }

  lemma OtherLessonsStay(db: Db, db': Db, user: User, other: User, lesson: Id, p: Progress)
    requires db'.progress == db.progress[(other, lesson) := p] && user != other
    ensures LessonsOf(db', user) == LessonsOf(db, user)
  {
  }

  lemma CommittedTotals(db: Db, draft: Draft)
    requires TotalsAgree(db)
    requires draft.awarded ==>
      |draft.row.response.progress.completed| == |db.Ids(draft.row.user, draft.row.response.lesson)| + 1
    ensures TotalsAgree(Committed(db, draft))
  {
    var db' := Committed(db, draft);
    forall user ensures Sum(DaysOf(db', user)) == Sum(LessonsOf(db', user)) {
      hide Committed, Sum, DaysOf, LessonsOf;
      assert Sum(DaysOf(db, user)) == Sum(LessonsOf(db, user));
      if draft.awarded { AwardMovesDays(db, draft, user); AwardMovesLessons(db, draft, user); }
      else { NothingMoves(db, draft, user); }
    }
  }

  lemma NothingMoves(db: Db, draft: Draft, user: User)
    requires !draft.awarded
    ensures DaysOf(Committed(db, draft), user) == DaysOf(db, user) && LessonsOf(Committed(db, draft), user) == LessonsOf(db, user)
  {
  }

  lemma CommitKeepsTotals(s: State, t: nat, sub: Submission, lease: nat, ev: Evaluation, draft: Draft, acknowledged: bool)
    requires TasksOk(s.db, s.tasks) && t < |s.tasks| && s.tasks[t] == Ready(sub, lease, ev, draft) && TotalsAgree(s.db)
    ensures TotalsAgree(CommitStep(s, t, sub, lease, draft, acknowledged).db)
  {
    hide TotalsAgree, Committed;
    assert TaskOk(s.db, s.tasks[t]);
    CommittedTotals(s.db, draft);
  }

  lemma StepKeepsTotals(s: State, a: Action)
    requires TasksOk(s.db, s.tasks) && TotalsAgree(s.db)
    ensures TotalsAgree(Step(s, a).db)
  {
    hide TotalsAgree;
    if a.Do? && a.task < |s.tasks| && a.move.Commit? && s.tasks[a.task].Ready? {
      var task := s.tasks[a.task];
      CommitKeepsTotals(s, a.task, task.sub, task.lease, task.ev, task.draft, a.move.acknowledged);
    } else {
      assert Step(s, a).db == s.db;
    }
  }

  /** For every user the practice-day counts add up to the number of completed activities over all lessons. */
  lemma {:induction false} PracticeDaysCountCompletions(limit: int, windowMs: L.Time, actions: seq<Action>, user: User)
    ensures var db := Run(Initial(limit, windowMs), actions).db; Sum(DaysOf(db, user)) == Sum(LessonsOf(db, user))
  {
    TotalsAlwaysAgree(limit, windowMs, actions);
  }

  lemma {:induction false} TotalsAlwaysAgree(limit: int, windowMs: L.Time, actions: seq<Action>)
    ensures TotalsAgree(Run(Initial(limit, windowMs), actions).db)
    decreases |actions|
  {
    if actions == [] {
      forall user ensures Sum(DaysOf(Db([], map[], map[]), user)) == Sum(LessonsOf(Db([], map[], map[]), user)) {
        assert DaysOf(Db([], map[], map[]), user) == map[] && LessonsOf(Db([], map[], map[]), user) == map[];
      }
    } else {
      var before := actions[..|actions| - 1];
      TotalsAlwaysAgree(limit, windowMs, before);
      RunKeepsInvariant(limit, windowMs, before);
      StepKeepsTotals(Run(Initial(limit, windowMs), before), actions[|actions| - 1]);
    }
  }

  // ---------------------------------------------------------------- leases

  ghost predicate Positive(l: L.Limiter) {
    forall k | k in l.inFlight :: l.inFlight[k].reservations >= 1
  }

  ghost predicate LimiterOk(use: L.Use, limit: int, windowMs: L.Time) {
    && Positive(use.limiter)
    && exists events :: use == L.Uses(L.Fresh(limit, windowMs), events)
  }

  lemma ApplyKeepsPositive(use: L.Use, e: L.Event)
    requires Positive(use.limiter)
    ensures Positive(L.Apply(use, e).limiter)
  {
    hide L.Recent, L.RetryAfter;
  }

  lemma ApplyKeepsLimiter(use: L.Use, e: L.Event, limit: int, windowMs: L.Time)
    requires LimiterOk(use, limit, windowMs)
    ensures LimiterOk(L.Apply(use, e), limit, windowMs)
  {
    ApplyKeepsPositive(use, e);
    hide Positive, L.Apply;
    var events :| use == L.Uses(L.Fresh(limit, windowMs), events);
    var events' := events + [e];
    assert events'[..|events'| - 1] == events;
    assert L.Apply(use, e) == L.Uses(L.Fresh(limit, windowMs), events');
  }

  lemma StepKeepsLimiter(s: State, a: Action, limit: int, windowMs: L.Time)
    requires LimiterOk(s.limiter, limit, windowMs)
    ensures LimiterOk(Step(s, a).limiter, limit, windowMs)
  {
    hide LimiterOk, L.Apply, Lookup, Evaluate, DraftFor, Committed;
    forall e ensures LimiterOk(L.Apply(s.limiter, e), limit, windowMs) { ApplyKeepsLimiter(s.limiter, e, limit, windowMs); }
    assert Step(s, a).limiter == s.limiter || exists e :: Step(s, a).limiter == L.Apply(s.limiter, e);
  }

  lemma {:induction false} RunKeepsLimiter(limit: int, windowMs: L.Time, actions: seq<Action>)
    ensures LimiterOk(Run(Initial(limit, windowMs), actions).limiter, limit, windowMs)
    decreases |actions|
  {
    if actions == [] {
      assert L.Fresh(limit, windowMs) == L.Uses(L.Fresh(limit, windowMs), []);
    } else {
      var before := actions[..|actions| - 1];
      RunKeepsLimiter(limit, windowMs, before);
      StepKeepsLimiter(Run(Initial(limit, windowMs), before), actions[|actions| - 1], limit, windowMs);
    }
  }

  lemma {:induction false} NoneUnsettled(leases: seq<L.Lease>, k: string, stamp: nat)
    requires forall i | 0 <= i < |leases| :: leases[i].settled
    ensures L.Unsettled(leases, k, stamp) == 0
  {
    if leases != [] { NoneUnsettled(leases[..|leases| - 1], k, stamp); }
  }

  /** When every submit has ended, every lease is settled and nothing is left in flight in the limiter. */
  lemma LeasesAreSettled(limit: int, windowMs: L.Time, actions: seq<Action>)
    requires limit >= 1 && windowMs > 0.0
    ensures var s := Run(Initial(limit, windowMs), actions);
      (forall i | 0 <= i < |s.tasks| :: s.tasks[i].Ended?) ==>
        && (forall k | 0 <= k < |s.limiter.leases| :: s.limiter.leases[k].settled)
        && s.limiter.limiter.inFlight == map[]
  {
    var s := Run(Initial(limit, windowMs), actions);
    RunKeepsInvariant(limit, windowMs, actions);
    RunKeepsLimiter(limit, windowMs, actions);
    if forall i | 0 <= i < |s.tasks| :: s.tasks[i].Ended? {
      forall k | 0 <= k < |s.limiter.leases| ensures s.limiter.leases[k].settled {
        assert !Carried(s.tasks, k);
      }
      var events :| s.limiter == L.Uses(L.Fresh(limit, windowMs), events);
      forall k | k in s.limiter.limiter.inFlight ensures false {
        L.ReservationsCountUnsettledLeases(limit, windowMs, events, k);
        NoneUnsettled(s.limiter.leases, k, s.limiter.limiter.inFlight[k].stamp);
      }
    }
  }

  /** However submits interleave, no user is charged more than `limit` admissions in a window. */
  lemma AdmissionsFitEveryWindow(limit: int, windowMs: L.Time, actions: seq<Action>, user: User, t: L.Time)
    requires limit >= 1 && windowMs > 0.0
    ensures L.CountWithin(Run(Initial(limit, windowMs), actions).limiter.Charged(user), t, windowMs) <= limit
  {
    RunKeepsLimiter(limit, windowMs, actions);
    var use := Run(Initial(limit, windowMs), actions).limiter;
    var events :| use == L.Uses(L.Fresh(limit, windowMs), events);
    L.ChargesFitEveryWindow(limit, windowMs, events, user, t);
  }

  // ---------------------------------------------------------------- a submit left alone

  /** Left alone, a submit of a new key reaches the transaction with a lease of its own. */
  lemma UninterruptedSubmitIsAdmitted(s: State, sub: Submission, keys: set<string>, catalog: Catalog, elapsed: L.Time, ev: Evaluation)
    requires forall i | 0 <= i < |s.db.rows| :: !(s.db.rows[i].user == sub.user && s.db.rows[i].key == sub.key)
    requires s.limiter.limiter.CheckAndConsume(sub.user, sub.key, L.Later(s.limiter.now, elapsed)).1.Allowed?
    requires Evaluate(catalog, keys, sub) == Ok(ev)
    ensures var t := |s.tasks|;
      var s' := Step(Step(Step(Step(Step(s, Submit(sub)), Do(t, Perform)), Do(t, Admit(elapsed))), Do(t, Entitle(keys))), Do(t, Judge(catalog)));
      && s'.db == s.db && s'.tasks == s.tasks + [Locking(sub, |s.limiter.leases|, keys, ev)]
      && |s'.limiter.leases| == |s.limiter.leases| + 1
  {
    hide Evaluate, L.Later;
    var t := |s.tasks|;
    LookupFinds(s.db.rows, sub.user, sub.key);
    var lease := |s.limiter.leases|;
    var s1 := Step(s, Submit(sub));
    assert s1.tasks == s.tasks + [Looking(sub)];
    var s2 := Step(s1, Do(t, Perform));
    assert s2.tasks == s.tasks + [Looked(sub, None)];
    var s3 := Step(s2, Do(t, Admit(elapsed)));
    assert s3.tasks == s.tasks + [Admitted(sub, lease)] && s3.db == s.db && |s3.limiter.leases| == lease + 1;
    var s4 := Step(s3, Do(t, Entitle(keys)));
    assert s4.tasks == s.tasks + [Evaluating(sub, lease, keys)] && s4.db == s.db && s4.limiter == s3.limiter;
  }

  /** Its first correct answer is then recorded and counted once, and its lease is settled. */
  lemma UninterruptedSubmitIsRecorded(s: State, t: nat, sub: Submission, lease: nat, keys: set<string>, ev: Evaluation,
                                      catalog: Catalog, attemptId: string, date: Date)
    requires t < |s.tasks| && s.tasks[t] == Locking(sub, lease, keys, ev) && lease < |s.limiter.leases|
    requires !s.db.Has(sub.user, sub.key) && !IsLocked(s.tasks, sub.user, ev.lesson)
    requires ev.correct && ev.activityId !in s.db.Ids(sub.user, ev.lesson)
    ensures var draft := DraftFor(s.db, sub, ev, PublishedIn(catalog, ev.lesson, keys), attemptId, date);
      var progress := draft.row.response.progress;
      var s' := Step(Step(Step(Step(s, Do(t, Lock)), Do(t, Compute(catalog, attemptId, date))), Do(t, Commit(true))), Do(t, Perform));
      && s'.tasks == s.tasks[t := Ended(sub, Ok(draft.row.response))]
      && progress.completed == s.db.Ids(sub.user, ev.lesson) + [ev.activityId]
      && s'.db.Stored(sub.user, ev.lesson) == Some(progress)
      && s'.db.Count(sub.user, date) == s.db.Count(sub.user, date) + 1
      && |s'.limiter.leases| == |s.limiter.leases| && s'.limiter.leases[lease].settled
  {
    hide PublishedIn, FirstMissing;
    var s1 := Step(s, Do(t, Lock));
    assert s1 == Put(s, t, Locked(sub, lease, keys, ev));
    var draft := DraftFor(s.db, sub, ev, PublishedIn(catalog, ev.lesson, keys), attemptId, date);
    var s2 := Step(s1, Do(t, Compute(catalog, attemptId, date)));
    assert s2 == Put(s, t, Ready(sub, lease, ev, draft));
    var s3 := Step(s2, Do(t, Commit(true)));
    assert s3.tasks == s.tasks[t := Written(sub, lease, draft.row.response)] && s3.db == Committed(s.db, draft);
  }
}
