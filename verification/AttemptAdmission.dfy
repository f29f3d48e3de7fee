/**
 What the admission of a submit decides, told from the submits that are still running
 and the charges made before (apps/api/src/learning/activity-attempt-admission.service.ts
 over apps/api/src/learning/activity-attempt-rate-limiter.ts).
 */
module AttemptAdmission {
  import opened Basics
  import opened AttemptStore
  import opened AttemptProtocol
  import opened AttemptTheorems
  import opened AttemptTotals
  import opened AttemptJudging
  import L = RateLimiter
  import H = RateHistory

  // ---------------------------------------------------------------- who holds a lease

  ghost predicate HoldsItsOwn(leases: seq<L.Lease>, task: Task) {
    task.HasLease() ==> task.lease < |leases| && leases[task.lease].ownerAndKey == L.OwnerAndKey(task.sub.user, task.sub.key)
  }

  ghost predicate AllHoldTheirOwn(s: State) { forall t: nat | t < |s.tasks| :: HoldsItsOwn(s.limiter.leases, s.tasks[t]) }

  /** Leases are appended and settled, and keep whom they were minted for. */
  ghost predicate Keeps(before: seq<L.Lease>, after: seq<L.Lease>) {
    |before| <= |after| && forall i | 0 <= i < |before| :: after[i].ownerAndKey == before[i].ownerAndKey
  }

  lemma SettlingKeeps(s: State, lease: nat)
    ensures Keeps(s.limiter.leases, Settle(s, lease).limiter.leases) && Settle(s, lease).tasks == s.tasks
  {
  }

  lemma OneMoves(s: State, s': State, t: nat)
    requires AllHoldTheirOwn(s) && t < |s.tasks| == |s'.tasks| && Keeps(s.limiter.leases, s'.limiter.leases)
    requires (forall u: nat | u < |s.tasks| && u != t :: s'.tasks[u] == s.tasks[u]) && HoldsItsOwn(s'.limiter.leases, s'.tasks[t])
    ensures AllHoldTheirOwn(s')
  {
    forall u: nat | u < |s'.tasks| ensures HoldsItsOwn(s'.limiter.leases, s'.tasks[u]) {
      if u != t { assert HoldsItsOwn(s.limiter.leases, s.tasks[u]); }
    }
  }

  lemma AdmittingKeeps(s: State, t: nat, sub: Submission, found: Option<Row>, elapsed: L.Time)
    requires t < |s.tasks|
    ensures var s' := AdmitStep(s, t, sub, found, elapsed);
      Keeps(s.limiter.leases, s'.limiter.leases) && |s'.tasks| == |s.tasks| && HoldsItsOwn(s'.limiter.leases, s'.tasks[t])
  {
    hide L.Recent, L.RetryAfter, L.OwnerAndKey, Replay;
  }

  lemma MovingKeeps(s: State, t: nat, move: Move)
    requires t < |s.tasks| && HoldsItsOwn(s.limiter.leases, s.tasks[t])
    ensures var s' := DoStep(s, t, move);
      Keeps(s.limiter.leases, s'.limiter.leases) && |s'.tasks| == |s.tasks| && HoldsItsOwn(s'.limiter.leases, s'.tasks[t])
  {
    hide AdmitStep, Settle, L.OwnerAndKey, Evaluate, DraftFor, Lookup, Committed, PublishedIn, IsLocked, Replay;
    match (s.tasks[t], move)
    case (Looked(sub, found), Admit(elapsed)) => AdmittingKeeps(s, t, sub, found, elapsed);
    case (Written(_, lease, _), _) => SettlingKeeps(s, lease);
    case (Recovered(_, lease, _), _) => SettlingKeeps(s, lease);
    case (Failing(_, lease, _), _) => SettlingKeeps(s, lease);
    case (Conflicted(_, lease, _), _) => SettlingKeeps(s, lease);
    case _ =>
  }

  lemma OthersWait(s: State, s': State, t: nat, move: Move)
    requires s' == DoStep(s, t, move)
    ensures |s'.tasks| == |s.tasks| && forall u: nat | u < |s.tasks| && u != t :: s'.tasks[u] == s.tasks[u]
  {
    hide DoStep;
    TasksStay(s, t, move);
    forall u: nat | u < |s.tasks| && u != t ensures s'.tasks[u] == s.tasks[u] {
      OthersStay(s, t, move, u);
    }
  }

  lemma {:induction false} EachHoldsItsOwn(limit: int, windowMs: L.Time, actions: seq<Action>)
    ensures AllHoldTheirOwn(Run(Initial(limit, windowMs), actions))
    decreases |actions|
  {
    if actions != [] {
      var (before, a) := (actions[..|actions| - 1], actions[|actions| - 1]);
      EachHoldsItsOwn(limit, windowMs, before);
      var s := Run(Initial(limit, windowMs), before);
      hide DoStep, HoldsItsOwn, Keeps;
      match a
      case Submit(sub) => NewHoldsNothing(s, sub);
      case Do(t, move) =>
        if t < |s.tasks| {
          assert HoldsItsOwn(s.limiter.leases, s.tasks[t]);
          hide AllHoldTheirOwn;
          MovingKeeps(s, t, move);
          OthersWait(s, DoStep(s, t, move), t, move);
          OneMoves(s, DoStep(s, t, move), t);
        } else {
          assert DoStep(s, t, move) == s by { NobodyMoves(s, t, move); }
        }
    }
  }

  lemma NobodyMoves(s: State, t: nat, move: Move)
    requires t >= |s.tasks|
    ensures DoStep(s, t, move) == s
  {
  }

  lemma NewHoldsNothing(s: State, sub: Submission)
    requires AllHoldTheirOwn(s)
    ensures AllHoldTheirOwn(Step(s, Submit(sub)))
  {
    hide L.OwnerAndKey;
    var s' := Step(s, Submit(sub));
    forall t: nat | t < |s'.tasks| ensures HoldsItsOwn(s'.limiter.leases, s'.tasks[t]) {
      if t < |s.tasks| { assert HoldsItsOwn(s.limiter.leases, s.tasks[t]); }
    }
  }

  // ---------------------------------------------------------------- admission

  /** A submit of the key is still running, under a charge made less than a window ago. */
  ghost predicate IsRunning(s: State, times: seq<L.Time>, windowMs: L.Time, k: string, now: L.Time, u: nat) {
    && u < |s.tasks| && s.tasks[u].HasLease() && L.OwnerAndKey(s.tasks[u].sub.user, s.tasks[u].sub.key) == k
    && s.tasks[u].lease < |s.limiter.leases| && s.limiter.leases[s.tasks[u].lease].stamp < |times|
    && now < times[s.limiter.leases[s.tasks[u].lease].stamp] + windowMs
  }

  /** The key is in flight exactly while such a submit is. */
  lemma InFlightIff(limit: int, windowMs: L.Time, actions: seq<Action>, times: seq<L.Time>, k: string, now: L.Time)
    ensures var s := Run(Initial(limit, windowMs), actions);
      H.InFlightAt(s.limiter.leases, times, windowMs, k, now) <==> exists u: nat :: IsRunning(s, times, windowMs, k, now, u)
  {
    var s := Run(Initial(limit, windowMs), actions);
    RunKeepsInvariant(limit, windowMs, actions);
    EachHoldsItsOwn(limit, windowMs, actions);
    assert LeasesOk(s.limiter.leases, s.tasks);
    hide Run, DbOk, TasksOk, LocksOk, L.OwnerAndKey;
    if i: nat :| H.IsOpen(s.limiter.leases, times, windowMs, k, now, i) {
      assert Carried(s.tasks, i);
      var u: nat :| u < |s.tasks| && Carries(s.tasks[u], i);
      assert HoldsItsOwn(s.limiter.leases, s.tasks[u]);
      assert IsRunning(s, times, windowMs, k, now, u);
    }
    if u: nat :| IsRunning(s, times, windowMs, k, now, u) {
      assert HoldsItsOwn(s.limiter.leases, s.tasks[u]);
      assert H.IsOpen(s.limiter.leases, times, windowMs, k, now, s.tasks[u].lease);
    }
  }

  /** A submit without a stored row, decided at this time by these charges. */
  ghost predicate IsDecided(s: State, s': State, t: nat, sub: Submission, times: seq<L.Time>, limit: int, windowMs: L.Time, now: L.Time) {
    var k := L.OwnerAndKey(sub.user, sub.key);
    var free := exists u: nat :: IsRunning(s, times, windowMs, k, now, u);
    var room := L.CountWithin(s.limiter.Charged(sub.user), now, windowMs) < limit;
    && t < |s.tasks| && s'.db == s.db && s'.dates == s.dates && s'.limiter.now == now
    && (if free || room then s'.tasks == s.tasks[t := Admitted(sub, |s.limiter.leases|)]
        else exists wait :: H.IsLeastWait(s.limiter, sub.user, now, wait) && s'.tasks == s.tasks[t := Ended(sub, Err(RateLimited(wait)))])
    && s'.limiter.charges
         == if !free && room then s.limiter.charges[sub.user := s.limiter.Charged(sub.user) + [now]] else s.limiter.charges
  }

  /**
   The admission of every submit of every run. With a stored row it is answered from
   that row, or refused as a conflict, and nothing is charged. Without one it goes on
   for free exactly while a submit of its key is running under a charge less than a
   window old; otherwise it is charged exactly when fewer than `limit` charges of its
   user lie in the window; and otherwise it ends rate limited, with the least number of
   whole seconds to wait.
   */
  lemma AdmissionIff(limit: int, windowMs: L.Time, actions: seq<Action>, t: nat, elapsed: L.Time)
    requires limit >= 1 && windowMs > 0.0
    requires t < |Run(Initial(limit, windowMs), actions).tasks| && Run(Initial(limit, windowMs), actions).tasks[t].Looked?
    ensures var s := Run(Initial(limit, windowMs), actions);
      var s' := Run(Initial(limit, windowMs), actions + [Do(t, Admit(elapsed))]);
      var sub := s.tasks[t].sub;
      match s.tasks[t].found
      case Some(row) =>
        s' == s.(tasks := s.tasks[t := Ended(sub, if row.hash == sub.hash then Ok(row.response) else Err(IdempotencyConflict))])
      case None =>
        exists events :: s.limiter == L.Uses(L.Fresh(limit, windowMs), events)
          && IsDecided(s, s', t, sub, H.Opened(limit, windowMs, events), limit, windowMs, L.Later(s.limiter.now, elapsed))
  {
    var s := Run(Initial(limit, windowMs), actions);
    var a := Do(t, Admit(elapsed));
    assert Run(Initial(limit, windowMs), actions + [a]) == Step(s, a) by { assert (actions + [a])[..|actions|] == actions; }
    if s.tasks[t].found.None? {
      RunKeepsLimiter(limit, windowMs, actions);
      var events :| s.limiter == L.Uses(L.Fresh(limit, windowMs), events);
      var (sub, now) := (s.tasks[t].sub, L.Later(s.limiter.now, elapsed));
      L.UsesKeepUse(limit, windowMs, events);
      H.CheckIff(limit, windowMs, events, sub.user, sub.key, elapsed);
      InFlightIff(limit, windowMs, actions, H.Opened(limit, windowMs, events), L.OwnerAndKey(sub.user, sub.key), now);
      hide Run, L.Uses, L.UseOk, LimiterOk;
      AdmitsAsAnswered(s, t, sub, H.Opened(limit, windowMs, events), H.Opened(limit, windowMs, events + [L.Check(sub.user, sub.key, elapsed)]), elapsed);
    }
  }

  lemma AdmitsAsAnswered(s: State, t: nat, sub: Submission, times: seq<L.Time>, times': seq<L.Time>, elapsed: L.Time)
    requires t < |s.tasks| && s.tasks[t] == Looked(sub, None)
    requires var (e, now) := (L.Check(sub.user, sub.key, elapsed), L.Later(s.limiter.now, elapsed));
      H.Answers(s.limiter, L.Apply(s.limiter, e), times, times', s.limiter.limiter.CheckAndConsume(sub.user, sub.key, now).1, sub.user, sub.key, now)
    requires var (k, w, now) := (L.OwnerAndKey(sub.user, sub.key), s.limiter.limiter.windowMs, L.Later(s.limiter.now, elapsed));
      H.InFlightAt(s.limiter.leases, times, w, k, now) <==> exists u: nat :: IsRunning(s, times, w, k, now, u)
    ensures IsDecided(s, Step(s, Do(t, Admit(elapsed))), t, sub, times, s.limiter.limiter.limit, s.limiter.limiter.windowMs, L.Later(s.limiter.now, elapsed))
  {
    hide H.InFlightAt, H.IsOpen, IsRunning, L.OwnerAndKey, L.CountWithin, L.Apply, L.Later, H.IsLeastWait, L.Limiter.CheckAndConsume;
  }

  // ---------------------------------------------------------------- how a submit ends

  /** What ends a submit with this outcome: a stored row, the limiter, its own commit, or an error that reached it. */
  ghost predicate EndsBy(s: State, task: Task, move: Move, outcome: Result<Response, Failure>) {
    match outcome
    case Ok(response) =>
      || (task.Looked? && move.Admit? && task.found.Some? && task.found.value.hash == task.sub.hash && task.found.value.response == response)
      || (task.Recovered? && move.Perform? && task.found.Some? && task.found.value.hash == task.sub.hash && task.found.value.response == response)
      || (task.Written? && move.Perform? && task.response == response)
    case Err(IdempotencyConflict) =>
      || (task.Looked? && move.Admit? && task.found.Some? && task.found.value.hash != task.sub.hash)
      || (task.Recovered? && move.Perform? && task.found.Some? && task.found.value.hash != task.sub.hash)
      || (task.Failing? && move.Perform? && task.failure == IdempotencyConflict)
    case Err(RateLimited(wait)) =>
      || (task.Looked? && move.Admit? && task.found.None?
          && s.limiter.limiter.CheckAndConsume(task.sub.user, task.sub.key, L.Later(s.limiter.now, move.elapsed)).1 == L.Refused(wait))
      || (task.Failing? && move.Perform? && task.failure == RateLimited(wait))
    case Err(WinnerMissing) => (task.Recovered? && move.Perform? && task.found.None?) || (task.Failing? && move.Perform? && task.failure == WinnerMissing)
    case Err(Fault) => ((task.Looking? || task.Conflicted?) && move.Break?) || (task.Failing? && move.Perform? && task.failure == Fault)
    case Err(failure) => task.Failing? && move.Perform? && task.failure == failure
  }

  /** A submit under way ends with an outcome exactly when this ends it. */
  lemma EndsIff(s: State, t: nat, move: Move, outcome: Result<Response, Failure>)
    requires t < |s.tasks| && !s.tasks[t].Ended?
    ensures var s' := DoStep(s, t, move);
      |s'.tasks| == |s.tasks| && (s'.tasks[t] == Ended(s.tasks[t].sub, outcome) <==> EndsBy(s, s.tasks[t], move, outcome))
  {
    hide Settle, Evaluate, DraftFor, Lookup, Committed, PublishedIn, IsLocked, L.Apply, L.Limiter.CheckAndConsume, L.Later;
    match s.tasks[t]
    case Written(_, lease, _) => SettlingKeeps(s, lease);
    case Recovered(_, lease, _) => SettlingKeeps(s, lease);
    case Failing(_, lease, _) => SettlingKeeps(s, lease);
    case Conflicted(_, lease, _) => SettlingKeeps(s, lease);
    case _ =>
  }

  /** A committed row of the key that was asked for with something else. */
  ghost predicate IsTakenOtherwise(rows: seq<Row>, sub: Submission) {
    exists i: nat :: i < |rows| && rows[i].user == sub.user && rows[i].key == sub.key && rows[i].hash != sub.hash
  }

  /** Conflicts are real: a row of the same user and key is stored, for another request. */
  ghost predicate ConflictIsReal(rows: seq<Row>, task: Task) {
    && (task.Ended? && task.outcome == Err(IdempotencyConflict) ==> IsTakenOtherwise(rows, task.sub))
    && (task.Failing? ==> task.failure != IdempotencyConflict)
  }

  lemma {:induction false} ConflictsAreReal(limit: int, windowMs: L.Time, actions: seq<Action>, t: nat)
    ensures var s := Run(Initial(limit, windowMs), actions); t < |s.tasks| ==> ConflictIsReal(s.db.rows, s.tasks[t])
    decreases |actions|
  {
    if actions != [] {
      var (before, a) := (actions[..|actions| - 1], actions[|actions| - 1]);
      ConflictsAreReal(limit, windowMs, before, t);
      RunKeepsInvariant(limit, windowMs, before);
      var s := Run(Initial(limit, windowMs), before);
      hide ConflictIsReal, DoStep, Invariant;
      match a
      case Submit(sub) => assert ConflictIsReal(s.db.rows, Looking(sub)) by { NewIsNoConflict(s.db.rows, sub); }
      case Do(u, move) =>
        if u >= |s.tasks| {
          NobodyMoves(s, u, move);
        } else if t < |s.tasks| {
          TasksStay(s, u, move);
          RowsAfter(s, u, move);
          if u == t {
            assert TaskOk(s.db, s.tasks[t]) by { TaskIsOk(s, t); }
            StepKeepsReal(s, t, move);
          } else {
            OthersStay(s, u, move, t);
            RealStays(s.db.rows, DoStep(s, u, move).db.rows, s.tasks[t]);
          }
        } else { TasksStay(s, u, move); }
    }
  }

  lemma NewIsNoConflict(rows: seq<Row>, sub: Submission)
    ensures ConflictIsReal(rows, Looking(sub))
  {
  }

  lemma TaskIsOk(s: State, t: nat)
    requires Invariant(s) && t < |s.tasks|
    ensures TaskOk(s.db, s.tasks[t])
  {
    hide DbOk, LocksOk, LeasesOk, TaskOk;
  }

  lemma RealStays(rows: seq<Row>, rows': seq<Row>, task: Task)
    requires ConflictIsReal(rows, task) && rows <= rows'
    ensures ConflictIsReal(rows', task)
  {
    if IsTakenOtherwise(rows, task.sub) {
      var i: nat :| i < |rows| && rows[i].user == task.sub.user && rows[i].key == task.sub.key && rows[i].hash != task.sub.hash;
      assert rows'[i] == rows[i];
    }
  }

  lemma StepKeepsReal(s: State, t: nat, move: Move)
    requires t < |s.tasks| && ConflictIsReal(s.db.rows, s.tasks[t]) && TaskOk(s.db, s.tasks[t])
    requires |DoStep(s, t, move).tasks| == |s.tasks|
    ensures ConflictIsReal(DoStep(s, t, move).db.rows, DoStep(s, t, move).tasks[t])
  {
    var s' := DoStep(s, t, move);
    RowsAfter(s, t, move);
    RealStays(s.db.rows, s'.db.rows, s.tasks[t]);
    if s.tasks[t].Ended? {
      assert s'.tasks[t] == s.tasks[t] by { EndedStays(s, t, move); }
    } else {
      EndsIff(s, t, move, Err(IdempotencyConflict));
      FailingIsNoConflict(s, t, move);
      hide DoStep;
      assert s'.tasks[t].sub == s.tasks[t].sub by { SubStays(s, t, move); }
      if s'.tasks[t].Ended? && s'.tasks[t].outcome == Err(IdempotencyConflict) {
        var row := s.tasks[t].found.value;
        var i :| 0 <= i < |s.db.rows| && s.db.rows[i] == row;
        assert s'.db.rows[i] == row;
      }
    }
  }

  lemma EndedStays(s: State, t: nat, move: Move)
    requires t < |s.tasks| && s.tasks[t].Ended?
    ensures |DoStep(s, t, move).tasks| == |s.tasks| && DoStep(s, t, move).tasks[t] == s.tasks[t]
  {
  }

  lemma SubStays(s: State, t: nat, move: Move)
    requires t < |s.tasks|
    ensures |DoStep(s, t, move).tasks| == |s.tasks| && DoStep(s, t, move).tasks[t].sub == s.tasks[t].sub
  {
    hide Evaluate, DraftFor, Lookup, Committed, PublishedIn, IsLocked, L.Apply, Replay, L.Limiter.CheckAndConsume;
  }

  lemma FailingIsNoConflict(s: State, t: nat, move: Move)
    requires t < |s.tasks| && !s.tasks[t].Ended? && (s.tasks[t].Failing? ==> s.tasks[t].failure != IdempotencyConflict)
    ensures |DoStep(s, t, move).tasks| == |s.tasks|
    ensures DoStep(s, t, move).tasks[t].Failing? ==> DoStep(s, t, move).tasks[t].failure != IdempotencyConflict
  {
    hide DraftFor, Lookup, Committed, PublishedIn, IsLocked, L.Apply, Replay, L.Limiter.CheckAndConsume, ContentOf, Find;
  }
}
