/**
 The limiter told from history alone: what a check answers depends only on which
 charges were made when and which leases are unsettled, whatever the maps, the
 counts of reservations and the sweeps of the limiter do
 (apps/api/src/learning/activity-attempt-rate-limiter.ts).
 */
module RateHistory {
  import opened RateLimiter

  /** When each charge of the events was made; the stamp of a lease is the number of its charge. */
  ghost function Opened(limit: int, windowMs: Time, events: seq<Event>): seq<Time> {
    if events == [] then []
    else
      var (before, e) := (events[..|events| - 1], events[|events| - 1]);
      OpenedBy(Opened(limit, windowMs, before), Uses(Fresh(limit, windowMs), before), e)
  }

  ghost function OpenedBy(times: seq<Time>, s: Use, e: Event): seq<Time> {
    if e.Check? && IsCharge(s.limiter, e.user, e.key, Later(s.now, e.elapsed)) then times + [Later(s.now, e.elapsed)] else times
  }

  /** The lease was minted for the key from a charge made less than a window ago, and is not settled. */
  ghost predicate IsOpen(leases: seq<Lease>, times: seq<Time>, windowMs: Time, k: string, now: Time, i: nat) {
    && i < |leases| && !leases[i].settled && leases[i].ownerAndKey == k
    && leases[i].stamp < |times| && now < times[leases[i].stamp] + windowMs
  }

  /** The key is in flight. */
  ghost predicate InFlightAt(leases: seq<Lease>, times: seq<Time>, windowMs: Time, k: string, now: Time) {
    exists i: nat :: IsOpen(leases, times, windowMs, k, now, i)
  }

  // ---------------------------------------------------------------- what the entries remember

  ghost predicate EntryIsOpened(l: Limiter, times: seq<Time>, k: string) {
    k in l.inFlight ==>
      && l.inFlight[k].stamp < |times| && l.inFlight[k].expiresAt == times[l.inFlight[k].stamp] + l.windowMs
      && l.inFlight[k].reservations >= 1
  }

  ghost predicate LeaseHasEntry(l: Limiter, times: seq<Time>, lease: Lease, now: Time) {
    && lease.stamp < |times|
    && (!lease.settled && now < times[lease.stamp] + l.windowMs ==>
          lease.ownerAndKey in l.inFlight && l.inFlight[lease.ownerAndKey].stamp == lease.stamp)
  }

  ghost predicate OpenedOk(s: Use, times: seq<Time>) {
    && s.limiter.nextStamp == |times|
    && (forall k :: EntryIsOpened(s.limiter, times, k))
    && (forall i | 0 <= i < |s.leases| :: LeaseHasEntry(s.limiter, times, s.leases[i], s.now))
  }

  lemma {:induction false} SomeUnsettled(leases: seq<Lease>, k: string, stamp: nat)
    ensures Unsettled(leases, k, stamp) == 0
      <==> forall i | 0 <= i < |leases| :: !(leases[i].ownerAndKey == k && leases[i].stamp == stamp && !leases[i].settled)
  {
    if leases != [] { SomeUnsettled(leases[..|leases| - 1], k, stamp); }
  }

  /** The entries and the history agree on what is in flight. */
  lemma LiveIff(s: Use, times: seq<Time>, k: string, now: Time)
    requires EntriesOk(s) && OpenedOk(s, times) && now >= s.now
    ensures s.limiter.Sweep(now).Live(k, now) <==> InFlightAt(s.leases, times, s.limiter.windowMs, k, now)
  {
    if s.limiter.Sweep(now).Live(k, now) {
      assert EntryIsOpened(s.limiter, times, k);
      SomeUnsettled(s.leases, k, s.limiter.inFlight[k].stamp);
      var i: nat :| i < |s.leases| && s.leases[i].ownerAndKey == k && s.leases[i].stamp == s.limiter.inFlight[k].stamp && !s.leases[i].settled;
      assert IsOpen(s.leases, times, s.limiter.windowMs, k, now, i);
    }
    if i: nat :| IsOpen(s.leases, times, s.limiter.windowMs, k, now, i) {
      assert LeaseHasEntry(s.limiter, times, s.leases[i], s.now) && EntryIsOpened(s.limiter, times, k);
    }
  }

  // ---------------------------------------------------------------- every use keeps it

  lemma CheckKeepsOpened(s: Use, times: seq<Time>, user: User, key: string, elapsed: Time)
    requires s.limiter.windowMs > 0.0 && EntriesOk(s) && OpenedOk(s, times)
    ensures var e := Check(user, key, elapsed); OpenedOk(Apply(s, e), OpenedBy(times, s, e))
  {
    hide Recent, EntriesOk;
    var now, l := Later(s.now, elapsed), s.limiter;
    var (e, k) := (Check(user, key, elapsed), OwnerAndKey(user, key));
    var (s', times') := (Apply(s, e), OpenedBy(times, s, e));
    assert s'.limiter.windowMs == l.windowMs && s'.limiter.nextStamp == |times'|;
    forall k' ensures EntryIsOpened(s'.limiter, times', k') { assert EntryIsOpened(l, times, k'); }
    forall i | 0 <= i < |s'.leases| ensures LeaseHasEntry(s'.limiter, times', s'.leases[i], now) {
      if i < |s.leases| {
        assert LeaseHasEntry(l, times, s.leases[i], s.now) && EntryIsOpened(l, times, s.leases[i].ownerAndKey);
      } else {
        assert EntryIsOpened(l, times, k);
      }
    }
  }

  lemma SettleKeepsOpened(s: Use, times: seq<Time>, i: nat)
    requires EntriesOk(s) && OpenedOk(s, times)
    ensures OpenedOk(Apply(s, SettleLease(i)), times)
  {
    if i < |s.leases| {
      var lease, s' := s.leases[i], Apply(s, SettleLease(i));
      forall k ensures EntryIsOpened(s'.limiter, times, k) { assert EntryIsOpened(s.limiter, times, k); }
      forall j | 0 <= j < |s'.leases| ensures LeaseHasEntry(s'.limiter, times, s'.leases[j], s'.now) {
        assert LeaseHasEntry(s.limiter, times, s.leases[j], s.now);
        if j != i && lease.ownerAndKey in s.limiter.inFlight && s.limiter.inFlight[lease.ownerAndKey].stamp == lease.stamp && !lease.settled {
          UnsettledUpdate(s.leases, i, lease.ownerAndKey, lease.stamp);
          SomeUnsettled(s'.leases, lease.ownerAndKey, lease.stamp);
          assert s'.leases[j] == s.leases[j];
        }
      }
    }
  }

  lemma {:induction false} UsesKeepOpened(limit: int, windowMs: Time, events: seq<Event>)
    requires limit >= 1 && windowMs > 0.0
    ensures OpenedOk(Uses(Fresh(limit, windowMs), events), Opened(limit, windowMs, events))
    decreases |events|
  {
    if events != [] {
      hide OpenedOk, Apply, OpenedBy;
      var (before, e) := (events[..|events| - 1], events[|events| - 1]);
      UsesKeepUse(limit, windowMs, before);
      UsesKeepOpened(limit, windowMs, before);
      var (s, times) := (Uses(Fresh(limit, windowMs), before), Opened(limit, windowMs, before));
      match e
      case Check(user, key, elapsed) => CheckKeepsOpened(s, times, user, key, elapsed);
      case SettleLease(i) =>
        SettleKeepsOpened(s, times, i);
        assert OpenedBy(times, s, e) == times by { SettlingOpensNothing(times, s, i); }
    }
  }

  lemma SettlingOpensNothing(times: seq<Time>, s: Use, i: nat)
    ensures OpenedBy(times, s, SettleLease(i)) == times
  {
  }

  // ---------------------------------------------------------------- what a check answers

  function SecondsOn(now: Time, seconds: nat): Time { now + 1000.0 * seconds as real }

  /** If nothing is charged meanwhile, the window of the user has room after exactly this many whole seconds or more. */
  ghost predicate IsLeastWait(s: Use, user: User, now: Time, wait: int) {
    wait >= 1 && forall seconds: nat :: CountWithin(s.Charged(user), SecondsOn(now, seconds), s.limiter.windowMs) < s.limiter.limit <==> seconds >= wait
  }

  lemma RefusalNamesLeastWait(s: Use, user: User, key: string, now: Time)
    requires Sound(s) && HistoryOk(s, user) && now >= s.now && s.limiter.CheckAndConsume(user, key, now).1.Refused?
    ensures IsLeastWait(s, user, now, s.limiter.CheckAndConsume(user, key, now).1.retryAfterSeconds)
  {
    var (w, limit, charged) := (s.limiter.windowMs, s.limiter.limit, s.Charged(user));
    var wait := s.limiter.CheckAndConsume(user, key, now).1.retryAfterSeconds;
    assert forall i | 0 <= i < |charged| :: charged[i] <= s.now;
    RefusalIsFull(s, user, key, now);
    hide Limiter.CheckAndConsume, Recent, RetryAfter, HistoryOk, CountWithin;
    RetryIsLeast(Recent(charged, now - w), limit, w, now, 0);
    forall seconds: nat ensures CountWithin(charged, SecondsOn(now, seconds), w) < limit <==> seconds >= wait {
      RetryIsLeast(Recent(charged, now - w), limit, w, now, seconds);
      RecentTwice(charged, now - w, SecondsOn(now, seconds) - w);
      RecentCounts(charged, SecondsOn(now, seconds), w);
    }
  }

  /** A check, decided by history. */
  ghost predicate Answers(s: Use, s': Use, times: seq<Time>, times': seq<Time>, decision: Decision, user: User, key: string, now: Time) {
    var (k, w) := (OwnerAndKey(user, key), s.limiter.windowMs);
    var (free, room) := (InFlightAt(s.leases, times, w, k, now), CountWithin(s.Charged(user), now, w) < s.limiter.limit);
    && (decision.Allowed? <==> free || room)
    && (decision.Allowed? ==>
          && decision.lease.ownerAndKey == k && !decision.lease.settled && s'.leases == s.leases + [decision.lease]
          && (free ==> exists i: nat :: IsOpen(s.leases, times, w, k, now, i) && s.leases[i].stamp == decision.lease.stamp)
          && (!free ==> decision.lease.stamp == |times|))
    && (decision.Refused? ==> s'.leases == s.leases && IsLeastWait(s, user, now, decision.retryAfterSeconds))
    && times' == (if !free && room then times + [now] else times)
    && s'.charges == (if !free && room then s.charges[user := s.Charged(user) + [now]] else s.charges)
    && s'.now == now
  }

  /**
   Over every use, a check is let through for free exactly while some unsettled lease
   of its key stems from a charge less than a window old; otherwise it is charged
   exactly when fewer than `limit` charges of its user lie in the window; and
   otherwise it is refused, with the least number of whole seconds after which the
   window has room. A free lease shares the charge of an open one, a charged
   lease opens its own, and a refusal leaves the history as it was.
   */
  lemma CheckIff(limit: int, windowMs: Time, events: seq<Event>, user: User, key: string, elapsed: Time)
    requires limit >= 1 && windowMs > 0.0
    ensures var (s, e) := (Uses(Fresh(limit, windowMs), events), Check(user, key, elapsed));
      var now := Later(s.now, elapsed);
      Answers(s, Apply(s, e), Opened(limit, windowMs, events), Opened(limit, windowMs, events + [e]),
              s.limiter.CheckAndConsume(user, key, now).1, user, key, now)
  {
    hide Uses, Apply, UseOk, OpenedOk, Answers, OpenedBy, OwnerAndKey, Limiter.CheckAndConsume;
    var (s, e) := (Uses(Fresh(limit, windowMs), events), Check(user, key, elapsed));
    UsesKeepUse(limit, windowMs, events);
    UsesKeepOpened(limit, windowMs, events);
    CheckIsDecided(s, Opened(limit, windowMs, events), user, key, elapsed);
    OpenedGrows(limit, windowMs, events, e);
  }

  lemma OpenedGrows(limit: int, windowMs: Time, events: seq<Event>, e: Event)
    ensures Opened(limit, windowMs, events + [e]) == OpenedBy(Opened(limit, windowMs, events), Uses(Fresh(limit, windowMs), events), e)
  {
    hide Uses, OpenedBy;
    assert (events + [e])[..|events|] == events;
  }

  lemma CheckIsDecided(s: Use, times: seq<Time>, user: User, key: string, elapsed: Time)
    requires UseOk(s) && OpenedOk(s, times)
    ensures var e := Check(user, key, elapsed);
      var now := Later(s.now, elapsed);
      Answers(s, Apply(s, e), times, OpenedBy(times, s, e), s.limiter.CheckAndConsume(user, key, now).1, user, key, now)
  {
    hide Apply, EntriesOk, HistoryOk, Answers, OpenedBy, InFlightAt, IsOpen, Recent, CountWithin, OwnerAndKey, EntryIsOpened, LeaseHasEntry,
         Limiter.CheckAndConsume, Limiter.Sweep, Limiter.Live, Limiter.Stored;
    var now := Later(s.now, elapsed);
    LiveIff(s, times, OwnerAndKey(user, key), now);
    assert HistoryOk(s, user);
    RecentIsCount(s, user, now);
    FreeShares(s, times, user, key, now);
    if s.limiter.CheckAndConsume(user, key, now).1.Refused? { RefusalNamesLeastWait(s, user, key, now); }
    hide IsLeastWait;
    CheckAnswers(s, times, user, key, elapsed);
  }

  lemma CheckAnswers(s: Use, times: seq<Time>, user: User, key: string, elapsed: Time)
    requires s.limiter.limit >= 1 && s.limiter.nextStamp == |times|
    requires var (k, w, now) := (OwnerAndKey(user, key), s.limiter.windowMs, Later(s.now, elapsed));
      var (live, decision) := (s.limiter.Sweep(now).Live(k, now), s.limiter.CheckAndConsume(user, key, now).1);
      && (live <==> InFlightAt(s.leases, times, w, k, now))
      && (live ==> decision.Allowed? && exists i: nat :: IsOpen(s.leases, times, w, k, now, i) && s.leases[i].stamp == decision.lease.stamp)
      && |Recent(s.limiter.Sweep(now).Stored(user), now - w)| == CountWithin(s.Charged(user), now, w)
      && (decision.Refused? ==> IsLeastWait(s, user, now, decision.retryAfterSeconds))
    ensures var e := Check(user, key, elapsed);
      var now := Later(s.now, elapsed);
      Answers(s, Apply(s, e), times, OpenedBy(times, s, e), s.limiter.CheckAndConsume(user, key, now).1, user, key, now)
  {
    hide InFlightAt, Recent, CountWithin, RetryAfter, OwnerAndKey, IsLeastWait;
  }

  /** What the check counts are the charges in the window. */
  lemma RecentIsCount(s: Use, user: User, now: Time)
    requires HistoryOk(s, user) && now >= s.now
    ensures |Recent(s.limiter.Sweep(now).Stored(user), now - s.limiter.windowMs)| == CountWithin(s.Charged(user), now, s.limiter.windowMs)
  {
    CheckSeesCharges(s, user, now);
    RecentCounts(s.Charged(user), now, s.limiter.windowMs);
  }

  /** A free lease belongs to the charge of a lease that is open. */
  lemma FreeShares(s: Use, times: seq<Time>, user: User, key: string, now: Time)
    requires EntriesOk(s) && OpenedOk(s, times) && now >= s.now
    ensures var (k, w) := (OwnerAndKey(user, key), s.limiter.windowMs);
      var decision := s.limiter.CheckAndConsume(user, key, now).1;
      s.limiter.Sweep(now).Live(k, now) ==>
        decision.Allowed? && exists i: nat :: IsOpen(s.leases, times, w, k, now, i) && s.leases[i].stamp == decision.lease.stamp
  {
    var (k, w) := (OwnerAndKey(user, key), s.limiter.windowMs);
    if s.limiter.Sweep(now).Live(k, now) {
      assert EntryIsOpened(s.limiter, times, k);
      SomeUnsettled(s.leases, k, s.limiter.inFlight[k].stamp);
      var i: nat :| i < |s.leases| && s.leases[i].ownerAndKey == k && s.leases[i].stamp == s.limiter.inFlight[k].stamp && !s.leases[i].settled;
      assert IsOpen(s.leases, times, w, k, now, i);
    }
  }

  /** Settling a lease, also again, ends only its own hold on the key: whoever shares its charge keeps the key in flight. */
  lemma SettlingIsOnlyThat(limit: int, windowMs: Time, events: seq<Event>, i: nat, k: string, now: Time)
    ensures var (s, s') := (Uses(Fresh(limit, windowMs), events), Uses(Fresh(limit, windowMs), events + [SettleLease(i)]));
      var times := Opened(limit, windowMs, events);
      && s'.charges == s.charges && s'.now == s.now && Opened(limit, windowMs, events + [SettleLease(i)]) == times
      && (InFlightAt(s'.leases, times, windowMs, k, now) <==> exists j: nat :: j != i && IsOpen(s.leases, times, windowMs, k, now, j))
  {
    var e := SettleLease(i);
    var (s, times) := (Uses(Fresh(limit, windowMs), events), Opened(limit, windowMs, events));
    OpenedGrows(limit, windowMs, events, e);
    SettlingOpensNothing(times, s, i);
    SettledLeases(s.leases, i, times, windowMs, k, now);
    assert (events + [e])[..|events|] == events;
    hide InFlightAt, IsOpen, Opened, OpenedBy;
  }

  lemma SettledLeases(leases: seq<Lease>, i: nat, times: seq<Time>, windowMs: Time, k: string, now: Time)
    ensures var after := if i < |leases| then leases[i := leases[i].(settled := true)] else leases;
      InFlightAt(after, times, windowMs, k, now) <==> exists j: nat :: j != i && IsOpen(leases, times, windowMs, k, now, j)
  {
    var after := if i < |leases| then leases[i := leases[i].(settled := true)] else leases;
    assert forall j: nat :: IsOpen(after, times, windowMs, k, now, j) <==> j != i && IsOpen(leases, times, windowMs, k, now, j);
  }
}
