/**
 The in-memory attempt limiter
 (apps/api/src/learning/activity-attempt-rate-limiter.ts): a sliding window of
 charged attempts per user, free re-admission while a key is in flight, leases
 that settle once, and a periodic sweep.

 The functions on `Limiter` are the specification; the class at the end is the
 limiter itself and is proved against them. The identity of a reservation
 object is a stamp that no other reservation gets.
 */
module RateLimiter {
  import opened Basics

  type User = string
  type Time = real

  const NUL := [0 as char]

  datatype InFlight = InFlight(stamp: nat, expiresAt: Time, reservations: nat)

  datatype Lease = Lease(ownerAndKey: string, stamp: nat, settled: bool)

  datatype Decision = Allowed(lease: Lease) | Refused(retryAfterSeconds: int)

  datatype Limiter = Limiter(
    limit: int,
    windowMs: Time,
    attempts: map<User, seq<Time>>,
    inFlight: map<string, InFlight>,
    nextSweepAt: Time,
    nextStamp: nat)
  {
    function Stored(user: User): seq<Time> {
      if user in attempts then attempts[user] else []
    }

    predicate Live(ownerAndKey: string, now: Time) {
      ownerAndKey in inFlight && inFlight[ownerAndKey].expiresAt > now
    }

    function Sweep(now: Time): Limiter {
      if now < nextSweepAt then this
      else this.(
        attempts := map u | u in attempts && Recent(attempts[u], now - windowMs) != [] :: attempts[u],
        inFlight := map k | k in inFlight && inFlight[k].expiresAt > now :: inFlight[k],
        nextSweepAt := now + windowMs)
    }

    /** The decision without the sweep that precedes it. */
    function Decide(user: User, key: string, now: Time): (Limiter, Decision) {
      var recent := Recent(Stored(user), now - windowMs);
      var k := OwnerAndKey(user, key);
      if Live(k, now) then
        var entry := inFlight[k].(reservations := inFlight[k].reservations + 1);
        (this.(attempts := attempts[user := recent], inFlight := inFlight[k := entry]),
         Allowed(Lease(k, entry.stamp, false)))
      else if |recent| >= limit && recent != [] then
        (this.(attempts := attempts[user := recent]), Refused(RetryAfter(recent[0], windowMs, now)))
      else
        (this.(attempts := attempts[user := recent + [now]],
               inFlight := inFlight[k := InFlight(nextStamp, now + windowMs, 1)],
               nextStamp := nextStamp + 1),
         Allowed(Lease(k, nextStamp, false)))
    }

    function CheckAndConsume(user: User, key: string, now: Time): (Limiter, Decision) {
      Sweep(now).Decide(user, key, now)
    }

    function Settle(lease: Lease): Limiter {
      if lease.settled || lease.ownerAndKey !in inFlight || inFlight[lease.ownerAndKey].stamp != lease.stamp then this
      else
        var entry := inFlight[lease.ownerAndKey];
        if entry.reservations <= 1 then this.(inFlight := inFlight - {lease.ownerAndKey})
        else this.(inFlight := inFlight[lease.ownerAndKey := entry.(reservations := entry.reservations - 1)])
    }
  }

  function OwnerAndKey(user: User, key: string): string {
    user + NUL + key
  }

  function Recent(xs: seq<Time>, cutoff: Time): seq<Time> {
    if xs == [] then []
    else (if xs[0] > cutoff then [xs[0]] else []) + Recent(xs[1..], cutoff)
  }

  function Ceil(x: real): int {
    -((-x).Floor)
  }

  function RetryAfter(oldest: Time, windowMs: Time, now: Time): int {
    var seconds := Ceil((oldest + windowMs - now) / 1000.0);
    if seconds < 1 then 1 else seconds
  }

  function NewLimiter(limit: int, windowMs: Time): Limiter {
    Limiter(limit, windowMs, map[], map[], 0.0, 0)
  }

  /** For user ids without NUL the concatenated key tells every (user, key) pair apart. */
  lemma OwnerAndKeyInjective(u1: User, k1: string, u2: User, k2: string)
    requires NUL[0] !in u1 && NUL[0] !in u2 && OwnerAndKey(u1, k1) == OwnerAndKey(u2, k2)
    ensures u1 == u2 && k1 == k2
  {
    var s := OwnerAndKey(u1, k1);
    assert s[|u1|] == NUL[0] && s[|u2|] == NUL[0];
    assert u1 == s[..|u1|] && u2 == s[..|u2|];
    assert k1 == s[|u1| + 1..] && k2 == s[|u2| + 1..];
  }

  lemma NulStandsBetween(u: User, k: string, i: nat)
    requires NUL[0] !in u && NUL[0] !in k && i < |OwnerAndKey(u, k)| && OwnerAndKey(u, k)[i] == NUL[0]
    ensures i == |u|
  {
    var s := OwnerAndKey(u, k);
    assert forall j | 0 <= j < |u| :: s[j] == u[j] && u[j] in u;
    assert forall j | |u| < j < |s| :: s[j] == k[j - |u| - 1] && k[j - |u| - 1] in k;
  }

  lemma PlainPairIsAlone(u: User, k: string, u2: User, k2: string)
    requires NUL[0] !in u && NUL[0] !in k && OwnerAndKey(u2, k2) == OwnerAndKey(u, k)
    ensures u2 == u && k2 == k
  {
    var s := OwnerAndKey(u, k);
    assert s == OwnerAndKey(u2, k2) && s[|u2|] == NUL[0];
    NulStandsBetween(u, k, |u2|);
    assert u2 == s[..|u2|] && u == s[..|u|];
    assert k2 == s[|u2| + 1..] && k == s[|u| + 1..];
  }

  ghost predicate IsShared(u: User, k: string) {
    exists u2: User, k2: string :: (u2, k2) != (u, k) && OwnerAndKey(u2, k2) == OwnerAndKey(u, k)
  }

  lemma NulInUserIsShared(u: User, k: string, i: nat)
    requires i < |u| && u[i] == NUL[0]
    ensures IsShared(u, k)
  {
    var u2, k2 := u[..i], u[i + 1..] + NUL + k;
    assert |u2| != |u|;
    assert u == u[..i] + NUL + u[i + 1..];
    assert OwnerAndKey(u2, k2) == OwnerAndKey(u, k);
  }

  lemma NulInKeyIsShared(u: User, k: string, i: nat)
    requires i < |k| && k[i] == NUL[0]
    ensures IsShared(u, k)
  {
    var u2, k2 := u + NUL + k[..i], k[i + 1..];
    assert |u2| != |u|;
    assert k == k[..i] + NUL + k[i + 1..];
    assert OwnerAndKey(u2, k2) == OwnerAndKey(u, k);
  }

  /** Exactly the pairs in which NUL occurs share their concatenation with another pair. */
  lemma OwnerAndKeyCollidesIff(u: User, k: string)
    ensures IsShared(u, k) <==> NUL[0] in u || NUL[0] in k
  {
    if i: nat :| i < |u| && u[i] == NUL[0] {
      NulInUserIsShared(u, k, i);
    } else if i: nat :| i < |k| && k[i] == NUL[0] {
      NulInKeyIsShared(u, k, i);
    } else if u2: User, k2: string :| (u2, k2) != (u, k) && OwnerAndKey(u2, k2) == OwnerAndKey(u, k) {
      PlainPairIsAlone(u, k, u2, k2);
    }
  }

  // ---------------------------------------------------------------- recent attempts

  ghost predicate Sorted(xs: seq<Time>) {
    forall i, j | 0 <= i < j < |xs| :: xs[i] <= xs[j]
  }

  lemma {:induction false} RecentTwice(xs: seq<Time>, c1: Time, c2: Time)
    requires c1 <= c2
    ensures Recent(Recent(xs, c1), c2) == Recent(xs, c2)
  {
    if xs != [] {
      RecentTwice(xs[1..], c1, c2);
      if xs[0] > c1 {
        assert Recent(xs, c1)[1..] == Recent(xs[1..], c1);
      } else {
        assert Recent(xs, c1) == Recent(xs[1..], c1);
      }
    }
  }

  lemma RecentHead(xs: seq<Time>, i: nat, c: Time)
    requires i < |xs|
    ensures Recent(xs[i..], c) == (if xs[i] > c then [xs[i]] + Recent(xs[i + 1..], c) else Recent(xs[i + 1..], c))
  {
    assert xs[i..][1..] == xs[i + 1..];
  }

  lemma RecentAgree(xs: seq<Time>, ys: seq<Time>, c1: Time, c2: Time)
    requires c1 <= c2 && Recent(xs, c1) == Recent(ys, c1)
    ensures Recent(xs, c2) == Recent(ys, c2)
  {
    RecentTwice(xs, c1, c2);
    RecentTwice(ys, c1, c2);
  }

  lemma {:induction false} RecentAppend(xs: seq<Time>, ys: seq<Time>, c: Time)
    ensures Recent(xs + ys, c) == Recent(xs, c) + Recent(ys, c)
  {
    if xs == [] { assert xs + ys == ys; }
    else {
      assert (xs + ys)[1..] == xs[1..] + ys;
      RecentAppend(xs[1..], ys, c);
    }
  }

  lemma {:induction false} RecentAll(xs: seq<Time>, c: Time)
    requires forall i | 0 <= i < |xs| :: xs[i] > c
    ensures Recent(xs, c) == xs
  {
    if xs != [] { RecentAll(xs[1..], c); }
  }

  lemma {:induction false} RecentNone(xs: seq<Time>, c: Time)
    requires forall i | 0 <= i < |xs| :: xs[i] <= c
    ensures Recent(xs, c) == []
  {
    if xs != [] { RecentNone(xs[1..], c); }
  }

  /** In a sorted history the recent attempts are a suffix. */
  lemma RecentIsSuffix(xs: seq<Time>, c: Time)
    requires Sorted(xs)
    ensures |Recent(xs, c)| <= |xs| && Recent(xs, c) == xs[|xs| - |Recent(xs, c)|..]
    ensures forall i | 0 <= i < |xs| :: xs[i] > c <==> i >= |xs| - |Recent(xs, c)|
  {
    var j := FirstRecent(xs, c);
    assert xs == xs[..j] + xs[j..];
    RecentAppend(xs[..j], xs[j..], c);
    RecentNone(xs[..j], c);
    RecentAll(xs[j..], c);
  }

  ghost function FirstRecent(xs: seq<Time>, c: Time): (j: nat)
    requires Sorted(xs)
    ensures j <= |xs| && (forall i | 0 <= i < j :: xs[i] <= c) && (forall i | j <= i < |xs| :: xs[i] > c)
  {
    if xs == [] then 0
    else if xs[|xs| - 1] <= c then |xs|
    else
      var j := FirstRecent(xs[..|xs| - 1], c);
      j
  }

  // ---------------------------------------------------------------- the sliding window

  predicate Within(x: Time, t: Time, windowMs: Time) {
    t - windowMs < x <= t
  }

  function CountWithin(xs: seq<Time>, t: Time, windowMs: Time): nat {
    if xs == [] then 0
    else CountWithin(xs[..|xs| - 1], t, windowMs) + (if Within(xs[|xs| - 1], t, windowMs) then 1 else 0)
  }

  /** Any charge comes a whole window after the one `limit` places before it. */
  ghost predicate Spaced(xs: seq<Time>, limit: int, windowMs: Time) {
    forall i, j | 0 <= i <= j < |xs| && j - i == limit :: xs[i] <= xs[j] - windowMs
  }

  lemma {:induction false} CountOutside(xs: seq<Time>, n: nat, t: Time, windowMs: Time)
    requires n <= |xs| && forall i | 0 <= i < n :: !Within(xs[i], t, windowMs)
    ensures CountWithin(xs, t, windowMs) <= |xs| - n
  {
    if |xs| > n { CountOutside(xs[..|xs| - 1], n, t, windowMs); }
    else if |xs| > 0 { CountOutside(xs[..|xs| - 1], n - 1, t, windowMs); }
  }

  lemma {:induction false} WindowHoldsLimit(xs: seq<Time>, limit: int, windowMs: Time, t: Time)
    requires limit >= 1 && Sorted(xs) && Spaced(xs, limit, windowMs)
    ensures CountWithin(xs, t, windowMs) <= limit
  {
    if xs != [] {
      var n := |xs| - 1;
      if !Within(xs[n], t, windowMs) {
        WindowHoldsLimit(xs[..n], limit, windowMs, t);
      } else if n < limit {
        CountOutside(xs, 0, t, windowMs);
      } else {
        assert xs[n - limit] <= xs[n] - windowMs;
        CountOutside(xs, n - limit + 1, t, windowMs);
      }
    }
  }

  lemma {:induction false} RecentCounts(xs: seq<Time>, t: Time, windowMs: Time)
    requires forall i | 0 <= i < |xs| :: xs[i] <= t
    ensures |Recent(xs, t - windowMs)| == CountWithin(xs, t, windowMs)
  {
    if xs != [] {
      var n := |xs| - 1;
      RecentCounts(xs[..n], t, windowMs);
      assert xs == xs[..n] + [xs[n]];
      RecentAppend(xs[..n], [xs[n]], t - windowMs);
    }
  }

  // ---------------------------------------------------------------- runs of the limiter

  /**
   A limiter in use: every lease it minted, every charge it made to a user, and
   the last clock reading. The charges are never forgotten and never swept.
   */
  datatype Use = Use(limiter: Limiter, leases: seq<Lease>, charges: map<User, seq<Time>>, now: Time)
  {
    function Charged(user: User): seq<Time> {
      if user in charges then charges[user] else []
    }
  }

  datatype Event =
    | Check(user: User, key: string, elapsed: Time)
    | SettleLease(lease: nat)

  /** Was this admission charged, or was it free because the key was in flight? */
  predicate IsCharge(l: Limiter, user: User, key: string, now: Time) {
    !l.Sweep(now).Live(OwnerAndKey(user, key), now) && l.CheckAndConsume(user, key, now).1.Allowed?
  }

  function Later(now: Time, elapsed: Time): Time {
    if elapsed > 0.0 then now + elapsed else now
  }

  function Apply(s: Use, e: Event): Use {
    match e
    case Check(user, key, elapsed) =>
      var now := Later(s.now, elapsed);
      var (limiter, decision) := s.limiter.CheckAndConsume(user, key, now);
      var leases := if decision.Allowed? then s.leases + [decision.lease] else s.leases;
      var charges := if IsCharge(s.limiter, user, key, now) then s.charges[user := s.Charged(user) + [now]] else s.charges;
      Use(limiter, leases, charges, now)
    case SettleLease(i) =>
      if i >= |s.leases| then s
      else s.(limiter := s.limiter.Settle(s.leases[i]), leases := s.leases[i := s.leases[i].(settled := true)])
  }

  function Uses(s: Use, events: seq<Event>): Use
    decreases |events|
  {
    if events == [] then s else Apply(Uses(s, events[..|events| - 1]), events[|events| - 1])
  }

  function Fresh(limit: int, windowMs: Time): Use {
    Use(NewLimiter(limit, windowMs), [], map[], 0.0)
  }

  function Unsettled(leases: seq<Lease>, ownerAndKey: string, stamp: nat): nat {
    if leases == [] then 0
    else Unsettled(leases[..|leases| - 1], ownerAndKey, stamp)
         + (var l := leases[|leases| - 1]; if l.ownerAndKey == ownerAndKey && l.stamp == stamp && !l.settled then 1 else 0)
  }

  ghost predicate WindowOk(stored: seq<Time>, charged: seq<Time>, limit: int, windowMs: Time, now: Time) {
    && Sorted(charged) && Spaced(charged, limit, windowMs)
    && (forall i | 0 <= i < |charged| :: charged[i] <= now)
    && Recent(stored, now - windowMs) == Recent(charged, now - windowMs)
  }

  /** What the limiter stores for a user agrees with the user's charges wherever it still matters. */
  ghost predicate HistoryOk(s: Use, user: User) {
    WindowOk(s.limiter.Stored(user), s.Charged(user), s.limiter.limit, s.limiter.windowMs, s.now)
  }

  ghost predicate EntriesOk(s: Use) {
    && (forall k | k in s.limiter.inFlight ::
          && s.limiter.inFlight[k].stamp < s.limiter.nextStamp
          && s.limiter.inFlight[k].reservations == Unsettled(s.leases, k, s.limiter.inFlight[k].stamp))
    && (forall i | 0 <= i < |s.leases| :: s.leases[i].stamp < s.limiter.nextStamp)
  }

  ghost predicate Sound(s: Use) {
    s.limiter.limit >= 1 && s.limiter.windowMs > 0.0 && s.now >= 0.0
  }

  ghost predicate UseOk(s: Use) {
    && Sound(s)
    && (forall user :: HistoryOk(s, user))
    && EntriesOk(s)
  }

  /** Sweeping forgets nothing that still counts. */
  lemma SweepKeepsRecent(l: Limiter, now: Time, user: User)
    ensures Recent(l.Sweep(now).Stored(user), now - l.windowMs) == Recent(l.Stored(user), now - l.windowMs)
    ensures l.Sweep(now).limit == l.limit && l.Sweep(now).windowMs == l.windowMs
  {
  }

  /** What a check knows of a user is exactly the user's recent charges. */
  lemma CheckSeesCharges(s: Use, user: User, now: Time)
    requires HistoryOk(s, user) && now >= s.now
    ensures var c := now - s.limiter.windowMs;
      Recent(s.limiter.Sweep(now).Stored(user), c) == Recent(s.Charged(user), c)
  {
    SweptStillAgrees(s.limiter, s.Charged(user), user, s.now, now);
  }

  lemma SweptStillAgrees(l: Limiter, charged: seq<Time>, user: User, now: Time, t: Time)
    requires Recent(l.Stored(user), now - l.windowMs) == Recent(charged, now - l.windowMs) && t >= now
    ensures Recent(l.Sweep(t).Stored(user), t - l.windowMs) == Recent(charged, t - l.windowMs)
  {
    SweepKeepsRecent(l, t, user);
    RecentAgree(l.Stored(user), charged, now - l.windowMs, t - l.windowMs);
  }

  lemma ChargeKeepsSpacing(h: seq<Time>, limit: int, windowMs: Time, now: Time)
    requires limit >= 1 && windowMs > 0.0 && Sorted(h) && Spaced(h, limit, windowMs)
    requires (forall i | 0 <= i < |h| :: h[i] <= now) && |Recent(h, now - windowMs)| < limit
    ensures Sorted(h + [now]) && Spaced(h + [now], limit, windowMs)
  {
    RecentIsSuffix(h, now - windowMs);
    var n := |h|;
    forall i, j | 0 <= i <= j < n + 1 && j - i == limit ensures (h + [now])[i] <= (h + [now])[j] - windowMs {
      if j == n { assert h[i] <= now - windowMs; }
    }
  }

  /** What one check makes of a user's stored attempts. */
  lemma CheckOutcome(l: Limiter, user: User, key: string, now: Time, u: User)
    requires l.limit >= 1
    ensures var l' := l.CheckAndConsume(user, key, now).0;
      var swept := l.Sweep(now).Stored(u);
      var recent := Recent(swept, now - l.windowMs);
      && l'.limit == l.limit && l'.windowMs == l.windowMs
      && (u != user ==> l'.Stored(u) == swept)
      && (u == user && !IsCharge(l, user, key, now) ==> l'.Stored(u) == recent)
      && (u == user && IsCharge(l, user, key, now) ==> l'.Stored(u) == recent + [now] && |recent| < l.limit)
  {
    assert l.Sweep(now).windowMs == l.windowMs && l.Sweep(now).limit == l.limit;
  }

  /** Time passes, and the sweep may drop what no longer matters. */
  lemma WindowAdvances(stored: seq<Time>, swept: seq<Time>, charged: seq<Time>, limit: int, w: Time, now: Time, later: Time)
    requires WindowOk(stored, charged, limit, w, now) && later >= now
    requires Recent(swept, later - w) == Recent(stored, later - w)
    ensures WindowOk(swept, charged, limit, w, later)
  {
    RecentAgree(stored, charged, now - w, later - w);
  }

  lemma WindowTrims(stored: seq<Time>, charged: seq<Time>, limit: int, w: Time, now: Time)
    requires WindowOk(stored, charged, limit, w, now)
    ensures WindowOk(Recent(stored, now - w), charged, limit, w, now)
  {
    hide Recent, Sorted, Spaced;
    RecentTwice(stored, now - w, now - w);
  }

  lemma WindowCharges(stored: seq<Time>, charged: seq<Time>, limit: int, w: Time, now: Time)
    requires WindowOk(stored, charged, limit, w, now) && limit >= 1 && w > 0.0 && |Recent(stored, now - w)| < limit
    ensures WindowOk(stored + [now], charged + [now], limit, w, now)
  {
    hide Recent, Spaced;
    ChargeKeepsSpacing(charged, limit, w, now);
    RecentAppend(stored, [now], now - w);
    RecentAppend(charged, [now], now - w);
  }

  lemma CheckKeepsWindow(l: Limiter, charged: seq<Time>, user: User, key: string, now: Time, t: Time, u: User)
    requires l.limit >= 1 && l.windowMs > 0.0 && t >= now
    requires WindowOk(l.Stored(u), charged, l.limit, l.windowMs, now)
    ensures var l' := l.CheckAndConsume(user, key, t).0;
      var charged' := if u == user && IsCharge(l, user, key, t) then charged + [t] else charged;
      WindowOk(l'.Stored(u), charged', l.limit, l.windowMs, t)
  {
    var w := l.windowMs;
    var swept := l.Sweep(t).Stored(u);
    SweepKeepsRecent(l, t, u);
    WindowAdvances(l.Stored(u), swept, charged, l.limit, w, now, t);
    CheckOutcome(l, user, key, t, u);
    if u == user {
      WindowTrims(swept, charged, l.limit, w, t);
      RecentTwice(swept, t - w, t - w);
      if IsCharge(l, user, key, t) { WindowCharges(Recent(swept, t - w), charged, l.limit, w, t); }
    }
  }

  lemma CheckKeepsHistory(s: Use, user: User, key: string, elapsed: Time, u: User)
    requires Sound(s) && HistoryOk(s, u)
    ensures HistoryOk(Apply(s, Check(user, key, elapsed)), u)
  {
    var now := Later(s.now, elapsed);
    CheckKeepsWindow(s.limiter, s.Charged(u), user, key, s.now, now, u);
    CheckOutcome(s.limiter, user, key, now, u);
  }

  lemma UnsettledAppend(leases: seq<Lease>, l: Lease, k: string, stamp: nat)
    ensures Unsettled(leases + [l], k, stamp)
      == Unsettled(leases, k, stamp) + if l.ownerAndKey == k && l.stamp == stamp && !l.settled then 1 else 0
  {
    assert (leases + [l])[..|leases|] == leases;
  }

  lemma {:induction false} UnsettledNone(leases: seq<Lease>, k: string, stamp: nat)
    requires forall i | 0 <= i < |leases| :: leases[i].stamp < stamp
    ensures Unsettled(leases, k, stamp) == 0
  {
    if leases != [] { UnsettledNone(leases[..|leases| - 1], k, stamp); }
  }

  lemma {:induction false} UnsettledUpdate(leases: seq<Lease>, i: nat, k: string, stamp: nat)
    requires i < |leases|
    ensures Unsettled(leases[i := leases[i].(settled := true)], k, stamp)
      == Unsettled(leases, k, stamp)
         - if leases[i].ownerAndKey == k && leases[i].stamp == stamp && !leases[i].settled then 1 else 0
    ensures leases[i].ownerAndKey == k && leases[i].stamp == stamp && !leases[i].settled ==> Unsettled(leases, k, stamp) >= 1
  {
    var n := |leases| - 1;
    var updated := leases[i := leases[i].(settled := true)];
    if i < n {
      assert updated[..n] == leases[..n][i := leases[i].(settled := true)];
      UnsettledUpdate(leases[..n], i, k, stamp);
    } else {
      assert updated[..n] == leases[..n];
    }
  }

  lemma CheckKeepsEntries(s: Use, user: User, key: string, elapsed: Time)
    requires EntriesOk(s)
    ensures EntriesOk(Apply(s, Check(user, key, elapsed)))
  {
    var now := Later(s.now, elapsed);
    var s' := Apply(s, Check(user, key, elapsed));
    var decision := s.limiter.CheckAndConsume(user, key, now).1;
    forall k | k in s'.limiter.inFlight
      ensures s'.limiter.inFlight[k].reservations == Unsettled(s'.leases, k, s'.limiter.inFlight[k].stamp)
    {
      var stamp := s'.limiter.inFlight[k].stamp;
      if decision.Allowed? {
        UnsettledAppend(s.leases, decision.lease, k, stamp);
        if stamp == s.limiter.nextStamp { UnsettledNone(s.leases, k, stamp); }
      }
    }
  }

  lemma SettleKeepsEntries(s: Use, i: nat)
    requires EntriesOk(s)
    ensures EntriesOk(Apply(s, SettleLease(i)))
  {
    var s' := Apply(s, SettleLease(i));
    if i < |s.leases| {
      forall k | k in s'.limiter.inFlight
        ensures s'.limiter.inFlight[k].reservations == Unsettled(s'.leases, k, s'.limiter.inFlight[k].stamp)
      {
        UnsettledUpdate(s.leases, i, k, s'.limiter.inFlight[k].stamp);
      }
    }
  }

  lemma SettleKeepsHistory(s: Use, i: nat, u: User)
    requires HistoryOk(s, u)
    ensures HistoryOk(Apply(s, SettleLease(i)), u)
  {
  }

  lemma ApplyKeepsUse(s: Use, e: Event)
    requires UseOk(s)
    ensures UseOk(Apply(s, e))
  {
    match e
    case Check(user, key, elapsed) =>
      CheckKeepsEntries(s, user, key, elapsed);
      forall u ensures HistoryOk(Apply(s, e), u) { CheckKeepsHistory(s, user, key, elapsed, u); }
    case SettleLease(i) =>
      SettleKeepsEntries(s, i);
      forall u ensures HistoryOk(Apply(s, e), u) { SettleKeepsHistory(s, i, u); }
  }

  lemma {:induction false} UsesKeepUse(limit: int, windowMs: Time, events: seq<Event>)
    requires limit >= 1 && windowMs > 0.0
    ensures UseOk(Uses(Fresh(limit, windowMs), events))
    ensures Uses(Fresh(limit, windowMs), events).limiter.limit == limit
    ensures Uses(Fresh(limit, windowMs), events).limiter.windowMs == windowMs
    decreases |events|
  {
    if events != [] {
      var before := events[..|events| - 1];
      UsesKeepUse(limit, windowMs, before);
      ApplyKeepsUse(Uses(Fresh(limit, windowMs), before), events[|events| - 1]);
    } else {
      assert forall user :: Fresh(limit, windowMs).Charged(user) == [];
    }
  }

  // ---------------------------------------------------------------- what a limiter promises

  /** No user is charged more than `limit` times in any window, over any use of the limiter. */
  lemma ChargesFitEveryWindow(limit: int, windowMs: Time, events: seq<Event>, user: User, t: Time)
    requires limit >= 1 && windowMs > 0.0
    ensures CountWithin(Uses(Fresh(limit, windowMs), events).Charged(user), t, windowMs) <= limit
  {
    UsesKeepUse(limit, windowMs, events);
    var s := Uses(Fresh(limit, windowMs), events);
    assert HistoryOk(s, user);
    WindowHoldsLimit(s.Charged(user), limit, windowMs, t);
  }

  /** A live entry counts exactly the unsettled leases minted from it. */
  lemma ReservationsCountUnsettledLeases(limit: int, windowMs: Time, events: seq<Event>, k: string)
    requires limit >= 1 && windowMs > 0.0
    ensures var s := Uses(Fresh(limit, windowMs), events);
      k in s.limiter.inFlight ==>
        s.limiter.inFlight[k].reservations == Unsettled(s.leases, k, s.limiter.inFlight[k].stamp)
  {
    UsesKeepUse(limit, windowMs, events);
  }

  /** Settling a lease touches only the entry it was minted from, and only once. */
  lemma OldLeasesLeaveNewEntriesAlone(l: Limiter, lease: Lease, k: string)
    requires k in l.inFlight && (lease.settled || lease.ownerAndKey != k || lease.stamp != l.inFlight[k].stamp)
    ensures k in l.Settle(lease).inFlight && l.Settle(lease).inFlight[k] == l.inFlight[k]
  {
  }

  /**
   The advice on refusal is exact: if nothing else is charged meanwhile, a key
   that is not in flight is admitted after k whole seconds iff k reaches it.
   */
  lemma RetryAfterIsLeast(s: Use, user: User, key: string, now: Time, freshKey: string, k: nat)
    requires Sound(s) && HistoryOk(s, user) && now >= s.now
    requires s.limiter.CheckAndConsume(user, key, now).1.Refused?
    requires !s.limiter.CheckAndConsume(user, key, now).0.Live(OwnerAndKey(user, freshKey), now + 1000.0 * k as real)
    ensures var (refused, decision) := s.limiter.CheckAndConsume(user, key, now);
      && decision.retryAfterSeconds >= 1
      && (refused.CheckAndConsume(user, freshKey, now + 1000.0 * k as real).1.Allowed? <==> k >= decision.retryAfterSeconds)
  {
    var w, limit := s.limiter.windowMs, s.limiter.limit;
    var refused := s.limiter.CheckAndConsume(user, key, now).0;
    RefusalIsFull(s, user, key, now);
    AdmittedIffRoom(refused, user, freshKey, now + 1000.0 * k as real);
    RetryIsLeast(Recent(s.Charged(user), now - w), limit, w, now, k);
  }

  /** A key that is not in flight is admitted exactly when the window has room. */
  lemma AdmittedIffRoom(l: Limiter, user: User, key: string, now: Time)
    requires l.limit >= 1 && !l.Live(OwnerAndKey(user, key), now)
    ensures l.CheckAndConsume(user, key, now).1.Allowed? <==> |Recent(l.Stored(user), now - l.windowMs)| < l.limit
  {
    SweepKeepsRecent(l, now, user);
  }

  /** Of `limit` recent attempts one drops out of the window exactly when the oldest does. */
  lemma RetryIsLeast(recent: seq<Time>, limit: int, w: Time, now: Time, k: nat)
    requires limit >= 1 && |recent| == limit && Sorted(recent) && forall i | 0 <= i < |recent| :: recent[i] > now - w
    ensures RetryAfter(recent[0], w, now) >= 1
    ensures |Recent(recent, now + 1000.0 * k as real - w)| < limit <==> k >= RetryAfter(recent[0], w, now)
  {
    RecentIsSuffix(recent, now + 1000.0 * k as real - w);
    CeilIsLeast((recent[0] + w - now) / 1000.0, k);
    CeilIsLeast((recent[0] + w - now) / 1000.0, 0);
  }

  /** A refusal sees exactly `limit` recent charges and stores them. */
  lemma RefusalIsFull(s: Use, user: User, key: string, now: Time)
    requires Sound(s) && HistoryOk(s, user) && now >= s.now && s.limiter.CheckAndConsume(user, key, now).1.Refused?
    ensures var w := s.limiter.windowMs;
      var recent := Recent(s.Charged(user), now - w);
      var (refused, decision) := s.limiter.CheckAndConsume(user, key, now);
      && |recent| == s.limiter.limit && Sorted(recent) && (forall i | 0 <= i < |recent| :: recent[i] > now - w)
      && refused.Stored(user) == recent && refused.limit == s.limiter.limit && refused.windowMs == w
      && decision.retryAfterSeconds == RetryAfter(recent[0], w, now)
  {
    hide Recent, Spaced, Sorted, RetryAfter;
    CheckSeesCharges(s, user, now);
    SweepKeepsRecent(s.limiter, now, user);
    CheckOutcome(s.limiter, user, key, now, user);
    FullWindow(s.Charged(user), s.limiter.limit, s.limiter.windowMs, now);
  }

  lemma FullWindow(h: seq<Time>, limit: int, w: Time, now: Time)
    requires limit >= 1 && Sorted(h) && Spaced(h, limit, w) && (forall i | 0 <= i < |h| :: h[i] <= now)
    ensures var recent := Recent(h, now - w);
      |recent| <= limit && Sorted(recent) && forall i | 0 <= i < |recent| :: recent[i] > now - w
  {
    hide Recent, Spaced;
    RecentIsSuffix(h, now - w);
    RecentCounts(h, now, w);
    WindowHoldsLimit(h, limit, w, now);
  }

  lemma CeilIsLeast(x: real, k: nat)
    ensures k >= Ceil(x) <==> k as real >= x
  {
  }

  // ---------------------------------------------------------------- sweeping changes no decision

  /** The decisions a limiter gives, with or without the sweep. */
  function Answers(l: Limiter, leases: seq<Lease>, now: Time, events: seq<Event>, sweeping: bool): seq<Decision>
    decreases |events|
  {
    if events == [] then []
    else
      match events[0]
      case Check(user, key, elapsed) =>
        var t := Later(now, elapsed);
        var (l', decision) := if sweeping then l.CheckAndConsume(user, key, t) else l.Decide(user, key, t);
        var leases' := if decision.Allowed? then leases + [decision.lease] else leases;
        [decision] + Answers(l', leases', t, events[1..], sweeping)
      case SettleLease(i) =>
        if i >= |leases| then Answers(l, leases, now, events[1..], sweeping)
        else Answers(l.Settle(leases[i]), leases[i := leases[i].(settled := true)], now, events[1..], sweeping)
  }

  ghost predicate AgreeUser(a: Limiter, b: Limiter, u: User, now: Time) {
    Recent(a.Stored(u), now - a.windowMs) == Recent(b.Stored(u), now - a.windowMs)
  }

  ghost predicate AgreeKey(a: Limiter, b: Limiter, k: string, now: Time) {
    a.Live(k, now) == b.Live(k, now) && (a.Live(k, now) ==> a.inFlight[k] == b.inFlight[k])
  }

  /** Two limiters agree on everything that can still matter at `now` or later. */
  ghost predicate Agree(a: Limiter, b: Limiter, now: Time) {
    && a.limit == b.limit && a.windowMs == b.windowMs && a.nextStamp == b.nextStamp
    && (forall u :: AgreeUser(a, b, u, now))
    && (forall k :: AgreeKey(a, b, k, now))
  }

  lemma AgreementLasts(a: Limiter, b: Limiter, now: Time, t: Time)
    requires Agree(a, b, now) && t >= now
    ensures Agree(a, b, t)
  {
    forall u ensures AgreeUser(a, b, u, t) {
      assert AgreeUser(a, b, u, now);
      RecentAgree(a.Stored(u), b.Stored(u), now - a.windowMs, t - a.windowMs);
    }
    forall k ensures AgreeKey(a, b, k, t) { assert AgreeKey(a, b, k, now); }
  }

  lemma SweepAgrees(a: Limiter, b: Limiter, now: Time)
    requires Agree(a, b, now)
    ensures Agree(a.Sweep(now), b, now)
  {
    forall u ensures AgreeUser(a.Sweep(now), b, u, now) {
      assert AgreeUser(a, b, u, now);
      SweepKeepsRecent(a, now, u);
    }
    forall k ensures AgreeKey(a.Sweep(now), b, k, now) { assert AgreeKey(a, b, k, now); }
  }

  /** A decision rests on the recent attempts and the live entry alone. */
  lemma SameDecision(a: Limiter, b: Limiter, user: User, key: string, now: Time)
    requires a.limit == b.limit && a.windowMs == b.windowMs && a.nextStamp == b.nextStamp && a.windowMs > 0.0
    requires AgreeUser(a, b, user, now) && AgreeKey(a, b, OwnerAndKey(user, key), now)
    ensures var (a', da) := a.Decide(user, key, now);
      var (b', db) := b.Decide(user, key, now);
      && da == db && a'.limit == b'.limit && a'.windowMs == b'.windowMs == a.windowMs && a'.nextStamp == b'.nextStamp
      && AgreeUser(a', b', user, now) && AgreeKey(a', b', OwnerAndKey(user, key), now)
  {
  }

  lemma DecideLeavesOthers(a: Limiter, user: User, key: string, now: Time, u: User, k: string)
    ensures u != user ==> a.Decide(user, key, now).0.Stored(u) == a.Stored(u)
    ensures k != OwnerAndKey(user, key) ==>
      (k in a.Decide(user, key, now).0.inFlight) == (k in a.inFlight)
    ensures k != OwnerAndKey(user, key) && k in a.inFlight ==> a.Decide(user, key, now).0.inFlight[k] == a.inFlight[k]
  {
  }

  lemma DecideAgrees(a: Limiter, b: Limiter, user: User, key: string, now: Time)
    requires Agree(a, b, now) && a.windowMs > 0.0
    ensures a.Decide(user, key, now).1 == b.Decide(user, key, now).1
    ensures Agree(a.Decide(user, key, now).0, b.Decide(user, key, now).0, now)
  {
    var a', b' := a.Decide(user, key, now).0, b.Decide(user, key, now).0;
    assert AgreeUser(a, b, user, now) && AgreeKey(a, b, OwnerAndKey(user, key), now);
    SameDecision(a, b, user, key, now);
    forall u ensures AgreeUser(a', b', u, now) {
      assert AgreeUser(a, b, u, now);
      DecideLeavesOthers(a, user, key, now, u, "");
      DecideLeavesOthers(b, user, key, now, u, "");
    }
    forall k ensures AgreeKey(a', b', k, now) {
      assert AgreeKey(a, b, k, now);
      DecideLeavesOthers(a, user, key, now, user, k);
      DecideLeavesOthers(b, user, key, now, user, k);
    }
  }

  lemma SettleAgrees(a: Limiter, b: Limiter, lease: Lease, now: Time)
    requires Agree(a, b, now)
    ensures Agree(a.Settle(lease), b.Settle(lease), now)
  {
    var a', b' := a.Settle(lease), b.Settle(lease);
    forall u ensures AgreeUser(a', b', u, now) {
      assert AgreeUser(a, b, u, now);
      assert a'.Stored(u) == a.Stored(u) && b'.Stored(u) == b.Stored(u);
    }
    forall k ensures AgreeKey(a', b', k, now) { SettleAgreesOn(a, b, lease, now, k); }
  }

  lemma SettleAgreesOn(a: Limiter, b: Limiter, lease: Lease, now: Time, k: string)
    requires AgreeKey(a, b, k, now)
    ensures AgreeKey(a.Settle(lease), b.Settle(lease), k, now)
  {
  }

  /** The sweeping limiter answers every use exactly as one that never sweeps. */
  lemma {:induction false} SweepingChangesNoAnswer(a: Limiter, b: Limiter, leases: seq<Lease>, now: Time, events: seq<Event>)
    requires Agree(a, b, now) && a.windowMs > 0.0
    ensures Answers(a, leases, now, events, true) == Answers(b, leases, now, events, false)
    decreases |events|
  {
    if events != [] {
      match events[0]
      case Check(user, key, elapsed) =>
        var t := Later(now, elapsed);
        AgreementLasts(a, b, now, t);
        SweepAgrees(a, b, t);
        DecideAgrees(a.Sweep(t), b, user, key, t);
        var (a', decision) := a.CheckAndConsume(user, key, t);
        var leases' := if decision.Allowed? then leases + [decision.lease] else leases;
        SweepingChangesNoAnswer(a', b.Decide(user, key, t).0, leases', t, events[1..]);
      case SettleLease(i) =>
        if i >= |leases| { SweepingChangesNoAnswer(a, b, leases, now, events[1..]); }
        else {
          SettleAgrees(a, b, leases[i], now);
          SweepingChangesNoAnswer(a.Settle(leases[i]), b.Settle(leases[i]), leases[i := leases[i].(settled := true)], now, events[1..]);
        }
    }
  }

  // ---------------------------------------------------------------- what the sweep leaves

  /** The user and key of every check. */
  type Pairs = set<(User, string)>

  function Checked(events: seq<Event>): Pairs {
    set e | e in events && e.Check? :: (e.user, e.key)
  }

  /** Among these, the concatenation tells the users apart. */
  predicate TellsUsersApart(pairs: Pairs) {
    forall p, q | p in pairs && q in pairs && OwnerAndKey(p.0, p.1) == OwnerAndKey(q.0, q.1) :: p.0 == q.0
  }

  /** As it does for user ids without NUL. */
  lemma UsersWithoutNul(pairs: Pairs)
    requires forall p | p in pairs :: NUL[0] !in p.0
    ensures TellsUsersApart(pairs)
  {
    forall p, q | p in pairs && q in pairs && OwnerAndKey(p.0, p.1) == OwnerAndKey(q.0, q.1) ensures p.0 == q.0 {
      OwnerAndKeyInjective(p.0, p.1, q.0, q.1);
    }
  }

  /** A live entry stems from a charge of a user that checked under its key. */
  ghost predicate Backed(s: Use, pairs: Pairs, k: string) {
    k in s.limiter.inFlight ==> exists p :: Backs(s, pairs, k, p)
  }

  ghost predicate Backs(s: Use, pairs: Pairs, k: string, p: (User, string))
    requires k in s.limiter.inFlight
  {
    && p in pairs && k == OwnerAndKey(p.0, p.1)
    && Contains(s.Charged(p.0), s.limiter.inFlight[k].expiresAt - s.limiter.windowMs)
  }

  ghost predicate Contains(xs: seq<Time>, x: Time) {
    exists i | 0 <= i < |xs| :: xs[i] == x
  }

  /** The next sweep is at most a window away, and every user was recent at the last one. */
  ghost predicate SweptShape(l: Limiter, now: Time) {
    && now < l.nextSweepAt <= now + l.windowMs
    && forall u | u in l.attempts :: WasRecent(l, u)
  }

  ghost predicate WasRecent(l: Limiter, u: User)
    requires u in l.attempts
  {
    Recent(l.attempts[u], l.nextSweepAt - 2.0 * l.windowMs) != []
  }

  ghost predicate RetainedOk(s: Use, pairs: Pairs) {
    && (forall k :: Backed(s, pairs, k))
    && (SweptShape(s.limiter, s.now) || (s.limiter.attempts == map[] && s.limiter.nextSweepAt == 0.0))
  }

  lemma {:induction false} RecentLoosens(xs: seq<Time>, c1: Time, c2: Time)
    requires c2 <= c1 && Recent(xs, c1) != []
    ensures Recent(xs, c2) != []
  {
    RecentTwice(xs, c2, c1);
  }

  lemma LiveEntry(l: Limiter, k: string, now: Time)
    requires l.Sweep(now).Live(k, now)
    ensures k in l.inFlight && l.inFlight[k].expiresAt > now
  {
    hide Recent;
  }

  lemma SameUser(pairs: Pairs, p: (User, string), user: User, key: string)
    requires TellsUsersApart(pairs) && p in pairs && (user, key) in pairs && OwnerAndKey(p.0, p.1) == OwnerAndKey(user, key)
    ensures p.0 == user
  {
    hide OwnerAndKey;
    var q := (user, key);
    assert q.0 == user && q.1 == key;
  }

  lemma LiveUserIsRecent(s: Use, pairs: Pairs, user: User, key: string, now: Time)
    requires HistoryOk(s, user) && Backed(s, pairs, OwnerAndKey(user, key)) && now >= s.now
    requires (user, key) in pairs && TellsUsersApart(pairs)
    requires s.limiter.Sweep(now).Live(OwnerAndKey(user, key), now)
    ensures Recent(s.limiter.Sweep(now).Stored(user), now - s.limiter.windowMs) != []
  {
    hide Recent, Contains, OwnerAndKey, Limiter.Sweep, Limiter.Live, Limiter.Stored, TellsUsersApart, Sorted;
    var k := OwnerAndKey(user, key);
    LiveEntry(s.limiter, k, now);
    var p :| Backs(s, pairs, k, p);
    SameUser(pairs, p, user, key);
    ContainedIsRecent(s.Charged(user), s.limiter.inFlight[k].expiresAt - s.limiter.windowMs, now - s.limiter.windowMs);
    CheckSeesCharges(s, user, now);
  }

  lemma ContainedIsRecent(xs: seq<Time>, x: Time, c: Time)
    requires Sorted(xs) && Contains(xs, x) && x > c
    ensures Recent(xs, c) != []
  {
    RecentIsSuffix(xs, c);
  }

  lemma ContainsGrows(xs: seq<Time>, y: Time, x: Time)
    ensures Contains(xs, x) ==> Contains(xs + [y], x)
    ensures Contains(xs + [y], y)
  {
    assert (xs + [y])[|xs|] == y;
    if Contains(xs, x) {
      var i :| 0 <= i < |xs| && xs[i] == x;
      assert (xs + [y])[i] == x;
    }
  }

  lemma CheckKeepsBacked(s: Use, pairs: Pairs, user: User, key: string, elapsed: Time, k: string)
    requires Backed(s, pairs, k) && (user, key) in pairs
    ensures Backed(Apply(s, Check(user, key, elapsed)), pairs, k)
  {
    var s' := Apply(s, Check(user, key, elapsed));
    var now := Later(s.now, elapsed);
    if k in s'.limiter.inFlight {
      var expiresAt := s'.limiter.inFlight[k].expiresAt;
      ContainsGrows(s.Charged(user), now, expiresAt - s.limiter.windowMs);
      if k in s.limiter.inFlight && expiresAt == s.limiter.inFlight[k].expiresAt {
        var p :| Backs(s, pairs, k, p);
        assert Backs(s', pairs, k, p);
      } else {
        assert Backs(s', pairs, k, (user, key));
      }
    }
  }

  lemma SettleKeepsBacked(s: Use, pairs: Pairs, i: nat, k: string)
    requires Backed(s, pairs, k)
    ensures Backed(Apply(s, SettleLease(i)), pairs, k)
  {
    var s' := Apply(s, SettleLease(i));
    if k in s'.limiter.inFlight {
      var p :| Backs(s, pairs, k, p);
      assert Backs(s', pairs, k, p);
    }
  }

  /** After the sweep that precedes a check, the next one is due within a window. */
  lemma SweepShapes(l: Limiter, now: Time, t: Time)
    requires t >= now >= 0.0 && l.windowMs > 0.0
    requires SweptShape(l, now) || (l.attempts == map[] && l.nextSweepAt == 0.0)
    ensures SweptShape(l.Sweep(t), t)
  {
    var swept := l.Sweep(t);
    forall u | u in swept.attempts ensures WasRecent(swept, u) {
      if t < l.nextSweepAt { assert WasRecent(l, u); }
    }
  }

  /** A decision stores attempts of the last window only, and never an empty list. */
  lemma DecideShapes(l: Limiter, user: User, key: string, now: Time)
    requires SweptShape(l, now) && l.windowMs > 0.0 && l.limit >= 1
    requires l.Live(OwnerAndKey(user, key), now) ==> Recent(l.Stored(user), now - l.windowMs) != []
    ensures SweptShape(l.Decide(user, key, now).0, now)
  {
    var l' := l.Decide(user, key, now).0;
    var recent := Recent(l.Stored(user), now - l.windowMs);
    RecentTwice(l.Stored(user), now - l.windowMs, now - l.windowMs);
    RecentAppend(recent, [now], now - l.windowMs);
    assert l'.attempts[user] == recent || l'.attempts[user] == recent + [now];
    RecentLoosens(l'.attempts[user], now - l.windowMs, l.nextSweepAt - 2.0 * l.windowMs);
    forall u | u in l'.attempts ensures WasRecent(l', u) {
      if u != user { assert u in l.attempts && WasRecent(l, u); }
    }
  }

  lemma CheckShapes(s: Use, pairs: Pairs, user: User, key: string, now: Time)
    requires UseOk(s) && RetainedOk(s, pairs) && (user, key) in pairs && TellsUsersApart(pairs) && now >= s.now
    ensures SweptShape(s.limiter.CheckAndConsume(user, key, now).0, now)
  {
    SweepShapes(s.limiter, s.now, now);
    SweepKeepsRecent(s.limiter, now, user);
    if s.limiter.Sweep(now).Live(OwnerAndKey(user, key), now) { LiveUserIsRecent(s, pairs, user, key, now); }
    DecideShapes(s.limiter.Sweep(now), user, key, now);
  }

  lemma CheckKeepsRetained(s: Use, pairs: Pairs, user: User, key: string, elapsed: Time)
    requires UseOk(s) && RetainedOk(s, pairs) && (user, key) in pairs && TellsUsersApart(pairs)
    ensures RetainedOk(Apply(s, Check(user, key, elapsed)), pairs)
  {
    forall k ensures Backed(Apply(s, Check(user, key, elapsed)), pairs, k) { CheckKeepsBacked(s, pairs, user, key, elapsed, k); }
    CheckShapes(s, pairs, user, key, Later(s.now, elapsed));
  }

  lemma {:induction false} UsesKeepRetained(limit: int, windowMs: Time, events: seq<Event>, pairs: Pairs)
    requires limit >= 1 && windowMs > 0.0 && Checked(events) <= pairs && TellsUsersApart(pairs)
    ensures RetainedOk(Uses(Fresh(limit, windowMs), events), pairs)
    decreases |events|
  {
    if events != [] {
      var before, last := events[..|events| - 1], events[|events| - 1];
      assert events == before + [last];
      var s := Uses(Fresh(limit, windowMs), before);
      UsesKeepUse(limit, windowMs, before);
      UsesKeepRetained(limit, windowMs, before, pairs);
      match last
      case Check(user, key, elapsed) =>
        assert (user, key) in Checked(events);
        CheckKeepsRetained(s, pairs, user, key, elapsed);
      case SettleLease(i) => SettleKeepsRetained(s, pairs, i);
    }
  }

  lemma SettleKeepsRetained(s: Use, pairs: Pairs, i: nat)
    requires RetainedOk(s, pairs)
    ensures RetainedOk(Apply(s, SettleLease(i)), pairs)
  {
    var s' := Apply(s, SettleLease(i));
    forall k ensures Backed(s', pairs, k) { SettleKeepsBacked(s, pairs, i, k); }
    if SweptShape(s.limiter, s.now) {
      forall u | u in s'.limiter.attempts ensures WasRecent(s'.limiter, u) { assert WasRecent(s.limiter, u); }
    }
  }

  /**
   Unless two users share a concatenated key, every user the limiter still
   remembers made an attempt within the last two windows.
   */
  lemma RetainedUsersAreRecent(limit: int, windowMs: Time, events: seq<Event>, user: User)
    requires limit >= 1 && windowMs > 0.0 && TellsUsersApart(Checked(events))
    ensures var s := Uses(Fresh(limit, windowMs), events);
      user in s.limiter.attempts ==> Recent(s.limiter.attempts[user], s.now - 2.0 * windowMs) != []
  {
    UsesKeepUse(limit, windowMs, events);
    UsesKeepRetained(limit, windowMs, events, Checked(events));
    var s := Uses(Fresh(limit, windowMs), events);
    if user in s.limiter.attempts {
      assert WasRecent(s.limiter, user);
      RecentLoosens(s.limiter.attempts[user], s.limiter.nextSweepAt - 2.0 * windowMs, s.now - 2.0 * windowMs);
    }
  }

  /** Two users that do share one: the second joins the entry of the first and is remembered without any attempt. */
  lemma SharedKeysRetainWithoutAttempts(limit: int, windowMs: Time, u1: User, k1: string, u2: User, k2: string)
    requires limit >= 1 && windowMs > 0.0 && u1 != u2 && OwnerAndKey(u1, k1) == OwnerAndKey(u2, k2)
    ensures var s := Uses(Fresh(limit, windowMs), [Check(u1, k1, 0.0), Check(u2, k2, 0.0)]);
      u2 in s.limiter.attempts && s.limiter.attempts[u2] == []
  {
    var a, b := Check(u1, k1, 0.0), Check(u2, k2, 0.0);
    TwoUses(Fresh(limit, windowMs), a, b);
    var s := Apply(Fresh(limit, windowMs), a);
    assert u2 !in s.limiter.attempts && s.limiter.nextSweepAt == windowMs;
    assert s.limiter.inFlight[OwnerAndKey(u1, k1)].expiresAt == windowMs;
    assert s.limiter.Sweep(0.0).Live(OwnerAndKey(u2, k2), 0.0);
    assert Recent([], 0.0 - windowMs) == [];
  }

  lemma TwoUses(s: Use, a: Event, b: Event)
    ensures Uses(s, [a, b]) == Apply(Apply(s, a), b)
  {
    hide Apply;
    assert [a, b][..1] == [a] && [a][..0] == [];
    assert Uses(s, [a]) == Apply(Uses(s, []), a);
  }

  // ---------------------------------------------------------------- the limiter in place

  /** A lease of an admission; completing and failing it both settle it. */
  class AttemptLease {
    const ownerAndKey: string
    const stamp: nat
    var settled: bool

    constructor (ownerAndKey: string, stamp: nat)
      ensures this.ownerAndKey == ownerAndKey && this.stamp == stamp && !settled
    {
      this.ownerAndKey := ownerAndKey;
      this.stamp := stamp;
      settled := false;
    }

    ghost function Value(): Lease
      reads this
    {
      Lease(ownerAndKey, stamp, settled)
    }
  }

  class InMemoryActivityAttemptRateLimiter {
    const limit: int
    const windowMs: Time
    var attemptsByUser: map<User, seq<Time>>
    var inFlightByOwnerAndKey: map<string, InFlight>
    var nextSweepAt: Time
    var nextStamp: nat

    ghost function View(): Limiter
      reads this
    {
      Limiter(limit, windowMs, attemptsByUser, inFlightByOwnerAndKey, nextSweepAt, nextStamp)
    }

    constructor (limit: int, windowMs: Time)
      ensures View() == NewLimiter(limit, windowMs)
    {
      this.limit, this.windowMs := limit, windowMs;
      attemptsByUser, inFlightByOwnerAndKey, nextSweepAt, nextStamp := map[], map[], 0.0, 0;
    }

    /** A limit below one or a window that is not positive is refused. */
    static method Create(limit: int, windowMs: Time) returns (r: Option<InMemoryActivityAttemptRateLimiter>)
      ensures r.Some? <==> limit >= 1 && windowMs > 0.0
      ensures r.Some? ==> fresh(r.value) && r.value.View() == NewLimiter(limit, windowMs)
    {
      if limit < 1 || windowMs <= 0.0 {
        return None;
      }
      var limiter := new InMemoryActivityAttemptRateLimiter(limit, windowMs);
      return Some(limiter);
    }

    method FilterRecent(attempts: seq<Time>, cutoff: Time) returns (recent: seq<Time>)
      ensures recent == Recent(attempts, cutoff)
    {
      recent := [];
      var i := 0;
      while i < |attempts|
        invariant 0 <= i <= |attempts|
        invariant recent + Recent(attempts[i..], cutoff) == Recent(attempts, cutoff)
      {
        RecentHead(attempts, i, cutoff);
        if attempts[i] > cutoff {
          recent := recent + [attempts[i]];
        }
        i := i + 1;
      }
    }

    method SweepUsers(cutoff: Time)
      modifies this`attemptsByUser
      ensures attemptsByUser == map u | u in old(attemptsByUser) && Recent(old(attemptsByUser)[u], cutoff) != [] :: old(attemptsByUser)[u]
    {
      var users := attemptsByUser.Keys;
      while users != {}
        invariant users <= old(attemptsByUser).Keys
        invariant attemptsByUser == map u | u in old(attemptsByUser)
                    && (u in users || Recent(old(attemptsByUser)[u], cutoff) != []) :: old(attemptsByUser)[u]
        decreases users
      {
        var user :| user in users;
        var recent := FilterRecent(attemptsByUser[user], cutoff);
        if recent == [] {
          attemptsByUser := attemptsByUser - {user};
        }
        users := users - {user};
      }
    }

    method SweepEntries(now: Time)
      modifies this`inFlightByOwnerAndKey
      ensures inFlightByOwnerAndKey
           == map k | k in old(inFlightByOwnerAndKey) && old(inFlightByOwnerAndKey)[k].expiresAt > now :: old(inFlightByOwnerAndKey)[k]
    {
      var keys := inFlightByOwnerAndKey.Keys;
      while keys != {}
        invariant keys <= old(inFlightByOwnerAndKey).Keys
        invariant inFlightByOwnerAndKey == map k | k in old(inFlightByOwnerAndKey)
                    && (k in keys || old(inFlightByOwnerAndKey)[k].expiresAt > now) :: old(inFlightByOwnerAndKey)[k]
        decreases keys
      {
        var key :| key in keys;
        if inFlightByOwnerAndKey[key].expiresAt <= now {
          inFlightByOwnerAndKey := inFlightByOwnerAndKey - {key};
        }
        keys := keys - {key};
      }
    }

    method SweepExpiredUsers(now: Time)
      modifies this
      ensures View() == old(View()).Sweep(now)
    {
      if now < nextSweepAt {
        return;
      }
      SweepUsers(now - windowMs);
      SweepEntries(now);
      nextSweepAt := now + windowMs;
    }

    /** An admission returns a lease, a refusal the seconds to wait. */
    method CheckAndConsume(user: User, key: string, now: Time) returns (lease: AttemptLease?, retryAfterSeconds: int)
      requires limit >= 1
      modifies this
      ensures View() == old(View()).CheckAndConsume(user, key, now).0
      ensures lease != null ==> fresh(lease) && Allowed(lease.Value()) == old(View()).CheckAndConsume(user, key, now).1
      ensures lease == null ==> Refused(retryAfterSeconds) == old(View()).CheckAndConsume(user, key, now).1
    {
      SweepExpiredUsers(now);
      var stored := if user in attemptsByUser then attemptsByUser[user] else [];
      var recent := FilterRecent(stored, now - windowMs);
      var ownerAndKey := OwnerAndKey(user, key);
      lease, retryAfterSeconds := null, 0;
      if ownerAndKey in inFlightByOwnerAndKey && inFlightByOwnerAndKey[ownerAndKey].expiresAt > now {
        var entry := inFlightByOwnerAndKey[ownerAndKey];
        inFlightByOwnerAndKey := inFlightByOwnerAndKey[ownerAndKey := entry.(reservations := entry.reservations + 1)];
        attemptsByUser := attemptsByUser[user := recent];
        lease := new AttemptLease(ownerAndKey, entry.stamp);
      } else if |recent| >= limit {
        attemptsByUser := attemptsByUser[user := recent];
        retryAfterSeconds := RetryAfter(recent[0], windowMs, now);
      } else {
        attemptsByUser := attemptsByUser[user := recent + [now]];
        inFlightByOwnerAndKey := inFlightByOwnerAndKey[ownerAndKey := InFlight(nextStamp, now + windowMs, 1)];
        lease := new AttemptLease(ownerAndKey, nextStamp);
        nextStamp := nextStamp + 1;
      }
    }

    method Settle(lease: AttemptLease)
      modifies this, lease
      ensures View() == old(View()).Settle(old(lease.Value())) && lease.settled
    {
      if lease.settled {
        return;
      }
      lease.settled := true;
      var key := lease.ownerAndKey;
      if key !in inFlightByOwnerAndKey || inFlightByOwnerAndKey[key].stamp != lease.stamp {
        return;
      }
      var entry := inFlightByOwnerAndKey[key];
      if entry.reservations <= 1 {
        inFlightByOwnerAndKey := inFlightByOwnerAndKey - {key};
      } else {
        inFlightByOwnerAndKey := inFlightByOwnerAndKey[key := entry.(reservations := entry.reservations - 1)];
      }
    }
  }
}
