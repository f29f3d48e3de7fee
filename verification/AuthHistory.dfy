/**
 What a run leaves behind: fences, refresh calls, publications, latches and
 presentation effects, read off the log of the run.
 */
module AuthHistory {
  import opened Basics
  import opened AuthKernel
  import opened AuthRuntime
  import opened AuthStructure

  // ---------------------------------------------------------------- reading the log

  function Fences(log: seq<Event>): seq<nat> {
    if log == [] then []
    else Fences(log[..|log| - 1]) + (var e := log[|log| - 1]; if e.Fenced? then [e.expected] else [])
  }

  function Refreshes(log: seq<Event>): seq<nat> {
    if log == [] then []
    else Refreshes(log[..|log| - 1]) + (var e := log[|log| - 1]; if e.RefreshCalled? then [e.generation] else [])
  }

  function Publications(log: seq<Event>): seq<(Snapshot, nat)> {
    if log == [] then []
    else Publications(log[..|log| - 1])
         + (var e := log[|log| - 1]; if e.Published? then [(e.snapshot, e.generation)] else [])
  }

  function DrainedEffects(log: seq<Event>): seq<Effect> {
    if log == [] then []
    else DrainedEffects(log[..|log| - 1]) + (var e := log[|log| - 1]; if e.Drained? then e.effects else [])
  }

  function Latches(log: seq<Event>): nat {
    if log == [] then 0
    else Latches(log[..|log| - 1]) + (var e := log[|log| - 1]; if e.Published? && e.source == ByLatch then 1 else 0)
  }

  lemma ReadAppended(log: seq<Event>, e: Event)
    ensures Fences(log + [e]) == if e.Fenced? then Fences(log) + [e.expected] else Fences(log)
    ensures Refreshes(log + [e]) == if e.RefreshCalled? then Refreshes(log) + [e.generation] else Refreshes(log)
    ensures Publications(log + [e])
         == if e.Published? then Publications(log) + [(e.snapshot, e.generation)] else Publications(log)
    ensures DrainedEffects(log + [e]) == if e.Drained? then DrainedEffects(log) + e.effects else DrainedEffects(log)
    ensures Latches(log + [e]) == if e.Published? && e.source == ByLatch then Latches(log) + 1 else Latches(log)
  {
    assert (log + [e])[..|log|] == log;
  }

  // ---------------------------------------------------------------- what holds of it

  predicate FromFence(source: Source) {
    source == ByTransition || source == ByWipe || source == ByStoreFailure
  }

  /** The fence that opened generation `g` has published a snapshot at `g`. */
  ghost predicate FencePublished(log: seq<Event>, g: nat) {
    exists i | 0 <= i < |log| :: log[i].Published? && log[i].generation == g && FromFence(log[i].source)
  }

  ghost predicate Increasing(xs: seq<nat>) {
    forall i, j | 0 <= i < j < |xs| :: xs[i] < xs[j]
  }

  ghost predicate SequencesIncrease(effects: seq<Effect>) {
    forall i, j | 0 <= i < j < |effects| :: effects[i].sequence < effects[j].sequence
  }

  ghost predicate FencesOk(core: Core, log: seq<Event>, first: nat) {
    && first <= core.generation && |Fences(log)| == core.generation - first
    && forall i | 0 <= i < |Fences(log)| :: Fences(log)[i] == first + i
  }

  ghost predicate RefreshesOk(core: Core, log: seq<Event>) {
    && Increasing(Refreshes(log))
    && forall i | 0 <= i < |Refreshes(log)| ::
         Refreshes(log)[i] < core.generation
         || (Refreshes(log)[i] == core.generation && core.refreshAttempted == Some(core.generation))
  }

  ghost predicate EffectsOk(core: Core, log: seq<Event>) {
    && SequencesIncrease(DrainedEffects(log) + core.effects)
    && (forall e | e in DrainedEffects(log) + core.effects :: e.sequence < core.nextSequence)
    && (forall e | e in core.effects :: e.generation == core.generation && (core.terminal ==> e.origin == SafeTerminalError))
  }

  ghost predicate SettledOk(core: Core, log: seq<Event>, first: nat) {
    !core.terminal && core.generation > first ==>
      || (core.active.Some? && core.active.value.kind == CleanupKind)
      || FencePublished(log, core.generation)
  }

  ghost predicate Hist(core: Core, log: seq<Event>, first: nat) {
    && FencesOk(core, log, first) && RefreshesOk(core, log) && EffectsOk(core, log) && SettledOk(core, log, first)
    && core.published == Publications(log)
    && Latches(log) == (if core.terminal then 1 else 0)
    && (core.terminal ==> core.active.None? && core.snapshot == TerminalSnapshot(TransientFailure))
  }

  // ---------------------------------------------------------------- kinds of change

  lemma SettledGrows(log: seq<Event>, e: Event, g: nat)
    ensures FencePublished(log, g) ==> FencePublished(log + [e], g)
  {
    if FencePublished(log, g) {
      var i :| 0 <= i < |log| && log[i].Published? && log[i].generation == g && FromFence(log[i].source);
      assert (log + [e])[i] == log[i];
    }
  }

  lemma HistLog(core: Core, log: seq<Event>, first: nat, e: Event)
    requires Hist(core, log, first) && (e.VaultReplaced? || e.OwnerBound? || e.OwnerVerified?)
    ensures Hist(core, log + [e], first)
  {
    ReadAppended(log, e);
    SettledGrows(log, e, core.generation);
  }

  lemma HistPublish(core: Core, log: seq<Event>, first: nat, sn: Snapshot, source: Source)
    requires Hist(core, log, first) && source != ByLatch && !core.terminal
    ensures Hist(core.Publish(sn), log + [Published(sn, core.generation, source)], first)
    ensures FromFence(source) ==> FencePublished(log + [Published(sn, core.generation, source)], core.generation)
  {
    var e := Published(sn, core.generation, source);
    ReadAppended(log, e);
    SettledGrows(log, e, core.generation);
    assert (log + [e])[|log|] == e;
  }

  lemma HistEnqueue(core: Core, log: seq<Event>, first: nat, origin: RuntimeState, payload: Payload)
    requires Hist(core, log, first) && !core.terminal
    ensures Hist(core.Enqueue(core.generation, origin, payload), log, first)
  {
    var e := Effect(core.generation, core.nextSequence, origin, payload);
    assert DrainedEffects(log) + (core.effects + [e]) == (DrainedEffects(log) + core.effects) + [e];
  }

  lemma HistEnqueueAll(core: Core, log: seq<Event>, first: nat, g: nat, origin: RuntimeState, payloads: seq<Payload>)
    requires Hist(core, log, first) && !core.terminal && g == core.generation
    ensures Hist(core.EnqueueAll(g, origin, payloads), log, first)
    decreases |payloads|
  {
    if payloads != [] {
      HistEnqueue(core, log, first, origin, payloads[0]);
      HistEnqueueAll(core.Enqueue(g, origin, payloads[0]), log, first, g, origin, payloads[1..]);
    }
  }

  /** Clearing the queue leaves the drained effects in order. */
  lemma OnlyDrained(core: Core, log: seq<Event>)
    requires EffectsOk(core, log)
    ensures SequencesIncrease(DrainedEffects(log))
    ensures forall e | e in DrainedEffects(log) :: e.sequence < core.nextSequence
  {
    var drained := DrainedEffects(log);
    forall i, j | 0 <= i < j < |drained| ensures drained[i].sequence < drained[j].sequence {
      assert drained[i] == (drained + core.effects)[i] && drained[j] == (drained + core.effects)[j];
    }
  }

  lemma LatchedEffects(core: Core, drained: seq<Effect>)
    requires SequencesIncrease(drained) && forall e | e in drained :: e.sequence < core.nextSequence
    ensures var latched := core.LatchTerminal(TransientFailure);
      && SequencesIncrease(drained + latched.effects)
      && (forall e | e in drained + latched.effects :: e.sequence < latched.nextSequence)
      && (forall e | e in latched.effects :: e.generation == core.generation && e.origin == SafeTerminalError)
  {
    var latched := core.LatchTerminal(TransientFailure);
    assert latched.effects == [Effect(core.generation, core.nextSequence, SafeTerminalError, TERMINAL_ENTRY)];
  }

  lemma HistLatch(s: State, first: nat)
    requires Hist(s.core, s.log, first) && !s.core.terminal
    ensures Hist(s.Latch().core, s.Latch().log, first)
  {
    ReadAppended(s.log, Published(TerminalSnapshot(TransientFailure), s.core.generation, ByLatch));
    OnlyDrained(s.core, s.log);
    LatchedEffects(s.core, DrainedEffects(s.log));
  }

  lemma HistTake(core: Core, log: seq<Event>, first: nat, r: Reservation)
    requires Hist(core, log, first) && core.active.None? && !core.terminal
    ensures Hist(core.Take(r), log, first)
  {
  }

  lemma HistFinish(core: Core, log: seq<Event>, first: nat, r: Reservation)
    requires Hist(core, log, first)
    requires core.active.Some? && core.active.value.id == r.id && core.active.value.kind == CleanupKind
      ==> FencePublished(log, core.generation)
    ensures Hist(core.Finish(r), log, first)
  {
  }

  lemma FenceIsNext(core: Core, log: seq<Event>, first: nat, aim: nat)
    requires FencesOk(core, log, first) && core.InstallFence(aim).1.Some?
    ensures FencesOk(core.InstallFence(aim).0, log + [Fenced(aim)], first)
  {
    ReadAppended(log, Fenced(aim));
  }

  lemma FenceClearsEffects(core: Core, log: seq<Event>, aim: nat)
    requires EffectsOk(core, log) && core.InstallFence(aim).1.Some?
    ensures EffectsOk(core.InstallFence(aim).0, log + [Fenced(aim)])
  {
    ReadAppended(log, Fenced(aim));
    OnlyDrained(core, log);
    hide DrainedEffects;
    var after, drained := core.InstallFence(aim).0, DrainedEffects(log + [Fenced(aim)]);
    assert drained == DrainedEffects(log) && after.effects == [] && after.nextSequence == core.nextSequence;
    assert drained + after.effects == drained;
  }

  lemma HistFence(core: Core, log: seq<Event>, first: nat, aim: nat)
    requires Hist(core, log, first) && core.InstallFence(aim).1.Some?
    ensures Hist(core.InstallFence(aim).0, log + [Fenced(aim)], first)
  {
    FenceIsNext(core, log, first, aim);
    FenceClearsEffects(core, log, aim);
    ReadAppended(log, Fenced(aim));
    hide FencesOk, EffectsOk, FencePublished, Fences, DrainedEffects, Publications, Latches, Refreshes;
  }

  lemma HistRefresh(core: Core, log: seq<Event>, first: nat)
    requires Hist(core, log, first) && core.refreshAttempted != Some(core.generation)
    ensures Hist(core.(refreshAttempted := Some(core.generation)), log + [RefreshCalled(core.generation)], first)
  {
    ReadAppended(log, RefreshCalled(core.generation));
    SettledGrows(log, RefreshCalled(core.generation), core.generation);
  }

  lemma HistDrain(core: Core, log: seq<Event>, first: nat, g: nat)
    requires Hist(core, log, first)
    ensures Hist(core.Drain(g).0, log + [Drained(core.Drain(g).1)], first)
  {
    var e := Drained(core.Drain(g).1);
    ReadAppended(log, e);
    SettledGrows(log, e, core.generation);
    assert DrainedEffects(log) + core.Drain(g).1 + core.Drain(g).0.effects == DrainedEffects(log) + core.effects;
  }

  lemma DropOne(prefix: seq<Effect>, dropped: Effect, rest: seq<Effect>)
    requires SequencesIncrease(prefix + [dropped] + rest)
    ensures SequencesIncrease(prefix + rest)
  {
    var whole := prefix + [dropped] + rest;
    var fewer := prefix + rest;
    forall i, j | 0 <= i < j < |fewer| ensures fewer[i].sequence < fewer[j].sequence {
      assert fewer[i] == whole[if i < |prefix| then i else i + 1];
      assert fewer[j] == whole[if j < |prefix| then j else j + 1];
    }
  }

  /** Withdrawing effects keeps the order of those that stay. */
  lemma WithoutKeepsOrder(prefix: seq<Effect>, effects: seq<Effect>, g: nat)
    requires SequencesIncrease(prefix + effects)
    ensures SequencesIncrease(prefix + Without(effects, g))
    decreases |effects|
  {
    if effects != [] {
      var kept := prefix + [effects[0]];
      assert prefix + effects == kept + effects[1..];
      if IsRefreshEffect(effects[0], g) {
        DropOne(prefix, effects[0], effects[1..]);
        WithoutKeepsOrder(prefix, effects[1..], g);
        assert Without(effects, g) == Without(effects[1..], g);
      } else {
        WithoutKeepsOrder(kept, effects[1..], g);
        assert prefix + Without(effects, g) == kept + Without(effects[1..], g);
      }
    }
  }

  lemma WithoutIsPart(effects: seq<Effect>, g: nat)
    ensures forall e | e in Without(effects, g) :: e in effects
  {
    if effects != [] { WithoutIsPart(effects[1..], g); }
  }

  lemma WithoutNothing(effects: seq<Effect>, g: nat)
    requires forall e | e in effects :: e.origin != RefreshPending
    ensures Without(effects, g) == effects
  {
    if effects != [] { WithoutNothing(effects[1..], g); }
  }

  lemma HistWithdraw(core: Core, log: seq<Event>, first: nat, g: nat)
    requires Hist(core, log, first)
    ensures Hist(core.WithdrawRefreshEffects(g), log, first)
  {
    WithoutKeepsOrder(DrainedEffects(log), core.effects, g);
    WithoutIsPart(core.effects, g);
  }

  // ---------------------------------------------------------------- every step

  ghost predicate History(s: State, first: nat) {
    Hist(s.core, s.log, first)
  }

  lemma NotReservedKeepsHistory(s: State, t: nat, core: Core, first: nat)
    requires History(s, first)
    ensures History(NotReserved(s, t, core), first)
  {
    if !s.core.terminal { HistLatch(s, first); }
  }

  /** An operation that finishes never takes the place of a fence. */
  lemma OpFinishes(s: State, t: nat, first: nat)
    requires Structure(s) && History(s, first) && t in s.tasks && s.tasks[t].Op?
    ensures Hist(s.core.Finish(s.tasks[t].r), s.log, first)
  {
    if s.core.active.Some? {
      var o :| o in s.tasks && Owns(s.tasks[o], s.core.active.value);
      assert TaskNumbers(s.core, s.tasks[o]);
      if s.tasks[o].Fence? { assert Apart(s.tasks[t], s.tasks[o].f); }
    }
    HistFinish(s.core, s.log, first, s.tasks[t].r);
  }

  lemma EndKeepsHistory(s: State, t: nat, r: Reservation, ending: Ending, first: nat)
    requires Structure(s) && History(s, first) && t in s.tasks && s.tasks[t].Op? && s.tasks[t].r == r
    ensures History(EndOperation(s, t, r, ending), first)
  {
    OpFinishes(s, t, first);
  }

  lemma PublishEndKeepsHistory(s: State, t: nat, r: Reservation, ending: Ending, first: nat)
    requires Structure(s) && History(s, first) && t in s.tasks && s.tasks[t].Op? && s.tasks[t].r == r && !s.core.terminal
    requires Finishes(s.tasks[t].at)
    ensures forall sn, payload :: History(EndOperation(PublishGuarded(s, r, sn, payload), t, r, ending), first)
  {
    forall sn, payload ensures History(EndOperation(PublishGuarded(s, r, sn, payload), t, r, ending), first) {
      HistPublish(s.core, s.log, first, sn, ByOperation);
      var s1 := s.Publish(sn, ByOperation);
      if payload.Some? { HistEnqueue(s1.core, s1.log, first, sn.state, payload.value); }
      PublishKeepsStructure(s, r, sn, payload, t);
      EndKeepsHistory(PublishGuarded(s, r, sn, payload), t, r, ending, first);
    }
  }

  lemma CallKeepsHistory(s: State, request: Request, first: nat)
    requires History(s, first)
    ensures History(CallStep(s, request), first)
  {
    match request
    case Handle403 =>
      if !s.core.terminal && s.core.active.None? {
        var sn := SafeTerminal(s.core.snapshot, Forbidden);
        HistPublish(s.core, s.log, first, sn, ByForbidden);
        HistEnqueue(s.core.Publish(sn), s.Publish(sn, ByForbidden).log, first, sn.state, TERMINAL_ENTRY);
      }
    case DrainEffects(g) => HistDrain(s.core, s.log, first, g);
    case _ =>
  }

  lemma PerformKeepsHistory(s: State, t: nat, wish: Mutation, first: nat)
    requires History(s, first)
    ensures History(PerformStep(s, t, wish), first)
  {
    hide Hist;
    var s' := PerformStep(s, t, wish);
    if |s'.log| > |s.log| { HistLog(s.core, s.log, first, s'.log[|s.log|]); }
  }

  lemma EnterKeepsHistory(s: State, t: nat, entering: Entering, now: nat, first: nat)
    requires Structure(s) && History(s, first) && t in s.tasks && s.tasks[t] == Enter(entering)
    ensures History(ResumeEnter(s, t, entering, now), first)
  {
    match entering
    case EnterInitialize(online) => ReserveKeepsHistory(s, t, InitializeKind, now, first);
    case EnterCallback => ReserveKeepsHistory(s, t, CallbackKind, now, first);
    case EnterTimeout(timeout) => ReserveKeepsHistory(s, t, TimerKind, now, first);
    case EnterRefresh(candidate) =>
      ReserveKeepsHistory(s, t, RefreshKind, now, first);
      var (core, taken) := s.core.Reserve(RefreshKind, now);
      if taken.Some? { BeginRefreshKeepsHistory(s.(core := core), t, taken.value, first); }
  }

  lemma ReserveKeepsHistory(s: State, t: nat, kind: OperationKind, now: nat, first: nat)
    requires History(s, first)
    ensures var (core, taken) := s.core.Reserve(kind, now);
            if taken.Some? then Hist(core, s.log, first) else History(NotReserved(s, t, core), first)
    ensures var (core, taken) := s.core.ReserveTimeout(now);
            if taken.Some? then Hist(core, s.log, first) else History(NotReserved(s, t, core), first)
  {
    NotReservedKeepsHistory(s, t, s.core.Reserve(kind, now).0, first);
    NotReservedKeepsHistory(s, t, s.core.ReserveTimeout(now).0, first);
    if s.core.Reserve(kind, now).1.Some? { HistTake(s.core, s.log, first, s.core.Reserve(kind, now).1.value); }
    if s.core.active.None? && s.core.Reserve(TimerKind, now).1.Some? {
      HistTake(s.core, s.log, first, s.core.Reserve(TimerKind, now).1.value);
    }
  }

  lemma BeginRefreshKeepsHistory(s: State, t: nat, r: Reservation, first: nat)
    requires History(s, first) && r.generation == s.core.generation && !s.core.terminal
    ensures History(BeginRefresh(s, t, r), first)
  {
    if s.core.refreshAttempted != Some(r.generation) {
      var published := Published(RefreshPendingFrom(r.stable), s.core.generation, ByOperation);
      HistPublish(s.core, s.log, first, RefreshPendingFrom(r.stable), ByOperation);
      HistRefresh(s.core.Publish(RefreshPendingFrom(r.stable)), s.log + [published], first);
    }
  }

  lemma OpKeepsHistory(s: State, t: nat, r: Reservation, at: OpPoint, input: Input, first: nat)
    requires Structure(s) && History(s, first) && t in s.tasks && s.tasks[t] == Op(r, at)
    ensures History(ResumeOp(s, t, r, at, input), first)
  {
    hide Hist, Structure;
    match at
    case AtVaultRead(online, timer, got) =>
      if got.Some? { VaultReadKeepsHistory(s, t, r, online, timer, got.value, first); }
    case AtInitTimer => TimerKeepsHistory(s, t, r, at, input, first);
    case AtRefreshTimer => TimerKeepsHistory(s, t, r, at, input, first);
    case AtConsume => if input.ConsumeAnswer? { ConsumeKeepsHistory(s, t, r, input.consumed, first); }
    case AtRefresh(timer) => if input.RefreshAnswer? { RefreshKeepsHistory(s, t, r, timer, input.refreshed, first); }
    case AtVerify(candidate, announce, ending) =>
      if input.VerifyAnswer? { VerifyKeepsHistory(s, t, r, candidate, announce, ending, input.verified, first); }
    case AtBind(candidate, subject, announce, ending, written) =>
      EndKeepsHistory(s, t, r, ending, first);
      if s.core.Accepts(r) { AuthenticatedKeepsHistory(s, t, r, announce, ending, first); }
    case AtReplace(_, _, _, ending, _) => EndKeepsHistory(s, t, r, ending, first);
    case AtJoin(_, ending) => EndKeepsHistory(s, t, r, ending, first);
    case AtExchange => EndKeepsHistory(s, t, r, EndPlain, first);
    case AtTimeoutSleep(_) => EndKeepsHistory(s, t, r, EndPlain, first);
    case AtEndJoinTimer(timer, ending) =>
      OpFinishes(s, t, first);
      WithdrawThenFinish(s, t, first);
    case _ =>
  }

  lemma TimerKeepsHistory(s: State, t: nat, r: Reservation, at: OpPoint, input: Input, first: nat)
    requires History(s, first) && (at.AtInitTimer? || at.AtRefreshTimer?)
    ensures History(ResumeOp(s, t, r, at, input), first)
  {
    if s.core.Accepts(r) {
      HistEnqueue(s.core, s.log, first, Initializing, Unfocused(SayInitializing, Polite));
      HistEnqueue(s.core, s.log, first, RefreshPending, REFRESH_ENTRY);
    }
  }

  lemma VaultReadKeepsHistory(s: State, t: nat, r: Reservation, online: bool, timer: nat,
                              got: PortResult<Option<Candidate>>, first: nat)
    requires Structure(s) && History(s, first) && t in s.tasks && s.tasks[t].Op? && s.tasks[t].r == r
    requires Finishes(s.tasks[t].at)
    ensures History(AfterVaultRead(s, t, r, online, timer, got), first)
  {
    EndKeepsHistory(s, t, r, EndInitialize(timer), first);
    if s.core.Accepts(r) { PublishEndKeepsHistory(s, t, r, EndInitialize(timer), first); }
  }

  lemma ConsumeKeepsHistory(s: State, t: nat, r: Reservation, consumed: ConsumeResult, first: nat)
    requires Structure(s) && History(s, first) && t in s.tasks && s.tasks[t].Op? && s.tasks[t].r == r
    ensures History(AfterConsume(s, t, r, consumed), first)
  {
    EndKeepsHistory(s, t, r, EndPlain, first);
    if s.core.Accepts(r) && consumed.Consumed? {
      HistPublish(s.core, s.log, first, CallbackPendingFrom(r.stable), ByOperation);
      var s1 := s.Publish(CallbackPendingFrom(r.stable), ByOperation);
      HistEnqueue(s1.core, s1.log, first, CallbackPending, CALLBACK_ENTRY);
    }
  }

  lemma RefreshKeepsHistory(s: State, t: nat, r: Reservation, timer: nat, refreshed: PortResult<Candidate>, first: nat)
    requires Structure(s) && History(s, first) && t in s.tasks && s.tasks[t].Op? && s.tasks[t].r == r
    requires Finishes(s.tasks[t].at)
    ensures History(AfterRefresh(s, t, r, timer, refreshed), first)
  {
    EndKeepsHistory(s, t, r, EndRefresh(timer), first);
    if s.core.Accepts(r) { PublishEndKeepsHistory(s, t, r, EndRefresh(timer), first); }
  }

  lemma VerifyKeepsHistory(s: State, t: nat, r: Reservation, c: Candidate, announce: bool, ending: Ending,
                           verified: PortResult<Subject>, first: nat)
    requires Structure(s) && History(s, first) && t in s.tasks && s.tasks[t].Op? && s.tasks[t].r == r
    requires Finishes(s.tasks[t].at)
    ensures History(AfterVerify(s, t, r, c, announce, ending, verified), first)
  {
    EndKeepsHistory(s, t, r, ending, first);
    if s.core.Accepts(r) { PublishEndKeepsHistory(s, t, r, ending, first); }
    if verified.PortSuccess? { HistLog(s.core, s.log, first, OwnerVerified(r.generation, r.id, c, verified.value)); }
  }

  lemma WithdrawThenFinish(s: State, t: nat, first: nat)
    requires Structure(s) && History(s, first) && t in s.tasks && s.tasks[t].Op?
    ensures Hist(s.core.WithdrawRefreshEffects(s.tasks[t].r.generation).Finish(s.tasks[t].r), s.log, first)
  {
    var r := s.tasks[t].r;
    OpFinishes(s, t, first);
    HistWithdraw(s.core.Finish(r), s.log, first, r.generation);
    assert s.core.Finish(r).WithdrawRefreshEffects(r.generation) == s.core.WithdrawRefreshEffects(r.generation).Finish(r);
  }

  lemma AuthenticatedKeepsHistory(s: State, t: nat, r: Reservation, announce: bool, ending: Ending, first: nat)
    requires Structure(s) && History(s, first) && t in s.tasks && s.tasks[t].Op? && s.tasks[t].r == r && s.core.Accepts(r)
    ensures History(PublishAuthenticated(s, t, r, announce, ending), first)
  {
    HistPublish(s.core, s.log, first, AUTHENTICATED_SNAPSHOT, ByVerifiedOwner(r.id));
    var s1 := s.Publish(AUTHENTICATED_SNAPSHOT, ByVerifiedOwner(r.id));
    KeepMove(s, s1, t);
    if announce {
      HistEnqueue(s1.core, s1.log, first, Authenticated, AUTHENTICATED_ENTRY);
      KeepMove(s1, s1.Enqueue(Authenticated, AUTHENTICATED_ENTRY), t);
      EndKeepsHistory(s1.Enqueue(Authenticated, AUTHENTICATED_ENTRY), t, r, ending, first);
    } else {
      EndKeepsHistory(s1, t, r, ending, first);
    }
  }

  /** A fence that lost its generation finishes nothing. */
  lemma LostFenceKeepsHistory(s: State, t: nat, first: nat)
    requires Structure(s) && History(s, first) && t in s.tasks && s.tasks[t].Fence? && !s.core.Accepts(s.tasks[t].f)
    ensures History(LoseFence(s, t, s.tasks[t].f), first)
  {
    if s.core.active.Some? {
      var o :| o in s.tasks && Owns(s.tasks[o], s.core.active.value);
    }
  }

  lemma FenceKeepsHistory(s: State, t: nat, f: Reservation, job: FenceJob, stage: nat, done: Option<Mutation>,
                          input: Input, first: nat)
    requires Structure(s) && History(s, first) && t in s.tasks && s.tasks[t] == Fence(f, job, stage, done)
    ensures History(ResumeFence(s, t, f, job, stage, done, input), first)
  {
    if IsWriteStage(job, stage) && done.None? {
    } else if !s.core.Accepts(f) {
      LostFenceKeepsHistory(s, t, first);
    } else {
      match job
      case Transition(snapshot, payloads) => CommitKeepsHistory(s, t, f, snapshot, payloads, first);
      case Wipe(goal, outcome) => WipeKeepsHistory(s, t, f, goal, outcome, stage, done, input, first);
      case StoreFailure(stable) => StoreFailureKeepsHistory(s, t, f, stable, stage, done, input, first);
    }
  }

  lemma CommitKeepsHistory(s: State, t: nat, f: Reservation, snapshot: Snapshot, payloads: seq<Payload>, first: nat)
    requires History(s, first) && s.core.Accepts(f)
    ensures History(CommitTransition(s, t, f, snapshot, payloads), first)
  {
    HistPublish(s.core, s.log, first, snapshot, ByTransition);
    var s1 := s.Publish(snapshot, ByTransition);
    HistEnqueueAll(s1.core, s1.log, first, f.generation, snapshot.state, payloads);
    EnqueueAllFrame(s1.core, f.generation, snapshot.state, payloads);
    HistFinish(s1.core.EnqueueAll(f.generation, snapshot.state, payloads), s1.log, first, f);
  }

  lemma StoreFailureKeepsHistory(s: State, t: nat, f: Reservation, stable: Snapshot, stage: nat,
                                 done: Option<Mutation>, input: Input, first: nat)
    requires History(s, first) && s.core.Accepts(f)
    ensures History(AdvanceStoreFailure(s, t, f, stable, stage, done, input), first)
  {
    HistLatch(s, first);
    var failed := CallbackTerminal(stable, TransientFailure);
    HistPublish(s.core, s.log, first, failed, ByStoreFailure);
    var s1 := s.Publish(failed, ByStoreFailure);
    HistEnqueue(s1.core, s1.log, first, failed.state, TERMINAL_ENTRY);
    HistFinish(s1.Enqueue(failed.state, TERMINAL_ENTRY).core, s1.log, first, f);
  }

  lemma WipeKeepsHistory(s: State, t: nat, f: Reservation, goal: RuntimeState, outcome: Outcome, stage: nat,
                         done: Option<Mutation>, input: Input, first: nat)
    requires History(s, first) && !s.core.terminal
    ensures History(AdvanceWipe(s, t, f, goal, outcome, stage, done, input), first)
  {
    hide Hist;
    HistLatch(s, first);
    PublishWipeKeepsHistory(s, t, f, goal, outcome, first);
  }

  lemma PublishWipeKeepsHistory(s: State, t: nat, f: Reservation, goal: RuntimeState, outcome: Outcome, first: nat)
    requires History(s, first) && !s.core.terminal
    ensures History(PublishWipe(s, t, f, goal, outcome), first)
  {
    hide Hist;
    var snapshot := WipedSnapshot(goal, outcome);
    HistPublish(s.core, s.log, first, snapshot, ByWipe);
    var s1 := s.Publish(snapshot, ByWipe);
    var entry := WipeEntry(goal, outcome);
    if entry.Some? { HistEnqueue(s1.core, s1.log, first, snapshot.state, entry.value); }
    var s2 := if entry.Some? then s1.Enqueue(snapshot.state, entry.value) else s1;
    HistFinish(s2.core, s2.log, first, f);
  }

  lemma StartKeepsHistory(s: State, t: nat, job: FenceJob, expected: Option<nat>, first: nat)
    requires History(s, first)
    ensures History(ResumeStart(s, t, job, expected), first)
  {
    var aim := if expected.Some? then expected.value else s.core.generation;
    var (core, taken) := s.core.InstallFence(aim);
    if taken.None? { NotReservedKeepsHistory(s, t, core, first); } else { HistFence(s.core, s.log, first, aim); }
  }

  lemma StepKeepsHistory(s: State, a: Action, first: nat)
    requires Structure(s) && History(s, first)
    ensures History(Step(s, a), first)
  {
    match a
    case Call(request) => CallKeepsHistory(s, request, first);
    case Perform(t, wish) => PerformKeepsHistory(s, t, wish, first);
    case ReadVault(t, refusal) =>
    case Resume(t, input) =>
      if t in s.tasks {
        match s.tasks[t]
        case Enter(entering) => if input.Clock? { EnterKeepsHistory(s, t, entering, input.milliseconds, first); }
        case Op(r, at) => OpKeepsHistory(s, t, r, at, input, first);
        case Start(job, expected) => StartKeepsHistory(s, t, job, expected, first);
        case Fence(f, job, stage, done) => FenceKeepsHistory(s, t, f, job, stage, done, input, first);
        case Announce(_, _, state, message, priority) =>
          if !s.core.terminal { HistEnqueue(s.core, s.log, first, state, Unfocused(message, priority)); }
      }
  }
}
