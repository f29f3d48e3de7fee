/**
 The Stripe projection (apps/api/src/billing/stripe-webhook-processor.service.ts):
 webhook events are folded, one transaction each, into customer mappings,
 subscriptions and entitlements, with a ledger of the events already applied.

 The functions are the specification. `BillingTables` performs the statements of
 one transaction in their order, with the loop over entitlement keys, and rolls
 back when one of them fails.
 */
module StripeProjection {
  import opened Basics

  type User = string
  type Customer = string
  type SubscriptionId = string
  type PriceId = string
  type EntitlementKey = string
  type EventId = string
  type Instant = int

  // ---------------------------------------------------------------- the catalog

  datatype Plan = Plan(key: string, entitlementKeys: seq<EntitlementKey>)

  datatype Interval = Monthly | Annual

  datatype Price = Price(plan: Plan, interval: Interval)

  /** The configured prices, and the identifiers that count as UUIDs. */
  datatype Setup = Setup(prices: map<PriceId, Price>, isUuid: string -> bool)

  // ---------------------------------------------------------------- events

  datatype Status = Trialing | Active | PastDue | Canceled | Unpaid | Incomplete | IncompleteExpired | Paused

  datatype Item = Item(price: PriceId, product: string, periodStart: int, periodEnd: int)

  /** A subscription as Stripe reports it; a status outside the known ones is absent. Times are in seconds. */
  datatype Subscription = Subscription(
    id: SubscriptionId, customer: Customer, metadataUser: Option<string>, items: seq<Item>, status: Option<Status>,
    cancelAtPeriodEnd: bool, cancelAt: Option<int>, canceledAt: Option<int>, trialEnd: Option<int>)

  datatype Event = Event(id: EventId, kind: string, subscription: Option<Subscription>, occurredAt: Instant)

  datatype Failure =
    | NotExactlyOnePrice | UnconfiguredPrice | UnsupportedStatus
    | OwnershipMismatch | NoVerifiedUser | OtherCustomer | Reassigned | UniqueViolation

  // ---------------------------------------------------------------- tables

  datatype Projection = Projection(
    interval: Interval, cancelAtPeriodEnd: bool, canceledAt: Option<Instant>, periodEnd: Instant, periodStart: Instant,
    plan: Plan, status: Status, customer: Customer, price: PriceId, product: string, id: SubscriptionId,
    trialEnd: Option<Instant>)

  datatype SubscriptionRow = SubscriptionRow(
    user: User, customer: Customer, planKey: string, product: string, price: PriceId, interval: Interval, status: Status,
    periodStart: Instant, periodEnd: Instant, trialEnd: Option<Instant>, cancelAtPeriodEnd: bool, canceledAt: Option<Instant>)

  datatype Source = Stripe | Manual | RevenueCat

  datatype Slot = Slot(user: User, key: EntitlementKey, source: Source)

  datatype EntitlementStatus = EntitlementActive | EntitlementCanceled | EntitlementExpired

  datatype Entitlement = Entitlement(
    reference: Option<SubscriptionId>, status: EntitlementStatus, startsAt: Option<Instant>, endsAt: Option<Instant>)

  datatype Db = Db(
    customers: map<User, Customer>, subscriptions: map<SubscriptionId, SubscriptionRow>,
    entitlements: map<Slot, Entitlement>, ledger: map<EventId, string>)

  // ---------------------------------------------------------------- normalising

  predicate Grants(status: Status) { status.Trialing? || status.Active? || status.PastDue? }

  function Millis(seconds: Option<int>): Option<Instant> {
    if seconds.None? then None else Some(seconds.value * 1000)
  }

  function Projected(setup: Setup, s: Subscription): Result<Projection, Failure> {
    if |s.items| != 1 then Err(NotExactlyOnePrice)
    else
      var item := s.items[0];
      if item.price !in setup.prices then Err(UnconfiguredPrice)
      else if s.status.None? then Err(UnsupportedStatus)
      else
        var price := setup.prices[item.price];
        Ok(Projection(
             price.interval, s.cancelAtPeriodEnd || s.cancelAt == Some(item.periodEnd), Millis(s.canceledAt),
             item.periodEnd * 1000, item.periodStart * 1000, price.plan, s.status.value, s.customer, item.price,
             item.product, s.id, Millis(s.trialEnd)))
  }

  function RowOf(user: User, p: Projection): SubscriptionRow {
    SubscriptionRow(user, p.customer, p.plan.key, p.product, p.price, p.interval, p.status,
                    p.periodStart, p.periodEnd, p.trialEnd, p.cancelAtPeriodEnd, p.canceledAt)
  }

  // ---------------------------------------------------------------- ownership

  ghost predicate IsMapped(customers: map<User, Customer>, customer: Customer) {
    exists u :: u in customers && customers[u] == customer
  }

  ghost function MappedUser(customers: map<User, Customer>, customer: Customer): (u: User)
    requires IsMapped(customers, customer)
    ensures u in customers && customers[u] == customer
  {
    var u :| u in customers && customers[u] == customer;
    u
  }

  predicate IsVerified(setup: Setup, metadata: Option<string>) {
    metadata.Some? && metadata.value != "" && setup.isUuid(metadata.value)
  }

  /** The user of a subscription, spelled as the event or the table spells it. */
  ghost function OwnerOf(setup: Setup, customers: map<User, Customer>, s: Subscription, customer: Customer): Result<User, Failure> {
    if IsVerified(setup, s.metadataUser) then
      if IsMapped(customers, customer) && MappedUser(customers, customer) != s.metadataUser.value then Err(OwnershipMismatch)
      else Ok(s.metadataUser.value)
    else if IsMapped(customers, customer) then Ok(MappedUser(customers, customer))
    else Err(NoVerifiedUser)
  }

  ghost function WithCustomer(customers: map<User, Customer>, user: User, customer: Customer): Result<map<User, Customer>, Failure> {
    var stored := Lower(user);
    if stored in customers then
      if customers[stored] != customer then Err(OtherCustomer) else Ok(customers)
    else if IsMapped(customers, customer) then Err(UniqueViolation)
    else Ok(customers[stored := customer])
  }

  predicate IsReassigned(subscriptions: map<SubscriptionId, SubscriptionRow>, user: User, p: Projection) {
    p.id in subscriptions && (subscriptions[p.id].user != user || subscriptions[p.id].customer != p.customer)
  }

  // ---------------------------------------------------------------- entitlements

  function EntitlementFor(p: Projection, occurredAt: Instant): Entitlement {
    Entitlement(
      Some(p.id),
      if Grants(p.status) then EntitlementActive else if p.status.Canceled? then EntitlementCanceled else EntitlementExpired,
      Some(p.periodStart),
      if Grants(p.status) then None else if p.canceledAt.Some? then p.canceledAt else Some(occurredAt))
  }

  /** A row of this subscription under a key that its plan no longer lists. */
  predicate IsDropped(slot: Slot, e: Entitlement, user: User, p: Projection) {
    slot.user == user && slot.source.Stripe? && e.reference == Some(p.id) && slot.key !in p.plan.entitlementKeys
  }

  function DroppedExpired(m: map<Slot, Entitlement>, user: User, p: Projection, occurredAt: Instant): map<Slot, Entitlement> {
    map slot | slot in m ::
      if IsDropped(slot, m[slot], user, p) then m[slot].(status := EntitlementExpired, endsAt := Some(occurredAt)) else m[slot]
  }

  predicate IsListed(slot: Slot, user: User, keys: seq<EntitlementKey>) {
    slot.user == user && slot.source.Stripe? && slot.key in keys
  }

  function Granted(m: map<Slot, Entitlement>, user: User, keys: seq<EntitlementKey>, e: Entitlement): map<Slot, Entitlement> {
    m + map key | key in keys :: Slot(user, key, Stripe) := e
  }

  lemma GrantedOneMore(m: map<Slot, Entitlement>, user: User, keys: seq<EntitlementKey>, i: nat, e: Entitlement)
    requires i < |keys|
    ensures Granted(m, user, keys[..i], e)[Slot(user, keys[i], Stripe) := e] == Granted(m, user, keys[..i + 1], e)
  {
    var one, more := Granted(m, user, keys[..i], e)[Slot(user, keys[i], Stripe) := e], Granted(m, user, keys[..i + 1], e);
    assert keys[..i + 1] == keys[..i] + [keys[i]];
    forall slot ensures slot in one <==> slot in more {}
  }

  function Entitled(m: map<Slot, Entitlement>, user: User, p: Projection, occurredAt: Instant): map<Slot, Entitlement> {
    Granted(DroppedExpired(m, user, p, occurredAt), user, p.plan.entitlementKeys, EntitlementFor(p, occurredAt))
  }

  /** What one applied event does to each entitlement. */
  lemma EntitledMeans(m: map<Slot, Entitlement>, user: User, p: Projection, occurredAt: Instant, slot: Slot)
    ensures slot in Entitled(m, user, p, occurredAt) <==> slot in m || IsListed(slot, user, p.plan.entitlementKeys)
    ensures IsListed(slot, user, p.plan.entitlementKeys) ==> Entitled(m, user, p, occurredAt)[slot] == EntitlementFor(p, occurredAt)
    ensures slot in m && IsDropped(slot, m[slot], user, p) ==>
      Entitled(m, user, p, occurredAt)[slot] == m[slot].(status := EntitlementExpired, endsAt := Some(occurredAt))
    ensures slot in m && !IsListed(slot, user, p.plan.entitlementKeys) && !IsDropped(slot, m[slot], user, p) ==>
      Entitled(m, user, p, occurredAt)[slot] == m[slot]
  {
    if IsListed(slot, user, p.plan.entitlementKeys) {
      assert slot == Slot(user, slot.key, Stripe);
    }
  }

  // ---------------------------------------------------------------- one event

  ghost function Synchronized(setup: Setup, db: Db, s: Subscription, occurredAt: Instant): Result<Db, Failure> {
    match Projected(setup, s)
    case Err(failure) => Err(failure)
    case Ok(p) =>
      match OwnerOf(setup, db.customers, s, p.customer)
      case Err(failure) => Err(failure)
      case Ok(user) =>
        match WithCustomer(db.customers, user, p.customer)
        case Err(failure) => Err(failure)
        case Ok(customers) =>
          if IsReassigned(db.subscriptions, user, p) then Err(Reassigned)
          else Ok(db.(customers := customers,
                      subscriptions := db.subscriptions[p.id := RowOf(Lower(user), p)],
                      entitlements := Entitled(db.entitlements, Lower(user), p, occurredAt)))
  }

  datatype Outcome = Duplicate | Applied | Failed(failure: Failure)

  ghost function Recorded(setup: Setup, db: Db, e: Event): Result<Db, Failure> {
    var recorded := db.(ledger := db.ledger[e.id := e.kind]);
    if e.subscription.None? then Ok(recorded) else Synchronized(setup, recorded, e.subscription.value, e.occurredAt)
  }

  ghost function OutcomeOf(setup: Setup, db: Db, e: Event): Outcome {
    if e.id in db.ledger then Duplicate
    else if Recorded(setup, db, e).Ok? then Applied
    else Failed(Recorded(setup, db, e).error)
  }

  ghost function After(setup: Setup, db: Db, e: Event): Db {
    if e.id !in db.ledger && Recorded(setup, db, e).Ok? then Recorded(setup, db, e).value else db
  }

  ghost function Run(setup: Setup, db: Db, events: seq<Event>): Db
    decreases |events|
  {
    if events == [] then db else Run(setup, After(setup, db, events[0]), events[1..])
  }

  // ---------------------------------------------------------------- what every event keeps

  /** A customer belongs to one user. */
  ghost predicate OneToOne(customers: map<User, Customer>) {
    forall u, v | u in customers && v in customers :: customers[u] == customers[v] ==> u == v
  }

  ghost predicate AreStored(customers: map<User, Customer>) {
    forall u | u in customers :: Lower(u) == u
  }

  /** A subscription belongs to a mapped pair and to a configured price, whose plan it names. */
  ghost predicate RowIsSound(setup: Setup, customers: map<User, Customer>, row: SubscriptionRow) {
    && row.user in customers && customers[row.user] == row.customer
    && row.price in setup.prices && row.planKey == setup.prices[row.price].plan.key
  }

  ghost predicate RowsAreSound(setup: Setup, db: Db) {
    forall id | id in db.subscriptions :: RowIsSound(setup, db.customers, db.subscriptions[id])
  }

  /** The subscription grants the user the entitlement. */
  ghost predicate Backs(setup: Setup, db: Db, id: SubscriptionId, user: User, key: EntitlementKey) {
    && id in db.subscriptions && db.subscriptions[id].user == user && Grants(db.subscriptions[id].status)
    && db.subscriptions[id].price in setup.prices
    && key in setup.prices[db.subscriptions[id].price].plan.entitlementKeys
  }

  ghost predicate HoldsActive(db: Db, slot: Slot) {
    slot in db.entitlements && db.entitlements[slot].status.EntitlementActive?
  }

  /** Every active Stripe entitlement refers to a subscription of its user that grants it. */
  ghost predicate ActiveIsBacked(setup: Setup, db: Db) {
    forall slot | HoldsActive(db, slot) && slot.source.Stripe? ::
      db.entitlements[slot].reference.Some? && Backs(setup, db, db.entitlements[slot].reference.value, slot.user, slot.key)
  }

  ghost predicate Inv(setup: Setup, db: Db) {
    OneToOne(db.customers) && AreStored(db.customers) && RowsAreSound(setup, db) && ActiveIsBacked(setup, db)
  }

  lemma OwnerIsUsable(setup: Setup, db: Db, s: Subscription, p: Projection)
    requires OneToOne(db.customers) && AreStored(db.customers) && OwnerOf(setup, db.customers, s, p.customer).Ok?
    ensures var user := OwnerOf(setup, db.customers, s, p.customer).value;
      && WithCustomer(db.customers, user, p.customer) != Err(UniqueViolation)
      && (WithCustomer(db.customers, user, p.customer).Ok? ==>
          var customers := WithCustomer(db.customers, user, p.customer).value;
          && OneToOne(customers) && AreStored(customers) && Lower(user) in customers && customers[Lower(user)] == p.customer
          && (forall u | u in db.customers :: u in customers && customers[u] == db.customers[u]))
  {
    LowerIsIdempotent(OwnerOf(setup, db.customers, s, p.customer).value);
  }

  /** Between transactions that do not overlap, no unique key is ever violated. */
  lemma NoUniqueKeyIsViolated(setup: Setup, db: Db, e: Event)
    requires Inv(setup, db)
    ensures OutcomeOf(setup, db, e) != Failed(UniqueViolation)
  {
    if e.subscription.Some? {
      var s := e.subscription.value;
      var projected := Projected(setup, s);
      if projected.Ok? && OwnerOf(setup, db.customers, s, projected.value.customer).Ok? {
        OwnerIsUsable(setup, db, s, projected.value);
      }
    }
  }

  lemma SynchronizingKeepsInv(setup: Setup, db: Db, s: Subscription, occurredAt: Instant)
    requires Inv(setup, db) && Synchronized(setup, db, s, occurredAt).Ok?
    ensures Inv(setup, Synchronized(setup, db, s, occurredAt).value)
  {
    var after := Synchronized(setup, db, s, occurredAt).value;
    var p := Projected(setup, s).value;
    var user := Lower(OwnerOf(setup, db.customers, s, p.customer).value);
    OwnerIsUsable(setup, db, s, p);
    forall id | id in after.subscriptions ensures RowIsSound(setup, after.customers, after.subscriptions[id]) {
      if id != p.id { assert RowIsSound(setup, db.customers, db.subscriptions[id]); }
    }
    forall slot | HoldsActive(after, slot) && slot.source.Stripe?
      ensures after.entitlements[slot].reference.Some?
        && Backs(setup, after, after.entitlements[slot].reference.value, slot.user, slot.key)
    {
      EntitledMeans(db.entitlements, user, p, occurredAt, slot);
      if !IsListed(slot, user, p.plan.entitlementKeys) {
        assert HoldsActive(db, slot);
        var id := db.entitlements[slot].reference.value;
        assert Backs(setup, db, id, slot.user, slot.key);
        BackingUserIsOwner(setup, db, s, p, id);
      }
    }
  }

  /** An accepted event finds its subscription, if stored, under the very owner it names. */
  lemma BackingUserIsOwner(setup: Setup, db: Db, s: Subscription, p: Projection, id: SubscriptionId)
    requires Inv(setup, db) && OwnerOf(setup, db.customers, s, p.customer).Ok? && id in db.subscriptions
    requires !IsReassigned(db.subscriptions, OwnerOf(setup, db.customers, s, p.customer).value, p)
    ensures id == p.id ==> Lower(OwnerOf(setup, db.customers, s, p.customer).value) == db.subscriptions[id].user
  {
    assert RowIsSound(setup, db.customers, db.subscriptions[id]);
  }

  lemma EventKeepsInv(setup: Setup, db: Db, e: Event)
    requires Inv(setup, db)
    ensures Inv(setup, After(setup, db, e))
  {
    var recorded := db.(ledger := db.ledger[e.id := e.kind]);
    assert Inv(setup, recorded) by {
      forall slot | HoldsActive(recorded, slot) && slot.source.Stripe?
        ensures recorded.entitlements[slot].reference.Some?
          && Backs(setup, recorded, recorded.entitlements[slot].reference.value, slot.user, slot.key)
      {
        assert HoldsActive(db, slot);
      }
    }
    if e.id !in db.ledger && Recorded(setup, db, e).Ok? && e.subscription.Some? {
      SynchronizingKeepsInv(setup, recorded, e.subscription.value, e.occurredAt);
    }
  }

  /** After any events: customers are one to one, subscriptions point at mapped owners, active entitlements are backed. */
  lemma {:induction false} RunKeepsInv(setup: Setup, db: Db, events: seq<Event>)
    requires Inv(setup, db)
    ensures Inv(setup, Run(setup, db, events))
    decreases |events|
  {
    if events != [] {
      EventKeepsInv(setup, db, events[0]);
      RunKeepsInv(setup, After(setup, db, events[0]), events[1..]);
    }
  }

  // ---------------------------------------------------------------- replays

  lemma {:induction false} RunOfConcat(setup: Setup, db: Db, first: seq<Event>, second: seq<Event>)
    ensures Run(setup, db, first + second) == Run(setup, Run(setup, db, first), second)
    decreases |first|
  {
    if first == [] {
      assert first + second == second;
    } else {
      assert (first + second)[1..] == first[1..] + second;
      RunOfConcat(setup, After(setup, db, first[0]), first[1..], second);
    }
  }

  lemma {:induction false} LedgerOnlyGrows(setup: Setup, db: Db, events: seq<Event>, id: EventId)
    requires id in db.ledger
    ensures id in Run(setup, db, events).ledger
    decreases |events|
  {
    if events != [] { LedgerOnlyGrows(setup, After(setup, db, events[0]), events[1..], id); }
  }

  /**
   Once an event was applied, every later delivery under its id, even one with
   another content, changes nothing, wherever it arrives.
   */
  lemma ReplaysChangeNothing(setup: Setup, db: Db, before: seq<Event>, e: Event, between: seq<Event>, replay: Event, rest: seq<Event>)
    requires OutcomeOf(setup, Run(setup, db, before), e).Applied? && replay.id == e.id
    ensures OutcomeOf(setup, Run(setup, db, before + [e] + between), replay).Duplicate?
    ensures Run(setup, db, before + [e] + between + [replay] + rest) == Run(setup, db, before + [e] + between + rest)
  {
    var applied := After(setup, Run(setup, db, before), e);
    var start := before + [e] + between;
    assert Run(setup, Run(setup, db, before), [e]) == applied by { assert [e][1..] == []; }
    RunOfConcat(setup, db, before, [e]);
    RunOfConcat(setup, db, before + [e], between);
    LedgerOnlyGrows(setup, applied, between, e.id);
    var reached := Run(setup, db, start);
    assert Run(setup, reached, [replay]) == reached by { assert [replay][1..] == []; }
    RunOfConcat(setup, db, start, [replay]);
    RunOfConcat(setup, db, start + [replay], rest);
    RunOfConcat(setup, db, start, rest);
  }

  /** A failed event leaves no trace: its delivery can be repeated as if it had never arrived. */
  lemma FailedEventsLeaveNoTrace(setup: Setup, db: Db, e: Event, rest: seq<Event>)
    requires OutcomeOf(setup, db, e).Failed?
    ensures Run(setup, db, [e] + rest) == Run(setup, db, rest) && e.id !in After(setup, db, e).ledger
  {
    assert ([e] + rest)[1..] == rest;
  }

  // ---------------------------------------------------------------- ownership

  /** Mappings and the owners of subscriptions are never changed or removed. */
  ghost predicate KeepsOwners(before: Db, after: Db) {
    && (forall u | u in before.customers :: u in after.customers && after.customers[u] == before.customers[u])
    && (forall id | id in before.subscriptions ::
          && id in after.subscriptions && after.subscriptions[id].user == before.subscriptions[id].user
          && after.subscriptions[id].customer == before.subscriptions[id].customer)
  }

  lemma EventKeepsOwners(setup: Setup, db: Db, e: Event)
    requires Inv(setup, db)
    ensures KeepsOwners(db, After(setup, db, e))
  {
    if e.id !in db.ledger && Recorded(setup, db, e).Ok? && e.subscription.Some? {
      var s := e.subscription.value;
      var p := Projected(setup, s).value;
      OwnerIsUsable(setup, db, s, p);
      if p.id in db.subscriptions { BackingUserIsOwner(setup, db, s, p, p.id); }
    }
  }

  lemma {:induction false} OwnershipNeverChanges(setup: Setup, db: Db, events: seq<Event>)
    requires Inv(setup, db)
    ensures KeepsOwners(db, Run(setup, db, events))
    decreases |events|
  {
    if events != [] {
      EventKeepsInv(setup, db, events[0]);
      EventKeepsOwners(setup, db, events[0]);
      OwnershipNeverChanges(setup, After(setup, db, events[0]), events[1..]);
    }
  }

  /** The owner that a new event may name, told from the tables alone. */
  ghost predicate NamesOwner(setup: Setup, db: Db, s: Subscription) {
    if IsMapped(db.customers, s.customer)
    then IsVerified(setup, s.metadataUser) ==> s.metadataUser.value == MappedUser(db.customers, s.customer)
    else IsVerified(setup, s.metadataUser) && Lower(s.metadataUser.value) !in db.customers
  }

  /**
   A new event is applied exactly when it can be normalised, names the owner of
   its customer, and its subscription, if stored, belongs to that customer.
   */
  lemma AppliedIff(setup: Setup, db: Db, e: Event)
    requires Inv(setup, db) && e.id !in db.ledger && e.subscription.Some?
    ensures var s := e.subscription.value;
      OutcomeOf(setup, db, e).Applied? <==>
        && Projected(setup, s).Ok? && NamesOwner(setup, db, s)
        && (s.id in db.subscriptions ==> db.subscriptions[s.id].customer == s.customer)
  {
    var s := e.subscription.value;
    if Projected(setup, s).Ok? {
      var p := Projected(setup, s).value;
      if IsMapped(db.customers, p.customer) {
        var u := MappedUser(db.customers, p.customer);
        assert Lower(u) == u;
      }
      if s.id in db.subscriptions { assert RowIsSound(setup, db.customers, db.subscriptions[s.id]); }
    }
  }

  /**
   The guard compares the metadata letter by letter with the stored spelling: a
   user id with a capital letter opens its mapping once, and every later event
   that carries it is refused.
   */
  lemma CapitalsLockTheCustomerOut(setup: Setup, db: Db, e: Event, events: seq<Event>, later: Event)
    requires Inv(setup, db) && OutcomeOf(setup, db, e).Applied?
    requires e.subscription.Some? && later.subscription.Some?
    requires later.subscription.value.customer == e.subscription.value.customer
    requires later.subscription.value.metadataUser == e.subscription.value.metadataUser
    requires IsVerified(setup, e.subscription.value.metadataUser)
    requires Lower(e.subscription.value.metadataUser.value) != e.subscription.value.metadataUser.value
    ensures !OutcomeOf(setup, Run(setup, After(setup, db, e), events), later).Applied?
  {
    var s := e.subscription.value;
    var p := Projected(setup, s).value;
    var named := s.metadataUser.value;
    var after := After(setup, db, e);
    OwnerIsUsable(setup, db, s, p);
    EventKeepsInv(setup, db, e);
    OwnershipNeverChanges(setup, after, events);
    RunKeepsInv(setup, after, events);
    var reached := Run(setup, after, events);
    assert reached.customers[Lower(named)] == s.customer;
    assert MappedUser(reached.customers, s.customer) == Lower(named);
    assert !NamesOwner(setup, reached, later.subscription.value);
    if later.id !in reached.ledger { AppliedIff(setup, reached, later); }
  }

  // ---------------------------------------------------------------- access

  /** An event never touches the rows of another user or of another source. */
  lemma OtherRowsStay(setup: Setup, db: Db, e: Event, slot: Slot)
    requires Inv(setup, db) && OutcomeOf(setup, db, e).Applied? && e.subscription.Some? && Projected(setup, e.subscription.value).Ok?
    requires !slot.source.Stripe?
      || (IsMapped(After(setup, db, e).customers, e.subscription.value.customer)
          && slot.user != MappedUser(After(setup, db, e).customers, e.subscription.value.customer))
    ensures slot in After(setup, db, e).entitlements <==> slot in db.entitlements
    ensures slot in db.entitlements ==> After(setup, db, e).entitlements[slot] == db.entitlements[slot]
  {
    var s := e.subscription.value;
    var p := Projected(setup, s).value;
    var user := Lower(OwnerOf(setup, db.customers, s, p.customer).value);
    OwnerIsUsable(setup, db, s, p);
    EntitledMeans(db.entitlements, user, p, e.occurredAt, slot);
  }

  /** Every entitlement that a stored subscription grants is active. */
  ghost predicate AccessIsComplete(setup: Setup, db: Db) {
    forall id, user, key | Backs(setup, db, id, user, key) :: HoldsActive(db, Slot(user, key, Stripe))
  }

  /**
   Another subscription of the owner grants a key that this event ends: one of its
   plan, when it grants nothing itself, or one that it held and no longer lists.
   */
  ghost predicate EndsAccessOfAnother(setup: Setup, db: Db, p: Projection, user: User) {
    exists id, key :: id != p.id && Backs(setup, db, id, user, key) && EndsKey(db, p, user, key)
  }

  ghost predicate EndsKey(db: Db, p: Projection, user: User, key: EntitlementKey) {
    if key in p.plan.entitlementKeys then !Grants(p.status)
    else Slot(user, key, Stripe) in db.entitlements && db.entitlements[Slot(user, key, Stripe)].reference == Some(p.id)
  }

  /**
   A key has one row, whichever subscription wrote it last. So an applied event
   keeps access complete exactly when it does not end a key that another
   subscription of the same user still grants.
   */
  lemma AccessStaysCompleteIff(setup: Setup, db: Db, e: Event)
    requires Inv(setup, db) && AccessIsComplete(setup, db)
    requires OutcomeOf(setup, db, e).Applied? && e.subscription.Some? && Projected(setup, e.subscription.value).Ok?
    requires OwnerOf(setup, db.customers, e.subscription.value, e.subscription.value.customer).Ok?
    ensures AccessIsComplete(setup, After(setup, db, e)) <==>
      !EndsAccessOfAnother(setup, db, Projected(setup, e.subscription.value).value,
                           Lower(OwnerOf(setup, db.customers, e.subscription.value, e.subscription.value.customer).value))
  {
    var s := e.subscription.value;
    var p := Projected(setup, s).value;
    var user := Lower(OwnerOf(setup, db.customers, s, p.customer).value);
    var after := After(setup, db, e);
    forall id, u, key | id != p.id
      ensures Backs(setup, after, id, u, key) <==> Backs(setup, db, id, u, key)
    {
    }
    forall u, key ensures HoldsActive(after, Slot(u, key, Stripe)) <==>
        (if u == user && key in p.plan.entitlementKeys then Grants(p.status)
         else HoldsActive(db, Slot(u, key, Stripe)) && !(u == user && EndsKey(db, p, user, key)))
    {
      EntitledMeans(db.entitlements, user, p, e.occurredAt, Slot(u, key, Stripe));
    }
    if EndsAccessOfAnother(setup, db, p, user) {
      var id, key :| id != p.id && Backs(setup, db, id, user, key) && EndsKey(db, p, user, key);
      assert Backs(setup, after, id, user, key) && !HoldsActive(after, Slot(user, key, Stripe));
    } else {
      forall id, u, key | Backs(setup, after, id, u, key) ensures HoldsActive(after, Slot(u, key, Stripe)) {
        if id != p.id { assert Backs(setup, db, id, u, key); }
      }
    }
  }

  function Reported(id: SubscriptionId, user: User, price: PriceId, status: Status): Subscription {
    Subscription(id, "cus", Some(user), [Item(price, "prod", 0, 1)], Some(status), false, None, None, None)
  }

  /** A user with one paid subscription, of a plan with one key. */
  ghost predicate PaysForOne(setup: Setup, db: Db, user: User, key: EntitlementKey, price: PriceId) {
    && Inv(setup, db) && Lower(user) == user && IsVerified(setup, Some(user)) && db.customers == map[user := "cus"]
    && price in setup.prices && setup.prices[price].plan.entitlementKeys == [key]
    && db.subscriptions.Keys == {"sub_1"} && Backs(setup, db, "sub_1", user, key)
    && HoldsActive(db, Slot(user, key, Stripe)) && "evt_2" !in db.ledger
  }

  lemma SomeoneCanPayForOne(setup: Setup, user: User, key: EntitlementKey, price: PriceId, at: Instant)
    requires Lower(user) == user && price in setup.prices && setup.prices[price].plan.entitlementKeys == [key]
    requires IsVerified(setup, Some(user))
    ensures PaysForOne(setup, After(setup, Db(map[], map[], map[], map[]),
                                    Event("evt_1", "created", Some(Reported("sub_1", user, price, Active)), at)),
                       user, key, price)
  {
    var db, e := Db(map[], map[], map[], map[]), Event("evt_1", "created", Some(Reported("sub_1", user, price, Active)), at);
    var p := Projected(setup, e.subscription.value).value;
    AppliedIff(setup, db, e);
    EventKeepsInv(setup, db, e);
    EntitledMeans(db.entitlements, user, p, at, Slot(user, key, Stripe));
    assert OwnerOf(setup, db.customers, e.subscription.value, "cus") == Ok(user);
    assert "evt_1" != "evt_2" by { assert "evt_1"[4] != "evt_2"[4]; }
  }

  /**
   It happens: the first event of a user id with a capital letter is applied to
   empty tables, and the same report is refused under any id, whatever came between.
   */
  lemma CapitalsAreAppliedOnce(setup: Setup, user: User, price: PriceId, at: Instant, events: seq<Event>, id: EventId, kind: string,
                               later: Instant)
    requires IsVerified(setup, Some(user)) && Lower(user) != user && price in setup.prices
    ensures var db, s := Db(map[], map[], map[], map[]), Some(Reported("sub_1", user, price, Active));
      var e := Event("evt_1", "created", s, at);
      && OutcomeOf(setup, db, e).Applied? && After(setup, db, e).customers == map[Lower(user) := "cus"]
      && !OutcomeOf(setup, Run(setup, After(setup, db, e), events), Event(id, kind, s, later)).Applied?
  {
    var db, s := Db(map[], map[], map[], map[]), Some(Reported("sub_1", user, price, Active));
    var e := Event("evt_1", "created", s, at);
    AppliedIff(setup, db, e);
    CapitalsLockTheCustomerOut(setup, db, e, events, Event(id, kind, s, later));
  }

  /** There is such a user id. */
  lemma ACapitalExists()
    ensures exists setup: Setup, user: User, price: PriceId ::
      IsVerified(setup, Some(user)) && Lower(user) != user && price in setup.prices
  {
    var setup := Setup(map["price" := Price(Plan("plan", ["premium"]), Monthly)], s => s != "");
    var user: User := "A0000000-0000-0000-0000-000000000000";
    assert Lower(user)[0] == 'a' && user[0] == 'A';
    assert IsVerified(setup, Some(user)) && "price" in setup.prices;
  }

  /** The cancelled second subscription of a user takes away what the first one still grants. */
  lemma CancellingOneEndsTheOther(setup: Setup, db: Db, user: User, key: EntitlementKey, price: PriceId, at: Instant)
    requires PaysForOne(setup, db, user, key, price)
    ensures var after := After(setup, db, Event("evt_2", "deleted", Some(Reported("sub_2", user, price, Canceled)), at));
      Backs(setup, after, "sub_1", user, key) && !HoldsActive(after, Slot(user, key, Stripe))
  {
    var e := Event("evt_2", "deleted", Some(Reported("sub_2", user, price, Canceled)), at);
    var p := Projected(setup, e.subscription.value).value;
    assert "sub_1" != "sub_2" by { assert "sub_1"[4] != "sub_2"[4]; }
    assert MappedUser(db.customers, "cus") == user;
    AppliedIff(setup, db, e);
    EntitledMeans(db.entitlements, user, p, at, Slot(user, key, Stripe));
    assert OwnerOf(setup, db.customers, e.subscription.value, "cus") == Ok(user);
  }

  // ---------------------------------------------------------------- the transaction

  class BillingTables {
    var customers: map<User, Customer>
    var subscriptions: map<SubscriptionId, SubscriptionRow>
    var entitlements: map<Slot, Entitlement>
    var ledger: map<EventId, string>

    ghost function Contents(): Db
      reads this
    {
      Db(customers, subscriptions, entitlements, ledger)
    }

    constructor ()
      ensures Contents() == Db(map[], map[], map[], map[])
    {
      customers, subscriptions, entitlements, ledger := map[], map[], map[], map[];
    }

    method ResolveUserId(setup: Setup, s: Subscription, customer: Customer) returns (r: Result<User, Failure>)
      requires OneToOne(customers)
      ensures r == OwnerOf(setup, customers, s, customer)
    {
      var mapping: Option<User> := None;
      if u :| u in customers && customers[u] == customer {
        mapping := Some(u);
      }
      if s.metadataUser.Some? && s.metadataUser.value != "" && setup.isUuid(s.metadataUser.value) {
        if mapping.Some? && mapping.value != s.metadataUser.value {
          return Err(OwnershipMismatch);
        }
        return Ok(s.metadataUser.value);
      }
      if mapping.Some? {
        return Ok(mapping.value);
      }
      return Err(NoVerifiedUser);
    }

    method EnsureCustomerMapping(user: User, customer: Customer) returns (r: Result<(), Failure>)
      modifies this`customers
      ensures r == match WithCustomer(old(customers), user, customer) { case Ok(_) => Ok(()) case Err(failure) => Err(failure) }
      ensures customers == match WithCustomer(old(customers), user, customer) { case Ok(m) => m case Err(_) => old(customers) }
    {
      var stored := Lower(user);
      if stored in customers && customers[stored] != customer {
        return Err(OtherCustomer);
      }
      if stored !in customers {
        if u :| u in customers && customers[u] == customer {
          return Err(UniqueViolation);
        }
        customers := customers[stored := customer];
      }
      return Ok(());
    }

    /** Expires the rows whose key the plan dropped, then writes the row of each key in turn. */
    method SynchronizeEntitlements(user: User, p: Projection, occurredAt: Instant)
      modifies this`entitlements
      ensures entitlements == Entitled(old(entitlements), Lower(user), p, occurredAt)
    {
      hide DroppedExpired, EntitlementFor, Lower;
      var stored := Lower(user);
      var row := EntitlementFor(p, occurredAt);
      var keys := p.plan.entitlementKeys;
      ghost var expired := DroppedExpired(entitlements, stored, p, occurredAt);
      entitlements := DroppedExpired(entitlements, stored, p, occurredAt);
      assert entitlements == Granted(expired, stored, keys[..0], row);
      hide Granted;
      for i := 0 to |keys|
        invariant entitlements == Granted(expired, stored, keys[..i], row)
      {
        GrantedOneMore(expired, stored, keys, i, row);
        entitlements := entitlements[Slot(stored, keys[i], Stripe) := row];
      }
      assert keys[..|keys|] == keys;
    }

    method SynchronizeSubscription(setup: Setup, s: Subscription, occurredAt: Instant) returns (r: Result<(), Failure>)
      requires OneToOne(customers)
      modifies this`customers, this`subscriptions, this`entitlements
      ensures r.Ok? <==> Synchronized(setup, old(Contents()), s, occurredAt).Ok?
      ensures r.Ok? ==> Contents() == Synchronized(setup, old(Contents()), s, occurredAt).value
      ensures r.Err? ==> Synchronized(setup, old(Contents()), s, occurredAt) == Err(r.error)
    {
      var projected := Projected(setup, s);
      if projected.Err? {
        return Err(projected.error);
      }
      var p := projected.value;
      var owner := ResolveUserId(setup, s, p.customer);
      if owner.Err? {
        return Err(owner.error);
      }
      var user := owner.value;
      r := EnsureCustomerMapping(user, p.customer);
      if r.Err? {
        return;
      }
      if p.id in subscriptions && (subscriptions[p.id].user != user || subscriptions[p.id].customer != p.customer) {
        return Err(Reassigned);
      }
      subscriptions := subscriptions[p.id := RowOf(Lower(user), p)];
      SynchronizeEntitlements(user, p, occurredAt);
      return Ok(());
    }

    /** One delivery: a transaction that either writes all of the event or nothing. */
    method Process(setup: Setup, e: Event) returns (outcome: Outcome)
      requires Inv(setup, Contents())
      modifies this
      ensures outcome == OutcomeOf(setup, old(Contents()), e)
      ensures Contents() == After(setup, old(Contents()), e)
      ensures Inv(setup, Contents())
    {
      EventKeepsInv(setup, Contents(), e);
      NoUniqueKeyIsViolated(setup, Contents(), e);
      if e.id in ledger {
        return Duplicate;
      }
      var customers0, subscriptions0, entitlements0, ledger0 := customers, subscriptions, entitlements, ledger;
      ledger := ledger[e.id := e.kind];
      if e.subscription.Some? {
        var r := SynchronizeSubscription(setup, e.subscription.value, e.occurredAt);
        if r.Err? {
          customers, subscriptions, entitlements, ledger := customers0, subscriptions0, entitlements0, ledger0;
          if r.error.UniqueViolation? && e.id in ledger {
            return Duplicate;
          }
          return Failed(r.error);
        }
      }
      return Applied;
    }
  }
}
