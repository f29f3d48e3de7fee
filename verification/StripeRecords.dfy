/**
 What an applied event leaves in the tables, field by field, told from the event
 itself, and who has access because of it
 (apps/api/src/billing/stripe-webhook-processor.service.ts and
 apps/api/src/billing/entitlements.service.ts).
 */
module StripeRecords {
  import opened Basics
  import opened StripeProjection

  /** One item, of a configured price, in a known status. */
  predicate IsProjectable(setup: Setup, s: Subscription) {
    |s.items| == 1 && s.items[0].price in setup.prices && s.status.Some?
  }

  lemma AppliedIsProjectable(setup: Setup, db: Db, e: Event)
    requires OutcomeOf(setup, db, e).Applied? && e.subscription.Some?
    ensures var s := e.subscription.value;
      && IsProjectable(setup, s) && Projected(setup, s).Ok? && OwnerOf(setup, db.customers, s, s.customer).Ok?
      && WithCustomer(db.customers, OwnerOf(setup, db.customers, s, s.customer).value, s.customer).Ok?
  {
  }

  /**
   The stored subscription carries the event's own fields, its times in
   milliseconds, and belongs to the user that the event verifies or that its
   customer is mapped to. Every other subscription stays, and the event is in the
   ledger.
   */
  lemma SubscriptionIsRecorded(setup: Setup, db: Db, e: Event, other: SubscriptionId)
    requires Inv(setup, db) && OutcomeOf(setup, db, e).Applied? && e.subscription.Some?
    ensures var (s, after) := (e.subscription.value, After(setup, db, e));
      && IsProjectable(setup, s) && s.id in after.subscriptions
      && var (item, price, row) := (s.items[0], setup.prices[s.items[0].price], after.subscriptions[s.id]);
        && row.customer == s.customer && row.planKey == price.plan.key && row.interval == price.interval
        && row.price == item.price && row.product == item.product && row.status == s.status.value
        && row.periodStart == 1000 * item.periodStart && row.periodEnd == 1000 * item.periodEnd
        && (row.trialEnd.Some? <==> s.trialEnd.Some?) && (s.trialEnd.Some? ==> row.trialEnd.value == 1000 * s.trialEnd.value)
        && (row.canceledAt.Some? <==> s.canceledAt.Some?) && (s.canceledAt.Some? ==> row.canceledAt.value == 1000 * s.canceledAt.value)
        && (row.cancelAtPeriodEnd <==> s.cancelAtPeriodEnd || s.cancelAt == Some(item.periodEnd))
        && row.user in after.customers && after.customers[row.user] == s.customer
        && (IsVerified(setup, s.metadataUser) ==> row.user == Lower(s.metadataUser.value))
        && (IsMapped(db.customers, s.customer) ==> row.user == MappedUser(db.customers, s.customer))
    ensures other != e.subscription.value.id ==>
      (other in After(setup, db, e).subscriptions <==> other in db.subscriptions)
      && (other in db.subscriptions ==> After(setup, db, e).subscriptions[other] == db.subscriptions[other])
    ensures After(setup, db, e).ledger == db.ledger[e.id := e.kind]
  {
    var s := e.subscription.value;
    AppliedIsProjectable(setup, db, e);
    OwnerIsUsable(setup, db, s, Projected(setup, s).value);
    if IsMapped(db.customers, s.customer) { assert Lower(MappedUser(db.customers, s.customer)) == MappedUser(db.customers, s.customer); }
  }

  /** An event without a subscription is only written to the ledger. */
  lemma OtherEventsAreOnlyRecorded(setup: Setup, db: Db, e: Event)
    requires e.id !in db.ledger && e.subscription.None?
    ensures OutcomeOf(setup, db, e).Applied? && After(setup, db, e) == db.(ledger := db.ledger[e.id := e.kind])
  {
  }

  /** The owner of the event's subscription, once it is applied. */
  ghost function OwnerAfter(setup: Setup, db: Db, e: Event): User
    requires Inv(setup, db) && OutcomeOf(setup, db, e).Applied? && e.subscription.Some?
  {
    SubscriptionIsRecorded(setup, db, e, "");
    After(setup, db, e).subscriptions[e.subscription.value.id].user
  }

  /**
   Each key of the plan has a row that refers to the subscription and starts with
   its period. Trialing, active and past-due subscriptions grant it without end; a
   canceled one leaves it CANCELED and any other status EXPIRED, both ended when the
   subscription was canceled, or else when the event occurred.
   */
  lemma ListedKeysAreRecorded(setup: Setup, db: Db, e: Event, key: EntitlementKey)
    requires Inv(setup, db) && OutcomeOf(setup, db, e).Applied? && e.subscription.Some?
    requires IsProjectable(setup, e.subscription.value)
    requires key in setup.prices[e.subscription.value.items[0].price].plan.entitlementKeys
    ensures var (s, slot, rows) := (e.subscription.value, Slot(OwnerAfter(setup, db, e), key, Stripe), After(setup, db, e).entitlements);
      && slot in rows && rows[slot].reference == Some(s.id)
      && rows[slot].startsAt == Some(1000 * s.items[0].periodStart)
      && (s.status == Some(Trialing) || s.status == Some(Active) || s.status == Some(PastDue) ==>
            rows[slot].status == EntitlementActive && rows[slot].endsAt == None)
      && (s.status == Some(Canceled) ==> rows[slot].status == EntitlementCanceled)
      && (s.status == Some(Unpaid) || s.status == Some(Incomplete) || s.status == Some(IncompleteExpired) || s.status == Some(Paused) ==>
            rows[slot].status == EntitlementExpired)
      && (rows[slot].status != EntitlementActive ==>
            rows[slot].endsAt == Some(if s.canceledAt.Some? then 1000 * s.canceledAt.value else e.occurredAt))
  {
    var s := e.subscription.value;
    AppliedIsProjectable(setup, db, e);
    var user := Lower(OwnerOf(setup, db.customers, s, s.customer).value);
    EntitledMeans(db.entitlements, user, Projected(setup, s).value, e.occurredAt, Slot(user, key, Stripe));
  }

  /**
   Of the keys that the plan does not list, those that this very subscription last
   wrote expire at the event's time; every other row stays as it was, and none
   appears.
   */
  lemma UnlistedKeysExpireIff(setup: Setup, db: Db, e: Event, slot: Slot)
    requires Inv(setup, db) && OutcomeOf(setup, db, e).Applied? && e.subscription.Some?
    requires IsProjectable(setup, e.subscription.value)
    requires slot.user != OwnerAfter(setup, db, e) || slot.source != Stripe
      || slot.key !in setup.prices[e.subscription.value.items[0].price].plan.entitlementKeys
    ensures var (s, rows) := (e.subscription.value, After(setup, db, e).entitlements);
      && (slot in rows <==> slot in db.entitlements)
      && (slot in rows ==>
            rows[slot] == if slot.user == OwnerAfter(setup, db, e) && slot.source == Stripe && db.entitlements[slot].reference == Some(s.id)
                          then Entitlement(Some(s.id), EntitlementExpired, db.entitlements[slot].startsAt, Some(e.occurredAt))
                          else db.entitlements[slot])
  {
    var s := e.subscription.value;
    AppliedIsProjectable(setup, db, e);
    var user := Lower(OwnerOf(setup, db.customers, s, s.customer).value);
    EntitledMeans(db.entitlements, user, Projected(setup, s).value, e.occurredAt, slot);
  }

  // ---------------------------------------------------------------- why an event fails

  /** A new event fails for the first of these reasons that applies, in this order. */
  lemma FailsBecause(setup: Setup, db: Db, e: Event)
    requires Inv(setup, db) && e.id !in db.ledger && e.subscription.Some?
    ensures var (s, outcome) := (e.subscription.value, OutcomeOf(setup, db, e));
      var verified := IsVerified(setup, s.metadataUser);
      var mapped := IsMapped(db.customers, s.customer);
      var owner := if mapped then MappedUser(db.customers, s.customer) else if verified then Lower(s.metadataUser.value) else "";
      if |s.items| != 1 then outcome == Failed(NotExactlyOnePrice)
      else if s.items[0].price !in setup.prices then outcome == Failed(UnconfiguredPrice)
      else if s.status.None? then outcome == Failed(UnsupportedStatus)
      else if verified && mapped && s.metadataUser.value != owner then outcome == Failed(OwnershipMismatch)
      else if !verified && !mapped then outcome == Failed(NoVerifiedUser)
      else if !mapped && owner in db.customers then outcome == Failed(OtherCustomer)
      else if s.id in db.subscriptions && db.subscriptions[s.id].customer != s.customer then outcome == Failed(Reassigned)
      else outcome == Applied
  {
    var s := e.subscription.value;
    if IsProjectable(setup, s) {
      AppliedIff(setup, db, e);
      if IsMapped(db.customers, s.customer) {
        var u := MappedUser(db.customers, s.customer);
        assert Lower(u) == u;
      }
      if s.id in db.subscriptions { assert RowIsSound(setup, db.customers, db.subscriptions[s.id]); }
    }
  }

  // ---------------------------------------------------------------- access

  /** The active window: ACTIVE, begun, and not ended. */
  predicate IsOpen(row: Entitlement, at: Instant) {
    && row.status.EntitlementActive?
    && (row.startsAt.None? || row.startsAt.value <= at)
    && (row.endsAt.None? || row.endsAt.value > at)
  }

  ghost predicate HasAccess(db: Db, user: User, key: EntitlementKey, at: Instant) {
    exists source :: Slot(user, key, source) in db.entitlements && IsOpen(db.entitlements[Slot(user, key, source)], at)
  }

  /**
   After an applied event the subscription alone gives its owner access to a key of
   its plan at exactly the instants from the start of its period on, if its status
   grants access, and at none otherwise.
   */
  lemma SubscriptionGivesAccessIff(setup: Setup, db: Db, e: Event, key: EntitlementKey, at: Instant)
    requires Inv(setup, db) && OutcomeOf(setup, db, e).Applied? && e.subscription.Some?
    requires IsProjectable(setup, e.subscription.value)
    requires key in setup.prices[e.subscription.value.items[0].price].plan.entitlementKeys
    ensures var (s, after, user) := (e.subscription.value, After(setup, db, e), OwnerAfter(setup, db, e));
      && Slot(user, key, Stripe) in after.entitlements
      && (IsOpen(after.entitlements[Slot(user, key, Stripe)], at) <==>
            s.status.value in {Trialing, Active, PastDue} && 1000 * s.items[0].periodStart <= at)
      && (HasAccess(after, user, key, at) <==>
            || (s.status.value in {Trialing, Active, PastDue} && 1000 * s.items[0].periodStart <= at)
            || (exists source :: source != Stripe && Slot(user, key, source) in db.entitlements
                  && IsOpen(db.entitlements[Slot(user, key, source)], at)))
  {
    hide Inv, OutcomeOf, After, OwnerAfter;
    ListedKeysAreRecorded(setup, db, e, key);
    match e.subscription.value.status.value {
      case Trialing => case Active => case PastDue => case Canceled =>
      case Unpaid => case Incomplete => case IncompleteExpired => case Paused =>
    }
    var user := OwnerAfter(setup, db, e);
    forall source | source != Stripe
      ensures var slot := Slot(user, key, source);
        && (slot in After(setup, db, e).entitlements <==> slot in db.entitlements)
        && (slot in db.entitlements ==> After(setup, db, e).entitlements[slot] == db.entitlements[slot])
    {
      UnlistedKeysExpireIff(setup, db, e, Slot(user, key, source));
    }
  }

  /** Events of other customers. */
  predicate Elsewhere(events: seq<Event>, customer: Customer) {
    forall e | e in events :: e.subscription.Some? ==> e.subscription.value.customer != customer
  }

  lemma RowSurvives(setup: Setup, db: Db, e: Event, slot: Slot, customer: Customer)
    requires Inv(setup, db) && slot.user in db.customers && db.customers[slot.user] == customer
    requires e.subscription.Some? ==> e.subscription.value.customer != customer
    ensures slot in After(setup, db, e).entitlements <==> slot in db.entitlements
    ensures slot in db.entitlements ==> After(setup, db, e).entitlements[slot] == db.entitlements[slot]
  {
    if OutcomeOf(setup, db, e).Applied? && e.subscription.Some? {
      SubscriptionIsRecorded(setup, db, e, "");
      EventKeepsOwners(setup, db, e);
      AppliedIsProjectable(setup, db, e);
      hide Inv, OutcomeOf;
      assert OwnerAfter(setup, db, e) != slot.user;
      UnlistedKeysExpireIff(setup, db, e, slot);
    }
  }

  /** Whatever events of other customers follow, the entitlements of a mapped user stay exactly as they are. */
  lemma {:induction false} AccessLasts(setup: Setup, db: Db, events: seq<Event>, user: User, key: EntitlementKey, at: Instant)
    requires Inv(setup, db) && user in db.customers && Elsewhere(events, db.customers[user])
    ensures HasAccess(Run(setup, db, events), user, key, at) <==> HasAccess(db, user, key, at)
    decreases |events|
  {
    if events != [] {
      var after := After(setup, db, events[0]);
      assert events[0] in events;
      EventKeepsInv(setup, db, events[0]);
      EventKeepsOwners(setup, db, events[0]);
      hide Inv, After;
      forall source ensures var slot := Slot(user, key, source);
        && (slot in after.entitlements <==> slot in db.entitlements)
        && (slot in db.entitlements ==> after.entitlements[slot] == db.entitlements[slot])
      {
        RowSurvives(setup, db, events[0], Slot(user, key, source), db.customers[user]);
      }
      AccessLasts(setup, after, events[1..], user, key, at);
    }
  }
}
