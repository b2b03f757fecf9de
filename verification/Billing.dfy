/**
 The billing account of a tenant: what provider events, uploads and the grace deadline do to it.
 Times are seconds; the provider's resources are given as the values the code extracts from them.
 */
module Billing {
  import opened Options

  type Time = nat

  const BASE := "rubrica_base"
  const INTERMEDIATE := "rubrica_intermediate"
  const TEAM := "rubrica_team"

  datatype Status = NotConfigured | Pending | Active | PastDue | Unpaid | Cancelled | Paused

  /** What subscription events decide, and the creation time of the last one applied. */
  datatype Plan = Plan(subscription: Option<string>, product: Option<string>, cancelAtPeriodEnd: bool,
                       cancelsAt: Option<Time>, lastEvent: Option<Time>)

  datatype Usage = Usage(files: nat, start: Option<Time>, periodEnds: Option<Time>)

  datatype Account = Account(status: Status, customer: Option<string>, plan: Plan, grace: Option<Time>, usage: Usage,
                             lifetime: bool)

  const NEW_ACCOUNT: Account :=
    Account(NotConfigured, None, Plan(None, None, false, None, None), None, Usage(0, None, None), false)

  datatype Event =
    | Checkout(customer: Option<string>, subscription: Option<string>, product: string)
    | InvoicePaid(customer: Option<string>, invoice: string, cycle: bool, periodStart: Option<Time>,
                  periodEnd: Option<Time>)
    | InvoiceFailed(customer: Option<string>, invoice: string)
    | Subscription(customer: Option<string>, id: string, product: string, providerStatus: string,
                   periodStart: Option<Time>, periodEnd: Option<Time>, cancelAtPeriodEnd: bool, cancelAt: Option<Time>)
    | Other(customer: Option<string>)

  // ----- Entitlements -----

  function SubscriptionStatus(providerStatus: string): Status {
    if providerStatus in {"active", "trialing"} then Active
    else if providerStatus in {"past_due", "incomplete"} then PastDue
    else if providerStatus == "unpaid" then Unpaid
    else if providerStatus in {"canceled", "incomplete_expired"} then Cancelled
    else if providerStatus == "paused" then Paused
    else NotConfigured
  }

  function NormalizeProduct(product: Option<string>): string {
    var value := if product == None || product == Some("") then BASE else product.value;
    if value == "rubrica_mvp" then BASE else value
  }

  function PlanFileLimit(product: string): Option<nat> {
    if product == BASE then Some(20) else if product == INTERMEDIATE then Some(80)
        else if product == TEAM then Some(200) else None
  }

  predicate PaidAccess(a: Account, now: Time) {
    a.status == Active || (a.status == PastDue && a.grace.Some? && a.grace.value > now)
  }

  function ActiveFileLimit(a: Account, now: Time): Option<nat> {
    if PaidAccess(a, now) then PlanFileLimit(NormalizeProduct(a.plan.product)) else None
  }

  /** An upload is counted unless the tenant has lifetime access or no paid plan with an allowance. */
  predicate Metered(a: Account, now: Time) {
    !a.lifetime && ActiveFileLimit(a, now).Some?
  }

  predicate UploadAllowed(a: Account, now: Time) {
    Metered(a, now) ==> a.usage.files < ActiveFileLimit(a, now).value
  }

  function Uploaded(a: Account, now: Time): Account {
    if Metered(a, now) && UploadAllowed(a, now) then a.(usage := a.usage.(files := a.usage.files + 1)) else a
  }

  // ----- Events -----

  /** A paid cycle invoice opens a new period, and clears the count, when it starts after the current one. */
  predicate Resets(usage: Usage, start: Option<Time>, cycle: bool) {
    cycle && start.Some? && usage.start.Some? && start.value > usage.start.value
  }

  function SyncedUsage(usage: Usage, start: Option<Time>, end: Option<Time>, cycle: bool): Usage {
    Usage(
      if Resets(usage, start, cycle) then 0 else usage.files,
      if start.Some? && (usage.start.None? || Resets(usage, start, cycle)) then start else usage.start,
      if end.Some? then end else usage.periodEnds)
  }

  /** A subscription event created before the last one applied. */
  predicate Stale(a: Account, event: Event, created: Option<Time>) {
    event.Subscription? && created.Some? && a.plan.lastEvent.Some? && created.value < a.plan.lastEvent.value
  }

  function PlanOf(event: Event, created: Option<Time>, lastEvent: Option<Time>): Plan
    requires event.Subscription?
  {
    Plan(Some(event.id), Some(event.product), event.cancelAtPeriodEnd,
         if !event.cancelAtPeriodEnd then None else if event.cancelAt.Some? then event.cancelAt else event.periodEnd,
         if created.Some? then created else lastEvent)
  }

  function GraceAfter(a: Account, status: Status, deadline: Time): Option<Time> {
    if status == PastDue && a.grace.None? then Some(deadline)
    else if status in {Active, Cancelled, Unpaid, Paused} then None
    else a.grace
  }

  function Subscribed(a: Account, event: Event, created: Option<Time>, deadline: Time): Account
    requires event.Subscription?
  {
    var status := SubscriptionStatus(event.providerStatus);
    a.(status := status,
       plan := PlanOf(event, created, a.plan.lastEvent),
       grace := GraceAfter(a, status, deadline),
       usage := if status == Active then SyncedUsage(a.usage, event.periodStart, event.periodEnd, false)
                else if event.periodEnd.Some? then a.usage.(periodEnds := event.periodEnd)
                else a.usage)
  }

  function WithCustomer(a: Account, customer: Option<string>): Account {
    if customer.Some? && customer.value != "" then a.(customer := customer) else a
  }

  /** An invoice without an id cannot be recorded: the event fails. */
  predicate Fails(event: Event) {
    (event.InvoicePaid? || event.InvoiceFailed?) && event.invoice == ""
  }

  /** The account after an event that does not fail; `deadline` is where a grace period that begins now ends. */
  function Applied(before: Account, event: Event, created: Option<Time>, deadline: Time): Account {
    var a := WithCustomer(before, event.customer);
    match event
    case Checkout(_, subscription, product) =>
      a.(plan := a.plan.(subscription := subscription, product := Some(product)),
         status := if a.status == Active then Active else Pending)
    case InvoicePaid(_, _, cycle, start, end) =>
      a.(status := Active, grace := None, usage := SyncedUsage(a.usage, start, end, cycle))
    case InvoiceFailed(_, _) =>
      if a.status == PastDue && a.grace.Some? then a else a.(status := PastDue, grace := Some(deadline))
    case Subscription(_, _, _, _, _, _, _, _) =>
      if Stale(a, event, created) then a else Subscribed(a, event, created, deadline)
    case Other(_) => a
  }

  // ----- What an event means for the tenant -----

  /**
   After a current subscription event the provider's status decides: "active" and "trialing" give
   paid access for good, "past_due" and "incomplete" until the deadline, and nothing else gives any.
   Only the latter two keep a deadline that is already running, or start one.
   */
  ghost predicate SubscriptionDecides(before: Account, a: Account, event: Event, created: Option<Time>, deadline: Time)
    requires event.Subscription?
  {
    var answer := event.providerStatus;
    var good, late := answer in {"active", "trialing"}, answer in {"past_due", "incomplete"};
    var over := answer in {"canceled", "incomplete_expired"};
    && (forall now: Time :: PaidAccess(a, now) <==> good || (late && a.grace.Some? && now < a.grace.value))
    && (a.status.Unpaid? <==> answer == "unpaid")
    && (a.status.Cancelled? <==> over)
    && (a.status.Paused? <==> answer == "paused")
    && (a.status.NotConfigured? <==> !good && !late && !over && answer !in {"unpaid", "paused"})
    && (late ==> a.grace == if before.grace.Some? then before.grace else Some(deadline))
    && (good || over || answer in {"unpaid", "paused"} ==> a.grace == None)
    && a.plan.subscription == Some(event.id) && a.plan.product == Some(event.product)
    && a.plan.cancelAtPeriodEnd == event.cancelAtPeriodEnd
    && (a.plan.cancelsAt.Some? <==> event.cancelAtPeriodEnd && (event.cancelAt.Some? || event.periodEnd.Some?))
    && (a.plan.cancelsAt.Some? ==> a.plan.cancelsAt == if event.cancelAt.Some? then event.cancelAt else event.periodEnd)
    && a.plan.lastEvent == (if created.Some? then created else before.plan.lastEvent)
    && a.usage.files == before.usage.files
    && (event.periodEnd.Some? ==> a.usage.periodEnds == event.periodEnd)
    && (before.usage.start.Some? ==> a.usage.start == before.usage.start)
  }

  /** A paid invoice gives paid access, a failed one until the deadline; a checkout leaves it to an active account. */
  ghost predicate PaymentDecides(before: Account, a: Account, event: Event, deadline: Time) {
    match event
    case Checkout(_, subscription, product) =>
      && a.plan.subscription == subscription && a.plan.product == Some(product)
      && (forall now: Time :: PaidAccess(a, now) <==> before.status.Active?) && a.usage == before.usage
    case InvoicePaid(_, _, cycle, start, end) =>
      && (forall now: Time :: PaidAccess(a, now)) && a.grace == None && a.plan == before.plan
      && a.usage.files == (if cycle && start.Some? && before.usage.start.Some? && before.usage.start.value < start.value
                           then 0 else before.usage.files)
      && (before.usage.start.None? ==> a.usage.start == start)
      && (end.Some? ==> a.usage.periodEnds == end)
    case InvoiceFailed(_, _) =>
      && a.status.PastDue? && a.plan == before.plan && a.usage == before.usage
      && a.grace == (if before.status.PastDue? && before.grace.Some? then before.grace else Some(deadline))
      && (forall now: Time :: PaidAccess(a, now) <==> now < a.grace.value)
    case _ => true
  }

  lemma AppliedMeans(before: Account, event: Event, created: Option<Time>, deadline: Time)
    ensures var a := Applied(before, event, created, deadline);
            && (event.Subscription? && !Stale(before, event, created) ==>
                  SubscriptionDecides(before, a, event, created, deadline))
            && PaymentDecides(before, a, event, deadline)
            && (event.Other? || Stale(before, event, created) ==> a == before.(customer := a.customer))
            && a.customer == (if event.customer.Some? && event.customer.value != "" then event.customer
                              else before.customer)
            && a.lifetime == before.lifetime
  {
  }

  // ----- The entity and the service -----

  class BillingAccountEntity {
    var status: Status
    var customer: Option<string>
    var subscription: Option<string>
    var product: Option<string>
    var cancelAtPeriodEnd: bool
    var cancelsAt: Option<Time>
    var lastEvent: Option<Time>
    var grace: Option<Time>
    var files: nat
    var usageStart: Option<Time>
    var periodEnds: Option<Time>
    var lifetime: bool

    constructor ()
      ensures Value() == NEW_ACCOUNT
    {
      status, customer, subscription, product := NotConfigured, None, None, None;
      cancelAtPeriodEnd, cancelsAt, lastEvent, grace := false, None, None, None;
      files, usageStart, periodEnds, lifetime := 0, None, None, false;
    }

    function Value(): Account
      reads this
    {
      Account(status, customer, Plan(subscription, product, cancelAtPeriodEnd, cancelsAt, lastEvent), grace,
          Usage(files, usageStart, periodEnds), lifetime)
    }
  }

  method SyncUsagePeriod(account: BillingAccountEntity, start: Option<Time>, end: Option<Time>, resetUsage: bool)
    modifies account`files, account`usageStart, account`periodEnds
    ensures account.Value() ==
            old(account.Value()).(usage := SyncedUsage(old(account.Value()).usage, start, end, resetUsage))
  {
    if end.Some? {
      account.periodEnds := end;
    }
    if start.None? {
      return;
    }
    var current := account.usageStart;
    if resetUsage && current.Some? && start.value > current.value {
      account.files := 0;
    }
    if current.None? || (resetUsage && start.value > current.value) {
      account.usageStart := start;
    }
  }

  method ConsumeDocument(account: BillingAccountEntity, now: Time) returns (allowed: bool)
    modifies account`files
    ensures allowed <==> UploadAllowed(old(account.Value()), now)
    ensures account.Value() == Uploaded(old(account.Value()), now)
    ensures var product, files := old(account.product), old(account.files);
            var counted := !account.lifetime && PaidAccess(old(account.Value()), now);
            var essential := product in {None, Some(""), Some("rubrica_mvp"), Some("rubrica_base")};
            && (!allowed <==>
                  counted && ((essential && files >= 20) || (product == Some("rubrica_intermediate") && files >= 80)
                              || (product == Some("rubrica_team") && files >= 200)))
            && account.files == files + (
                 if allowed && counted && (essential || product in {Some("rubrica_intermediate"), Some("rubrica_team")})
                 then 1 else 0)
  {
    if account.lifetime {
      return true;
    }
    var limit := ActiveFileLimit(account.Value(), now);
    if limit.None? {
      return true;
    }
    if account.files >= limit.value {
      return false;
    }
    account.files := account.files + 1;
    return true;
  }

  /** The branch of `_apply_event` for a subscription event that is not stale. */
  method ApplySubscription(account: BillingAccountEntity, event: Event, created: Option<Time>, now: Time,
                           graceSeconds: nat)
    requires event.Subscription?
    modifies account
    ensures account.Value() == Subscribed(old(account.Value()), event, created, now + graceSeconds)
  {
    hide SubscriptionStatus, SyncedUsage;
    account.subscription := Some(event.id);
    account.product := Some(event.product);
    account.status := SubscriptionStatus(event.providerStatus);
    if account.status == PastDue && account.grace.None? {
      account.grace := Some(now + graceSeconds);
    } else if account.status in {Active, Cancelled, Unpaid, Paused} {
      account.grace := None;
    }
    if created.Some? {
      account.lastEvent := created;
    }
    account.cancelAtPeriodEnd := event.cancelAtPeriodEnd;
    account.cancelsAt := if !event.cancelAtPeriodEnd then None else if event.cancelAt.Some? then event.cancelAt
        else event.periodEnd;
    if account.status == Active {
      SyncUsagePeriod(account, event.periodStart, event.periodEnd, false);
    } else if event.periodEnd.Some? {
      account.periodEnds := event.periodEnd;
    }
  }

  /** `_apply_event`; the result is whether the event was new. */
  method ApplyEvent(account: BillingAccountEntity, event: Event, created: Option<Time>, now: Time, graceSeconds: nat)
      returns (isCurrent: bool)
    requires !Fails(event)
    modifies account
    ensures account.Value() == Applied(old(account.Value()), event, created, now + graceSeconds)
    ensures isCurrent <==> !Stale(old(account.Value()), event, created)
    ensures event.Subscription? && isCurrent ==>
              SubscriptionDecides(old(account.Value()), account.Value(), event, created, now + graceSeconds)
    ensures PaymentDecides(old(account.Value()), account.Value(), event, now + graceSeconds)
    ensures event.Other? || !isCurrent ==>
              account.Value() == old(account.Value()).(customer := account.customer)
  {
    hide Subscribed, SyncedUsage, SubscriptionDecides, PaymentDecides;
    AppliedMeans(account.Value(), event, created, now + graceSeconds);
    if event.customer.Some? && event.customer.value != "" {
      account.customer := event.customer;
    }
    match event {
      case Checkout(_, subscription, product) =>
        account.subscription := subscription;
        account.product := Some(product);
        if account.status != Active {
          account.status := Pending;
        }
        return true;
      case InvoicePaid(_, _, cycle, start, end) =>
        account.status := Active;
        account.grace := None;
        SyncUsagePeriod(account, start, end, cycle);
        return true;
      case InvoiceFailed(_, _) =>
        if account.status != PastDue || account.grace.None? {
          account.status := PastDue;
          account.grace := Some(now + graceSeconds);
        }
        return true;
      case Subscription(_, _, _, _, _, _, _, _) =>
        if created.Some? && account.lastEvent.Some? && created.value < account.lastEvent.value {
          return false;
        }
        ApplySubscription(account, event, created, now, graceSeconds);
        return true;
      case Other(_) =>
        return true;
    }
  }
}
