/**
 The webhook of the billing provider, deliveries handled one at a time: the event row is inserted in
 one transaction and applied in a second one, and the process may break at any point.
 */
module Webhooks {
  import opened Options
  import opened Billing
  import BillingRuns

  type EventId = string
  type TenantId = nat

  datatype EventStatus = Received | Failed | Processed | IgnoredStale

  datatype Books = Books(events: map<EventId, EventStatus>, accounts: map<TenantId, Account>)

  const EMPTY: Books := Books(map[], map[])

  /** A delivery with the tenant found for it. */
  datatype Delivery = Delivery(id: EventId, event: Event, created: Time, tenant: Option<TenantId>, now: Time)

  /**
   Where the handling breaks: the provider does not answer, the process dies once the row is
   inserted, or applying the event fails, with or without the chance to note the failure.
   */
  datatype Fault = NoFault | ProviderDown | CrashAfterInsert | ApplyFails(noted: bool)

  datatype Reply = Accepted | Duplicate | Error(code: nat) | Crashed

  predicate Final(status: EventStatus) {
    status.Processed? || status.IgnoredStale?
  }

  predicate IsFinal(b: Books, id: EventId) {
    id in b.events && Final(b.events[id])
  }

  function AccountOf(accounts: map<TenantId, Account>, tenant: TenantId): Account {
    if tenant in accounts then accounts[tenant] else NEW_ACCOUNT
  }

  /** The accounts after the event of a delivery; without a tenant there is nothing to change. */
  function ApplyTo(graceSeconds: nat, accounts: map<TenantId, Account>, d: Delivery): map<TenantId, Account> {
    if d.tenant.None? then accounts
    else accounts[d.tenant.value := Applied(AccountOf(accounts, d.tenant.value), d.event, Some(d.created),
        d.now + graceSeconds)]
  }

  predicate IsStale(accounts: map<TenantId, Account>, d: Delivery) {
    d.tenant.Some? && Stale(AccountOf(accounts, d.tenant.value), d.event, Some(d.created))
  }

  /** What a delivery is to the account of its tenant. */
  function CallOf(d: Delivery): BillingRuns.Call {
    BillingRuns.Deliver(d.event, Some(d.created), d.now)
  }

  predicate Breaks(d: Delivery, fault: Fault) {
    fault.ApplyFails? || (d.tenant.Some? && Fails(d.event))
  }

  /** Whether the second transaction of this delivery commits. */
  predicate Commits(b: Books, d: Delivery, fault: Fault) {
    !IsFinal(b, d.id) && !fault.ProviderDown? && !fault.CrashAfterInsert? && !Breaks(d, fault)
  }

  function Handled(graceSeconds: nat, b: Books, d: Delivery, fault: Fault): Books {
    if IsFinal(b, d.id) || fault.ProviderDown? then b
    else
      var inserted := if d.id in b.events then b else b.(events := b.events[d.id := Received]);
      if fault.CrashAfterInsert? || (fault.ApplyFails? && !fault.noted) then inserted
      else if Breaks(d, fault) then inserted.(events := inserted.events[d.id := Failed])
      else Books(inserted.events[d.id := if IsStale(b.accounts, d) then IgnoredStale else Processed],
          ApplyTo(graceSeconds, b.accounts, d))
  }

  class WebhookService {
    const graceSeconds: nat
    var events: map<EventId, EventStatus>
    var accounts: map<TenantId, Account>

    function Snapshot(): Books
      reads this
    {
      Books(events, accounts)
    }

    constructor (graceSeconds: nat)
      ensures Snapshot() == EMPTY && this.graceSeconds == graceSeconds
    {
      this.graceSeconds := graceSeconds;
      events, accounts := map[], map[];
    }

    /** The second transaction: the event is applied and its row marked, or nothing is. */
    method Apply(d: Delivery, fault: Fault) returns (committed: bool)
      requires d.id in events && !Final(events[d.id])
      modifies this
      ensures committed <==> !Breaks(d, fault)
      ensures Snapshot() == if committed then
                              Books(old(events)[d.id := if IsStale(old(accounts), d) then IgnoredStale else Processed],
                                  ApplyTo(graceSeconds, old(accounts), d))
                            else old(Snapshot())
    {
      var before := accounts;
      var isCurrent := true;
      if d.tenant.Some? {
        if Fails(d.event) {
          return false;
        }
        var account := AccountOf(accounts, d.tenant.value);
        isCurrent := !Stale(account, d.event, Some(d.created));
        accounts := accounts[d.tenant.value := Applied(account, d.event, Some(d.created), d.now + graceSeconds)];
      }
      if fault.ApplyFails? {
        accounts := before;
        return false;
      }
      events := events[d.id := if isCurrent then Processed else IgnoredStale];
      return true;
    }

    method ReceiveWebhook(d: Delivery, fault: Fault) returns (reply: Reply)
      modifies this
      ensures Snapshot() == Handled(graceSeconds, old(Snapshot()), d, fault)
      ensures reply.Accepted? <==> Commits(old(Snapshot()), d, fault)
      ensures reply.Duplicate? <==> IsFinal(old(Snapshot()), d.id)
      ensures fault.NoFault? && !reply.Duplicate? ==>
                (reply.Accepted? <==>
                   d.tenant.None? || ((d.event.InvoicePaid? || d.event.InvoiceFailed?) ==> d.event.invoice != ""))
      ensures forall id | id != d.id :: (id in events <==> id in old(events))
                && (id in events ==> events[id] == old(events)[id])
      ensures reply.Duplicate? || reply == Error(503) ==> events == old(events)
      ensures reply.Crashed? ==>
                d.id in events && events[d.id] == if d.id in old(events) then old(events)[d.id] else Received
      ensures reply == Error(500) ==> d.id in events && events[d.id] == Failed
      ensures reply.Error? ==> reply.code in {500, 503}
      ensures forall t: TenantId | d.tenant != Some(t) :: AccountOf(accounts, t) == AccountOf(old(accounts), t)
      ensures d.tenant.Some? ==>
                var before, after := AccountOf(old(accounts), d.tenant.value), AccountOf(accounts, d.tenant.value);
                after == if reply.Accepted? then BillingRuns.Step(graceSeconds, before, CallOf(d)) else before
    {
      if d.id in events && Final(events[d.id]) {
        return Duplicate;
      }
      if fault.ProviderDown? {
        return Error(503);
      }
      if d.id !in events {
        events := events[d.id := Received];
      }
      if fault.CrashAfterInsert? {
        return Crashed;
      }
      var committed := Apply(d, fault);
      if committed {
        return Accepted;
      }
      if fault.ApplyFails? && !fault.noted {
        return Crashed;
      }
      events := events[d.id := Failed];
      return Error(500);
    }
  }

  // ----- Runs -----

  datatype Attempt = Attempt(delivery: Delivery, fault: Fault)

  function Run(graceSeconds: nat, b: Books, attempts: seq<Attempt>): Books
    decreases |attempts|
  {
    if attempts == [] then b
    else Run(graceSeconds, Handled(graceSeconds, b, attempts[0].delivery, attempts[0].fault), attempts[1..])
  }

  /** The deliveries of a run whose change committed, in order. */
  function Committed(graceSeconds: nat, b: Books, attempts: seq<Attempt>): seq<Delivery>
    decreases |attempts|
  {
    if attempts == [] then []
    else
      (if Commits(b, attempts[0].delivery, attempts[0].fault) then [attempts[0].delivery] else [])
      + Committed(graceSeconds, Handled(graceSeconds, b, attempts[0].delivery, attempts[0].fault), attempts[1..])
  }

  /** Applying deliveries one after the other, without an event table. */
  function Replay(graceSeconds: nat, accounts: map<TenantId, Account>, ds: seq<Delivery>): map<TenantId, Account>
    decreases |ds|
  {
    if ds == [] then accounts else Replay(graceSeconds, ApplyTo(graceSeconds, accounts, ds[0]), ds[1..])
  }

  predicate Names(ds: seq<Delivery>, id: EventId) {
    exists i :: 0 <= i < |ds| && ds[i].id == id
  }

  predicate DistinctIds(ds: seq<Delivery>) {
    forall i, j | 0 <= i < j < |ds| :: ds[i].id != ds[j].id
  }

  lemma HandledOnce(graceSeconds: nat, b: Books, d: Delivery, fault: Fault)
    ensures var b' := Handled(graceSeconds, b, d, fault);
            && b'.accounts == (if Commits(b, d, fault) then ApplyTo(graceSeconds, b.accounts, d) else b.accounts)
            && (IsFinal(b', d.id) <==> IsFinal(b, d.id) || Commits(b, d, fault))
            && (forall id | id != d.id :: IsFinal(b', id) == IsFinal(b, id))
            && (forall id | IsFinal(b, id) :: b'.events[id] == b.events[id])
  {
    hide ApplyTo, IsStale;
  }

  /** A committed event is marked as ignored exactly when it was stale, and then it changed a customer at most. */
  lemma IgnoredMeansStale(graceSeconds: nat, b: Books, d: Delivery, fault: Fault)
    requires Commits(b, d, fault)
    ensures var b' := Handled(graceSeconds, b, d, fault);
            && d.id in b'.events
            && (b'.events[d.id].IgnoredStale? <==> IsStale(b.accounts, d))
            && (b'.events[d.id].IgnoredStale? ==>
                  var before := AccountOf(b.accounts, d.tenant.value);
                  b'.accounts == b.accounts[d.tenant.value := WithCustomer(before, d.event.customer)])
  {
  }

  /**
   With duplicates, crashes, failures and retries in any order, every event id commits at most once,
   it is marked processed (or ignored as stale) exactly when it has committed, and the accounts are
   those of applying the committed deliveries once each, in order.
   */
  lemma {:induction false} EachEventOnce(graceSeconds: nat, b: Books, attempts: seq<Attempt>)
    ensures var done := Committed(graceSeconds, b, attempts);
            && DistinctIds(done)
            && (forall id :: IsFinal(Run(graceSeconds, b, attempts), id) <==> IsFinal(b, id) || Names(done, id))
            && (forall id | IsFinal(b, id) :: !Names(done, id))
            && Run(graceSeconds, b, attempts).accounts == Replay(graceSeconds, b.accounts, done)
    decreases |attempts|
  {
    hide Handled, ApplyTo, Commits, IsFinal;
    if attempts != [] {
      var d, fault := attempts[0].delivery, attempts[0].fault;
      var next := Handled(graceSeconds, b, d, fault);
      HandledOnce(graceSeconds, b, d, fault);
      CommitsOnlyOnce(b, d, fault);
      EachEventOnce(graceSeconds, next, attempts[1..]);
      var rest, done := Committed(graceSeconds, next, attempts[1..]), Committed(graceSeconds, b, attempts);
      if Commits(b, d, fault) {
        assert done == [d] + rest && done[1..] == rest;
        forall id ensures Names(done, id) <==> id == d.id || Names(rest, id) {
          NamesCons(d, rest, id);
        }
        assert !Names(rest, d.id);
      } else {
        assert done == rest;
      }
    }
  }

  lemma NamesCons(d: Delivery, rest: seq<Delivery>, id: EventId)
    ensures Names([d] + rest, id) <==> id == d.id || Names(rest, id)
  {
    if d.id == id {
      assert ([d] + rest)[0].id == id;
    }
    if Names(rest, id) {
      var i :| 0 <= i < |rest| && rest[i].id == id;
      assert ([d] + rest)[i + 1].id == id;
    }
  }

  lemma CommitsOnlyOnce(b: Books, d: Delivery, fault: Fault)
    ensures Commits(b, d, fault) ==> !IsFinal(b, d.id)
  {
  }

  lemma ExactlyOnce(graceSeconds: nat, attempts: seq<Attempt>, id: EventId)
    ensures IsFinal(Run(graceSeconds, EMPTY, attempts), id) <==> Names(Committed(graceSeconds, EMPTY, attempts), id)
    ensures forall i, j | 0 <= i < j < |Committed(graceSeconds, EMPTY, attempts)| ::
        Committed(graceSeconds, EMPTY, attempts)[i].id != Committed(graceSeconds, EMPTY, attempts)[j].id
    ensures Run(graceSeconds, EMPTY, attempts).accounts
            == Replay(graceSeconds, map[], Committed(graceSeconds, EMPTY, attempts))
  {
    EachEventOnce(graceSeconds, EMPTY, attempts);
    assert !IsFinal(EMPTY, id);
  }

  /** A mark is for ever, and what is not marked yet is marked by the first delivery that does not break. */
  lemma {:induction false} MarksStay(graceSeconds: nat, b: Books, attempts: seq<Attempt>, id: EventId)
    ensures IsFinal(b, id) ==>
              id in Run(graceSeconds, b, attempts).events
              && Run(graceSeconds, b, attempts).events[id] == b.events[id]
    ensures !IsFinal(b, id) ==>
              (IsFinal(Run(graceSeconds, b, attempts), id) <==>
                 exists i :: 0 <= i < |attempts| && attempts[i].delivery.id == id && attempts[i].fault.NoFault?
                     && !Breaks(attempts[i].delivery, NoFault))
    decreases |attempts|
  {
    hide Handled, Breaks;
    if attempts != [] {
      var d, fault := attempts[0].delivery, attempts[0].fault;
      HandledOnce(graceSeconds, b, d, fault);
      BreaksByFault(d, fault);
      MarksStay(graceSeconds, Handled(graceSeconds, b, d, fault), attempts[1..], id);
      if !IsFinal(b, id) {
        if exists i :: 0 <= i < |attempts| && attempts[i].delivery.id == id && attempts[i].fault.NoFault?
            && !Breaks(attempts[i].delivery, NoFault) {
          var i :| 0 <= i < |attempts| && attempts[i].delivery.id == id && attempts[i].fault.NoFault?
              && !Breaks(attempts[i].delivery, NoFault);
          if i > 0 {
            assert attempts[1..][i - 1] == attempts[i];
          }
        }
      }
    }
  }

  lemma BreaksByFault(d: Delivery, fault: Fault)
    ensures Breaks(d, fault) <==> fault.ApplyFails? || Breaks(d, NoFault)
  {
  }

  // ----- What a tenant's account is -----

  /** The deliveries for one tenant, as calls on its account. */
  function CallsOf(ds: seq<Delivery>, tenant: TenantId): seq<BillingRuns.Call> {
    if ds == [] then []
    else (if ds[0].tenant == Some(tenant) then [CallOf(ds[0])] else []) + CallsOf(ds[1..], tenant)
  }

  /** One delivery is one call on the account of its tenant if it commits, and nothing to any other. */
  lemma HandledAccount(graceSeconds: nat, b: Books, d: Delivery, fault: Fault, tenant: TenantId)
    ensures var before := AccountOf(b.accounts, tenant);
            AccountOf(Handled(graceSeconds, b, d, fault).accounts, tenant) ==
            if Commits(b, d, fault) && d.tenant == Some(tenant) then
              BillingRuns.Step(graceSeconds, before, CallOf(d))
            else before
  {
    hide Applied, IsStale;
  }

  lemma CallsCons(graceSeconds: nat, a: Account, d: Delivery, rest: seq<Delivery>, tenant: TenantId)
    ensures BillingRuns.Run(graceSeconds, a, CallsOf([d] + rest, tenant)) ==
            BillingRuns.Run(graceSeconds,
                if d.tenant == Some(tenant) then BillingRuns.Step(graceSeconds, a, CallOf(d)) else a,
                CallsOf(rest, tenant))
  {
    hide BillingRuns.Step, CallOf;
    assert ([d] + rest)[1..] == rest;
    if d.tenant == Some(tenant) {
      assert ([CallOf(d)] + CallsOf(rest, tenant))[1..] == CallsOf(rest, tenant);
    } else {
      assert CallsOf([d] + rest, tenant) == CallsOf(rest, tenant);
    }
  }

  lemma {:induction false} AccountAfterRun(graceSeconds: nat, b: Books, attempts: seq<Attempt>, tenant: TenantId)
    ensures AccountOf(Run(graceSeconds, b, attempts).accounts, tenant) ==
            BillingRuns.Run(graceSeconds, AccountOf(b.accounts, tenant),
                CallsOf(Committed(graceSeconds, b, attempts), tenant))
    decreases |attempts|
  {
    hide Handled, Commits, AccountOf, BillingRuns.Step, CallOf;
    if attempts != [] {
      var d, fault := attempts[0].delivery, attempts[0].fault;
      var next := Handled(graceSeconds, b, d, fault);
      var rest := Committed(graceSeconds, next, attempts[1..]);
      HandledAccount(graceSeconds, b, d, fault, tenant);
      AccountAfterRun(graceSeconds, next, attempts[1..], tenant);
      if Commits(b, d, fault) {
        assert Committed(graceSeconds, b, attempts) == [d] + rest;
        CallsCons(graceSeconds, AccountOf(b.accounts, tenant), d, rest, tenant);
      } else {
        assert Committed(graceSeconds, b, attempts) == rest;
      }
    }
  }

  /**
   With duplicates, crashes, failures and retries in any order, the account of every tenant is what
   its committed deliveries, in order, make of a new account: what holds of every run of events on one
   account holds of webhooks.
   */
  lemma AccountsAreRuns(graceSeconds: nat, attempts: seq<Attempt>, tenant: TenantId)
    ensures AccountOf(Run(graceSeconds, EMPTY, attempts).accounts, tenant) ==
            BillingRuns.Run(graceSeconds, NEW_ACCOUNT, CallsOf(Committed(graceSeconds, EMPTY, attempts), tenant))
  {
    AccountAfterRun(graceSeconds, EMPTY, attempts, tenant);
  }

  /**
   For instance: if deliveries are made and retried until those of a tenant have committed, whatever
   their order, the newest subscription event decides the plan as later checkouts overwrite it.
   */
  lemma NewestDeliveryDecides(graceSeconds: nat, attempts: seq<Attempt>, tenant: TenantId, k: nat)
    requires BillingRuns.IsNewest(CallsOf(Committed(graceSeconds, EMPTY, attempts), tenant), k)
    ensures var calls := CallsOf(Committed(graceSeconds, EMPTY, attempts), tenant);
            AccountOf(Run(graceSeconds, EMPTY, attempts).accounts, tenant).plan ==
            BillingRuns.Overwritten(calls[k + 1..], PlanOf(calls[k].event, calls[k].created, None))
  {
    hide Run, Committed;
    AccountsAreRuns(graceSeconds, attempts, tenant);
    BillingRuns.NewestDecides(graceSeconds, NEW_ACCOUNT, CallsOf(Committed(graceSeconds, EMPTY, attempts), tenant), k);
  }
}
