/** The status of an account: what decides it, and exactly when the order of delivery does not matter. */
module BillingStatus {
  import opened Options
  import opened Billing
  import opened BillingRuns

  // ----- What decides the status -----

  predicate IsInvoice(call: Call) {
    call.Deliver? && (call.event.InvoicePaid? || call.event.InvoiceFailed?) && !Fails(call.event)
  }

  /** The status an invoice or a subscription event stands for. */
  function StatusOf(call: Call): Status
    requires IsInvoice(call) || Subscribes(call)
  {
    if Subscribes(call) then SubscriptionStatus(call.event.providerStatus)
    else if call.event.InvoicePaid? then Active
    else PastDue
  }

  /** What invoices, checkouts and synchronizations, in the order of delivery, make of a status. */
  function Settled(calls: seq<Call>, status: Status): Status {
    if calls == [] then status
    else
      var next :=
        if IsInvoice(calls[0]) || Synchronizes(calls[0]) then StatusOf(calls[0])
        else if ChecksOut(calls[0]) && status != Active then Pending
        else status;
      Settled(calls[1..], next)
  }

  lemma StepStatus(graceSeconds: nat, a: Account, call: Call)
    ensures Step(graceSeconds, a, call).status ==
            if Subscribes(call) && call.created.Some? && !Stale(a, call.event, call.created) then StatusOf(call)
            else Settled([call], a.status)
  {
  }

  /** As long as every dated subscription event is outdated only the other events change the status. */
  lemma {:induction false} OutdatedKeepStatus(graceSeconds: nat, a: Account, calls: seq<Call>)
    requires AllOutdated(a.plan, calls)
    ensures Run(graceSeconds, a, calls).status == Settled(calls, a.status)
    decreases |calls|
  {
    hide Step, PlanOf, Overwritten;
    if calls != [] {
      StepStatus(graceSeconds, a, calls[0]);
      StepPlan(graceSeconds, a, calls[0]);
      OutdatedKeepStatus(graceSeconds, Step(graceSeconds, a, calls[0]), calls[1..]);
    }
  }

  /**
   Whatever the order of delivery, the status is the one of the newest dated subscription event as
   the invoices, checkouts and synchronizations delivered after it have changed it.
   */
  lemma {:induction false} NewestThenInvoices(graceSeconds: nat, a: Account, calls: seq<Call>, k: nat)
    requires IsNewest(calls, k) && NotOutdated(a.plan, calls[k].created)
    ensures Run(graceSeconds, a, calls).status == Settled(calls[k + 1..], StatusOf(calls[k]))
    decreases |calls|
  {
    hide Step, PlanOf, Overwritten;
    var next := Step(graceSeconds, a, calls[0]);
    StepPlan(graceSeconds, a, calls[0]);
    StepStatus(graceSeconds, a, calls[0]);
    if k == 0 {
      OutdatedKeepStatus(graceSeconds, next, calls[1..]);
    } else {
      assert calls[1..][k - 1] == calls[k];
      NewestThenInvoices(graceSeconds, next, calls[1..], k - 1);
      assert calls[1..][k..] == calls[k + 1..];
    }
  }

  // ----- One status for every order -----

  /** The events a final status can come from: the invoices and the newest subscription event. */
  predicate Decides(calls: seq<Call>, i: nat) {
    i < |calls| && (IsInvoice(calls[i]) || IsNewest(calls, i))
  }

  ghost predicate Gives(calls: seq<Call>, status: Status) {
    exists i: nat :: Decides(calls, i) && StatusOf(calls[i]) == status
  }

  /** Every invoice stands for one status, the one of the newest subscription event if there is any. */
  ghost predicate StatusesAgree(calls: seq<Call>) {
    forall one, other | Gives(calls, one) && Gives(calls, other) :: one == other
  }

  /** Invoice and subscription events only, the latter with distinct creation times. */
  ghost predicate WellDated(calls: seq<Call>) {
    Dated(calls) && DistinctDates(calls) && forall c | c in calls :: !ChecksOut(c)
  }

  /** Another delivery of the same events, at times that follow its order. */
  ghost predicate Redelivers(calls: seq<Call>, others: seq<Call>) {
    Delivered(others) == Delivered(calls) && WellDated(others) && InOrder(others, 0)
  }

  /** Without checkouts the last invoice decides, if there is one. */
  lemma {:induction false} SettledByInvoice(calls: seq<Call>, status: Status)
    requires forall c | c in calls :: !ChecksOut(c) && !Synchronizes(c)
    ensures
      || (Settled(calls, status) == status && forall c | c in calls :: !IsInvoice(c))
      || exists i :: 0 <= i < |calls| && IsInvoice(calls[i]) && Settled(calls, status) == StatusOf(calls[i])
  {
    if calls != [] {
      var next := if IsInvoice(calls[0]) then StatusOf(calls[0]) else status;
      assert calls[0] in calls;
      SettledByInvoice(calls[1..], next);
      var rest, final := calls[1..], Settled(calls[1..], next);
      if exists i :: 0 <= i < |rest| && IsInvoice(rest[i]) && final == StatusOf(rest[i]) {
        var i :| 0 <= i < |rest| && IsInvoice(rest[i]) && final == StatusOf(rest[i]);
        assert calls[i + 1] == rest[i];
      } else {
        assert forall c | c in calls :: c == calls[0] || c in calls[1..];
      }
    }
  }

  /** The final status is one a deciding event gives, or that of a new account when there is none. */
  lemma FinalStatus(graceSeconds: nat, calls: seq<Call>)
    requires WellDated(calls)
    ensures var final := Run(graceSeconds, NEW_ACCOUNT, calls).status;
            Gives(calls, final) || (final == NotConfigured && forall status :: !Gives(calls, status))
  {
    hide Run, Settled, StatusOf;
    var final := Run(graceSeconds, NEW_ACCOUNT, calls).status;
    if exists c :: c in calls && Subscribes(c) {
      var k := NewestExists(calls);
      NewestThenInvoices(graceSeconds, NEW_ACCOUNT, calls, k);
      SettledByInvoice(calls[k + 1..], StatusOf(calls[k]));
      if final == StatusOf(calls[k]) {
        assert Decides(calls, k);
      } else {
        var i: nat :| i < |calls[k + 1..]| && IsInvoice(calls[k + 1..][i]) && final == StatusOf(calls[k + 1..][i]);
        assert Decides(calls, k + 1 + i) && calls[k + 1 + i] == calls[k + 1..][i];
      }
    } else {
      OutdatedKeepStatus(graceSeconds, NEW_ACCOUNT, calls);
      SettledByInvoice(calls, NotConfigured);
      if exists i: nat :: i < |calls| && IsInvoice(calls[i]) && final == StatusOf(calls[i]) {
        var i: nat :| i < |calls| && IsInvoice(calls[i]) && final == StatusOf(calls[i]);
        assert Decides(calls, i);
      }
    }
  }

  /** What one delivery can give another delivery of the same events can. */
  lemma SameGiven(calls: seq<Call>, others: seq<Call>, status: Status)
    requires WellDated(calls) && WellDated(others) && Delivered(calls) == Delivered(others) && Gives(others, status)
    ensures Gives(calls, status)
  {
    var j: nat :| Decides(others, j) && StatusOf(others[j]) == status;
    assert (others[j].event, others[j].created) in Delivered(others);
    var i: nat :| i < |calls| && calls[i].Deliver?
                  && calls[i].event == others[j].event && calls[i].created == others[j].created;
    if IsInvoice(others[j]) {
      assert Decides(calls, i);
    } else {
      assert Subscribes(calls[i]);
      var k := NewestExists(calls);
      SameNewest(calls, k, others, j);
      assert Decides(calls, k);
    }
  }

  lemma AgreeingOrder(graceSeconds: nat, calls: seq<Call>, others: seq<Call>)
    requires WellDated(calls) && WellDated(others) && Delivered(calls) == Delivered(others) && StatusesAgree(calls)
    ensures Run(graceSeconds, NEW_ACCOUNT, others).status == Run(graceSeconds, NEW_ACCOUNT, calls).status
  {
    hide Run, WellDated, Gives;
    var one, other := Run(graceSeconds, NEW_ACCOUNT, calls).status, Run(graceSeconds, NEW_ACCOUNT, others).status;
    FinalStatus(graceSeconds, calls);
    FinalStatus(graceSeconds, others);
    if Gives(others, other) {
      SameGiven(calls, others, other);
    } else if Gives(calls, one) {
      SameGiven(others, calls, one);
    }
  }

  // ----- A disagreeing event can come last -----

  /** Where the call at `a` comes from when the call at `i` is moved to the end. */
  function Source(n: nat, i: nat, a: nat): (source: nat)
    requires i < n && a < n
    ensures source < n
  {
    if a == n - 1 then i else if a < i then a else a + 1
  }

  function AtOnce(call: Call): Call {
    match call
    case Deliver(event, created, _) => Deliver(event, created, 0)
    case Upload(_, commits) => Upload(0, commits)
  }

  /** The same calls, all at one time, with the call at `i` last. */
  function Moved(calls: seq<Call>, i: nat): seq<Call>
    requires i < |calls|
  {
    seq(|calls|, a requires 0 <= a < |calls| => AtOnce(calls[Source(|calls|, i, a)]))
  }

  lemma RedeliveryIsWellDated(calls: seq<Call>, others: seq<Call>)
    requires Redelivers(calls, others)
    ensures WellDated(others) && Delivered(others) == Delivered(calls)
  {
  }

  lemma MovedRedelivers(calls: seq<Call>, i: nat)
    requires WellDated(calls) && i < |calls|
    ensures Redelivers(calls, Moved(calls, i))
  {
    var n, moved := |calls|, Moved(calls, i);
    forall d | d in Delivered(calls) ensures d in Delivered(moved) {
      var j :| 0 <= j < n && calls[j].Deliver? && (calls[j].event, calls[j].created) == d;
      var a := if j == i then n - 1 else if j < i then j else j - 1;
      assert moved[a] == AtOnce(calls[j]);
      assert moved[a] in moved;
    }
    forall d | d in Delivered(moved) ensures d in Delivered(calls) {
      var a :| 0 <= a < n && moved[a].Deliver? && (moved[a].event, moved[a].created) == d;
      assert calls[Source(n, i, a)] in calls;
    }
    assert forall a | 0 <= a < n :: calls[Source(n, i, a)] in calls;
  }

  lemma MovedEnds(graceSeconds: nat, calls: seq<Call>, i: nat)
    requires WellDated(calls) && Decides(calls, i)
    ensures Run(graceSeconds, NEW_ACCOUNT, Moved(calls, i)).status == StatusOf(calls[i])
  {
    hide Run, Step;
    var n, moved := |calls| - 1, Moved(calls, i);
    assert moved[n] == AtOnce(calls[i]);
    if IsInvoice(calls[i]) {
      assert moved == moved[..n] + [moved[n]];
      RunAppend(graceSeconds, NEW_ACCOUNT, moved[..n], [moved[n]]);
      RunTwo(graceSeconds, Run(graceSeconds, NEW_ACCOUNT, moved[..n]), moved[n], moved[n]);
      StepStatus(graceSeconds, Run(graceSeconds, NEW_ACCOUNT, moved[..n]), moved[n]);
    } else {
      assert IsNewest(moved, n);
      NewestThenInvoices(graceSeconds, NEW_ACCOUNT, moved, n);
    }
  }

  /**
   For invoice and subscription events with distinct creation times, all deliveries end with one
   status if and only if every invoice stands for the same status as every other and as the newest
   subscription event.
   */
  lemma OneStatusExactly(graceSeconds: nat, calls: seq<Call>)
    requires WellDated(calls)
    ensures (forall others | Redelivers(calls, others) ::
               Run(graceSeconds, NEW_ACCOUNT, others).status == Run(graceSeconds, NEW_ACCOUNT, calls).status)
            <==> StatusesAgree(calls)
  {
    hide Run, Gives, WellDated, Redelivers;
    if StatusesAgree(calls) {
      forall others | Redelivers(calls, others)
        ensures Run(graceSeconds, NEW_ACCOUNT, others).status == Run(graceSeconds, NEW_ACCOUNT, calls).status
      {
        RedeliveryIsWellDated(calls, others);
        AgreeingOrder(graceSeconds, calls, others);
      }
    }
    forall status | Gives(calls, status)
      ensures exists others :: Redelivers(calls, others) && Run(graceSeconds, NEW_ACCOUNT, others).status == status
    {
      var others := Redelivery(graceSeconds, calls, status);
    }
  }

  /** Every status a deciding event gives is the final one of some delivery. */
  lemma Redelivery(graceSeconds: nat, calls: seq<Call>, status: Status) returns (others: seq<Call>)
    requires WellDated(calls) && Gives(calls, status)
    ensures Redelivers(calls, others) && Run(graceSeconds, NEW_ACCOUNT, others).status == status
  {
    hide Run, Redelivers, WellDated, Moved;
    var i: nat :| Decides(calls, i) && StatusOf(calls[i]) == status;
    others := Moved(calls, i);
    MovedRedelivers(calls, i);
    MovedEnds(graceSeconds, calls, i);
  }

  /** They can disagree: a paid invoice and a cancelled subscription. */
  lemma StatusDependsOnOrder() returns (ended: Call, paid: Call)
    ensures WellDated([ended, paid]) && !StatusesAgree([ended, paid])
    ensures Run(0, NEW_ACCOUNT, [ended, paid]).status == Active
    ensures Run(0, NEW_ACCOUNT, [paid, ended]).status == Cancelled
  {
    hide Run;
    ended := Deliver(Subscription(None, "sub", BASE, "canceled", None, None, false, None), Some(1), 1);
    paid := Deliver(InvoicePaid(None, "in", false, None, None), Some(1), 1);
    NewestThenInvoices(0, NEW_ACCOUNT, [ended, paid], 0);
    NewestThenInvoices(0, NEW_ACCOUNT, [paid, ended], 1);
    assert [ended, paid][1..] == [paid] && [paid, ended][2..] == [];
    assert Decides([ended, paid], 0) && Decides([ended, paid], 1);
    assert Gives([ended, paid], Cancelled) && Gives([ended, paid], Active);
  }
}
