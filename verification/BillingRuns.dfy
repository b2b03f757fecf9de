/** The main results about a billing account: what holds over any run of deliveries and uploads. */
module BillingRuns {
  import opened Options
  import opened Billing

  /**
   A provider event applied at time `now`, created at `created` (`None` for a synchronization with
   the provider), or an upload whose transaction commits or breaks.
   */
  datatype Call =
    | Deliver(event: Event, created: Option<Time>, now: Time)
    | Upload(now: Time, commits: bool)

  function Step(graceSeconds: nat, a: Account, call: Call): Account {
    match call
    case Deliver(event, created, now) => if Fails(event) then a else Applied(a, event, created, now + graceSeconds)
    case Upload(now, commits) => if commits then Uploaded(a, now) else a
  }

  function Run(graceSeconds: nat, a: Account, calls: seq<Call>): Account
    decreases |calls|
  {
    if calls == [] then a else Run(graceSeconds, Step(graceSeconds, a, calls[0]), calls[1..])
  }

  lemma {:induction false} RunAppend(graceSeconds: nat, a: Account, before: seq<Call>, after: seq<Call>)
    ensures Run(graceSeconds, a, before + after) == Run(graceSeconds, Run(graceSeconds, a, before), after)
    decreases |before|
  {
    hide Step;
    if before == [] {
      assert before + after == after;
    } else {
      assert (before + after)[1..] == before[1..] + after;
      RunAppend(graceSeconds, Step(graceSeconds, a, before[0]), before[1..], after);
    }
  }

  // ----- The newest subscription event decides the plan -----

  predicate Subscribes(call: Call) {
    call.Deliver? && call.event.Subscription?
  }

  /** Every subscription event comes with the time the provider created it. */
  predicate Dated(calls: seq<Call>) {
    forall c | c in calls && Subscribes(c) :: c.created.Some?
  }

  /**
   `calls[k]` is the newest dated subscription event delivered, the last delivered of those created
   with it.
   */
  predicate IsNewest(calls: seq<Call>, k: nat) {
    && k < |calls| && Subscribes(calls[k]) && calls[k].created.Some?
    && (forall j | 0 <= j < k && Subscribes(calls[j]) && calls[j].created.Some? ::
          calls[j].created.value <= calls[k].created.value)
    && (forall j | k < j < |calls| && Subscribes(calls[j]) && calls[j].created.Some? ::
          calls[j].created.value < calls[k].created.value)
  }

  /** Whether a subscription event created at `created` is at least as new as the last one applied. */
  predicate NotOutdated(plan: Plan, created: Option<Time>) {
    created.Some? && (plan.lastEvent.None? || plan.lastEvent.value <= created.value)
  }

  /** Every dated subscription event is older than the last one applied. */
  predicate AllOutdated(plan: Plan, calls: seq<Call>) {
    forall c | c in calls && Subscribes(c) && c.created.Some? :: !NotOutdated(plan, c.created)
  }

  /** A synchronization with the provider: the state of the subscription, without a date. */
  predicate Synchronizes(call: Call) {
    Subscribes(call) && call.created.None?
  }

  predicate ChecksOut(call: Call) {
    call.Deliver? && call.event.Checkout?
  }

  /** A plan as checkouts and synchronizations overwrite it, in the order of delivery. */
  function Overwritten(calls: seq<Call>, plan: Plan): Plan {
    if calls == [] then plan
    else
      var event := if calls[0].Deliver? then calls[0].event else Other(None);
      var next :=
        if Synchronizes(calls[0]) then PlanOf(event, None, plan.lastEvent)
        else if ChecksOut(calls[0]) then plan.(subscription := event.subscription, product := Some(event.product))
        else plan;
      Overwritten(calls[1..], next)
  }

  lemma StepPlan(graceSeconds: nat, a: Account, call: Call)
    ensures Step(graceSeconds, a, call).plan ==
            if Subscribes(call) && call.created.Some? && !Stale(a, call.event, call.created) then
              PlanOf(call.event, call.created, None)
            else Overwritten([call], a.plan)
    ensures Overwritten([call], a.plan).lastEvent == a.plan.lastEvent
    ensures Subscribes(call) && call.created.Some? ==> PlanOf(call.event, call.created, None).lastEvent == call.created
  {
  }

  /** As long as every dated subscription event is outdated only checkouts and synchronizations change the plan. */
  lemma {:induction false} OutdatedKeepPlan(graceSeconds: nat, a: Account, calls: seq<Call>)
    requires AllOutdated(a.plan, calls)
    ensures Run(graceSeconds, a, calls).plan == Overwritten(calls, a.plan)
    decreases |calls|
  {
    hide Step, PlanOf;
    if calls != [] {
      StepPlan(graceSeconds, a, calls[0]);
      OutdatedKeepPlan(graceSeconds, Step(graceSeconds, a, calls[0]), calls[1..]);
    }
  }

  /** Without checkouts and synchronizations nothing is overwritten. */
  lemma {:induction false} NothingOverwritten(calls: seq<Call>, plan: Plan)
    requires forall c | c in calls :: !ChecksOut(c) && !Synchronizes(c)
    ensures Overwritten(calls, plan) == plan
  {
    if calls != [] {
      NothingOverwritten(calls[1..], plan);
    }
  }

  /**
   Whatever the order of delivery, and whatever invoices and uploads come between, the plan is the
   one of the newest dated subscription event, as the checkouts and the synchronizations with the
   provider delivered after it have overwritten it.
   */
  lemma {:induction false} NewestDecides(graceSeconds: nat, a: Account, calls: seq<Call>, k: nat)
    requires IsNewest(calls, k) && NotOutdated(a.plan, calls[k].created)
    ensures Run(graceSeconds, a, calls).plan ==
            Overwritten(calls[k + 1..], PlanOf(calls[k].event, calls[k].created, None))
    decreases |calls|
  {
    hide Step, PlanOf, Overwritten;
    var next := Step(graceSeconds, a, calls[0]);
    StepPlan(graceSeconds, a, calls[0]);
    if k == 0 {
      OutdatedKeepPlan(graceSeconds, next, calls[1..]);
    } else {
      assert calls[1..][k - 1] == calls[k];
      NewestDecides(graceSeconds, next, calls[1..], k - 1);
      assert calls[1..][k..] == calls[k + 1..];
    }
  }

  predicate DistinctDates(calls: seq<Call>) {
    forall i, j | 0 <= i < j < |calls| && Subscribes(calls[i]) && Subscribes(calls[j]) ::
        calls[i].created != calls[j].created
  }

  lemma {:induction false} NewestExists(calls: seq<Call>) returns (k: nat)
    requires Dated(calls) && DistinctDates(calls) && exists c :: c in calls && Subscribes(c)
    ensures IsNewest(calls, k)
  {
    var n := |calls| - 1;
    if exists c :: c in calls[..n] && Subscribes(c) {
      k := NewestExists(calls[..n]);
      if Subscribes(calls[n]) && calls[n].created.value > calls[k].created.value {
        k := n;
      }
    } else {
      k := n;
      assert forall c | c in calls :: c == calls[n] || c in calls[..n];
    }
  }

  /** The events delivered and their creation times, without order or time of delivery. */
  ghost function Delivered(calls: seq<Call>): set<(Event, Option<Time>)> {
    set c | c in calls && c.Deliver? :: (c.event, c.created)
  }

  /**
   Two deliveries of the same set of events, in any two orders and at any times, without a checkout
   and with distinct creation times, end with the same product, subscription and cancellation
   schedule.
   */
  lemma OrderDoesNotMatter(graceSeconds: nat, calls: seq<Call>, others: seq<Call>)
    requires Delivered(calls) == Delivered(others)
    requires Dated(calls) && Dated(others) && DistinctDates(calls) && DistinctDates(others)
    requires forall d | d in Delivered(calls) :: !d.0.Checkout?
    ensures Run(graceSeconds, NEW_ACCOUNT, calls).plan == Run(graceSeconds, NEW_ACCOUNT, others).plan
  {
    hide IsNewest, Run, PlanOf, DistinctDates;
    SameDeliveries(calls, others);
    SameDeliveries(others, calls);
    if exists c :: c in calls && Subscribes(c) {
      var k := NewestExists(calls);
      var l := NewestExists(others);
      SameNewest(calls, k, others, l);
      NewestDecidesAlone(graceSeconds, calls, k);
      NewestDecidesAlone(graceSeconds, others, l);
    } else {
      OutdatedKeepPlan(graceSeconds, NEW_ACCOUNT, calls);
      OutdatedKeepPlan(graceSeconds, NEW_ACCOUNT, others);
      NoCheckouts(calls);
      NoCheckouts(others);
      NothingOverwritten(calls, NEW_ACCOUNT.plan);
      NothingOverwritten(others, NEW_ACCOUNT.plan);
    }
  }

  lemma SameDeliveries(calls: seq<Call>, others: seq<Call>)
    requires Delivered(calls) <= Delivered(others)
    ensures forall c | c in calls && c.Deliver? :: (c.event, c.created) in Delivered(others)
    ensures (exists c :: c in calls && Subscribes(c)) ==> exists c :: c in others && Subscribes(c)
  {
    forall c | c in calls && c.Deliver? ensures (c.event, c.created) in Delivered(others) {
      assert (c.event, c.created) in Delivered(calls);
    }
    if exists c :: c in calls && Subscribes(c) {
      var c :| c in calls && Subscribes(c);
      assert (c.event, c.created) in Delivered(others);
    }
  }

  lemma NoCheckouts(calls: seq<Call>)
    requires forall d | d in Delivered(calls) :: !d.0.Checkout?
    ensures forall c | c in calls :: !ChecksOut(c)
  {
    forall c | c in calls ensures !ChecksOut(c) {
      if c.Deliver? {
        assert (c.event, c.created) in Delivered(calls);
      }
    }
  }

  /** Without checkouts and synchronizations the newest subscription event decides the whole plan. */
  lemma NewestDecidesAlone(graceSeconds: nat, calls: seq<Call>, k: nat)
    requires IsNewest(calls, k) && Dated(calls) && forall d | d in Delivered(calls) :: !d.0.Checkout?
    ensures Run(graceSeconds, NEW_ACCOUNT, calls).plan == PlanOf(calls[k].event, calls[k].created, None)
  {
    hide Run, PlanOf;
    NewestDecides(graceSeconds, NEW_ACCOUNT, calls, k);
    NoCheckouts(calls);
    assert forall c | c in calls[k + 1..] :: c in calls;
    NothingOverwritten(calls[k + 1..], PlanOf(calls[k].event, calls[k].created, None));
  }

  lemma SameNewest(calls: seq<Call>, k: nat, others: seq<Call>, l: nat)
    requires Delivered(calls) == Delivered(others) && IsNewest(calls, k) && IsNewest(others, l)
    requires Dated(calls) && Dated(others) && DistinctDates(calls)
    ensures calls[k].event == others[l].event && calls[k].created == others[l].created
  {
    NotNewer(calls, k, others[l]);
    NotNewer(others, l, calls[k]);
  }

  /** Every other subscription event is older than the newest. */
  lemma NotNewer(calls: seq<Call>, k: nat, call: Call)
    requires IsNewest(calls, k) && Dated(calls) && Subscribes(call) && (call.event, call.created) in Delivered(calls)
    ensures call.created.Some? && call.created.value <= calls[k].created.value
    ensures DistinctDates(calls) && call.created == calls[k].created ==> call.event == calls[k].event
  {
    var j :| 0 <= j < |calls| && calls[j].Deliver? && calls[j].event == call.event && calls[j].created == call.created;
  }

  // ----- The customer -----

  predicate NamesCustomer(call: Call) {
    call.Deliver? && !Fails(call.event) && call.event.customer.Some? && call.event.customer.value != ""
  }

  /** The customer of the last event that names one and does not fail. */
  function LastCustomer(calls: seq<Call>, customer: Option<string>): Option<string> {
    if calls == [] then customer
    else LastCustomer(calls[1..], if NamesCustomer(calls[0]) then calls[0].event.customer else customer)
  }

  /**
   After any run the customer is the one named by the last event delivered that names one, stale
   events included: unlike the plan it follows the order of delivery.
   */
  lemma {:induction false} CustomerIsLastNamed(graceSeconds: nat, a: Account, calls: seq<Call>)
    ensures Run(graceSeconds, a, calls).customer == LastCustomer(calls, a.customer)
    decreases |calls|
  {
    hide Step;
    if calls != [] {
      StepCustomer(graceSeconds, a, calls[0]);
      CustomerIsLastNamed(graceSeconds, Step(graceSeconds, a, calls[0]), calls[1..]);
    }
  }

  lemma StepCustomer(graceSeconds: nat, a: Account, call: Call)
    ensures Step(graceSeconds, a, call).customer == if NamesCustomer(call) then call.event.customer else a.customer
  {
  }

  lemma RunTwo(graceSeconds: nat, a: Account, first: Call, second: Call)
    ensures Run(graceSeconds, a, [first]) == Step(graceSeconds, a, first)
    ensures Run(graceSeconds, a, [first, second]) == Step(graceSeconds, Step(graceSeconds, a, first), second)
  {
    hide Step;
    assert [first, second][1..] == [second] && [first][1..] == [second][1..] == [];
    var next := Step(graceSeconds, a, first);
    assert Run(graceSeconds, next, [second]) == Step(graceSeconds, next, second);
  }

  /**
   A stale event is not quite ignored: a subscription event created at 2 for customer "a" and then
   one created at 1 for customer "b" leave everything as the first one made it, except the customer.
   */
  lemma StaleEventMovesCustomer() returns (newer: Call, older: Call)
    ensures var before, after := Run(0, NEW_ACCOUNT, [newer]), Run(0, NEW_ACCOUNT, [newer, older]);
            && newer.Deliver? && older.Deliver? && Stale(before, older.event, older.created)
            && before.customer == Some("a") && after == before.(customer := Some("b"))
  {
    newer := Deliver(Subscription(Some("a"), "sub", TEAM, "active", None, None, false, None), Some(2), 2);
    older := Deliver(Subscription(Some("b"), "sub", BASE, "canceled", None, None, true, None), Some(1), 3);
    RunTwo(0, NEW_ACCOUNT, newer, older);
  }

  // ----- The upload allowance -----

  const LARGEST_LIMIT: nat := 200

  /** The metered uploads of a run. */
  function MeteredUploads(graceSeconds: nat, a: Account, calls: seq<Call>): nat
    decreases |calls|
  {
    if calls == [] then 0
    else
      (if calls[0].Upload? && calls[0].commits && Metered(a, calls[0].now) && UploadAllowed(a, calls[0].now) then 1
          else 0)
      + MeteredUploads(graceSeconds, Step(graceSeconds, a, calls[0]), calls[1..])
  }

  predicate ResetsUsage(a: Account, call: Call) {
    call.Deliver? && !Fails(call.event) && call.event.InvoicePaid?
        && Resets(a.usage, call.event.periodStart, call.event.cycle)
  }

  /** The period starts at which a run clears the count, in order. */
  function ResetStarts(graceSeconds: nat, a: Account, calls: seq<Call>): seq<Time>
    decreases |calls|
  {
    if calls == [] then []
    else
      (if ResetsUsage(a, calls[0]) then [calls[0].event.periodStart.value] else [])
      + ResetStarts(graceSeconds, Step(graceSeconds, a, calls[0]), calls[1..])
  }

  /** The period starts of the paid cycle invoices delivered. */
  ghost function CycleStarts(calls: seq<Call>): set<Time> {
    set c | c in calls && c.Deliver? && c.event.InvoicePaid? && c.event.cycle && c.event.periodStart.Some? ::
        c.event.periodStart.value
  }

  /** The call after the last reset of a run, or 0. */
  function SinceReset(graceSeconds: nat, a: Account, calls: seq<Call>): (from: nat)
    ensures from <= |calls|
    decreases |calls|
  {
    if calls == [] then 0
    else
      var rest := SinceReset(graceSeconds, Step(graceSeconds, a, calls[0]), calls[1..]);
      if rest > 0 || ResetsUsage(a, calls[0]) then rest + 1 else 0
  }

  lemma StepFiles(graceSeconds: nat, a: Account, call: Call)
    ensures Step(graceSeconds, a, call).usage.files ==
            if ResetsUsage(a, call) then 0
            else if call.Upload? && call.commits && Metered(a, call.now)
                && UploadAllowed(a, call.now) then a.usage.files + 1
            else a.usage.files
    ensures a.usage.files <= LARGEST_LIMIT ==> Step(graceSeconds, a, call).usage.files <= LARGEST_LIMIT
  {
  }

  lemma StepStart(graceSeconds: nat, a: Account, call: Call)
    ensures var start := Step(graceSeconds, a, call).usage.start;
            if ResetsUsage(a, call) then start == call.event.periodStart && start.value > a.usage.start.value
            else a.usage.start.Some? ==> start == a.usage.start
  {
  }

  /** The count is the metered uploads since the last reset. */
  lemma {:induction false} CountIsUploadsSinceReset(graceSeconds: nat, a: Account, calls: seq<Call>)
    ensures var from := SinceReset(graceSeconds, a, calls);
            Run(graceSeconds, a, calls).usage.files ==
            (if from == 0 then a.usage.files else 0)
                + MeteredUploads(graceSeconds, Run(graceSeconds, a, calls[..from]), calls[from..])
    decreases |calls|
  {
    hide Step;
    if calls != [] {
      var next := Step(graceSeconds, a, calls[0]);
      StepFiles(graceSeconds, a, calls[0]);
      CountIsUploadsSinceReset(graceSeconds, next, calls[1..]);
      var rest, from := SinceReset(graceSeconds, next, calls[1..]), SinceReset(graceSeconds, a, calls);
      assert calls[..0] == [] && calls[0..] == calls && calls[1..][..0] == [] && calls[1..][0..] == calls[1..];
      if from > 0 {
        assert calls[from..] == calls[1..][rest..];
        assert calls[..from][1..] == calls[1..][..rest];
      }
    }
  }

  lemma CycleStartsGrow(calls: seq<Call>)
    requires calls != []
    ensures CycleStarts(calls[1..]) <= CycleStarts(calls)
    ensures var c := calls[0];
            c.Deliver? && c.event.InvoicePaid? && c.event.cycle && c.event.periodStart.Some? ==>
                      c.event.periodStart.value in CycleStarts(calls)
  {
    assert calls[0] in calls;
    assert forall c | c in calls[1..] :: c in calls;
  }

  /** Strictly later and later times of a set, all after a given one. */
  predicate MovesForward(starts: seq<Time>, from: Option<Time>, within: set<Time>) {
    && (forall i, j | 0 <= i < j < |starts| :: starts[i] < starts[j])
    && (forall i | 0 <= i < |starts| :: starts[i] in within && (from.Some? ==> from.value < starts[i]))
  }

  /** The count is cleared only for strictly later and later periods, each the period of a paid cycle invoice. */
  lemma {:induction false} ResetsMoveForward(graceSeconds: nat, a: Account, calls: seq<Call>)
    ensures MovesForward(ResetStarts(graceSeconds, a, calls), a.usage.start, CycleStarts(calls))
    decreases |calls|
  {
    hide Step, CycleStarts;
    if calls != [] {
      var next := Step(graceSeconds, a, calls[0]);
      StepStart(graceSeconds, a, calls[0]);
      CycleStartsGrow(calls);
      ResetsMoveForward(graceSeconds, next, calls[1..]);
    }
  }

  lemma {:induction false} UploadsPerReset(graceSeconds: nat, a: Account, calls: seq<Call>)
    requires a.usage.files <= LARGEST_LIMIT
    ensures a.usage.files + MeteredUploads(graceSeconds, a,
        calls) <= LARGEST_LIMIT * (1 + |ResetStarts(graceSeconds, a, calls)|)
    decreases |calls|
  {
    hide Step;
    if calls != [] {
      StepFiles(graceSeconds, a, calls[0]);
      UploadsPerReset(graceSeconds, Step(graceSeconds, a, calls[0]), calls[1..]);
    }
  }

  lemma {:induction false} IncreasingFitsInSet(s: seq<Time>, within: set<Time>)
    requires forall i, j | 0 <= i < j < |s| :: s[i] < s[j]
    requires forall i | 0 <= i < |s| :: s[i] in within
    ensures |s| <= |within|
  {
    if s != [] {
      IncreasingFitsInSet(s[1..], within - {s[0]});
    }
  }

  /** Over any run metered uploads are at most the largest allowance, for the first period and each cycle. */
  lemma UploadsAreBounded(graceSeconds: nat, calls: seq<Call>)
    ensures MeteredUploads(graceSeconds, NEW_ACCOUNT, calls) <= LARGEST_LIMIT * (1 + |CycleStarts(calls)|)
  {
    UploadsPerReset(graceSeconds, NEW_ACCOUNT, calls);
    ResetsMoveForward(graceSeconds, NEW_ACCOUNT, calls);
    IncreasingFitsInSet(ResetStarts(graceSeconds, NEW_ACCOUNT, calls), CycleStarts(calls));
  }

  // ----- The grace period -----

  /** The calls happen one after the other, the first not before `from`. */
  predicate InOrder(calls: seq<Call>, from: Time) {
    && (forall i | 0 <= i < |calls| :: from <= calls[i].now)
    && (forall i, j | 0 <= i < j < |calls| :: calls[i].now <= calls[j].now)
  }

  /** A past-due account has a deadline, and no deadline is further away than the grace period. */
  predicate GraceOk(graceSeconds: nat, a: Account, now: Time) {
    && (a.status == PastDue ==> a.grace.Some?)
    && (a.grace.Some? ==> a.grace.value <= now + graceSeconds)
  }

  lemma StepKeepsGrace(graceSeconds: nat, a: Account, call: Call)
    requires GraceOk(graceSeconds, a, call.now)
    ensures GraceOk(graceSeconds, Step(graceSeconds, a, call), call.now)
    ensures a.status == PastDue && Step(graceSeconds, a, call).status == PastDue
        ==> Step(graceSeconds, a, call).grace == a.grace
  {
  }

  lemma {:induction false} RunKeepsGrace(graceSeconds: nat, a: Account, calls: seq<Call>, from: Time, now: Time)
    requires GraceOk(graceSeconds, a, from) && InOrder(calls, from) && from <= now && forall c | c in calls ::
        c.now <= now
    ensures GraceOk(graceSeconds, Run(graceSeconds, a, calls), now)
    decreases |calls|
  {
    hide Step;
    if calls != [] {
      StepKeepsGrace(graceSeconds, a, calls[0]);
      assert forall c | c in calls[1..] :: c in calls;
      RunKeepsGrace(graceSeconds, Step(graceSeconds, a, calls[0]), calls[1..], calls[0].now, now);
    }
  }

  /** The account is past due after every call of the run. */
  predicate StaysPastDue(graceSeconds: nat, a: Account, calls: seq<Call>)
    decreases |calls|
  {
    calls == [] || (Step(graceSeconds, a, calls[0]).status == PastDue
        && StaysPastDue(graceSeconds, Step(graceSeconds, a, calls[0]), calls[1..]))
  }

  lemma {:induction false} DeadlineStays(graceSeconds: nat, a: Account, calls: seq<Call>, from: Time)
    requires GraceOk(graceSeconds, a, from) && InOrder(calls, from) && a.status == PastDue
        && StaysPastDue(graceSeconds, a, calls)
    ensures Run(graceSeconds, a, calls).grace == a.grace && Run(graceSeconds, a, calls).status == PastDue
    decreases |calls|
  {
    hide Step;
    if calls != [] {
      StepKeepsGrace(graceSeconds, a, calls[0]);
      DeadlineStays(graceSeconds, Step(graceSeconds, a, calls[0]), calls[1..], calls[0].now);
    }
  }

  /**
   However many failed payments and past-due events arrive, a stretch of calls after each of which
   the account is past due has one deadline, set by its first call or before, and gives paid access
   for less than the grace period after that call.
   */
  lemma PastDueStretch(graceSeconds: nat, earlier: seq<Call>, stretch: seq<Call>, now: Time)
    requires InOrder(earlier + stretch, 0) && stretch != []
    requires StaysPastDue(graceSeconds, Run(graceSeconds, NEW_ACCOUNT, earlier), stretch)
    ensures var began := Run(graceSeconds, NEW_ACCOUNT, earlier + stretch[..1]);
            var end := Run(graceSeconds, NEW_ACCOUNT, earlier + stretch);
            && end.status == PastDue && end.grace == began.grace && end.grace.Some?
            && end.grace.value <= stretch[0].now + graceSeconds
            && (PaidAccess(end, now) <==> now < end.grace.value)
            && (PaidAccess(end, now) ==> now < stretch[0].now + graceSeconds)
  {
    hide Step;
    var all := earlier + stretch;
    assert forall i | 0 <= i < |earlier| :: all[i] == earlier[i];
    assert forall i | 0 <= i < |stretch| :: all[|earlier| + i] == stretch[i];
    forall c | c in earlier ensures c.now <= stretch[0].now {
      var i :| 0 <= i < |earlier| && earlier[i] == c;
      assert all[i].now <= all[|earlier|].now;
    }
    assert InOrder(earlier, 0);
    assert InOrder(stretch[1..], stretch[0].now) by {
      forall i | 0 <= i < |stretch| - 1 ensures stretch[0].now <= stretch[1..][i].now {
        assert all[|earlier|].now <= all[|earlier| + i + 1].now;
      }
      forall i, j | 0 <= i < j < |stretch| - 1 ensures stretch[1..][i].now <= stretch[1..][j].now {
        assert all[|earlier| + i + 1].now <= all[|earlier| + j + 1].now;
      }
    }
    var before := Run(graceSeconds, NEW_ACCOUNT, earlier);
    RunKeepsGrace(graceSeconds, NEW_ACCOUNT, earlier, 0, stretch[0].now);
    RunAppend(graceSeconds, NEW_ACCOUNT, earlier, stretch);
    RunAppend(graceSeconds, NEW_ACCOUNT, earlier, stretch[..1]);
    var first := Step(graceSeconds, before, stretch[0]);
    assert Run(graceSeconds, before, stretch[..1]) == first;
    StepKeepsGrace(graceSeconds, before, stretch[0]);
    DeadlineStays(graceSeconds, first, stretch[1..], stretch[0].now);
  }
}
