/** The main results about teams: who stays active and how many, over any run of team and billing operations. */
module TenantRuns {
  import opened Options
  import opened Sets
  import opened Billing
  import opened Tenants

  datatype Call =
    | Add(id: MemberId, actor: Option<MemberId>, user: string, role: Role, directory: Option<nat>, clash: bool,
          now: Time)
    | Invite(id: MemberId, actor: Option<MemberId>, user: string, role: Role, directory: Option<nat>, clash: bool,
             now: Time)
    | Select(actor: Option<MemberId>, selected: set<MemberId>, now: Time)
    | ChangeRole(actor: Option<MemberId>, id: MemberId, role: Role, now: Time)
    | ShowTeam(actor: Option<MemberId>, rows: seq<MemberId>, now: Time)
    | Bill(event: Event, created: Option<Time>, graceSeconds: nat, rows: seq<MemberId>, now: Time)

  /** New ids are new, and a query for active members returns them in order. */
  ghost predicate Possible(team: Team, call: Call) {
    match call
    case Add(id, _, _, _, _, _, _) => id !in team.members
    case Invite(id, _, _, _, _, _, _) => id !in team.members
    case ShowTeam(_, rows, _) => ActiveRows(team.members, rows)
    case Bill(_, _, _, rows, _) => ActiveRows(team.members, rows)
    case _ => true
  }

  function Step(team: Team, call: Call): Team {
    match call
    case Add(id, actor, user, role, directory, clash, now) =>
      AddMember(team, id, actor, user, role, directory, clash, now).team
    case Invite(id, actor, user, role, directory, clash, now) =>
      InviteMember(team, id, actor, user, role, directory, clash, now).team
    case Select(actor, selected, now) => UpdateTeam(team, actor, selected, now).team
    case ChangeRole(actor, id, role, now) => UpdateRole(team, actor, id, role, now).team
    case ShowTeam(actor, rows, now) => if AdminActs(team, actor, now) then Reconciled(team, rows, now) else team
    case Bill(event, created, graceSeconds, rows, now) => Billed(team, event, created, now, graceSeconds, rows)
  }

  ghost predicate Leads(team: Team, calls: seq<Call>, team': Team)
    decreases |calls|
  {
    if calls == [] then team' == team else Possible(team, calls[0]) && Leads(Step(team, calls[0]), calls[1..], team')
  }

  // ----- One seat -----

  lemma {:induction false} FirstAdminIsFirst(members: Members, rows: seq<MemberId>)
    ensures var first := FirstAdmin(members, rows);
            if first.None? then forall id | id in rows :: !IsActiveAdmin(members, id)
            else
              exists k :: 0 <= k < |rows| && rows[k] == first.value && IsActiveAdmin(members, rows[k])
                          && forall j | 0 <= j < k :: !IsActiveAdmin(members, rows[j])
  {
    if rows != [] && !IsActiveAdmin(members, rows[0]) {
      FirstAdminIsFirst(members, rows[1..]);
      if FirstAdmin(members, rows[1..]).Some? {
        var k :| 0 <= k < |rows[1..]| && rows[1..][k] == FirstAdmin(members, rows[1..]).value
            && IsActiveAdmin(members, rows[1..][k])
                 && forall j | 0 <= j < k :: !IsActiveAdmin(members, rows[1..][j]);
        assert rows[k + 1] == rows[1..][k];
        forall j | 0 <= j < k + 1 ensures !IsActiveAdmin(members, rows[j]) {
          if j > 0 {
            assert rows[j] == rows[1..][j - 1];
          }
        }
      } else {
        assert forall id | id in rows :: id == rows[0] || id in rows[1..];
      }
    }
  }

  /**
   Reconciling leaves the team of a one-seat plan with exactly one active member: the first of its
   active administrators in the order of the query. On any other plan it changes nothing.
   */
  lemma OneSeatReconcile(team: Team, rows: seq<MemberId>, now: Time)
    requires ActiveRows(team.members, rows) && exists id :: IsActiveAdmin(team.members, id)
    ensures var after := Reconciled(team, rows, now);
            if MemberLimit(team.account, now) != Some(1) then after == team
            else
              exists keep: MemberId ::
                && IsActiveAdmin(team.members, keep)
                && (forall id | IsActiveAdmin(team.members, id) && id != keep :: Before(team.members, keep, id))
                && ActiveIds(after.members) == {keep} && after.members[keep] == team.members[keep]
  {
    FirstAdminIsFirst(team.members, rows);
    var keep := FirstAdmin(team.members, rows);
    if MemberLimit(team.account, now) == Some(1) {
      var admin :| IsActiveAdmin(team.members, admin);
      assert admin in rows;
      forall id | IsActiveAdmin(team.members, id) && id != keep.value ensures Before(team.members, keep.value, id) {
        assert id in rows;
      }
      assert ActiveIds(Reconciled(team, rows, now).members) == {keep.value};
    }
  }

  /** On a one-seat plan an active administrator survives if and only if none comes before. */
  lemma SurvivesExactly(team: Team, rows: seq<MemberId>, now: Time, id: MemberId)
    requires ActiveRows(team.members, rows) && MemberLimit(team.account, now) == Some(1)
    requires IsActiveAdmin(team.members, id)
    ensures IsActive(Reconciled(team, rows, now).members, id) <==>
            !exists other: MemberId :: IsActiveAdmin(team.members, other) && Before(team.members, other, id)
  {
    hide ActiveRows, Reconciled;
    OneSeatReconcile(team, rows, now);
    var keep: MemberId :|
      && IsActiveAdmin(team.members, keep)
      && (forall other | IsActiveAdmin(team.members, other) && other != keep :: Before(team.members, keep, other))
      && ActiveIds(Reconciled(team, rows, now).members) == {keep};
    assert IsActive(Reconciled(team, rows, now).members, id) <==> id in ActiveIds(Reconciled(team, rows, now).members);
  }

  /** The administrator who stays joined first; without joining times, was created first; then has the lowest id. */
  lemma EarliestStays(team: Team, rows: seq<MemberId>, now: Time, id: MemberId)
    requires ActiveRows(team.members, rows) && MemberLimit(team.account, now) == Some(1)
    requires IsActiveAdmin(team.members, id)
    requires forall other: MemberId | IsActiveAdmin(team.members, other) && other != id ::
               var a, b := team.members[id], team.members[other];
               || (a.joinedAt.Some? && (b.joinedAt.None? || a.joinedAt.value < b.joinedAt.value))
               || (a.joinedAt == b.joinedAt
                   && (a.createdAt < b.createdAt || (a.createdAt == b.createdAt && id < other)))
    ensures ActiveIds(Reconciled(team, rows, now).members) == {id}
  {
    hide ActiveRows, Reconciled;
    OneSeatReconcile(team, rows, now);
    var keep: MemberId :|
      && IsActiveAdmin(team.members, keep)
      && (forall other | IsActiveAdmin(team.members, other) && other != keep :: Before(team.members, keep, other))
      && ActiveIds(Reconciled(team, rows, now).members) == {keep};
  }

  function PlanEvent(product: string): Event {
    Subscription(None, "sub", product, "active", None, None, false, None)
  }

  /** A professional plan, an administrator added by the founder, and a downgrade to the essential plan. */
  function Downgrade(founder: MemberId, other: MemberId, added: string, first: Time, second: Time, third: Time)
    : seq<Call>
  {
    [Bill(PlanEvent(INTERMEDIATE), Some(first), 0, [founder], first),
     Add(other, Some(founder), added, Admin, None, false, second),
     Bill(PlanEvent(BASE), Some(third), 0, [other, founder], third)]
  }

  lemma PlanApplies(a: Account, product: string, at: Time)
    requires a.plan.lastEvent.Some? ==> a.plan.lastEvent.value <= at
    ensures var after := Applied(a, PlanEvent(product), Some(at), at);
            && after.status == Active && after.lifetime == a.lifetime
            && after.plan.product == Some(product) && after.plan.lastEvent == Some(at)
    ensures !Stale(a, PlanEvent(product), Some(at)) && PlanEvent(product).Subscription?
  {
  }

  lemma ThreeSteps(team: Team, calls: seq<Call>)
    requires |calls| == 3 && Possible(team, calls[0])
    requires Possible(Step(team, calls[0]), calls[1]) && Possible(Step(Step(team, calls[0]), calls[1]), calls[2])
    ensures Leads(team, calls, Step(Step(Step(team, calls[0]), calls[1]), calls[2]))
  {
    hide Step, Possible;
    var one, two := Step(team, calls[0]), Step(Step(team, calls[0]), calls[1]);
    assert calls[1..][1..] == [calls[2]];
    assert Leads(Step(two, calls[2]), [], Step(two, calls[2]));
    assert Leads(two, [calls[2]], Step(two, calls[2]));
    assert Leads(one, calls[1..], Step(two, calls[2]));
  }

  /**
   The founder of a tenant created without a joining time comes last in the order of the query: after
   a professional plan, an administrator the founder adds and a downgrade to one seat, the founder is
   suspended and the administrator added later stays.
   */
  lemma FounderIsSuspended(founder: MemberId, other: MemberId, user: string, added: string,
                           now: Time, first: Time, second: Time, third: Time) returns (team: Team)
    requires founder != other && user != added && now <= first <= second <= third
    ensures Leads(Founded(founder, user, None, now), Downgrade(founder, other, added, first, second, third), team)
    ensures IsActiveAdmin(team.members, other) && !IsActive(team.members, founder)
  {
    hide Leads, Applied, Stale, SubscriptionStatus, Reconciled, PlanEvent;
    var start, calls := Founded(founder, user, None, now), Downgrade(founder, other, added, first, second, third);
    PlanApplies(start.account, INTERMEDIATE, first);
    OnlyFounder(start, founder);
    ManySeatsReconcile(start.(account := Applied(start.account, PlanEvent(INTERMEDIATE), Some(first), first)),
                       [founder], first);
    var paid := Step(start, calls[0]);
    var joined := Step(paid, calls[1]);
    PlanApplies(joined.account, BASE, third);
    TwoAdmins(joined.(account := Applied(joined.account, PlanEvent(BASE), Some(third), third)), founder, other, third);
    ThreeSteps(start, calls);
    team := Step(joined, calls[2]);
  }

  lemma ManySeatsReconcile(team: Team, rows: seq<MemberId>, now: Time)
    requires MemberLimit(team.account, now) != Some(1)
    ensures Reconciled(team, rows, now) == team
  {
  }

  lemma TwoAdmins(team: Team, founder: MemberId, other: MemberId, now: Time)
    requires team.members.Keys == {founder, other} && founder != other
    requires IsActiveAdmin(team.members, founder) && IsActiveAdmin(team.members, other)
    requires Before(team.members, other, founder) && MemberLimit(team.account, now) == Some(1)
    ensures ActiveRows(team.members, [other, founder])
    ensures var after := Reconciled(team, [other, founder], now);
            IsActiveAdmin(after.members, other) && !IsActive(after.members, founder)
  {
    assert FirstAdmin(team.members, [other, founder]) == Some(other);
  }

  lemma OnlyFounder(team: Team, founder: MemberId)
    requires team.members.Keys == {founder} && IsActiveAdmin(team.members, founder)
    ensures ActiveRows(team.members, [founder]) && |ActiveIds(team.members)| == 1
  {
    assert ActiveIds(team.members) == {founder};
  }

  // ----- An administrator stays -----

  /** What every operation keeps: members, and the role of administrators. */
  predicate AdminsStay(team: Team, team': Team) {
    && team.members.Keys <= team'.members.Keys
    && forall id | id in team.members && team.members[id].role == Admin :: team'.members[id].role == Admin
  }

  ghost predicate HasActiveAdmin(team: Team) {
    exists id :: IsActiveAdmin(team.members, id)
  }

  lemma ReconcileKeepsAdmin(team: Team, rows: seq<MemberId>, now: Time)
    requires HasActiveAdmin(team) && ActiveRows(team.members, rows)
    ensures HasActiveAdmin(Reconciled(team, rows, now)) && AdminsStay(team, Reconciled(team, rows, now))
    ensures ActiveIds(Reconciled(team, rows, now).members) <= ActiveIds(team.members)
  {
    FirstAdminIsFirst(team.members, rows);
    var keep := FirstAdmin(team.members, rows);
    if keep.Some? {
      assert IsActiveAdmin(Alone(team.members, keep.value), keep.value);
    }
  }

  lemma StepKeepsAdmin(team: Team, call: Call)
    requires HasActiveAdmin(team) && Possible(team, call)
    ensures HasActiveAdmin(Step(team, call)) && AdminsStay(team, Step(team, call))
  {
    hide ActiveRows, Reconciled, MemberLimit, BusinessFeatures, SeatFree, UserTaken, Applied, Stale;
    var team' := Step(team, call);
    if call.ShowTeam? {
      ReconcileKeepsAdmin(team, call.rows, call.now);
    } else if call.Bill? {
      var after := team.(account := Applied(team.account, call.event, call.created, call.now + call.graceSeconds));
      assert after.members == team.members;
      var id :| IsActiveAdmin(team.members, id);
      assert IsActiveAdmin(after.members, id);
      ReconcileKeepsAdmin(after, call.rows, call.now);
    } else {
      var id :| IsActiveAdmin(team.members, id);
      if call.Select? && team' != team {
        assert IsActiveAdmin(team'.members, call.actor.value);
      } else {
        assert IsActiveAdmin(team'.members, id);
      }
    }
  }

  /** Over any run of member, team and billing operations a tenant keeps an active administrator. */
  lemma {:induction false} AdministratorStays(team: Team, calls: seq<Call>, team': Team)
    requires HasActiveAdmin(team) && Leads(team, calls, team')
    ensures HasActiveAdmin(team') && AdminsStay(team, team')
    decreases |calls|
  {
    hide Step, Possible;
    if calls != [] {
      StepKeepsAdmin(team, calls[0]);
      AdministratorStays(Step(team, calls[0]), calls[1..], team');
    }
  }

  lemma TenantKeepsAdministrator(founder: MemberId, user: string, joinedAt: Option<Time>, now: Time, calls: seq<Call>,
                                 team: Team)
    requires Leads(Founded(founder, user, joinedAt, now), calls, team)
    ensures HasActiveAdmin(team) && founder in team.members && team.members[founder].role == Admin
  {
    assert IsActiveAdmin(Founded(founder, user, joinedAt, now).members, founder);
    AdministratorStays(Founded(founder, user, joinedAt, now), calls, team);
  }

  // ----- The seat limit -----

  lemma ActiveAfterJoining(team: Team, id: MemberId, user: string, role: Role, now: Time)
    requires id !in team.members
    ensures |ActiveIds(Joined(team, id, user, role, now).members)| == |ActiveIds(team.members)| + 1
  {
    assert ActiveIds(Joined(team, id, user, role, now).members) == ActiveIds(team.members) + {id};
  }

  lemma ActiveAfterSelecting(members: Members, selected: set<MemberId>)
    requires selected <= members.Keys
    ensures ActiveIds(Selected(members, selected)) == selected
  {
  }

  lemma ActiveAfterRole(members: Members, id: MemberId, role: Role)
    requires id in members
    ensures ActiveIds(members[id := members[id].(role := role)]) == ActiveIds(members)
  {
  }

  /**
   An operation that raises the number of active members ends within the limit of that moment, and
   so does every selection of the team that succeeds; an operation that leaves a team over the limit
   found it with no fewer active members.
   */
  lemma RaisesWithinLimit(team: Team, call: Call)
    requires Possible(team, call) && HasActiveAdmin(team)
    ensures |ActiveIds(Step(team, call).members)| > |ActiveIds(team.members)| ==> !OverLimit(Step(team, call), call.now)
    ensures OverLimit(Step(team, call), call.now) ==> |ActiveIds(Step(team, call).members)| <= |ActiveIds(team.members)|
    ensures call.Select? && UpdateTeam(team, call.actor, call.selected, call.now).Done?
        ==> !OverLimit(Step(team, call), call.now)
  {
    hide ActiveRows, Reconciled, MemberLimit, BusinessFeatures, UserTaken, Applied, Stale, ActiveIds, Selected;
    match call {
      case Add(id, _, user, role, _, _, now) => ActiveAfterJoining(team, id, user, role, now);
      case Invite(id, _, user, role, _, _, now) => ActiveAfterJoining(team, id, user, role, now);
      case Select(_, selected, _) =>
        if selected <= team.members.Keys {
          ActiveAfterSelecting(team.members, selected);
        }
      case ChangeRole(_, id, role, _) =>
        if id in team.members {
          ActiveAfterRole(team.members, id, role);
        }
      case ShowTeam(_, rows, now) =>
        ReconcileKeepsAdmin(team, rows, now);
        SmallerSet(ActiveIds(Reconciled(team, rows, now).members), ActiveIds(team.members));
      case Bill(event, created, graceSeconds, rows, now) =>
        var after := team.(account := Applied(team.account, event, created, now + graceSeconds));
        var id :| IsActiveAdmin(team.members, id);
        assert IsActiveAdmin(after.members, id);
        ReconcileKeepsAdmin(after, rows, now);
        SmallerSet(ActiveIds(Reconciled(after, rows, now).members), ActiveIds(team.members));
    }
  }

  /** A team goes over the limit only because the limit went down: no operation of the team itself does it. */
  lemma OnlyPlansShrink(team: Team, call: Call, before: Time)
    requires Possible(team, call) && HasActiveAdmin(team) && !OverLimit(team, before)
        && OverLimit(Step(team, call), call.now)
    ensures MemberLimit(Step(team, call).account, call.now).Some?
    ensures MemberLimit(team.account, before).Some? ==>
              MemberLimit(Step(team, call).account, call.now).value < MemberLimit(team.account, before).value
    ensures !call.Bill? ==> Step(team, call).account == team.account
  {
    hide MemberLimit, Possible, ActiveIds;
    RaisesWithinLimit(team, call);
    SameAccount(team, call);
  }

  lemma SameAccount(team: Team, call: Call)
    ensures !call.Bill? ==> Step(team, call).account == team.account
  {
  }

  /** After a subscription event that is applied, or a look at the team, a one-seat plan has one active member. */
  lemma OneSeatAfterBilling(team: Team, call: Call)
    requires Possible(team, call) && HasActiveAdmin(team) && MemberLimit(Step(team, call).account, call.now) == Some(1)
    requires
      || (call.ShowTeam? && AdminActs(team, call.actor, call.now))
      || (call.Bill? && call.event.Subscription? && !Stale(team.account, call.event, call.created))
    ensures |ActiveIds(Step(team, call).members)| == 1 && !OverLimit(Step(team, call), call.now)
  {
    hide ActiveRows, Applied, MemberLimit, Stale, Before, Reconciled, ActiveIds, RoleRefusal;
    var id :| IsActiveAdmin(team.members, id);
    var billed :=
      if call.Bill? then
        team.(account := Applied(team.account, call.event, call.created, call.now + call.graceSeconds))
      else team;
    assert IsActiveAdmin(billed.members, id);
    OneSeatReconcile(billed, call.rows, call.now);
    assert Step(team, call) == Reconciled(billed, call.rows, call.now);
  }
}
