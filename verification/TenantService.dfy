/** The tenant service: the member rows and the billing account of one tenant, updated in place. */
module TenantService {
  import opened Options
  import opened Billing
  import opened Tenants

  /** Whether a team of `count` active members may get another one: by plan, three or ten, or any number. */
  predicate MayGrow(account: Account, count: nat, now: Time) {
    || account.lifetime
    || (PaidAccess(account, now) && account.plan.product == Some("rubrica_intermediate") && count < 3)
    || (PaidAccess(account, now) && account.plan.product == Some("rubrica_team") && count < 10)
  }

  /** `after` has one more member than `before`, an active one, and no other row has changed. */
  ghost predicate Gains(before: Members, after: Members, id: MemberId, user: string, role: Role, now: Time) {
    && id in after && after[id].user == user && after[id].role == role && after[id].active
    && after[id].joinedAt == Some(now) && after.Keys == before.Keys + {id}
    && forall i | i in before :: after[i] == before[i]
  }

  /** The checks on the actor, the plan and the seats, before the person to add is looked at. */
  predicate RoomFor(members: Members, account: Account, actor: Option<MemberId>, now: Time) {
    actor.Some? && IsActiveAdmin(members, actor.value) && MayGrow(account, |ActiveIds(members)|, now)
  }

  class TenantService {
    var members: Members
    var account: Account

    function Snapshot(): Team
      reads this
    {
      Team(members, account)
    }

    constructor Create(id: MemberId, user: string, joinedAt: Option<Time>, now: Time)
      ensures Snapshot() == Founded(id, user, joinedAt, now)
    {
      members := map[id := TeamMember(user, Admin, true, joinedAt, now)];
      account := NEW_ACCOUNT;
    }

    method RequireRole(actor: Option<MemberId>, roles: set<Role>, allowOverLimit: bool, now: Time)
        returns (refusal: Option<nat>)
      ensures refusal == RoleRefusal(Snapshot(), actor, roles, allowOverLimit, now)
      ensures refusal.None? <==>
                && actor.Some? && IsActive(members, actor.value) && members[actor.value].role in roles
                && (allowOverLimit || !OverLimit(Snapshot(), now))
    {
      if actor.None? || !IsActive(members, actor.value) || members[actor.value].role !in roles {
        return Some(403);
      }
      if !allowOverLimit {
        var limit := MemberLimit(account, now);
        var count := |ActiveIds(members)|;
        if limit.Some? && count > limit.value {
          return Some(409);
        }
      }
      return None;
    }

    method AddMember(id: MemberId, actor: Option<MemberId>, user: string, role: Role, directory: Option<nat>,
                     clash: bool, now: Time)
      returns (error: Option<nat>)
      requires id !in members
      modifies `members
      ensures var outcome := Tenants.AddMember(old(Snapshot()), id, actor, user, role, directory, clash, now);
              Snapshot() == outcome.team && error == (if outcome.Failed? then Some(outcome.code) else None)
      ensures error.None? <==>
                && RoomFor(old(members), account, actor, now)
                && directory.None? && !clash && forall i | i in old(members) :: old(members)[i].user != user
      ensures if error.None? then Gains(old(members), members, id, user, role, now) else members == old(members)
      ensures (actor.None? || !IsActiveAdmin(old(members), actor.value)) ==> error == Some(403)
      ensures RoomFor(old(members), account, actor, now) && error.Some? ==>
                error == if directory.Some? then directory else Some(409)
    {
      var refusal := RequireRole(actor, {Admin}, true, now);
      if refusal.Some? {
        return refusal;
      }
      if !BusinessFeatures(account, now) {
        return Some(403);
      }
      var limit := MemberLimit(account, now);
      var count := |ActiveIds(members)|;
      if limit.Some? && count >= limit.value {
        return Some(409);
      }
      if directory.Some? {
        return directory;
      }
      if UserTaken(members, user) || clash {
        return Some(409);
      }
      members := members[id := TeamMember(user, role, true, Some(now), now)];
      return None;
    }

    method InviteMember(id: MemberId, actor: Option<MemberId>, user: string, role: Role, directory: Option<nat>,
                        clash: bool, now: Time)
      returns (error: Option<nat>)
      requires id !in members
      modifies `members
      ensures var outcome := Tenants.InviteMember(old(Snapshot()), id, actor, user, role, directory, clash, now);
              Snapshot() == outcome.team && error == (if outcome.Failed? then Some(outcome.code) else None)
      ensures error.None? <==>
                && RoomFor(old(members), account, actor, now)
                && directory.None? && !clash && forall i | i in old(members) :: old(members)[i].user != user
      ensures if error.None? then Gains(old(members), members, id, user, role, now) else members == old(members)
      ensures (actor.None? || !IsActiveAdmin(old(members), actor.value)) ==> error == Some(403)
      ensures RoomFor(old(members), account, actor, now) && error.Some? ==>
                error == if exists i :: i in old(members) && old(members)[i].user == user then Some(409)
                         else if directory.Some? then directory else Some(500)
    {
      var refusal := RequireRole(actor, {Admin}, true, now);
      if refusal.Some? {
        return refusal;
      }
      if !BusinessFeatures(account, now) {
        return Some(403);
      }
      var limit := MemberLimit(account, now);
      var count := |ActiveIds(members)|;
      if limit.Some? && count >= limit.value {
        return Some(409);
      }
      if UserTaken(members, user) {
        return Some(409);
      }
      if directory.Some? {
        return directory;
      }
      if clash {
        return Some(500);
      }
      members := members[id := TeamMember(user, role, true, Some(now), now)];
      return None;
    }

    /** `rows` are the members of the tenant as the query returns them. */
    method UpdateTeam(actor: Option<MemberId>, selected: set<MemberId>, rows: seq<MemberId>, now: Time)
        returns (error: Option<nat>)
      requires forall id :: id in rows <==> id in members
      modifies `members
      ensures var outcome := Tenants.UpdateTeam(old(Snapshot()), actor, selected, now);
              Snapshot() == outcome.team && error == (if outcome.Failed? then Some(outcome.code) else None)
      ensures error.None? <==>
                && actor.Some? && IsActiveAdmin(old(members), actor.value)
                && actor.value in selected && selected <= members.Keys
                && (|selected| <= 1 || MayGrow(account, |selected| - 1, now))
      ensures error.None? ==>
                && members.Keys == old(members).Keys
                && forall id | id in members ::
                     && (members[id].active <==> id in selected)
                     && members[id].role == old(members)[id].role && members[id].user == old(members)[id].user
    {
      var refusal := RequireRole(actor, {Admin}, true, now);
      if refusal.Some? {
        return refusal;
      }
      if !(selected <= members.Keys) {
        return Some(422);
      }
      if actor.value !in selected {
        return Some(409);
      }
      var limit := MemberLimit(account, now);
      if limit.Some? && |selected| > limit.value {
        return Some(409);
      }
      for i := 0 to |rows|
        invariant members.Keys == old(members).Keys
        invariant forall id | id in members ::
                    members[id] == if id in rows[..i] then old(members)[id].(active := id in selected)
                        else old(members)[id]
      {
        var active := rows[i] in selected;
        if members[rows[i]].active != active {
          members := members[rows[i] := members[rows[i]].(active := active)];
        }
      }
      assert rows[..|rows|] == rows;
      assert members == Selected(old(members), selected);
      return None;
    }

    method UpdateMemberRole(actor: Option<MemberId>, id: MemberId, role: Role, now: Time) returns (error: Option<nat>)
      modifies `members
      ensures var outcome := UpdateRole(old(Snapshot()), actor, id, role, now);
              Snapshot() == outcome.team && error == (if outcome.Failed? then Some(outcome.code) else None)
      ensures error.None? <==>
                && actor.Some? && IsActiveAdmin(old(members), actor.value)
                && id in old(members) && id != actor.value && old(members)[id].role != Admin
      ensures error.None? ==>
                && members.Keys == old(members).Keys && members[id].role == role
                && members[id].active == old(members)[id].active
                && forall i | i in members && i != id :: members[i] == old(members)[i]
    {
      var refusal := RequireRole(actor, {Admin}, true, now);
      if refusal.Some? {
        return refusal;
      }
      if id !in members {
        return Some(404);
      }
      if id == actor.value || members[id].role == Admin {
        return Some(409);
      }
      members := members[id := members[id].(role := role)];
      return None;
    }

    method FindAdministrator(rows: seq<MemberId>) returns (administrator: Option<MemberId>)
      requires forall id | id in rows :: IsActive(members, id)
      ensures administrator == FirstAdmin(members, rows)
    {
      for k := 0 to |rows|
        invariant FirstAdmin(members, rows) == FirstAdmin(members, rows[k..])
      {
        if members[rows[k]].role == Admin {
          return Some(rows[k]);
        }
      }
      return None;
    }

    method SuspendOthers(rows: seq<MemberId>, administrator: MemberId)
      requires forall id :: id in rows <==> IsActive(members, id)
      modifies `members
      ensures members == Alone(old(members), administrator)
    {
      for i := 0 to |rows|
        invariant members.Keys == old(members).Keys
        invariant forall id | id in members ::
                    members[id] == if id in rows[..i] && id != administrator then old(members)[id].(active := false)
                        else old(members)[id]
      {
        assert IsActive(old(members), rows[i]);
        if rows[i] != administrator {
          members := members[rows[i] := members[rows[i]].(active := false)];
        }
      }
      assert rows[..|rows|] == rows;
    }

    /** `rows` are the active members in the order of the query. */
    method ReconcileSingleMemberPlan(rows: seq<MemberId>, now: Time)
      requires ActiveRows(members, rows)
      modifies `members
      ensures Snapshot() == Reconciled(old(Snapshot()), rows, now)
    {
      if MemberLimit(account, now) != Some(1) {
        return;
      }
      var administrator := FindAdministrator(rows);
      if administrator.None? {
        return;
      }
      SuspendOthers(rows, administrator.value);
    }

    /** `_apply_event` with its effect on the team. */
    method ApplyBillingEvent(event: Event, created: Option<Time>, now: Time, graceSeconds: nat, rows: seq<MemberId>)
      requires ActiveRows(members, rows)
      modifies this
      ensures Snapshot() == Billed(old(Snapshot()), event, created, now, graceSeconds, rows)
      ensures account == if Fails(event) then old(account)
                         else Applied(old(account), event, created, now + graceSeconds)
      ensures !event.Subscription? || Stale(old(account), event, created) ==> members == old(members)
    {
      if Fails(event) {
        return;
      }
      var reconcile := event.Subscription? && !Stale(account, event, created);
      account := Applied(account, event, created, now + graceSeconds);
      if reconcile {
        ReconcileSingleMemberPlan(rows, now);
      }
    }
  }
}
