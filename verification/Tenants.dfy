/**
 The team of a tenant: member rows, the seat limit its plan allows at a given time, and the
 operations of the tenant service that change who is active or administers.
 */
module Tenants {
  import opened Options
  import opened Billing

  type MemberId = nat

  datatype Role = Admin | Member | Auditor

  datatype TeamMember = TeamMember(user: string, role: Role, active: bool, joinedAt: Option<Time>, createdAt: Time)

  type Members = map<MemberId, TeamMember>

  datatype Team = Team(members: Members, account: Account)

  datatype Outcome = Done(team: Team) | Failed(team: Team, code: nat)

  /** A tenant just created: its founder, who has no joining time in one of the two ways to create it. */
  function Founded(id: MemberId, user: string, joinedAt: Option<Time>, now: Time): Team {
    Team(map[id := TeamMember(user, Admin, true, joinedAt, now)], NEW_ACCOUNT)
  }

  // ----- Seats -----

  /** `None` is no limit. */
  function MemberLimit(a: Account, now: Time): Option<nat> {
    if a.lifetime then None
    else if !PaidAccess(a, now) then Some(1)
    else if a.plan.product == Some(INTERMEDIATE) then Some(3)
    else if a.plan.product == Some(TEAM) then Some(10)
    else Some(1)
  }

  predicate BusinessFeatures(a: Account, now: Time) {
    a.lifetime || (NormalizeProduct(a.plan.product) in {INTERMEDIATE, TEAM} && PaidAccess(a, now))
  }

  predicate IsActive(members: Members, id: MemberId) {
    id in members && members[id].active
  }

  predicate IsActiveAdmin(members: Members, id: MemberId) {
    IsActive(members, id) && members[id].role == Admin
  }

  function ActiveIds(members: Members): set<MemberId> {
    set id | id in members && members[id].active
  }

  predicate OverLimit(team: Team, now: Time) {
    MemberLimit(team.account, now).Some? && |ActiveIds(team.members)| > MemberLimit(team.account, now).value
  }

  predicate SeatFree(team: Team, now: Time) {
    MemberLimit(team.account, now).Some? ==> |ActiveIds(team.members)| < MemberLimit(team.account, now).value
  }

  // ----- Access -----

  /** `require_role`: the refusal, if any. `actor` is the row the identity of the caller leads to. */
  function RoleRefusal(team: Team, actor: Option<MemberId>, roles: set<Role>, allowOverLimit: bool,
                       now: Time): Option<nat> {
    if actor.None? || !IsActive(team.members, actor.value) || team.members[actor.value].role !in roles then Some(403)
    else if !allowOverLimit && OverLimit(team, now) then Some(409)
    else None
  }

  predicate AdminActs(team: Team, actor: Option<MemberId>, now: Time) {
    RoleRefusal(team, actor, {Admin}, true, now).None?
  }

  // ----- Operations -----

  predicate UserTaken(members: Members, user: string) {
    exists id :: id in members && members[id].user == user
  }

  function Joined(team: Team, id: MemberId, user: string, role: Role, now: Time): Team {
    team.(members := team.members[id := TeamMember(user, role, true, Some(now), now)])
  }

  /** `directory` is the refusal of the user directory, if any; `clash` a conflict on the user's directory id. */
  function AddMember(team: Team, id: MemberId, actor: Option<MemberId>, user: string, role: Role,
                     directory: Option<nat>, clash: bool, now: Time): Outcome {
    if !AdminActs(team, actor, now) then Failed(team, 403)
    else if !BusinessFeatures(team.account, now) then Failed(team, 403)
    else if !SeatFree(team, now) then Failed(team, 409)
    else if directory.Some? then Failed(team, directory.value)
    else if UserTaken(team.members, user) || clash then Failed(team, 409)
    else Done(Joined(team, id, user, role, now))
  }

  function InviteMember(team: Team, id: MemberId, actor: Option<MemberId>, user: string, role: Role,
                        directory: Option<nat>, clash: bool, now: Time): Outcome {
    if !AdminActs(team, actor, now) then Failed(team, 403)
    else if !BusinessFeatures(team.account, now) then Failed(team, 403)
    else if !SeatFree(team, now) then Failed(team, 409)
    else if UserTaken(team.members, user) then Failed(team, 409)
    else if directory.Some? then Failed(team, directory.value)
    else if clash then Failed(team, 500)
    else Done(Joined(team, id, user, role, now))
  }

  function Selected(members: Members, selected: set<MemberId>): Members {
    map id | id in members :: members[id].(active := id in selected)
  }

  function UpdateTeam(team: Team, actor: Option<MemberId>, selected: set<MemberId>, now: Time): Outcome {
    if !AdminActs(team, actor, now) then Failed(team, 403)
    else if !(selected <= team.members.Keys) then Failed(team, 422)
    else if actor.value !in selected then Failed(team, 409)
    else if MemberLimit(team.account, now).Some? && |selected| > MemberLimit(team.account, now).value then
        Failed(team, 409)
    else Done(team.(members := Selected(team.members, selected)))
  }

  function UpdateRole(team: Team, actor: Option<MemberId>, id: MemberId, role: Role, now: Time): Outcome {
    if !AdminActs(team, actor, now) then Failed(team, 403)
    else if id !in team.members then Failed(team, 404)
    else if id == actor.value || team.members[id].role == Admin then Failed(team, 409)
    else Done(team.(members := team.members[id := team.members[id].(role := role)]))
  }

  // ----- A plan with one seat -----

  /** The order of the query: by joining time, those without one last, then by creation time and id. */
  predicate Before(members: Members, i: MemberId, j: MemberId)
    requires i in members && j in members
  {
    var a, b := members[i], members[j];
    if a.joinedAt != b.joinedAt then b.joinedAt.None? || (a.joinedAt.Some? && a.joinedAt.value < b.joinedAt.value)
    else if a.createdAt != b.createdAt then a.createdAt < b.createdAt
    else i < j
  }

  /** The answer of the query for the active members. */
  ghost predicate ActiveRows(members: Members, rows: seq<MemberId>) {
    && (forall id :: id in rows <==> IsActive(members, id))
    && (forall i, j | 0 <= i < j < |rows| :: IsActive(members, rows[i]) && IsActive(members, rows[j])
          && Before(members, rows[i], rows[j]))
  }

  /** The first administrator of a list of rows. */
  function FirstAdmin(members: Members, rows: seq<MemberId>): Option<MemberId> {
    if rows == [] then None
    else if IsActiveAdmin(members, rows[0]) then Some(rows[0])
    else FirstAdmin(members, rows[1..])
  }

  function Alone(members: Members, keep: MemberId): Members {
    map id | id in members :: if id == keep then members[id] else members[id].(active := false)
  }

  function Reconciled(team: Team, rows: seq<MemberId>, now: Time): Team {
    var administrator := FirstAdmin(team.members, rows);
    if MemberLimit(team.account, now) != Some(1) || administrator.None? then team
    else team.(members := Alone(team.members, administrator.value))
  }

  /** A provider event for the tenant; a subscription event that is applied reconciles the team. */
  function Billed(team: Team, event: Event, created: Option<Time>, now: Time, graceSeconds: nat,
                  rows: seq<MemberId>): Team {
    if Fails(event) then team
    else
      var after := team.(account := Applied(team.account, event, created, now + graceSeconds));
      if event.Subscription? && !Stale(team.account, event, created) then Reconciled(after, rows, now) else after
  }
}
