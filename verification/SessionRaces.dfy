/**
 What interleaving costs: exactly when a dead session is still validated, what a `logout_all` sweep
 achieves whatever runs beside it, and a run in which it misses a session.
 */
module SessionRaces {
  import opened Options
  import opened RedisStore
  import opened SessionProtocol
  import Service = SessionService

  // ----- Runs in pieces -----

  lemma {:induction false} RunAppend(w: World, before: seq<Step>, after: seq<Step>)
    ensures Run(w, before + after) == Run(Run(w, before), after)
    decreases |before|
  {
    hide Next;
    if before == [] {
      assert before + after == after;
    } else {
      assert (before + after)[1..] == before[1..] + after;
      RunAppend(Next(w, before[0]), before[1..], after);
    }
  }

  lemma RunNothing(w: World)
    ensures Run(w, []) == w
  {
  }

  lemma RunThen(w: World, steps: seq<Step>, step: Step)
    ensures Run(w, steps + [step]) == Next(Run(w, steps), step)
  {
    hide Next;
    RunAppend(w, steps, [step]);
    assert Run(Next(Run(w, steps), step), []) == Next(Run(w, steps), step);
  }

  // ----- Late validation -----

  /** The user of every session exists, with a token version that has at most grown since. */
  ghost predicate OwnersKnown(w: World) {
    forall s | s in w.log.origins ::
      && w.log.origins[s].user in w.users
      && w.log.origins[s].version <= w.users[w.log.origins[s].user].version
  }

  lemma NextKeepsOwners(w: World, step: Step)
    requires OwnersKnown(w)
    ensures OwnersKnown(Next(w, step))
  {
    if step.Advance? && step.call in w.calls {
      PerformLeavesOthers(w, step.call, step.access, step.refresh, step.pick);
    }
  }

  /** A command of one call leaves the others, the users and what was ever issued for a session. */
  ghost predicate LeavesOthers(w: World, w': World, id: nat) {
    && (forall other | other in w.calls && other != id :: other in w'.calls && w'.calls[other] == w.calls[other])
    && w'.users == w.users && w'.log.origins == w.log.origins && w.log.created <= w'.log.created
  }

  lemma StoreLeavesOthers(w: World, id: nat)
    requires id in w.calls && Storing(w.calls[id])
    ensures LeavesOthers(w, PerformStore(w, id, w.calls[id]), id)
  {
    hide Put, AddMember, Expire;
  }

  lemma RotateLeavesOthers(w: World, id: nat, rec: Record, access: Token, refresh: Token)
    requires id in w.calls
    ensures LeavesOthers(w, PerformRotate(w, id, rec, access, refresh), id)
  {
    hide Rotate, CanRotate;
  }

  lemma CurrentLeavesOthers(w: World, id: nat)
    requires id in w.calls
    ensures LeavesOthers(w, PerformCurrent(w, id, w.calls[id]), id)
  {
    hide Get, UserIsActive;
  }

  lemma RefreshLeavesOthers(w: World, id: nat)
    requires id in w.calls
    ensures LeavesOthers(w, PerformRefresh(w, id, w.calls[id]), id)
  {
    hide Get, UserIsActive;
  }

  lemma LogoutLeavesOthers(w: World, id: nat, pick: SessionId)
    requires id in w.calls
    ensures LeavesOthers(w, PerformLogout(w, id, w.calls[id], pick), id)
  {
    hide Get;
  }

  lemma RevokeLeavesOthers(w: World, id: nat)
    requires id in w.calls
    ensures LeavesOthers(w, PerformRevoke(w, id, w.calls[id]), id)
  {
    hide DeleteSession, RemoveMember;
  }

  lemma PerformLeavesOthers(w: World, id: nat, access: Token, refresh: Token, pick: SessionId)
    requires id in w.calls
    ensures LeavesOthers(w, Perform(w, id, access, refresh, pick), id)
  {
    hide LeavesOthers, PerformStore, PerformRotate, PerformCurrent, PerformRefresh, PerformLogout, PerformRevoke;
    var call := w.calls[id];
    if call.RefreshRotate? {
      RotateLeavesOthers(w, id, call.rec, access, refresh);
    } else if Storing(call) {
      StoreLeavesOthers(w, id);
    } else if call.RevokeDelete? || call.RevokeRemove? {
      RevokeLeavesOthers(w, id);
    } else if CurrentReading(call) {
      CurrentLeavesOthers(w, id);
    } else if RefreshReading(call) {
      RefreshLeavesOthers(w, id);
    } else {
      LogoutLeavesOthers(w, id, pick);
    }
  }

  lemma {:induction false} RunKeepsOwners(w: World, steps: seq<Step>)
    requires OwnersKnown(w)
    ensures OwnersKnown(Run(w, steps))
    decreases |steps|
  {
    hide Next;
    if steps != [] {
      NextKeepsOwners(w, steps[0]);
      RunKeepsOwners(Next(w, steps[0]), steps[1..]);
    }
  }

  lemma RunTwo(w: World, first: Step, second: Step)
    ensures Run(w, [first, second]) == Next(Next(w, first), second)
  {
    hide Next;
    assert [first, second] == [first] + [second];
    RunThen(w, [first], second);
    RunThen(w, [], first);
    assert [] + [first] == [first];
  }

  /** Once its user is active again, a call that holds the record validates the session. */
  lemma HolderValidates(w: World, id: nat, session: SessionId) returns (after: seq<Step>)
    requires Invariant(w) && OwnersKnown(w) && id in AboutToValidate(w, session) && !Outdated(w, session)
    ensures Run(w, after).log.validations[session] == w.log.validations[session] + 1
  {
    var rec := w.calls[id].rec;
    assert WellIssued(w, rec);
    var activate, check := SetActive(rec.user, true), Advance(id, 0, 0, 0);
    after := [activate, check];
    RunTwo(w, activate, check);
  }

  /**
   In a reachable state, a dead session is still validated in some continuation if and only if a
   `current_session` call already holds its record and no password reset or e-mail verification has
   outdated it.
   */
  lemma LateValidation(start: World, before: seq<Step>, session: SessionId)
    requires Initial(start) && Dead(Run(start, before), session)
    ensures var w := Run(start, before);
            (exists after :: Run(w, after).log.validations[session] > w.log.validations[session])
            <==> AboutToValidate(w, session) != {} && !Outdated(w, session)
  {
    hide Next, Invariant;
    var w := Run(start, before);
    InitialInvariant(start);
    RunKeepsInvariant(start, before);
    RunKeepsOwners(start, before);
    if AboutToValidate(w, session) != {} && !Outdated(w, session) {
      var id :| id in AboutToValidate(w, session);
      var after := HolderValidates(w, id, session);
    }
    forall after | Run(w, after).log.validations[session] > w.log.validations[session]
      ensures AboutToValidate(w, session) != {} && !Outdated(w, session)
    {
      DeadStaysDead(start, before, after, session);
      if Outdated(w, session) {
        OutdatedNeverValidates(start, before, after, session);
      }
    }
  }

  // ----- A run that reaches it -----

  /** `current_session` up to the check of the user, run alone. */
  lemma CurrentHolds(w: World, id: nat, token: Token) returns (steps: seq<Step>)
    requires id !in w.calls && exists s :: AccessValidates(w, token, s)
    ensures var s := Get(w.redis.access, token, w.now);
            s.Some? && LiveSession(w, s.value) &&
            Run(w, steps) == w.(calls := w.calls[id := CurrentCheck(w.redis.sessions[s.value].value)])
  {
    hide Run;
    var go := Advance(id, 0, 0, 0);
    RunTwo(w, Begin(id, CurrentGet(token)), go);
    steps := [Begin(id, CurrentGet(token)), go] + [go];
    RunThen(w, [Begin(id, CurrentGet(token)), go], go);
  }

  /** `logout` or `logout_all` up to the end of its reads, run alone. */
  lemma LogoutReads(w: World, id: nat, token: Token, everywhere: bool) returns (steps: seq<Step>)
    requires id !in w.calls && exists s :: AccessValidates(w, token, s)
    ensures var s := Get(w.redis.access, token, w.now);
            s.Some? && LiveSession(w, s.value) &&
            var rec := w.redis.sessions[s.value].value;
            Run(w, steps) ==
            w.(calls := w.calls[id := if everywhere then SweepMembers(rec.user) else RevokeDelete(rec, Finish)])
  {
    hide Run;
    var go := Advance(id, 0, 0, 0);
    RunTwo(w, Begin(id, LogoutGet(token, everywhere)), go);
    steps := [Begin(id, LogoutGet(token, everywhere)), go] + [go];
    RunThen(w, [Begin(id, LogoutGet(token, everywhere)), go], go);
  }

  /** `logout` up to the DEL, run alone. */
  lemma LogoutDeletes(w: World, id: nat, token: Token) returns (steps: seq<Step>)
    requires id !in w.calls && exists s :: AccessValidates(w, token, s)
    ensures var s := Get(w.redis.access, token, w.now);
            s.Some? && LiveSession(w, s.value) &&
            var rec := w.redis.sessions[s.value].value;
            Run(w, steps) == w.(calls := w.calls[id := RevokeRemove(rec, Finish)], redis := DeleteSession(w.redis, rec))
  {
    hide Run, DeleteSession;
    steps := LogoutReads(w, id, token, false);
    RunThen(w, steps, Advance(id, 0, 0, 0));
    steps := steps + [Advance(id, 0, 0, 0)];
  }

  /** What a login needs: an active user, a call of its own, and a new id and new tokens. */
  ghost predicate MayLogin(w: World, id: nat, user: UserId, session: SessionId, access: Token, refresh: Token) {
    && id !in w.calls && user in w.users && w.users[user].active
    && session !in w.log.origins && access !in w.log.issued && refresh !in w.log.issued && access != refresh
  }

  ghost function LoginRecord(w: World, user: UserId, session: SessionId, access: Token, refresh: Token): Record
    requires user in w.users
  {
    Record(session, user, w.users[user].version, access, refresh)
  }

  lemma StoreCommand(w: World, id: nat)
    requires id in w.calls && Storing(w.calls[id])
    ensures Next(w, Advance(id, 0, 0, 0)) == PerformStore(w, id, w.calls[id])
  {
    hide PerformStore;
  }

  /** The five commands of `_store_session`, with `delay` seconds before the last. */
  lemma StoreCommands(w: World, id: nat, rec: Record, delay: nat) returns (steps: seq<Step>)
    requires id in w.calls && w.calls[id] == StoreRecord(rec)
    ensures var log := w.log.(created := w.log.created + {rec.session}, stored := w.log.stored + {rec.refresh});
            Run(w, steps) ==
            World(w.now + delay, Service.StoredSlowly(w.redis, w.now, delay, rec), w.users, w.calls - {id}, log)
  {
    hide Run, Next, Put, AddMember, Expire;
    var go := Advance(id, 0, 0, 0);
    RunTwo(w, go, go);
    StoreCommand(w, id);
    StoreCommand(Next(w, go), id);
    steps := [go, go] + [go];
    RunThen(w, [go, go], go);
    StoreCommand(Run(w, [go, go]), id);
    RunThen(w, steps, go);
    StoreCommand(Run(w, steps), id);
    steps := steps + [go];
    var w4 := Run(w, steps);
    assert w4.calls == w.calls[id := StoreDeadline(rec)];
    RunThen(w, steps, Tick(delay));
    steps := steps + [Tick(delay)];
    Ticks(w4, delay);
    RunThen(w, steps, go);
    StoreCommand(Run(w, steps), id);
    steps := steps + [go];
  }

  lemma Ticks(w: World, seconds: nat)
    ensures Next(w, Tick(seconds)) == w.(now := w.now + seconds)
  {
  }

  lemma LoginBegins(w: World, id: nat, user: UserId, session: SessionId, access: Token, refresh: Token)
    requires MayLogin(w, id, user, session, access, refresh)
    ensures var rec := LoginRecord(w, user, session, access, refresh);
            Next(w, Login(id, user, session, access, refresh)) ==
            w.(calls := w.calls[id := StoreRecord(rec)],
               log := w.log.(issued := w.log.issued + {access, refresh},
                             origins := w.log.origins[session := Origin(user, rec.version)]))
  {
  }

  /**
   A login run alone, with `delay` seconds before its last command, does what the service says it
   does to the store.
   */
  lemma LoginStores(w: World, id: nat, user: UserId, session: SessionId, access: Token, refresh: Token, delay: nat)
    returns (steps: seq<Step>)
    requires MayLogin(w, id, user, session, access, refresh)
    ensures var rec := LoginRecord(w, user, session, access, refresh);
            var log := w.log.(issued := w.log.issued + {access, refresh},
                              origins := w.log.origins[session := Origin(user, rec.version)],
                              created := w.log.created + {session},
                              stored := w.log.stored + {refresh});
            Run(w, steps) ==
            World(w.now + delay, Service.StoredSlowly(w.redis, w.now, delay, rec), w.users, w.calls, log)
  {
    hide Run, Next, Service.StoredSlowly;
    var login := Login(id, user, session, access, refresh);
    LoginBegins(w, id, user, session, access, refresh);
    RunNothing(w);
    RunThen(w, [], login);
    var stores := StoreCommands(Next(w, login), id, LoginRecord(w, user, session, access, refresh), delay);
    steps := [] + [login];
    RunAppend(w, steps, stores);
    steps := steps + stores;
    assert w.calls[id := StoreRecord(LoginRecord(w, user, session, access, refresh))] - {id} == w.calls;
  }

  lemma CheckValidates(w: World, id: nat, rec: Record)
    requires id in w.calls && w.calls[id] == CurrentCheck(rec) && UserIsActive(w.users, rec)
    ensures Next(w, Advance(id, 0, 0, 0)).log.validations == w.log.validations + multiset{rec.session}
  {
  }

  /**
   The late validation happens: from an empty store, a login, a `current_session` call that reads the
   record, a `logout` that deletes it, and then the check.
   */
  lemma LateValidationReached(start: World, user: UserId) returns (before: seq<Step>, after: seq<Step>)
    requires Initial(start) && user in start.users && start.users[user].active
    ensures var w := Run(start, before);
            && Dead(w, 0) && AboutToValidate(w, 0) != {} && !Outdated(w, 0)
            && w.log.validations[0] == 0 && Run(w, after).log.validations[0] == 1
  {
    hide Run, Next;
    var rec := LoginRecord(start, user, 0, 0, 1);
    before := LoginStores(start, 0, user, 0, 0, 1, 0);
    var w1 := Run(start, before);
    assert AccessValidates(w1, 0, 0);
    var read := CurrentHolds(w1, 1, 0);
    var w2 := Run(w1, read);
    assert AccessValidates(w2, 0, 0);
    var deleted := LogoutDeletes(w2, 2, 0);
    RunAppend(start, before, read);
    RunAppend(start, before + read, deleted);
    before := before + read + deleted;
    var w3 := Run(start, before);
    assert w3.calls[1] == CurrentCheck(rec);
    assert 1 in AboutToValidate(w3, 0);
    RunNothing(w3);
    RunThen(w3, [], Advance(1, 0, 0, 0));
    after := [] + [Advance(1, 0, 0, 0)];
    CheckValidates(w3, 1, rec);
  }

  // ----- The sweep of logout_all -----

  /** Session sets, used markers and logins past their first command name only sessions that were stored. */
  ghost predicate MembersCreated(w: World) {
    && (forall t | t in w.redis.used :: w.redis.used[t].value in w.log.created)
    && (forall u, s | u in w.redis.members && s in w.redis.members[u].value :: s in w.log.created)
    && (forall id | id in w.calls && Storing(w.calls[id]) && !w.calls[id].StoreRecord? ::
          w.calls[id].rec.session in w.log.created)
  }

  lemma StoreKeepsMembers(w: World, id: nat)
    requires MembersCreated(w) && id in w.calls && Storing(w.calls[id])
    ensures MembersCreated(PerformStore(w, id, w.calls[id]))
  {
  }

  lemma RotateKeepsMembers(w: World, id: nat, rec: Record, access: Token, refresh: Token)
    requires MembersCreated(w) && RecordsWellIssued(w) && id in w.calls && w.calls[id] == RefreshRotate(rec)
    ensures MembersCreated(PerformRotate(w, id, rec, access, refresh))
  {
  }

  lemma RevokeKeepsMembers(w: World, id: nat)
    requires MembersCreated(w) && id in w.calls && (w.calls[id].RevokeDelete? || w.calls[id].RevokeRemove?)
    ensures MembersCreated(PerformRevoke(w, id, w.calls[id]))
  {
  }

  /** A step that writes to no session set, marker or log, and starts no login. */
  ghost predicate LeavesMembers(w: World, w': World) {
    && w'.redis.used == w.redis.used && w'.log.created == w.log.created
    && (forall u | u in w'.redis.members :: u in w.redis.members && w'.redis.members[u] == w.redis.members[u])
    && (forall id | id in w'.calls && Storing(w'.calls[id]) && !w'.calls[id].StoreRecord? ::
          id in w.calls && w'.calls[id] == w.calls[id])
  }

  lemma LeftMembersCreated(w: World, w': World)
    requires MembersCreated(w) && LeavesMembers(w, w')
    ensures MembersCreated(w')
  {
  }

  lemma CurrentLeavesMembers(w: World, id: nat)
    requires id in w.calls && CurrentReading(w.calls[id])
    ensures LeavesMembers(w, PerformCurrent(w, id, w.calls[id]))
  {
  }

  lemma RefreshLeavesMembers(w: World, id: nat)
    requires id in w.calls && RefreshReading(w.calls[id])
    ensures LeavesMembers(w, PerformRefresh(w, id, w.calls[id]))
  {
  }

  lemma LogoutLeavesMembers(w: World, id: nat, pick: SessionId)
    requires id in w.calls && !HasRecord(w.calls[id])
    ensures LeavesMembers(w, PerformLogout(w, id, w.calls[id], pick))
  {
  }

  lemma OthersKeepMembers(w: World, id: nat, access: Token, refresh: Token, pick: SessionId)
    requires MembersCreated(w) && id in w.calls && !w.calls[id].RefreshRotate? && !Storing(w.calls[id])
    ensures MembersCreated(Perform(w, id, access, refresh, pick))
  {
    hide MembersCreated, LeavesMembers, PerformRevoke, PerformCurrent, PerformRefresh, PerformLogout;
    var call := w.calls[id];
    if call.RevokeDelete? || call.RevokeRemove? {
      RevokeKeepsMembers(w, id);
    } else {
      if CurrentReading(call) {
        CurrentLeavesMembers(w, id);
      } else if RefreshReading(call) {
        RefreshLeavesMembers(w, id);
      } else {
        LogoutLeavesMembers(w, id, pick);
      }
      LeftMembersCreated(w, Perform(w, id, access, refresh, pick));
    }
  }

  lemma NextKeepsMembers(w: World, step: Step)
    requires MembersCreated(w) && Invariant(w)
    ensures MembersCreated(Next(w, step))
  {
    if step.Advance? && step.call in w.calls {
      var id, call := step.call, w.calls[step.call];
      if call.RefreshRotate? {
        RotateKeepsMembers(w, id, call.rec, step.access, step.refresh);
      } else if Storing(call) {
        StoreKeepsMembers(w, id);
      } else {
        OthersKeepMembers(w, id, step.access, step.refresh, step.pick);
      }
    }
  }

  lemma {:induction false} RunKeepsMembers(w: World, steps: seq<Step>)
    requires MembersCreated(w) && Invariant(w)
    ensures MembersCreated(Run(w, steps))
    decreases |steps|
  {
    hide Next, Invariant, MembersCreated;
    if steps != [] {
      NextKeepsMembers(w, steps[0]);
      NextKeepsInvariant(w, steps[0]);
      RunKeepsMembers(Next(w, steps[0]), steps[1..]);
    }
  }

  /** The sessions a sweep has still to delete. */
  function SweepLeft(call: Call): Option<set<SessionId>> {
    match call
    case SweepNext(_, todo) => Some(todo)
    case SweepLoad(session, _, todo) => Some(todo + {session})
    case RevokeDelete(rec, Sweep(_, todo)) => Some(todo + {rec.session})
    case RevokeRemove(_, Sweep(_, todo)) => Some(todo)
    case _ => None
  }

  /** Call `id` sweeps: of the sessions in `read`, those it has not still to delete are dead. */
  ghost predicate Sweeping(w: World, id: nat, read: set<SessionId>) {
    && id in w.calls && SweepLeft(w.calls[id]).Some?
    && read <= w.log.created
    && forall s | s in read :: Dead(w, s) || s in SweepLeft(w.calls[id]).value
  }

  /** The call is neither abandoned nor over in the course of the steps. */
  ghost predicate GoesOn(w: World, id: nat, steps: seq<Step>)
    decreases |steps|
  {
    id in w.calls && (steps == [] || GoesOn(Next(w, steps[0]), id, steps[1..]))
  }

  /** What one command of a sweep does to the sessions it has still to delete. */
  ghost predicate SweepsOn(w: World, w': World, id: nat, read: set<SessionId>)
    requires id in w.calls && SweepLeft(w.calls[id]).Some?
  {
    && w'.log.created == w.log.created && w'.now == w.now
    && (id in w'.calls ==> SweepLeft(w'.calls[id]).Some?)
    && (forall s | s in read && s in SweepLeft(w.calls[id]).value ::
          Dead(w', s) || (id in w'.calls && s in SweepLeft(w'.calls[id]).value))
  }

  lemma SweepRevokes(w: World, id: nat, read: set<SessionId>)
    requires Sweeping(w, id, read) && (w.calls[id].RevokeDelete? || w.calls[id].RevokeRemove?)
    ensures SweepsOn(w, PerformRevoke(w, id, w.calls[id]), id, read)
  {
    hide RemoveMember;
  }

  lemma SweepReads(w: World, id: nat, read: set<SessionId>, pick: SessionId)
    requires RecordsWellIssued(w) && Sweeping(w, id, read) && (w.calls[id].SweepNext? || w.calls[id].SweepLoad?)
    ensures SweepsOn(w, PerformLogout(w, id, w.calls[id], pick), id, read)
  {
    if w.calls[id].SweepLoad? {
      LoadedWellIssued(w, w.calls[id].session);
    }
  }

  lemma SweepAdvances(w: World, id: nat, read: set<SessionId>, access: Token, refresh: Token, pick: SessionId)
    requires RecordsWellIssued(w) && Sweeping(w, id, read)
    ensures SweepsOn(w, Perform(w, id, access, refresh, pick), id, read)
  {
    hide SweepsOn, PerformRevoke, PerformLogout;
    if w.calls[id].RevokeDelete? || w.calls[id].RevokeRemove? {
      SweepRevokes(w, id, read);
    } else {
      SweepReads(w, id, read, pick);
    }
  }

  lemma SweepAfterStep(w: World, id: nat, read: set<SessionId>, step: Step)
    requires Invariant(w) && Sweeping(w, id, read) && id in Next(w, step).calls
    ensures Sweeping(Next(w, step), id, read)
  {
    hide Perform, SweepLeft;
    var w' := Next(w, step);
    forall s | s in read && Dead(w, s) ensures Dead(w', s) {
      DeadAfterStep(w, step, s);
    }
    if step.Advance? && step.call == id {
      SweepAdvances(w, id, read, step.access, step.refresh, step.pick);
    } else if step.Advance? && step.call in w.calls {
      PerformLeavesOthers(w, step.call, step.access, step.refresh, step.pick);
    }
  }

  lemma {:induction false} SweepAfterRun(w: World, id: nat, read: set<SessionId>, steps: seq<Step>)
    requires Invariant(w) && Sweeping(w, id, read) && GoesOn(w, id, steps)
    ensures Sweeping(Run(w, steps), id, read)
    decreases |steps|
  {
    hide Next, Invariant, Sweeping;
    if steps != [] {
      SweepAfterStep(w, id, read, steps[0]);
      NextKeepsInvariant(w, steps[0]);
      SweepAfterRun(Next(w, steps[0]), id, read, steps[1..]);
    }
  }

  /** From its next command on, `first`, call `id` is never abandoned, and it returns with `last`. */
  ghost predicate Returns(w: World, id: nat, first: Step, steps: seq<Step>, last: Step) {
    && first.Advance? && first.call == id && last.Advance? && last.call == id
    && GoesOn(Next(w, first), id, steps)
    && id !in Next(Run(Next(w, first), steps), last).calls
  }

  /** The world when it has returned. */
  ghost function Returned(w: World, first: Step, steps: seq<Step>, last: Step): World {
    Next(Run(Next(w, first), steps), last)
  }

  /**
   When the sweep of a `logout_all` returns, every session id in the set it read is dead, whatever
   logins, rotations and revocations ran between its commands: the DEL names the session key, so it
   takes a session that was renewed after the sweep had read its record. What is dead stays dead.
   */
  lemma SweepLeavesAllDead(start: World, before: seq<Step>, id: nat, user: UserId,
                           first: Step, steps: seq<Step>, last: Step)
    requires Initial(start)
    requires var w := Run(start, before);
             id in w.calls && w.calls[id] == SweepMembers(user) && Returns(w, id, first, steps, last)
    ensures var w := Run(start, before);
            var read := Get(w.redis.members, user, w.now);
            forall s | read.Some? && s in read.value :: Dead(Returned(w, first, steps, last), s)
  {
    hide Invariant, MembersCreated, Run;
    var w := Run(start, before);
    var read := Get(w.redis.members, user, w.now);
    InitialInvariant(start);
    InitialMembers(start);
    RunKeepsInvariant(start, before);
    RunKeepsMembers(start, before);
    if read.Some? {
      SweepStarts(w, id, user, first);
      NextKeepsInvariant(w, first);
      var w1 := Next(w, first);
      SweepAfterRun(w1, id, read.value, steps);
      RunKeepsInvariant(w1, steps);
      SweepEnds(Run(w1, steps), id, read.value, last);
    }
  }

  lemma InitialMembers(w: World)
    requires Initial(w)
    ensures MembersCreated(w)
  {
  }

  lemma SweepStarts(w: World, id: nat, user: UserId, first: Step)
    requires MembersCreated(w) && id in w.calls && w.calls[id] == SweepMembers(user)
    requires first.Advance? && first.call == id && Get(w.redis.members, user, w.now).Some?
    ensures Sweeping(Next(w, first), id, Get(w.redis.members, user, w.now).value)
  {
  }

  lemma SweepEnds(w: World, id: nat, read: set<SessionId>, last: Step)
    requires Invariant(w) && Sweeping(w, id, read)
    requires last.Advance? && last.call == id && id !in Next(w, last).calls
    ensures forall s | s in read :: Dead(Next(w, last), s)
  {
    hide Perform;
    SweepAdvances(w, id, read, last.access, last.refresh, last.pick);
    forall s | s in read && Dead(w, s) ensures Dead(Next(w, last), s) {
      DeadAfterStep(w, last, s);
    }
  }

  // ----- The sweep run alone -----

  lemma {:induction false} GoesOnTwice(w: World, id: nat, steps: seq<Step>, more: seq<Step>)
    requires GoesOn(w, id, steps) && GoesOn(Run(w, steps), id, more)
    ensures GoesOn(w, id, steps + more)
    decreases |steps|
  {
    hide Next;
    if steps == [] {
      assert steps + more == more;
    } else {
      assert (steps + more)[1..] == steps[1..] + more;
      GoesOnTwice(Next(w, steps[0]), id, steps[1..], more);
    }
  }

  lemma GoesOnOne(w: World, id: nat, step: Step)
    requires id in w.calls && id in Next(w, step).calls
    ensures GoesOn(w, id, [step]) && Run(w, [step]) == Next(w, step)
  {
    hide Next;
    assert [step][1..] == [];
    assert GoesOn(Next(w, step), id, []);
    assert Run(Next(w, step), []) == Next(w, step);
  }

  /** One more command that the call survives. */
  lemma GoesOnThen(w: World, id: nat, steps: seq<Step>, step: Step)
    requires GoesOn(w, id, steps) && id in Run(w, steps).calls && id in Next(Run(w, steps), step).calls
    ensures GoesOn(w, id, steps + [step]) && Run(w, steps + [step]) == Next(Run(w, steps), step)
  {
    hide Next, Run;
    GoesOnOne(Run(w, steps), id, step);
    GoesOnTwice(w, id, steps, [step]);
    RunThen(w, steps, step);
  }

  /** The commands of a sweep, one by one. */
  lemma SweepCommands(w: World, id: nat, session: SessionId)
    requires id in w.calls
    ensures var w' := Next(w, Advance(id, 0, 0, session));
            match w.calls[id]
            case SweepNext(u, t) =>
              session in t ==> w' == w.(calls := w.calls[id := SweepLoad(session, u, t - {session})])
            case SweepLoad(s, u, t) =>
              var stored := Load(w, s);
              var next := if stored.Some? then RevokeDelete(stored.value, Sweep(u, t)) else SweepNext(u, t);
              w' == w.(calls := w.calls[id := next])
            case RevokeDelete(r, c) =>
              w' == w.(calls := w.calls[id := RevokeRemove(r, c)], redis := DeleteSession(w.redis, r))
            case RevokeRemove(r, Sweep(u, t)) =>
              w'.calls == w.calls[id := SweepNext(u, t)] && w'.now == w.now && w'.users == w.users
              && w'.redis.sessions == w.redis.sessions && w'.redis.access == w.redis.access
            case _ => true
  {
    hide DeleteSession, RemoveMember, PerformStore, PerformRotate, PerformCurrent, PerformRefresh;
  }

  function AccessOf(w: World, session: SessionId): set<Token> {
    if Load(w, session).Some? then {Load(w, session).value.access} else {}
  }

  /** A sweep run alone deals with one session and touches no other. */
  lemma SweepOne(w: World, id: nat, user: UserId, todo: set<SessionId>, session: SessionId) returns (steps: seq<Step>)
    requires RecordsWellIssued(w) && id in w.calls && w.calls[id] == SweepNext(user, todo) && session in todo
    ensures GoesOn(w, id, steps)
    ensures var w' := Run(w, steps);
            && w'.calls == w.calls[id := SweepNext(user, todo - {session})] && w'.now == w.now && w'.users == w.users
            && (forall s | s != session :: Load(w', s) == Load(w, s))
            && w'.redis.access == w.redis.access - AccessOf(w, session)
  {
    hide Run, Next, GoesOn;
    var go := Advance(id, 0, 0, session);
    SweepCommands(w, id, session);
    GoesOnOne(w, id, go);
    steps := [go];
    LoadedWellIssued(w, session);
    SweepCommands(Run(w, steps), id, session);
    GoesOnThen(w, id, steps, go);
    steps := steps + [go];
    if Load(w, session).Some? {
      SweepCommands(Run(w, steps), id, session);
      GoesOnThen(w, id, steps, go);
      steps := steps + [go];
      SweepCommands(Run(w, steps), id, session);
      GoesOnThen(w, id, steps, go);
      steps := steps + [go];
    }
  }

  /** A sweep run alone to its end leaves every session outside its set as it was. */
  lemma {:induction false} SweepAlone(w: World, id: nat, user: UserId, todo: set<SessionId>)
    returns (steps: seq<Step>, last: Step)
    requires Invariant(w) && id in w.calls && w.calls[id] == SweepNext(user, todo)
    ensures last.Advance? && last.call == id && GoesOn(w, id, steps)
    ensures var w' := Next(Run(w, steps), last);
            && w'.calls == w.calls - {id} && w'.now == w.now && w'.users == w.users
            && w'.redis.members.Keys !! {user}
            && forall s | s !in todo :: Load(w', s) == Load(w, s)
    decreases |todo|
  {
    hide Invariant, Run;
    last := Advance(id, 0, 0, 0);
    if todo == {} {
      RunNothing(w);
      steps := [];
      GoesOnNothing(w, id);
    } else {
      var session :| session in todo;
      steps := SweepOneAlone(w, id, user, todo, session);
      var w1 := Run(w, steps);
      RunKeepsInvariant(w, steps);
      var more;
      more, last := SweepAlone(w1, id, user, todo - {session});
      GoesOnTwice(w, id, steps, more);
      RunAppend(w, steps, more);
      steps := steps + more;
      assert w.calls[id := SweepNext(user, todo - {session})] - {id} == w.calls - {id};
    }
  }

  lemma GoesOnNothing(w: World, id: nat)
    requires id in w.calls
    ensures GoesOn(w, id, [])
  {
  }

  lemma SweepOneAlone(w: World, id: nat, user: UserId, todo: set<SessionId>, session: SessionId)
    returns (steps: seq<Step>)
    requires Invariant(w) && id in w.calls && w.calls[id] == SweepNext(user, todo) && session in todo
    ensures GoesOn(w, id, steps)
    ensures var w' := Run(w, steps);
            && w'.calls == w.calls[id := SweepNext(user, todo - {session})] && w'.now == w.now && w'.users == w.users
            && (forall s | s != session :: Load(w', s) == Load(w, s))
            && w'.redis.access == w.redis.access - AccessOf(w, session)
  {
    hide RecordsWellIssued, KeysIssued, RecordTokens, PendingLogins, RotatedOnce, Run, GoesOn, Load;
    steps := SweepOne(w, id, user, todo, session);
  }

  /**
   Exactly which sessions a sweep can miss: when a `logout_all` is about to read the set of its user,
   a live session survives some continuation in which the call returns if and only if the session is
   not in the set it reads.
   */
  lemma SweepMissesExactly(start: World, before: seq<Step>, id: nat, user: UserId, session: SessionId)
    requires Initial(start)
    requires var w := Run(start, before);
             id in w.calls && w.calls[id] == SweepMembers(user) && LiveSession(w, session)
    ensures var w := Run(start, before);
            var read := Get(w.redis.members, user, w.now);
            (exists first, steps, last ::
               Returns(w, id, first, steps, last) && LiveSession(Returned(w, first, steps, last), session))
            <==> !(read.Some? && session in read.value)
  {
    hide Invariant, MembersCreated, Run, Returns, Returned;
    var w := Run(start, before);
    var read := Get(w.redis.members, user, w.now);
    forall first, steps, last
      | Returns(w, id, first, steps, last) && LiveSession(Returned(w, first, steps, last), session)
      ensures !(read.Some? && session in read.value)
    {
      SweepLeavesAllDead(start, before, id, user, first, steps, last);
    }
    if !(read.Some? && session in read.value) {
      InitialInvariant(start);
      RunKeepsInvariant(start, before);
      var first, steps, last := SweepMisses(w, id, user, session);
    }
  }

  /** Run alone, a sweep misses a session that is not in the set it reads. */
  lemma SweepMisses(w: World, id: nat, user: UserId, session: SessionId)
    returns (first: Step, steps: seq<Step>, last: Step)
    requires Invariant(w) && id in w.calls && w.calls[id] == SweepMembers(user) && LiveSession(w, session)
    requires var read := Get(w.redis.members, user, w.now); !(read.Some? && session in read.value)
    ensures Returns(w, id, first, steps, last)
    ensures var w' := Returned(w, first, steps, last);
            && w'.calls == w.calls - {id} && w'.now == w.now && w'.users == w.users
            && Load(w', session) == Load(w, session)
  {
    hide Invariant, Run;
    first := Advance(id, 0, 0, 0);
    NextKeepsInvariant(w, first);
    var read := Get(w.redis.members, user, w.now);
    var todo := if read.Some? then read.value else {};
    var w1 := Next(w, first);
    assert w1 == w.(calls := w.calls[id := SweepNext(user, todo)]);
    steps, last := SweepAlone(w1, id, user, todo);
    assert w1.calls - {id} == w.calls - {id};
  }

  // ----- Replay detection -----

  /** Call `id` has found a used refresh token of `session` and will delete the session, or has. */
  ghost predicate Replaying(w: World, id: nat, session: SessionId) {
    && id in w.calls && session in w.log.created
    && (var call := w.calls[id];
        || call == ReplayLoad(session)
        || (call.RevokeDelete? && call.continuation == Finish && call.rec.session == session)
        || (call.RevokeRemove? && call.continuation == Finish && Dead(w, session)))
  }

  lemma ReplayAdvances(w: World, id: nat, session: SessionId, access: Token, refresh: Token, pick: SessionId)
    requires RecordsWellIssued(w) && Replaying(w, id, session)
    ensures var w' := Perform(w, id, access, refresh, pick);
            if id in w'.calls then Replaying(w', id, session) else Dead(w', session)
  {
    hide PerformStore, PerformRotate, PerformCurrent, PerformLogout, RemoveMember;
    LoadedWellIssued(w, session);
  }

  lemma ReplayAfterStep(w: World, id: nat, session: SessionId, step: Step)
    requires Invariant(w) && Replaying(w, id, session) && id in Next(w, step).calls
    ensures Replaying(Next(w, step), id, session)
  {
    hide Perform;
    if Dead(w, session) {
      DeadAfterStep(w, step, session);
    }
    if step.Advance? && step.call == id {
      ReplayAdvances(w, id, session, step.access, step.refresh, step.pick);
    } else if step.Advance? && step.call in w.calls {
      PerformLeavesOthers(w, step.call, step.access, step.refresh, step.pick);
    }
  }

  lemma {:induction false} ReplayAfterRun(w: World, id: nat, session: SessionId, steps: seq<Step>)
    requires Invariant(w) && Replaying(w, id, session) && GoesOn(w, id, steps)
    ensures Replaying(Run(w, steps), id, session)
    decreases |steps|
  {
    hide Next, Invariant, Replaying;
    if steps != [] {
      ReplayAfterStep(w, id, session, steps[0]);
      NextKeepsInvariant(w, steps[0]);
      ReplayAfterRun(Next(w, steps[0]), id, session, steps[1..]);
    }
  }

  /**
   A `refresh` that finds a live used marker for its token does not return before the session the
   token belonged to is dead, whatever rotations and revocations run between its commands.
   */
  lemma ReplayKillsSession(start: World, before: seq<Step>, id: nat, token: Token, session: SessionId,
                           first: Step, steps: seq<Step>, last: Step)
    requires Initial(start)
    requires var w := Run(start, before);
             && id in w.calls && w.calls[id] == ReplayGet(token) && Get(w.redis.used, token, w.now) == Some(session)
             && Returns(w, id, first, steps, last)
    ensures Dead(Returned(Run(start, before), first, steps, last), session)
  {
    hide Invariant, MembersCreated, Run;
    var w := Run(start, before);
    InitialInvariant(start);
    InitialMembers(start);
    RunKeepsInvariant(start, before);
    RunKeepsMembers(start, before);
    ReplayStarts(w, id, token, session, first);
    NextKeepsInvariant(w, first);
    var w1 := Next(w, first);
    ReplayAfterRun(w1, id, session, steps);
    RunKeepsInvariant(w1, steps);
    ReplayEnds(Run(w1, steps), id, session, last);
  }

  lemma ReplayStarts(w: World, id: nat, token: Token, session: SessionId, first: Step)
    requires MembersCreated(w) && id in w.calls && w.calls[id] == ReplayGet(token)
    requires Get(w.redis.used, token, w.now) == Some(session) && first.Advance? && first.call == id
    ensures Replaying(Next(w, first), id, session)
  {
  }

  lemma ReplayEnds(w: World, id: nat, session: SessionId, last: Step)
    requires Invariant(w) && Replaying(w, id, session)
    requires last.Advance? && last.call == id && id !in Next(w, last).calls
    ensures Dead(Next(w, last), session)
  {
    hide Perform;
    ReplayAdvances(w, id, session, last.access, last.refresh, last.pick);
  }

  // ----- A logout_all that misses a session -----

  /** A sweep over a set that is not there returns at once. */
  lemma EmptySweep(w: World, id: nat, user: UserId) returns (steps: seq<Step>)
    requires id in w.calls && w.calls[id] == SweepMembers(user) && Get(w.redis.members, user, w.now).None?
    ensures Run(w, steps) ==
            w.(calls := w.calls - {id}, redis := w.redis.(members := w.redis.members - {user}))
  {
    RunTwo(w, Advance(id, 0, 0, 0), Advance(id, 0, 0, 0));
    steps := [Advance(id, 0, 0, 0), Advance(id, 0, 0, 0)];
  }

  /** The store after the two logins of the run below: the second session is live, and in no set. */
  lemma SecondLoginUnindexed(redis: Redis, now: nat, first: Record, second: Record)
    requires redis == Service.Stored(EMPTY, now, first)
    requires first.user == second.user && first.session != second.session && first.access != second.access
    ensures var later := now + SESSION_TTL;
            var after := Service.StoredSlowly(redis, later - 1, 1, second);
            && Get(after.members, second.user, later).None?
            && Get(after.sessions, second.session, later) == Some(second)
            && Get(after.access, second.access, later) == Some(second.session)
  {
  }

  /**
   From an empty store: a login, a second one of the same user that starts one second before the
   user's session set expires and takes that second, and a `logout_all` with the second session's
   token. The call has returned, and the session is still valid.
   */
  lemma LogoutAllMisses(start: World, user: UserId) returns (steps: seq<Step>)
    requires Initial(start) && user in start.users && start.users[user].active
    ensures var w := Run(start, steps);
            && w.calls == map[] && AccessValidates(w, 2, 1)
            && UserIsActive(w.users, w.redis.sessions[1].value) && w.redis.sessions[1].value.user == user
  {
    hide Run, Next, Service.StoredSlowly, Service.Stored;
    var first, second := LoginRecord(start, user, 0, 0, 1), LoginRecord(start, user, 1, 2, 3);
    steps := LoginStores(start, 0, user, 0, 0, 1, 0);
    StoredAtOnce(start.redis, start.now, first);
    var w1 := Run(start, steps);
    RunThen(start, steps, Tick(SESSION_TTL - 1));
    Ticks(w1, SESSION_TTL - 1);
    steps := steps + [Tick(SESSION_TTL - 1)];
    var w2 := Run(start, steps);
    var login := LoginStores(w2, 0, user, 1, 2, 3, 1);
    RunAppend(start, steps, login);
    steps := steps + login;
    var w3 := Run(start, steps);
    SecondLoginUnindexed(w1.redis, start.now, first, second);
    assert AccessValidates(w3, 2, 1);
    var request := MissedLogout(w3, 0, 2, 1);
    RunAppend(start, steps, request);
    steps := steps + request;
  }

  lemma StoredAtOnce(redis: Redis, now: nat, rec: Record)
    ensures Service.Stored(redis, now, rec) == Service.StoredSlowly(redis, now, 0, rec)
  {
  }

  /** A `logout_all` with a token of a user without a set ends, and the token still gives access. */
  lemma MissedLogout(w: World, id: nat, token: Token, session: SessionId) returns (steps: seq<Step>)
    requires id !in w.calls && AccessValidates(w, token, session)
    requires Get(w.redis.members, w.redis.sessions[session].value.user, w.now).None?
    ensures var w' := Run(w, steps);
            && w'.now == w.now && w'.users == w.users && w'.calls == w.calls
            && AccessValidates(w', token, session) && w'.redis.sessions == w.redis.sessions
  {
    hide Run;
    var user := w.redis.sessions[session].value.user;
    steps := LogoutReads(w, id, token, true);
    var sweep := EmptySweep(Run(w, steps), id, user);
    RunAppend(w, steps, sweep);
    steps := steps + sweep;
    assert w.calls[id := SweepMembers(user)] - {id} == w.calls;
  }

  /** The first login, and a `logout_all` that has read the set. */
  lemma LoginAndRead(start: World, user: UserId) returns (steps: seq<Step>)
    requires Initial(start) && user in start.users && start.users[user].active
    ensures var w, first := Run(start, steps), LoginRecord(start, user, 0, 0, 1);
            && w.now == start.now && w.users == start.users && w.calls == map[1 := SweepNext(user, {0})]
            && w.redis == Service.StoredSlowly(EMPTY, start.now, 0, first)
            && w.log.issued == {0, 1} && w.log.origins.Keys == {0}
  {
    hide Run, Next, Service.StoredSlowly;
    steps := LoginStores(start, 0, user, 0, 0, 1, 0);
    var w := Run(start, steps);
    OneLogin(start.now, LoginRecord(start, user, 0, 0, 1));
    assert AccessValidates(w, 0, 0);
    var request := LogoutReads(w, 1, 0, true);
    RunAppend(start, steps, request);
    steps := steps + request;
    SetIsRead(Run(start, steps), 1, user);
    RunThen(start, steps, Advance(1, 0, 0, 0));
    steps := steps + [Advance(1, 0, 0, 0)];
  }

  /** The end of that sweep, run alone after a second login. */
  lemma SweepErases(w: World, user: UserId, first: Record, second: Record) returns (steps: seq<Step>)
    requires Invariant(w) && w.calls == map[1 := SweepNext(user, {0})] && first.session == 0 && second.session == 1
    requires first.access != second.access && AccessValidates(w, second.access, 1)
    requires Load(w, 0) == Some(first) && Load(w, 1) == Some(second)
    ensures var w' := Run(w, steps);
            && w'.now == w.now && w'.users == w.users && w'.calls == map[]
            && user !in w'.redis.members
            && AccessValidates(w', second.access, 1) && w'.redis.sessions[1].value == second
  {
    hide Run, Next, Invariant;
    steps := SweepOneAlone(w, 1, user, {0}, 0);
    var w1 := Run(w, steps);
    assert Load(w1, 1) == Load(w, 1);
    SweepReturns(w1, 1, user);
    RunThen(w, steps, Advance(1, 0, 0, 0));
    steps := steps + [Advance(1, 0, 0, 0)];
  }

  /**
   The same without any time passing: a login, a `logout_all` that reads the set, a second login of
   the user, the end of that sweep, whose last DEL removes the set that now names the second session,
   and a `logout_all` with the second session's token, which finds no set. Both have returned, and the
   session is still valid.
   */
  lemma LogoutAllErasesLogin(start: World, user: UserId) returns (steps: seq<Step>)
    requires Initial(start) && user in start.users && start.users[user].active
    ensures var w := Run(start, steps);
            && w.now == start.now && w.calls == map[] && AccessValidates(w, 2, 1)
            && UserIsActive(w.users, w.redis.sessions[1].value) && w.redis.sessions[1].value.user == user
  {
    hide Run, Next, Invariant, Service.StoredSlowly;
    var first, second := LoginRecord(start, user, 0, 0, 1), LoginRecord(start, user, 1, 2, 3);
    steps := LoginAndRead(start, user);
    var login := LoginStores(Run(start, steps), 0, user, 1, 2, 3, 0);
    RunAppend(start, steps, login);
    steps := steps + login;
    TwoLogins(start.now, first, second);
    InitialInvariant(start);
    RunKeepsInvariant(start, steps);
    var w := Run(start, steps);
    var sweep := SweepErases(w, user, first, second);
    RunAppend(start, steps, sweep);
    steps := steps + sweep;
    var again := MissedLogout(Run(start, steps), 0, 2, 1);
    RunAppend(start, steps, again);
    steps := steps + again;
  }

  lemma SetIsRead(w: World, id: nat, user: UserId)
    requires id in w.calls && w.calls[id] == SweepMembers(user) && Get(w.redis.members, user, w.now).Some?
    ensures Next(w, Advance(id, 0, 0, 0)) ==
            w.(calls := w.calls[id := SweepNext(user, Get(w.redis.members, user, w.now).value)])
  {
  }

  lemma SweepReturns(w: World, id: nat, user: UserId)
    requires id in w.calls && w.calls[id] == SweepNext(user, {})
    ensures Next(w, Advance(id, 0, 0, 0)) ==
            w.(calls := w.calls - {id}, redis := w.redis.(members := w.redis.members - {user}))
  {
  }

  lemma OneLogin(now: nat, rec: Record)
    ensures var redis := Service.StoredSlowly(EMPTY, now, 0, rec);
            && Get(redis.members, rec.user, now) == Some({rec.session})
            && Get(redis.access, rec.access, now) == Some(rec.session)
            && Get(redis.sessions, rec.session, now) == Some(rec)
  {
  }

  lemma TwoLogins(now: nat, first: Record, second: Record)
    requires first.user == second.user && first.session != second.session && first.access != second.access
    ensures var redis := Service.StoredSlowly(Service.StoredSlowly(EMPTY, now, 0, first), now, 0, second);
            && Get(redis.access, second.access, now) == Some(second.session)
            && Get(redis.sessions, second.session, now) == Some(second)
            && Get(redis.sessions, first.session, now) == Some(first)
  {
  }
}
