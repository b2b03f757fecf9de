/** What an account token, a suspended user and a token out of use do to sessions, whatever runs beside. */
module SessionTokens {
  import opened Options
  import opened RedisStore
  import opened SessionProtocol
  import opened SessionRaces

  // ----- Account tokens and logins -----

  /**
   A password reset or an e-mail verification ends every session its user has at that moment: none is
   validated again, and each is renewed at most by refreshes that had passed the user check.
   */
  lemma ConsumptionEndsSessions(start: World, before: seq<Step>, user: UserId, activates: bool, after: seq<Step>,
                                session: SessionId)
    requires Initial(start)
    requires var w := Run(start, before); session in w.log.origins && w.log.origins[session].user == user
    ensures var w := Run(start, before);
            var reset := Next(w, ConsumeAccountToken(user, activates));
            var w' := Run(reset, after);
            && w'.log.validations[session] == w.log.validations[session]
            && w'.log.renewals[session] <= w.log.renewals[session] + |AboutToRotate(w, session)|
            && user in w.users && reset.users[user].active == (w.users[user].active || activates)
  {
    hide Invariant;
    var w := Run(start, before);
    var reset := Next(w, ConsumeAccountToken(user, activates));
    InitialInvariant(start);
    RunKeepsInvariant(start, before);
    RunKeepsOwners(start, before);
    NextKeepsInvariant(w, ConsumeAccountToken(user, activates));
    OutdatedStays(reset, after, session);
    BarredAfterRun(reset, after, session);
    assert AboutToRotate(reset, session) == AboutToRotate(w, session);
  }

  /** A session is new only by the login of a user who is active, at that user's version. */
  lemma OriginsAfterStep(w: World, step: Step, session: SessionId)
    requires session in Next(w, step).log.origins && session !in w.log.origins
    ensures var origin := Next(w, step).log.origins[session];
            origin.user in w.users && w.users[origin.user] == User(true, origin.version)
  {
    hide LeavesOthers;
    if step.Advance? && step.call in w.calls {
      PerformKeepsOrigins(w, step);
    }
  }

  lemma PerformKeepsOrigins(w: World, step: Step)
    requires step.Advance? && step.call in w.calls
    ensures Next(w, step).log.origins == w.log.origins
  {
    hide Perform;
    PerformLeavesOthers(w, step.call, step.access, step.refresh, step.pick);
  }

  /** While nothing makes an inactive user active again the user gets no new session. */
  lemma {:induction false} SuspendedNeverLogsIn(w: World, steps: seq<Step>, user: UserId, session: SessionId)
    requires user in w.users && !w.users[user].active && forall step | step in steps :: !Activates(step, user)
    requires var w' := Run(w, steps); session in w'.log.origins && w'.log.origins[session].user == user
    ensures session in w.log.origins && w.log.origins[session].user == user
    decreases |steps|
  {
    hide Next, Activates;
    if steps != [] {
      UsersAfterStep(w, steps[0]);
      SuspendedNeverLogsIn(Next(w, steps[0]), steps[1..], user, session);
      if session !in w.log.origins {
        OriginsAfterStep(w, steps[0], session);
      }
    }
  }

  // ----- Access tokens out of use -----

  /** No live session, and no login on its way, has this access token: it was replaced, revoked or never existed. */
  ghost predicate OutOfUse(w: World, token: Token) {
    && token in w.log.issued
    && (forall s | s in w.redis.sessions :: w.redis.sessions[s].value.access != token)
    && (forall id | id in w.calls && w.calls[id].StoreRecord? :: w.calls[id].rec.access != token)
  }

  /** A request with this access token that has not got past reading the session. */
  predicate Reading(call: Call, token: Token) {
    || call == CurrentGet(token) || (call.CurrentLoad? && call.token == token)
    || ((call.LogoutGet? || call.LogoutLoad?) && call.token == token)
  }

  lemma OutOfUseAfterPerform(w: World, id: nat, access: Token, refresh: Token, pick: SessionId, token: Token)
    requires Invariant(w) && OutOfUse(w, token) && id in w.calls
    ensures OutOfUse(Perform(w, id, access, refresh, pick), token)
  {
    if Storing(w.calls[id]) {
      StoringKeepsOutOfUse(w, id, token);
    } else if !w.calls[id].RefreshRotate? {
      OtherPerformIsQuiet(w, id, access, refresh, pick);
      QuietKeepsOutOfUse(w, Perform(w, id, access, refresh, pick), id, token);
    } else {
      RotatingKeepsOutOfUse(w, id, w.calls[id].rec, access, refresh, token);
    }
  }

  lemma StoringKeepsOutOfUse(w: World, id: nat, token: Token)
    requires OutOfUse(w, token) && id in w.calls && Storing(w.calls[id])
    ensures OutOfUse(PerformStore(w, id, w.calls[id]), token)
  {
    hide AddMember, Expire;
  }

  lemma RotatingKeepsOutOfUse(w: World, id: nat, rec: Record, access: Token, refresh: Token, token: Token)
    requires OutOfUse(w, token) && id in w.calls && w.calls[id] == RefreshRotate(rec)
    ensures OutOfUse(PerformRotate(w, id, rec, access, refresh), token)
  {
    hide AddMember, Expire;
  }

  lemma QuietKeepsOutOfUse(w: World, w': World, id: nat, token: Token)
    requires OutOfUse(w, token) && Quiet(w, w', id)
    ensures OutOfUse(w', token)
  {
    forall k | k in w'.calls && w'.calls[k].StoreRecord? ensures w'.calls[k].rec.access != token {
      if k == id {
        assert StillStoring(w'.calls[k]);
      }
    }
  }

  lemma OutOfUseAfterStep(w: World, step: Step, token: Token)
    requires Invariant(w) && OutOfUse(w, token)
    ensures OutOfUse(Next(w, step), token)
  {
    hide Invariant, Perform;
    if step.Advance? {
      if step.call in w.calls {
        OutOfUseAfterPerform(w, step.call, step.access, step.refresh, step.pick, token);
      }
    }
  }

  lemma ReadingAfterPerform(w: World, id: nat, access: Token, refresh: Token, pick: SessionId, token: Token)
    requires OutOfUse(w, token) && id in w.calls && Reading(w.calls[id], token)
    ensures var w' := Perform(w, id, access, refresh, pick);
            w'.redis == w.redis && w'.log == w.log && (id in w'.calls ==> Reading(w'.calls[id], token))
  {
  }

  /** A step starts no other request in the place of call `id`. */
  predicate LeavesCall(step: Step, id: nat) {
    !((step.Begin? || step.Login?) && step.call == id)
  }

  lemma ReadingAfterStep(w: World, step: Step, id: nat, token: Token)
    requires OutOfUse(w, token) && LeavesCall(step, id) && (id in w.calls ==> Reading(w.calls[id], token))
    ensures id in Next(w, step).calls ==> Reading(Next(w, step).calls[id], token)
  {
    hide Perform, OutOfUse, Reading;
    if step.Advance? && step.call in w.calls {
      if step.call == id {
        ReadingAfterPerform(w, id, step.access, step.refresh, step.pick, token);
      } else if id in w.calls {
        PerformLeavesOthers(w, step.call, step.access, step.refresh, step.pick);
      } else {
        PerformStartsNoCall(w, step.call, step.access, step.refresh, step.pick, id);
      }
    }
  }

  lemma PerformStartsNoCall(w: World, id: nat, access: Token, refresh: Token, pick: SessionId, other: nat)
    requires id in w.calls && other !in w.calls
    ensures other !in Perform(w, id, access, refresh, pick).calls
  {
    hide Get, Put, AddMember, RemoveMember, Expire, CanRotate, Rotate, DeleteSession, UserIsActive;
  }

  lemma {:induction false} ReadingAfterRun(w: World, steps: seq<Step>, id: nat, token: Token)
    requires Invariant(w) && OutOfUse(w, token) && (id in w.calls ==> Reading(w.calls[id], token))
    requires forall step | step in steps :: LeavesCall(step, id)
    ensures var w' := Run(w, steps); id in w'.calls ==> Reading(w'.calls[id], token)
    decreases |steps|
  {
    hide Next, Invariant, OutOfUse, Reading, LeavesCall;
    if steps != [] {
      ReadingAfterStep(w, steps[0], id, token);
      OutOfUseAfterStep(w, steps[0], token);
      NextKeepsInvariant(w, steps[0]);
      ReadingAfterRun(Next(w, steps[0]), steps[1..], id, token);
    }
  }

  /**
   A `current_session`, `logout` or `logout_all` with an access token that no live session has any more
   gets nowhere, however far it had got before: it never holds a session's record, so it neither
   validates nor revokes anything.
   */
  lemma OutOfUseIsRefused(start: World, before: seq<Step>, id: nat, token: Token, steps: seq<Step>)
    requires Initial(start)
    requires var w := Run(start, before); OutOfUse(w, token) && (id in w.calls ==> Reading(w.calls[id], token))
    requires forall step | step in steps :: LeavesCall(step, id)
    ensures var w' := Run(Run(start, before), steps); id in w'.calls ==> Reading(w'.calls[id], token)
  {
    hide Invariant, OutOfUse, Reading;
    InitialInvariant(start);
    RunKeepsInvariant(start, before);
    ReadingAfterRun(Run(start, before), steps, id, token);
  }

  // ----- A rotation and a revocation put the access token out of use -----

  /** No two live sessions, and no login on its way, share an access token. */
  ghost predicate AccessApart(w: World) {
    && (forall s, s' | s in w.redis.sessions && s' in w.redis.sessions
          && w.redis.sessions[s].value.access == w.redis.sessions[s'].value.access :: s == s')
    && (forall id, s | id in w.calls && w.calls[id].StoreRecord? && s in w.redis.sessions ::
          w.redis.sessions[s].value.access != w.calls[id].rec.access)
    && (forall id, id' | id in w.calls && w.calls[id].StoreRecord? && id' in w.calls && w.calls[id'].StoreRecord?
          && w.calls[id].rec.access == w.calls[id'].rec.access :: id == id')
  }

  lemma QuietKeepsApart(w: World, w': World, id: nat)
    requires AccessApart(w) && Quiet(w, w', id)
    ensures AccessApart(w')
  {
    forall k | k in w'.calls && w'.calls[k].StoreRecord?
      ensures k in w.calls && w.calls[k].StoreRecord? && w.calls[k].rec == w'.calls[k].rec
    {
      if k == id {
        assert StillStoring(w'.calls[k]);
      }
    }
  }

  lemma StoreKeepsApart(w: World, id: nat)
    requires AccessApart(w) && id in w.calls && Storing(w.calls[id])
    ensures AccessApart(PerformStore(w, id, w.calls[id]))
  {
    hide AddMember, Expire;
  }

  lemma RotateKeepsApart(w: World, id: nat, rec: Record, access: Token, refresh: Token)
    requires RecordsWellIssued(w) && AccessApart(w) && id in w.calls && w.calls[id] == RefreshRotate(rec)
    ensures AccessApart(PerformRotate(w, id, rec, access, refresh))
  {
    hide AddMember, Expire;
  }

  lemma LoginKeepsApart(w: World, step: Step)
    requires RecordsWellIssued(w) && AccessApart(w) && step.Login?
    ensures AccessApart(Next(w, step))
  {
  }

  lemma NextKeepsApart(w: World, step: Step)
    requires Invariant(w) && AccessApart(w)
    ensures AccessApart(Next(w, step))
  {
    hide AccessApart, Perform;
    if step.Login? {
      LoginKeepsApart(w, step);
    } else if !step.Advance? {
      EnvironmentIsQuiet(w, step);
      QuietKeepsApart(w, Next(w, step), Touched(step));
    } else if step.call in w.calls {
      PerformKeepsApart(w, step.call, step.access, step.refresh, step.pick);
    }
  }

  lemma PerformKeepsApart(w: World, id: nat, access: Token, refresh: Token, pick: SessionId)
    requires Invariant(w) && AccessApart(w) && id in w.calls
    ensures AccessApart(Perform(w, id, access, refresh, pick))
  {
    hide AccessApart;
    if w.calls[id].RefreshRotate? {
      RotateKeepsApart(w, id, w.calls[id].rec, access, refresh);
    } else if Storing(w.calls[id]) {
      StoreKeepsApart(w, id);
    } else {
      OtherPerformIsQuiet(w, id, access, refresh, pick);
      QuietKeepsApart(w, Perform(w, id, access, refresh, pick), id);
    }
  }

  lemma {:induction false} RunKeepsApart(w: World, steps: seq<Step>)
    requires Invariant(w) && AccessApart(w)
    ensures AccessApart(Run(w, steps))
    decreases |steps|
  {
    hide Next, Invariant, AccessApart;
    if steps != [] {
      NextKeepsApart(w, steps[0]);
      NextKeepsInvariant(w, steps[0]);
      RunKeepsApart(Next(w, steps[0]), steps[1..]);
    }
  }

  /**
   The access token a session has when it is rotated or revoked is out of use afterwards, so that no
   request still reading with it gets anywhere.
   */
  lemma ReplacedIsOutOfUse(start: World, before: seq<Step>, step: Step, session: SessionId)
    requires Initial(start)
    requires var w := Run(start, before);
             && session in w.redis.sessions
             && (session !in Next(w, step).redis.sessions
                 || Next(w, step).redis.sessions[session].value.access != w.redis.sessions[session].value.access)
    ensures var w := Run(start, before); OutOfUse(Next(w, step), w.redis.sessions[session].value.access)
  {
    hide Invariant;
    var w := Run(start, before);
    InitialInvariant(start);
    RunKeepsInvariant(start, before);
    RunKeepsApart(start, before);
    NextReplaces(w, step, session);
  }

  lemma NextReplaces(w: World, step: Step, session: SessionId)
    requires Invariant(w) && AccessApart(w) && session in w.redis.sessions
    requires var w' := Next(w, step);
             session !in w'.redis.sessions
             || w'.redis.sessions[session].value.access != w.redis.sessions[session].value.access
    ensures OutOfUse(Next(w, step), w.redis.sessions[session].value.access)
  {
    hide Perform;
    assert WellIssued(w, w.redis.sessions[session].value);
    if step.Advance? && step.call in w.calls {
      PerformReplaces(w, step.call, step.access, step.refresh, step.pick, session);
    }
  }

  lemma PerformReplaces(w: World, id: nat, access: Token, refresh: Token, pick: SessionId, session: SessionId)
    requires Invariant(w) && AccessApart(w) && session in w.redis.sessions && id in w.calls
    requires var w' := Perform(w, id, access, refresh, pick);
             session !in w'.redis.sessions
             || w'.redis.sessions[session].value.access != w.redis.sessions[session].value.access
    ensures OutOfUse(Perform(w, id, access, refresh, pick), w.redis.sessions[session].value.access)
  {
    hide AccessApart, OutOfUse;
    assert WellIssued(w, w.redis.sessions[session].value);
    if w.calls[id].RefreshRotate? {
      RotateReplaces(w, id, w.calls[id].rec, access, refresh, session);
    } else if Storing(w.calls[id]) {
      StoreReplacesNothing(w, id, session);
    } else {
      OtherPerformIsQuiet(w, id, access, refresh, pick);
      QuietReplaces(w, Perform(w, id, access, refresh, pick), id, session);
    }
  }

  lemma StoreReplacesNothing(w: World, id: nat, session: SessionId)
    requires RecordsWellIssued(w) && PendingLogins(w) && session in w.redis.sessions && id in w.calls
        && Storing(w.calls[id])
    ensures var w' := PerformStore(w, id, w.calls[id]);
            session in w'.redis.sessions && w'.redis.sessions[session] == w.redis.sessions[session]
  {
    hide AddMember, Expire;
  }

  lemma RotateReplaces(w: World, id: nat, rec: Record, access: Token, refresh: Token, session: SessionId)
    requires RecordsWellIssued(w) && AccessApart(w) && session in w.redis.sessions
    requires id in w.calls && w.calls[id] == RefreshRotate(rec)
    requires var w' := PerformRotate(w, id, rec, access, refresh);
             session !in w'.redis.sessions
             || w'.redis.sessions[session].value.access != w.redis.sessions[session].value.access
    ensures OutOfUse(PerformRotate(w, id, rec, access, refresh), w.redis.sessions[session].value.access)
  {
    hide AddMember, Expire;
    assert WellIssued(w, w.redis.sessions[session].value);
  }

  lemma QuietReplaces(w: World, w': World, id: nat, session: SessionId)
    requires AccessApart(w) && Quiet(w, w', id) && session in w.redis.sessions && session !in w'.redis.sessions
    requires w.redis.sessions[session].value.access in w.log.issued
    ensures OutOfUse(w', w.redis.sessions[session].value.access)
  {
    forall k | k in w'.calls && w'.calls[k].StoreRecord?
      ensures k in w.calls && w.calls[k].StoreRecord? && w.calls[k].rec == w'.calls[k].rec
    {
      if k == id {
        assert StillStoring(w'.calls[k]);
      }
    }
  }

  // ----- Refresh tokens rotated before -----

  /** A refresh with this token that has read no session, or a replay on its way to revoke one. */
  predicate Presenting(call: Call, token: Token) {
    || call == RefreshGet(token) || (call.RefreshLoad? && call.token == token) || call == ReplayGet(token)
    || call.ReplayLoad?
    || ((call.RevokeDelete? || call.RevokeRemove?) && call.continuation.Finish?)
  }

  lemma PresentingAfterPerform(w: World, id: nat, access: Token, refresh: Token, pick: SessionId, token: Token)
    requires RecordTokens(w) && token in w.log.rotations && id in w.calls && Presenting(w.calls[id], token)
    ensures var w' := Perform(w, id, access, refresh, pick);
            w'.log == w.log && (id in w'.calls ==> Presenting(w'.calls[id], token))
  {
    hide DeleteSession, RemoveMember;
  }

  lemma RotationsStay(w: World, step: Step, token: Token)
    requires token in w.log.rotations
    ensures token in Next(w, step).log.rotations
  {
    hide Get, Put, AddMember, RemoveMember, Expire, CanRotate, Rotate, DeleteSession, UserIsActive;
  }

  lemma PresentingAfterStep(w: World, step: Step, id: nat, token: Token)
    requires RecordTokens(w) && token in w.log.rotations
    requires LeavesCall(step, id) && (id in w.calls ==> Presenting(w.calls[id], token))
    ensures id in Next(w, step).calls ==> Presenting(Next(w, step).calls[id], token)
  {
    hide Perform, Presenting, RecordTokens;
    if step.Advance? && step.call in w.calls {
      if step.call == id {
        PresentingAfterPerform(w, id, step.access, step.refresh, step.pick, token);
      } else if id in w.calls {
        PerformLeavesOthers(w, step.call, step.access, step.refresh, step.pick);
      } else {
        PerformStartsNoCall(w, step.call, step.access, step.refresh, step.pick, id);
      }
    }
  }

  lemma {:induction false} PresentingAfterRun(w: World, steps: seq<Step>, id: nat, token: Token)
    requires Invariant(w) && token in w.log.rotations && (id in w.calls ==> Presenting(w.calls[id], token))
    requires forall step | step in steps :: LeavesCall(step, id)
    ensures var w' := Run(w, steps); id in w'.calls ==> Presenting(w'.calls[id], token)
    decreases |steps|
  {
    hide Next, Presenting, LeavesCall, RecordTokens;
    if steps != [] {
      PresentingAfterStep(w, steps[0], id, token);
      RotationsStay(w, steps[0], token);
      NextKeepsInvariant(w, steps[0]);
      PresentingAfterRun(Next(w, steps[0]), steps[1..], id, token);
    }
  }

  /**
   A `refresh` that has not read the session when its token is rotated by another, or that starts
   later, never comes to rotate anything: it can only look for the used marker and revoke.
   */
  lemma RotatedTokenRenewsNothing(start: World, before: seq<Step>, id: nat, token: Token, steps: seq<Step>)
    requires Initial(start)
    requires var w := Run(start, before);
             token in w.log.rotations && (id in w.calls ==> Presenting(w.calls[id], token))
    requires forall step | step in steps :: LeavesCall(step, id)
    ensures var w' := Run(Run(start, before), steps); id in w'.calls ==> Presenting(w'.calls[id], token)
  {
    hide Invariant, Presenting;
    InitialInvariant(start);
    RunKeepsInvariant(start, before);
    PresentingAfterRun(Run(start, before), steps, id, token);
  }
}
