/**
 The session service with requests run one at a time: each method issues its Redis commands in
 order at one instant, and the clock may advance by any amount between requests.
 */
module SessionService {
  import opened Options
  import opened RedisStore
  import opened SessionProtocol

  // ----- What each request does to the store -----

  function Stored(redis: Redis, now: nat, rec: Record): Redis {
    StoredSlowly(redis, now, 0, rec)
  }

  /** `_store_session` with `delay` seconds passing before its last command. */
  function StoredSlowly(redis: Redis, now: nat, delay: nat, rec: Record): Redis {
    redis.(sessions := Put(redis.sessions, rec.session, rec, now, SESSION_TTL),
           access := Put(redis.access, rec.access, rec.session, now, ACCESS_TTL),
           refresh := Put(redis.refresh, rec.refresh, rec.session, now, SESSION_TTL),
           members := Expire(AddMember(redis.members, rec.user, rec.session, now), rec.user, now + delay, SESSION_TTL))
  }

  function Revoked(redis: Redis, now: nat, rec: Record): Redis {
    var deleted := DeleteSession(redis, rec);
    deleted.(members := RemoveMember(deleted.members, rec.user, rec.session, now))
  }

  function StateForAccess(redis: Redis, now: nat, token: Token): Option<Record> {
    match Get(redis.access, token, now)
    case Some(session) =>
      (match Get(redis.sessions, session, now)
       case Some(rec) => if rec.access == token then Some(rec) else None
       case None => None)
    case None => None
  }

  function StateForRefresh(redis: Redis, now: nat, token: Token): Option<Record> {
    match Get(redis.refresh, token, now)
    case Some(session) =>
      (match Get(redis.sessions, session, now)
       case Some(rec) => if rec.refresh == token then Some(rec) else None
       case None => None)
    case None => None
  }

  /** The state a replayed token leads to through its used marker. */
  function ReplayedState(redis: Redis, now: nat, token: Token): Option<Record> {
    match Get(redis.used, token, now)
    case Some(session) => Get(redis.sessions, session, now)
    case None => None
  }

  // ----- The session index -----

  ghost predicate InIndex(redis: Redis, now: nat, session: SessionId)
    requires session in redis.sessions
  {
    var entry := redis.sessions[session];
    && entry.value.session == session
    && entry.deadline.Some? && entry.deadline.value <= now + SESSION_TTL
    && Get(redis.members, entry.value.user, now).Some?
    && session in redis.members[entry.value.user].value
    && redis.members[entry.value.user].deadline.Some?
    && entry.deadline.value <= redis.members[entry.value.user].deadline.value
  }

  /**
   Every live session is in the session set of its user, that set outlives it, and a set names no
   live session of somebody else.
   */
  ghost predicate Indexed(redis: Redis, now: nat) {
    && (forall session | session in redis.sessions && Live(redis.sessions[session], now) ::
          InIndex(redis, now, session))
    && (forall user, session | user in redis.members && session in redis.members[user].value
          && session in redis.sessions && Live(redis.sessions[session], now) ::
                redis.sessions[session].value.user == user)
  }

  /** A session id just generated. */
  ghost predicate Unused(redis: Redis, session: SessionId) {
    session !in redis.sessions && forall user | user in redis.members :: session !in redis.members[user].value
  }

  lemma IndexedLater(redis: Redis, now: nat, seconds: nat)
    requires Indexed(redis, now)
    ensures Indexed(redis, now + seconds)
  {
    forall session | session in redis.sessions && Live(redis.sessions[session], now + seconds)
      ensures InIndex(redis, now + seconds, session)
    {
      assert InIndex(redis, now, session);
    }
  }

  /**
   If time passes between the SADD and the EXPIRE of a login, the index survives exactly when the
   user's session set does not run out in between.
   */
  lemma StoreIndexed(redis: Redis, now: nat, delay: nat, rec: Record)
    requires Indexed(redis, now) && Unused(redis, rec.session) && delay < SESSION_TTL
    ensures Indexed(StoredSlowly(redis, now, delay, rec), now + delay) <==>
            var members := Get(redis.members, rec.user, now);
            !(members.Some? && redis.members[rec.user].deadline.Some?
                && redis.members[rec.user].deadline.value <= now + delay)
  {
    var after := StoredSlowly(redis, now, delay, rec);
    var later := now + delay;
    var added := AddMember(redis.members, rec.user, rec.session, now);
    assert after.members == Expire(added, rec.user, later, SESSION_TTL);
    if Live(added[rec.user], later) {
      forall session | session in after.sessions && Live(after.sessions[session], later)
        ensures InIndex(after, later, session)
      {
        if session != rec.session {
          assert InIndex(redis, now, session);
        }
      }
    } else {
      assert !InIndex(after, later, rec.session);
    }
  }

  lemma RotateIndexed(redis: Redis, now: nat, presented: Token, next: Record)
    requires Indexed(redis, now)
    requires CanRotate(redis, now, presented, next.session) ==> redis.sessions[next.session].value.user == next.user
    ensures Indexed(Rotate(redis, now, presented, next), now)
  {
    var after := Rotate(redis, now, presented, next);
    if CanRotate(redis, now, presented, next.session) {
      forall session | session in after.sessions && Live(after.sessions[session], now)
        ensures InIndex(after, now, session)
      {
        assert InIndex(redis, now, session);
      }
    }
  }

  lemma RevokeIndexed(redis: Redis, now: nat, rec: Record)
    requires Indexed(redis, now)
    ensures Indexed(Revoked(redis, now, rec), now)
  {
    var after := Revoked(redis, now, rec);
    forall session | session in after.sessions && Live(after.sessions[session], now)
      ensures InIndex(after, now, session)
    {
      assert InIndex(redis, now, session);
      assert session != rec.session;
    }
  }

  lemma IndexNamesSessions(redis: Redis, now: nat, user: UserId)
    requires Indexed(redis, now)
    ensures forall s | Get(redis.sessions, s, now).Some? :: redis.sessions[s].value.session == s
    ensures var found := Get(redis.members, user, now);
            forall s | Get(redis.sessions, s, now).Some? :: redis.sessions[s].value.user == user
                <==> found.Some? && s in found.value
  {
    forall s | Get(redis.sessions, s, now).Some? ensures InIndex(redis, now, s) {
    }
  }

  lemma SessionsNamed(redis: Redis, now: nat)
    requires Indexed(redis, now)
    ensures forall s | Get(redis.sessions, s, now).Some? :: redis.sessions[s].value.session == s
  {
    forall s | Get(redis.sessions, s, now).Some? ensures InIndex(redis, now, s) {
    }
  }

  /** A user without a live session needs no session set. */
  lemma ForgetIndexed(redis: Redis, now: nat, user: UserId)
    requires Indexed(redis, now)
    requires forall s | Get(redis.sessions, s, now).Some? :: redis.sessions[s].value.user != user
    ensures Indexed(redis.(members := redis.members - {user}), now)
  {
    var after := redis.(members := redis.members - {user});
    forall s | s in after.sessions && Live(after.sessions[s], now) ensures InIndex(after, now, s) {
      assert InIndex(redis, now, s);
    }
  }

  // ----- Tokens of different sessions -----

  /** No two live sessions share a token of a kind. */
  ghost predicate TokensApart(redis: Redis, now: nat) {
    forall s, s' | Get(redis.sessions, s, now).Some? && Get(redis.sessions, s', now).Some? && s != s' ::
      && redis.sessions[s].value.access != redis.sessions[s'].value.access
      && redis.sessions[s].value.refresh != redis.sessions[s'].value.refresh
  }

  /** Tokens just generated. */
  ghost predicate NewTokens(redis: Redis, now: nat, access: Token, refresh: Token) {
    forall s | Get(redis.sessions, s, now).Some? ::
      redis.sessions[s].value.access != access && redis.sessions[s].value.refresh != refresh
  }

  lemma StoreKeepsApart(redis: Redis, now: nat, rec: Record)
    requires TokensApart(redis, now) && NewTokens(redis, now, rec.access, rec.refresh)
    ensures TokensApart(Stored(redis, now, rec), now)
  {
    hide AddMember, Expire;
  }

  lemma RotateKeepsApart(redis: Redis, now: nat, presented: Token, next: Record)
    requires TokensApart(redis, now) && NewTokens(redis, now, next.access, next.refresh)
    ensures TokensApart(Rotate(redis, now, presented, next), now)
  {
    hide AddMember, Expire;
  }

  lemma RevokeKeepsApart(redis: Redis, now: nat, rec: Record)
    requires TokensApart(redis, now)
    ensures TokensApart(Revoked(redis, now, rec), now)
  {
    hide RemoveMember;
  }

  lemma ForgetKeepsApart(redis: Redis, now: nat, user: UserId)
    requires TokensApart(redis, now)
    ensures TokensApart(redis.(members := redis.members - {user}), now)
  {
  }

  /** Revoking a session of `user` leaves what the tokens of other users lead to, and their session sets. */
  lemma RevokeSpares(redis: Redis, now: nat, user: UserId, session: SessionId)
    requires Indexed(redis, now) && TokensApart(redis, now)
    requires Get(redis.sessions, session, now).Some? && redis.sessions[session].value.user == user
    ensures OthersSpared(redis, Revoked(redis, now, redis.sessions[session].value), now, user)
  {
    assert InIndex(redis, now, session);
  }

  ghost predicate OthersSpared(before: Redis, after: Redis, now: nat, user: UserId) {
    && (forall t | StateForAccess(before, now, t).Some? && StateForAccess(before, now, t).value.user != user ::
          StateForAccess(after, now, t) == StateForAccess(before, now, t))
    && (forall t | StateForRefresh(before, now, t).Some? && StateForRefresh(before, now, t).value.user != user ::
          StateForRefresh(after, now, t) == StateForRefresh(before, now, t))
    && (forall u | u != user :: Get(after.members, u, now) == Get(before.members, u, now))
  }

  lemma SparedTwice(a: Redis, b: Redis, c: Redis, now: nat, user: UserId)
    requires OthersSpared(a, b, now, user) && OthersSpared(b, c, now, user)
    ensures OthersSpared(a, c, now, user)
  {
  }

  lemma ForgetSpares(redis: Redis, now: nat, user: UserId)
    ensures OthersSpared(redis, redis, now, user)
    ensures OthersSpared(redis, redis.(members := redis.members - {user}), now, user)
  {
  }

  // ----- How long tokens last, and what a revocation ends -----

  /**
   With no further request the record answers to its access token until ACCESS_TTL seconds have
   passed, and to its refresh token until SESSION_TTL seconds have.
   */
  ghost predicate Serves(redis: Redis, now: nat, rec: Record) {
    forall t | now <= t ::
      && StateForAccess(redis, t, rec.access) == (if t < now + ACCESS_TTL then Some(rec) else None)
      && StateForRefresh(redis, t, rec.refresh) == (if t < now + SESSION_TTL then Some(rec) else None)
  }

  /** Every session but one is as it was: its record, and where its tokens lead. */
  ghost predicate OthersKept(before: Redis, after: Redis, now: nat, session: SessionId) {
    && (forall s | s != session && s in before.sessions ::
          s in after.sessions && after.sessions[s] == before.sessions[s])
    && (forall token | StateForAccess(before, now, token).Some?
          && StateForAccess(before, now, token).value.session != session ::
          token in after.access && after.access[token] == before.access[token])
    && (forall token | StateForRefresh(before, now, token).Some?
          && StateForRefresh(before, now, token).value.session != session ::
          token in after.refresh && after.refresh[token] == before.refresh[token])
  }

  lemma StoredServes(redis: Redis, now: nat, delay: nat, rec: Record)
    requires NewTokens(redis, now, rec.access, rec.refresh)
    ensures Serves(StoredSlowly(redis, now, delay, rec), now, rec)
    ensures OthersKept(redis, StoredSlowly(redis, now, delay, rec), now, rec.session)
  {
    hide AddMember, Expire;
  }

  /**
   The new tokens serve the new record; the old ones lead to nothing, and the old refresh token is
   marked as used, so that a replay finds the session, for SESSION_TTL seconds.
   */
  lemma RotatedServes(redis: Redis, now: nat, presented: Token, next: Record)
    requires CanRotate(redis, now, presented, next.session) && NewTokens(redis, now, next.access, next.refresh)
    ensures var after := Rotate(redis, now, presented, next);
            && Serves(after, now, next)
            && (forall t | now <= t ::
                  && StateForAccess(after, t, redis.sessions[next.session].value.access) == None
                  && StateForRefresh(after, t, presented) == None
                  && Get(after.used, presented, t) == (if t < now + SESSION_TTL then Some(next.session) else None))
  {
    hide AddMember, Expire;
  }

  lemma RotateKeepsOthers(redis: Redis, now: nat, presented: Token, next: Record)
    requires Indexed(redis, now) && TokensApart(redis, now) && NewTokens(redis, now, next.access, next.refresh)
    requires CanRotate(redis, now, presented, next.session)
    ensures var after := Rotate(redis, now, presented, next);
            && OthersKept(redis, after, now, next.session)
            && (forall token | token != presented && token in redis.used ::
                  token in after.used && after.used[token] == redis.used[token])
  {
    hide AddMember, Expire, Indexed, InIndex, TokensApart, NewTokens, StateForAccess, StateForRefresh;
    forall token | StateForAccess(redis, now, token).Some?
        && StateForAccess(redis, now, token).value.session != next.session
      ensures token != next.access && token != redis.sessions[next.session].value.access && token in redis.access
    {
      OtherTokens(redis, now, token, next);
    }
    forall token | StateForRefresh(redis, now, token).Some?
        && StateForRefresh(redis, now, token).value.session != next.session
      ensures token != next.refresh && token != presented && token in redis.refresh
    {
      OtherTokens(redis, now, token, next);
    }
  }

  /** The tokens of another session are neither the new ones nor those of the session being rotated. */
  lemma OtherTokens(redis: Redis, now: nat, token: Token, next: Record)
    requires Indexed(redis, now) && TokensApart(redis, now) && NewTokens(redis, now, next.access, next.refresh)
    requires Get(redis.sessions, next.session, now).Some?
    ensures StateForAccess(redis, now, token).Some? && StateForAccess(redis, now, token).value.session != next.session
        ==> token in redis.access && token != next.access && token != redis.sessions[next.session].value.access
    ensures StateForRefresh(redis, now, token).Some? && StateForRefresh(redis, now, token).value.session != next.session
        ==> token in redis.refresh && token != next.refresh && token != redis.sessions[next.session].value.refresh
  {
    hide Indexed, InIndex;
    SessionsNamed(redis, now);
  }

  /** From now on nothing is left of the session of `rec`, and every other session is as it was. */
  ghost predicate EndsOnly(before: Redis, after: Redis, now: nat, rec: Record) {
    && rec.session !in after.sessions && rec.access !in after.access && rec.refresh !in after.refresh
    && (forall user, s ::
          InSet(after, now, user, s) <==> InSet(before, now, user, s) && !(user == rec.user && s == rec.session))
    && OthersKept(before, after, now, rec.session) && after.used == before.used
  }

  ghost predicate InSet(redis: Redis, now: nat, user: UserId, session: SessionId) {
    Get(redis.members, user, now).Some? && session in Get(redis.members, user, now).value
  }

  lemma RemovedFromSet(redis: Redis, now: nat, owner: UserId, session: SessionId, user: UserId, s: SessionId)
    ensures InSet(redis.(members := RemoveMember(redis.members, owner, session, now)), now, user, s)
            <==> InSet(redis, now, user, s) && !(user == owner && s == session)
  {
    if InSet(redis, now, owner, s) && s != session {
      assert s in Get(redis.members, owner, now).value - {session};
    }
  }

  lemma DeleteKeepsOthers(redis: Redis, now: nat, rec: Record)
    requires Indexed(redis, now) && TokensApart(redis, now) && Get(redis.sessions, rec.session, now) == Some(rec)
    ensures OthersKept(redis, DeleteSession(redis, rec), now, rec.session)
  {
    hide Indexed, InIndex;
    SessionsNamed(redis, now);
  }

  lemma RevokedEndsOnly(redis: Redis, now: nat, rec: Record)
    requires Indexed(redis, now) && TokensApart(redis, now) && Get(redis.sessions, rec.session, now) == Some(rec)
    ensures EndsOnly(redis, Revoked(redis, now, rec), now, rec)
  {
    hide Indexed, InIndex, TokensApart, InSet, RemoveMember;
    DeleteKeepsOthers(redis, now, rec);
    forall user, s
      ensures InSet(Revoked(redis, now, rec), now, user, s)
          <==> InSet(redis, now, user, s) && !(user == rec.user && s == rec.session)
    {
      RemovedFromSet(DeleteSession(redis, rec), now, rec.user, rec.session, user, s);
      SameSets(redis, DeleteSession(redis, rec), now, user, s);
    }
  }

  lemma SameSets(a: Redis, b: Redis, now: nat, user: UserId, session: SessionId)
    requires a.members == b.members
    ensures InSet(a, now, user, session) <==> InSet(b, now, user, session)
  {
  }

  // ----- What an access token is good for -----

  /** The session is live, the token is its current access token, and its user is active at its version. */
  ghost predicate Admits(redis: Redis, now: nat, users: map<UserId, User>, token: Token, session: SessionId) {
    && Get(redis.access, token, now) == Some(session)
    && Get(redis.sessions, session, now).Some?
    && redis.sessions[session].value.access == token
    && UserIsActive(users, redis.sessions[session].value)
  }

  lemma AdmittedIsNamed(redis: Redis, now: nat, token: Token)
    requires Indexed(redis, now) && StateForAccess(redis, now, token).Some?
    ensures var rec := StateForAccess(redis, now, token).value;
            Get(redis.access, token, now) == Some(rec.session) && Get(redis.sessions, rec.session, now) == Some(rec)
  {
    assert InIndex(redis, now, Get(redis.access, token, now).value);
  }

  // ----- The service -----

  class SessionService {
    var now: nat
    var redis: Redis
    var users: map<UserId, User>

    ghost predicate Valid() reads this {
      Indexed(redis, now) && TokensApart(redis, now)
    }

    constructor (now: nat, users: map<UserId, User>)
      ensures Valid() && this.now == now && this.users == users && redis == EMPTY
    {
      this.now := now;
      this.users := users;
      redis := EMPTY;
    }

    method WaitFor(seconds: nat)
      requires Valid()
      modifies this`now
      ensures Valid() && now == old(now) + seconds
    {
      IndexedLater(redis, now, seconds);
      now := now + seconds;
    }

    /** `_store_session`; the session id and the tokens are new random values. */
    method StoreSession(session: SessionId, user: UserId, version: nat, access: Token, refresh: Token)
      requires Valid() && Unused(redis, session) && NewTokens(redis, now, access, refresh)
      modifies this`redis
      ensures Valid()
      ensures redis == Stored(old(redis), now, Record(session, user, version, access, refresh))
      ensures Serves(redis, now, Record(session, user, version, access, refresh))
      ensures OthersKept(old(redis), redis, now, session) && redis.used == old(redis).used
    {
      var rec := Record(session, user, version, access, refresh);
      StoreIndexed(redis, now, 0, rec);
      StoreKeepsApart(redis, now, rec);
      StoredServes(redis, now, 0, rec);
      redis := redis.(sessions := Put(redis.sessions, session, rec, now, SESSION_TTL));
      redis := redis.(access := Put(redis.access, access, session, now, ACCESS_TTL));
      redis := redis.(refresh := Put(redis.refresh, refresh, session, now, SESSION_TTL));
      redis := redis.(members := AddMember(redis.members, user, session, now));
      redis := redis.(members := Expire(redis.members, user, now, SESSION_TTL));
    }

    /** `_revoke_state`. */
    method RevokeState(rec: Record)
      requires Valid()
      modifies this`redis
      ensures Valid() && redis == Revoked(old(redis), now, rec)
      ensures Get(redis.sessions, rec.session, now).None?
    {
      RevokeIndexed(redis, now, rec);
      RevokeKeepsApart(redis, now, rec);
      redis := DeleteSession(redis, rec);
      redis := redis.(members := RemoveMember(redis.members, rec.user, rec.session, now));
    }

    /**
     `refresh`: rotate, or revoke the session of an inactive user or of a replayed token. The new
     tokens serve the session for their lifetimes and the old ones lead to nothing.
     */
    method Refresh(token: Token, access: Token, next: Token) returns (rotated: bool)
      requires Valid() && access != next && NewTokens(redis, now, access, next)
      modifies this`redis
      ensures Valid()
      ensures var state := StateForRefresh(old(redis), now, token);
              var replayed := ReplayedState(old(redis), now, token);
              if state.Some? && UserIsActive(users, state.value) then
                rotated && redis == Rotate(old(redis), now, token, state.value.(access := access, refresh := next))
              else
                && !rotated
                && (if state.Some? then EndsOnly(old(redis), redis, now, state.value)
                    else if replayed.Some? then EndsOnly(old(redis), redis, now, replayed.value)
                    else redis == old(redis))
      ensures rotated ==>
                var rec := StateForRefresh(old(redis), now, token).value;
                && Serves(redis, now, rec.(access := access, refresh := next))
                && OthersKept(old(redis), redis, now, rec.session)
                && (forall t | now <= t ::
                      && StateForAccess(redis, t, rec.access) == None && StateForRefresh(redis, t, token) == None
                      && Get(redis.used, token, t) == (if t < now + SESSION_TTL then Some(rec.session) else None))
    {
      var state := StateForRefresh(redis, now, token);
      if state.None? {
        var used := Get(redis.used, token, now);
        if used.Some? {
          var reused := Get(redis.sessions, used.value, now);
          if reused.Some? {
            assert InIndex(redis, now, used.value);
            RevokedEndsOnly(redis, now, reused.value);
            RevokeState(reused.value);
          }
        }
        return false;
      }
      var rec := state.value;
      assert InIndex(redis, now, Get(redis.refresh, token, now).value);
      if !UserIsActive(users, rec) {
        RevokedEndsOnly(redis, now, rec);
        RevokeState(rec);
        return false;
      }
      var nextState := rec.(access := access, refresh := next);
      RotateIndexed(redis, now, token, nextState);
      RotateKeepsApart(redis, now, token, nextState);
      RotatedServes(redis, now, token, nextState);
      RotateKeepsOthers(redis, now, token, nextState);
      rotated := CanRotate(redis, now, rec.refresh, rec.session);
      redis := Rotate(redis, now, rec.refresh, nextState);
    }

    /** `current_session`: a session exactly when the token admits to it. */
    method CurrentSession(token: Token) returns (session: Option<SessionId>)
      requires Valid()
      ensures forall s: SessionId :: session == Some(s) <==> Admits(redis, now, users, token, s)
    {
      var state := StateForAccess(redis, now, token);
      if state.None? {
        return None;
      }
      AdmittedIsNamed(redis, now, token);
      if !UserIsActive(users, state.value) {
        return None;
      }
      return Some(state.value.session);
    }

    method Logout(token: Token) returns (known: bool)
      requires Valid()
      modifies this`redis
      ensures Valid() && known == StateForAccess(old(redis), now, token).Some?
      ensures if known then EndsOnly(old(redis), redis, now, StateForAccess(old(redis), now, token).value)
              else redis == old(redis)
    {
      var state := StateForAccess(redis, now, token);
      if state.None? {
        return false;
      }
      AdmittedIsNamed(redis, now, token);
      RevokedEndsOnly(redis, now, state.value);
      RevokeState(state.value);
      return true;
    }

    /**
     `logout_all`: afterwards no session of the user is left, and of other users every session, what
     every token leads to and every session set is as before.
     */
    method LogoutAll(token: Token) returns (known: bool)
      requires Valid()
      modifies this`redis
      ensures Valid() && known == StateForAccess(old(redis), now, token).Some?
      ensures !known ==> redis == old(redis)
      ensures known ==>
                var user := StateForAccess(old(redis), now, token).value.user;
                && (forall s | Get(redis.sessions, s, now).Some? :: redis.sessions[s].value.user != user)
                && (forall s | Get(old(redis).sessions, s, now).Some? && old(redis).sessions[s].value.user != user ::
                      s in redis.sessions && redis.sessions[s] == old(redis).sessions[s])
                && (forall t | StateForAccess(redis, now, t).Some? :: StateForAccess(redis, now, t).value.user != user)
                && redis.used == old(redis).used
                && OthersSpared(old(redis), redis, now, user)
    {
      hide Indexed, InIndex, TokensApart, OthersSpared;
      var state := StateForAccess(redis, now, token);
      if state.None? {
        return false;
      }
      var user := state.value.user;
      var found := Get(redis.members, user, now);
      var todo := if found.Some? then found.value else {};
      ghost var before := redis;
      IndexNamesSessions(redis, now, user);
      ForgetSpares(redis, now, user);
      while todo != {}
        invariant Valid() && redis.used == before.used && OthersSpared(before, redis, now, user)
        invariant forall s | Get(redis.sessions, s, now).Some? :: redis.sessions[s].value.user == user <==> s in todo
        invariant forall s | s in redis.sessions :: s in before.sessions && redis.sessions[s] == before.sessions[s]
        invariant forall s | Get(before.sessions, s, now).Some? && before.sessions[s].value.user != user ::
            s in redis.sessions
        decreases todo
      {
        var session :| session in todo;
        var stored := Get(redis.sessions, session, now);
        if stored.Some? {
          ghost var middle := redis;
          RevokeSpares(redis, now, user, session);
          RevokeState(stored.value);
          SparedTwice(before, middle, redis, now, user);
        }
        todo := todo - {session};
      }
      ForgetIndexed(redis, now, user);
      ForgetSpares(redis, now, user);
      ForgetKeepsApart(redis, now, user);
      SparedTwice(before, redis, redis.(members := redis.members - {user}), now, user);
      redis := redis.(members := redis.members - {user});
      known := true;
    }
  }
}
