/**
 Sessions under concurrency. Every request is a call that runs one Redis command (or one database
 read) at a time; the rotation script is one command. Calls interleave in any order, may be
 abandoned anywhere, and the clock may advance between any two commands.
 */
module SessionProtocol {
  import opened Options
  import opened RedisStore
  import opened Sets

  datatype User = User(active: bool, version: nat)

  /** What a revocation returns to: nothing, or the rest of a `logout_all` sweep. */
  datatype Continuation = Finish | Sweep(user: UserId, todo: set<SessionId>)

  /** The next command of a request, with the values it has read so far. */
  datatype Call =
    | StoreRecord(rec: Record)
    | StoreAccess(rec: Record)
    | StoreRefresh(rec: Record)
    | StoreMember(rec: Record)
    | StoreDeadline(rec: Record)
    | RefreshGet(token: Token)
    | RefreshLoad(token: Token, session: SessionId)
    | RefreshCheck(rec: Record)
    | RefreshRotate(rec: Record)
    | ReplayGet(token: Token)
    | ReplayLoad(session: SessionId)
    | RevokeDelete(rec: Record, continuation: Continuation)
    | RevokeRemove(rec: Record, continuation: Continuation)
    | CurrentGet(token: Token)
    | CurrentLoad(token: Token, session: SessionId)
    | CurrentCheck(rec: Record)
    | LogoutGet(token: Token, everywhere: bool)
    | LogoutLoad(token: Token, session: SessionId, everywhere: bool)
    | SweepMembers(user: UserId)
    | SweepNext(user: UserId, todo: set<SessionId>)
    | SweepLoad(session: SessionId, user: UserId, todo: set<SessionId>)

  datatype Origin = Origin(user: UserId, version: nat)

  /**
   History: what was generated (`issued`, `origins`), which session records and refresh keys were
   ever written (`created`, `stored`), and how often each token was rotated, each session renewed
   and each session validated.
   */
  datatype Log = Log(
    issued: set<Token>,
    origins: map<SessionId, Origin>,
    created: set<SessionId>,
    stored: set<Token>,
    rotations: multiset<Token>,
    renewals: multiset<SessionId>,
    validations: multiset<SessionId>)

  datatype World = World(now: nat, redis: Redis, users: map<UserId, User>, calls: map<nat, Call>, log: Log)

  datatype Step =
    | Tick(seconds: nat)
    | Login(call: nat, user: UserId, session: SessionId, access: Token, refresh: Token)
    | Begin(call: nat, request: Call)
    | Advance(call: nat, access: Token, refresh: Token, pick: SessionId)
    | Abandon(call: nat)
    | ConsumeAccountToken(user: UserId, activates: bool)
    | SetActive(user: UserId, active: bool)

  // ----- One step -----

  predicate EntryPoint(request: Call) {
    request.RefreshGet? || request.CurrentGet? || request.LogoutGet?
  }

  predicate Storing(call: Call) {
    call.StoreRecord? || call.StoreAccess? || call.StoreRefresh? || call.StoreMember? || call.StoreDeadline?
  }

  predicate RefreshReading(call: Call) {
    call.RefreshGet? || call.RefreshLoad? || call.RefreshCheck? || call.ReplayGet? || call.ReplayLoad?
  }

  predicate CurrentReading(call: Call) {
    call.CurrentGet? || call.CurrentLoad? || call.CurrentCheck?
  }

  predicate HasRecord(call: Call) {
    || Storing(call)
    || call.RefreshCheck? || call.RefreshRotate? || call.RevokeDelete? || call.RevokeRemove? || call.CurrentCheck?
  }

  /** `session_service._user_is_active`. */
  predicate UserIsActive(users: map<UserId, User>, rec: Record) {
    rec.user in users && users[rec.user].active && users[rec.user].version == rec.version
  }

  function Become(w: World, id: nat, call: Call): World {
    w.(calls := w.calls[id := call])
  }

  function Return(w: World, id: nat): World {
    w.(calls := w.calls - {id})
  }

  function Continue(w: World, id: nat, continuation: Continuation): World {
    match continuation
    case Finish => Return(w, id)
    case Sweep(user, todo) => Become(w, id, SweepNext(user, todo))
  }

  function Load(w: World, session: SessionId): Option<Record> {
    Get(w.redis.sessions, session, w.now)
  }

  /** `_store_session`: five commands, in this order. */
  function PerformStore(w: World, id: nat, call: Call): World
    requires HasRecord(call)
  {
    var redis, rec := w.redis, call.rec;
    match call
    case StoreRecord(_) =>
      Become(w, id, StoreAccess(rec)).(
      redis := redis.(sessions := Put(redis.sessions, rec.session, rec, w.now, SESSION_TTL)),
      log := w.log.(created := w.log.created + {rec.session}))
    case StoreAccess(_) =>
      Become(w, id, StoreRefresh(rec)).(
      redis := redis.(access := Put(redis.access, rec.access, rec.session, w.now, ACCESS_TTL)))
    case StoreRefresh(_) =>
      Become(w, id, StoreMember(rec)).(
      redis := redis.(refresh := Put(redis.refresh, rec.refresh, rec.session, w.now, SESSION_TTL)),
      log := w.log.(stored := w.log.stored + {rec.refresh}))
    case StoreMember(_) =>
      Become(w, id, StoreDeadline(rec)).(
      redis := redis.(members := AddMember(redis.members, rec.user, rec.session, w.now)))
    case _ =>
      Return(w, id).(
      redis := redis.(members := Expire(redis.members, rec.user, w.now, SESSION_TTL)))
  }

  /** The reads of `refresh` up to the script, and the replay branch up to the revocation. */
  function PerformRefresh(w: World, id: nat, call: Call): World {
    match call
    case RefreshGet(token) =>
      (match Get(w.redis.refresh, token, w.now)
       case Some(session) => Become(w, id, RefreshLoad(token, session))
       case None => Become(w, id, ReplayGet(token)))
    case RefreshLoad(token, session) =>
      (match Load(w, session)
       case Some(rec) => Become(w, id, if rec.refresh == token then RefreshCheck(rec) else ReplayGet(token))
       case None => Become(w, id, ReplayGet(token)))
    case RefreshCheck(rec) =>
      Become(w, id, if UserIsActive(w.users, rec) then RefreshRotate(rec) else RevokeDelete(rec, Finish))
    case ReplayGet(token) =>
      (match Get(w.redis.used, token, w.now)
       case Some(session) => Become(w, id, ReplayLoad(session))
       case None => Return(w, id))
    case ReplayLoad(session) =>
      (match Load(w, session)
       case Some(rec) => Become(w, id, RevokeDelete(rec, Finish))
       case None => Return(w, id))
    case _ => w
  }

  /** The script, run with two new tokens. */
  function PerformRotate(w: World, id: nat, rec: Record, access: Token, refresh: Token): World {
    if access in w.log.issued || refresh in w.log.issued || access == refresh then w
    else
      var spent := w.log.issued + {access, refresh};
      if !CanRotate(w.redis, w.now, rec.refresh, rec.session) then Return(w, id).(log := w.log.(issued := spent))
      else
        Return(w, id).(
        redis := Rotate(w.redis, w.now, rec.refresh, rec.(access := access, refresh := refresh)),
        log := w.log.(issued := spent,
                      stored := w.log.stored + {refresh},
                      rotations := w.log.rotations + multiset{rec.refresh},
                      renewals := w.log.renewals + multiset{rec.session}))
  }

  /** `_revoke_state`: one DEL of three keys, then the SREM. */
  function PerformRevoke(w: World, id: nat, call: Call): World {
    match call
    case RevokeDelete(rec, continuation) =>
      Become(w, id, RevokeRemove(rec, continuation)).(redis := DeleteSession(w.redis, rec))
    case RevokeRemove(rec, continuation) =>
      Continue(w, id, continuation).(
      redis := w.redis.(members := RemoveMember(w.redis.members, rec.user, rec.session, w.now)))
    case _ => w
  }

  function PerformCurrent(w: World, id: nat, call: Call): World {
    match call
    case CurrentGet(token) =>
      (match Get(w.redis.access, token, w.now)
       case Some(session) => Become(w, id, CurrentLoad(token, session))
       case None => Return(w, id))
    case CurrentLoad(token, session) =>
      (match Load(w, session)
       case Some(rec) => if rec.access == token then Become(w, id, CurrentCheck(rec)) else Return(w, id)
       case None => Return(w, id))
    case CurrentCheck(rec) =>
      if UserIsActive(w.users, rec) then
        Return(w, id).(log := w.log.(validations := w.log.validations + multiset{rec.session}))
      else Return(w, id)
    case _ => w
  }

  /** `logout`, and `logout_all` with its sweep over the member set it read. */
  function PerformLogout(w: World, id: nat, call: Call, pick: SessionId): World {
    match call
    case LogoutGet(token, everywhere) =>
      (match Get(w.redis.access, token, w.now)
       case Some(session) => Become(w, id, LogoutLoad(token, session, everywhere))
       case None => Return(w, id))
    case LogoutLoad(token, session, everywhere) =>
      (match Load(w, session)
       case Some(rec) =>
         if rec.access != token then Return(w, id)
         else Become(w, id, if everywhere then SweepMembers(rec.user) else RevokeDelete(rec, Finish))
       case None => Return(w, id))
    case SweepMembers(user) =>
      (match Get(w.redis.members, user, w.now)
       case Some(members) => Become(w, id, SweepNext(user, members))
       case None => Become(w, id, SweepNext(user, {})))
    case SweepNext(user, todo) =>
      if todo == {} then Return(w, id).(redis := w.redis.(members := w.redis.members - {user}))
      else if pick !in todo then w
      else Become(w, id, SweepLoad(pick, user, todo - {pick}))
    case SweepLoad(session, user, todo) =>
      (match Load(w, session)
       case Some(rec) => Become(w, id, RevokeDelete(rec, Sweep(user, todo)))
       case None => Become(w, id, SweepNext(user, todo)))
    case _ => w
  }

  /** The next command of call `id`; fresh tokens and the picked session come from outside. */
  function Perform(w: World, id: nat, access: Token, refresh: Token, pick: SessionId): World
    requires id in w.calls
  {
    var call := w.calls[id];
    if call.RefreshRotate? then PerformRotate(w, id, call.rec, access, refresh)
    else if call.RevokeDelete? || call.RevokeRemove? then PerformRevoke(w, id, call)
    else if CurrentReading(call) then PerformCurrent(w, id, call)
    else if Storing(call) then PerformStore(w, id, call)
    else if RefreshReading(call) then
      PerformRefresh(w, id, call)
    else PerformLogout(w, id, call, pick)
  }

  /** A step that is not possible changes nothing. */
  function Next(w: World, step: Step): World {
    match step
    case Tick(seconds) => w.(now := w.now + seconds)
    case Login(id, user, session, access, refresh) =>
      if || id in w.calls || user !in w.users || !w.users[user].active
         || session in w.log.origins || access in w.log.issued || refresh in w.log.issued || access == refresh
      then w
      else
        var version := w.users[user].version;
        Become(w, id, StoreRecord(Record(session, user, version, access, refresh))).(
        log := w.log.(issued := w.log.issued + {access, refresh},
            origins := w.log.origins[session := Origin(user, version)]))
    case Begin(id, request) =>
      if id in w.calls || !EntryPoint(request) then w else Become(w, id, request)
    case Advance(id, access, refresh, pick) =>
      if id !in w.calls then w else Perform(w, id, access, refresh, pick)
    case Abandon(id) => Return(w, id)
    case ConsumeAccountToken(user, activates) =>
      if user !in w.users then w
      else
        var before := w.users[user];
        w.(users := w.users[user := User(before.active || activates, before.version + 1)])
    case SetActive(user, active) =>
      if user !in w.users then w else w.(users := w.users[user := w.users[user].(active := active)])
  }

  function Run(w: World, steps: seq<Step>): World
    decreases |steps|
  {
    if steps == [] then w else Run(Next(w, steps[0]), steps[1..])
  }

  ghost predicate Initial(w: World) {
    && w.redis == EMPTY
    && w.calls == map[]
    && w.log == Log({}, map[], {}, {}, multiset{}, multiset{}, multiset{})
  }

  // ----- What holds in every state -----

  ghost predicate LiveSession(w: World, session: SessionId) {
    Load(w, session).Some?
  }

  /** A login that has not yet written its refresh key. */
  ghost predicate StillStoring(call: Call) {
    call.StoreRecord? || call.StoreAccess? || call.StoreRefresh?
  }

  ghost predicate WellIssued(w: World, rec: Record) {
    && rec.session in w.log.origins
    && w.log.origins[rec.session] == Origin(rec.user, rec.version)
    && rec.access in w.log.issued && rec.refresh in w.log.issued
  }

  ghost predicate RecordsWellIssued(w: World) {
    && (forall s | s in w.redis.sessions :: WellIssued(w, w.redis.sessions[s].value)
          && w.redis.sessions[s].value.session == s && s in w.log.created)
    && (forall id | id in w.calls && HasRecord(w.calls[id]) :: WellIssued(w, w.calls[id].rec))
    && w.log.created <= w.log.origins.Keys
  }

  ghost predicate KeysIssued(w: World) {
    && w.redis.refresh.Keys <= w.log.stored <= w.log.issued
    && w.redis.used.Keys <= w.log.stored
    && (forall t | t in w.log.rotations :: t in w.log.stored)
  }

  /** The refresh token of a session record is its own, unmarked and never rotated. */
  ghost predicate RecordTokens(w: World) {
    && (forall s | s in w.redis.sessions ::
          w.redis.sessions[s].value.refresh !in w.redis.used && w.redis.sessions[s].value.refresh !in w.log.rotations)
    && (forall s, s' | s in w.redis.sessions && s' in w.redis.sessions
          && w.redis.sessions[s].value.refresh == w.redis.sessions[s'].value.refresh :: s == s')
  }

  /** A login in progress is the only one that can write its session and its refresh key. */
  ghost predicate PendingLogins(w: World) {
    && (forall id | id in w.calls && StillStoring(w.calls[id]) :: w.calls[id].rec.refresh !in w.log.stored)
    && (forall id | id in w.calls && w.calls[id].StoreRecord? :: w.calls[id].rec.session !in w.log.created)
    && (forall id, s | id in w.calls && StillStoring(w.calls[id]) && s in w.redis.sessions
          && w.redis.sessions[s].value.refresh == w.calls[id].rec.refresh ::
          s == w.calls[id].rec.session)
    && (forall id, id' | id in w.calls && id' in w.calls && StillStoring(w.calls[id]) && StillStoring(w.calls[id'])
          && id != id' ::
          w.calls[id].rec.refresh != w.calls[id'].rec.refresh && w.calls[id].rec.session != w.calls[id'].rec.session)
  }

  ghost predicate RotatedOnce(w: World) {
    && (forall t :: w.log.rotations[t] <= 1)
    && (forall t | t in w.log.rotations :: t !in w.redis.refresh)
  }

  ghost predicate Invariant(w: World) {
    RecordsWellIssued(w) && KeysIssued(w) && RecordTokens(w) && PendingLogins(w) && RotatedOnce(w)
  }

  lemma InitialInvariant(w: World)
    requires Initial(w)
    ensures Invariant(w)
  {
  }

  /** A step of call `id` that writes no session record and no refresh key. */
  ghost predicate Quiet(w: World, w': World, id: nat) {
    && w'.log.issued >= w.log.issued && w'.log.origins == w.log.origins && w'.log.created == w.log.created
    && w'.log.stored == w.log.stored && w'.log.rotations == w.log.rotations
    && (forall s | s in w'.redis.sessions :: s in w.redis.sessions && w'.redis.sessions[s] == w.redis.sessions[s])
    && w'.redis.refresh.Keys <= w.redis.refresh.Keys
    && w'.redis.used == w.redis.used
    && (forall k | k in w'.calls && k != id :: k in w.calls && w'.calls[k] == w.calls[k])
    && (id in w'.calls && HasRecord(w'.calls[id]) ==> WellIssued(w, w'.calls[id].rec))
    && (id in w'.calls && StillStoring(w'.calls[id]) ==>
          && id in w.calls && StillStoring(w.calls[id]) && w'.calls[id].rec == w.calls[id].rec
          && (w'.calls[id].StoreRecord? ==> w.calls[id].StoreRecord?))
  }

  lemma QuietKeepsRecords(w: World, w': World, id: nat)
    requires RecordsWellIssued(w) && Quiet(w, w', id)
    ensures RecordsWellIssued(w')
  {
  }

  lemma QuietKeepsTokens(w: World, w': World, id: nat)
    requires KeysIssued(w) && RecordTokens(w) && RotatedOnce(w) && Quiet(w, w', id)
    ensures KeysIssued(w') && RecordTokens(w') && RotatedOnce(w')
  {
  }

  lemma QuietKeepsPending(w: World, w': World, id: nat)
    requires PendingLogins(w) && Quiet(w, w', id)
    ensures PendingLogins(w')
  {
  }

  lemma QuietKeepsInvariant(w: World, w': World, id: nat)
    requires Invariant(w) && Quiet(w, w', id)
    ensures Invariant(w')
  {
    hide RecordsWellIssued, KeysIssued, RecordTokens, PendingLogins, RotatedOnce, Quiet;
    QuietKeepsRecords(w, w', id);
    QuietKeepsTokens(w, w', id);
    QuietKeepsPending(w, w', id);
  }

  lemma LoginKeepsPending(w: World, w': World, step: Step)
    requires Invariant(w) && step.Login? && w' == Next(w, step) && w' != w
    ensures PendingLogins(w')
  {
    forall id | id in w.calls && StillStoring(w.calls[id])
      ensures w.calls[id].rec.refresh != step.refresh && w.calls[id].rec.session != step.session
    {
      assert WellIssued(w, w.calls[id].rec);
    }
    forall s | s in w.redis.sessions ensures w.redis.sessions[s].value.refresh != step.refresh {
      assert WellIssued(w, w.redis.sessions[s].value);
    }
  }

  lemma LoginKeepsInvariant(w: World, step: Step)
    requires Invariant(w) && step.Login?
    ensures Invariant(Next(w, step))
  {
    hide PendingLogins;
    var w' := Next(w, step);
    if w' != w {
      LoginKeepsPending(w, w', step);
      assert RecordsWellIssued(w');
    }
  }

  lemma StoreKeepsInvariant(w: World, id: nat)
    requires Invariant(w) && id in w.calls && Storing(w.calls[id])
    ensures Invariant(PerformStore(w, id, w.calls[id]))
  {
    var w' := PerformStore(w, id, w.calls[id]);
    if w.calls[id].StoreRecord? {
      StoredRecordKeepsInvariant(w, w', id);
    } else if w.calls[id].StoreRefresh? {
      StoredRefreshKeepsInvariant(w, w', id);
    } else {
      StoreIsQuiet(w, w', id);
      QuietKeepsInvariant(w, w', id);
    }
  }

  lemma StoreIsQuiet(w: World, w': World, id: nat)
    requires RecordsWellIssued(w) && id in w.calls
    requires w.calls[id].StoreAccess? || w.calls[id].StoreMember? || w.calls[id].StoreDeadline?
    requires w' == PerformStore(w, id, w.calls[id])
    ensures Quiet(w, w', id)
  {
  }

  lemma StoredRefreshKeepsInvariant(w: World, w': World, id: nat)
    requires Invariant(w) && id in w.calls && w.calls[id].StoreRefresh? && w' == PerformStore(w, id, w.calls[id])
    ensures Invariant(w')
  {
    assert RecordsWellIssued(w');
    assert KeysIssued(w');
    assert RecordTokens(w');
    assert PendingLogins(w');
  }

  lemma StoredRecordKeepsRecords(w: World, w': World, id: nat)
    requires RecordsWellIssued(w) && id in w.calls && w.calls[id].StoreRecord? && w' == PerformStore(w, id, w.calls[id])
    ensures RecordsWellIssued(w')
  {
    assert WellIssued(w, w.calls[id].rec);
  }

  lemma StoredRecordKeepsTokens(w: World, w': World, id: nat)
    requires KeysIssued(w) && RecordTokens(w) && RotatedOnce(w) && PendingLogins(w)
    requires id in w.calls && w.calls[id].StoreRecord? && w' == PerformStore(w, id, w.calls[id])
    ensures KeysIssued(w') && RecordTokens(w') && RotatedOnce(w')
  {
  }

  lemma StoredRecordKeepsPending(w: World, w': World, id: nat)
    requires PendingLogins(w) && id in w.calls && w.calls[id].StoreRecord? && w' == PerformStore(w, id, w.calls[id])
    ensures PendingLogins(w')
  {
  }

  lemma StoredRecordKeepsInvariant(w: World, w': World, id: nat)
    requires Invariant(w) && id in w.calls && w.calls[id].StoreRecord? && w' == PerformStore(w, id, w.calls[id])
    ensures Invariant(w')
  {
    hide RecordsWellIssued, KeysIssued, RecordTokens, PendingLogins, RotatedOnce, PerformStore;
    StoredRecordKeepsRecords(w, w', id);
    StoredRecordKeepsTokens(w, w', id);
    StoredRecordKeepsPending(w, w', id);
  }

  /** The effect of a successful rotation on the parts the invariant speaks of. */
  ghost predicate Rotated(w: World, w': World, rec: Record, id: nat, access: Token, refresh: Token) {
    && rec.session in w.redis.sessions && w.redis.sessions[rec.session].value.refresh == rec.refresh
    && rec.refresh in w.redis.refresh
    && access !in w.log.issued && refresh !in w.log.issued && WellIssued(w, rec)
    && w'.redis.sessions.Keys == w.redis.sessions.Keys
    && (forall s | s in w.redis.sessions && s != rec.session :: w'.redis.sessions[s] == w.redis.sessions[s])
    && w'.redis.sessions[rec.session].value == rec.(access := access, refresh := refresh)
    && w'.redis.refresh.Keys == w.redis.refresh.Keys - {rec.refresh} + {refresh}
    && w'.redis.used.Keys == w.redis.used.Keys + {rec.refresh}
    && w'.log.issued == w.log.issued + {access, refresh} && w'.log.origins == w.log.origins
          && w'.log.created == w.log.created
    && w'.log.stored == w.log.stored + {refresh}
    && w'.log.rotations == w.log.rotations + multiset{rec.refresh}
    && w'.calls == w.calls - {id}
  }

  lemma RotationKeepsTokens(w: World, w': World, rec: Record, id: nat, access: Token, refresh: Token)
    requires Invariant(w) && Rotated(w, w', rec, id, access, refresh)
    ensures RecordTokens(w')
  {
    forall s | s in w.redis.sessions && s != rec.session
      ensures w.redis.sessions[s].value.refresh != rec.refresh && w.redis.sessions[s].value.refresh != refresh
    {
      assert WellIssued(w, w.redis.sessions[s].value);
    }
  }

  lemma RotationKeepsRecords(w: World, w': World, rec: Record, id: nat, access: Token, refresh: Token)
    requires RecordsWellIssued(w) && Rotated(w, w', rec, id, access, refresh)
    ensures RecordsWellIssued(w')
  {
  }

  lemma RotationKeepsKeys(w: World, w': World, rec: Record, id: nat, access: Token, refresh: Token)
    requires KeysIssued(w) && RecordTokens(w) && RotatedOnce(w) && Rotated(w, w', rec, id, access, refresh)
    ensures KeysIssued(w') && RotatedOnce(w')
  {
  }

  lemma RotationKeepsPending(w: World, w': World, rec: Record, id: nat, access: Token, refresh: Token)
    requires RecordsWellIssued(w) && PendingLogins(w) && Rotated(w, w', rec, id, access, refresh)
    ensures PendingLogins(w')
  {
    forall k | k in w.calls && StillStoring(w.calls[k]) ensures w.calls[k].rec.refresh != refresh {
      assert WellIssued(w, w.calls[k].rec);
    }
  }

  lemma RotationKeepsInvariant(w: World, w': World, rec: Record, id: nat, access: Token, refresh: Token)
    requires Invariant(w) && Rotated(w, w', rec, id, access, refresh)
    ensures Invariant(w')
  {
    hide RecordsWellIssued, KeysIssued, RecordTokens, PendingLogins, RotatedOnce, Rotated;
    RotationKeepsTokens(w, w', rec, id, access, refresh);
    RotationKeepsRecords(w, w', rec, id, access, refresh);
    RotationKeepsKeys(w, w', rec, id, access, refresh);
    RotationKeepsPending(w, w', rec, id, access, refresh);
  }

  lemma RotateKeepsInvariant(w: World, id: nat, rec: Record, access: Token, refresh: Token)
    requires Invariant(w) && id in w.calls && w.calls[id] == RefreshRotate(rec)
    ensures Invariant(PerformRotate(w, id, rec, access, refresh))
  {
    var w' := PerformRotate(w, id, rec, access, refresh);
    if access in w.log.issued || refresh in w.log.issued || access == refresh {
    } else if !CanRotate(w.redis, w.now, rec.refresh, rec.session) {
      assert Quiet(w, w', id);
      QuietKeepsInvariant(w, w', id);
    } else {
      assert Rotated(w, w', rec, id, access, refresh);
      RotationKeepsInvariant(w, w', rec, id, access, refresh);
    }
  }

  lemma LoadedWellIssued(w: World, session: SessionId)
    requires RecordsWellIssued(w)
    ensures LiveSession(w, session) ==> WellIssued(w, Load(w, session).value)
  {
  }

  /** A call moves on to `call` (or returns), and at most deletes keys. */
  ghost predicate MovesOn(w: World, w': World, id: nat, call: Option<Call>) {
    && w'.calls == (if call.Some? then w.calls[id := call.value] else w.calls - {id})
    && (call.Some? ==> !Storing(call.value) && (HasRecord(call.value) ==> WellIssued(w, call.value.rec)))
    && w'.redis.sessions.Keys <= w.redis.sessions.Keys
    && (forall s | s in w'.redis.sessions :: w'.redis.sessions[s] == w.redis.sessions[s])
    && w'.redis.refresh.Keys <= w.redis.refresh.Keys
    && w'.redis.used == w.redis.used
    && w'.log.(validations := w.log.validations) == w.log
  }

  lemma MovesOnIsQuiet(w: World, w': World, id: nat, call: Option<Call>)
    requires MovesOn(w, w', id, call)
    ensures Quiet(w, w', id)
  {
  }

  /** Where a call goes next. */
  ghost function Continued(w: World, id: nat): Option<Call> {
    if id in w.calls then Some(w.calls[id]) else None
  }

  lemma RefreshMovesOn(w: World, id: nat, call: Call)
    requires RecordsWellIssued(w) && id in w.calls && call == w.calls[id]
    requires RefreshReading(call)
    ensures var w' := PerformRefresh(w, id, call); MovesOn(w, w', id, Continued(w', id))
  {
    if call.RefreshLoad? || call.ReplayLoad? {
      LoadedWellIssued(w, call.session);
    }
  }

  lemma RevokeMovesOn(w: World, id: nat, call: Call)
    requires RecordsWellIssued(w) && id in w.calls && call == w.calls[id]
    requires call.RevokeDelete? || call.RevokeRemove?
    ensures var w' := PerformRevoke(w, id, call); MovesOn(w, w', id, Continued(w', id))
  {
    assert WellIssued(w, call.rec);
  }

  lemma CurrentMovesOn(w: World, id: nat, call: Call)
    requires RecordsWellIssued(w) && id in w.calls && call == w.calls[id]
    requires CurrentReading(call)
    ensures var w' := PerformCurrent(w, id, call); MovesOn(w, w', id, Continued(w', id))
  {
    if call.CurrentLoad? {
      LoadedWellIssued(w, call.session);
    }
  }

  predicate LogoutReading(call: Call) {
    call.LogoutGet? || call.LogoutLoad?
  }

  lemma LogoutReadMovesOn(w: World, id: nat, call: Call, pick: SessionId)
    requires RecordsWellIssued(w) && id in w.calls && call == w.calls[id] && LogoutReading(call)
    ensures var w' := PerformLogout(w, id, call, pick); MovesOn(w, w', id, Continued(w', id))
  {
    if call.LogoutLoad? {
      LoadedWellIssued(w, call.session);
    }
  }

  lemma SweepMovesOn(w: World, id: nat, call: Call, pick: SessionId)
    requires id in w.calls && call == w.calls[id] && (call.SweepMembers? || call.SweepNext?)
    ensures var w' := PerformLogout(w, id, call, pick); MovesOn(w, w', id, Continued(w', id))
  {
  }

  lemma SweepLoadMovesOn(w: World, id: nat, call: Call, pick: SessionId)
    requires RecordsWellIssued(w) && id in w.calls && call == w.calls[id] && call.SweepLoad?
    ensures var w' := PerformLogout(w, id, call, pick); MovesOn(w, w', id, Continued(w', id))
  {
    LoadedWellIssued(w, call.session);
  }

  lemma LogoutMovesOn(w: World, id: nat, call: Call, pick: SessionId)
    requires RecordsWellIssued(w) && id in w.calls && call == w.calls[id]
    requires !HasRecord(call) && !RefreshReading(call) && !CurrentReading(call)
    ensures var w' := PerformLogout(w, id, call, pick); MovesOn(w, w', id, Continued(w', id))
  {
    if LogoutReading(call) {
      LogoutReadMovesOn(w, id, call, pick);
    } else if call.SweepLoad? {
      SweepLoadMovesOn(w, id, call, pick);
    } else {
      SweepMovesOn(w, id, call, pick);
    }
  }

  lemma OtherPerformIsQuiet(w: World, id: nat, access: Token, refresh: Token, pick: SessionId)
    requires RecordsWellIssued(w) && id in w.calls && !w.calls[id].RefreshRotate? && !Storing(w.calls[id])
    ensures Quiet(w, Perform(w, id, access, refresh, pick), id)
  {
    var call, w' := w.calls[id], Perform(w, id, access, refresh, pick);
    if call.RevokeDelete? || call.RevokeRemove? {
      RevokeMovesOn(w, id, call);
    } else if CurrentReading(call) {
      CurrentMovesOn(w, id, call);
    } else if RefreshReading(call) {
      RefreshMovesOn(w, id, call);
    } else {
      LogoutMovesOn(w, id, call, pick);
    }
    MovesOnIsQuiet(w, w', id, Continued(w', id));
  }

  lemma PerformKeepsInvariant(w: World, id: nat, access: Token, refresh: Token, pick: SessionId)
    requires Invariant(w) && id in w.calls
    ensures Invariant(Perform(w, id, access, refresh, pick))
  {
    var call, w' := w.calls[id], Perform(w, id, access, refresh, pick);
    if call.RefreshRotate? {
      RotateKeepsInvariant(w, id, call.rec, access, refresh);
    } else if Storing(call) {
      StoreKeepsInvariant(w, id);
    } else {
      OtherPerformIsQuiet(w, id, access, refresh, pick);
      QuietKeepsInvariant(w, w', id);
    }
  }

  /** The call a step outside the requests starts or drops, if any. */
  ghost function Touched(step: Step): nat {
    if step.Begin? || step.Abandon? then step.call else 0
  }

  lemma EnvironmentIsQuiet(w: World, step: Step)
    requires RecordsWellIssued(w) && !step.Login? && !step.Advance?
    ensures Quiet(w, Next(w, step), Touched(step))
  {
    hide Perform;
    match step
    case Begin(id, request) =>
    case Abandon(id) =>
    case _ =>
  }

  lemma EnvironmentKeepsInvariant(w: World, step: Step)
    requires Invariant(w) && !step.Login? && !step.Advance?
    ensures Invariant(Next(w, step))
  {
    EnvironmentIsQuiet(w, step);
    QuietKeepsInvariant(w, Next(w, step), Touched(step));
  }

  lemma NextKeepsInvariant(w: World, step: Step)
    requires Invariant(w)
    ensures Invariant(Next(w, step))
  {
    if step.Login? {
      LoginKeepsInvariant(w, step);
    } else if step.Advance? {
      if step.call in w.calls {
        PerformKeepsInvariant(w, step.call, step.access, step.refresh, step.pick);
      }
    } else {
      EnvironmentKeepsInvariant(w, step);
    }
  }

  lemma {:induction false} RunKeepsInvariant(w: World, steps: seq<Step>)
    requires Invariant(w)
    ensures Invariant(Run(w, steps))
    decreases |steps|
  {
    if steps != [] {
      NextKeepsInvariant(w, steps[0]);
      RunKeepsInvariant(Next(w, steps[0]), steps[1..]);
    }
  }

  // ----- Theorems over every run -----

  /** The session a token of this kind gives access to right now. */
  ghost predicate AccessValidates(w: World, token: Token, session: SessionId) {
    && Get(w.redis.access, token, w.now) == Some(session)
    && LiveSession(w, session) && w.redis.sessions[session].value.access == token
  }

  ghost predicate RefreshValidates(w: World, token: Token, session: SessionId) {
    && Get(w.redis.refresh, token, w.now) == Some(session)
    && LiveSession(w, session) && w.redis.sessions[session].value.refresh == token
  }

  /**
   In every reachable state each refresh token has been rotated at most once, a rotated token gives
   access to nothing, and a refresh token that gives access is not marked as used. No session has two
   valid tokens of one kind and no refresh token serves two sessions.
   */
  lemma RotatesAtMostOnce(start: World, steps: seq<Step>)
    requires Initial(start)
    ensures var w := Run(start, steps);
            && (forall t :: w.log.rotations[t] <= 1)
            && (forall t, s | t in w.log.rotations :: !RefreshValidates(w, t, s))
            && (forall t, s | RefreshValidates(w, t, s) :: t !in w.redis.used)
            && (forall t, t', s | AccessValidates(w, t, s) && AccessValidates(w, t', s) :: t == t')
            && (forall t, t', s, s' | RefreshValidates(w, t, s) && RefreshValidates(w, t', s') :: s == s' <==> t == t')
  {
    InitialInvariant(start);
    RunKeepsInvariant(start, steps);
  }

  /** Requests that already hold the session's record and will only ask whether the user is active. */
  ghost function AboutToValidate(w: World, session: SessionId): set<nat> {
    set id | id in w.calls && w.calls[id].CurrentCheck? && w.calls[id].rec.session == session
  }

  /** Refreshes of the session that passed the user check and will run the script next. */
  ghost function AboutToRotate(w: World, session: SessionId): set<nat> {
    set id | id in w.calls && w.calls[id].RefreshRotate? && w.calls[id].rec.session == session
  }

  /** The session was stored once and its record is no longer there. */
  ghost predicate Dead(w: World, session: SessionId) {
    session in w.log.created && !LiveSession(w, session)
  }

  /** What one step may do to a session that is dead before it. */
  ghost predicate DeadStep(w: World, w': World, session: SessionId) {
    && Dead(w', session)
    && w'.log.renewals[session] == w.log.renewals[session]
    && w'.log.validations[session] + |AboutToValidate(w', session)| <= w.log.validations[session]
          + |AboutToValidate(w, session)|
  }

  /** The script leaves every other session, and every call but its own, as they are. */
  lemma RotateTouches(w: World, id: nat, rec: Record, access: Token, refresh: Token)
    requires id in w.calls && w.calls[id] == RefreshRotate(rec)
    ensures var w' := PerformRotate(w, id, rec, access, refresh);
            && w'.now == w.now && w'.log.validations == w.log.validations && w'.log.created == w.log.created
            && w'.users == w.users && w'.log.origins == w.log.origins
            && ((w'.calls == w.calls && w'.log.renewals == w.log.renewals)
                || (w'.calls == w.calls - {id} && w'.log.renewals == w.log.renewals)
                || (w'.calls == w.calls - {id} && w'.log.renewals == w.log.renewals + multiset{rec.session}
                      && LiveSession(w, rec.session)))
            && (forall s | s != rec.session || !LiveSession(w, s) :: Load(w', s) == Load(w, s))
  {
  }

  lemma DeadAfterRotate(w: World, id: nat, rec: Record, access: Token, refresh: Token, session: SessionId)
    requires Dead(w, session) && id in w.calls && w.calls[id] == RefreshRotate(rec)
    ensures DeadStep(w, PerformRotate(w, id, rec, access, refresh), session)
  {
    var w' := PerformRotate(w, id, rec, access, refresh);
    RotateTouches(w, id, rec, access, refresh);
    assert AboutToValidate(w', session) == AboutToValidate(w, session);
  }

  lemma DeadAfterStore(w: World, id: nat, session: SessionId)
    requires Invariant(w) && Dead(w, session) && id in w.calls && Storing(w.calls[id])
    ensures DeadStep(w, PerformStore(w, id, w.calls[id]), session)
  {
    var w' := PerformStore(w, id, w.calls[id]);
    assert AboutToValidate(w', session) == AboutToValidate(w, session);
  }

  lemma DeadAfterCurrent(w: World, id: nat, session: SessionId)
    requires Invariant(w) && Dead(w, session) && id in w.calls
    requires CurrentReading(w.calls[id])
    ensures DeadStep(w, PerformCurrent(w, id, w.calls[id]), session)
  {
    var call, w' := w.calls[id], PerformCurrent(w, id, w.calls[id]);
    LoadedWellIssued(w, if call.CurrentLoad? then call.session else session);
    if call.CurrentCheck? && call.rec.session == session {
      assert id in AboutToValidate(w, session) && id !in AboutToValidate(w', session);
    }
    assert AboutToValidate(w', session) <= AboutToValidate(w, session) by {
      forall k | k in AboutToValidate(w', session) ensures k in AboutToValidate(w, session) {
        if k == id {
          assert call.CurrentLoad? && Load(w, call.session).Some?;
          assert Load(w, call.session).value.session == call.session;
        }
      }
    }
    SmallerSet(AboutToValidate(w', session), AboutToValidate(w, session));
  }

  /** Every other command deletes at most, and does not touch the counters. */
  lemma DeadAfterMovingOn(w: World, w': World, id: nat, session: SessionId)
    requires Dead(w, session) && MovesOn(w, w', id, Continued(w', id))
    requires id in w'.calls ==> !w'.calls[id].CurrentCheck?
    requires w'.now == w.now && w'.log.renewals == w.log.renewals && w'.log.validations == w.log.validations
    ensures DeadStep(w, w', session)
  {
    assert AboutToValidate(w', session) <= AboutToValidate(w, session);
    SmallerSet(AboutToValidate(w', session), AboutToValidate(w, session));
  }

  lemma DeadAfterRevoke(w: World, id: nat, call: Call, session: SessionId)
    requires RecordsWellIssued(w) && Dead(w, session) && id in w.calls && call == w.calls[id]
    requires call.RevokeDelete? || call.RevokeRemove?
    ensures DeadStep(w, PerformRevoke(w, id, call), session)
  {
    RevokeMovesOn(w, id, call);
    DeadAfterMovingOn(w, PerformRevoke(w, id, call), id, session);
  }

  lemma DeadAfterRefresh(w: World, id: nat, call: Call, session: SessionId)
    requires RecordsWellIssued(w) && Dead(w, session) && id in w.calls && call == w.calls[id] && RefreshReading(call)
    ensures DeadStep(w, PerformRefresh(w, id, call), session)
  {
    RefreshMovesOn(w, id, call);
    DeadAfterMovingOn(w, PerformRefresh(w, id, call), id, session);
  }

  lemma DeadAfterLogout(w: World, id: nat, call: Call, pick: SessionId, session: SessionId)
    requires RecordsWellIssued(w) && Dead(w, session) && id in w.calls && call == w.calls[id]
    requires !HasRecord(call) && !RefreshReading(call) && !CurrentReading(call)
    ensures DeadStep(w, PerformLogout(w, id, call, pick), session)
  {
    LogoutMovesOn(w, id, call, pick);
    DeadAfterMovingOn(w, PerformLogout(w, id, call, pick), id, session);
  }

  lemma DeadAfterPerform(w: World, id: nat, access: Token, refresh: Token, pick: SessionId, session: SessionId)
    requires Invariant(w) && Dead(w, session) && id in w.calls
    ensures DeadStep(w, Perform(w, id, access, refresh, pick), session)
  {
    var call := w.calls[id];
    if call.RefreshRotate? {
      DeadAfterRotate(w, id, call.rec, access, refresh, session);
    } else if Storing(call) {
      DeadAfterStore(w, id, session);
    } else if CurrentReading(call) {
      DeadAfterCurrent(w, id, session);
    } else if call.RevokeDelete? || call.RevokeRemove? {
      DeadAfterRevoke(w, id, call, session);
    } else if RefreshReading(call) {
      DeadAfterRefresh(w, id, call, session);
    } else {
      DeadAfterLogout(w, id, call, pick, session);
    }
  }

  lemma DeadAfterStep(w: World, step: Step, session: SessionId)
    requires Invariant(w) && Dead(w, session)
    ensures DeadStep(w, Next(w, step), session)
  {
    if step.Advance? {
      if step.call in w.calls {
        DeadAfterPerform(w, step.call, step.access, step.refresh, step.pick, session);
      }
    } else {
      SmallerSet(AboutToValidate(Next(w, step), session), AboutToValidate(w, session));
    }
  }

  lemma {:induction false} DeadAfterRun(w: World, steps: seq<Step>, session: SessionId)
    requires Invariant(w) && Dead(w, session)
    ensures DeadStep(w, Run(w, steps), session)
    decreases |steps|
  {
    if steps != [] {
      DeadAfterStep(w, steps[0], session);
      NextKeepsInvariant(w, steps[0]);
      DeadAfterRun(Next(w, steps[0]), steps[1..], session);
    }
  }

  /**
   A dead session stays dead. Once the record of a session is gone, whatever runs afterwards, the
   session is never renewed again (not even by a refresh that read its state before) and no request
   that starts later validates it: the only validations still to come are, once each, those of
   `current_session` calls that had already read the record.
   */
  lemma DeadStaysDead(start: World, before: seq<Step>, after: seq<Step>, session: SessionId)
    requires Initial(start)
    requires Dead(Run(start, before), session)
    ensures var w := Run(start, before);
            var w' := Run(w, after);
            && Dead(w', session)
            && w'.log.renewals[session] == w.log.renewals[session]
            && w'.log.validations[session] <= w.log.validations[session] + |AboutToValidate(w, session)|
  {
    InitialInvariant(start);
    RunKeepsInvariant(start, before);
    DeadAfterRun(Run(start, before), after, session);
  }

  /** The user's token version has moved past the one the session was created with. */
  ghost predicate Outdated(w: World, session: SessionId) {
    && session in w.log.origins && w.log.origins[session].user in w.users
    && w.log.origins[session].version < w.users[w.log.origins[session].user].version
  }

  /** The user is not active, or no longer at the version the session was created with. */
  ghost predicate Barred(w: World, session: SessionId) {
    && session in w.log.origins
    && var origin := w.log.origins[session];
       !(origin.user in w.users && w.users[origin.user].active && w.users[origin.user].version == origin.version)
  }

  /** What one step may do to a session that is barred before it. */
  ghost predicate NotAdmitted(w: World, w': World, session: SessionId) {
    && w'.log.validations[session] == w.log.validations[session]
    && w'.log.renewals[session] + |AboutToRotate(w', session)| <= w.log.renewals[session] + |AboutToRotate(w, session)|
  }

  lemma BarredAfterMovingOn(w: World, w': World, id: nat, session: SessionId)
    requires Barred(w, session) && id in w.calls
    requires forall k | k in w'.calls :: w'.calls[k].RefreshRotate? ==>
              k in w.calls && (w'.calls[k] == w.calls[k] || w'.calls[k].rec.session != session)
    requires w'.users == w.users && w'.log.origins == w.log.origins
    requires w'.log.renewals == w.log.renewals && w'.log.validations[session] == w.log.validations[session]
    ensures NotAdmitted(w, w', session)
  {
    SmallerSet(AboutToRotate(w', session), AboutToRotate(w, session));
  }

  lemma BarredAfterRotate(w: World, id: nat, rec: Record, access: Token, refresh: Token, session: SessionId)
    requires Barred(w, session) && id in w.calls && w.calls[id] == RefreshRotate(rec)
    ensures NotAdmitted(w, PerformRotate(w, id, rec, access, refresh), session)
  {
    var w' := PerformRotate(w, id, rec, access, refresh);
    RotateTouches(w, id, rec, access, refresh);
    if w'.calls == w.calls - {id} && rec.session == session {
      assert id in AboutToRotate(w, session) && id !in AboutToRotate(w', session);
    }
    SmallerSet(AboutToRotate(w', session), AboutToRotate(w, session));
  }

  lemma BarredAfterCheck(w: World, id: nat, rec: Record, session: SessionId)
    requires RecordsWellIssued(w) && Barred(w, session) && id in w.calls
    requires w.calls[id] == CurrentCheck(rec) || w.calls[id] == RefreshCheck(rec)
    ensures rec.session == session ==> !UserIsActive(w.users, rec)
  {
    assert WellIssued(w, rec);
  }

  lemma BarredAfterCurrent(w: World, id: nat, call: Call, session: SessionId)
    requires RecordsWellIssued(w) && Barred(w, session) && id in w.calls && call == w.calls[id]
        && CurrentReading(call)
    ensures NotAdmitted(w, PerformCurrent(w, id, call), session)
  {
    if call.CurrentCheck? {
      BarredAfterCheck(w, id, call.rec, session);
    }
    BarredAfterMovingOn(w, PerformCurrent(w, id, call), id, session);
  }

  lemma BarredAfterRefresh(w: World, id: nat, call: Call, session: SessionId)
    requires RecordsWellIssued(w) && Barred(w, session) && id in w.calls && call == w.calls[id]
        && RefreshReading(call)
    ensures NotAdmitted(w, PerformRefresh(w, id, call), session)
  {
    var w' := PerformRefresh(w, id, call);
    if call.RefreshCheck? {
      BarredAfterCheck(w, id, call.rec, session);
    }
    RefreshMovesOn(w, id, call);
    assert w'.users == w.users && w'.log.renewals == w.log.renewals && w'.log.validations == w.log.validations;
    BarredAfterMovingOn(w, w', id, session);
  }

  lemma BarredAfterWriting(w: World, id: nat, call: Call, session: SessionId)
    requires Barred(w, session) && id in w.calls && call == w.calls[id]
    ensures Storing(call) ==> NotAdmitted(w, PerformStore(w, id, call), session)
    ensures NotAdmitted(w, PerformRevoke(w, id, call), session)
  {
    if Storing(call) {
      BarredAfterMovingOn(w, PerformStore(w, id, call), id, session);
    }
    BarredAfterMovingOn(w, PerformRevoke(w, id, call), id, session);
  }

  lemma BarredAfterLogout(w: World, id: nat, call: Call, pick: SessionId, session: SessionId)
    requires Barred(w, session) && id in w.calls && call == w.calls[id] && !HasRecord(call)
    ensures NotAdmitted(w, PerformLogout(w, id, call, pick), session)
  {
    BarredAfterMovingOn(w, PerformLogout(w, id, call, pick), id, session);
  }

  lemma BarredAfterPerform(w: World, id: nat, access: Token, refresh: Token, pick: SessionId, session: SessionId)
    requires RecordsWellIssued(w) && Barred(w, session) && id in w.calls
    ensures NotAdmitted(w, Perform(w, id, access, refresh, pick), session)
  {
    var call := w.calls[id];
    if call.RefreshRotate? {
      BarredAfterRotate(w, id, call.rec, access, refresh, session);
    } else if CurrentReading(call) {
      BarredAfterCurrent(w, id, call, session);
    } else if RefreshReading(call) {
      BarredAfterRefresh(w, id, call, session);
    } else if HasRecord(call) {
      BarredAfterWriting(w, id, call, session);
    } else {
      BarredAfterLogout(w, id, call, pick, session);
    }
  }

  lemma BarredAfterStep(w: World, step: Step, session: SessionId)
    requires Invariant(w) && Barred(w, session)
    ensures NotAdmitted(w, Next(w, step), session)
  {
    if step.Advance? {
      if step.call in w.calls {
        BarredAfterPerform(w, step.call, step.access, step.refresh, step.pick, session);
      }
    } else {
      SmallerSet(AboutToRotate(Next(w, step), session), AboutToRotate(w, session));
    }
  }

  ghost predicate StaysBarred(w: World, steps: seq<Step>, session: SessionId)
    decreases |steps|
  {
    Barred(w, session) && (steps != [] ==> StaysBarred(Next(w, steps[0]), steps[1..], session))
  }

  lemma {:induction false} BarredAfterRun(w: World, steps: seq<Step>, session: SessionId)
    requires Invariant(w) && StaysBarred(w, steps, session)
    ensures NotAdmitted(w, Run(w, steps), session)
    decreases |steps|
  {
    hide Next, Barred;
    if steps != [] {
      BarredAfterStep(w, steps[0], session);
      NextKeepsInvariant(w, steps[0]);
      BarredAfterRun(Next(w, steps[0]), steps[1..], session);
    }
  }

  /** Steps other than logins and account tokens change users only by `SetActive`, and no step changes an origin. */
  lemma UsersAfterStep(w: World, step: Step)
    ensures var w' := Next(w, step);
            && (forall s | s in w.log.origins :: s in w'.log.origins && w'.log.origins[s] == w.log.origins[s])
            && w'.users.Keys == w.users.Keys
            && (forall u | u in w.users ::
                  && w.users[u].version <= w'.users[u].version
                  && (w'.users[u].active && !w.users[u].active ==> Activates(step, u)))
  {
    hide Get, Put, AddMember, RemoveMember, Expire, CanRotate, Rotate, DeleteSession;
  }

  /** A step that makes a user active. */
  ghost predicate Activates(step: Step, user: UserId) {
    || (step.ConsumeAccountToken? && step.user == user && step.activates)
    || (step.SetActive? && step.user == user && step.active)
  }

  lemma {:induction false} OutdatedStays(w: World, steps: seq<Step>, session: SessionId)
    requires Outdated(w, session)
    ensures StaysBarred(w, steps, session)
    decreases |steps|
  {
    hide Next;
    if steps != [] {
      UsersAfterStep(w, steps[0]);
      OutdatedStays(Next(w, steps[0]), steps[1..], session);
    }
  }

  /** The user the session belongs to is not active. */
  ghost predicate Suspended(w: World, session: SessionId) {
    && session in w.log.origins && w.log.origins[session].user in w.users
    && !w.users[w.log.origins[session].user].active
  }

  lemma {:induction false} SuspendedStays(w: World, steps: seq<Step>, session: SessionId)
    requires Suspended(w, session)
    requires forall step | step in steps :: !Activates(step, w.log.origins[session].user)
    ensures StaysBarred(w, steps, session)
    decreases |steps|
  {
    hide Next, Activates;
    if steps != [] {
      UsersAfterStep(w, steps[0]);
      SuspendedStays(Next(w, steps[0]), steps[1..], session);
    }
  }

  /**
   While nothing makes an inactive user active again no session of that user is validated, by any
   request, and each is renewed at most by refreshes that had passed the user check before.
   */
  lemma SuspendedNeverValidates(start: World, before: seq<Step>, after: seq<Step>, session: SessionId)
    requires Initial(start) && Suspended(Run(start, before), session)
    requires forall step | step in after :: !Activates(step, Run(start, before).log.origins[session].user)
    ensures var w := Run(start, before);
            var w' := Run(w, after);
            && w'.log.validations[session] == w.log.validations[session]
            && w'.log.renewals[session] <= w.log.renewals[session] + |AboutToRotate(w, session)|
  {
    InitialInvariant(start);
    RunKeepsInvariant(start, before);
    SuspendedStays(Run(start, before), after, session);
    BarredAfterRun(Run(start, before), after, session);
  }

  /**
   Once a password reset or an e-mail verification has moved the user's token version past a
   session, the session is never validated again, by any request, however far it had got. It is
   renewed at most by refreshes that had passed the user check before.
   */
  lemma OutdatedNeverValidates(start: World, before: seq<Step>, after: seq<Step>, session: SessionId)
    requires Initial(start)
    requires Outdated(Run(start, before), session)
    ensures var w := Run(start, before);
            var w' := Run(w, after);
            && w'.log.validations[session] == w.log.validations[session]
            && w'.log.renewals[session] <= w.log.renewals[session] + |AboutToRotate(w, session)|
  {
    InitialInvariant(start);
    RunKeepsInvariant(start, before);
    OutdatedStays(Run(start, before), after, session);
    BarredAfterRun(Run(start, before), after, session);
  }
}
