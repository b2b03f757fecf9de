/**
 The Redis commands the session service relies on. Keys of one prefix form one map; a key is the
 SHA-256 of its token, so tokens stand for their keys. An entry past its deadline is not there.
 */
module RedisStore {
  import opened Options

  type Token = nat
  type SessionId = nat
  type UserId = nat

  const ACCESS_TTL: nat := 900
  const SESSION_TTL: nat := 604800
  const CHALLENGE_TTL: nat := 300

  datatype Entry<T> = Entry(value: T, deadline: Option<nat>)

  predicate Live<T>(entry: Entry<T>, now: nat) {
    entry.deadline.None? || now < entry.deadline.value
  }

  function Get<K, T>(entries: map<K, Entry<T>>, key: K, now: nat): Option<T> {
    if key in entries && Live(entries[key], now) then Some(entries[key].value) else None
  }

  /** SET key value EX ttl. */
  function Put<K, T>(entries: map<K, Entry<T>>, key: K, value: T, now: nat, ttl: nat): map<K, Entry<T>> {
    entries[key := Entry(value, Some(now + ttl))]
  }

  /** EXPIRE key ttl: nothing happens to a key that is not there. */
  function Expire<K, T>(entries: map<K, Entry<T>>, key: K, now: nat, ttl: nat): map<K, Entry<T>> {
    match Get(entries, key, now)
    case Some(value) => entries[key := Entry(value, Some(now + ttl))]
    case None => entries
  }

  /** SADD: a new set has no deadline, an existing one keeps its deadline. */
  function AddMember<K, T>(entries: map<K, Entry<set<T>>>, key: K, member: T, now: nat): map<K, Entry<set<T>>> {
    match Get(entries, key, now)
    case Some(members) => entries[key := Entry(members + {member}, entries[key].deadline)]
    case None => entries[key := Entry({member}, None)]
  }

  /** SREM: a set that becomes empty is removed. */
  function RemoveMember<K, T>(entries: map<K, Entry<set<T>>>, key: K, member: T, now: nat): map<K, Entry<set<T>>> {
    match Get(entries, key, now)
    case Some(members) =>
      if members - {member} == {} then entries - {key}
      else entries[key := Entry(members - {member}, entries[key].deadline)]
    case None => entries
  }

  /** The JSON state of a session. */
  datatype Record = Record(session: SessionId, user: UserId, version: nat, access: Token, refresh: Token)

  datatype Redis = Redis(
    access: map<Token, Entry<SessionId>>,
    refresh: map<Token, Entry<SessionId>>,
    used: map<Token, Entry<SessionId>>,
    sessions: map<SessionId, Entry<Record>>,
    members: map<UserId, Entry<set<SessionId>>>)

  const EMPTY: Redis := Redis(map[], map[], map[], map[], map[])

  /** The single DEL of a revocation: both token keys and the session record of a state read before. */
  function DeleteSession(redis: Redis, rec: Record): Redis {
    redis.(access := redis.access - {rec.access},
           refresh := redis.refresh - {rec.refresh},
           sessions := redis.sessions - {rec.session})
  }

  /** Whether the rotation script reaches its first write. */
  predicate CanRotate(redis: Redis, now: nat, presented: Token, session: SessionId) {
    && Get(redis.refresh, presented, now) == Some(session)
    && Get(redis.sessions, session, now).Some?
    && redis.sessions[session].value.refresh == presented
  }

  /**
   The atomic rotation script: the presented refresh token must still belong to the session's
   current record; then the old tokens go, `next` becomes the record and the presented token is
   marked as used.
   */
  function Rotate(redis: Redis, now: nat, presented: Token, next: Record): Redis {
    if !CanRotate(redis, now, presented, next.session) then redis
    else
      var current := redis.sessions[next.session].value;
      redis.(access := Put(redis.access - {current.access}, next.access, next.session, now, ACCESS_TTL),
             refresh := Put(redis.refresh - {presented}, next.refresh, next.session, now, SESSION_TTL),
             used := Put(redis.used, presented, next.session, now, SESSION_TTL),
             sessions := Put(redis.sessions, next.session, next, now, SESSION_TTL),
             members := Expire(AddMember(redis.members, next.user, next.session, now), next.user, now, SESSION_TTL))
  }
}
