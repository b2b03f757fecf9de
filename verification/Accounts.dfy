/**
 E-mail verification and password recovery: one-time account tokens and the token version that
 outdates every session of a user. Each method is one database transaction.
 */
module Accounts {
  import opened Options

  type UserId = nat
  type RawToken = nat

  datatype Purpose = VerifyEmailPurpose | ResetPasswordPurpose

  datatype Account = Account(verified: bool, active: bool, version: nat, password: string)

  datatype AccountToken = AccountToken(user: UserId, purpose: Purpose, expiresAt: nat, consumedAt: Option<nat>)

  predicate Usable(token: AccountToken, purpose: Purpose, now: nat) {
    token.purpose == purpose && token.consumedAt.None? && now < token.expiresAt
  }

  ghost predicate Unconsumed(tokens: map<RawToken, AccountToken>, t: RawToken) {
    t in tokens && tokens[t].consumedAt.None?
  }

  /** At most one token of a user and purpose is not consumed. */
  ghost predicate OneLivePerPurpose(tokens: map<RawToken, AccountToken>) {
    forall t, t' | Unconsumed(tokens, t) && Unconsumed(tokens, t') ::
      tokens[t].user == tokens[t'].user && tokens[t].purpose == tokens[t'].purpose ==> t == t'
  }

  /** The UPDATE that retires what was issued before, for the same user and purpose. */
  function Retired(tokens: map<RawToken, AccountToken>, user: UserId, purpose: Purpose, now: nat)
    : map<RawToken, AccountToken>
  {
    map t | t in tokens ::
      if tokens[t].user == user && tokens[t].purpose == purpose && tokens[t].consumedAt.None? then
        tokens[t].(consumedAt := Some(now))
      else tokens[t]
  }

  ghost function UsedBy(tokens: map<RawToken, AccountToken>, used: set<RawToken>, user: UserId): set<RawToken> {
    set t | t in used && t in tokens && tokens[t].user == user
  }

  /** A used token is spent, and a user's version counts the tokens used for that user. */
  ghost predicate Books(users: map<UserId, Account>, tokens: map<RawToken, AccountToken>, used: set<RawToken>,
                        initial: map<UserId, nat>) {
    && used <= tokens.Keys
    && (forall t | t in used :: !Unconsumed(tokens, t))
    && users.Keys == initial.Keys
    && (forall u | u in users :: users[u].version == initial[u] + |UsedBy(tokens, used, u)|)
  }

  function Consumed(tokens: map<RawToken, AccountToken>, raw: RawToken, now: nat): map<RawToken, AccountToken>
    requires raw in tokens
  {
    tokens[raw := tokens[raw].(consumedAt := Some(now))]
  }

  lemma ConsumeKeepsOneLive(tokens: map<RawToken, AccountToken>, raw: RawToken, now: nat)
    requires OneLivePerPurpose(tokens) && raw in tokens
    ensures OneLivePerPurpose(Consumed(tokens, raw, now))
  {
    var after := Consumed(tokens, raw, now);
    assert forall t :: Unconsumed(after, t) ==> Unconsumed(tokens, t) && t != raw;
  }

  lemma UseCounts(tokens: map<RawToken, AccountToken>, used: set<RawToken>, raw: RawToken, now: nat, u: UserId)
    requires raw in tokens && raw !in used
    ensures |UsedBy(Consumed(tokens, raw, now), used + {raw}, u)| ==
            |UsedBy(tokens, used, u)| + if u == tokens[raw].user then 1 else 0
  {
    var after := Consumed(tokens, raw, now);
    if u == tokens[raw].user {
      assert UsedBy(after, used + {raw}, u) == UsedBy(tokens, used, u) + {raw};
    } else {
      assert UsedBy(after, used + {raw}, u) == UsedBy(tokens, used, u);
    }
  }

  /** Using a token and raising its owner's version by one keeps the books. */
  lemma UseKeepsBooks(users: map<UserId, Account>, tokens: map<RawToken, AccountToken>, used: set<RawToken>,
                      initial: map<UserId, nat>,
                      raw: RawToken, now: nat, account: Account)
    requires Books(users, tokens, used, initial) && Unconsumed(tokens, raw) && tokens[raw].user in users
    requires account.version == users[tokens[raw].user].version + 1
    ensures Books(users[tokens[raw].user := account], Consumed(tokens, raw, now), used + {raw}, initial)
    ensures raw !in used
  {
    hide UsedBy;
    forall u | u in users
      ensures |UsedBy(Consumed(tokens, raw, now), used + {raw}, u)| ==
              |UsedBy(tokens, used, u)| + if u == tokens[raw].user then 1 else 0
    {
      UseCounts(tokens, used, raw, now, u);
    }
  }

  lemma IssueKeepsBooks(users: map<UserId, Account>, tokens: map<RawToken, AccountToken>, used: set<RawToken>,
                        initial: map<UserId, nat>,
                        user: UserId, purpose: Purpose, raw: RawToken, now: nat, ttl: nat)
    requires Books(users, tokens, used, initial) && OneLivePerPurpose(tokens) && raw !in tokens
    ensures var after := Retired(tokens, user, purpose, now)[raw := AccountToken(user, purpose, now + ttl, None)];
            Books(users, after, used, initial) && OneLivePerPurpose(after)
  {
    var retired := Retired(tokens, user, purpose, now);
    var after := retired[raw := AccountToken(user, purpose, now + ttl, None)];
    assert forall t :: Unconsumed(after, t) && t != raw ==>
              Unconsumed(tokens, t) && !(tokens[t].user == user && tokens[t].purpose == purpose);
    forall u ensures UsedBy(after, used, u) == UsedBy(tokens, used, u) {
    }
  }

  class AccountService {
    var now: nat
    var users: map<UserId, Account>
    var tokens: map<RawToken, AccountToken>
    /** History: the tokens that verified an e-mail or reset a password, and each user's first version. */
    ghost var used: set<RawToken>
    ghost const initial: map<UserId, nat>

    ghost predicate Valid() reads this {
      OneLivePerPurpose(tokens) && Books(users, tokens, used, initial)
    }

    constructor (now: nat, users: map<UserId, Account>)
      ensures Valid() && this.users == users && tokens == map[] && this.now == now
    {
      this.now := now;
      this.users := users;
      tokens := map[];
      used := {};
      initial := map u | u in users :: users[u].version;
      new;
      assert forall u :: UsedBy(tokens, used, u) == {};
    }

    method WaitFor(seconds: nat)
      requires Valid()
      modifies this`now
      ensures Valid() && now == old(now) + seconds
    {
      now := now + seconds;
    }

    /** `_issue_token`: `raw` is a new random token. */
    method IssueToken(user: UserId, purpose: Purpose, raw: RawToken, ttl: nat)
      requires Valid() && raw !in tokens
      modifies this`tokens
      ensures Valid()
      ensures tokens == Retired(old(tokens), user, purpose, now)[raw := AccountToken(user, purpose, now + ttl, None)]
      ensures forall t | Unconsumed(tokens, t) && tokens[t].user == user && tokens[t].purpose == purpose :: t == raw
      ensures forall t | t in old(tokens) :: t in tokens && tokens[t].user == old(tokens)[t].user
      ensures forall t | t in old(tokens) && (old(tokens)[t].user != user || old(tokens)[t].purpose != purpose) ::
                tokens[t] == old(tokens)[t]
    {
      hide Books, OneLivePerPurpose;
      IssueKeepsBooks(users, tokens, used, initial, user, purpose, raw, now, ttl);
      tokens := Retired(tokens, user, purpose, now);
      tokens := tokens[raw := AccountToken(user, purpose, now + ttl, None)];
    }

    /** `_consume_token`: a token is found by its hash and purpose, unconsumed and unexpired. */
    method ConsumeToken(raw: RawToken, purpose: Purpose) returns (user: Option<UserId>)
      modifies this`tokens
      ensures var found := raw in old(tokens) && Usable(old(tokens)[raw], purpose, now);
              && user == (if found then Some(old(tokens)[raw].user) else None)
              && tokens == (if found then Consumed(old(tokens), raw, now) else old(tokens))
    {
      if raw !in tokens || !Usable(tokens[raw], purpose, now) {
        return None;
      }
      user := Some(tokens[raw].user);
      tokens := Consumed(tokens, raw, now);
    }

    /** `verify_email`: the account becomes verified and active, with the password chosen now. */
    method VerifyEmail(raw: RawToken, password: string) returns (ok: bool)
      requires Valid()
      modifies this`users, this`tokens, this`used
      ensures Valid()
      ensures ok <==>
                && raw in old(tokens)
                && old(tokens)[raw].purpose == VerifyEmailPurpose && old(tokens)[raw].consumedAt.None?
                && now < old(tokens)[raw].expiresAt
                && old(tokens)[raw].user in users
      ensures ok ==> raw !in old(used) && used == old(used) + {raw}
      ensures ok ==> var u := old(tokens)[raw].user;
                     users == old(users)[u := Account(true, true, old(users)[u].version + 1, password)]
      ensures ok ==> tokens.Keys == old(tokens).Keys && tokens[raw].consumedAt == Some(now)
      ensures ok ==> forall t | t in tokens && t != raw :: tokens[t] == old(tokens)[t]
      ensures !ok ==> users == old(users) && tokens == old(tokens) && used == old(used)
    {
      hide Books, OneLivePerPurpose;
      var savedTokens := tokens;
      var owner := ConsumeToken(raw, VerifyEmailPurpose);
      if owner.None? || owner.value !in users {
        tokens := savedTokens;
        return false;
      }
      var u := owner.value;
      var account := users[u].(password := password);
      account := account.(verified := true);
      account := account.(active := true);
      users := users[u := account.(version := account.version + 1)];
      ConsumeKeepsOneLive(old(tokens), raw, now);
      UseKeepsBooks(old(users), old(tokens), used, initial, raw, now, users[u]);
      used := used + {raw};
      ok := true;
    }

    /** `reset_password`. */
    method ResetPassword(raw: RawToken, password: string) returns (ok: bool)
      requires Valid()
      modifies this`users, this`tokens, this`used
      ensures Valid()
      ensures ok <==>
                && raw in old(tokens)
                && old(tokens)[raw].purpose == ResetPasswordPurpose && old(tokens)[raw].consumedAt.None?
                && now < old(tokens)[raw].expiresAt
                && old(tokens)[raw].user in users
      ensures ok ==> raw !in old(used) && used == old(used) + {raw}
      ensures ok ==> var u := old(tokens)[raw].user;
                     users == old(users)[u := old(users)[u].(password := password,
                         version := old(users)[u].version + 1)]
      ensures ok ==> tokens.Keys == old(tokens).Keys && tokens[raw].consumedAt == Some(now)
      ensures ok ==> forall t | t in tokens && t != raw :: tokens[t] == old(tokens)[t]
      ensures !ok ==> users == old(users) && tokens == old(tokens) && used == old(used)
    {
      hide Books, OneLivePerPurpose;
      var savedTokens := tokens;
      var owner := ConsumeToken(raw, ResetPasswordPurpose);
      if owner.None? || owner.value !in users {
        tokens := savedTokens;
        return false;
      }
      var u := owner.value;
      var account := users[u].(password := password);
      users := users[u := account.(version := account.version + 1)];
      ConsumeKeepsOneLive(old(tokens), raw, now);
      UseKeepsBooks(old(users), old(tokens), used, initial, raw, now, users[u]);
      used := used + {raw};
      ok := true;
    }
  }
}
