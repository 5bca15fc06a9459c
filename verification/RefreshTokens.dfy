/**
 Refresh-token rotation with reuse detection: AuthService and RefreshTokenRepository over the
 table of refresh tokens. A row's id and its jti are its position in the table, in creation
 order; a login's fresh family id is the id of the first token of that family.
 */
module RefreshTokens {
  import opened Common

  type UserId = nat
  type TokenId = nat

  datatype Reason =
    ReuseDetected | LoggedOut | LoggedOutEverywhere | PasswordReset | PasswordChange | EmailChange | SessionRevoked

  datatype Revocation = Revocation(at: int, reason: Reason)

  datatype Token = Token(
    user: UserId,
    family: TokenId,
    hash: nat,
    expiresAt: int,
    usedAt: Option<int>,
    replacedBy: Option<TokenId>,
    revoked: Option<Revocation>)

  /** A presented token: one that does not decode, or its jti, its subject if that is a user id, and its hash. */
  datatype Raw = Malformed | Signed(jti: TokenId, subject: Option<UserId>, hash: nat)

  /** The table of tokens, and which users exist and are active. */
  datatype State = State(tokens: seq<Token>, active: map<UserId, bool>)

  datatype Call =
    | Login(user: UserId, credentialsOk: bool, hash: nat, now: int)
    | Refresh(raw: Raw, hash: nat, now: int)
    | Logout(raw: Raw, now: int)
    | LogoutAll(user: UserId, now: int)
    | ResetPassword(link: Option<UserId>, now: int)
    | ConfirmEmailChange(link: Option<UserId>, now: int)
    | ChangePassword(user: UserId, passwordOk: bool, current: Option<Raw>, now: int)
    | RevokeSession(user: UserId, session: TokenId, now: int)
    | SetActive(user: UserId, isActive: bool)

  function Fresh(user: UserId, family: TokenId, hash: nat, expiresAt: int): Token {
    Token(user, family, hash, expiresAt, None, None, None)
  }

  /** UPDATE ... SET revoked_at, revoked_reason WHERE hit AND revoked_at IS NULL */
  function RevokeWhere(tokens: seq<Token>, hit: (TokenId, Token) -> bool, r: Revocation): (updated: seq<Token>)
    ensures |updated| == |tokens|
    ensures forall i :: 0 <= i < |tokens| ==>
              updated[i] == if hit(i, tokens[i]) && tokens[i].revoked.None?
                            then tokens[i].(revoked := Some(r)) else tokens[i]
  {
    seq(|tokens|, i requires 0 <= i < |tokens| =>
      if hit(i, tokens[i]) && tokens[i].revoked.None? then tokens[i].(revoked := Some(r)) else tokens[i])
  }

  function RevokeOne(tokens: seq<Token>, id: TokenId, r: Revocation): seq<Token> {
    RevokeWhere(tokens, (i, t) => i == id, r)
  }

  function RevokeFamily(tokens: seq<Token>, family: TokenId, r: Revocation): seq<Token> {
    RevokeWhere(tokens, (i, t: Token) => t.family == family, r)
  }

  function RevokeUser(tokens: seq<Token>, user: UserId, r: Revocation): seq<Token> {
    RevokeWhere(tokens, (i, t: Token) => t.user == user, r)
  }

  function RevokeUserExcept(tokens: seq<Token>, user: UserId, keep: TokenId, r: Revocation): seq<Token> {
    RevokeWhere(tokens, (i, t: Token) => t.user == user && i != keep, r)
  }

  predicate IsActive(s: State, user: UserId) {
    user in s.active && s.active[user]
  }

  predicate Spent(t: Token) {
    t.usedAt.Some? || t.revoked.Some?
  }

  /** Some call can still trade this row for a new one. */
  predicate Redeemable(s: State, id: TokenId, now: int) {
    && id < |s.tokens|
    && !Spent(s.tokens[id])
    && now < s.tokens[id].expiresAt
    && IsActive(s, s.tokens[id].user)
  }

  /** The presented token is the genuine one of this row. */
  predicate Matches(s: State, raw: Raw) {
    && raw.Signed? && raw.jti < |s.tokens|
    && raw.hash == s.tokens[raw.jti].hash
    && raw.subject == Some(s.tokens[raw.jti].user)
  }

  /** The row is marked used and linked to a successor of the same family and user. */
  function Rotated(tokens: seq<Token>, id: TokenId, hash: nat, now: int, expiresAt: int): seq<Token>
    requires id < |tokens|
  {
    tokens[id := tokens[id].(usedAt := Some(now), replacedBy := Some(|tokens|))]
    + [Fresh(tokens[id].user, tokens[id].family, hash, expiresAt)]
  }

  function KeptByPasswordChange(s: State, user: UserId, current: Option<Raw>): Option<TokenId> {
    if current.Some? && current.value.Signed? && current.value.jti < |s.tokens| &&
       s.tokens[current.value.jti].user == user &&
       s.tokens[current.value.jti].hash == current.value.hash &&
       s.tokens[current.value.jti].revoked.None?
    then Some(current.value.jti) else None
  }

  /** The session state a call leaves; lifetime is how long a new token is valid. */
  function After(lifetime: nat, s: State, call: Call): State {
    match call
    case Login(user, ok, hash, now) =>
      if ok && IsActive(s, user)
      then s.(tokens := s.tokens + [Fresh(user, |s.tokens|, hash, now + lifetime)]) else s
    case Refresh(raw, hash, now) =>
      if raw.Malformed? || raw.jti >= |s.tokens| then s
      else if Spent(s.tokens[raw.jti]) then
        s.(tokens := RevokeFamily(s.tokens, s.tokens[raw.jti].family, Revocation(now, ReuseDetected)))
      else if Matches(s, raw) && Redeemable(s, raw.jti, now) then
        s.(tokens := Rotated(s.tokens, raw.jti, hash, now, now + lifetime))
      else s
    case Logout(raw, now) =>
      if raw.Signed? && raw.jti < |s.tokens| && s.tokens[raw.jti].hash == raw.hash
      then s.(tokens := RevokeOne(s.tokens, raw.jti, Revocation(now, LoggedOut))) else s
    case LogoutAll(user, now) =>
      s.(tokens := RevokeUser(s.tokens, user, Revocation(now, LoggedOutEverywhere)))
    case ResetPassword(link, now) =>
      if link.Some? && IsActive(s, link.value)
      then s.(tokens := RevokeUser(s.tokens, link.value, Revocation(now, PasswordReset))) else s
    case ConfirmEmailChange(link, now) =>
      if link.Some? && IsActive(s, link.value)
      then s.(tokens := RevokeUser(s.tokens, link.value, Revocation(now, EmailChange))) else s
    case ChangePassword(user, ok, current, now) =>
      if !ok then s
      else
        var keep := KeptByPasswordChange(s, user, current);
        var r := Revocation(now, PasswordChange);
        s.(tokens := if keep.Some? then RevokeUserExcept(s.tokens, user, keep.value, r)
                     else RevokeUser(s.tokens, user, r))
    case RevokeSession(user, session, now) =>
      if session < |s.tokens| && s.tokens[session].user == user
      then s.(tokens := RevokeOne(s.tokens, session, Revocation(now, SessionRevoked))) else s
    case SetActive(user, isActive) => s.(active := s.active[user := isActive])
  }

  /** The service method ends in an error. */
  predicate Raises(s: State, call: Call) {
    match call
    case Login(user, ok, _, _) => !ok || !IsActive(s, user)
    case Refresh(raw, _, now) => !Matches(s, raw) || !Redeemable(s, raw.jti, now)
    case ResetPassword(link, _) => link.None? || !IsActive(s, link.value)
    case ConfirmEmailChange(link, _) => link.None? || !IsActive(s, link.value)
    case ChangePassword(_, ok, _, _) => !ok
    case RevokeSession(user, session, _) => session >= |s.tokens| || s.tokens[session].user != user
    case _ => false
  }

  /**
   The stored state a request leaves: get_db commits when the route returns and rolls back when it
   raises, and no route of these calls commits by itself.
   */
  function Stored(lifetime: nat, s: State, call: Call): State {
    if Raises(s, call) then s else After(lifetime, s, call)
  }

  class AuthService {
    const lifetime: nat
    var tokens: seq<Token>
    var active: map<UserId, bool>

    ghost function Now(): State
      reads this
    {
      State(tokens, active)
    }

    constructor (lifetime: nat, active: map<UserId, bool>)
      ensures this.lifetime == lifetime && Now() == State([], active)
    {
      this.lifetime := lifetime;
      tokens := [];
      this.active := active;
    }

    method CreateRecord(user: UserId, family: Option<TokenId>, hash: nat, now: int) returns (id: TokenId)
      modifies this`tokens
      ensures id == |old(tokens)|
      ensures tokens == old(tokens) +
                [Fresh(user, if family.Some? then family.value else id, hash, now + lifetime)]
    {
      id := |tokens|;
      tokens := tokens + [Fresh(user, if family.Some? then family.value else id, hash, now + lifetime)];
    }

    method Login(user: UserId, credentialsOk: bool, hash: nat, now: int) returns (issued: Option<TokenId>)
      modifies this`tokens
      ensures Now() == After(lifetime, old(Now()), Call.Login(user, credentialsOk, hash, now))
      ensures issued == if credentialsOk && IsActive(old(Now()), user) then Some(|old(tokens)|) else None
      ensures issued.None? <==> Raises(old(Now()), Call.Login(user, credentialsOk, hash, now))
      ensures issued.Some? ==>
                tokens == old(tokens) + [Token(user, issued.value, hash, now + lifetime, None, None, None)]
    {
      if !credentialsOk || user !in active || !active[user] {
        return None;
      }
      var id := CreateRecord(user, None, hash, now);
      issued := Some(id);
    }

    method Refresh(raw: Raw, hash: nat, now: int) returns (issued: Option<TokenId>)
      modifies this`tokens
      ensures Now() == After(lifetime, old(Now()), Call.Refresh(raw, hash, now))
      ensures issued == if Matches(old(Now()), raw) && Redeemable(old(Now()), raw.jti, now)
                        then Some(|old(tokens)|) else None
      ensures issued.None? <==> Raises(old(Now()), Call.Refresh(raw, hash, now))
      ensures issued.Some? ==> raw.Signed? && raw.jti < |old(tokens)|
      ensures issued.Some? ==>
                var was := old(tokens)[raw.jti];
                tokens == old(tokens)[raw.jti := was.(usedAt := Some(now), replacedBy := issued)]
                          + [Token(was.user, was.family, hash, now + lifetime, None, None, None)]
    {
      if raw.Malformed? || raw.jti >= |tokens| {
        return None;
      }
      var record := tokens[raw.jti];
      if record.usedAt.Some? || record.revoked.Some? {
        tokens := RevokeFamily(tokens, record.family, Revocation(now, ReuseDetected));
        return None;
      }
      if record.expiresAt <= now || record.hash != raw.hash {
        return None;
      }
      if raw.subject.None? || raw.subject.value != record.user {
        return None;
      }
      if record.user !in active || !active[record.user] {
        return None;
      }
      tokens := tokens[raw.jti := record.(usedAt := Some(now))];
      var id := CreateRecord(record.user, Some(record.family), hash, now);
      tokens := tokens[raw.jti := tokens[raw.jti].(replacedBy := Some(id))];
      issued := Some(id);
    }

    method Logout(raw: Raw, now: int)
      modifies this`tokens
      ensures Now() == After(lifetime, old(Now()), Call.Logout(raw, now))
    {
      if raw.Malformed? || raw.jti >= |tokens| || tokens[raw.jti].hash != raw.hash {
        return;
      }
      RevokeToken(raw.jti, LoggedOut, now);
    }

    method RevokeToken(id: TokenId, reason: Reason, now: int)
      requires id < |tokens|
      modifies this`tokens
      ensures tokens == RevokeOne(old(tokens), id, Revocation(now, reason))
    {
      if tokens[id].revoked.None? {
        tokens := tokens[id := tokens[id].(revoked := Some(Revocation(now, reason)))];
      }
    }

    method LogoutAll(user: UserId, now: int)
      modifies this`tokens
      ensures Now() == After(lifetime, old(Now()), Call.LogoutAll(user, now))
    {
      tokens := RevokeUser(tokens, user, Revocation(now, LoggedOutEverywhere));
    }

    /** link is the owner of a reset link that exists, is unused and has not expired. */
    method ResetPassword(link: Option<UserId>, now: int) returns (ok: bool)
      modifies this`tokens
      ensures Now() == After(lifetime, old(Now()), Call.ResetPassword(link, now))
      ensures ok <==> link.Some? && IsActive(old(Now()), link.value)
      ensures ok <==> !Raises(old(Now()), Call.ResetPassword(link, now))
    {
      if link.None? || link.value !in active || !active[link.value] {
        return false;
      }
      tokens := RevokeUser(tokens, link.value, Revocation(now, PasswordReset));
      ok := true;
    }

    /** link is the owner of a change link that exists, is unused, unexpired and names a free address. */
    method ConfirmEmailChange(link: Option<UserId>, now: int) returns (ok: bool)
      modifies this`tokens
      ensures Now() == After(lifetime, old(Now()), Call.ConfirmEmailChange(link, now))
      ensures ok <==> link.Some? && IsActive(old(Now()), link.value)
      ensures ok <==> !Raises(old(Now()), Call.ConfirmEmailChange(link, now))
    {
      if link.None? || link.value !in active || !active[link.value] {
        return false;
      }
      tokens := RevokeUser(tokens, link.value, Revocation(now, EmailChange));
      ok := true;
    }

    method ChangePassword(user: UserId, passwordOk: bool, current: Option<Raw>, now: int) returns (ok: bool)
      modifies this`tokens
      ensures Now() == After(lifetime, old(Now()), Call.ChangePassword(user, passwordOk, current, now))
      ensures ok == passwordOk == !Raises(old(Now()), Call.ChangePassword(user, passwordOk, current, now))
    {
      if !passwordOk {
        return false;
      }
      var keep: Option<TokenId> := None;
      if current.Some? && current.value.Signed? && current.value.jti < |tokens| {
        var record := tokens[current.value.jti];
        if record.user == user && record.hash == current.value.hash && record.revoked.None? {
          keep := Some(current.value.jti);
        }
      }
      if keep.Some? {
        tokens := RevokeUserExcept(tokens, user, keep.value, Revocation(now, PasswordChange));
      } else {
        tokens := RevokeUser(tokens, user, Revocation(now, PasswordChange));
      }
      ok := true;
    }

    method RevokeSession(user: UserId, session: TokenId, now: int) returns (found: bool)
      modifies this`tokens
      ensures Now() == After(lifetime, old(Now()), Call.RevokeSession(user, session, now))
      ensures found <==> session < |old(tokens)| && old(tokens)[session].user == user
      ensures found <==> !Raises(old(Now()), Call.RevokeSession(user, session, now))
    {
      if session >= |tokens| || tokens[session].user != user {
        return false;
      }
      RevokeToken(session, SessionRevoked, now);
      found := true;
    }
  }
}
