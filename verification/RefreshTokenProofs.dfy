/** What every run of calls keeps, and what a reuse or a sign-out everywhere ends for good. */
module RefreshTokenProofs {
  import opened Common
  import opened RefreshTokens

  /** The stored state after a sequence of requests. */
  function Run(lifetime: nat, s: State, calls: seq<Call>): State
    decreases |calls|
  {
    if calls == [] then s else Run(lifetime, Stored(lifetime, s, calls[0]), calls[1..])
  }

  ghost predicate Reachable(lifetime: nat, s: State) {
    exists calls, active :: s == Run(lifetime, State([], active), calls)
  }

  // ----- the shape of the table -----

  ghost predicate LinkOk(tokens: seq<Token>, i: TokenId)
    requires i < |tokens|
  {
    var t := tokens[i];
    && (t.usedAt.Some? <==> t.replacedBy.Some?)
    && (t.replacedBy.Some? ==>
          i < t.replacedBy.value < |tokens| &&
          tokens[t.replacedBy.value].family == t.family && tokens[t.replacedBy.value].user == t.user)
  }

  ghost predicate IsSuccessor(tokens: seq<Token>, p: TokenId, i: TokenId) {
    p < |tokens| && tokens[p].replacedBy == Some(i)
  }

  ghost predicate RootOk(tokens: seq<Token>, i: TokenId)
    requires i < |tokens|
  {
    && tokens[i].family <= i
    && tokens[tokens[i].family].family == tokens[i].family
    && (tokens[i].family != i ==> exists p: TokenId :: p < i && IsSuccessor(tokens, p, i))
  }

  ghost predicate Inv(tokens: seq<Token>) {
    && (forall i :: 0 <= i < |tokens| ==> LinkOk(tokens, i))
    && (forall i :: 0 <= i < |tokens| ==> RootOk(tokens, i))
  }

  /** The same table but for revocation marks. */
  ghost predicate SameShape(before: seq<Token>, after: seq<Token>) {
    && |before| == |after|
    && forall i :: 0 <= i < |before| ==> after[i].(revoked := before[i].revoked) == before[i]
  }

  lemma SameShapeKeepsInv(before: seq<Token>, after: seq<Token>)
    requires Inv(before) && SameShape(before, after)
    ensures Inv(after)
  {
    forall i | 0 <= i < |after|
      ensures LinkOk(after, i) && RootOk(after, i)
    {
      assert LinkOk(before, i) && RootOk(before, i);
      assert forall k :: 0 <= k < |before| ==>
        after[k].family == before[k].family && after[k].user == before[k].user &&
        after[k].replacedBy == before[k].replacedBy;
      if before[i].family != i {
        var p: TokenId :| p < i && IsSuccessor(before, p, i);
        assert IsSuccessor(after, p, i);
      }
    }
  }

  lemma AppendedRootKeepsInv(tokens: seq<Token>, t: Token)
    requires Inv(tokens) && t.family == |tokens| && t.usedAt.None? && t.replacedBy.None?
    ensures Inv(tokens + [t])
  {
    var after := tokens + [t];
    forall i | 0 <= i < |after|
      ensures LinkOk(after, i) && RootOk(after, i)
    {
      if i < |tokens| {
        assert LinkOk(tokens, i) && RootOk(tokens, i);
        if tokens[i].family != i {
          var p: TokenId :| p < i && IsSuccessor(tokens, p, i);
          assert IsSuccessor(after, p, i);
        }
      }
    }
  }

  lemma RotationKeepsInv(tokens: seq<Token>, id: TokenId, hash: nat, now: int, expiresAt: int)
    requires Inv(tokens) && id < |tokens| && tokens[id].usedAt.None?
    ensures Inv(Rotated(tokens, id, hash, now, expiresAt))
  {
    var after := Rotated(tokens, id, hash, now, expiresAt);
    assert LinkOk(tokens, id) && RootOk(tokens, id);
    forall i | 0 <= i < |after|
      ensures LinkOk(after, i) && RootOk(after, i)
    {
      if i < |tokens| {
        assert LinkOk(tokens, i) && RootOk(tokens, i);
        if tokens[i].family != i {
          var p: TokenId :| p < i && IsSuccessor(tokens, p, i);
          assert p != id;
          assert IsSuccessor(after, p, i);
        }
      } else {
        assert IsSuccessor(after, id, i);
      }
    }
  }

  lemma CallKeepsInv(lifetime: nat, s: State, call: Call)
    requires Inv(s.tokens)
    ensures Inv(After(lifetime, s, call).tokens)
  {
    var after := After(lifetime, s, call);
    match call {
      case Login(user, ok, hash, now) =>
        if ok && IsActive(s, user) {
          AppendedRootKeepsInv(s.tokens, Fresh(user, |s.tokens|, hash, now + lifetime));
        }
      case Refresh(raw, hash, now) =>
        if raw.Signed? && raw.jti < |s.tokens| && Matches(s, raw) && Redeemable(s, raw.jti, now) {
          RotationKeepsInv(s.tokens, raw.jti, hash, now, now + lifetime);
        } else {
          SameShapeKeepsInv(s.tokens, after.tokens);
        }
      case _ => SameShapeKeepsInv(s.tokens, after.tokens);
    }
  }

  lemma {:induction false} RunKeepsInv(lifetime: nat, s: State, calls: seq<Call>)
    requires Inv(s.tokens)
    ensures Inv(Run(lifetime, s, calls).tokens)
    decreases |calls|
  {
    if calls != [] {
      CallKeepsInv(lifetime, s, calls[0]);
      RunKeepsInv(lifetime, Stored(lifetime, s, calls[0]), calls[1..]);
    }
  }

  lemma ReachableInv(lifetime: nat, s: State)
    requires Reachable(lifetime, s)
    ensures Inv(s.tokens)
  {
    var calls, active :| s == Run(lifetime, State([], active), calls);
    RunKeepsInv(lifetime, State([], active), calls);
  }

  // ----- a family is one path -----

  /** The tokens met by following replaced_by from i. */
  function PathFrom(tokens: seq<Token>, i: TokenId): seq<TokenId>
    decreases |tokens| - i
  {
    if i < |tokens| && tokens[i].replacedBy.Some? && i < tokens[i].replacedBy.value < |tokens|
    then [i] + PathFrom(tokens, tokens[i].replacedBy.value)
    else [i]
  }

  /** All but the last token of a path are used and linked to the next; the last is unused. */
  ghost predicate IsChain(tokens: seq<Token>, path: seq<TokenId>) {
    && path != []
    && (forall k :: 0 <= k < |path| ==> path[k] < |tokens|)
    && (forall k :: 0 <= k < |path| - 1 ==>
          path[k] < path[k + 1] && tokens[path[k]].replacedBy == Some(path[k + 1]) && tokens[path[k]].usedAt.Some?)
    && tokens[path[|path| - 1]].usedAt.None?
  }

  lemma LinkedChain(tokens: seq<Token>, i: TokenId, rest: seq<TokenId>)
    requires i < |tokens| && IsChain(tokens, rest) && i < rest[0]
    requires tokens[i].replacedBy == Some(rest[0]) && tokens[i].usedAt.Some?
    ensures IsChain(tokens, [i] + rest)
  {
  }

  lemma {:induction false} PathIsChain(tokens: seq<Token>, i: TokenId)
    requires Inv(tokens) && i < |tokens|
    ensures IsChain(tokens, PathFrom(tokens, i)) && PathFrom(tokens, i)[0] == i
    ensures forall k :: k in PathFrom(tokens, i) ==>
              k < |tokens| && tokens[k].family == tokens[i].family && tokens[k].user == tokens[i].user
    decreases |tokens| - i
  {
    assert LinkOk(tokens, i);
    if tokens[i].replacedBy.Some? {
      var next := tokens[i].replacedBy.value;
      PathIsChain(tokens, next);
      LinkedChain(tokens, i, PathFrom(tokens, next));
    }
  }

  lemma {:induction false} PathIsClosed(tokens: seq<Token>, i: TokenId, p: TokenId, k: TokenId)
    requires Inv(tokens) && i < |tokens| && p in PathFrom(tokens, i) && IsSuccessor(tokens, p, k)
    ensures k in PathFrom(tokens, i)
    decreases |tokens| - i
  {
    assert LinkOk(tokens, i);
    if p == i {
      assert k == PathFrom(tokens, k)[0];
    } else {
      PathIsClosed(tokens, tokens[i].replacedBy.value, p, k);
    }
  }

  lemma {:induction false} MemberIsOnPath(tokens: seq<Token>, k: TokenId)
    requires Inv(tokens) && k < |tokens|
    ensures k in PathFrom(tokens, tokens[k].family)
  {
    var f := tokens[k].family;
    assert RootOk(tokens, k);
    if f == k {
      assert PathFrom(tokens, f)[0] == k;
    } else {
      var p: TokenId :| p < k && IsSuccessor(tokens, p, k);
      assert LinkOk(tokens, p);
      MemberIsOnPath(tokens, p);
      PathIsClosed(tokens, f, p, k);
    }
  }

  /** In every reachable table a family is exactly one replaced_by path of one user, with one unused token, its tail. */
  lemma FamilyIsOnePath(lifetime: nat, s: State, f: TokenId)
    requires Reachable(lifetime, s) && f < |s.tokens| && s.tokens[f].family == f
    ensures var path := PathFrom(s.tokens, f);
            && IsChain(s.tokens, path)
            && (forall k: TokenId :: k in path <==> k < |s.tokens| && s.tokens[k].family == f)
            && (forall k :: k in path ==> s.tokens[k].user == s.tokens[f].user)
            && (forall k :: k in path && s.tokens[k].usedAt.None? ==> k == path[|path| - 1])
  {
    ReachableInv(lifetime, s);
    PathIsChain(s.tokens, f);
    var path := PathFrom(s.tokens, f);
    forall k: TokenId | k < |s.tokens| && s.tokens[k].family == f
      ensures k in path
    {
      MemberIsOnPath(s.tokens, k);
    }
    forall k | k in path && s.tokens[k].usedAt.None?
      ensures k == path[|path| - 1]
    {
      var j :| 0 <= j < |path| && path[j] == k;
    }
  }

  lemma AtMostOneRedeemable(lifetime: nat, s: State, i: TokenId, k: TokenId, now: int, now': int)
    requires Reachable(lifetime, s) && Redeemable(s, i, now) && Redeemable(s, k, now')
    requires s.tokens[i].family == s.tokens[k].family
    ensures i == k
  {
    ReachableInv(lifetime, s);
    assert RootOk(s.tokens, i);
    FamilyIsOnePath(lifetime, s, s.tokens[i].family);
  }

  function Unused(s: State): set<TokenId> {
    set i: TokenId | i < |s.tokens| && s.tokens[i].usedAt.None?
  }

  /** A refresh trades one unused token for another. */
  lemma RefreshConservesUnused(lifetime: nat, s: State, call: Call)
    requires call.Refresh? && Matches(s, call.raw) && Redeemable(s, call.raw.jti, call.now)
    ensures Unused(Stored(lifetime, s, call)) == Unused(s) - {call.raw.jti} + {|s.tokens|}
    ensures |Unused(Stored(lifetime, s, call))| == |Unused(s)|
  {
    assert Unused(Stored(lifetime, s, call)) == Unused(s) - {call.raw.jti} + {|s.tokens|};
    assert |Unused(s) - {call.raw.jti}| == |Unused(s)| - 1;
  }

  // ----- nothing already written is taken back -----

  ghost predicate Extends(before: State, after: State) {
    && |before.tokens| <= |after.tokens|
    && forall i :: 0 <= i < |before.tokens| ==>
         var b, a := before.tokens[i], after.tokens[i];
         && (a.user, a.family, a.hash, a.expiresAt) == (b.user, b.family, b.hash, b.expiresAt)
         && (b.usedAt.Some? ==> a.usedAt == b.usedAt)
         && (b.replacedBy.Some? ==> a.replacedBy == b.replacedBy)
         && (b.revoked.Some? ==> a.revoked == b.revoked)
  }

  lemma CallExtends(lifetime: nat, s: State, call: Call)
    requires Inv(s.tokens)
    ensures Extends(s, After(lifetime, s, call))
  {
    if call.Refresh? && call.raw.Signed? && call.raw.jti < |s.tokens| {
      assert LinkOk(s.tokens, call.raw.jti);
    }
  }

  lemma {:induction false} RunExtends(lifetime: nat, s: State, calls: seq<Call>)
    requires Inv(s.tokens)
    ensures Extends(s, Run(lifetime, s, calls))
    decreases |calls|
  {
    if calls != [] {
      CallExtends(lifetime, s, calls[0]);
      CallKeepsInv(lifetime, s, calls[0]);
      RunExtends(lifetime, Stored(lifetime, s, calls[0]), calls[1..]);
    }
  }

  // ----- how long a token lives -----

  /** The user a login or refresh issues its token to. */
  function IssuedTo(s: State, call: Call): UserId
    requires call.Login? || (call.Refresh? && call.raw.Signed? && call.raw.jti < |s.tokens|)
  {
    if call.Login? then call.user else s.tokens[call.raw.jti].user
  }

  lemma IssuedRow(lifetime: nat, s: State, call: Call)
    requires (call.Login? || call.Refresh?) && !Raises(s, call)
    ensures var after := Stored(lifetime, s, call).tokens;
            |after| == |s.tokens| + 1 && after[|s.tokens|].user == IssuedTo(s, call) &&
            after[|s.tokens|].hash == call.hash && after[|s.tokens|].expiresAt == call.now + lifetime
  {
  }

  /**
   A token issued by a login or by a refresh lives for the lifetime from the moment it was issued, whatever is
   requested in between: it is traded for a new one exactly when it is presented with its own hash and user, it has
   been neither used nor revoked, its user is active, and the lifetime has not passed.
   */
  lemma IssuedTokenLivesItsLifetime(lifetime: nat, s: State, call: Call, later: seq<Call>, next: Call)
    requires Reachable(lifetime, s) && (call.Login? || call.Refresh?) && !Raises(s, call)
    requires next.Refresh? && next.raw.Signed? && next.raw.jti == |s.tokens|
    ensures var t := Run(lifetime, Stored(lifetime, s, call), later);
            var u := Stored(lifetime, t, next);
            && |s.tokens| < |t.tokens|
            && (!Raises(t, next) <==>
                  next.raw.subject == Some(IssuedTo(s, call)) && next.raw.hash == call.hash &&
                  !Spent(t.tokens[|s.tokens|]) && IsActive(t, IssuedTo(s, call)) && next.now < call.now + lifetime)
            && |u.tokens| == |t.tokens| + (if Raises(t, next) then 0 else 1)
            && (!Raises(t, next) ==> Spent(u.tokens[|s.tokens|]) && IssuedTo(t, next) == IssuedTo(s, call))
  {
    ReachableInv(lifetime, s);
    IssuedRow(lifetime, s, call);
    CallKeepsInv(lifetime, s, call);
    RunExtends(lifetime, Stored(lifetime, s, call), later);
  }

  // ----- who can revoke a token -----

  /** A request by the row's own user, or by who holds the token, and the mark it leaves. */
  predicate OwnRequest(t: Token, id: TokenId, call: Call, r: Revocation) {
    match call
    case Logout(raw, now) => raw.Signed? && raw.jti == id && raw.hash == t.hash && r == Revocation(now, LoggedOut)
    case LogoutAll(user, now) => user == t.user && r == Revocation(now, LoggedOutEverywhere)
    case ResetPassword(link, now) => link == Some(t.user) && r == Revocation(now, PasswordReset)
    case ConfirmEmailChange(link, now) => link == Some(t.user) && r == Revocation(now, EmailChange)
    case ChangePassword(user, ok, _, now) => ok && user == t.user && r == Revocation(now, PasswordChange)
    case RevokeSession(user, session, now) => session == id && user == t.user && r == Revocation(now, SessionRevoked)
    case _ => false
  }

  ghost predicate WasRevokedBy(t: Token, id: TokenId, calls: seq<Call>) {
    t.revoked.Some? ==> exists k :: 0 <= k < |calls| && OwnRequest(t, id, calls[k], t.revoked.value)
  }

  lemma RequestRevokesOwn(lifetime: nat, s: State, call: Call, id: TokenId)
    requires Inv(s.tokens) && id < |Stored(lifetime, s, call).tokens|
    requires id < |s.tokens| ==> s.tokens[id].revoked.None?
    requires Stored(lifetime, s, call).tokens[id].revoked.Some?
    ensures var t := Stored(lifetime, s, call).tokens[id]; OwnRequest(t, id, call, t.revoked.value)
  {
  }

  /** Every stored revocation is the doing of the token's own user or holder, at the time and for the reason given. */
  lemma {:induction false} RevocationIsTraced(lifetime: nat, active: map<UserId, bool>, calls: seq<Call>, id: TokenId)
    requires id < |Run(lifetime, State([], active), calls).tokens|
    ensures WasRevokedBy(Run(lifetime, State([], active), calls).tokens[id], id, calls)
    decreases |calls|
  {
    if calls != [] {
      var init, last := calls[..|calls| - 1], calls[|calls| - 1];
      assert calls == init + [last];
      var s := Run(lifetime, State([], active), init);
      RunSnoc(lifetime, State([], active), init, last);
      RunKeepsInv(lifetime, State([], active), init);
      CallExtends(lifetime, s, last);
      if id < |s.tokens| && s.tokens[id].revoked.Some? {
        RevocationIsTraced(lifetime, active, init, id);
        var k :| 0 <= k < |init| && OwnRequest(s.tokens[id], id, init[k], s.tokens[id].revoked.value);
        assert OwnRequest(Stored(lifetime, s, last).tokens[id], id, calls[k], s.tokens[id].revoked.value);
      } else if Stored(lifetime, s, last).tokens[id].revoked.Some? {
        RequestRevokesOwn(lifetime, s, last, id);
      }
    }
  }

  lemma {:induction false} RunSnoc(lifetime: nat, s: State, calls: seq<Call>, call: Call)
    ensures Run(lifetime, s, calls + [call]) == Stored(lifetime, Run(lifetime, s, calls), call)
    decreases |calls|
  {
    if calls == [] {
      RunCons(lifetime, s, call, []);
      assert [] + [call] == [call] + [];
    } else {
      assert (calls + [call])[1..] == calls[1..] + [call];
      RunSnoc(lifetime, Stored(lifetime, s, calls[0]), calls[1..], call);
    }
  }

  // ----- reuse -----

  /** A used or revoked token is presented. */
  predicate IsReuse(s: State, call: Call) {
    call.Refresh? && call.raw.Signed? && call.raw.jti < |s.tokens| && Spent(s.tokens[call.raw.jti])
  }

  ghost predicate DeadFamily(s: State, f: TokenId) {
    f < |s.tokens| && forall i :: 0 <= i < |s.tokens| && s.tokens[i].family == f ==> s.tokens[i].revoked.Some?
  }

  /** In the session state, a reuse leaves the whole family revoked, with older marks and reasons as they were. */
  lemma ReuseRevokesFamily(lifetime: nat, s: State, call: Call, i: TokenId)
    requires Reachable(lifetime, s) && IsReuse(s, call) && i < |s.tokens|
    ensures var after, f := After(lifetime, s, call), s.tokens[call.raw.jti].family;
            && DeadFamily(after, f)
            && (s.tokens[i].family == f ==>
                  after.tokens[i].revoked == if s.tokens[i].revoked.Some? then s.tokens[i].revoked
                                             else Some(Revocation(call.now, ReuseDetected)))
            && (s.tokens[i].family != f ==> after.tokens[i] == s.tokens[i])
  {
    ReachableInv(lifetime, s);
    assert RootOk(s.tokens, call.raw.jti);
  }

  /** What a request writes is lost exactly when it is a reuse that had something to revoke. */
  lemma RolledBackIff(lifetime: nat, s: State, call: Call)
    requires Reachable(lifetime, s)
    ensures Stored(lifetime, s, call) != After(lifetime, s, call) <==>
              IsReuse(s, call) && !DeadFamily(s, s.tokens[call.raw.jti].family)
  {
    if IsReuse(s, call) {
      ReachableInv(lifetime, s);
      assert RootOk(s.tokens, call.raw.jti);
      ReuseRevokesFamily(lifetime, s, call, call.raw.jti);
      if DeadFamily(s, s.tokens[call.raw.jti].family) {
        assert After(lifetime, s, call).tokens == s.tokens;
      }
    }
  }

  /** The one token of a family that has not been rotated. */
  function Tail(s: State, f: TokenId): (id: TokenId)
    ensures id == PathFrom(s.tokens, f)[|PathFrom(s.tokens, f)| - 1]
  {
    PathFrom(s.tokens, f)[|PathFrom(s.tokens, f)| - 1]
  }

  ghost predicate HasRedeemable(s: State, f: TokenId, now: int) {
    exists i: TokenId :: i < |s.tokens| && s.tokens[i].family == f && Redeemable(s, i, now)
  }

  lemma TailOfFamily(lifetime: nat, s: State, id: TokenId)
    requires Reachable(lifetime, s) && id < |s.tokens|
    ensures var f := s.tokens[id].family;
            && f < |s.tokens| && Tail(s, f) < |s.tokens| && s.tokens[Tail(s, f)].family == f
            && s.tokens[Tail(s, f)].usedAt.None?
            && forall i :: 0 <= i < |s.tokens| && s.tokens[i].family == f && i != Tail(s, f) ==>
                 s.tokens[i].usedAt.Some?
  {
    ReachableInv(lifetime, s);
    assert RootOk(s.tokens, id);
    FamilyIsOnePath(lifetime, s, s.tokens[id].family);
    assert Tail(s, s.tokens[id].family) in PathFrom(s.tokens, s.tokens[id].family);
  }

  /**
   The stored rows after a reuse: the family is without a redeemable token exactly when its tail was
   already revoked, has expired, or belongs to an inactive user.
   */
  lemma ReuseLeavesNoneIff(lifetime: nat, s: State, call: Call, now: int)
    requires Reachable(lifetime, s) && IsReuse(s, call)
    ensures var f := s.tokens[call.raw.jti].family;
            && Tail(s, f) < |s.tokens|
            && var tail := s.tokens[Tail(s, f)];
               !HasRedeemable(Stored(lifetime, s, call), f, now) <==>
                 tail.revoked.Some? || tail.expiresAt <= now || !IsActive(s, tail.user)
  {
    TailOfFamily(lifetime, s, call.raw.jti);
    var f := s.tokens[call.raw.jti].family;
    if Redeemable(s, Tail(s, f), now) {
      assert HasRedeemable(s, f, now);
    }
  }

  /** None of these requests comes before the clock. */
  ghost predicate NotBefore(calls: seq<Call>, clock: int) {
    forall i :: 0 <= i < |calls| && !calls[i].SetActive? ==> clock <= calls[i].now
  }

  /** From the clock on, no run of requests yields a redeemable token of the family. */
  ghost predicate Ended(lifetime: nat, s: State, f: TokenId, clock: int) {
    forall calls, now: int :: NotBefore(calls, clock) && clock <= now ==>
      !HasRedeemable(Run(lifetime, s, calls), f, now)
  }

  ghost predicate Lapsed(s: State, f: TokenId, clock: int) {
    && f < |s.tokens|
    && forall i :: 0 <= i < |s.tokens| && s.tokens[i].family == f ==>
         Spent(s.tokens[i]) || s.tokens[i].expiresAt <= clock
  }

  lemma RequestKeepsLapsed(lifetime: nat, s: State, f: TokenId, clock: int, call: Call)
    requires Lapsed(s, f, clock) && (!call.SetActive? ==> clock <= call.now)
    ensures Lapsed(Stored(lifetime, s, call), f, clock)
  {
  }

  lemma {:induction false} LapsedStaysLapsed(lifetime: nat, s: State, f: TokenId, clock: int, calls: seq<Call>)
    requires Lapsed(s, f, clock) && NotBefore(calls, clock)
    ensures Lapsed(Run(lifetime, s, calls), f, clock)
    decreases |calls|
  {
    if calls != [] {
      RequestKeepsLapsed(lifetime, s, f, clock, calls[0]);
      LapsedStaysLapsed(lifetime, Stored(lifetime, s, calls[0]), f, clock, calls[1..]);
    }
  }

  /** A family with a good tail has a redeemable token once its user is active. */
  lemma ActivationRedeems(lifetime: nat, s: State, f: TokenId, clock: int)
    requires Tail(s, f) < |s.tokens|
    requires var tail := s.tokens[Tail(s, f)]; !Spent(tail) && clock < tail.expiresAt && tail.family == f
    ensures !Ended(lifetime, s, f, clock)
  {
    var calls := [SetActive(s.tokens[Tail(s, f)].user, true)];
    var t := Stored(lifetime, s, calls[0]);
    assert calls[1..] == [];
    assert Run(lifetime, s, calls) == t;
    assert Redeemable(t, Tail(s, f), clock);
    assert HasRedeemable(t, f, clock);
    assert NotBefore(calls, clock);
  }

  /**
   A reuse ends its family for good, whatever is requested later, exactly when the family was ended
   before it: its tail was revoked or had expired.
   */
  lemma ReuseEndsFamilyIff(lifetime: nat, s: State, call: Call)
    requires Reachable(lifetime, s) && IsReuse(s, call)
    ensures var f := s.tokens[call.raw.jti].family;
            && Tail(s, f) < |s.tokens|
            && var tail := s.tokens[Tail(s, f)];
               Ended(lifetime, Stored(lifetime, s, call), f, call.now) <==>
                 tail.revoked.Some? || tail.expiresAt <= call.now
  {
    TailOfFamily(lifetime, s, call.raw.jti);
    var f, clock := s.tokens[call.raw.jti].family, call.now;
    var tail := s.tokens[Tail(s, f)];
    assert Stored(lifetime, s, call) == s;
    if tail.revoked.Some? || tail.expiresAt <= clock {
      assert Lapsed(s, f, clock);
      forall calls, now: int | NotBefore(calls, clock) && clock <= now
        ensures !HasRedeemable(Run(lifetime, s, calls), f, now)
      {
        LapsedStaysLapsed(lifetime, s, f, clock, calls);
      }
    } else {
      ActivationRedeems(lifetime, s, f, clock);
    }
  }

  const NEW_USER := State([], map[1 := true])

  /** The first token of a session of user 1, and the one it is traded for. */
  const FIRST := Signed(0, Some(1), 10)
  const SECOND := Signed(1, Some(1), 11)

  lemma RunCons(lifetime: nat, s: State, call: Call, calls: seq<Call>)
    ensures Run(lifetime, s, [call] + calls) == Run(lifetime, Stored(lifetime, s, call), calls)
  {
    assert ([call] + calls)[1..] == calls;
  }

  /** A session that has been refreshed once. */
  lemma RotatedSession(lifetime: nat, now: int) returns (s: State)
    requires lifetime > 0
    ensures s == Run(lifetime, NEW_USER, [Login(1, true, 10, now), Refresh(FIRST, 11, now)])
    ensures s == State([Token(1, 0, 10, now + lifetime, Some(now), Some(1), None),
                        Token(1, 0, 11, now + lifetime, None, None, None)], map[1 := true])
    ensures Reachable(lifetime, s)
  {
    var login, refresh := Login(1, true, 10, now), Refresh(FIRST, 11, now);
    RunCons(lifetime, NEW_USER, login, [refresh]);
    var begun := Stored(lifetime, NEW_USER, login);
    assert begun.tokens == [Token(1, 0, 10, now + lifetime, None, None, None)];
    RunCons(lifetime, begun, refresh, []);
    s := Stored(lifetime, begun, refresh);
    assert [login] + [refresh] == [login, refresh] && [refresh] + [] == [refresh];
  }

  /** A replayed token is detected, and yet the session goes on: the newest token is still traded for another. */
  lemma SessionOutlivesReuse(lifetime: nat, now: int)
    requires lifetime > 0
    ensures var s := Run(lifetime, NEW_USER, [Login(1, true, 10, now), Refresh(FIRST, 11, now)]);
            var replay, next := Refresh(FIRST, 12, now), Refresh(SECOND, 13, now);
            && Reachable(lifetime, s) && IsReuse(s, replay)
            && DeadFamily(After(lifetime, s, replay), 0)
            && !Raises(Stored(lifetime, s, replay), next)
            && var t := Stored(lifetime, Stored(lifetime, s, replay), next);
               Redeemable(t, 2, now) && t.tokens[2].family == 0
  {
    var s := RotatedSession(lifetime, now);
    ReuseRevokesFamily(lifetime, s, Refresh(FIRST, 12, now), 0);
  }

  // ----- signing a user out -----

  ghost predicate SignedOut(s: State, user: UserId) {
    forall i :: 0 <= i < |s.tokens| && s.tokens[i].user == user ==> s.tokens[i].revoked.Some?
  }

  predicate IsLoginOf(call: Call, user: UserId) {
    call.Login? && call.user == user
  }

  lemma {:induction false} SignedOutUntilLogin(lifetime: nat, s: State, user: UserId, calls: seq<Call>)
    requires SignedOut(s, user) && forall c :: c in calls ==> !IsLoginOf(c, user)
    ensures SignedOut(Run(lifetime, s, calls), user)
    decreases |calls|
  {
    if calls != [] {
      assert calls[0] in calls;
      SignedOutUntilLogin(lifetime, Stored(lifetime, s, calls[0]), user, calls[1..]);
    }
  }

  predicate SignsOut(s: State, call: Call, user: UserId) {
    || (call.LogoutAll? && call.user == user)
    || (call.ResetPassword? && call.link == Some(user) && IsActive(s, user))
    || (call.ConfirmEmailChange? && call.link == Some(user) && IsActive(s, user))
  }

  /** After a sign-out everywhere a user has no redeemable token until the next login. */
  lemma NoSessionUntilLogin(lifetime: nat, s: State, call: Call, user: UserId, calls: seq<Call>, i: TokenId, now: int)
    requires SignsOut(s, call, user) && forall c :: c in calls ==> !IsLoginOf(c, user)
    ensures var later := Run(lifetime, Stored(lifetime, s, call), calls);
            i < |later.tokens| && later.tokens[i].user == user ==> !Redeemable(later, i, now)
  {
    SignedOutUntilLogin(lifetime, Stored(lifetime, s, call), user, calls);
  }

  /** After a password change the user's unrevoked rows are the presented one, if it was genuine and unrevoked. */
  lemma PasswordChangeKeepsOnlyCurrent(lifetime: nat, s: State, call: Call, i: TokenId)
    requires call.ChangePassword? && call.passwordOk && i < |s.tokens| && s.tokens[i].user == call.user
    ensures Stored(lifetime, s, call).tokens[i].revoked.None? <==>
              s.tokens[i].revoked.None? && call.current.Some? && call.current.value.Signed? &&
              call.current.value.jti == i && call.current.value.hash == s.tokens[i].hash
  {
  }

  /** Every unspent token of the user belongs to this family; without one, there is none. */
  ghost predicate OnlyFamily(s: State, user: UserId, family: Option<TokenId>) {
    forall i :: 0 <= i < |s.tokens| && s.tokens[i].user == user && !Spent(s.tokens[i]) ==>
      family == Some(s.tokens[i].family)
  }

  lemma RequestKeepsOnlyFamily(lifetime: nat, s: State, user: UserId, family: Option<TokenId>, call: Call)
    requires OnlyFamily(s, user, family) && !IsLoginOf(call, user)
    ensures OnlyFamily(Stored(lifetime, s, call), user, family)
  {
  }

  lemma {:induction false} RunKeepsOnlyFamily(lifetime: nat, s: State, user: UserId, family: Option<TokenId>,
                                              calls: seq<Call>)
    requires OnlyFamily(s, user, family) && forall c :: c in calls ==> !IsLoginOf(c, user)
    ensures OnlyFamily(Run(lifetime, s, calls), user, family)
    decreases |calls|
  {
    if calls != [] {
      assert calls[0] in calls;
      RequestKeepsOnlyFamily(lifetime, s, user, family, calls[0]);
      RunKeepsOnlyFamily(lifetime, Stored(lifetime, s, calls[0]), user, family, calls[1..]);
    }
  }

  /** The family a password change leaves a session in: that of the genuine presented token, if it is unused. */
  function KeptFamily(s: State, call: Call): Option<TokenId>
    requires call.ChangePassword?
  {
    var keep := KeptByPasswordChange(s, call.user, call.current);
    if keep.Some? && keep.value < |s.tokens| && s.tokens[keep.value].usedAt.None?
    then Some(s.tokens[keep.value].family) else None
  }

  /**
   After a password change, whatever is requested later short of a login, a redeemable token of the user
   belongs to the family of the token that was kept; there is none when no unused token was kept.
   */
  lemma PasswordChangeEndsOtherSessions(lifetime: nat, s: State, call: Call, calls: seq<Call>, i: TokenId, now: int)
    requires call.ChangePassword? && call.passwordOk && forall c :: c in calls ==> !IsLoginOf(c, call.user)
    ensures var later := Run(lifetime, Stored(lifetime, s, call), calls);
            i < |later.tokens| && later.tokens[i].user == call.user && Redeemable(later, i, now) ==>
              KeptFamily(s, call) == Some(later.tokens[i].family)
  {
    var changed := Stored(lifetime, s, call);
    forall k | 0 <= k < |changed.tokens| && changed.tokens[k].user == call.user && !Spent(changed.tokens[k])
      ensures KeptFamily(s, call) == Some(changed.tokens[k].family)
    {
      PasswordChangeKeepsOnlyCurrent(lifetime, s, call, k);
    }
    RunKeepsOnlyFamily(lifetime, changed, call.user, KeptFamily(s, call), calls);
  }

  /** The kept session goes on: its token is as redeemable after the change as before. */
  lemma PasswordChangeKeepsSession(lifetime: nat, s: State, call: Call, now: int)
    requires call.ChangePassword? && call.passwordOk && KeptFamily(s, call).Some?
    ensures var kept := KeptByPasswordChange(s, call.user, call.current).value;
            Redeemable(Stored(lifetime, s, call), kept, now) <==> Redeemable(s, kept, now)
  {
  }

  /** A family's session is over when none of its tokens is both unused and unrevoked. */
  ghost predicate SessionOver(s: State, f: TokenId) {
    forall i :: 0 <= i < |s.tokens| && s.tokens[i].family == f ==> Spent(s.tokens[i])
  }

  /** One row has been revoked. */
  ghost predicate RevokedAt(s: State, after: State, id: TokenId) {
    && id < |s.tokens| == |after.tokens| && after.tokens[id].revoked.Some?
    && after.tokens[id].(revoked := s.tokens[id].revoked) == s.tokens[id]
    && forall i :: 0 <= i < |s.tokens| && i != id ==> after.tokens[i] == s.tokens[i]
  }

  lemma RevokingOneEndsSessionIff(lifetime: nat, s: State, after: State, id: TokenId)
    requires Reachable(lifetime, s) && RevokedAt(s, after, id)
    ensures var t := s.tokens[id];
            SessionOver(after, t.family) <==> t.usedAt.None? || SessionOver(s, t.family)
  {
    ReachableInv(lifetime, s);
    var f := s.tokens[id].family;
    assert RootOk(s.tokens, id);
    FamilyIsOnePath(lifetime, s, f);
    if s.tokens[id].usedAt.Some? && SessionOver(after, f) {
      assert SessionOver(s, f);
    }
  }

  /** Logging out with a token ends its session exactly when that token is the unused one, or the session was over. */
  lemma LogoutEndsSessionIff(lifetime: nat, s: State, call: Call)
    requires Reachable(lifetime, s)
    requires call.Logout? && call.raw.Signed? && call.raw.jti < |s.tokens|
    requires call.raw.hash == s.tokens[call.raw.jti].hash
    ensures var t := s.tokens[call.raw.jti];
            SessionOver(Stored(lifetime, s, call), t.family) <==> t.usedAt.None? || SessionOver(s, t.family)
  {
    RevokingOneEndsSessionIff(lifetime, s, Stored(lifetime, s, call), call.raw.jti);
  }

  /** So does revoking an own session by the id of one of its rows. */
  lemma RevokeSessionEndsItIff(lifetime: nat, s: State, call: Call)
    requires Reachable(lifetime, s)
    requires call.RevokeSession? && call.session < |s.tokens| && s.tokens[call.session].user == call.user
    ensures var t := s.tokens[call.session];
            SessionOver(Stored(lifetime, s, call), t.family) <==> t.usedAt.None? || SessionOver(s, t.family)
  {
    RevokingOneEndsSessionIff(lifetime, s, Stored(lifetime, s, call), call.session);
  }

  /** Logging out with a token that has been rotated leaves the session open. */
  lemma LogoutCanMissSession(lifetime: nat, now: int)
    requires lifetime > 0
    ensures var s := Run(lifetime, NEW_USER, [Login(1, true, 10, now), Refresh(FIRST, 11, now)]);
            var t := Stored(lifetime, s, Logout(FIRST, now));
            && Reachable(lifetime, s) && Matches(s, FIRST)
            && !SessionOver(t, 0) && Redeemable(t, 1, now)
  {
    var s := RotatedSession(lifetime, now);
    LogoutEndsSessionIff(lifetime, s, Logout(FIRST, now));
  }
}
