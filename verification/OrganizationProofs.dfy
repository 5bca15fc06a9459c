/** Ownership and invitations over every serial run. */
module OrganizationProofs {
  import opened Common
  import opened Organizations

  /** The state after a run from empty tables. */
  function Run(cfg: Config, calls: seq<Call>): State {
    if calls == [] then State([], [], [], map[])
    else After(cfg, Run(cfg, calls[..|calls| - 1]), calls[|calls| - 1])
  }

  // ----- laws of the member table -----

  ghost predicate UniqueMembers(members: seq<Membership>) {
    forall i, j :: 0 <= i < j < |members| ==> (members[i].org, members[i].user) != (members[j].org, members[j].user)
  }

  lemma RoleOfSnoc(members: seq<Membership>, m: Membership, org: OrgId, user: UserId)
    ensures RoleOf(members + [m], org, user)
         == if m.org == org && m.user == user then Some(m.role) else RoleOf(members, org, user)
    ensures CountOwners(members + [m], org)
         == CountOwners(members, org) + if m.org == org && m.role.Owner? then 1 else 0
  {
    assert (members + [m])[..|members|] == members;
  }

  lemma {:induction false} RoleOfNone(members: seq<Membership>, org: OrgId, user: UserId)
    ensures RoleOf(members, org, user).None? <==>
              forall i :: 0 <= i < |members| ==> (members[i].org, members[i].user) != (org, user)
  {
    if members != [] {
      RoleOfNone(members[..|members| - 1], org, user);
    }
  }

  lemma AppendKeepsUnique(members: seq<Membership>, m: Membership)
    requires UniqueMembers(members) && RoleOf(members, m.org, m.user).None?
    ensures UniqueMembers(members + [m])
  {
    RoleOfNone(members, m.org, m.user);
  }

  lemma {:induction false} SetRoleLaws(members: seq<Membership>, org: OrgId, user: UserId, role: Role)
    ensures var after := SetRole(members, org, user, role);
            && |after| == |members|
            && forall i :: 0 <= i < |members| ==>
                 after[i] == if members[i].org == org && members[i].user == user
                             then members[i].(role := role) else members[i]
  {
    if members != [] {
      SetRoleLaws(members[..|members| - 1], org, user, role);
    }
  }

  lemma {:induction false} SetRoleRoles(members: seq<Membership>, org: OrgId, user: UserId, role: Role,
                                        o: OrgId, u: UserId)
    ensures RoleOf(SetRole(members, org, user, role), o, u)
         == if o == org && u == user && RoleOf(members, org, user).Some? then Some(role) else RoleOf(members, o, u)
  {
    if members != [] {
      var init, last := members[..|members| - 1], members[|members| - 1];
      SetRoleRoles(init, org, user, role, o, u);
      var before := SetRole(init, org, user, role);
      RoleOfSnoc(before, SetRole(members, org, user, role)[|before|], o, u);
    }
  }

  lemma {:induction false} WithoutRoles(members: seq<Membership>, org: OrgId, user: UserId, o: OrgId, u: UserId)
    ensures RoleOf(Without(members, org, user), o, u)
         == if o == org && u == user then None else RoleOf(members, o, u)
  {
    if members != [] {
      var init, last := members[..|members| - 1], members[|members| - 1];
      WithoutRoles(init, org, user, o, u);
      RoleOfSnoc(Without(init, org, user), last, o, u);
    }
  }

  lemma {:induction false} WithoutMembers(members: seq<Membership>, org: OrgId, user: UserId)
    ensures forall m :: m in Without(members, org, user) ==> m in members
    ensures UniqueMembers(members) ==> UniqueMembers(Without(members, org, user))
  {
    if members != [] {
      var init, last := members[..|members| - 1], members[|members| - 1];
      WithoutMembers(init, org, user);
      var before := Without(init, org, user);
      if UniqueMembers(members) && !(last.org == org && last.user == user) {
        forall i | 0 <= i < |before|
          ensures (before[i].org, before[i].user) != (last.org, last.user)
        {
          assert before[i] in init;
        }
      }
    }
  }

  /** What one member contributes to an organization's owner count. */
  function Contribution(members: seq<Membership>, org: OrgId, user: UserId, o: OrgId): nat {
    if o == org && RoleOf(members, org, user) == Some(Owner) then 1 else 0
  }

  lemma {:induction false} OwnersAfterRemoval(members: seq<Membership>, org: OrgId, user: UserId, o: OrgId)
    requires UniqueMembers(members)
    ensures CountOwners(Without(members, org, user), o) == CountOwners(members, o) - Contribution(members, org, user, o)
  {
    if members != [] {
      var init, last := members[..|members| - 1], members[|members| - 1];
      OwnersAfterRemoval(init, org, user, o);
      RoleOfSnoc(Without(init, org, user), last, o, user);
      if last.org == org && last.user == user {
        RoleOfNone(init, org, user);
      }
    }
  }

  lemma {:induction false} OwnersAfterRoleChange(members: seq<Membership>, org: OrgId, user: UserId, role: Role,
                                                 o: OrgId)
    requires UniqueMembers(members)
    ensures CountOwners(SetRole(members, org, user, role), o)
         == CountOwners(members, o) - Contribution(members, org, user, o)
            + if o == org && RoleOf(members, org, user).Some? && role.Owner? then 1 else 0
  {
    if members != [] {
      var init, last := members[..|members| - 1], members[|members| - 1];
      OwnersAfterRoleChange(init, org, user, role, o);
      var before := SetRole(init, org, user, role);
      RoleOfSnoc(before, SetRole(members, org, user, role)[|before|], o, user);
      if last.org == org && last.user == user {
        RoleOfNone(init, org, user);
      }
    }
  }

  /** Replacing or removing one member changes the owner count by what that member contributed. */
  lemma OwnersAfterChange(members: seq<Membership>, org: OrgId, user: UserId, role: Role, o: OrgId)
    requires UniqueMembers(members)
    ensures CountOwners(Without(members, org, user), o) == CountOwners(members, o) - Contribution(members, org, user, o)
    ensures CountOwners(SetRole(members, org, user, role), o)
         == CountOwners(members, o) - Contribution(members, org, user, o)
            + if o == org && RoleOf(members, org, user).Some? && role.Owner? then 1 else 0
  {
    OwnersAfterRemoval(members, org, user, o);
    OwnersAfterRoleChange(members, org, user, role, o);
  }

  lemma {:induction false} OwnerExists(members: seq<Membership>, org: OrgId)
    requires UniqueMembers(members) && CountOwners(members, org) >= 1
    ensures exists u :: RoleOf(members, org, u) == Some(Owner)
  {
    var init, last := members[..|members| - 1], members[|members| - 1];
    if last.org == org && last.role.Owner? {
      assert RoleOf(members, org, last.user) == Some(Owner);
    } else {
      OwnerExists(init, org);
      var u :| RoleOf(init, org, u) == Some(Owner);
      if last.org == org && last.user == u {
        RoleOfNone(init, org, u);
      }
      assert RoleOf(members, org, u) == Some(Owner);
    }
  }

  // ----- never ownerless -----

  ghost predicate Inv(s: State) {
    && UniqueMembers(s.members)
    && (forall m :: m in s.members ==> m.org < |s.orgs|)
    && (forall i :: 0 <= i < |s.invitations| ==> s.invitations[i].org < |s.orgs|)
    && (forall org :: 0 <= org < |s.orgs| ==> CountOwners(s.members, org) >= 1)
    && (forall i, j :: 0 <= i < j < |s.orgs| ==> s.orgs[i].slug != s.orgs[j].slug)
  }

  lemma JoinKeepsInv(s: State, m: Membership)
    requires Inv(s) && m.org < |s.orgs| && RoleOf(s.members, m.org, m.user).None?
    ensures Inv(s.(members := s.members + [m]))
  {
    AppendKeepsUnique(s.members, m);
    forall org | 0 <= org < |s.orgs|
      ensures CountOwners(s.members + [m], org) >= 1
    {
      RoleOfSnoc(s.members, m, org, m.user);
    }
  }

  lemma CreateKeepsInv(s: State, slug: string, actor: UserId)
    requires Inv(s) && !SlugTaken(s, slug)
    ensures Inv(s.(orgs := s.orgs + [Org(slug, false)], members := s.members + [Membership(|s.orgs|, actor, Owner)]))
  {
    var m := Membership(|s.orgs|, actor, Owner);
    RoleOfNone(s.members, |s.orgs|, actor);
    forall i | 0 <= i < |s.members|
      ensures s.members[i].org != |s.orgs|
    {
      assert s.members[i] in s.members;
    }
    AppendKeepsUnique(s.members, m);
    forall org | 0 <= org < |s.orgs| + 1
      ensures CountOwners(s.members + [m], org) >= 1
    {
      RoleOfSnoc(s.members, m, org, actor);
    }
  }

  lemma ChangeKeepsInv(s: State, org: OrgId, user: UserId, role: Role)
    requires Inv(s) && RoleOf(s.members, org, user).Some?
    requires IsOwner(s, org, user) && !role.Owner? ==> CountOwners(s.members, org) > 1
    ensures Inv(s.(members := SetRole(s.members, org, user, role)))
  {
    var after := SetRole(s.members, org, user, role);
    SetRoleLaws(s.members, org, user, role);
    forall m | m in after
      ensures m.org < |s.orgs|
    {
      var i :| 0 <= i < |after| && after[i] == m;
      assert s.members[i] in s.members;
    }
    forall o | 0 <= o < |s.orgs|
      ensures CountOwners(after, o) >= 1
    {
      OwnersAfterChange(s.members, org, user, role, o);
    }
  }

  lemma RemoveKeepsInv(s: State, org: OrgId, user: UserId)
    requires Inv(s) && (IsOwner(s, org, user) ==> CountOwners(s.members, org) > 1)
    ensures Inv(s.(members := Without(s.members, org, user)))
  {
    WithoutMembers(s.members, org, user);
    forall o | 0 <= o < |s.orgs|
      ensures CountOwners(Without(s.members, org, user), o) >= 1
    {
      OwnersAfterChange(s.members, org, user, Owner, o);
    }
  }

  lemma AcceptKeepsInv(cfg: Config, s: State, call: Call)
    requires Inv(s) && call.Accept?
    ensures Inv(After(cfg, s, call))
  {
    var id := ByHash(s.invitations, call.tokenHash);
    if id.Some? {
      var inv := s.invitations[id.value];
      if IsOpen(inv) && call.now < inv.expiresAt && MayJoin(s, inv, call.actor) {
        JoinKeepsInv(Marked(s, id.value, Accepted), Membership(inv.org, call.actor, inv.role));
      }
    }
  }

  lemma InvitationsKeepInv(cfg: Config, s: State, call: Call)
    requires Inv(s) && (call.Invite? || call.Resend? || call.RevokeInvitation? || call.Decline?)
    ensures Inv(After(cfg, s, call))
  {
  }

  lemma CallKeepsInv(cfg: Config, s: State, call: Call)
    requires Inv(s)
    ensures Inv(After(cfg, s, call))
  {
    match call {
      case CreateOrg(actor, source) =>
        var slug := Slugs.NormalizeSlug(cfg.text, source);
        if slug.Some? && MayUse(s, slug.value) {
          CreateKeepsInv(s, slug.value, actor);
        }
      case AddMember(actor, org, email, role) =>
        if MayAdd(s, call) {
          JoinKeepsInv(s, Membership(org, s.users[email], role));
        }
      case UpdateMember(actor, org, target, role) =>
        if MayUpdate(s, call) {
          ChangeKeepsInv(s, org, target, role);
        }
      case RemoveMember(actor, org, target) =>
        if MayRemove(s, call) {
          RemoveKeepsInv(s, org, target);
        }
      case Accept(_, _, _) => AcceptKeepsInv(cfg, s, call);
      case Invite(_, _, _, _, _, _) => InvitationsKeepInv(cfg, s, call);
      case Resend(_, _, _, _, _) => InvitationsKeepInv(cfg, s, call);
      case RevokeInvitation(_, _, _) => InvitationsKeepInv(cfg, s, call);
      case Decline(_, _) => InvitationsKeepInv(cfg, s, call);
      case Register(_, _) =>
      case ChangeEmail(_, _) =>
      case DeleteOrg(_, _) =>
    }
  }

  lemma {:induction false} RunKeepsInv(cfg: Config, calls: seq<Call>)
    ensures Inv(Run(cfg, calls))
    decreases |calls|
  {
    if calls != [] {
      var init := calls[..|calls| - 1];
      RunKeepsInv(cfg, init);
      CallKeepsInv(cfg, Run(cfg, init), calls[|calls| - 1]);
    }
  }

  /** After any run every organization has an owner, and nobody has two memberships in one organization. */
  lemma NeverOwnerless(cfg: Config, calls: seq<Call>, org: OrgId)
    ensures var s := Run(cfg, calls);
            && UniqueMembers(s.members)
            && (org < |s.orgs| ==> exists u :: IsOwner(s, org, u))
  {
    RunKeepsInv(cfg, calls);
    var s := Run(cfg, calls);
    if org < |s.orgs| {
      OwnerExists(s.members, org);
      var u :| RoleOf(s.members, org, u) == Some(Owner);
      assert IsOwner(s, org, u);
    }
  }

  // ----- where ownership comes from -----

  /** How one call changes anybody's role. */
  lemma RolesAfterCall(cfg: Config, s: State, call: Call, org: OrgId, user: UserId)
    requires Inv(s)
    ensures var before, after := RoleOf(s.members, org, user), RoleOf(After(cfg, s, call).members, org, user);
            after != before ==>
              || (call.CreateOrg? && org == |s.orgs| && user == call.actor && after == Some(Owner))
              || (call.AddMember? && MayAdd(s, call) && call.org == org && s.users[call.email] == user &&
                  after == Some(call.role))
              || (call.UpdateMember? && MayUpdate(s, call) && call.org == org && call.target == user &&
                  after == Some(call.role))
              || (call.RemoveMember? && MayRemove(s, call) && call.org == org && call.target == user && after == None)
              || (call.Accept? && call.actor == user && AcceptsAs(s, call, org, after))
  {
    var t := After(cfg, s, call);
    if t.members != s.members {
      if call.UpdateMember? {
        SetRoleRoles(s.members, call.org, call.target, call.role, org, user);
      } else if call.RemoveMember? {
        WithoutRoles(s.members, call.org, call.target, org, user);
      } else {
        RoleOfSnoc(s.members, t.members[|s.members|], org, user);
      }
    }
  }

  ghost predicate AcceptsAs(s: State, call: Call, org: OrgId, role: Option<Role>)
    requires call.Accept?
  {
    var id := ByHash(s.invitations, call.tokenHash);
    && id.Some?
    && s.invitations[id.value].org == org
    && role == Some(s.invitations[id.value].role)
    && MayJoin(s, s.invitations[id.value], call.actor)
  }

  /** Only an owner ever takes ownership away. */
  lemma OnlyOwnersDemoteOwners(cfg: Config, s: State, call: Call, org: OrgId, user: UserId)
    requires Inv(s) && IsOwner(s, org, user) && !IsOwner(After(cfg, s, call), org, user)
    ensures (call.UpdateMember? || call.RemoveMember?) && call.org == org && call.target == user
    ensures IsOwner(s, org, call.actor)
  {
    RolesAfterCall(cfg, s, call, org, user);
  }

  /** With this call the user becomes an owner of the organization. */
  ghost predicate MakesOwner(cfg: Config, s: State, call: Call, org: OrgId, user: UserId) {
    !IsOwner(s, org, user) && IsOwner(After(cfg, s, call), org, user)
  }

  /** Creating the organization, or an owner adding or promoting this user: the call that makes the user an owner. */
  ghost predicate GrantsOwnership(cfg: Config, s: State, call: Call, org: OrgId, user: UserId) {
    && MakesOwner(cfg, s, call, org, user)
    && (|| (call.CreateOrg? && org == |s.orgs| && call.actor == user)
        || (call.AddMember? && call.org == org && call.role.Owner? && IsOwner(s, org, call.actor) &&
            call.email in s.users && s.users[call.email] == user)
        || (call.UpdateMember? && call.org == org && call.target == user && call.role.Owner? &&
            IsOwner(s, org, call.actor)))
  }

  /** An owner's act that makes the invitation with this number, for the owner role. */
  ghost predicate InvitesOwner(s: State, call: Call, org: OrgId, id: InvitationId) {
    call.Invite? && MayInvite(s, call) && call.org == org && call.role.Owner? && IsOwner(s, org, call.actor) &&
    id == |s.invitations|
  }

  /** The user accepts the invitation with this number, and at that time has this address. */
  ghost predicate AcceptsAt(s: State, call: Call, id: InvitationId, email: Email, user: UserId) {
    call.Accept? && call.actor == user && ByHash(s.invitations, call.tokenHash) == Some(id) &&
    email in s.users && s.users[email] == user
  }

  /** What an owner invited an address to at step i, the user with that address took up at step k, becoming an owner. */
  ghost predicate TookUp(cfg: Config, calls: seq<Call>, i: nat, k: nat, org: OrgId, user: UserId)
    requires i < k < |calls|
  {
    var s, id := Run(cfg, calls[..i]), |Run(cfg, calls[..i]).invitations|;
    && InvitesOwner(s, calls[i], org, id)
    && AcceptsAt(Run(cfg, calls[..k]), calls[k], id, calls[i].email, user)
    && MakesOwner(cfg, Run(cfg, calls[..k]), calls[k], org, user)
  }

  ghost predicate Traced(cfg: Config, calls: seq<Call>, org: OrgId, user: UserId) {
    || (exists i :: 0 <= i < |calls| && GrantsOwnership(cfg, Run(cfg, calls[..i]), calls[i], org, user))
    || (exists i, k :: 0 <= i < k < |calls| && TookUp(cfg, calls, i, k, org, user))
  }

  lemma TracedGrows(cfg: Config, init: seq<Call>, call: Call, org: OrgId, user: UserId)
    requires Traced(cfg, init, org, user)
    ensures Traced(cfg, init + [call], org, user)
  {
    var calls := init + [call];
    assert forall i :: 0 <= i < |init| ==> calls[..i] == init[..i];
    if i :| 0 <= i < |init| && GrantsOwnership(cfg, Run(cfg, init[..i]), init[i], org, user) {
      assert GrantsOwnership(cfg, Run(cfg, calls[..i]), calls[i], org, user);
    } else {
      var i, k :| 0 <= i < k < |init| && TookUp(cfg, init, i, k, org, user);
      assert TookUp(cfg, calls, i, k, org, user);
    }
  }

  /** What one call may do to an invitation: only status, token, expiry and the revocation mark move. */
  lemma InvitationAfterCall(cfg: Config, s: State, call: Call, id: InvitationId)
    requires id < |s.invitations|
    ensures var t := After(cfg, s, call);
            && |s.invitations| <= |t.invitations|
            && var (a, b) := (s.invitations[id], t.invitations[id]);
               && (b.org, b.email, b.role, b.invitedBy) == (a.org, a.email, a.role, a.invitedBy)
               && (!a.status.Pending? ==> b == a)
  {
  }

  lemma NewOwnerInvite(cfg: Config, s: State, call: Call, id: InvitationId)
    requires |s.invitations| <= id < |After(cfg, s, call).invitations|
    requires After(cfg, s, call).invitations[id].role.Owner?
    ensures InvitesOwner(s, call, After(cfg, s, call).invitations[id].org, id)
    ensures call.email == After(cfg, s, call).invitations[id].email
  {
  }

  /** Every owner invitation on record was made by someone who was an owner at the time. */
  lemma {:induction false} OwnerInvitesAreTraced(cfg: Config, calls: seq<Call>, id: InvitationId) returns (i: nat)
    requires id < |Run(cfg, calls).invitations| && Run(cfg, calls).invitations[id].role.Owner?
    ensures i < |calls| && InvitesOwner(Run(cfg, calls[..i]), calls[i], Run(cfg, calls).invitations[id].org, id)
    ensures calls[i].email == Run(cfg, calls).invitations[id].email
    decreases |calls|
  {
    i := |calls| - 1;
    var s := Run(cfg, calls[..i]);
    if id < |s.invitations| {
      InvitationAfterCall(cfg, s, calls[i], id);
      var k := OwnerInvitesAreTraced(cfg, calls[..i], id);
      assert calls[..i][..k] == calls[..k] && calls[..i][k] == calls[k];
      i := k;
    } else {
      NewOwnerInvite(cfg, s, calls[i], id);
    }
  }

  /** Every owner traces back to creating the organization or to an act of someone who was an owner when acting. */
  lemma {:induction false} OwnershipIsTraced(cfg: Config, calls: seq<Call>, org: OrgId, user: UserId)
    requires IsOwner(Run(cfg, calls), org, user)
    ensures Traced(cfg, calls, org, user)
    decreases |calls|
  {
    var init, call := calls[..|calls| - 1], calls[|calls| - 1];
    var s := Run(cfg, init);
    assert calls == init + [call];
    RunKeepsInv(cfg, init);
    RolesAfterCall(cfg, s, call, org, user);
    if IsOwner(s, org, user) {
      OwnershipIsTraced(cfg, init, org, user);
      TracedGrows(cfg, init, call, org, user);
      return;
    }
    assert MakesOwner(cfg, s, call, org, user);
    if call.Accept? {
      var id := ByHash(s.invitations, call.tokenHash).value;
      var i := OwnerInvitesAreTraced(cfg, init, id);
      assert calls[..i] == init[..i];
      assert TookUp(cfg, calls, i, |init|, org, user);
    } else {
      assert GrantsOwnership(cfg, Run(cfg, calls[..|init|]), calls[|init|], org, user);
    }
  }

  // ----- invitations -----

  lemma SettledStaysSettled(cfg: Config, calls: seq<Call>, call: Call, id: InvitationId)
    requires id < |Run(cfg, calls).invitations| && !Run(cfg, calls).invitations[id].status.Pending?
    ensures id < |Run(cfg, calls + [call]).invitations|
    ensures Run(cfg, calls + [call]).invitations[id] == Run(cfg, calls).invitations[id]
  {
    assert (calls + [call])[..|calls|] == calls;
    InvitationAfterCall(cfg, Run(cfg, calls), call, id);
  }

  /** An invitation that has left PENDING never changes again, whatever is called. */
  lemma {:induction false} SettledInvitationIsFrozen(cfg: Config, calls: seq<Call>, more: seq<Call>, id: InvitationId)
    requires id < |Run(cfg, calls).invitations| && !Run(cfg, calls).invitations[id].status.Pending?
    ensures id < |Run(cfg, calls + more).invitations|
    ensures Run(cfg, calls + more).invitations[id] == Run(cfg, calls).invitations[id]
    decreases |more|
  {
    if more == [] {
      assert calls + more == calls;
    } else {
      var init := more[..|more| - 1];
      SettledInvitationIsFrozen(cfg, calls, init, id);
      assert calls + more == (calls + init) + [more[|more| - 1]];
      SettledStaysSettled(cfg, calls + init, more[|more| - 1], id);
    }
  }

  /** No address has two live invitations to one organization. */
  ghost predicate AtMostOneLive(s: State, now: int) {
    forall i, j :: 0 <= i < j < |s.invitations| &&
                   IsLive(s.invitations[i], s.invitations[i].org, s.invitations[i].email, now) ==>
      !IsLive(s.invitations[j], s.invitations[i].org, s.invitations[i].email, now)
  }

  lemma OtherCallsKeepOneLive(cfg: Config, s: State, call: Call, now: int)
    requires AtMostOneLive(s, now) && !call.Resend?
    requires call.Invite? ==> call.now == now
    ensures AtMostOneLive(After(cfg, s, call), now)
  {
    var t := After(cfg, s, call);
    forall i | 0 <= i < |s.invitations|
      ensures IsLive(t.invitations[i], t.invitations[i].org, t.invitations[i].email, now) ==>
                t.invitations[i] == s.invitations[i]
    {
    }
  }

  /** A resend keeps the bound exactly when no other invitation for the address is live. */
  lemma ResendKeepsOneLiveIff(cfg: Config, s: State, call: Call)
    requires call.Resend? && MayResend(s, call) && AtMostOneLive(s, call.now) && cfg.lifetime > 0
    ensures var inv := s.invitations[call.invitation];
            AtMostOneLive(After(cfg, s, call), call.now) <==>
              forall j :: 0 <= j < |s.invitations| && j != call.invitation ==>
                !IsLive(s.invitations[j], inv.org, inv.email, call.now)
  {
    var t, id, now := After(cfg, s, call), call.invitation, call.now;
    assert IsLive(t.invitations[id], s.invitations[id].org, s.invitations[id].email, now);
    assert forall j :: 0 <= j < |s.invitations| && j != id ==> t.invitations[j] == s.invitations[j];
    assert forall j :: 0 <= j < |s.invitations| && j != id ==>
      (IsLive(t.invitations[j], s.invitations[id].org, s.invitations[id].email, now) <==>
       IsLive(s.invitations[j], s.invitations[id].org, s.invitations[id].email, now));
  }

  /** Inviting an address again once its invitation has expired, and then resending the old one, leaves two live. */
  lemma ResendRevivesExpired(cfg: Config, s: State, invite: Call, resend: Call)
    requires invite.Invite? && MayInvite(s, invite) && cfg.lifetime > 0
    requires resend.Resend? && resend.now == invite.now && resend.tokenHash != invite.tokenHash
    requires MayResend(s, resend) && s.invitations[resend.invitation].email == invite.email && resend.org == invite.org
    ensures var t := After(cfg, After(cfg, s, invite), resend);
            && resend.invitation < |s.invitations| < |t.invitations|
            && IsLive(t.invitations[resend.invitation], invite.org, invite.email, invite.now)
            && IsLive(t.invitations[|s.invitations|], invite.org, invite.email, invite.now)
            && !AtMostOneLive(t, invite.now)
  {
    var s1 := After(cfg, s, invite);
    assert !HashTaken(s1, resend.tokenHash);
    var t := After(cfg, s1, resend);
    assert t.invitations[|s.invitations|] == s1.invitations[|s.invitations|];
  }

  lemma RunSnoc(cfg: Config, calls: seq<Call>, call: Call)
    ensures Run(cfg, calls + [call]) == After(cfg, Run(cfg, calls), call)
  {
    assert (calls + [call])[..|calls|] == calls;
  }

  const CREATED := [Register("o", 1), CreateOrg(1, "a")]

  lemma CreatedState(cfg: Config)
    requires Slugs.Sane(cfg.text)
    ensures Run(cfg, CREATED) == State([Org("a", false)], [Membership(0, 1, Owner)], [], map["o" := 1])
  {
    var register, create := Register("o", 1), CreateOrg(1, "a");
    assert [register] == [] + [register] && CREATED == [register] + [create];
    RunSnoc(cfg, [], register);
    RunSnoc(cfg, [register], create);
    OneLetterSlug(cfg.text);
  }

  /** An organization with one open invitation. */
  lemma ExpiredInvitation(cfg: Config) returns (s: State)
    requires Slugs.Sane(cfg.text) && cfg.lifetime > 0
    ensures s == Run(cfg, CREATED + [Invite(1, 0, "x", Viewer, 10, 0)])
    ensures s == State([Org("a", false)], [Membership(0, 1, Owner)],
                       [Invitation(0, "x", Viewer, 1, 10, cfg.lifetime, Pending, false)], map["o" := 1])
  {
    CreatedState(cfg);
    var before, invite := Run(cfg, CREATED), Invite(1, 0, "x", Viewer, 10, 0);
    assert RoleOf(before.members, 0, 1) == Some(Owner);
    RunSnoc(cfg, CREATED, invite);
    s := After(cfg, before, invite);
  }

  lemma OneLetterSlug(t: Slugs.Text)
    requires Slugs.Sane(t)
    ensures Slugs.NormalizeSlug(t, "a") == Some("a")
  {
    assert Slugs.Lower(t, "a") == "a";
    assert Slugs.Runs("a") == ["a"];
    Slugs.SlugIsJoinedRuns(t, "a");
  }

  /** From empty tables: inviting an address again once its invitation has expired, and resending the old one. */
  lemma TwoLiveAreReachable(cfg: Config)
    requires Slugs.Sane(cfg.text) && cfg.lifetime > 0
    ensures var again, resend := Invite(1, 0, "x", Viewer, 11, cfg.lifetime), Resend(1, 0, 0, 12, cfg.lifetime);
            var calls := CREATED + [Invite(1, 0, "x", Viewer, 10, 0)] + [again] + [resend];
            !AtMostOneLive(Run(cfg, calls), cfg.lifetime)
  {
    var s := ExpiredInvitation(cfg);
    var calls := CREATED + [Invite(1, 0, "x", Viewer, 10, 0)];
    var again, resend := Invite(1, 0, "x", Viewer, 11, cfg.lifetime), Resend(1, 0, 0, 12, cfg.lifetime);
    assert RoleOf(s.members, 0, 1) == Some(Owner);
    assert MayInvite(s, again) && MayResend(s, resend);
    ResendRevivesExpired(cfg, s, again, resend);
    RunSnoc(cfg, calls, again);
    RunSnoc(cfg, calls + [again], resend);
  }

  // ----- one live invitation over whole runs -----

  /** When a call reads the clock, and what it reads. */
  function TimeOf(call: Call): Option<int> {
    match call
    case Invite(_, _, _, _, _, now) => Some(now)
    case Resend(_, _, _, _, now) => Some(now)
    case Accept(_, _, now) => Some(now)
    case Decline(_, now) => Some(now)
    case _ => None
  }

  /** The calls come in the order of their times, none of them after now. */
  ghost predicate InTime(calls: seq<Call>, now: int) {
    && (forall i :: 0 <= i < |calls| && TimeOf(calls[i]).Some? ==> TimeOf(calls[i]).value <= now)
    && (forall i, j :: 0 <= i < j < |calls| && TimeOf(calls[i]).Some? && TimeOf(calls[j]).Some? ==>
          TimeOf(calls[i]).value <= TimeOf(calls[j]).value)
  }

  /** A resend that goes through while another invitation for the address is live. */
  ghost predicate ResendsBesideLive(s: State, call: Call) {
    && call.Resend? && MayResend(s, call)
    && exists j :: 0 <= j < |s.invitations| && j != call.invitation &&
         IsLive(s.invitations[j], call.org, s.invitations[call.invitation].email, call.now)
  }

  ghost predicate NeverBesideLive(cfg: Config, calls: seq<Call>) {
    forall n :: 0 <= n < |calls| ==> !ResendsBesideLive(Run(cfg, calls[..n]), calls[n])
  }

  lemma LiveLater(s: State, earlier: int, now: int)
    requires AtMostOneLive(s, earlier) && earlier <= now
    ensures AtMostOneLive(s, now)
  {
  }

  lemma CallKeepsOneLive(cfg: Config, s: State, call: Call, now: int)
    requires !ResendsBesideLive(s, call)
    requires TimeOf(call).Some? ==> TimeOf(call).value <= now
    requires AtMostOneLive(s, if TimeOf(call).Some? then TimeOf(call).value else now)
    ensures AtMostOneLive(After(cfg, s, call), now)
  {
    var moment := if TimeOf(call).Some? then TimeOf(call).value else now;
    if !call.Resend? {
      OtherCallsKeepOneLive(cfg, s, call, moment);
    } else if MayResend(s, call) {
      var t, id := After(cfg, s, call), call.invitation;
      assert forall j :: 0 <= j < |s.invitations| && j != id ==> t.invitations[j] == s.invitations[j];
    }
    LiveLater(After(cfg, s, call), moment, now);
  }

  lemma {:induction false} OneLiveWithoutSuchResend(cfg: Config, calls: seq<Call>, now: int)
    requires InTime(calls, now) && NeverBesideLive(cfg, calls)
    ensures AtMostOneLive(Run(cfg, calls), now)
    decreases |calls|
  {
    if calls != [] {
      var init, call := calls[..|calls| - 1], calls[|calls| - 1];
      assert forall n :: 0 <= n < |init| ==> init[..n] == calls[..n];
      assert calls[..|init|] == init;
      OneLiveWithoutSuchResend(cfg, init, if TimeOf(call).Some? then TimeOf(call).value else now);
      CallKeepsOneLive(cfg, Run(cfg, init), call, now);
    }
  }

  /** After any number of the calls, and at any time from the last of them on, no address has two live invitations. */
  ghost predicate AlwaysOneLive(cfg: Config, calls: seq<Call>) {
    forall n, now: int :: 0 <= n <= |calls| && InTime(calls[..n], now) ==> AtMostOneLive(Run(cfg, calls[..n]), now)
  }

  lemma ResendBesideLiveBreaks(cfg: Config, s: State, call: Call)
    requires ResendsBesideLive(s, call) && cfg.lifetime > 0
    ensures !AtMostOneLive(s, call.now) || !AtMostOneLive(After(cfg, s, call), call.now)
  {
    if AtMostOneLive(s, call.now) {
      ResendKeepsOneLiveIff(cfg, s, call);
    }
  }

  lemma OneLiveMeansNoSuchResend(cfg: Config, calls: seq<Call>, end: int, n: nat)
    requires InTime(calls, end) && cfg.lifetime > 0 && n < |calls| && AlwaysOneLive(cfg, calls)
    ensures !ResendsBesideLive(Run(cfg, calls[..n]), calls[n])
  {
    var s, call := Run(cfg, calls[..n]), calls[n];
    if ResendsBesideLive(s, call) {
      InTimeUpto(calls, end, n);
      assert calls[..n + 1] == calls[..n] + [call];
      RunSnoc(cfg, calls[..n], call);
      ResendBesideLiveBreaks(cfg, s, call);
    }
  }

  lemma OneLiveAtEveryPrefix(cfg: Config, calls: seq<Call>, n: nat, now: int)
    requires NeverBesideLive(cfg, calls) && n <= |calls| && InTime(calls[..n], now)
    ensures AtMostOneLive(Run(cfg, calls[..n]), now)
  {
    assert forall k :: 0 <= k < n ==> calls[..n][..k] == calls[..k];
    OneLiveWithoutSuchResend(cfg, calls[..n], now);
  }

  /** The bound holds throughout a run exactly when no resend goes through beside another live invitation. */
  lemma AlwaysOneLiveIff(cfg: Config, calls: seq<Call>, end: int)
    requires InTime(calls, end) && cfg.lifetime > 0
    ensures AlwaysOneLive(cfg, calls) <==> NeverBesideLive(cfg, calls)
  {
    if NeverBesideLive(cfg, calls) {
      forall n, now: int | 0 <= n <= |calls| && InTime(calls[..n], now)
        ensures AtMostOneLive(Run(cfg, calls[..n]), now)
      {
        OneLiveAtEveryPrefix(cfg, calls, n, now);
      }
    }
    if AlwaysOneLive(cfg, calls) {
      forall n | 0 <= n < |calls|
        ensures !ResendsBesideLive(Run(cfg, calls[..n]), calls[n])
      {
        OneLiveMeansNoSuchResend(cfg, calls, end, n);
      }
    }
  }

  lemma InTimeUpto(calls: seq<Call>, end: int, n: nat)
    requires InTime(calls, end) && n < |calls| && TimeOf(calls[n]).Some?
    ensures InTime(calls[..n], TimeOf(calls[n]).value) && InTime(calls[..n + 1], TimeOf(calls[n]).value)
  {
  }
}
