/**
 Who may change an organization, and when a change goes through, in terms of roles and rows alone;
 and that an invitation that has been answered, revoked or has expired admits nobody.
 */
module OrganizationRights {
  import opened Common
  import Slugs
  import opened Organizations
  import opened OrganizationProofs

  // ----- roles -----

  function Rank(role: Role): nat {
    match role
    case Viewer => 0
    case Member => 1
    case Admin => 2
    case Owner => 3
  }

  /** The lowest role that has the permission. */
  function LowestWith(permission: Permission): Role {
    match permission
    case OrganizationRead => Viewer
    case ArtifactRead => Viewer
    case PolicyRead => Viewer
    case ArtifactWrite => Member
    case ResourceCreate => Member
    case TaskCancel => Member
    case OrganizationUpdate => Admin
    case MemberManage => Admin
    case PolicyManage => Admin
    case AuditRead => Admin
    case OrganizationDelete => Owner
  }

  /** The role table is a ladder: each permission belongs to a lowest role and to all above it. */
  lemma RolesAreALadder(role: Role, permission: Permission)
    ensures RoleHasPermission(role, permission) <==> Rank(LowestWith(permission)) <= Rank(role)
  {
  }

  /** An owner or an admin of an organization that exists and is not deleted. */
  predicate Manages(s: State, org: OrgId, user: UserId) {
    && org < |s.orgs| && !s.orgs[org].deleted
    && (RoleOf(s.members, org, user) == Some(Owner) || RoleOf(s.members, org, user) == Some(Admin))
  }

  lemma ManagersMay(s: State, org: OrgId, user: UserId)
    ensures May(s, org, user, MemberManage) <==> Manages(s, org, user)
    ensures May(s, org, user, OrganizationDelete) <==> Manages(s, org, user) && IsOwner(s, org, user)
  {
  }

  // ----- creating, and whose address is whose -----

  /** An organization is created exactly with a slug that no organization has or had, of at most 100 characters. */
  lemma CreateGoesThroughIff(cfg: Config, s: State, call: Call)
    requires call.CreateOrg?
    ensures var slug, t := Slugs.NormalizeSlug(cfg.text, call.slugSource), After(cfg, s, call);
            if slug.Some? && |slug.value| <= 100 && forall i :: 0 <= i < |s.orgs| ==> s.orgs[i].slug != slug.value
            then
              && t.orgs == s.orgs + [Org(slug.value, false)] && t.invitations == s.invitations && t.users == s.users
              && forall o, u :: RoleOf(t.members, o, u)
                             == if o == |s.orgs| && u == call.actor then Some(Owner) else RoleOf(s.members, o, u)
            else t == s
  {
    forall o, u
      ensures RoleOf(s.members + [Membership(|s.orgs|, call.actor, Owner)], o, u)
           == if o == |s.orgs| && u == call.actor then Some(Owner) else RoleOf(s.members, o, u)
    {
      RoleOfSnoc(s.members, Membership(|s.orgs|, call.actor, Owner), o, u);
    }
  }

  ghost predicate OneAddressEach(users: map<Email, UserId>) {
    forall e, f :: e in users && f in users && users[e] == users[f] ==> e == f
  }

  /** Over every run nobody has two addresses, and an address is one user's. */
  lemma {:induction false} RunKeepsOneAddress(cfg: Config, calls: seq<Call>)
    ensures OneAddressEach(Run(cfg, calls).users)
    decreases |calls|
  {
    if calls != [] {
      RunKeepsOneAddress(cfg, calls[..|calls| - 1]);
      CallKeepsOneAddress(cfg, Run(cfg, calls[..|calls| - 1]), calls[|calls| - 1]);
    }
  }

  lemma CallKeepsOneAddress(cfg: Config, s: State, call: Call)
    requires OneAddressEach(s.users)
    ensures OneAddressEach(After(cfg, s, call).users)
  {
    if call.Register? && call.email !in s.users {
      assert forall e :: e in s.users ==> s.users[e] in s.users.Values;
    }
  }

  /** A user whose new address is free, or already the user's own, has it afterwards, and nobody else's moves. */
  lemma EmailChangeGoesThroughIff(cfg: Config, s: State, call: Call, old': Email)
    requires call.ChangeEmail? && old' in s.users && s.users[old'] == call.user && OneAddressEach(s.users)
    ensures var t := After(cfg, s, call).users;
            if call.email in s.users && s.users[call.email] != call.user then t == s.users
            else
              && call.email in t && t[call.email] == call.user && (call.email != old' ==> old' !in t)
              && forall e :: e != call.email && e != old' ==>
                   (e in t <==> e in s.users) && (e in t ==> t[e] == s.users[e])
  {
    assert call.user in s.users.Values;
  }

  // ----- deleting -----

  /** The i-th call asks for the deletion of the organization and comes from one of its owners. */
  ghost predicate OwnerDeletes(cfg: Config, calls: seq<Call>, i: nat, org: OrgId) {
    && i < |calls| && calls[i].DeleteOrg? && calls[i].org == org
    && org < |Run(cfg, calls[..i]).orgs| && IsOwner(Run(cfg, calls[..i]), org, calls[i].actor)
  }

  lemma DeletedAfterCall(cfg: Config, s: State, call: Call, org: OrgId)
    requires org < |After(cfg, s, call).orgs|
    ensures After(cfg, s, call).orgs[org].deleted <==>
              org < |s.orgs| &&
              (s.orgs[org].deleted || (call.DeleteOrg? && call.org == org && IsOwner(s, org, call.actor)))
  {
    if org < |s.orgs| && call.DeleteOrg? {
      ManagersMay(s, org, call.actor);
    }
  }

  lemma OwnerDeletesSnoc(cfg: Config, calls: seq<Call>, call: Call, i: nat, org: OrgId)
    requires i < |calls|
    ensures OwnerDeletes(cfg, calls + [call], i, org) <==> OwnerDeletes(cfg, calls, i, org)
  {
    assert (calls + [call])[..i] == calls[..i];
  }

  /** Over every run, an organization is deleted exactly when somebody who owned it at that moment deleted it. */
  lemma {:induction false} DeletedIff(cfg: Config, calls: seq<Call>, org: OrgId)
    requires org < |Run(cfg, calls).orgs|
    ensures Run(cfg, calls).orgs[org].deleted <==> exists i: nat :: OwnerDeletes(cfg, calls, i, org)
    decreases |calls|
  {
    var init, call := calls[..|calls| - 1], calls[|calls| - 1];
    var s := Run(cfg, init);
    assert calls == init + [call];
    DeletedAfterCall(cfg, s, call, org);
    assert OwnerDeletes(cfg, calls, |init|, org) <==>
           call.DeleteOrg? && call.org == org && org < |s.orgs| && IsOwner(s, org, call.actor);
    forall i: nat | i < |init|
      ensures OwnerDeletes(cfg, calls, i, org) <==> OwnerDeletes(cfg, init, i, org)
    {
      OwnerDeletesSnoc(cfg, init, call, i, org);
    }
    if org < |s.orgs| {
      DeletedIff(cfg, init, org);
    } else {
      NeverDeletedBefore(cfg, init, org);
    }
  }

  lemma CallKeepsOrgs(cfg: Config, s: State, call: Call)
    ensures |s.orgs| <= |After(cfg, s, call).orgs|
  {
  }

  lemma {:induction false} OrgsGrow(cfg: Config, calls: seq<Call>, n: nat)
    requires n <= |calls|
    ensures |Run(cfg, calls[..n]).orgs| <= |Run(cfg, calls).orgs|
    decreases |calls|
  {
    if n < |calls| {
      var init := calls[..|calls| - 1];
      OrgsGrow(cfg, init, n);
      CallKeepsOrgs(cfg, Run(cfg, init), calls[|calls| - 1]);
      assert init[..n] == calls[..n];
    } else {
      assert calls[..n] == calls;
    }
  }

  lemma NeverDeletedBefore(cfg: Config, calls: seq<Call>, org: OrgId)
    requires |Run(cfg, calls).orgs| <= org
    ensures forall i: nat :: !OwnerDeletes(cfg, calls, i, org)
  {
    forall i: nat | i < |calls|
      ensures !OwnerDeletes(cfg, calls, i, org)
    {
      OrgsGrow(cfg, calls, i);
    }
  }

  // ----- members -----

  /**
   A call that changes anybody's role in an organization creates the organization, is this user accepting an
   invitation, or comes from an owner or admin of the organization.
   */
  lemma OnlyManagersChangeRoles(cfg: Config, s: State, call: Call, org: OrgId, user: UserId)
    requires Inv(s) && RoleOf(After(cfg, s, call).members, org, user) != RoleOf(s.members, org, user)
    ensures || (call.CreateOrg? && org == |s.orgs| && call.actor == user)
            || (call.Accept? && call.actor == user)
            || ((call.AddMember? || call.UpdateMember? || call.RemoveMember?) && call.org == org &&
                Manages(s, org, call.actor))
  {
    RolesAfterCall(cfg, s, call, org, user);
    if call.AddMember? || call.UpdateMember? || call.RemoveMember? {
      ManagersMay(s, org, call.actor);
    }
  }

  /** Only this one user's role in this one organization is another; None is no membership. */
  ghost predicate OnlyRoleChanged(s: State, t: State, org: OrgId, user: UserId, role: Option<Role>) {
    && t.orgs == s.orgs && t.invitations == s.invitations && t.users == s.users
    && forall o, u :: RoleOf(t.members, o, u) == if o == org && u == user then role else RoleOf(s.members, o, u)
  }

  ghost predicate HasAnotherOwner(s: State, org: OrgId, user: UserId) {
    exists u :: u != user && IsOwner(s, org, u)
  }

  lemma OwnerIsCounted(members: seq<Membership>, org: OrgId, user: UserId)
    requires UniqueMembers(members) && RoleOf(members, org, user) == Some(Owner)
    ensures CountOwners(members, org) >= 1
  {
    OwnersAfterRemoval(members, org, user, org);
  }

  lemma CountsAnotherOwner(s: State, org: OrgId, user: UserId)
    requires Inv(s) && IsOwner(s, org, user)
    ensures CountOwners(s.members, org) > 1 <==> HasAnotherOwner(s, org, user)
  {
    var others := Without(s.members, org, user);
    OwnersAfterRemoval(s.members, org, user, org);
    WithoutMembers(s.members, org, user);
    if CountOwners(s.members, org) > 1 {
      OwnerExists(others, org);
      var u :| RoleOf(others, org, u) == Some(Owner);
      WithoutRoles(s.members, org, user, org, u);
      assert u != user && IsOwner(s, org, u);
    }
    if HasAnotherOwner(s, org, user) {
      var u :| u != user && IsOwner(s, org, u);
      WithoutRoles(s.members, org, user, org, u);
      OwnerIsCounted(others, org, u);
    }
  }

  /** An owner or admin adds a registered user who is not a member; only an owner adds an owner. */
  lemma AddGoesThroughIff(cfg: Config, s: State, call: Call)
    requires call.AddMember?
    ensures var org, t := call.org, After(cfg, s, call);
            if Manages(s, org, call.actor) && (call.role.Owner? ==> IsOwner(s, org, call.actor)) &&
               call.email in s.users && RoleOf(s.members, org, s.users[call.email]).None?
            then OnlyRoleChanged(s, t, org, s.users[call.email], Some(call.role))
            else t == s
  {
    ManagersMay(s, call.org, call.actor);
    if MayAdd(s, call) {
      forall o, u
        ensures RoleOf(After(cfg, s, call).members, o, u)
             == if o == call.org && u == s.users[call.email] then Some(call.role) else RoleOf(s.members, o, u)
      {
        RoleOfSnoc(s.members, Membership(call.org, s.users[call.email], call.role), o, u);
      }
    }
  }

  /** An owner or admin changes a member's role; only an owner makes or demotes an owner, and never the last one. */
  lemma UpdateGoesThroughIff(cfg: Config, s: State, call: Call)
    requires Inv(s) && call.UpdateMember?
    ensures var org, t := call.org, After(cfg, s, call);
            if Manages(s, org, call.actor) && RoleOf(s.members, org, call.target).Some? &&
               (call.role.Owner? || IsOwner(s, org, call.target) ==> IsOwner(s, org, call.actor)) &&
               (IsOwner(s, org, call.target) && !call.role.Owner? ==> HasAnotherOwner(s, org, call.target))
            then OnlyRoleChanged(s, t, org, call.target, Some(call.role))
            else t == s
  {
    ManagersMay(s, call.org, call.actor);
    if IsOwner(s, call.org, call.target) {
      CountsAnotherOwner(s, call.org, call.target);
    }
    if MayUpdate(s, call) {
      forall o, u
        ensures RoleOf(After(cfg, s, call).members, o, u)
             == if o == call.org && u == call.target then Some(call.role) else RoleOf(s.members, o, u)
      {
        SetRoleRoles(s.members, call.org, call.target, call.role, o, u);
      }
    }
  }

  /** An owner or admin removes a member; only an owner removes an owner, and never the last one. */
  lemma RemoveGoesThroughIff(cfg: Config, s: State, call: Call)
    requires Inv(s) && call.RemoveMember?
    ensures var org, t := call.org, After(cfg, s, call);
            if Manages(s, org, call.actor) && RoleOf(s.members, org, call.target).Some? &&
               (IsOwner(s, org, call.target) ==>
                  IsOwner(s, org, call.actor) && HasAnotherOwner(s, org, call.target))
            then OnlyRoleChanged(s, t, org, call.target, None)
            else t == s
  {
    ManagersMay(s, call.org, call.actor);
    if IsOwner(s, call.org, call.target) {
      CountsAnotherOwner(s, call.org, call.target);
    }
    if MayRemove(s, call) {
      forall o, u
        ensures RoleOf(After(cfg, s, call).members, o, u)
             == if o == call.org && u == call.target then None else RoleOf(s.members, o, u)
      {
        WithoutRoles(s.members, call.org, call.target, o, u);
      }
    }
  }

  // ----- invitations -----

  /** The invitation is new after the call, or another. */
  ghost predicate Touches(s: State, t: State, id: InvitationId) {
    id < |t.invitations| && (id >= |s.invitations| || t.invitations[id] != s.invitations[id])
  }

  /** Whoever makes or changes an invitation holds its token, or is an owner or admin of its organization. */
  lemma OnlyManagersTouchInvitations(cfg: Config, s: State, call: Call, id: InvitationId)
    requires Touches(s, After(cfg, s, call), id)
    ensures || ((call.Accept? || call.Decline?) && id < |s.invitations| &&
                s.invitations[id].tokenHash == call.tokenHash)
            || ((call.Invite? || call.Resend? || call.RevokeInvitation?) &&
                call.org == After(cfg, s, call).invitations[id].org && Manages(s, call.org, call.actor))
  {
    if call.Invite? || call.Resend? || call.RevokeInvitation? {
      ManagersMay(s, call.org, call.actor);
    }
  }

  /** An owner or admin invites an address that is no member's and has no open invitation that still runs. */
  lemma InviteGoesThroughIff(cfg: Config, s: State, call: Call)
    requires call.Invite?
    ensures if Manages(s, call.org, call.actor) && (call.role.Owner? ==> IsOwner(s, call.org, call.actor)) &&
               (call.email in s.users ==> RoleOf(s.members, call.org, s.users[call.email]).None?) &&
               (forall i :: 0 <= i < |s.invitations| && s.invitations[i].org == call.org &&
                            s.invitations[i].email == call.email && s.invitations[i].status == Pending ==>
                  s.invitations[i].revoked || s.invitations[i].expiresAt <= call.now) &&
               (forall i :: 0 <= i < |s.invitations| ==> s.invitations[i].tokenHash != call.tokenHash)
            then After(cfg, s, call) ==
                   s.(invitations := s.invitations +
                        [Invitation(call.org, call.email, call.role, call.actor, call.tokenHash,
                                    call.now + cfg.lifetime, Pending, false)])
            else After(cfg, s, call) == s
  {
    ManagersMay(s, call.org, call.actor);
  }

  /** An owner or admin resends what is pending and not revoked, and revokes what is pending, of the organization's. */
  lemma ResendAndRevokeGoThroughIff(cfg: Config, s: State, call: Call)
    requires call.Resend? || call.RevokeInvitation?
    ensures var id, t := call.invitation, After(cfg, s, call);
            if Manages(s, call.org, call.actor) && id < |s.invitations| && s.invitations[id].org == call.org &&
               s.invitations[id].status == Pending &&
               (call.Resend? ==>
                  !s.invitations[id].revoked &&
                  forall i :: 0 <= i < |s.invitations| ==> s.invitations[i].tokenHash != call.tokenHash)
            then t == s.(invitations := s.invitations[id :=
                           if call.Resend?
                           then s.invitations[id].(tokenHash := call.tokenHash, expiresAt := call.now + cfg.lifetime)
                           else s.invitations[id].(status := Revoked, revoked := true)])
            else t == s
  {
    ManagersMay(s, call.org, call.actor);
  }

  ghost predicate UniqueHashes(invitations: seq<Invitation>) {
    forall i, j :: 0 <= i < j < |invitations| ==> invitations[i].tokenHash != invitations[j].tokenHash
  }

  lemma CallKeepsUniqueHashes(cfg: Config, s: State, call: Call)
    requires UniqueHashes(s.invitations)
    ensures UniqueHashes(After(cfg, s, call).invitations)
  {
  }

  lemma {:induction false} RunKeepsUniqueHashes(cfg: Config, calls: seq<Call>)
    ensures UniqueHashes(Run(cfg, calls).invitations)
    decreases |calls|
  {
    if calls != [] {
      RunKeepsUniqueHashes(cfg, calls[..|calls| - 1]);
      CallKeepsUniqueHashes(cfg, Run(cfg, calls[..|calls| - 1]), calls[|calls| - 1]);
    }
  }

  lemma HashFindsIt(invitations: seq<Invitation>, id: InvitationId)
    requires UniqueHashes(invitations) && id < |invitations|
    ensures ByHash(invitations, invitations[id].tokenHash) == Some(id)
  {
  }

  /** The caller holds the token of this open, unexpired invitation, has its address, and is not a member yet. */
  ghost predicate CanTakeUp(s: State, call: Call, id: InvitationId)
    requires call.Accept?
  {
    && id < |s.invitations|
    && var inv := s.invitations[id];
       && inv.tokenHash == call.tokenHash && inv.status == Pending && !inv.revoked && call.now < inv.expiresAt
       && inv.email in s.users && s.users[inv.email] == call.actor
       && RoleOf(s.members, inv.org, call.actor).None?
  }

  /**
   After any run, accepting makes somebody a member exactly when the caller can take up an invitation, and then this
   caller, of that organization and with the invited role; otherwise it makes nobody one.
   */
  lemma AcceptAdmitsIff(cfg: Config, calls: seq<Call>, call: Call, id: InvitationId)
    requires call.Accept?
    ensures var s := Run(cfg, calls);
            var t := After(cfg, s, call);
            && (CanTakeUp(s, call, id) ==>
                  t.members == s.members + [Membership(s.invitations[id].org, call.actor, s.invitations[id].role)] &&
                  t.invitations == s.invitations[id := s.invitations[id].(status := Accepted)])
            && (t.members == s.members <==> forall k: InvitationId :: !CanTakeUp(s, call, k))
  {
    var s := Run(cfg, calls);
    RunKeepsUniqueHashes(cfg, calls);
    forall k: InvitationId | k < |s.invitations| && s.invitations[k].tokenHash == call.tokenHash
      ensures ByHash(s.invitations, call.tokenHash) == Some(k)
    {
      HashFindsIt(s.invitations, k);
    }
    var found := ByHash(s.invitations, call.tokenHash);
    if found.Some? && !CanTakeUp(s, call, found.value) {
      assert forall k: InvitationId :: !CanTakeUp(s, call, k);
    }
  }

  /** Declining settles an open invitation as declined, or as expired once it has run out, and does nothing else. */
  lemma DeclineSettles(cfg: Config, calls: seq<Call>, call: Call, id: InvitationId)
    requires call.Decline? && id < |Run(cfg, calls).invitations|
    requires Run(cfg, calls).invitations[id].tokenHash == call.tokenHash
    ensures var s := Run(cfg, calls);
            var inv := s.invitations[id];
            After(cfg, s, call) ==
              if inv.status == Pending && !inv.revoked
              then s.(invitations := s.invitations[id :=
                        inv.(status := if call.now < inv.expiresAt then Declined else Expired)])
              else s
  {
    RunKeepsUniqueHashes(cfg, calls);
    HashFindsIt(Run(cfg, calls).invitations, id);
  }

  /**
   An invitation that has been accepted, declined, revoked or marked as expired never makes anybody a member
   afterwards: whatever is called in between, presenting its token changes nothing.
   */
  lemma SettledNeverAdmits(cfg: Config, calls: seq<Call>, more: seq<Call>, id: InvitationId, call: Call)
    requires id < |Run(cfg, calls).invitations| && Run(cfg, calls).invitations[id].status != Pending
    requires (call.Accept? || call.Decline?) && call.tokenHash == Run(cfg, calls).invitations[id].tokenHash
    ensures After(cfg, Run(cfg, calls + more), call) == Run(cfg, calls + more)
  {
    SettledInvitationIsFrozen(cfg, calls, more, id);
    RunKeepsUniqueHashes(cfg, calls + more);
    HashFindsIt(Run(cfg, calls + more).invitations, id);
  }
}
