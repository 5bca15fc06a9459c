/**
 Organizations, their members and their invitations: OrganizationService, InvitationService and the
 role table. Organizations and invitations are numbered in creation order; e-mail addresses are lower case.
 */
module Organizations {
  import opened Common
  import Slugs

  type OrgId = nat
  type UserId = nat
  type InvitationId = nat
  type Email = string

  datatype Role = Owner | Admin | Member | Viewer

  datatype Permission =
    | OrganizationRead | OrganizationUpdate | OrganizationDelete | MemberManage | ArtifactRead | ArtifactWrite
    | PolicyRead | PolicyManage | AuditRead | TaskCancel | ResourceCreate

  predicate RoleHasPermission(role: Role, permission: Permission) {
    match role
    case Owner => true
    case Admin => !permission.OrganizationDelete?
    case Member => permission in {OrganizationRead, ArtifactRead, ArtifactWrite, PolicyRead, ResourceCreate, TaskCancel}
    case Viewer => permission in {OrganizationRead, ArtifactRead, PolicyRead}
  }

  datatype Org = Org(slug: string, deleted: bool)

  datatype Membership = Membership(org: OrgId, user: UserId, role: Role)

  datatype Status = Pending | Accepted | Declined | Revoked | Expired

  datatype Invitation = Invitation(
    org: OrgId, email: Email, role: Role, invitedBy: UserId, tokenHash: nat, expiresAt: int, status: Status,
    revoked: bool)

  datatype State = State(
    orgs: seq<Org>, members: seq<Membership>, invitations: seq<Invitation>, users: map<Email, UserId>)

  /** How text is lowercased, and how long an invitation is valid. */
  datatype Config = Config(text: Slugs.Text, lifetime: int)

  datatype Call =
    | Register(email: Email, user: UserId)
    | ChangeEmail(user: UserId, email: Email)
    | CreateOrg(actor: UserId, slugSource: string)
    | DeleteOrg(actor: UserId, org: OrgId)
    | AddMember(actor: UserId, org: OrgId, email: Email, role: Role)
    | UpdateMember(actor: UserId, org: OrgId, target: UserId, role: Role)
    | RemoveMember(actor: UserId, org: OrgId, target: UserId)
    | Invite(actor: UserId, org: OrgId, email: Email, role: Role, tokenHash: nat, now: int)
    | Resend(actor: UserId, org: OrgId, invitation: InvitationId, tokenHash: nat, now: int)
    | RevokeInvitation(actor: UserId, org: OrgId, invitation: InvitationId)
    | Accept(actor: UserId, tokenHash: nat, now: int)
    | Decline(tokenHash: nat, now: int)

  // ----- queries -----

  function RoleOf(members: seq<Membership>, org: OrgId, user: UserId): Option<Role> {
    if members == [] then None
    else
      var last := members[|members| - 1];
      if last.org == org && last.user == user then Some(last.role)
      else RoleOf(members[..|members| - 1], org, user)
  }

  function CountOwners(members: seq<Membership>, org: OrgId): nat {
    if members == [] then 0
    else
      var last, before := members[|members| - 1], CountOwners(members[..|members| - 1], org);
      if last.org == org && last.role.Owner? then before + 1 else before
  }

  /** The actor's role in an organization that exists and is not deleted. */
  function ActorRole(s: State, org: OrgId, user: UserId): Option<Role> {
    if org < |s.orgs| && !s.orgs[org].deleted then RoleOf(s.members, org, user) else None
  }

  predicate May(s: State, org: OrgId, user: UserId, permission: Permission) {
    var role := ActorRole(s, org, user);
    role.Some? && RoleHasPermission(role.value, permission)
  }

  predicate IsOwner(s: State, org: OrgId, user: UserId) {
    RoleOf(s.members, org, user) == Some(Owner)
  }

  /** The slug column holds 100 characters; the database refuses a longer one. */
  const SLUG_LENGTH := 100

  predicate SlugTaken(s: State, slug: string) {
    exists i :: 0 <= i < |s.orgs| && s.orgs[i].slug == slug
  }

  predicate MayUse(s: State, slug: string) {
    !SlugTaken(s, slug) && |slug| <= SLUG_LENGTH
  }

  predicate HashTaken(s: State, hash: nat) {
    exists i :: 0 <= i < |s.invitations| && s.invitations[i].tokenHash == hash
  }

  function ByHash(invitations: seq<Invitation>, hash: nat): (r: Option<InvitationId>)
    ensures r.Some? ==> r.value < |invitations| && invitations[r.value].tokenHash == hash
    ensures r.None? ==> forall i :: 0 <= i < |invitations| ==> invitations[i].tokenHash != hash
  {
    if invitations == [] then None
    else if invitations[|invitations| - 1].tokenHash == hash then Some(|invitations| - 1)
    else ByHash(invitations[..|invitations| - 1], hash)
  }

  predicate IsOpen(inv: Invitation) {
    inv.status.Pending? && !inv.revoked
  }

  predicate IsLive(inv: Invitation, org: OrgId, email: Email, now: int) {
    inv.org == org && inv.email == email && IsOpen(inv) && now < inv.expiresAt
  }

  predicate HasLive(s: State, org: OrgId, email: Email, now: int) {
    exists i :: 0 <= i < |s.invitations| && IsLive(s.invitations[i], org, email, now)
  }

  /** The user with this address is already a member. */
  predicate IsMemberByEmail(s: State, org: OrgId, email: Email) {
    email in s.users && RoleOf(s.members, org, s.users[email]).Some?
  }

  // ----- table updates -----

  function SetRole(members: seq<Membership>, org: OrgId, user: UserId, role: Role): seq<Membership> {
    if members == [] then []
    else
      var last := members[|members| - 1];
      SetRole(members[..|members| - 1], org, user, role)
      + [if last.org == org && last.user == user then last.(role := role) else last]
  }

  function Without(members: seq<Membership>, org: OrgId, user: UserId): seq<Membership> {
    if members == [] then []
    else
      var last, before := members[|members| - 1], Without(members[..|members| - 1], org, user);
      if last.org == org && last.user == user then before else before + [last]
  }

  // ----- the guards -----

  predicate MayAdd(s: State, call: Call)
    requires call.AddMember?
  {
    && May(s, call.org, call.actor, MemberManage)
    && (call.role.Owner? ==> IsOwner(s, call.org, call.actor))
    && call.email in s.users
    && RoleOf(s.members, call.org, s.users[call.email]).None?
  }

  /** An admin touches neither an owner nor the owner role, and the last owner stays. */
  predicate MayUpdate(s: State, call: Call)
    requires call.UpdateMember?
  {
    var target := RoleOf(s.members, call.org, call.target);
    && May(s, call.org, call.actor, MemberManage)
    && target.Some?
    && (!IsOwner(s, call.org, call.actor) ==> !target.value.Owner? && !call.role.Owner?)
    && (target.value.Owner? && !call.role.Owner? ==> CountOwners(s.members, call.org) > 1)
  }

  predicate MayRemove(s: State, call: Call)
    requires call.RemoveMember?
  {
    var target := RoleOf(s.members, call.org, call.target);
    && May(s, call.org, call.actor, MemberManage)
    && target.Some?
    && (!IsOwner(s, call.org, call.actor) ==> !target.value.Owner?)
    && (target.value.Owner? ==> CountOwners(s.members, call.org) > 1)
  }

  predicate MayInvite(s: State, call: Call)
    requires call.Invite?
  {
    && May(s, call.org, call.actor, MemberManage)
    && (call.role.Owner? ==> IsOwner(s, call.org, call.actor))
    && !IsMemberByEmail(s, call.org, call.email)
    && !HasLive(s, call.org, call.email, call.now)
    && !HashTaken(s, call.tokenHash)
  }

  predicate MayResend(s: State, call: Call)
    requires call.Resend?
  {
    && May(s, call.org, call.actor, MemberManage)
    && call.invitation < |s.invitations|
    && s.invitations[call.invitation].org == call.org
    && IsOpen(s.invitations[call.invitation])
    && !HashTaken(s, call.tokenHash)
  }

  predicate MayRevoke(s: State, call: Call)
    requires call.RevokeInvitation?
  {
    && May(s, call.org, call.actor, MemberManage)
    && call.invitation < |s.invitations|
    && s.invitations[call.invitation].org == call.org
    && s.invitations[call.invitation].status.Pending?
  }

  /** The user exists, and nobody else has the address. */
  predicate MayChangeEmail(s: State, user: UserId, email: Email) {
    user in s.users.Values && (email in s.users ==> s.users[email] == user)
  }

  function Readdressed(users: map<Email, UserId>, user: UserId, email: Email): map<Email, UserId> {
    (map e | e in users && users[e] != user :: users[e])[email := user]
  }

  function Marked(s: State, id: InvitationId, status: Status): State
    requires id < |s.invitations|
  {
    s.(invitations := s.invitations[id := s.invitations[id].(status := status)])
  }

  function After(cfg: Config, s: State, call: Call): State {
    match call
    case Register(email, user) =>
      if email in s.users || user in s.users.Values then s else s.(users := s.users[email := user])
    case ChangeEmail(user, email) =>
      if MayChangeEmail(s, user, email) then s.(users := Readdressed(s.users, user, email)) else s
    case CreateOrg(actor, source) =>
      var slug := Slugs.NormalizeSlug(cfg.text, source);
      if slug.None? || !MayUse(s, slug.value) then s
      else s.(orgs := s.orgs + [Org(slug.value, false)], members := s.members + [Membership(|s.orgs|, actor, Owner)])
    case DeleteOrg(actor, org) =>
      if May(s, org, actor, OrganizationDelete) then s.(orgs := s.orgs[org := s.orgs[org].(deleted := true)]) else s
    case AddMember(actor, org, email, role) =>
      if MayAdd(s, call) then s.(members := s.members + [Membership(org, s.users[email], role)]) else s
    case UpdateMember(actor, org, target, role) =>
      if MayUpdate(s, call) then s.(members := SetRole(s.members, org, target, role)) else s
    case RemoveMember(actor, org, target) =>
      if MayRemove(s, call) then s.(members := Without(s.members, org, target)) else s
    case Invite(actor, org, email, role, hash, now) =>
      if MayInvite(s, call)
      then
        var inv := Invitation(org, email, role, actor, hash, now + cfg.lifetime, Pending, false);
        s.(invitations := s.invitations + [inv])
      else s
    case Resend(actor, org, id, hash, now) =>
      if MayResend(s, call)
      then
        var inv := s.invitations[id].(tokenHash := hash, expiresAt := now + cfg.lifetime);
        s.(invitations := s.invitations[id := inv])
      else s
    case RevokeInvitation(actor, org, id) =>
      if MayRevoke(s, call)
      then s.(invitations := s.invitations[id := s.invitations[id].(status := Revoked, revoked := true)])
      else s
    case Accept(actor, hash, now) =>
      var id := ByHash(s.invitations, hash);
      if id.None? || !IsOpen(s.invitations[id.value]) then s
      else
        var inv := s.invitations[id.value];
        if inv.expiresAt <= now then Marked(s, id.value, Expired)
        else if !MayJoin(s, inv, actor) then s
        else Marked(s, id.value, Accepted).(members := s.members + [Membership(inv.org, actor, inv.role)])
    case Decline(hash, now) =>
      var id := ByHash(s.invitations, hash);
      if id.None? || !IsOpen(s.invitations[id.value]) then s
      else if s.invitations[id.value].expiresAt <= now then Marked(s, id.value, Expired)
      else Marked(s, id.value, Declined)
  }

  /** The invitation is addressed to this user, who is not a member yet. */
  predicate MayJoin(s: State, inv: Invitation, user: UserId) {
    inv.email in s.users && s.users[inv.email] == user && RoleOf(s.members, inv.org, user).None?
  }

  class Tables {
    var orgs: seq<Org>
    var members: seq<Membership>
    var invitations: seq<Invitation>
    var users: map<Email, UserId>

    constructor (users: map<Email, UserId>)
      ensures Now() == State([], [], [], users)
    {
      orgs, members, invitations, this.users := [], [], [], users;
    }

    ghost function Now(): State
      reads this
    {
      State(orgs, members, invitations, users)
    }

    function Snapshot(): (s: State)
      reads this
      ensures s == Now()
    {
      State(orgs, members, invitations, users)
    }
  }

  class ProfileService {
    const cfg: Config
    const db: Tables

    constructor (cfg: Config, db: Tables)
      ensures this.cfg == cfg && this.db == db
    {
      this.cfg, this.db := cfg, db;
    }

    /** user and email are those of a change link that exists, is unused and unexpired, and whose user is active. */
    method ConfirmEmailChange(user: UserId, email: Email) returns (ok: bool)
      modifies db
      ensures db.Now() == After(cfg, old(db.Now()), ChangeEmail(user, email))
      ensures ok ==> email in db.users && db.users[email] == user &&
                     forall e :: e in db.users && db.users[e] == user ==> e == email
    {
      if user !in db.users.Values {
        return false;
      }
      if email in db.users && db.users[email] != user {
        return false;
      }
      db.users := Readdressed(db.users, user, email);
      ok := true;
    }
  }

  class OrganizationService {
    const cfg: Config
    const db: Tables

    constructor (cfg: Config, db: Tables)
      ensures this.cfg == cfg && this.db == db
    {
      this.cfg, this.db := cfg, db;
    }

    method Create(actor: UserId, slugSource: string) returns (org: Option<OrgId>)
      modifies db
      ensures db.Now() == After(cfg, old(db.Now()), CreateOrg(actor, slugSource))
      ensures var slug := Slugs.NormalizeSlug(cfg.text, slugSource);
              org.Some? <==> slug.Some? && MayUse(old(db.Now()), slug.value)
      ensures org.Some? ==> org.value == |old(db.orgs)| && IsOwner(db.Now(), org.value, actor)
    {
      var slug := Slugs.NormalizeSlug(cfg.text, slugSource);
      if slug.None? || SlugTaken(db.Snapshot(), slug.value) || |slug.value| > SLUG_LENGTH {
        return None;
      }
      org := Some(|db.orgs|);
      db.orgs := db.orgs + [Org(slug.value, false)];
      db.members := db.members + [Membership(org.value, actor, Owner)];
    }

    method Delete(actor: UserId, org: OrgId) returns (ok: bool)
      modifies db
      ensures db.Now() == After(cfg, old(db.Now()), DeleteOrg(actor, org))
      ensures ok <==> org < |old(db.orgs)| && !old(db.orgs)[org].deleted && IsOwner(old(db.Now()), org, actor)
      ensures ok ==> org < |old(db.orgs)| && db.orgs == old(db.orgs)[org := old(db.orgs)[org].(deleted := true)]
    {
      if !May(db.Snapshot(), org, actor, OrganizationDelete) {
        return false;
      }
      db.orgs := db.orgs[org := db.orgs[org].(deleted := true)];
      ok := true;
    }

    method AddMember(actor: UserId, org: OrgId, email: Email, role: Role) returns (ok: bool)
      modifies db
      ensures db.Now() == After(cfg, old(db.Now()), Call.AddMember(actor, org, email, role))
      ensures ok <==> MayAdd(old(db.Now()), Call.AddMember(actor, org, email, role))
    {
      if !May(db.Snapshot(), org, actor, MemberManage) {
        return false;
      }
      if role.Owner? && RoleOf(db.members, org, actor) != Some(Owner) {
        return false;
      }
      if email !in db.users {
        return false;
      }
      if RoleOf(db.members, org, db.users[email]).Some? {
        return false;
      }
      db.members := db.members + [Membership(org, db.users[email], role)];
      ok := true;
    }

    /** _ensure_can_manage_target */
    function CanManage(actor: Role, target: Role, assigning: Option<Role>): bool {
      !(actor.Admin? && (target.Owner? || assigning == Some(Owner)))
    }

    method UpdateMember(actor: UserId, org: OrgId, target: UserId, role: Role) returns (ok: bool)
      modifies db
      ensures db.Now() == After(cfg, old(db.Now()), Call.UpdateMember(actor, org, target, role))
      ensures ok <==> MayUpdate(old(db.Now()), Call.UpdateMember(actor, org, target, role))
    {
      if !May(db.Snapshot(), org, actor, MemberManage) {
        return false;
      }
      var actorRole := RoleOf(db.members, org, actor).value;
      var targetRole := RoleOf(db.members, org, target);
      if targetRole.None? || !CanManage(actorRole, targetRole.value, Some(role)) {
        return false;
      }
      if targetRole.value.Owner? && !role.Owner? {
        var owners := CountOwners(db.members, org);
        if owners <= 1 {
          return false;
        }
      }
      if role.Owner? && !actorRole.Owner? {
        return false;
      }
      db.members := SetRole(db.members, org, target, role);
      ok := true;
    }

    method RemoveMember(actor: UserId, org: OrgId, target: UserId) returns (ok: bool)
      modifies db
      ensures db.Now() == After(cfg, old(db.Now()), Call.RemoveMember(actor, org, target))
      ensures ok <==> MayRemove(old(db.Now()), Call.RemoveMember(actor, org, target))
    {
      if !May(db.Snapshot(), org, actor, MemberManage) {
        return false;
      }
      var targetRole := RoleOf(db.members, org, target);
      if targetRole.None? || !CanManage(RoleOf(db.members, org, actor).value, targetRole.value, None) {
        return false;
      }
      if targetRole.value.Owner? {
        var owners := CountOwners(db.members, org);
        if owners <= 1 {
          return false;
        }
      }
      db.members := Without(db.members, org, target);
      ok := true;
    }
  }

  class InvitationService {
    const cfg: Config
    const db: Tables

    constructor (cfg: Config, db: Tables)
      ensures this.cfg == cfg && this.db == db
    {
      this.cfg, this.db := cfg, db;
    }

    method Create(actor: UserId, org: OrgId, email: Email, role: Role, tokenHash: nat, now: int) returns (ok: bool)
      modifies db
      ensures db.Now() == After(cfg, old(db.Now()), Invite(actor, org, email, role, tokenHash, now))
      ensures ok <==> MayInvite(old(db.Now()), Invite(actor, org, email, role, tokenHash, now))
    {
      if !May(db.Snapshot(), org, actor, MemberManage) {
        return false;
      }
      if role.Owner? && RoleOf(db.members, org, actor) != Some(Owner) {
        return false;
      }
      if IsMemberByEmail(db.Snapshot(), org, email) {
        return false;
      }
      if HasLive(db.Snapshot(), org, email, now) || HashTaken(db.Snapshot(), tokenHash) {
        return false;
      }
      db.invitations := db.invitations +
        [Invitation(org, email, role, actor, tokenHash, now + cfg.lifetime, Pending, false)];
      ok := true;
    }

    method Resend(actor: UserId, org: OrgId, id: InvitationId, tokenHash: nat, now: int) returns (ok: bool)
      modifies db
      ensures db.Now() == After(cfg, old(db.Now()), Call.Resend(actor, org, id, tokenHash, now))
      ensures ok <==> MayResend(old(db.Now()), Call.Resend(actor, org, id, tokenHash, now))
    {
      if !May(db.Snapshot(), org, actor, MemberManage) {
        return false;
      }
      if id >= |db.invitations| || db.invitations[id].org != org {
        return false;
      }
      var inv := db.invitations[id];
      if !inv.status.Pending? || inv.revoked || HashTaken(db.Snapshot(), tokenHash) {
        return false;
      }
      db.invitations := db.invitations[id := inv.(tokenHash := tokenHash, expiresAt := now + cfg.lifetime)];
      ok := true;
    }

    method Revoke(actor: UserId, org: OrgId, id: InvitationId) returns (ok: bool)
      modifies db
      ensures db.Now() == After(cfg, old(db.Now()), RevokeInvitation(actor, org, id))
      ensures ok <==> MayRevoke(old(db.Now()), RevokeInvitation(actor, org, id))
    {
      if !May(db.Snapshot(), org, actor, MemberManage) {
        return false;
      }
      if id >= |db.invitations| || db.invitations[id].org != org || !db.invitations[id].status.Pending? {
        return false;
      }
      db.invitations := db.invitations[id := db.invitations[id].(status := Revoked, revoked := true)];
      ok := true;
    }

    method Accept(user: UserId, tokenHash: nat, now: int) returns (role: Option<Role>)
      modifies db
      ensures db.Now() == After(cfg, old(db.Now()), Call.Accept(user, tokenHash, now))
      ensures role.Some? ==> |db.members| == |old(db.members)| + 1 &&
                             db.members[|old(db.members)|].user == user &&
                             db.members[|old(db.members)|].role == role.value
    {
      var id := ByHash(db.invitations, tokenHash);
      if id.None? {
        return None;
      }
      var inv := db.invitations[id.value];
      if !inv.status.Pending? || inv.revoked {
        return None;
      }
      if inv.expiresAt <= now {
        db.invitations := db.invitations[id.value := inv.(status := Expired)];
        return None;
      }
      if inv.email !in db.users || db.users[inv.email] != user {
        return None;
      }
      if RoleOf(db.members, inv.org, user).Some? {
        return None;
      }
      db.members := db.members + [Membership(inv.org, user, inv.role)];
      db.invitations := db.invitations[id.value := inv.(status := Accepted)];
      role := Some(inv.role);
    }

    method Decline(tokenHash: nat, now: int)
      modifies db
      ensures db.Now() == After(cfg, old(db.Now()), Call.Decline(tokenHash, now))
    {
      var id := ByHash(db.invitations, tokenHash);
      if id.None? || !db.invitations[id.value].status.Pending? || db.invitations[id.value].revoked {
        return;
      }
      var inv := db.invitations[id.value];
      if inv.expiresAt <= now {
        db.invitations := db.invitations[id.value := inv.(status := Expired)];
        return;
      }
      db.invitations := db.invitations[id.value := inv.(status := Declined)];
    }
  }
}
