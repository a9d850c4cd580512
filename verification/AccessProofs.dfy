/** Every use case keeps the invariant: each decision is justified, and each justified change keeps every part. */
module AccessProofs {
  import opened Wrappers
  import opened Text
  import opened Users
  import opened Access
  import opened AccessUseCases
  import opened AccessInvariants
  import ApiKeyToken

  // ---------------------------------------------------------------------------------------------
  // Normalisers
  // ---------------------------------------------------------------------------------------------

  lemma {:induction false} SelectExact(all: seq<Permission>, wanted: seq<Permission>)
    requires InCatalogOrder(all)
    ensures forall p :: p in Select(all, wanted) <==> p in all && p in wanted
    ensures InCatalogOrder(Select(all, wanted))
  {
    if all != [] {
      SelectExact(all[1..], wanted);
      var rest := Select(all[1..], wanted);
      forall j | 0 <= j < |rest| ensures Rank(all[0]) < Rank(rest[j]) {
        assert rest[j] in all[1..];
      }
    }
  }

  lemma {:induction false} FirstUnknownIsUnknown(permissions: seq<Permission>)
    requires FirstUnknown(permissions).Some?
    ensures FirstUnknown(permissions).value in permissions && FirstUnknown(permissions).value !in CATALOG
  {
    if permissions[0] in CATALOG {
      FirstUnknownIsUnknown(permissions[1..]);
    }
  }

  lemma OwnerBundle()
    ensures IsBundle(CATALOG)
  {}

  lemma AdminBundle()
    ensures IsBundle(ADMIN_PERMISSIONS)
  {}

  lemma MemberBundle()
    ensures IsBundle(MEMBER_PERMISSIONS)
  {}

  lemma SystemBundles(name: string)
    ensures IsBundle(SystemPermissions(name))
  {
    OwnerBundle();
    AdminBundle();
    MemberBundle();
  }

  lemma SelectedIsBundle(permissions: seq<Permission>)
    requires permissions != [] && forall p :: p in permissions ==> p in CATALOG
    ensures IsBundle(Select(CATALOG, permissions)) && Elements(Select(CATALOG, permissions)) == Elements(permissions)
  {
    OwnerBundle();
    var c := CATALOG;
    SelectExact(c, permissions);
    assert permissions[0] in Select(c, permissions);
  }

  /** Whatever list of known permissions comes in, a role keeps the bundle with the same elements. */
  lemma NormalizedIsBundle(permissions: seq<Permission>)
    ensures
      match NormalizePermissions(permissions)
      case Ok(bundle) => IsBundle(bundle) && Elements(bundle) == Elements(permissions)
      case Err(EmptyRolePermissions) => permissions == []
      case Err(UnknownPermission(p)) => p in permissions && p !in CATALOG
      case Err(_) => false
  {
    if FirstUnknown(permissions).Some? {
      FirstUnknownIsUnknown(permissions);
    } else if permissions != [] {
      SelectedIsBundle(permissions);
    }
  }

  lemma FirstRanksLowest(a: seq<Permission>, p: Permission)
    requires InCatalogOrder(a) && p in a
    ensures Rank(a[0]) <= Rank(p) && (p != a[0] <==> p in a[1..])
  {}

  lemma EmptyIffNoElements(s: seq<Permission>)
    ensures s == [] <==> Elements(s) == {}
  {
    if s != [] {
      assert s[0] in Elements(s);
    }
  }

  /** Two bundles with the same elements are the same list. */
  lemma {:induction false} BundleIsCanonical(a: seq<Permission>, b: seq<Permission>)
    requires InCatalogOrder(a) && InCatalogOrder(b) && forall p :: p in a <==> p in b
    ensures a == b
  {
    if a == [] {
      EmptyIffNoElements(b);
    } else {
      assert a[0] in b && b[0] in a;
      FirstRanksLowest(a, b[0]);
      FirstRanksLowest(b, a[0]);
      SameRankSame(a[0], b[0]);
      forall p ensures p in a[1..] <==> p in b[1..] {
        if p in a {
          FirstRanksLowest(a, p);
          FirstRanksLowest(b, p);
        }
      }
      BundleIsCanonical(a[1..], b[1..]);
      assert a == [a[0]] + a[1..] && b == [b[0]] + b[1..];
    }
  }

  lemma SameRankSame(p: Permission, q: Permission)
    requires Rank(p) == Rank(q) && !p.Unknown? && !q.Unknown?
    ensures p == q
  {}

  // ---------------------------------------------------------------------------------------------
  // Each decision is justified
  // ---------------------------------------------------------------------------------------------

  /** Role ids that pass `assertAssignable` are known and name no tenant's Owner role. */
  lemma PassedIsAssignable(s: State, tenant: Id, roleIds: seq<Id>, normalized: seq<Id>)
    requires IdsUsed(s) && RolesSound(s.roles) && Founded(s)
    requires AssertAssignable(s.roles, FindOwner(s.roles, tenant), tenant, roleIds) == None
    requires NormalizeRoleIds(roleIds) == Ok(normalized)
    ensures Assignable(s, normalized)
  {}

  lemma BuiltUserIsSound(s: State, id: Id, email: string, displayName: string, password: Option<string>)
    requires IsFresh(s, id) && FindUser(s.users, Normalize(email)) == None
    requires BuildUser(id, email, displayName, password).Ok?
    ensures NewUserSound(s, BuildUser(id, email, displayName, password).value)
  {
    NormalizeIsIdempotent(email);
  }

  lemma CreateUserJustified(s: State, step: Step)
    requires step.CreateUser? && Enabled(s, step) && DecideCreateUser(s, step).Ok?
    ensures Justified(s, DecideCreateUser(s, step).value)
  {
    BuiltUserIsSound(s, step.newId, step.email, step.displayName, step.password);
  }

  lemma CreateTenantJustified(s: State, step: Step)
    requires step.CreateTenant? && Enabled(s, step) && DecideCreateTenant(s, step).Ok?
    ensures Justified(s, DecideCreateTenant(s, step).value)
  {
    var ids := [step.newTenant, step.ownerRole, step.adminRole, step.memberRole, step.newId];
    assert ids[1] != ids[2] && ids[1] != ids[3] && ids[2] != ids[3];
  }

  lemma AttachJustified(s: State, step: Step)
    requires IdsUsed(s) && RolesSound(s.roles) && Founded(s)
    requires step.AttachMember? && Enabled(s, step) && DecideAttach(s, step).Ok?
    ensures Justified(s, DecideAttach(s, step).value)
  {}

  lemma NormalEmailStays(email: string)
    ensures NormalizeEmail(Normalize(email)).Ok? ==>
              NormalizeEmail(Normalize(email)) == Ok(Normalize(email)) && NormalizeEmail(email) == Ok(Normalize(email))
  {
    NormalizeIsIdempotent(email);
  }

  lemma InviteJustified(s: State, step: Step)
    requires IdsUsed(s) && RolesSound(s.roles) && Founded(s)
    requires step.InviteMember? && Enabled(s, step) && DecideInvite(s, step).Ok?
    ensures Justified(s, DecideInvite(s, step).value)
  {
    PassedIsAssignable(s, step.tenant, step.roleIds, NormalizeRoleIds(step.roleIds).value);
    NormalEmailStays(step.email);
  }

  lemma JoinJustified(s: State, step: Step, invitation: Invitation, found: Id, user: Id, created: Option<NewUser>)
    requires step.AcceptInvitation? && Enabled(s, step) && found in s.invitations && s.invitations[found] == invitation
    requires invitation.consumedAt == None && AllUsed(invitation.roleIds, s.used) && IsNoOwnerRole(s.founding, invitation.roleIds)
    requires created.Some? ==> NewUserSound(s, created.value) && created.value.id == step.newUserId
    requires JoinAs(s, step, invitation, found, user, created).Ok?
    ensures Justified(s, JoinAs(s, step, invitation, found, user, created).value)
  {}

  lemma AcceptJustified(s: State, step: Step)
    requires IdsUsed(s) && Founded(s) && InvitationsUnique(s.invitations, s.tokens)
    requires step.AcceptInvitation? && Enabled(s, step) && DecideAccept(s, step).Ok?
    ensures Justified(s, DecideAccept(s, step).value)
  {
    var found := FindInvitation(s.invitations, Digest(step.token)).value;
    var invitation := s.invitations[found];
    var user := FindUser(s.users, Normalize(invitation.email));
    if user == None {
      BuiltUserIsSound(s, step.newUserId, invitation.email, step.maybeName.value, step.password);
      var created := RegisterFor(step, invitation).value;
      JoinJustified(s, step, invitation, found, created.id, Some(created));
    } else {
      JoinJustified(s, step, invitation, found, user.value, None);
    }
  }

  lemma ReplaceJustified(s: State, step: Step)
    requires IdsUsed(s) && RolesSound(s.roles) && Founded(s)
    requires step.ReplaceRoles? && DecideReplace(s, step).Ok?
    ensures Justified(s, DecideReplace(s, step).value)
  {}

  lemma CreateRoleJustified(s: State, step: Step)
    requires step.CreateRole? && Enabled(s, step) && DecideCreateRole(s, step).Ok?
    ensures Justified(s, DecideCreateRole(s, step).value)
  {
    TrimTrims(step.name);
    NormalizedIsBundle(step.permissions);
  }

  lemma UpdateRoleJustified(s: State, step: Step)
    requires RolesSound(s.roles)
    requires step.UpdateRole? && DecideUpdateRole(s, step).Ok?
    ensures Justified(s, DecideUpdateRole(s, step).value)
  {
    var before := s.roles[step.role];
    if step.maybeName.Some? {
      TrimTrims(step.maybeName.value);
    }
    if step.maybePermissions.Some? {
      NormalizedIsBundle(step.maybePermissions.value);
    }
  }

  lemma CreateKeyJustified(s: State, step: Step)
    requires step.CreateApiKey? && Enabled(s, step) && DecideCreateKey(s, step).Ok?
    ensures Justified(s, DecideCreateKey(s, step).value)
  {
    ApiKeyToken.ParseInvertsCreate(step.newPrefix, step.newSecret);
  }

  lemma KeyChangesSound(key: ApiKey, name: Option<string>, permissions: Option<seq<Permission>>)
    requires key.permissions != [] && NoRepeats(key.permissions) && IsKeyBundle(key.permissions)
    requires permissions.Some? ==> forall p :: p in permissions.value ==> p in CATALOG
    requires RenamedKey(key, name).Ok? && RepermittedKey(RenamedKey(key, name).value, permissions).Ok?
    ensures
      var after := RepermittedKey(RenamedKey(key, name).value, permissions).value;
      SameIdentity(key, after) && after.permissions != [] && NoRepeats(after.permissions) && IsKeyBundle(after.permissions)
  {}

  lemma UpdateKeyJustified(s: State, step: Step)
    requires KeysSound(s.keys, s.minted)
    requires step.UpdateApiKey? && step.actor.UserActor? && DecideUpdateKey(s, step).Ok?
    ensures Justified(s, DecideUpdateKey(s, step).value)
  {
    assert KeySound(s.keys[step.key], s.minted[step.key]);
    KeyChangesSound(s.keys[step.key], step.maybeName, step.maybePermissions);
  }

  lemma MemberDecisionJustified(s: State, step: Step)
    requires Inv(s) && Enabled(s, step) && Decide(s, step).Ok?
    requires step.AttachMember? || step.InviteMember? || step.AcceptInvitation? || step.ReplaceRoles?
    ensures Justified(s, Decide(s, step).value)
  {
    match step
    case AttachMember(_, _, _, _, _, _) => AttachJustified(s, step);
    case InviteMember(_, _, _, _, _, _, _) => InviteJustified(s, step);
    case AcceptInvitation(_, _, _, _, _, _) => AcceptJustified(s, step);
    case ReplaceRoles(_, _, _, _, _) => ReplaceJustified(s, step);
  }

  lemma RoleDecisionJustified(s: State, step: Step)
    requires Inv(s) && Enabled(s, step) && Decide(s, step).Ok?
    requires step.CreateRole? || step.UpdateRole? || step.DeleteRole?
    ensures Justified(s, Decide(s, step).value)
  {
    match step
    case CreateRole(_, _, _, _, _, _) => CreateRoleJustified(s, step);
    case UpdateRole(_, _, _, _, _, _) => UpdateRoleJustified(s, step);
    case DeleteRole(_, _, _, _) =>
  }

  lemma KeyDecisionJustified(s: State, step: Step)
    requires Inv(s) && Enabled(s, step) && Decide(s, step).Ok?
    requires step.CreateApiKey? || (step.UpdateApiKey? && step.actor.UserActor?) || step.RevokeApiKey?
    ensures Justified(s, Decide(s, step).value)
  {
    match step
    case CreateApiKey(_, _, _, _, _, _, _, _, _) => CreateKeyJustified(s, step);
    case UpdateApiKey(_, _, _, _, _, _) => UpdateKeyJustified(s, step);
    case RevokeApiKey(_, _, _, _) =>
  }

  /** Only a user may have got past the guard of `UpdateApiKey`; under that condition every decision is justified. */
  lemma DecisionJustified(s: State, step: Step)
    requires Inv(s) && Enabled(s, step) && Decide(s, step).Ok? && (step.UpdateApiKey? ==> step.actor.UserActor?)
    ensures Justified(s, Decide(s, step).value)
  {
    if step.AttachMember? || step.InviteMember? || step.AcceptInvitation? || step.ReplaceRoles? {
      MemberDecisionJustified(s, step);
    } else if step.CreateRole? || step.UpdateRole? || step.DeleteRole? {
      RoleDecisionJustified(s, step);
    } else if step.CreateApiKey? || step.UpdateApiKey? || step.RevokeApiKey? {
      KeyDecisionJustified(s, step);
    } else if step.CreateUser? {
      CreateUserJustified(s, step);
    } else if step.CreateTenant? {
      CreateTenantJustified(s, step);
    }
  }

  // ---------------------------------------------------------------------------------------------
  // Each justified change keeps each part of the invariant
  // ---------------------------------------------------------------------------------------------

  lemma PutRole(roles: map<Id, Role>, r: Id, role: Role)
    requires RolesSound(roles) && RoleSound(role)
    requires forall q :: IsNamed(roles, q, role.tenantId, role.name) ==> q == r
    ensures RolesSound(roles[r := role])
  {
    assert forall q :: q in roles && roles[q].tenantId == role.tenantId && roles[q].name == role.name ==>
                       IsNamed(roles, q, role.tenantId, role.name);
  }

  lemma SeedKeepsNames(roles: map<Id, Role>, d: Delta)
    requires NamesUnique(roles) && d.TenantCreated? && forall r :: r in roles ==> roles[r].tenantId != d.tenant
    ensures NamesUnique(SeedRoles(roles, d))
  {}

  lemma SeedKeepsRoles(roles: map<Id, Role>, d: Delta)
    requires RolesSound(roles) && d.TenantCreated? && forall r :: r in roles ==> roles[r].tenantId != d.tenant
    ensures RolesSound(SeedRoles(roles, d))
  {
    SeedKeepsNames(roles, d);
    forall r | r in SeedRoles(roles, d) ensures RoleSound(SeedRoles(roles, d)[r]) {
      SystemBundles(SeedRoles(roles, d)[r].name);
    }
  }

  lemma CommitKeepsRoles(s: State, d: Delta)
    requires RolesSound(s.roles) && Justified(s, d)
    ensures RolesSound(Commit(s, d).roles)
  {
    match d
    case TenantCreated(_, _, _, _, _, _, _) => SeedKeepsRoles(s.roles, d);
    case RoleAdded(r, role) => PutRole(s.roles, r, role);
    case RoleUpdated(r, role) => PutRole(s.roles, r, role);
    case _ =>
  }

  lemma PutUser(s: State, added: NewUser)
    requires EmailsUnique(s.users) && NewUserSound(s, added)
    ensures EmailsUnique(WithUser(s.users, Some(added)))
  {
    assert forall u :: u in s.users && s.users[u].email == added.user.email ==> HasEmail(s.users, u, added.user.email);
  }

  lemma CommitKeepsEmails(s: State, d: Delta)
    requires EmailsUnique(s.users) && Justified(s, d)
    ensures EmailsUnique(Commit(s, d).users)
  {
    match d
    case UserAdded(added) => PutUser(s, added);
    case MemberAdded(_, _, newUser, _, _) =>
      if newUser.Some? {
        PutUser(s, newUser.value);
      }
    case _ =>
  }

  lemma PutMembership(memberships: map<Id, Membership>, m: Id, membership: Membership)
    requires MembershipsUnique(memberships) && membership.roleIds != [] && NoRepeats(membership.roleIds)
    requires forall n :: Links(memberships, n, membership.userId, membership.tenantId) ==> n == m
    ensures MembershipsUnique(memberships[m := membership])
  {
    assert forall n :: n in memberships && memberships[n].userId == membership.userId && memberships[n].tenantId == membership.tenantId ==>
                       Links(memberships, n, membership.userId, membership.tenantId);
  }

  lemma CommitKeepsMemberships(s: State, d: Delta)
    requires MembershipsUnique(s.memberships) && Justified(s, d)
    ensures MembershipsUnique(Commit(s, d).memberships)
  {
    match d
    case TenantCreated(t, _, owner, o, _, _, m) => PutMembership(s.memberships, m, Membership(t, owner, [o], Active));
    case MemberAdded(m, membership, _, _, _) => PutMembership(s.memberships, m, membership);
    case RolesReplaced(m, membership) => PutMembership(s.memberships, m, membership);
    case _ =>
  }

  lemma ConsumeOnlyConsumes(invitations: map<Id, Invitation>, id: Option<Id>, at: int)
    ensures Consume(invitations, id, at).Keys == invitations.Keys
    ensures forall i :: i in invitations ==>
              var was, now := invitations[i], Consume(invitations, id, at)[i];
              now == was.(consumedAt := now.consumedAt) && (now.consumedAt == None ==> was.consumedAt == None)
  {}

  lemma ConsumeKeeps(invitations: map<Id, Invitation>, tokens: set<string>, id: Option<Id>, at: int)
    requires InvitationsUnique(invitations, tokens)
    ensures InvitationsUnique(Consume(invitations, id, at), tokens)
  {
    ConsumeOnlyConsumes(invitations, id, at);
    ConsumeKeepsDistinct(invitations, id, at);
  }

  lemma ConsumeKeepsDistinct(invitations: map<Id, Invitation>, id: Option<Id>, at: int)
    requires PendingDistinct(invitations) && TokensDistinct(invitations)
    ensures PendingDistinct(Consume(invitations, id, at)) && TokensDistinct(Consume(invitations, id, at))
  {
    ConsumeOnlyConsumes(invitations, id, at);
  }

  lemma PutInvitation(invitations: map<Id, Invitation>, tokens: set<string>, i: Id, invite: Invitation, token: string)
    requires InvitationsUnique(invitations, tokens) && i !in invitations && token !in tokens
    requires invite.tokenHash == Digest(token) && NormalizeEmail(invite.email) == Ok(invite.email) && invite.roleIds != []
    requires forall j :: !IsPendingFor(invitations, j, invite.tenantId, invite.email)
    ensures InvitationsUnique(invitations[i := invite], tokens + {token})
  {
    forall j | j in invitations
      ensures IssuedHash(tokens + {token}, invitations[j].tokenHash) && invitations[j].tokenHash != Digest(token)
      ensures !IsPendingFor(invitations, j, invite.tenantId, invite.email)
    {
      var t :| t in tokens && invitations[j].tokenHash == Digest(t);
      DigestIsInjective(t, token);
      assert t in tokens + {token};
    }
    assert token in tokens + {token};
  }

  lemma SupersedeClears(invitations: map<Id, Invitation>, tokens: set<string>, tenant: Id, email: string, at: int, j: Id)
    requires InvitationsUnique(invitations, tokens)
    ensures !IsPendingFor(Consume(invitations, FindPending(invitations, tenant, email), at), j, tenant, email)
  {}

  lemma InvitedKeepsInvitations(s: State, d: Delta)
    requires IdsUsed(s) && InvitationsUnique(s.invitations, s.tokens) && d.MemberInvited? && Justified(s, d)
    ensures InvitationsUnique(Commit(s, d).invitations, Commit(s, d).tokens)
  {
    var others := Consume(s.invitations, d.superseded, d.at);
    ConsumeKeeps(s.invitations, s.tokens, d.superseded, d.at);
    forall j ensures !IsPendingFor(others, j, d.invite.tenantId, d.invite.email) {
      SupersedeClears(s.invitations, s.tokens, d.invite.tenantId, d.invite.email, d.at, j);
    }
    PutInvitation(others, s.tokens, d.invitationId, d.invite, d.token);
  }

  lemma CommitKeepsInvitations(s: State, d: Delta)
    requires IdsUsed(s) && InvitationsUnique(s.invitations, s.tokens) && Justified(s, d)
    ensures InvitationsUnique(Commit(s, d).invitations, Commit(s, d).tokens)
  {
    match d
    case MemberAdded(_, _, _, invitation, at) => ConsumeKeeps(s.invitations, s.tokens, invitation, at);
    case MemberInvited(_, _, _, _, _) => InvitedKeepsInvitations(s, d);
    case _ =>
  }

  // ---------------------------------------------------------------------------------------------
  // Parts that span several stores
  // ---------------------------------------------------------------------------------------------

  /** No consumed invitation reopens, and new invitations have new ids. */
  ghost predicate StayConsumed(before: map<Id, Invitation>, after: map<Id, Invitation>, used: set<Id>) {
    forall i :: i in after ==> (i in before && (before[i].consumedAt.Some? ==> after[i].consumedAt.Some?)) || i !in used
  }

  lemma CommitConsumes(s: State, d: Delta)
    requires Justified(s, d)
    ensures StayConsumed(s.invitations, Commit(s, d).invitations, s.used)
  {}

  lemma AcceptingKeepsAccepted(s: State, d: Delta)
    requires IdsUsed(s) && AcceptedOnce(s) && Justified(s, d) && d.MemberAdded?
    ensures AcceptedOnce(Commit(s, d))
  {}

  lemma CommitKeepsAccepted(s: State, d: Delta)
    requires IdsUsed(s) && AcceptedOnce(s) && Justified(s, d)
    ensures AcceptedOnce(Commit(s, d))
  {
    if d.MemberAdded? {
      AcceptingKeepsAccepted(s, d);
    } else {
      CommitConsumes(s, d);
      assert Commit(s, d).accepted == s.accepted && s.used <= Commit(s, d).used;
    }
  }

  lemma CommitKeepsKeyCache(s: State, d: Delta)
    requires IdsUsed(s) && KeyCacheSound(s) && Justified(s, d)
    ensures KeyCacheSound(Commit(s, d))
  {}

  lemma TenantKeepsIds(s: State, d: Delta)
    requires IdsUsed(s) && Justified(s, d) && d.TenantCreated?
    ensures IdsUsed(Commit(s, d)) && s.used <= Commit(s, d).used
  {}

  lemma InvitedKeepsIds(s: State, d: Delta)
    requires IdsUsed(s) && Justified(s, d) && d.MemberInvited?
    ensures IdsUsed(Commit(s, d)) && s.used <= Commit(s, d).used
  {}

  lemma MembersKeepIds(s: State, d: Delta)
    requires IdsUsed(s) && Justified(s, d) && (d.MemberAdded? || d.RolesReplaced?)
    ensures IdsUsed(Commit(s, d)) && s.used <= Commit(s, d).used
  {}

  lemma RolesKeepIds(s: State, d: Delta)
    requires IdsUsed(s) && Justified(s, d) && (d.RoleAdded? || d.RoleUpdated? || d.RoleDeleted?)
    ensures IdsUsed(Commit(s, d)) && s.used <= Commit(s, d).used
  {}

  lemma KeysKeepIds(s: State, d: Delta)
    requires IdsUsed(s) && Justified(s, d) && (d.KeyMinted? || d.KeyUpdated?)
    ensures IdsUsed(Commit(s, d)) && s.used <= Commit(s, d).used
  {}

  lemma CommitKeepsIds(s: State, d: Delta)
    requires IdsUsed(s) && Justified(s, d)
    ensures IdsUsed(Commit(s, d)) && s.used <= Commit(s, d).used
  {
    if d.TenantCreated? {
      TenantKeepsIds(s, d);
    } else if d.MemberAdded? || d.RolesReplaced? {
      MembersKeepIds(s, d);
    } else if d.MemberInvited? {
      InvitedKeepsIds(s, d);
    } else if d.RoleAdded? || d.RoleUpdated? || d.RoleDeleted? {
      RolesKeepIds(s, d);
    } else if d.KeyMinted? || d.KeyUpdated? {
      KeysKeepIds(s, d);
    }
  }

  lemma PutKey(keys: map<Id, ApiKey>, minted: map<Id, string>, k: Id, key: ApiKey, token: string)
    requires KeysSound(keys, minted) && k !in keys && KeySound(key, token)
    requires forall l :: !HasPrefix(keys, l, key.prefix)
    ensures KeysSound(keys[k := key], minted[k := token])
  {
    assert forall l :: l in keys && keys[l].prefix == key.prefix ==> HasPrefix(keys, l, key.prefix);
  }

  lemma CommitKeepsKeys(s: State, d: Delta)
    requires IdsUsed(s) && KeysSound(s.keys, s.minted) && Justified(s, d)
    ensures KeysSound(Commit(s, d).keys, Commit(s, d).minted)
  {
    if d.KeyMinted? {
      PutKey(s.keys, s.minted, d.keyId, d.key, d.token);
    } else if d.KeyUpdated? {
      assert KeySound(d.key, s.minted[d.keyId]);
    } else {
      assert Commit(s, d).keys == s.keys && Commit(s, d).minted == s.minted;
    }
  }

  lemma TenantLeavesMembers(s: State, d: Delta)
    requires IdsUsed(s) && Justified(s, d) && d.TenantCreated?
    ensures forall m :: m in s.memberships ==> d.ownerRole !in s.memberships[m].roleIds && m != d.membershipId
    ensures forall i :: i in s.invitations ==> d.ownerRole !in s.invitations[i].roleIds
  {}

  lemma TenantKeepsFounders(s: State, d: Delta)
    requires IdsUsed(s) && FoundersStand(s.founding, s.roles, s.memberships) && Justified(s, d) && d.TenantCreated?
    ensures FoundersStand(Commit(s, d).founding, Commit(s, d).roles, Commit(s, d).memberships)
  {}

  lemma NewOwnerRole(founding: map<Id, Founding>, t: Id, f: Founding, roleIds: seq<Id>)
    requires IsNoOwnerRole(founding, roleIds) && f.ownerRole !in roleIds
    ensures IsNoOwnerRole(founding[t := f], roleIds)
  {}

  lemma FoundingAlone(founding: map<Id, Founding>, memberships: map<Id, Membership>, t: Id, f: Founding, membership: Membership)
    requires FoundersAlone(founding, memberships) && f.membershipId !in memberships && membership.roleIds == [f.ownerRole]
    requires forall u :: u in founding ==> founding[u].ownerRole != f.ownerRole
    requires forall m :: m in memberships ==> f.ownerRole !in memberships[m].roleIds
    ensures FoundersAlone(founding[t := f], memberships[f.membershipId := membership])
  {}

  lemma TenantKeepsAlone(s: State, d: Delta)
    requires IdsUsed(s) && FoundersStand(s.founding, s.roles, s.memberships) && FoundersAlone(s.founding, s.memberships)
    requires Justified(s, d) && d.TenantCreated?
    ensures FoundersAlone(Commit(s, d).founding, Commit(s, d).memberships)
  {
    TenantLeavesMembers(s, d);
    assert forall t :: t in s.founding ==> s.founding[t].ownerRole in s.used;
    FoundingAlone(s.founding, s.memberships, d.tenant, Founding(d.ownerRole, d.membershipId, d.owner),
                  Membership(d.tenant, d.owner, [d.ownerRole], Active));
  }

  lemma TenantKeepsFounded(s: State, d: Delta)
    requires IdsUsed(s) && Founded(s) && Justified(s, d) && d.TenantCreated?
    ensures Founded(Commit(s, d))
  {
    TenantKeepsFounders(s, d);
    TenantKeepsAlone(s, d);
    TenantLeavesMembers(s, d);
    forall i | i in s.invitations ensures IsNoOwnerRole(Commit(s, d).founding, s.invitations[i].roleIds) {
      NewOwnerRole(s.founding, d.tenant, Founding(d.ownerRole, d.membershipId, d.owner), s.invitations[i].roleIds);
    }
  }

  lemma MembersKeepFounded(s: State, d: Delta)
    requires IdsUsed(s) && Founded(s) && Justified(s, d) && (d.MemberAdded? || d.RolesReplaced?)
    ensures Founded(Commit(s, d))
  {}

  lemma InvitingKeepsFounded(s: State, d: Delta)
    requires IdsUsed(s) && Founded(s) && Justified(s, d) && d.MemberInvited?
    ensures Founded(Commit(s, d))
  {}

  lemma RolesKeepFounded(s: State, d: Delta)
    requires IdsUsed(s) && Founded(s) && Justified(s, d) && (d.RoleAdded? || d.RoleUpdated? || d.RoleDeleted?)
    ensures Founded(Commit(s, d))
  {
    forall t | t in s.founding ensures IsOwnerRole(Commit(s, d).roles, s.founding[t].ownerRole, t) {
      assert s.founding[t].ownerRole in s.used;
    }
  }

  lemma CommitKeepsFounded(s: State, d: Delta)
    requires IdsUsed(s) && Founded(s) && Justified(s, d)
    ensures Founded(Commit(s, d))
  {
    if d.TenantCreated? {
      TenantKeepsFounded(s, d);
    } else if d.MemberAdded? || d.RolesReplaced? {
      MembersKeepFounded(s, d);
    } else if d.MemberInvited? {
      InvitingKeepsFounded(s, d);
    } else if d.RoleAdded? || d.RoleUpdated? || d.RoleDeleted? {
      RolesKeepFounded(s, d);
    }
  }

  // ---------------------------------------------------------------------------------------------
  // The permission cache
  // ---------------------------------------------------------------------------------------------

  /** Nothing that a user's effective permissions depend on is different in `s'`. */
  ghost predicate Unaffected(s: State, s': State, user: Id, tenant: Id) {
    forall m ::
      && (Links(s.memberships, m, user, tenant) <==> Links(s'.memberships, m, user, tenant))
      && (Links(s.memberships, m, user, tenant) ==>
            && s'.memberships[m] == s.memberships[m]
            && forall r :: r in s.memberships[m].roleIds ==> Contribution(s'.roles, tenant, r) == Contribution(s.roles, tenant, r))
  }

  lemma UnaffectedStaysCoherent(s: State, s': State, user: Id, tenant: Id)
    requires MembershipsUnique(s.memberships) && Unaffected(s, s', user, tenant)
    ensures Effective(s'.memberships, s'.roles, user, tenant) == Effective(s.memberships, s.roles, user, tenant)
  {}

  lemma TenantLeavesOthers(s: State, d: Delta, user: Id, tenant: Id)
    requires IdsUsed(s) && Justified(s, d) && d.TenantCreated? && tenant != d.tenant
    ensures Unaffected(s, Commit(s, d), user, tenant)
  {}

  lemma MembersLeaveOthers(s: State, d: Delta, user: Id, tenant: Id)
    requires IdsUsed(s) && Justified(s, d) && (d.MemberAdded? || d.RolesReplaced?)
    requires ForUser(tenant, user) in Commit(s, d).cache
    ensures Unaffected(s, Commit(s, d), user, tenant)
  {}

  lemma RolesLeaveOthers(s: State, d: Delta, user: Id, tenant: Id)
    requires IdsUsed(s) && Justified(s, d) && (d.RoleAdded? || d.RoleUpdated? || d.RoleDeleted?)
    requires ForUser(tenant, user) in Commit(s, d).cache
    ensures Unaffected(s, Commit(s, d), user, tenant)
  {
    forall m, r | Links(s.memberships, m, user, tenant) && r in s.memberships[m].roleIds
      ensures Contribution(Commit(s, d).roles, tenant, r) == Contribution(s.roles, tenant, r)
    {
      assert AllUsed(s.memberships[m].roleIds, s.used);
      assert Holds(s.memberships, m, tenant, r);
    }
  }

  lemma CommitKeepsCache(s: State, d: Delta)
    requires IdsUsed(s) && MembershipsUnique(s.memberships) && CacheCoherent(s) && Justified(s, d)
    ensures CacheCoherent(Commit(s, d))
  {
    var s' := Commit(s, d);
    forall tenant, user | ForUser(tenant, user) in s'.cache ensures Coherent(s', tenant, user) {
      assert Coherent(s, tenant, user) && s'.cache[ForUser(tenant, user)] == s.cache[ForUser(tenant, user)];
      if d.TenantCreated? {
        TenantLeavesOthers(s, d, user, tenant);
      } else if d.MemberAdded? || d.RolesReplaced? {
        MembersLeaveOthers(s, d, user, tenant);
      } else if d.RoleAdded? || d.RoleUpdated? || d.RoleDeleted? {
        RolesLeaveOthers(s, d, user, tenant);
      }
      UnaffectedStaysCoherent(s, s', user, tenant);
    }
  }
}
