/**
 * The use cases that change tenants, roles, memberships, invitations and API keys. Each one first reads the
 * actor's permissions (which may fill the cache), then decides inside one transaction: an error rolls every
 * store back, a success commits one change and invalidates the cache entries the use case names.
 */
module AccessUseCases {
  import opened Wrappers
  import opened Text
  import opened Users
  import opened Access
  import ApiKeyToken

  const INVITATION_TTL_MS: int := 7 * 24 * 60 * 60 * 1000

  datatype NewUser = NewUser(id: Id, user: User, password: Option<string>)

  datatype Step =
    | CreateUser(email: string, displayName: string, password: Option<string>, newId: Id, now: int)
    | CreateTenant(owner: Id, tenantName: string, newTenant: Id, ownerRole: Id, adminRole: Id, memberRole: Id, newId: Id, now: int)
    | AttachMember(actor: Actor, tenant: Id, user: Id, roleIds: seq<Id>, newId: Id, now: int)
    | InviteMember(actor: Actor, tenant: Id, email: string, roleIds: seq<Id>, newId: Id, newToken: string, now: int)
    | AcceptInvitation(token: string, maybeName: Option<string>, password: Option<string>, newUserId: Id, newId: Id, now: int)
    | ReplaceRoles(actor: Actor, tenant: Id, membership: Id, roleIds: seq<Id>, now: int)
    | CreateRole(actor: Actor, tenant: Id, name: string, permissions: seq<Permission>, newId: Id, now: int)
    | UpdateRole(actor: Actor, tenant: Id, role: Id, maybeName: Option<string>, maybePermissions: Option<seq<Permission>>, now: int)
    | DeleteRole(actor: Actor, tenant: Id, role: Id, now: int)
    | PurgeInvitations(purged: set<Id>, now: int)
    | CreateApiKey(actor: Actor, tenant: Id, name: string, permissions: seq<Permission>, keyExpiresAt: Option<int>,
                   newId: Id, newPrefix: string, newSecret: string, now: int)
    | UpdateApiKey(actor: Actor, tenant: Id, key: Id, maybeName: Option<string>, maybePermissions: Option<seq<Permission>>, now: int)
    | RevokeApiKey(actor: Actor, tenant: Id, key: Id, now: int)
    | ReadPermissions(actor: Actor, tenant: Id, now: int)

  /** The one change that a successful use case commits. */
  datatype Delta =
    | NoChange
    | UserAdded(added: NewUser)
    | TenantCreated(tenant: Id, tenantName: string, owner: Id, ownerRole: Id, adminRole: Id, memberRole: Id, membershipId: Id)
    | MemberAdded(membershipId: Id, membership: Membership, newUser: Option<NewUser>, invitation: Option<Id>, at: int)
    | RolesReplaced(membershipId: Id, membership: Membership)
    | MemberInvited(invitationId: Id, invite: Invitation, superseded: Option<Id>, token: string, at: int)
    | RoleAdded(roleId: Id, role: Role)
    | RoleUpdated(roleId: Id, role: Role)
    | RoleDeleted(roleId: Id, tenant: Id)
    | InvitationsPurged(purged: set<Id>)
    | KeyMinted(keyId: Id, key: ApiKey, token: string)
    | KeyUpdated(keyId: Id, key: ApiKey)

  // ---------------------------------------------------------------------------------------------
  // Deciding
  // ---------------------------------------------------------------------------------------------

  /** The loop of `assertAssignable`: the first role id that may not be assigned, as an error. */
  function AssertAssignable(roles: map<Id, Role>, owner: Option<Id>, tenant: Id, roleIds: seq<Id>): (r: Option<Error>)
    ensures r == None <==> forall id :: id in roleIds ==> Some(id) != owner && id in roles && roles[id].tenantId == tenant
  {
    if roleIds == [] then None
    else if owner == Some(roleIds[0]) then Some(CannotAssignOwnerRole)
    else if roleIds[0] !in roles || roles[roleIds[0]].tenantId != tenant then Some(RoleNotFound)
    else AssertAssignable(roles, owner, tenant, roleIds[1..])
  }

  /** The loop over requested key permissions: the first one that is unknown or not held by the creator. */
  function FirstNotHeld(requested: seq<Permission>, held: seq<Permission>): (r: Option<Error>)
    ensures r == None <==> forall p :: p in requested ==> p in CATALOG && p in held
  {
    if requested == [] then None
    else if requested[0] !in CATALOG then Some(UnknownPermission(requested[0]))
    else if requested[0] !in held then Some(Error.InsufficientPermission(requested[0]))
    else FirstNotHeld(requested[1..], held)
  }

  function BuildUser(id: Id, email: string, displayName: string, password: Option<string>): Result<NewUser, Error> {
    match NormalizeEmail(email)
    case Err(e) => Err(e)
    case Ok(normalized) =>
      if Trim(displayName) == "" then Err(InvalidDisplayName)
      else Ok(NewUser(id, User(normalized, Trim(displayName), false), password))
  }

  ghost function DecideCreateUser(s: State, step: Step): Result<Delta, Error>
    requires step.CreateUser?
  {
    if step.password.Some? && |step.password.value| < MIN_PASSWORD_LENGTH then Err(InvalidPassword)
    else if FindUser(s.users, Normalize(step.email)).Some? then Err(UserEmailTaken)
    else
      match BuildUser(step.newId, step.email, step.displayName, step.password)
      case Err(e) => Err(e)
      case Ok(user) => Ok(UserAdded(user))
  }

  function DecideCreateTenant(s: State, step: Step): Result<Delta, Error>
    requires step.CreateTenant?
  {
    if step.owner !in s.users then Err(UserNotFound)
    else if Trim(step.tenantName) == "" then Err(InvalidTenantName)
    else Ok(TenantCreated(step.newTenant, Trim(step.tenantName), step.owner, step.ownerRole, step.adminRole, step.memberRole, step.newId))
  }

  ghost function DecideAttach(s: State, step: Step): Result<Delta, Error>
    requires step.AttachMember?
  {
    if step.user !in s.users then Err(UserNotFound)
    else if FindMembership(s.memberships, step.user, step.tenant).Some? then Err(MembershipAlreadyExists)
    else
      match AssertAssignable(s.roles, FindOwner(s.roles, step.tenant), step.tenant, step.roleIds)
      case Some(e) => Err(e)
      case None =>
        match NormalizeRoleIds(step.roleIds)
        case Err(e) => Err(e)
        case Ok(ids) => Ok(MemberAdded(step.newId, Membership(step.tenant, step.user, ids, Active), None, None, step.now))
  }

  function InvitedBy(s: State, actor: Actor): Option<Id> {
    match actor
    case UserActor(id) => Some(id)
    case KeyActor(id) => if id in s.keys then Some(s.keys[id].createdBy) else None
  }

  ghost function DecideInvite(s: State, step: Step): Result<Delta, Error>
    requires step.InviteMember?
  {
    var email := Normalize(step.email);
    var user := FindUser(s.users, email);
    var pending := FindPending(s.invitations, step.tenant, email);
    match AssertAssignable(s.roles, FindOwner(s.roles, step.tenant), step.tenant, step.roleIds)
    case Some(e) => Err(e)
    case None =>
      if user.Some? && FindMembership(s.memberships, user.value, step.tenant).Some? then Err(MembershipAlreadyExists)
      else if pending.Some? && InvitationActive(s.invitations[pending.value], step.now) then Err(InvitationAlreadyPending)
      else BuildInvitation(s, step, email, pending)
  }

  function BuildInvitation(s: State, step: Step, email: string, pending: Option<Id>): Result<Delta, Error>
    requires step.InviteMember?
  {
    if InvitedBy(s, step.actor) == None then Err(Error.InsufficientPermission(TenancyMembersInvite))
    else
      match NormalizeEmail(email)
      case Err(e) => Err(e)
      case Ok(normalized) =>
        match NormalizeRoleIds(step.roleIds)
        case Err(e) => Err(e)
        case Ok(ids) =>
          Ok(MemberInvited(step.newId,
                           Invitation(step.tenant, normalized, ids, Digest(step.newToken), step.now + INVITATION_TTL_MS,
                                      InvitedBy(s, step.actor).value, None),
                           pending, step.newToken, step.now))
  }

  ghost function DecideAccept(s: State, step: Step): Result<Delta, Error>
    requires step.AcceptInvitation?
  {
    var found := FindInvitation(s.invitations, Digest(step.token));
    if found == None || !InvitationActive(s.invitations[found.value], step.now) then Err(InvalidInvitationToken)
    else
      var invitation := s.invitations[found.value];
      var user := FindUser(s.users, Normalize(invitation.email));
      if user.Some? then JoinAs(s, step, invitation, found.value, user.value, None)
      else
        match RegisterFor(step, invitation)
        case Err(e) => Err(e)
        case Ok(created) => JoinAs(s, step, invitation, found.value, created.id, Some(created))
  }

  function RegisterFor(step: Step, invitation: Invitation): Result<NewUser, Error>
    requires step.AcceptInvitation?
  {
    if step.maybeName == None || step.password == None then Err(RegistrationRequired)
    else if |step.password.value| < MIN_PASSWORD_LENGTH then Err(InvalidPassword)
    else BuildUser(step.newUserId, invitation.email, step.maybeName.value, step.password)
  }

  ghost function JoinAs(s: State, step: Step, invitation: Invitation, invitationId: Id, user: Id, created: Option<NewUser>): Result<Delta, Error>
    requires step.AcceptInvitation?
  {
    if FindMembership(s.memberships, user, invitation.tenantId).Some? then Err(MembershipAlreadyExists)
    else
      match NormalizeRoleIds(invitation.roleIds)
      case Err(e) => Err(e)
      case Ok(ids) =>
        Ok(MemberAdded(step.newId, Membership(invitation.tenantId, user, ids, Active), created, Some(invitationId), step.now))
  }

  /** Active memberships of the tenant, other than one, that hold a role. */
  function OtherActiveHolders(memberships: map<Id, Membership>, tenant: Id, role: Id, except_: Id): set<Id> {
    set m | m in Holders(memberships, tenant, role) && m != except_ && memberships[m].status == Active
  }

  ghost function DecideReplace(s: State, step: Step): Result<Delta, Error>
    requires step.ReplaceRoles?
  {
    if step.membership !in s.memberships || s.memberships[step.membership].tenantId != step.tenant then Err(MembershipNotFound)
    else
      var owner := FindOwner(s.roles, step.tenant);
      match AssertAssignable(s.roles, owner, step.tenant, step.roleIds)
      case Some(e) => Err(e)
      case None =>
        if owner.Some? && owner.value in s.memberships[step.membership].roleIds
           && |OtherActiveHolders(s.memberships, step.tenant, owner.value, step.membership)| == 0 then Err(LastOwnerRequired)
        else
          match NormalizeRoleIds(step.roleIds)
          case Err(e) => Err(e)
          case Ok(ids) => Ok(RolesReplaced(step.membership, s.memberships[step.membership].(roleIds := ids)))
  }

  ghost predicate NameTaken(roles: map<Id, Role>, tenant: Id, name: string, except_: Option<Id>) {
    exists r: Id :: IsNamed(roles, r, tenant, name) && Some(r) != except_
  }

  ghost function DecideCreateRole(s: State, step: Step): Result<Delta, Error>
    requires step.CreateRole?
  {
    if NameTaken(s.roles, step.tenant, Trim(step.name), None) then Err(RoleNameTaken)
    else
      match NormalizeRoleName(step.name)
      case Err(e) => Err(e)
      case Ok(name) =>
        match NormalizePermissions(step.permissions)
        case Err(e) => Err(e)
        case Ok(permissions) => Ok(RoleAdded(step.newId, Role(step.tenant, name, permissions, false)))
  }

  ghost function Renamed(s: State, step: Step, role: Role): Result<Role, Error>
    requires step.UpdateRole?
  {
    if step.maybeName == None then Ok(role)
    else if NameTaken(s.roles, step.tenant, Trim(step.maybeName.value), Some(step.role)) then Err(RoleNameTaken)
    else if role.isSystem then Err(SystemRoleImmutable)
    else
      match NormalizeRoleName(step.maybeName.value)
      case Err(e) => Err(e)
      case Ok(name) => Ok(role.(name := name))
  }

  function Repermitted(role: Role, permissions: Option<seq<Permission>>): Result<Role, Error> {
    if permissions == None then Ok(role)
    else if role.isSystem then Err(SystemRoleImmutable)
    else
      match NormalizePermissions(permissions.value)
      case Err(e) => Err(e)
      case Ok(normalized) => Ok(role.(permissions := normalized))
  }

  ghost function DecideUpdateRole(s: State, step: Step): Result<Delta, Error>
    requires step.UpdateRole?
  {
    if step.role !in s.roles || s.roles[step.role].tenantId != step.tenant then Err(RoleNotFound)
    else
      match Renamed(s, step, s.roles[step.role])
      case Err(e) => Err(e)
      case Ok(renamed) =>
        match Repermitted(renamed, step.maybePermissions)
        case Err(e) => Err(e)
        case Ok(role) => Ok(RoleUpdated(step.role, role))
  }

  function DecideDeleteRole(s: State, step: Step): Result<Delta, Error>
    requires step.DeleteRole?
  {
    if step.role !in s.roles || s.roles[step.role].tenantId != step.tenant then Err(RoleNotFound)
    else if s.roles[step.role].isSystem then Err(SystemRoleImmutable)
    else if |Holders(s.memberships, step.tenant, step.role)| > 0 then Err(RoleInUse)
    else Ok(RoleDeleted(step.role, step.tenant))
  }

  ghost function DecideCreateKey(s: State, step: Step): Result<Delta, Error>
    requires step.CreateApiKey?
  {
    if !step.actor.UserActor? then Err(Error.InsufficientPermission(IdentityApiKeysManage))
    else
      match FirstNotHeld(step.permissions, GetPermissions(s, step.actor, step.tenant, step.now).1)
      case Some(e) => Err(e)
      case None =>
        if Trim(step.name) == "" then Err(InvalidApiKeyName)
        else
          match NormalizeKeyPermissions(step.permissions)
          case Err(e) => Err(e)
          case Ok(permissions) =>
            var prefix := ApiKeyToken.DisplayPrefix(step.newPrefix);
            var token := ApiKeyToken.Create(step.newPrefix, step.newSecret);
            if exists k :: HasPrefix(s.keys, k, prefix) then Err(PrefixTaken)
            else
              Ok(KeyMinted(step.newId,
                           ApiKey(step.tenant, step.actor.id, Trim(step.name), prefix, Digest(token), permissions, step.keyExpiresAt, None),
                           token))
  }

  function RenamedKey(key: ApiKey, name: Option<string>): Result<ApiKey, Error> {
    if name == None then Ok(key)
    else if key.revokedAt.Some? then Err(ApiKeyAlreadyRevoked)
    else if Trim(name.value) == "" then Err(InvalidApiKeyName)
    else Ok(key.(name := Trim(name.value)))
  }

  function RepermittedKey(key: ApiKey, permissions: Option<seq<Permission>>): Result<ApiKey, Error> {
    if permissions == None then Ok(key)
    else if key.revokedAt.Some? then Err(ApiKeyAlreadyRevoked)
    else
      match NormalizeKeyPermissions(permissions.value)
      case Err(e) => Err(e)
      case Ok(normalized) => Ok(key.(permissions := normalized))
  }

  ghost function DecideUpdateKey(s: State, step: Step): Result<Delta, Error>
    requires step.UpdateApiKey?
  {
    var refused :=
      if step.maybePermissions.Some? && step.actor.UserActor?
      then FirstNotHeld(step.maybePermissions.value, GetPermissions(s, step.actor, step.tenant, step.now).1)
      else None;
    if refused.Some? then Err(refused.value) else ChangedKey(s, step)
  }

  function ChangedKey(s: State, step: Step): Result<Delta, Error>
    requires step.UpdateApiKey?
  {
    if step.key !in s.keys || s.keys[step.key].tenantId != step.tenant then Err(ApiKeyNotFound)
    else
      match RenamedKey(s.keys[step.key], step.maybeName)
      case Err(e) => Err(e)
      case Ok(renamed) =>
        match RepermittedKey(renamed, step.maybePermissions)
        case Err(e) => Err(e)
        case Ok(key) => Ok(KeyUpdated(step.key, key))
  }

  function DecideRevokeKey(s: State, step: Step): Result<Delta, Error>
    requires step.RevokeApiKey?
  {
    if step.key !in s.keys || s.keys[step.key].tenantId != step.tenant then Err(ApiKeyNotFound)
    else if s.keys[step.key].revokedAt.Some? then Err(ApiKeyAlreadyRevoked)
    else Ok(KeyUpdated(step.key, s.keys[step.key].(revokedAt := Some(step.now))))
  }

  ghost function Decide(s: State, step: Step): Result<Delta, Error> {
    match step
    case CreateUser(_, _, _, _, _) => DecideCreateUser(s, step)
    case CreateTenant(_, _, _, _, _, _, _, _) => DecideCreateTenant(s, step)
    case AttachMember(_, _, _, _, _, _) => DecideAttach(s, step)
    case InviteMember(_, _, _, _, _, _, _) => DecideInvite(s, step)
    case AcceptInvitation(_, _, _, _, _, _) => DecideAccept(s, step)
    case ReplaceRoles(_, _, _, _, _) => DecideReplace(s, step)
    case CreateRole(_, _, _, _, _, _) => DecideCreateRole(s, step)
    case UpdateRole(_, _, _, _, _, _) => DecideUpdateRole(s, step)
    case DeleteRole(_, _, _, _) => DecideDeleteRole(s, step)
    case PurgeInvitations(purged, _) => Ok(InvitationsPurged(purged))
    case CreateApiKey(_, _, _, _, _, _, _, _, _) => DecideCreateKey(s, step)
    case UpdateApiKey(_, _, _, _, _, _) => DecideUpdateKey(s, step)
    case RevokeApiKey(_, _, _, _) => DecideRevokeKey(s, step)
    case ReadPermissions(_, _, _) => Ok(NoChange)
  }

  // ---------------------------------------------------------------------------------------------
  // Committing
  // ---------------------------------------------------------------------------------------------

  function Forget(cache: map<CacheKey, CacheEntry>, keys: set<CacheKey>): map<CacheKey, CacheEntry> {
    cache - keys
  }

  /** The cache entries of everyone who holds a role in its tenant. */
  function HolderKeys(memberships: map<Id, Membership>, tenant: Id, role: Id): set<CacheKey> {
    set m | m in Holders(memberships, tenant, role) :: ForUser(tenant, memberships[m].userId)
  }

  function WithUser(users: map<Id, User>, added: Option<NewUser>): map<Id, User> {
    if added.Some? then users[added.value.id := added.value.user] else users
  }

  function WithPassword(passwords: map<Id, string>, added: Option<NewUser>): map<Id, string> {
    if added.Some? && added.value.password.Some? then passwords[added.value.id := Hash(added.value.password.value)] else passwords
  }

  function WithId(used: set<Id>, added: Option<NewUser>): set<Id> {
    if added.Some? then used + {added.value.id} else used
  }

  function WithAcceptance(accepted: map<Id, Id>, membership: Id, invitation: Option<Id>): map<Id, Id> {
    if invitation.Some? then accepted[membership := invitation.value] else accepted
  }

  function Consume(invitations: map<Id, Invitation>, id: Option<Id>, at: int): map<Id, Invitation> {
    if id.Some? && id.value in invitations then invitations[id.value := invitations[id.value].(consumedAt := Some(at))] else invitations
  }

  function SeedRoles(roles: map<Id, Role>, d: Delta): map<Id, Role>
    requires d.TenantCreated?
  {
    roles[d.ownerRole := Role(d.tenant, "Owner", CATALOG, true)]
         [d.adminRole := Role(d.tenant, "Admin", ADMIN_PERMISSIONS, true)]
         [d.memberRole := Role(d.tenant, "Member", MEMBER_PERMISSIONS, true)]
  }

  function CommitTenant(s: State, d: Delta): State
    requires d.TenantCreated?
  {
    s.(tenants := s.tenants[d.tenant := d.tenantName],
       roles := SeedRoles(s.roles, d),
       memberships := s.memberships[d.membershipId := Membership(d.tenant, d.owner, [d.ownerRole], Active)],
       used := s.used + {d.tenant, d.ownerRole, d.adminRole, d.memberRole, d.membershipId},
       founding := s.founding[d.tenant := Founding(d.ownerRole, d.membershipId, d.owner)])
  }

  function CommitMember(s: State, d: Delta): State
    requires d.MemberAdded?
  {
    s.(users := WithUser(s.users, d.newUser),
       passwords := WithPassword(s.passwords, d.newUser),
       memberships := s.memberships[d.membershipId := d.membership],
       invitations := Consume(s.invitations, d.invitation, d.at),
       used := WithId(s.used, d.newUser) + {d.membershipId},
       accepted := WithAcceptance(s.accepted, d.membershipId, d.invitation),
       cache := Forget(s.cache, {ForUser(d.membership.tenantId, d.membership.userId)}))
  }

  function Commit(s: State, d: Delta): State
  {
    match d
    case NoChange => s
    case UserAdded(added) =>
      s.(users := WithUser(s.users, Some(added)), passwords := WithPassword(s.passwords, Some(added)), used := WithId(s.used, Some(added)))
    case TenantCreated(_, _, _, _, _, _, _) => CommitTenant(s, d)
    case MemberAdded(_, _, _, _, _) => CommitMember(s, d)
    case RolesReplaced(m, membership) =>
      s.(memberships := s.memberships[m := membership], cache := Forget(s.cache, {ForUser(membership.tenantId, membership.userId)}))
    case MemberInvited(i, invite, superseded, token, at) =>
      s.(invitations := Consume(s.invitations, superseded, at)[i := invite], used := s.used + {i}, tokens := s.tokens + {token})
    case RoleAdded(r, role) => s.(roles := s.roles[r := role], used := s.used + {r})
    case RoleUpdated(r, role) =>
      s.(roles := s.roles[r := role], cache := Forget(s.cache, HolderKeys(s.memberships, role.tenantId, r)))
    case RoleDeleted(r, tenant) =>
      s.(roles := s.roles - {r}, cache := Forget(s.cache, HolderKeys(s.memberships, tenant, r)))
    case InvitationsPurged(purged) => s.(invitations := s.invitations - purged)
    case KeyMinted(k, key, token) =>
      s.(keys := s.keys[k := key], used := s.used + {k}, tokens := s.tokens + {token}, minted := s.minted[k := token])
    case KeyUpdated(k, key) =>
      s.(keys := s.keys[k := key], cache := Forget(s.cache, {ForKey(key.tenantId, k)}))
  }

  // ---------------------------------------------------------------------------------------------
  // One use case
  // ---------------------------------------------------------------------------------------------

  datatype Guard = Guard(actor: Actor, tenant: Id, permission: Option<Permission>)

  function GuardOf(step: Step): Option<Guard> {
    match step
    case AttachMember(actor, tenant, _, _, _, _) => Some(Guard(actor, tenant, Some(TenancyMembersManage)))
    case InviteMember(actor, tenant, _, _, _, _, _) => Some(Guard(actor, tenant, Some(TenancyMembersInvite)))
    case ReplaceRoles(actor, tenant, _, _, _) => Some(Guard(actor, tenant, Some(TenancyMembersManage)))
    case CreateRole(actor, tenant, _, _, _, _) => Some(Guard(actor, tenant, Some(AuthorizationRolesManage)))
    case UpdateRole(actor, tenant, _, _, _, _) => Some(Guard(actor, tenant, Some(AuthorizationRolesManage)))
    case DeleteRole(actor, tenant, _, _) => Some(Guard(actor, tenant, Some(AuthorizationRolesManage)))
    case CreateApiKey(actor, tenant, _, _, _, _, _, _, _) => Some(Guard(actor, tenant, Some(IdentityApiKeysManage)))
    case UpdateApiKey(actor, tenant, _, _, _, _) => Some(Guard(actor, tenant, Some(IdentityApiKeysManage)))
    case RevokeApiKey(actor, tenant, _, _) => Some(Guard(actor, tenant, Some(IdentityApiKeysManage)))
    case ReadPermissions(actor, tenant, _) => Some(Guard(actor, tenant, None))
    case _ => None
  }

  /** `authz.require`: the state after the cache-aside read, and whether the guard lets the actor through. */
  ghost function Authorize(s: State, step: Step): (State, Option<Error>) {
    match GuardOf(step)
    case None => (s, None)
    case Some(guard) =>
      var (s1, permissions) := GetPermissions(s, guard.actor, guard.tenant, step.now);
      (s1, if guard.permission.Some? && guard.permission.value !in permissions
           then Some(Error.InsufficientPermission(guard.permission.value)) else None)
  }

  predicate IsFresh(s: State, id: Id) {
    id !in s.used
  }

  /** A generated tenant id is not a key of, or mentioned in, any store or cache entry. */
  predicate TenantUnseen(s: State, t: Id) {
    && t !in s.founding && t !in s.tenants
    && (forall k :: k in s.cache ==> k.tenantId != t)
    && (forall r :: r in s.roles ==> s.roles[r].tenantId != t)
    && (forall m :: m in s.memberships ==> s.memberships[m].tenantId != t)
    && (forall i :: i in s.invitations ==> s.invitations[i].tenantId != t)
  }

  /** Generated values are fresh, the clock does not run backwards, and purges take inactive invitations only. */
  predicate Enabled(s: State, step: Step) {
    && step.now >= s.clock
    && match step
       case CreateUser(_, _, _, newId, _) => IsFresh(s, newId)
       case CreateTenant(_, _, t, o, a, m, newId, _) =>
         && NoRepeats([t, o, a, m, newId])
         && IsFresh(s, t) && IsFresh(s, o) && IsFresh(s, a) && IsFresh(s, m) && IsFresh(s, newId)
         && TenantUnseen(s, t)
       case AttachMember(_, _, _, _, newId, _) => IsFresh(s, newId)
       case InviteMember(_, _, _, _, newId, newToken, _) => IsFresh(s, newId) && newToken !in s.tokens
       case AcceptInvitation(_, _, _, newUserId, newId, _) => IsFresh(s, newId) && IsFresh(s, newUserId) && newId != newUserId
       case CreateRole(_, _, _, _, newId, _) => IsFresh(s, newId)
       case PurgeInvitations(purged, now) => forall i :: i in purged ==> i in s.invitations && !InvitationActive(s.invitations[i], now)
       case CreateApiKey(_, _, _, _, _, newId, newPrefix, newSecret, _) =>
         && IsFresh(s, newId) && ApiKeyToken.IsPublicPrefix(newPrefix) && ApiKeyToken.IsSecret(newSecret)
         && ApiKeyToken.Create(newPrefix, newSecret) !in s.tokens
       case _ => true
  }

  /** The committed state after a use case, and what it returns. */
  ghost function Apply(s: State, step: Step): (State, Result<Delta, Error>) {
    var (s1, refused) := Authorize(s.(clock := step.now), step);
    var decision := if refused.Some? then Err(refused.value) else Decide(s1, step);
    (if decision.Ok? then Commit(s1, decision.value) else s1, decision)
  }
}
