/** What every reachable state of the tenancy, role, invitation and API-key stores satisfies. */
module AccessInvariants {
  import opened Wrappers
  import opened Text
  import opened Users
  import opened Access
  import opened AccessUseCases
  import ApiKeyToken

  // ---------------------------------------------------------------------------------------------
  // The invariant
  // ---------------------------------------------------------------------------------------------

  predicate AllUsed(ids: seq<Id>, used: set<Id>) {
    forall id :: id in ids ==> id in used
  }

  /** Every stored id, and every role id that a membership or an invitation names, was generated. */
  predicate IdsUsed(s: State) {
    && s.users.Keys <= s.used && s.roles.Keys <= s.used && s.memberships.Keys <= s.used && s.invitations.Keys <= s.used
    && s.keys.Keys <= s.used && s.accepted.Keys <= s.used
    && (forall m :: m in s.memberships ==> AllUsed(s.memberships[m].roleIds, s.used))
    && (forall i :: i in s.invitations ==> AllUsed(s.invitations[i].roleIds, s.used))
  }

  /** The position of a permission in the catalog. */
  function Rank(p: Permission): (r: nat)
    ensures if p in CATALOG then r < |CATALOG| && CATALOG[r] == p else r == |CATALOG|
  {
    match p
    case TenancyMembersRead => 0
    case TenancyMembersInvite => 1
    case TenancyMembersManage => 2
    case TenancyTenantRead => 3
    case AuthorizationRolesRead => 4
    case AuthorizationRolesManage => 5
    case IdentityUsersRead => 6
    case IdentityApiKeysManage => 7
    case Unknown(_) => 8
  }

  predicate InCatalogOrder(permissions: seq<Permission>) {
    && (forall i :: 0 <= i < |permissions| ==> !permissions[i].Unknown?)
    && (forall i, j :: 0 <= i < j < |permissions| ==> Rank(permissions[i]) < Rank(permissions[j]))
  }

  /** A nonempty list of catalog permissions in catalog order, hence without repetitions. */
  predicate IsBundle(permissions: seq<Permission>) {
    permissions != [] && InCatalogOrder(permissions)
  }

  predicate RoleSound(role: Role) {
    && IsBundle(role.permissions)
    && if role.isSystem then IsReserved(role.name) && role.permissions == SystemPermissions(role.name)
       else !IsReserved(role.name) && role.name != "" && IsTrimmed(role.name)
  }

  predicate NamesUnique(roles: map<Id, Role>) {
    forall r, q :: r in roles && q in roles && roles[r].tenantId == roles[q].tenantId && roles[r].name == roles[q].name ==> r == q
  }

  predicate RolesSound(roles: map<Id, Role>) {
    NamesUnique(roles) && forall r :: r in roles ==> RoleSound(roles[r])
  }

  predicate IsNoOwnerRole(founding: map<Id, Founding>, roleIds: seq<Id>) {
    forall t :: t in founding ==> founding[t].ownerRole !in roleIds
  }

  /** Each founded tenant has its Owner role, and the founder's membership holds just it: active and as created. */
  predicate FoundersStand(founding: map<Id, Founding>, roles: map<Id, Role>, memberships: map<Id, Membership>) {
    forall t :: t in founding ==>
      && IsOwnerRole(roles, founding[t].ownerRole, t)
      && founding[t].membershipId in memberships
      && memberships[founding[t].membershipId] == Membership(t, founding[t].userId, [founding[t].ownerRole], Active)
  }

  /** No other membership holds a founded tenant's Owner role. */
  predicate FoundersAlone(founding: map<Id, Founding>, memberships: map<Id, Membership>) {
    forall t, m :: t in founding && m in memberships && founding[t].ownerRole in memberships[m].roleIds ==> m == founding[t].membershipId
  }

  predicate Founded(s: State) {
    && FoundersStand(s.founding, s.roles, s.memberships)
    && FoundersAlone(s.founding, s.memberships)
    && (forall i :: i in s.invitations ==> IsNoOwnerRole(s.founding, s.invitations[i].roleIds))
  }

  predicate EmailsUnique(users: map<Id, User>) {
    EmailsDistinct(users) && forall u :: u in users ==> NormalizeEmail(users[u].email) == Ok(users[u].email)
  }

  predicate MembershipsDistinct(memberships: map<Id, Membership>) {
    forall m, n :: (m in memberships && n in memberships && memberships[m].userId == memberships[n].userId
                    && memberships[m].tenantId == memberships[n].tenantId) ==> m == n
  }

  predicate MembershipsUnique(memberships: map<Id, Membership>) {
    MembershipsDistinct(memberships) && forall m :: m in memberships ==> memberships[m].roleIds != [] && NoRepeats(memberships[m].roleIds)
  }

  predicate PendingDistinct(invitations: map<Id, Invitation>) {
    forall i, j :: (i in invitations && j in invitations && invitations[i].tenantId == invitations[j].tenantId
                    && invitations[i].email == invitations[j].email
                    && invitations[i].consumedAt == None && invitations[j].consumedAt == None) ==> i == j
  }

  predicate TokensDistinct(invitations: map<Id, Invitation>) {
    forall i, j :: i in invitations && j in invitations && invitations[i].tokenHash == invitations[j].tokenHash ==> i == j
  }

  /** At most one unconsumed invitation per tenant and email; tokens are distinct. */
  predicate InvitationsUnique(invitations: map<Id, Invitation>, tokens: set<string>) {
    && PendingDistinct(invitations) && TokensDistinct(invitations)
    && (forall i :: i in invitations ==>
          && IssuedHash(tokens, invitations[i].tokenHash)
          && NormalizeEmail(invitations[i].email) == Ok(invitations[i].email)
          && invitations[i].roleIds != [])
  }

  /** No invitation gave two memberships, and an accepted one is consumed for good. */
  predicate AcceptedOnce(s: State) {
    && (forall m, n :: m in s.accepted && n in s.accepted && s.accepted[m] == s.accepted[n] ==> m == n)
    && (forall m :: m in s.accepted ==>
          s.accepted[m] in s.used && (s.accepted[m] in s.invitations ==> s.invitations[s.accepted[m]].consumedAt.Some?))
  }

  ghost predicate Coherent(s: State, tenant: Id, user: Id) {
    ForUser(tenant, user) in s.cache ==>
      Elements(s.cache[ForUser(tenant, user)].value) == Effective(s.memberships, s.roles, user, tenant)
  }

  ghost predicate CacheCoherent(s: State) {
    forall tenant, user :: Coherent(s, tenant, user)
  }

  /** What an API key may hold: catalog permissions, never the permission to manage keys. */
  predicate IsKeyBundle(permissions: seq<Permission>) {
    forall p :: p in permissions ==> p in CATALOG && p != IdentityApiKeysManage
  }

  predicate KeySound(key: ApiKey, token: string) {
    && key.permissions != [] && NoRepeats(key.permissions) && IsKeyBundle(key.permissions)
    && key.secretHash == Digest(token) && ApiKeyToken.Parse(token) == Some(key.prefix)
  }

  predicate KeysSound(keys: map<Id, ApiKey>, minted: map<Id, string>) {
    && (forall k :: k in keys ==> k in minted && KeySound(keys[k], minted[k]))
    && (forall k, l :: k in keys && l in keys && keys[k].prefix == keys[l].prefix ==> k == l)
  }

  /** A cached key entry holds nothing, or what the key held when it was last usable, for at most the TTL after expiry or revocation. */
  predicate KeyEntrySound(s: State, tenant: Id, k: Id, entry: CacheEntry) {
    && IsKeyBundle(entry.value)
    && entry.expiresAt <= s.clock + EFFECTIVE_PERMISSIONS_TTL_MS
    && (entry.value != [] ==>
          && k in s.keys
          && (s.keys[k].expiresAt.Some? ==> entry.expiresAt < s.keys[k].expiresAt.value + EFFECTIVE_PERMISSIONS_TTL_MS)
          && (s.keys[k].revokedAt.Some? ==> entry.expiresAt <= s.keys[k].revokedAt.value + EFFECTIVE_PERMISSIONS_TTL_MS)
          && (s.keys[k].tenantId == tenant ==> entry.value == s.keys[k].permissions && s.keys[k].revokedAt == None))
  }

  predicate KeyCacheSound(s: State) {
    forall key :: key in s.cache && key.ForKey? ==> KeyEntrySound(s, key.tenantId, key.keyId, s.cache[key])
  }

  ghost predicate Inv(s: State) {
    && IdsUsed(s)
    && RolesSound(s.roles)
    && Founded(s)
    && EmailsUnique(s.users)
    && MembershipsUnique(s.memberships)
    && InvitationsUnique(s.invitations, s.tokens)
    && AcceptedOnce(s)
    && CacheCoherent(s)
    && KeysSound(s.keys, s.minted)
    && KeyCacheSound(s)
  }

  // ---------------------------------------------------------------------------------------------
  // What a decision promises about the change it commits
  // ---------------------------------------------------------------------------------------------

  predicate Assignable(s: State, roleIds: seq<Id>) {
    roleIds != [] && NoRepeats(roleIds) && AllUsed(roleIds, s.used) && IsNoOwnerRole(s.founding, roleIds)
  }

  ghost predicate NewUserSound(s: State, added: NewUser) {
    && IsFresh(s, added.id)
    && NormalizeEmail(added.user.email) == Ok(added.user.email)
    && forall u :: !HasEmail(s.users, u, added.user.email)
  }

  /** Everything about a key that no use case changes. */
  predicate SameIdentity(before: ApiKey, after: ApiKey) {
    && after.tenantId == before.tenantId && after.createdBy == before.createdBy && after.prefix == before.prefix
    && after.secretHash == before.secretHash && after.expiresAt == before.expiresAt
    && (before.revokedAt.Some? ==> after == before)
  }

  ghost predicate Justified(s: State, d: Delta) {
    match d
    case NoChange => true
    case UserAdded(added) => NewUserSound(s, added)
    case TenantCreated(t, _, owner, o, a, m, newId) =>
      && IsFresh(s, o) && IsFresh(s, a) && IsFresh(s, m) && IsFresh(s, newId) && o != a && o != m && a != m
      && TenantUnseen(s, t)
    case MemberAdded(m, membership, newUser, invitation, _) =>
      && IsFresh(s, m) && membership.status == Active && Assignable(s, membership.roleIds)
      && (forall n :: !Links(s.memberships, n, membership.userId, membership.tenantId))
      && (newUser.Some? ==> NewUserSound(s, newUser.value) && newUser.value.id != m)
      && (invitation.Some? ==> invitation.value in s.invitations && s.invitations[invitation.value].consumedAt == None)
    case RolesReplaced(m, membership) =>
      && m in s.memberships && Assignable(s, membership.roleIds)
      && membership == s.memberships[m].(roleIds := membership.roleIds)
      && (forall t :: t in s.founding ==> s.founding[t].membershipId != m)
    case MemberInvited(i, invite, superseded, token, _) =>
      && IsFresh(s, i) && token !in s.tokens
      && invite.tokenHash == Digest(token) && invite.consumedAt == None && Assignable(s, invite.roleIds)
      && NormalizeEmail(invite.email) == Ok(invite.email)
      && superseded == FindPending(s.invitations, invite.tenantId, invite.email)
    case RoleAdded(r, role) =>
      IsFresh(s, r) && !role.isSystem && RoleSound(role) && forall q :: !IsNamed(s.roles, q, role.tenantId, role.name)
    case RoleUpdated(r, role) =>
      && r in s.roles && role.tenantId == s.roles[r].tenantId && role.isSystem == s.roles[r].isSystem
      && (role.isSystem ==> role == s.roles[r])
      && RoleSound(role) && forall q :: IsNamed(s.roles, q, role.tenantId, role.name) ==> q == r
    case RoleDeleted(r, tenant) =>
      r in s.roles && s.roles[r].tenantId == tenant && !s.roles[r].isSystem && Holders(s.memberships, tenant, r) == {}
    case InvitationsPurged(purged) => true
    case KeyMinted(k, key, token) =>
      IsFresh(s, k) && KeySound(key, token) && forall l :: !HasPrefix(s.keys, l, key.prefix)
    case KeyUpdated(k, key) =>
      && k in s.keys && SameIdentity(s.keys[k], key)
      && (key.revokedAt == s.keys[k].revokedAt || (key.revokedAt.Some? && key.revokedAt.value >= s.clock))
      && key.permissions != [] && NoRepeats(key.permissions) && IsKeyBundle(key.permissions)
  }
}
