/**
 * Tenants, roles, memberships, invitations, API keys and the permission cache: the stored state, the entities'
 * normalisation rules, the repository lookups and the authorization service.
 */
module Access {
  import opened Wrappers
  import opened Text
  import opened Users

  type Id = nat

  const EFFECTIVE_PERMISSIONS_TTL_MS: int := 60 * 1000

  datatype Permission =
    | TenancyMembersRead
    | TenancyMembersInvite
    | TenancyMembersManage
    | TenancyTenantRead
    | AuthorizationRolesRead
    | AuthorizationRolesManage
    | IdentityUsersRead
    | IdentityApiKeysManage
    | Unknown(name: string)

  const CATALOG: seq<Permission> := [
    TenancyMembersRead, TenancyMembersInvite, TenancyMembersManage, TenancyTenantRead,
    AuthorizationRolesRead, AuthorizationRolesManage, IdentityUsersRead, IdentityApiKeysManage]

  const ADMIN_PERMISSIONS: seq<Permission> := [
    TenancyMembersRead, TenancyMembersInvite, TenancyMembersManage, TenancyTenantRead, IdentityUsersRead, IdentityApiKeysManage]

  const MEMBER_PERMISSIONS: seq<Permission> := [TenancyTenantRead]

  datatype Role = Role(tenantId: Id, name: string, permissions: seq<Permission>, isSystem: bool)

  datatype MembershipStatus = Invited | Active | Suspended

  datatype Membership = Membership(tenantId: Id, userId: Id, roleIds: seq<Id>, status: MembershipStatus)

  datatype Invitation = Invitation(tenantId: Id, email: string, roleIds: seq<Id>, tokenHash: string, expiresAt: int,
                                   invitedBy: Id, consumedAt: Option<int>)

  datatype ApiKey = ApiKey(tenantId: Id, createdBy: Id, name: string, prefix: string, secretHash: string,
                           permissions: seq<Permission>, expiresAt: Option<int>, revokedAt: Option<int>)

  datatype CacheKey = ForUser(tenantId: Id, userId: Id) | ForKey(tenantId: Id, keyId: Id)

  datatype CacheEntry = CacheEntry(value: seq<Permission>, expiresAt: int)

  datatype Actor = UserActor(id: Id) | KeyActor(id: Id)

  /** How a tenant was founded. */
  datatype Founding = Founding(ownerRole: Id, membershipId: Id, userId: Id)

  /**
   * The stores, plus a history: `used` holds every generated id, `tokens` every generated token, `founding` how each
   * tenant was founded, `accepted` which invitation a membership came from, `minted` the token handed out for a key.
   */
  datatype State = State(
    users: map<Id, User>,
    passwords: map<Id, string>,
    tenants: map<Id, string>,
    roles: map<Id, Role>,
    memberships: map<Id, Membership>,
    invitations: map<Id, Invitation>,
    keys: map<Id, ApiKey>,
    cache: map<CacheKey, CacheEntry>,
    clock: int,
    used: set<Id>,
    tokens: set<string>,
    founding: map<Id, Founding>,
    accepted: map<Id, Id>,
    minted: map<Id, string>)

  const Start: State := State(map[], map[], map[], map[], map[], map[], map[], map[], 0, {}, {}, map[], map[], map[])

  datatype Error =
    | InsufficientPermission(permission: Permission)
    | UserNotFound
    | UserEmailTaken
    | InvalidEmail
    | InvalidDisplayName
    | InvalidPassword
    | InvalidTenantName
    | MembershipNotFound
    | MembershipAlreadyExists
    | EmptyMembershipRoles
    | LastOwnerRequired
    | CannotAssignOwnerRole
    | RoleNotFound
    | RoleNameTaken
    | InvalidRoleName
    | ReservedRoleName
    | EmptyRolePermissions
    | UnknownPermission(permission: Permission)
    | SystemRoleImmutable
    | RoleInUse
    | InvitationAlreadyPending
    | InvalidInvitationToken
    | InvitationAlreadyConsumed
    | InvitationExpired
    | RegistrationRequired
    | ApiKeyNotFound
    | ApiKeyAlreadyRevoked
    | InvalidApiKeyName
    | EmptyApiKeyPermissions
    | ApiKeyCannotManageKeys
    | PrefixTaken

  // ---------------------------------------------------------------------------------------------
  // Entity rules
  // ---------------------------------------------------------------------------------------------

  predicate NoRepeats<T(==)>(s: seq<T>) {
    forall i, j :: 0 <= i < j < |s| ==> s[i] != s[j]
  }

  /** The list without repetitions, first occurrences kept in order. */
  function Dedup<T(==,!new)>(s: seq<T>): (r: seq<T>)
    ensures NoRepeats(r) && (s != [] ==> r != [])
    ensures forall x :: x in r <==> x in s
  {
    if s == [] then []
    else
      var init := Dedup(s[..|s| - 1]);
      assert s == s[..|s| - 1] + [s[|s| - 1]];
      if s[|s| - 1] in init then init else init + [s[|s| - 1]]
  }

  predicate IsFirst<T(==)>(s: seq<T>, i: nat, x: T) {
    i < |s| && s[i] == x && x !in s[..i]
  }

  /** What is kept comes in the order of its first occurrences. */
  lemma {:induction false} DedupKeepsOrder<T(!new)>(s: seq<T>, a: nat, b: nat, i: nat, j: nat)
    requires a < b < |Dedup(s)| && IsFirst(s, i, Dedup(s)[a]) && IsFirst(s, j, Dedup(s)[b])
    ensures i < j
  {
    var init := s[..|s| - 1];
    assert s == init + [s[|s| - 1]];
    assert Dedup(init)[a] in init;
    if b < |Dedup(init)| {
      assert Dedup(init)[b] in init;
      assert i < |init| && j < |init| && init[..i] == s[..i] && init[..j] == s[..j];
      DedupKeepsOrder(init, a, b, i, j);
    }
  }

  function NormalizeRoleIds(roleIds: seq<Id>): Result<seq<Id>, Error> {
    if Dedup(roleIds) == [] then Err(EmptyMembershipRoles) else Ok(Dedup(roleIds))
  }

  /** `all.filter(permission => wanted.has(permission))` */
  function Select(all: seq<Permission>, wanted: seq<Permission>): seq<Permission>
  {
    if all == [] then [] else (if all[0] in wanted then [all[0]] else []) + Select(all[1..], wanted)
  }

  /** The first permission in the list that is not in the catalog. */
  function FirstUnknown(permissions: seq<Permission>): (r: Option<Permission>)
    ensures r == None <==> forall p :: p in permissions ==> p in CATALOG
  {
    if permissions == [] then None
    else if permissions[0] !in CATALOG then Some(permissions[0])
    else FirstUnknown(permissions[1..])
  }

  function NormalizePermissions(permissions: seq<Permission>): Result<seq<Permission>, Error> {
    if permissions == [] then Err(EmptyRolePermissions)
    else if FirstUnknown(permissions).Some? then Err(UnknownPermission(FirstUnknown(permissions).value))
    else Ok(Select(CATALOG, permissions))
  }

  predicate IsReserved(name: string) {
    name == "Owner" || name == "Admin" || name == "Member"
  }

  function NormalizeRoleName(name: string): Result<string, Error> {
    if Trim(name) == "" then Err(InvalidRoleName)
    else if IsReserved(Trim(name)) then Err(ReservedRoleName)
    else Ok(Trim(name))
  }

  function SystemPermissions(name: string): seq<Permission> {
    if name == "Owner" then CATALOG else if name == "Admin" then ADMIN_PERMISSIONS else MEMBER_PERMISSIONS
  }

  /** `/^[^\s@]+@[^\s@]+\.[^\s@]+$/` */
  predicate IsEmail(s: string) {
    && (forall k :: 0 <= k < |s| ==> !IsSpace(s[k]))
    && exists i, j :: 0 < i && i + 1 < j && j + 1 < |s| && s[i] == '@' && s[j] == '.'
                      && forall k :: 0 <= k < |s| && k != i ==> s[k] != '@'
  }

  function NormalizeEmail(email: string): Result<string, Error> {
    if IsEmail(Normalize(email)) then Ok(Normalize(email)) else Err(InvalidEmail)
  }

  function NormalizeKeyPermissions(permissions: seq<Permission>): Result<seq<Permission>, Error> {
    if permissions == [] then Err(EmptyApiKeyPermissions)
    else if IdentityApiKeysManage in permissions then Err(ApiKeyCannotManageKeys)
    else Ok(Dedup(permissions))
  }

  predicate InvitationActive(invitation: Invitation, now: int) {
    invitation.consumedAt == None && invitation.expiresAt > now
  }

  predicate KeyUsable(key: ApiKey, now: int) {
    key.revokedAt == None && (key.expiresAt == None || key.expiresAt.value > now)
  }

  // ---------------------------------------------------------------------------------------------
  // Repository lookups
  // ---------------------------------------------------------------------------------------------

  predicate Links(memberships: map<Id, Membership>, m: Id, user: Id, tenant: Id) {
    m in memberships && memberships[m].userId == user && memberships[m].tenantId == tenant
  }

  ghost function FindMembership(memberships: map<Id, Membership>, user: Id, tenant: Id): (found: Option<Id>)
    ensures found.Some? ==> Links(memberships, found.value, user, tenant)
    ensures found == None ==> forall m :: !Links(memberships, m, user, tenant)
  {
    if exists m :: Links(memberships, m, user, tenant) then var m :| Links(memberships, m, user, tenant); Some(m) else None
  }

  predicate Holds(memberships: map<Id, Membership>, m: Id, tenant: Id, role: Id) {
    m in memberships && memberships[m].tenantId == tenant && role in memberships[m].roleIds
  }

  function Holders(memberships: map<Id, Membership>, tenant: Id, role: Id): set<Id> {
    set m | m in memberships && Holds(memberships, m, tenant, role)
  }

  predicate IsPendingFor(invitations: map<Id, Invitation>, i: Id, tenant: Id, email: string) {
    i in invitations && invitations[i].tenantId == tenant && invitations[i].email == email && invitations[i].consumedAt == None
  }

  ghost function FindPending(invitations: map<Id, Invitation>, tenant: Id, email: string): (found: Option<Id>)
    ensures found.Some? ==> IsPendingFor(invitations, found.value, tenant, email)
    ensures found == None ==> forall i :: !IsPendingFor(invitations, i, tenant, email)
  {
    if exists i :: IsPendingFor(invitations, i, tenant, email)
    then var i :| IsPendingFor(invitations, i, tenant, email); Some(i) else None
  }

  predicate HasToken(invitations: map<Id, Invitation>, i: Id, hash: string) {
    i in invitations && invitations[i].tokenHash == hash
  }

  ghost function FindInvitation(invitations: map<Id, Invitation>, hash: string): (found: Option<Id>)
    ensures found.Some? ==> HasToken(invitations, found.value, hash)
    ensures found == None ==> forall i :: !HasToken(invitations, i, hash)
  {
    if exists i :: HasToken(invitations, i, hash) then var i :| HasToken(invitations, i, hash); Some(i) else None
  }

  predicate IsNamed(roles: map<Id, Role>, r: Id, tenant: Id, name: string) {
    r in roles && roles[r].tenantId == tenant && roles[r].name == name
  }

  predicate IsOwnerRole(roles: map<Id, Role>, r: Id, tenant: Id) {
    IsNamed(roles, r, tenant, "Owner") && roles[r].isSystem
  }

  ghost function FindOwner(roles: map<Id, Role>, tenant: Id): (found: Option<Id>)
    ensures found.Some? ==> IsOwnerRole(roles, found.value, tenant)
    ensures found == None ==> forall r :: !IsOwnerRole(roles, r, tenant)
  {
    if exists r :: IsOwnerRole(roles, r, tenant) then var r :| IsOwnerRole(roles, r, tenant); Some(r) else None
  }

  predicate HasPrefix(keys: map<Id, ApiKey>, k: Id, prefix: string) {
    k in keys && keys[k].prefix == prefix
  }

  // ---------------------------------------------------------------------------------------------
  // Resolving permissions
  // ---------------------------------------------------------------------------------------------

  ghost function RoleIdsFor(memberships: map<Id, Membership>, user: Id, tenant: Id): seq<Id> {
    var found := FindMembership(memberships, user, tenant);
    if found == None || memberships[found.value].status != Active then [] else memberships[found.value].roleIds
  }

  /** The permissions that one role id contributes inside `tenant`: none when the role is gone or another tenant's. */
  function Contribution(roles: map<Id, Role>, tenant: Id, role: Id): seq<Permission> {
    if role in roles && roles[role].tenantId == tenant then roles[role].permissions else []
  }

  /** The union of the contributions, as a set: what the cache must agree with. */
  function Union(roles: map<Id, Role>, tenant: Id, roleIds: seq<Id>): set<Permission> {
    set r, p | r in roleIds && p in Contribution(roles, tenant, r) :: p
  }

  ghost function Effective(memberships: map<Id, Membership>, roles: map<Id, Role>, user: Id, tenant: Id): set<Permission> {
    Union(roles, tenant, RoleIdsFor(memberships, user, tenant))
  }

  /** The loop of `resolvePermissions`: a list in insertion order. */
  function AddNew(known: seq<Permission>, more: seq<Permission>): seq<Permission> {
    if more == [] then known
    else
      var init := AddNew(known, more[..|more| - 1]);
      if more[|more| - 1] in init then init else init + [more[|more| - 1]]
  }

  function Collect(roles: map<Id, Role>, tenant: Id, roleIds: seq<Id>): seq<Permission> {
    if roleIds == [] then []
    else AddNew(Collect(roles, tenant, roleIds[..|roleIds| - 1]), Contribution(roles, tenant, roleIds[|roleIds| - 1]))
  }

  function Elements(s: seq<Permission>): set<Permission> {
    set p | p in s
  }

  lemma {:induction false} AddNewIsUnion(known: seq<Permission>, more: seq<Permission>)
    ensures forall p :: p in AddNew(known, more) <==> p in known || p in more
  {
    if more != [] {
      AddNewIsUnion(known, more[..|more| - 1]);
      assert more == more[..|more| - 1] + [more[|more| - 1]];
    }
  }

  lemma {:induction false} AddNewHasNoRepeats(known: seq<Permission>, more: seq<Permission>)
    requires NoRepeats(known)
    ensures NoRepeats(AddNew(known, more)) && known <= AddNew(known, more)
  {
    if more != [] {
      AddNewHasNoRepeats(known, more[..|more| - 1]);
    }
  }

  /** Each permission is collected once. */
  lemma {:induction false} CollectHasNoRepeats(roles: map<Id, Role>, tenant: Id, roleIds: seq<Id>)
    ensures NoRepeats(Collect(roles, tenant, roleIds))
  {
    if roleIds != [] {
      CollectHasNoRepeats(roles, tenant, roleIds[..|roleIds| - 1]);
      AddNewHasNoRepeats(Collect(roles, tenant, roleIds[..|roleIds| - 1]), Contribution(roles, tenant, roleIds[|roleIds| - 1]));
    }
  }

  /** The resolver's nested loops compute the union. */
  lemma {:induction false} CollectIsUnion(roles: map<Id, Role>, tenant: Id, roleIds: seq<Id>)
    ensures Elements(Collect(roles, tenant, roleIds)) == Union(roles, tenant, roleIds)
  {
    if roleIds != [] {
      var init, last := roleIds[..|roleIds| - 1], roleIds[|roleIds| - 1];
      CollectIsUnion(roles, tenant, init);
      AddNewIsUnion(Collect(roles, tenant, init), Contribution(roles, tenant, last));
      assert roleIds == init + [last];
      assert Union(roles, tenant, roleIds) == Union(roles, tenant, init) + Elements(Contribution(roles, tenant, last));
    }
  }

  // ---------------------------------------------------------------------------------------------
  // The authorization service
  // ---------------------------------------------------------------------------------------------

  predicate CacheHit(cache: map<CacheKey, CacheEntry>, key: CacheKey, now: int) {
    key in cache && now < cache[key].expiresAt
  }

  function Remember(s: State, key: CacheKey, value: seq<Permission>, now: int): State {
    s.(cache := s.cache[key := CacheEntry(value, now + EFFECTIVE_PERMISSIONS_TTL_MS)])
  }

  function KeyPermissions(keys: map<Id, ApiKey>, key: Id, now: int): seq<Permission> {
    if key in keys && KeyUsable(keys[key], now) then keys[key].permissions else []
  }

  function CacheKeyOf(actor: Actor, tenant: Id): CacheKey {
    match actor
    case UserActor(id) => ForUser(tenant, id)
    case KeyActor(id) => ForKey(tenant, id)
  }

  ghost function Recomputed(s: State, actor: Actor, tenant: Id, now: int): seq<Permission> {
    match actor
    case UserActor(id) => Collect(s.roles, tenant, RoleIdsFor(s.memberships, id, tenant))
    case KeyActor(id) => KeyPermissions(s.keys, id, now)
  }

  /** Cache-aside read of an actor's permissions in a tenant. */
  ghost function GetPermissions(s: State, actor: Actor, tenant: Id, now: int): (State, seq<Permission>) {
    var key := CacheKeyOf(actor, tenant);
    if CacheHit(s.cache, key, now) then (s, s.cache[key].value)
    else (Remember(s, key, Recomputed(s, actor, tenant, now), now), Recomputed(s, actor, tenant, now))
  }

  /** Reading twice in a row gives the same answer and leaves the cache alone. */
  lemma ReadTwice(s: State, actor: Actor, tenant: Id, now: int)
    ensures
      var (s1, permissions) := GetPermissions(s, actor, tenant, now);
      GetPermissions(s1, actor, tenant, now) == (s1, permissions)
  {}
}
