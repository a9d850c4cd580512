/** The stores, the time-to-live cache and the authorization service, with the loops that search and fill them. */
module AccessService {
  import opened Wrappers
  import opened Text
  import opened Users
  import opened Access
  import opened AccessUseCases
  import opened AccessInvariants
  import opened AccessProofs
  import opened Purge
  import Entities

  /** The time-to-live cache: an entry is served strictly before its expiry, and a late read evicts it. */
  class InMemoryCache {
    var store: map<CacheKey, CacheEntry>

    constructor ()
      ensures store == map[]
    {
      store := map[];
    }

    method Get(key: CacheKey, now: int) returns (value: Option<seq<Permission>>)
      modifies this
      ensures value == if CacheHit(old(store), key, now) then Some(old(store)[key].value) else None
      ensures store == if CacheHit(old(store), key, now) then old(store) else old(store) - {key}
    {
      if key !in store {
        assert store - {key} == store;
        return None;
      }
      if now >= store[key].expiresAt {
        store := store - {key};
        return None;
      }
      value := Some(store[key].value);
    }

    method Set(key: CacheKey, value: seq<Permission>, ttlMs: int, now: int)
      modifies this
      ensures store == old(store)[key := CacheEntry(value, now + ttlMs)]
    {
      store := store[key := CacheEntry(value, now + ttlMs)];
    }

    method Del(key: CacheKey)
      modifies this
      ensures store == old(store) - {key}
    {
      store := store - {key};
    }
  }

  // ---------------------------------------------------------------------------------------------
  // Repositories
  // ---------------------------------------------------------------------------------------------

  /** `findByIds`: the roles that exist, in the order asked for. */
  function FoundRoles(roles: map<Id, Role>, ids: seq<Id>): seq<Role> {
    if ids == [] then []
    else FoundRoles(roles, ids[..|ids| - 1]) + if ids[|ids| - 1] in roles then [roles[ids[|ids| - 1]]] else []
  }

  function Gather(found: seq<Role>, tenant: Id): seq<Permission> {
    if found == [] then []
    else
      var init, last := Gather(found[..|found| - 1], tenant), found[|found| - 1];
      if last.tenantId == tenant then AddNew(init, last.permissions) else init
  }

  /** Looking the roles up first and then adding the permissions of each collects what the role ids contribute. */
  lemma {:induction false} GatherIsCollect(roles: map<Id, Role>, tenant: Id, ids: seq<Id>)
    ensures Gather(FoundRoles(roles, ids), tenant) == Collect(roles, tenant, ids)
  {
    if ids != [] {
      var init, last := ids[..|ids| - 1], ids[|ids| - 1];
      GatherIsCollect(roles, tenant, init);
      if last in roles {
        assert FoundRoles(roles, ids) == FoundRoles(roles, init) + [roles[last]];
        assert FoundRoles(roles, ids)[..|FoundRoles(roles, ids)| - 1] == FoundRoles(roles, init);
      } else {
        assert FoundRoles(roles, ids) == FoundRoles(roles, init);
      }
      assert AddNew(Collect(roles, tenant, init), []) == Collect(roles, tenant, init);
    }
  }

  class Database {
    var users: map<Id, User>
    var passwords: map<Id, string>
    var tenants: map<Id, string>
    var roles: map<Id, Role>
    var memberships: map<Id, Membership>
    var invitations: map<Id, Invitation>
    var keys: map<Id, ApiKey>
    var clock: int
    ghost var used: set<Id>
    ghost var tokens: set<string>
    ghost var founding: map<Id, Founding>
    ghost var accepted: map<Id, Id>
    ghost var minted: map<Id, string>

    constructor ()
      ensures Rows(map[]) == Start
    {
      users, passwords, tenants, roles, memberships, invitations, keys := map[], map[], map[], map[], map[], map[], map[];
      clock, used, tokens, founding, accepted, minted := 0, {}, {}, map[], map[], map[];
    }

    ghost function Rows(cache: map<CacheKey, CacheEntry>): State
      reads this
    {
      State(users, passwords, tenants, roles, memberships, invitations, keys, cache, clock, used, tokens, founding, accepted, minted)
    }

    method FindUserByEmail(email: string) returns (found: Option<Id>)
      requires EmailsDistinct(users)
      ensures found == FindUser(users, Normalize(email))
    {
      found := SearchByEmail(users, email);
    }

    method FindByUserAndTenant(user: Id, tenant: Id) returns (found: Option<Id>)
      requires MembershipsDistinct(memberships)
      ensures found == FindMembership(memberships, user, tenant)
    {
      var left := memberships.Keys;
      while left != {}
        invariant left <= memberships.Keys
        invariant forall m :: m in memberships && m !in left ==> !Links(memberships, m, user, tenant)
      {
        var m :| m in left;
        if memberships[m].userId == user && memberships[m].tenantId == tenant {
          assert Links(memberships, m, user, tenant);
          return Some(m);
        }
        left := left - {m};
      }
      found := None;
    }

    method FindByTenantAndRole(tenant: Id, role: Id) returns (found: set<Id>)
      ensures found == Holders(memberships, tenant, role)
    {
      found := {};
      var left := memberships.Keys;
      while left != {}
        invariant left <= memberships.Keys
        invariant forall m :: m in found <==> m in memberships && m !in left && Holds(memberships, m, tenant, role)
      {
        var m :| m in left;
        if memberships[m].tenantId == tenant && role in memberships[m].roleIds {
          found := found + {m};
        }
        left := left - {m};
      }
    }

    /** The active memberships of a tenant, other than one, that hold a role. */
    method CountOtherActive(tenant: Id, role: Id, except_: Id) returns (count: nat)
      ensures count == |OtherActiveHolders(memberships, tenant, role, except_)|
    {
      ghost var counted: set<Id> := {};
      count := 0;
      var left := memberships.Keys;
      while left != {}
        invariant left <= memberships.Keys && count == |counted|
        invariant forall m :: m in counted <==> m !in left && m in OtherActiveHolders(memberships, tenant, role, except_)
      {
        var m :| m in left;
        if memberships[m].tenantId == tenant && m != except_ && memberships[m].status == Active && role in memberships[m].roleIds {
          counted, count := counted + {m}, count + 1;
        }
        left := left - {m};
      }
      assert counted == OtherActiveHolders(memberships, tenant, role, except_);
    }

    method FindActiveByTenantAndEmail(tenant: Id, email: string) returns (found: Option<Id>)
      requires PendingDistinct(invitations)
      ensures found == FindPending(invitations, tenant, Normalize(email))
    {
      var normalized := Normalize(email);
      var left := invitations.Keys;
      while left != {}
        invariant left <= invitations.Keys
        invariant forall i :: i in invitations && i !in left ==> !IsPendingFor(invitations, i, tenant, normalized)
      {
        var i :| i in left;
        if invitations[i].tenantId == tenant && invitations[i].email == normalized && invitations[i].consumedAt == None {
          assert IsPendingFor(invitations, i, tenant, normalized);
          return Some(i);
        }
        left := left - {i};
      }
      found := None;
    }

    method FindInvitationByTokenHash(hash: string) returns (found: Option<Id>)
      requires TokensDistinct(invitations)
      ensures found == FindInvitation(invitations, hash)
    {
      var left := invitations.Keys;
      while left != {}
        invariant left <= invitations.Keys
        invariant forall i :: i in invitations && i !in left ==> !HasToken(invitations, i, hash)
      {
        var i :| i in left;
        if invitations[i].tokenHash == hash {
          assert HasToken(invitations, i, hash);
          return Some(i);
        }
        left := left - {i};
      }
      found := None;
    }

    method FindRolesByIds(ids: seq<Id>) returns (found: seq<Role>)
      ensures found == FoundRoles(roles, ids)
    {
      found := [];
      for k := 0 to |ids|
        invariant found == FoundRoles(roles, ids[..k])
      {
        assert ids[..k + 1][..k] == ids[..k];
        if ids[k] in roles {
          found := found + [roles[ids[k]]];
        }
      }
      assert ids[..|ids|] == ids;
    }

    method FindOwnerRole(tenant: Id) returns (found: Option<Id>)
      requires NamesUnique(roles)
      ensures found == FindOwner(roles, tenant)
    {
      var left := roles.Keys;
      while left != {}
        invariant left <= roles.Keys
        invariant forall r :: r in roles && r !in left ==> !IsOwnerRole(roles, r, tenant)
      {
        var r :| r in left;
        if roles[r].tenantId == tenant && roles[r].isSystem && roles[r].name == "Owner" {
          assert IsOwnerRole(roles, r, tenant);
          return Some(r);
        }
        left := left - {r};
      }
      found := None;
    }

    method IsNameTaken(tenant: Id, name: string, except_: Option<Id>) returns (taken: bool)
      ensures taken == NameTaken(roles, tenant, name, except_)
    {
      var left := roles.Keys;
      while left != {}
        invariant left <= roles.Keys
        invariant forall r :: r in roles && r !in left ==> !(IsNamed(roles, r, tenant, name) && Some(r) != except_)
      {
        var r :| r in left;
        if roles[r].tenantId == tenant && Some(r) != except_ && roles[r].name == name {
          assert IsNamed(roles, r, tenant, name);
          return true;
        }
        left := left - {r};
      }
      taken := false;
    }

    /** Rejects the first role id that is the tenant's Owner role, unknown, or another tenant's. */
    method AssertAssignable(tenant: Id, roleIds: seq<Id>) returns (failed: Option<Error>)
      requires NamesUnique(roles)
      ensures failed == AccessUseCases.AssertAssignable(roles, FindOwner(roles, tenant), tenant, roleIds)
    {
      var owner := FindOwnerRole(tenant);
      for k := 0 to |roleIds|
        invariant AccessUseCases.AssertAssignable(roles, owner, tenant, roleIds)
               == AccessUseCases.AssertAssignable(roles, owner, tenant, roleIds[k..])
      {
        if owner.Some? && roleIds[k] == owner.value {
          return Some(CannotAssignOwnerRole);
        }
        if roleIds[k] !in roles || roles[roleIds[k]].tenantId != tenant {
          return Some(RoleNotFound);
        }
      }
      failed := None;
    }

    method IsPrefixTaken(prefix: string) returns (taken: bool)
      ensures taken <==> exists k :: HasPrefix(keys, k, prefix)
    {
      var left := keys.Keys;
      while left != {}
        invariant left <= keys.Keys
        invariant forall k :: k in keys && k !in left ==> !HasPrefix(keys, k, prefix)
      {
        var k :| k in left;
        if keys[k].prefix == prefix {
          assert HasPrefix(keys, k, prefix);
          return true;
        }
        left := left - {k};
      }
      taken := false;
    }

    /** Deletes exactly `min(limit, stale)` invitations, none of them active. */
    method DeleteStaleInvitations(before: int, limit: nat) returns (deleted: nat, ghost purged: set<Id>)
      modifies this`invitations
      ensures IsBatch(old(invitations), InvitationIsStale, before, limit, purged)
      ensures deleted == |purged| && invitations == old(invitations) - purged
    {
      invitations, deleted, purged := DeleteStale(invitations, InvitationIsStale, before, limit);
    }

    /**
     * The chain of purge jobs, each full batch enqueuing the next, which reads the clock again: it ends, and then exactly
     * the invitations that were stale at its last reading are gone.
     */
    method PurgeChain(clock: nat -> int, limit: nat) returns (jobs: nat, total: nat)
      requires limit > 0 && Ticks(clock)
      modifies this`invitations
      ensures jobs > 0 && Finished(old(invitations), invitations, InvitationIsStale, clock, limit, jobs, total)
      ensures InvitationsLeft(old(invitations), invitations, clock(jobs - 1))
    {
      ghost var before := invitations;
      ghost var purged, gone;
      total, gone := DeleteStaleInvitations(clock(0), limit);
      ChainStarts(before, InvitationIsStale, clock, limit, gone);
      var deleted := total;
      jobs := 1;
      while deleted == limit
        invariant jobs > 0 && InChain(before, invitations, InvitationIsStale, clock, limit, jobs, gone, deleted)
        invariant total == |gone| <= |before|
        decreases |before| - total + (if deleted == limit then 1 else 0)
      {
        ghost var left := invitations;
        deleted, purged := DeleteStaleInvitations(clock(jobs), limit);
        assert Advances(clock, jobs - 1);
        ChainGoesOn(before, left, InvitationIsStale, clock, limit, jobs, gone, purged);
        gone := gone + purged;
        jobs, total := jobs + 1, total + deleted;
      }
      ChainStops(before, invitations, InvitationIsStale, clock, limit, jobs, gone, deleted);
      LeftIffOpen(before, clock(jobs - 1));
    }
  }

  /** Exactly the invitations that are neither consumed nor expired are left, as they were. */
  ghost predicate InvitationsLeft(before: map<Id, Invitation>, after: map<Id, Invitation>, at: int) {
    && (forall i :: i in after <==> i in before && before[i].consumedAt == None && before[i].expiresAt > at)
    && forall i :: i in after ==> after[i] == before[i]
  }

  lemma LeftIffOpen(before: map<Id, Invitation>, at: int)
    ensures InvitationsLeft(before, before - StaleKeys(before, InvitationIsStale, at), at)
  {}

  predicate InvitationIsStale(invitation: Invitation, before: int) {
    !InvitationActive(invitation, before)
  }

  // ---------------------------------------------------------------------------------------------
  // The authorization service
  // ---------------------------------------------------------------------------------------------

  class AuthorizationService {
    const db: Database
    const cache: InMemoryCache

    constructor (db: Database, cache: InMemoryCache)
      ensures this.db == db && this.cache == cache
    {
      this.db, this.cache := db, cache;
    }

    ghost function Stored(): State
      reads this, db, cache
    {
      db.Rows(cache.store)
    }

    method RoleIdsFor(user: Id, tenant: Id) returns (roleIds: seq<Id>)
      requires MembershipsDistinct(db.memberships)
      ensures roleIds == Access.RoleIdsFor(db.memberships, user, tenant)
    {
      var found := db.FindByUserAndTenant(user, tenant);
      if found == None || db.memberships[found.value].status != Active {
        return [];
      }
      roleIds := db.memberships[found.value].roleIds;
    }

    /** The nested loops over roles and permissions, skipping the roles of other tenants. */
    method ResolvePermissions(user: Id, tenant: Id) returns (permissions: seq<Permission>)
      requires MembershipsDistinct(db.memberships)
      ensures permissions == Collect(db.roles, tenant, Access.RoleIdsFor(db.memberships, user, tenant))
    {
      var roleIds := RoleIdsFor(user, tenant);
      var found := db.FindRolesByIds(roleIds);
      permissions := [];
      for k := 0 to |found|
        invariant permissions == Gather(found[..k], tenant)
      {
        assert found[..k + 1][..k] == found[..k];
        if found[k].tenantId != tenant {
          continue;
        }
        var more := found[k].permissions;
        for j := 0 to |more|
          invariant permissions == AddNew(Gather(found[..k], tenant), more[..j])
        {
          assert more[..j + 1][..j] == more[..j];
          if more[j] !in permissions {
            permissions := permissions + [more[j]];
          }
        }
        assert more[..|more|] == more;
      }
      assert found[..|found|] == found;
      GatherIsCollect(db.roles, tenant, roleIds);
    }

    /** Cache-aside: a hit is served as it is, a miss is recomputed and remembered for 60 seconds. */
    method GetPermissions(actor: Actor, tenant: Id, now: int) returns (permissions: seq<Permission>)
      requires MembershipsDistinct(db.memberships)
      modifies cache
      ensures (Stored(), permissions) == Access.GetPermissions(old(Stored()), actor, tenant, now)
    {
      var key := CacheKeyOf(actor, tenant);
      var cached := cache.Get(key, now);
      if cached.Some? {
        return cached.value;
      }
      match actor {
        case UserActor(id) =>
          permissions := ResolvePermissions(id, tenant);
        case KeyActor(id) =>
          permissions := [];
          if id in db.keys {
            var apiKey := new Entities.ApiKey(id, db.keys[id]);
            if apiKey.IsUsable(now) {
              permissions := apiKey.permissions;
            }
          }
      }
      cache.Set(key, permissions, EFFECTIVE_PERMISSIONS_TTL_MS, now);
      assert cache.store == old(cache.store)[key := CacheEntry(permissions, now + EFFECTIVE_PERMISSIONS_TTL_MS)];
    }

    method Require(actor: Actor, permission: Permission, tenant: Id, now: int) returns (failed: Option<Error>)
      requires MembershipsDistinct(db.memberships)
      modifies cache
      ensures Stored() == Access.GetPermissions(old(Stored()), actor, tenant, now).0
      ensures failed == if permission in Access.GetPermissions(old(Stored()), actor, tenant, now).1 then None
                        else Some(Error.InsufficientPermission(permission))
    {
      var effective := GetPermissions(actor, tenant, now);
      failed := if permission in effective then None else Some(Error.InsufficientPermission(permission));
    }

    method Invalidate(user: Id, tenant: Id)
      modifies cache
      ensures cache.store == old(cache.store) - {ForUser(tenant, user)}
    {
      cache.Del(ForUser(tenant, user));
    }

    method InvalidateHoldersOf(role: Id, tenant: Id)
      modifies cache
      ensures cache.store == old(cache.store) - HolderKeys(db.memberships, tenant, role)
    {
      var holders := db.FindByTenantAndRole(tenant, role);
      ghost var gone: set<CacheKey> := {};
      ghost var done: set<Id> := {};
      assert cache.store == old(cache.store) - gone;
      while holders != {}
        invariant done + holders == Holders(db.memberships, tenant, role) && done !! holders
        invariant gone == set m | m in done :: ForUser(tenant, db.memberships[m].userId)
        invariant cache.store == old(cache.store) - gone
      {
        var m :| m in holders;
        Invalidate(db.memberships[m].userId, tenant);
        assert old(cache.store) - gone - {ForUser(tenant, db.memberships[m].userId)}
            == old(cache.store) - (gone + {ForUser(tenant, db.memberships[m].userId)});
        gone := gone + {ForUser(tenant, db.memberships[m].userId)};
        done, holders := done + {m}, holders - {m};
      }
      assert done == Holders(db.memberships, tenant, role);
    }

    method InvalidateApiKey(key: Id, tenant: Id)
      modifies cache
      ensures cache.store == old(cache.store) - {ForKey(tenant, key)}
    {
      cache.Del(ForKey(tenant, key));
    }
  }
}
