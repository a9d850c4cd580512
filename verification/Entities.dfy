/** The tenancy, role and API-key aggregates, whose methods update their fields in place and refuse what the rules forbid. */
module Entities {
  import opened Wrappers
  import opened Text
  import opened Users
  import A = Access

  type Id = A.Id
  type Permission = A.Permission

  // ---------------------------------------------------------------------------------------------
  // Normalisers
  // ---------------------------------------------------------------------------------------------

  lemma DedupGrows<T(!new)>(s: seq<T>, k: nat)
    requires k < |s|
    ensures A.Dedup(s[..k + 1]) == if s[k] in A.Dedup(s[..k]) then A.Dedup(s[..k]) else A.Dedup(s[..k]) + [s[k]]
  {
    assert s[..k + 1][..k] == s[..k];
  }

  method Unique<T(==,!new)>(s: seq<T>) returns (unique: seq<T>)
    ensures unique == A.Dedup(s)
  {
    unique := [];
    for k := 0 to |s|
      invariant unique == A.Dedup(s[..k])
    {
      DedupGrows(s, k);
      if s[k] !in unique {
        unique := unique + [s[k]];
      }
    }
    assert s[..|s|] == s;
  }

  method NormalizeRoleIds(roleIds: seq<Id>) returns (r: Result<seq<Id>, A.Error>)
    ensures r == A.NormalizeRoleIds(roleIds)
  {
    var unique := Unique(roleIds);
    if |unique| == 0 {
      return Err(A.EmptyMembershipRoles);
    }
    r := Ok(unique);
  }

  lemma {:induction false} FirstUnknownExtends(init: seq<Permission>, last: Permission)
    ensures A.FirstUnknown(init + [last]) ==
            if A.FirstUnknown(init).Some? then A.FirstUnknown(init) else if last in A.CATALOG then None else Some(last)
  {
    if init != [] {
      FirstUnknownExtends(init[1..], last);
      assert (init + [last])[1..] == init[1..] + [last];
    }
  }

  /** Dropping repetitions does not change which permission is rejected first. */
  lemma {:induction false} FirstUnknownOfDedup(permissions: seq<Permission>)
    ensures A.FirstUnknown(A.Dedup(permissions)) == A.FirstUnknown(permissions)
  {
    if permissions != [] {
      var init, last := permissions[..|permissions| - 1], permissions[|permissions| - 1];
      FirstUnknownOfDedup(init);
      assert permissions == init + [last];
      FirstUnknownExtends(init, last);
      FirstUnknownExtends(A.Dedup(init), last);
    }
  }

  lemma {:induction false} SelectDependsOnMembers(all: seq<Permission>, a: seq<Permission>, b: seq<Permission>)
    requires forall p :: p in a <==> p in b
    ensures A.Select(all, a) == A.Select(all, b)
  {
    if all != [] {
      SelectDependsOnMembers(all[1..], a, b);
    }
  }

  lemma {:induction false} SelectExtends(init: seq<Permission>, last: Permission, wanted: seq<Permission>)
    ensures A.Select(init + [last], wanted) == A.Select(init, wanted) + if last in wanted then [last] else []
  {
    if init == [] {
      assert init + [last] == [last] && [last][1..] == [];
      assert A.Select([last][1..], wanted) == [];
    } else {
      SelectExtends(init[1..], last, wanted);
      assert (init + [last])[1..] == init[1..] + [last];
    }
  }

  method AssertKnown(permissions: seq<Permission>) returns (unknown: Option<Permission>)
    ensures unknown == A.FirstUnknown(permissions)
  {
    for k := 0 to |permissions|
      invariant A.FirstUnknown(permissions[..k]) == None
    {
      assert permissions[..k + 1] == permissions[..k] + [permissions[k]];
      FirstUnknownExtends(permissions[..k], permissions[k]);
      if permissions[k] !in A.CATALOG {
        UnknownStays(permissions, k + 1);
        return Some(permissions[k]);
      }
    }
    assert permissions[..|permissions|] == permissions;
    unknown := None;
  }

  lemma {:induction false} UnknownStays(permissions: seq<Permission>, k: nat)
    requires k <= |permissions| && A.FirstUnknown(permissions[..k]).Some?
    ensures A.FirstUnknown(permissions) == A.FirstUnknown(permissions[..k])
    decreases |permissions| - k
  {
    if k < |permissions| {
      assert permissions[..k + 1] == permissions[..k] + [permissions[k]];
      FirstUnknownExtends(permissions[..k], permissions[k]);
      UnknownStays(permissions, k + 1);
    } else {
      assert permissions[..k] == permissions;
    }
  }

  method FilterCatalog(wanted: seq<Permission>) returns (kept: seq<Permission>)
    ensures kept == A.Select(A.CATALOG, wanted)
  {
    var all := A.CATALOG;
    kept := [];
    for k := 0 to |all|
      invariant kept == A.Select(all[..k], wanted)
    {
      assert all[..k + 1] == all[..k] + [all[k]];
      SelectExtends(all[..k], all[k], wanted);
      if all[k] in wanted {
        kept := kept + [all[k]];
      }
    }
    assert all[..|all|] == all;
  }

  method NormalizePermissions(permissions: seq<Permission>) returns (r: Result<seq<Permission>, A.Error>)
    ensures r == A.NormalizePermissions(permissions)
  {
    var unique := Unique(permissions);
    if |unique| == 0 {
      return Err(A.EmptyRolePermissions);
    }
    var unknown := AssertKnown(unique);
    FirstUnknownOfDedup(permissions);
    if unknown.Some? {
      return Err(A.UnknownPermission(unknown.value));
    }
    var kept := FilterCatalog(unique);
    SelectDependsOnMembers(A.CATALOG, unique, permissions);
    r := Ok(kept);
  }

  method NormalizeKeyPermissions(permissions: seq<Permission>) returns (r: Result<seq<Permission>, A.Error>)
    ensures r == A.NormalizeKeyPermissions(permissions)
  {
    var unique := Unique(permissions);
    if |unique| == 0 {
      return Err(A.EmptyApiKeyPermissions);
    }
    for k := 0 to |unique|
      invariant A.IdentityApiKeysManage !in unique[..k]
    {
      if unique[k] == A.IdentityApiKeysManage {
        return Err(A.ApiKeyCannotManageKeys);
      }
    }
    r := Ok(unique);
  }

  // ---------------------------------------------------------------------------------------------
  // Aggregates
  // ---------------------------------------------------------------------------------------------

  class Membership {
    const id: Id
    const tenantId: Id
    const userId: Id
    var roleIds: seq<Id>
    var status: A.MembershipStatus

    constructor (id: Id, row: A.Membership)
      ensures this.id == id && Row() == row
    {
      this.id, tenantId, userId, roleIds, status := id, row.tenantId, row.userId, row.roleIds, row.status;
    }

    function Row(): A.Membership
      reads this
    {
      A.Membership(tenantId, userId, roleIds, status)
    }

    method ReplaceRoleIds(roleIds: seq<Id>) returns (failed: Option<A.Error>)
      modifies this
      ensures
        match A.NormalizeRoleIds(roleIds)
        case Ok(ids) => failed == None && Row() == old(Row()).(roleIds := ids)
        case Err(e) => failed == Some(e) && Row() == old(Row())
    {
      var normalized := NormalizeRoleIds(roleIds);
      if normalized.Err? {
        return Some(normalized.error);
      }
      this.roleIds := normalized.value;
      failed := None;
    }
  }

  class Invitation {
    const id: Id
    const tenantId: Id
    const email: string
    const roleIds: seq<Id>
    const tokenHash: string
    const expiresAt: int
    const invitedBy: Id
    var consumedAt: Option<int>

    constructor (id: Id, row: A.Invitation)
      ensures this.id == id && Row() == row
    {
      this.id, tenantId, email, roleIds := id, row.tenantId, row.email, row.roleIds;
      tokenHash, expiresAt, invitedBy, consumedAt := row.tokenHash, row.expiresAt, row.invitedBy, row.consumedAt;
    }

    function Row(): A.Invitation
      reads this
    {
      A.Invitation(tenantId, email, roleIds, tokenHash, expiresAt, invitedBy, consumedAt)
    }

    /** Succeeds exactly on an active invitation, and then only once. */
    method Consume(at: int) returns (failed: Option<A.Error>)
      modifies this
      ensures failed == None <==> A.InvitationActive(old(Row()), at)
      ensures Row() == if failed == None then old(Row()).(consumedAt := Some(at)) else old(Row())
      ensures failed == None || failed == Some(if old(consumedAt).Some? then A.InvitationAlreadyConsumed else A.InvitationExpired)
    {
      if consumedAt.Some? {
        return Some(A.InvitationAlreadyConsumed);
      }
      if expiresAt <= at {
        return Some(A.InvitationExpired);
      }
      consumedAt := Some(at);
      failed := None;
    }

    method Supersede(at: int) returns (failed: Option<A.Error>)
      modifies this
      ensures failed == if old(consumedAt).Some? then Some(A.InvitationAlreadyConsumed) else None
      ensures Row() == if failed == None then old(Row()).(consumedAt := Some(at)) else old(Row())
    {
      if consumedAt.Some? {
        return Some(A.InvitationAlreadyConsumed);
      }
      consumedAt := Some(at);
      failed := None;
    }
  }

  class Role {
    const id: Id
    const tenantId: Id
    const isSystem: bool
    var name: string
    var permissions: seq<Permission>

    constructor (id: Id, row: A.Role)
      ensures this.id == id && Row() == row
    {
      this.id, tenantId, isSystem, name, permissions := id, row.tenantId, row.isSystem, row.name, row.permissions;
    }

    function Row(): A.Role
      reads this
    {
      A.Role(tenantId, name, permissions, isSystem)
    }

    /** System roles never change. */
    method Rename(newName: string) returns (failed: Option<A.Error>)
      modifies this
      ensures isSystem ==> failed == Some(A.SystemRoleImmutable)
      ensures !isSystem ==> failed == (match A.NormalizeRoleName(newName) case Ok(_) => None case Err(e) => Some(e))
      ensures Row() == if failed == None then old(Row()).(name := Trim(newName)) else old(Row())
    {
      if isSystem {
        return Some(A.SystemRoleImmutable);
      }
      if Trim(newName) == "" {
        return Some(A.InvalidRoleName);
      }
      if A.IsReserved(Trim(newName)) {
        return Some(A.ReservedRoleName);
      }
      name := Trim(newName);
      failed := None;
    }

    method ReplacePermissions(newPermissions: seq<Permission>) returns (failed: Option<A.Error>)
      modifies this
      ensures isSystem ==> failed == Some(A.SystemRoleImmutable)
      ensures !isSystem ==> failed == (match A.NormalizePermissions(newPermissions) case Ok(_) => None case Err(e) => Some(e))
      ensures Row() == if failed == None then old(Row()).(permissions := A.NormalizePermissions(newPermissions).value) else old(Row())
    {
      if isSystem {
        return Some(A.SystemRoleImmutable);
      }
      var normalized := NormalizePermissions(newPermissions);
      if normalized.Err? {
        return Some(normalized.error);
      }
      permissions := normalized.value;
      failed := None;
    }
  }

  class ApiKey {
    const id: Id
    const tenantId: Id
    const createdBy: Id
    const prefix: string
    const secretHash: string
    const expiresAt: Option<int>
    var name: string
    var permissions: seq<Permission>
    var revokedAt: Option<int>

    constructor (id: Id, row: A.ApiKey)
      ensures this.id == id && Row() == row
    {
      this.id, tenantId, createdBy, prefix, secretHash := id, row.tenantId, row.createdBy, row.prefix, row.secretHash;
      expiresAt, name, permissions, revokedAt := row.expiresAt, row.name, row.permissions, row.revokedAt;
    }

    function Row(): A.ApiKey
      reads this
    {
      A.ApiKey(tenantId, createdBy, name, prefix, secretHash, permissions, expiresAt, revokedAt)
    }

    predicate IsUsable(now: int)
      reads this
      ensures IsUsable(now) <==> A.KeyUsable(Row(), now)
    {
      if revokedAt.Some? then false else expiresAt == None || expiresAt.value > now
    }

    method Rename(newName: string) returns (failed: Option<A.Error>)
      modifies this
      ensures failed == if old(revokedAt).Some? then Some(A.ApiKeyAlreadyRevoked) else if Trim(newName) == "" then Some(A.InvalidApiKeyName) else None
      ensures Row() == if failed == None then old(Row()).(name := Trim(newName)) else old(Row())
    {
      if revokedAt.Some? {
        return Some(A.ApiKeyAlreadyRevoked);
      }
      if Trim(newName) == "" {
        return Some(A.InvalidApiKeyName);
      }
      name := Trim(newName);
      failed := None;
    }

    method ReplacePermissions(newPermissions: seq<Permission>) returns (failed: Option<A.Error>)
      modifies this
      ensures old(revokedAt).Some? ==> failed == Some(A.ApiKeyAlreadyRevoked)
      ensures old(revokedAt) == None ==> failed == (match A.NormalizeKeyPermissions(newPermissions) case Ok(_) => None case Err(e) => Some(e))
      ensures Row() == if failed == None then old(Row()).(permissions := A.NormalizeKeyPermissions(newPermissions).value) else old(Row())
    {
      if revokedAt.Some? {
        return Some(A.ApiKeyAlreadyRevoked);
      }
      var normalized := NormalizeKeyPermissions(newPermissions);
      if normalized.Err? {
        return Some(normalized.error);
      }
      permissions := normalized.value;
      failed := None;
    }

    /** A key is revoked at most once. */
    method Revoke(at: int) returns (failed: Option<A.Error>)
      modifies this
      ensures failed == if old(revokedAt).Some? then Some(A.ApiKeyAlreadyRevoked) else None
      ensures Row() == if failed == None then old(Row()).(revokedAt := Some(at)) else old(Row())
    {
      if revokedAt.Some? {
        return Some(A.ApiKeyAlreadyRevoked);
      }
      revokedAt := Some(at);
      failed := None;
    }
  }
}
