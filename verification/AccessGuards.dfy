/** Which permission each use case needs, who holds a permission, and what a refused use case leaves behind, over whole runs. */
module AccessGuards {
  import opened Wrappers
  import opened Access
  import opened AccessUseCases
  import opened AccessInvariants
  import opened AccessProofs
  import opened AccessTheorems

  ghost predicate Reachable(s: State) {
    exists steps :: Feasible(Start, steps) && Exec(Start, steps) == s
  }

  lemma ReachableIsSound(s: State)
    requires Reachable(s)
    ensures Inv(s)
  {
    var steps :| Feasible(Start, steps) && Exec(Start, steps) == s;
    StartIsSound();
    RunKeepsInvariant(Start, steps);
  }

  // ---------------------------------------------------------------------------------------------
  // What an actor holds
  // ---------------------------------------------------------------------------------------------

  /** What the authorization service answers, from the cache or not. */
  ghost function Held(s: State, actor: Actor, tenant: Id, now: int): set<Permission> {
    Elements(GetPermissions(s, actor, tenant, now).1)
  }

  /** The user's active membership of the tenant names a role of that tenant which has the permission. */
  predicate Gives(s: State, m: Id, r: Id, user: Id, tenant: Id, p: Permission) {
    && m in s.memberships && s.memberships[m].userId == user && s.memberships[m].tenantId == tenant && s.memberships[m].status == Active
    && r in s.memberships[m].roleIds && r in s.roles && s.roles[r].tenantId == tenant && p in s.roles[r].permissions
  }

  lemma EffectiveIff(s: State, user: Id, tenant: Id, p: Permission)
    requires MembershipsDistinct(s.memberships)
    ensures p in Effective(s.memberships, s.roles, user, tenant) <==> exists m, r :: Gives(s, m, r, user, tenant, p)
  {
    var roleIds := RoleIdsFor(s.memberships, user, tenant);
    if p in Effective(s.memberships, s.roles, user, tenant) {
      var r :| r in roleIds && p in Contribution(s.roles, tenant, r);
      assert Gives(s, FindMembership(s.memberships, user, tenant).value, r, user, tenant, p);
    }
    if m: Id, r: Id :| Gives(s, m, r, user, tenant, p) {
      assert Links(s.memberships, m, user, tenant);
      assert r in roleIds && p in Contribution(s.roles, tenant, r);
    }
  }

  /** A user holds what the tenant's own roles give that their active membership of the tenant names. */
  lemma UserHoldsIff(s: State, user: Id, tenant: Id, now: int, p: Permission)
    requires Reachable(s)
    ensures p in Held(s, UserActor(user), tenant, now) <==> exists m, r :: Gives(s, m, r, user, tenant, p)
  {
    ReachableIsSound(s);
    CoherentReads(s, user, tenant, now);
    EffectiveIff(s, user, tenant, p);
  }

  /** A key holds no more than was put into it, in its own tenant, until it is revoked or has been expired for a minute. */
  lemma KeyHoldsWithin(s: State, key: Id, tenant: Id, now: int, p: Permission)
    requires Reachable(s) && (key in s.keys ==> s.keys[key].tenantId == tenant)
    requires p in Held(s, KeyActor(key), tenant, now)
    ensures key in s.keys && p in s.keys[key].permissions && s.keys[key].revokedAt == None
    ensures s.keys[key].expiresAt.Some? ==> now < s.keys[key].expiresAt.value + 60_000
    ensures p != IdentityApiKeysManage
  {
    ReachableIsSound(s);
    KeyReadsNoManagement(s, key, tenant, now);
  }

  /** A key that is neither revoked nor expired holds what was put into it, once no older answer is remembered for it. */
  lemma KeyHoldsAll(s: State, key: Id, tenant: Id, now: int, p: Permission)
    requires Reachable(s) && key in s.keys && s.keys[key].revokedAt == None && (s.keys[key].expiresAt.Some? ==> s.keys[key].expiresAt.value > now)
    requires ForKey(tenant, key) in s.cache ==> s.cache[ForKey(tenant, key)].expiresAt <= now
    ensures p in Held(s, KeyActor(key), tenant, now) <==> p in s.keys[key].permissions
  {}

  // ---------------------------------------------------------------------------------------------
  // What a use case needs
  // ---------------------------------------------------------------------------------------------

  /** The use case is for holders of this permission. */
  predicate Needs(step: Step, p: Permission) {
    || (p == TenancyMembersManage && (step.AttachMember? || step.ReplaceRoles?))
    || (p == TenancyMembersInvite && step.InviteMember?)
    || (p == AuthorizationRolesManage && (step.CreateRole? || step.UpdateRole? || step.DeleteRole?))
    || (p == IdentityApiKeysManage && (step.CreateApiKey? || step.UpdateApiKey? || step.RevokeApiKey?))
  }

  /** A use case that fails, for whatever reason, leaves every store as it was; it may have read permissions into the cache. */
  lemma FailureChangesNothing(s: State, step: Step)
    requires Reachable(s) && Enabled(s, step) && Apply(s, step).1.Err?
    ensures Apply(s, step).0 == s.(clock := step.now, cache := Apply(s, step).0.cache)
  {
    ReachableIsSound(s);
    var s1 := StepIsJustified(s, step);
  }

  lemma GuardReads(s: State, step: Step, p: Permission)
    requires Needs(step, p)
    ensures
      var guarded := Authorize(s.(clock := step.now), step);
      guarded.1 == if p in Held(s, step.actor, step.tenant, step.now) then None else Some(Error.InsufficientPermission(p))
  {}

  lemma {:induction false} AssignmentNamesNone(roles: map<Id, Role>, owner: Option<Id>, tenant: Id, roleIds: seq<Id>, p: Permission)
    ensures AssertAssignable(roles, owner, tenant, roleIds) != Some(Error.InsufficientPermission(p))
  {
    if roleIds != [] {
      AssignmentNamesNone(roles, owner, tenant, roleIds[1..], p);
    }
  }

  lemma InviteNamesAnother(s: State, step: Step)
    requires step.InviteMember? && InvitedBy(s, step.actor).Some?
    ensures DecideInvite(s, step) != Err(Error.InsufficientPermission(TenancyMembersInvite))
  {
    AssignmentNamesNone(s.roles, FindOwner(s.roles, step.tenant), step.tenant, step.roleIds, TenancyMembersInvite);
  }

  lemma KeyDecisionNamesAnother(s: State, step: Step)
    requires (step.CreateApiKey? || step.UpdateApiKey? || step.RevokeApiKey?) && step.actor.UserActor?
    requires IdentityApiKeysManage in GetPermissions(s, step.actor, step.tenant, step.now).1
    ensures Decide(s, step) != Err(Error.InsufficientPermission(IdentityApiKeysManage))
  {
    var held := GetPermissions(s, step.actor, step.tenant, step.now).1;
    if step.CreateApiKey? {
      NotHeldIsAnother(step.permissions, held, IdentityApiKeysManage);
    } else if step.UpdateApiKey? && step.maybePermissions.Some? {
      NotHeldIsAnother(step.maybePermissions.value, held, IdentityApiKeysManage);
    }
  }

  lemma OtherDecisionsNameNone(s: State, step: Step, p: Permission)
    requires step.AttachMember? || step.ReplaceRoles? || step.CreateRole? || step.UpdateRole? || step.DeleteRole?
    ensures Decide(s, step) != Err(Error.InsufficientPermission(p))
  {
    if step.AttachMember? || step.ReplaceRoles? {
      AssignmentNamesNone(s.roles, FindOwner(s.roles, step.tenant), step.tenant, step.roleIds, p);
    }
  }

  lemma KeyActorIsKnown(s: State, step: Step)
    requires KeyCacheSound(s) && step.InviteMember? && TenancyMembersInvite in Held(s, step.actor, step.tenant, step.now)
    ensures InvitedBy(s, step.actor).Some?
  {}

  /** The decision itself never asks for the permission again. */
  lemma DecisionNamesAnother(s: State, step: Step, p: Permission)
    requires KeysSound(s.keys, s.minted) && KeyCacheSound(s) && Needs(step, p) && p in Held(s, step.actor, step.tenant, step.now)
    ensures Decide(s, step) != Err(Error.InsufficientPermission(p))
  {
    if step.InviteMember? {
      KeyActorIsKnown(s, step);
      InviteNamesAnother(s, step);
    } else if step.CreateApiKey? || step.UpdateApiKey? || step.RevokeApiKey? {
      if step.actor.KeyActor? {
        KeyReadsNoManagement(s, step.actor.id, step.tenant, step.now);
      } else {
        KeyDecisionNamesAnother(s, step);
      }
    } else {
      OtherDecisionsNameNone(s, step, p);
    }
  }

  lemma {:induction false} NotHeldIsAnother(requested: seq<Permission>, held: seq<Permission>, p: Permission)
    requires p in held
    ensures FirstNotHeld(requested, held) != Some(Error.InsufficientPermission(p))
  {
    if requested != [] {
      NotHeldIsAnother(requested[1..], held, p);
    }
  }

  /**
   * In every reachable state: a use case is refused for the permission it needs exactly when its actor, a user or a key,
   * does not hold that permission in the tenant.
   */
  lemma RefusedIffNotHeld(s: State, step: Step, p: Permission)
    requires Reachable(s) && Enabled(s, step) && Needs(step, p)
    ensures Apply(s, step).1 == Err(Error.InsufficientPermission(p)) <==> p !in Held(s, step.actor, step.tenant, step.now)
  {
    ReachableIsSound(s);
    GuardReads(s, step, p);
    if p in Held(s, step.actor, step.tenant, step.now) {
      AuthorizedHolds(s, step, p);
      DecisionNamesAnother(Authorize(s.(clock := step.now), step).0, step, p);
    }
  }

  lemma AuthorizedHolds(s: State, step: Step, p: Permission)
    requires Inv(s) && Enabled(s, step) && Needs(step, p)
    ensures
      var s1 := Authorize(s.(clock := step.now), step).0;
      && Inv(s1) && s1 == s.(clock := step.now, cache := s1.cache)
      && GetPermissions(s1, step.actor, step.tenant, step.now).1 == GetPermissions(s, step.actor, step.tenant, step.now).1
  {
    AdvanceKeepsInvariant(s, step.now);
    AuthorizeKeepsInvariant(s.(clock := step.now), step);
    ReadsAsBefore(s, step, p);
  }

  lemma GuardIs(step: Step, p: Permission)
    requires Needs(step, p)
    ensures GuardOf(step) == Some(Guard(step.actor, step.tenant, Some(p)))
  {}

  lemma ReadsAsBefore(s: State, step: Step, p: Permission)
    requires Needs(step, p)
    ensures
      GetPermissions(Authorize(s.(clock := step.now), step).0, step.actor, step.tenant, step.now).1 ==
      GetPermissions(s, step.actor, step.tenant, step.now).1
  {
    GuardIs(step, p);
    ReadTwice(s.(clock := step.now), step.actor, step.tenant, step.now);
  }

  /** For users, without reference to the service: none of the tenant's own roles that their active membership names has it. */
  lemma UserRefusedIff(s: State, step: Step, p: Permission)
    requires Reachable(s) && Enabled(s, step) && Needs(step, p) && step.actor.UserActor?
    ensures Apply(s, step).1 == Err(Error.InsufficientPermission(p)) <==>
            !exists m, r :: Gives(s, m, r, step.actor.id, step.tenant, p)
  {
    RefusedIffNotHeld(s, step, p);
    UserHoldsIff(s, step.actor.id, step.tenant, step.now, p);
  }

  /** For keys: what succeeds was put into the key, which is neither revoked nor expired for a minute. */
  lemma KeySucceedsWithin(s: State, step: Step, p: Permission)
    requires Reachable(s) && Enabled(s, step) && Needs(step, p) && step.actor.KeyActor? && Apply(s, step).1.Ok?
    requires step.actor.id in s.keys ==> s.keys[step.actor.id].tenantId == step.tenant
    ensures step.actor.id in s.keys && p in s.keys[step.actor.id].permissions && s.keys[step.actor.id].revokedAt == None
    ensures s.keys[step.actor.id].expiresAt.Some? ==> step.now < s.keys[step.actor.id].expiresAt.value + 60_000
  {
    RefusedIffNotHeld(s, step, p);
    KeyHoldsWithin(s, step.actor.id, step.tenant, step.now, p);
  }

  /** Registering, founding a tenant, accepting an invitation and reading one's permissions need none. */
  lemma NothingNeeded(s: State, step: Step, p: Permission)
    requires step.CreateUser? || step.CreateTenant? || step.AcceptInvitation? || step.ReadPermissions? || step.PurgeInvitations?
    ensures Apply(s, step).1 != Err(Error.InsufficientPermission(p))
  {}
}
