/**
 * The tenancy, role and API-key use cases, statement by statement: the guard, then one transaction that searches,
 * changes aggregates and saves them, and is rolled back when a later statement throws.
 */
module UseCases {
  import opened Wrappers
  import opened Text
  import opened Users
  import opened Access
  import opened AccessUseCases
  import opened AccessInvariants
  import opened AccessProofs
  import opened AccessService
  import opened AccessTheorems
  import opened Purge
  import ApiKeyToken
  import Entities

  /** What a transaction that came to `decision` in state `s` leaves behind and throws. */
  ghost predicate Transacted(s: State, decision: Result<Delta, Error>, s': State, failed: Option<Error>) {
    match decision
    case Err(e) => failed == Some(e) && s' == s
    case Ok(d) => failed == None && s' == Commit(s, d)
  }

  /** What the whole use case leaves behind and throws. */
  ghost predicate Executed(s: State, step: Step, s': State, failed: Option<Error>) {
    && s' == Apply(s, step).0
    && failed == match Apply(s, step).1 case Err(e) => Some(e) case Ok(_) => None
  }

  /** Every purge batch is a step of the modelled system. */
  lemma PurgeIsAStep(s: State, purged: set<Id>, limit: nat, now: int)
    requires now >= s.clock && IsBatch(s.invitations, InvitationIsStale, now, limit, purged)
    ensures Enabled(s, PurgeInvitations(purged, now))
    ensures Apply(s, PurgeInvitations(purged, now)).0 == s.(clock := now, invitations := s.invitations - purged)
  {}

  lemma RevokingIsGuarded(s: State, step: Step)
    requires step.RevokeApiKey?
    ensures GuardOf(step) == Some(Guard(step.actor, step.tenant, Some(IdentityApiKeysManage)))
    ensures Decide(s, step) == DecideRevokeKey(s, step)
  {}

  /** What the commit of an acceptance by a known user comes to. */
  lemma AcceptanceCommits(s: State, id: Id, membership: Membership, invitation: Id, at: int)
    requires invitation in s.invitations
    ensures Commit(s, MemberAdded(id, membership, None, Some(invitation), at)) ==
            s.(memberships := s.memberships[id := membership],
               invitations := s.invitations[invitation := s.invitations[invitation].(consumedAt := Some(at))],
               used := s.used + {id}, accepted := s.accepted[id := invitation],
               cache := s.cache - {ForUser(membership.tenantId, membership.userId)})
  {}

  function SavedUser(s: State, created: NewUser): State {
    s.(users := WithUser(s.users, Some(created)), passwords := WithPassword(s.passwords, Some(created)), used := WithId(s.used, Some(created)))
  }

  /** Saving the user and then joining as a known user is joining as the new user in one go. */
  lemma SavedThenJoined(s: State, step: Step, invitation: Invitation, id: Id, created: NewUser)
    requires step.AcceptInvitation?
    ensures
      match JoinAs(SavedUser(s, created), step, invitation, id, created.id, None)
      case Err(e) => JoinAs(s, step, invitation, id, created.id, Some(created)) == Err(e)
      case Ok(d) =>
        && d.MemberAdded?
        && JoinAs(s, step, invitation, id, created.id, Some(created)) == Ok(d.(newUser := Some(created)))
        && Commit(SavedUser(s, created), d) == Commit(s, d.(newUser := Some(created)))
  {}

  class TenancyService {
    const authz: AuthorizationService
    const db: Database
    const cache: InMemoryCache

    constructor ()
      ensures Valid() && Stored() == Start && fresh(db) && fresh(cache)
    {
      var newDb := new Database();
      var newCache := new InMemoryCache();
      authz := new AuthorizationService(newDb, newCache);
      db, cache := newDb, newCache;
    }

    ghost predicate Valid()
    {
      authz.db == db && authz.cache == cache
    }

    ghost function Stored(): State
      reads db, cache
    {
      db.Rows(cache.store)
    }

    // -------------------------------------------------------------------------------------------
    // Saving an aggregate and invalidating what depends on it
    // -------------------------------------------------------------------------------------------

    method SaveMembership(membership: Entities.Membership)
      requires Valid()
      modifies db`memberships, cache
      ensures Stored() == Commit(old(Stored()), RolesReplaced(membership.id, membership.Row()))
    {
      db.memberships := db.memberships[membership.id := membership.Row()];
      authz.Invalidate(membership.userId, membership.tenantId);
    }

    method InsertAttached(id: Id, membership: Membership, ghost at: int)
      requires Valid()
      modifies db, cache
      ensures Stored() == Commit(old(Stored()), MemberAdded(id, membership, None, None, at))
    {
      db.memberships := db.memberships[id := membership];
      db.used := db.used + {id};
      authz.Invalidate(membership.userId, membership.tenantId);
    }

    method InsertMember(id: Id, membership: Membership, invitation: Entities.Invitation, ghost at: int)
      requires Valid() && invitation.id in db.invitations && invitation.Row() == db.invitations[invitation.id].(consumedAt := Some(at))
      modifies db, cache
      ensures Stored() == Commit(old(Stored()), MemberAdded(id, membership, None, Some(invitation.id), at))
    {
      AcceptanceCommits(Stored(), id, membership, invitation.id, at);
      db.memberships := db.memberships[id := membership];
      db.invitations := db.invitations[invitation.id := invitation.Row()];
      db.used, db.accepted := db.used + {id}, db.accepted[id := invitation.id];
      authz.Invalidate(membership.userId, membership.tenantId);
    }

    method InsertInvitation(id: Id, invite: Invitation, ghost token: string,
                            ghost before: map<Id, Invitation>, ghost superseded: Option<Id>, ghost at: int)
      requires db.invitations == Consume(before, superseded, at)
      modifies db
      ensures Stored() == Commit(old(Stored()).(invitations := before), MemberInvited(id, invite, superseded, token, at))
    {
      db.invitations := db.invitations[id := invite];
      db.used, db.tokens := db.used + {id}, db.tokens + {token};
    }

    method SaveRole(role: Entities.Role)
      requires Valid()
      modifies db`roles, cache
      ensures Stored() == Commit(old(Stored()), RoleUpdated(role.id, role.Row()))
    {
      db.roles := db.roles[role.id := role.Row()];
      authz.InvalidateHoldersOf(role.id, role.tenantId);
    }

    method SaveApiKey(apiKey: Entities.ApiKey)
      requires Valid()
      modifies db`keys, cache
      ensures Stored() == Commit(old(Stored()), KeyUpdated(apiKey.id, apiKey.Row()))
    {
      db.keys := db.keys[apiKey.id := apiKey.Row()];
      authz.InvalidateApiKey(apiKey.id, apiKey.tenantId);
    }

    method InsertApiKey(id: Id, apiKey: ApiKey, ghost token: string)
      modifies db
      ensures Stored() == Commit(old(Stored()), KeyMinted(id, apiKey, token))
    {
      db.keys := db.keys[id := apiKey];
      db.used, db.tokens, db.minted := db.used + {id}, db.tokens + {token}, db.minted[id := token];
    }

    // -------------------------------------------------------------------------------------------
    // Users
    // -------------------------------------------------------------------------------------------

    method Register(command: Step) returns (failed: Option<Error>)
      requires Valid() && EmailsDistinct(db.users) && command.CreateUser?
      modifies db
      ensures Transacted(old(Stored()), DecideCreateUser(old(Stored()), command), Stored(), failed)
    {
      if command.password.Some? && |command.password.value| < MIN_PASSWORD_LENGTH {
        return Some(InvalidPassword);
      }
      var email := Normalize(command.email);
      NormalizeIsIdempotent(command.email);
      var existing := db.FindUserByEmail(email);
      if existing.Some? {
        return Some(UserEmailTaken);
      }
      var built := BuildUser(command.newId, command.email, command.displayName, command.password);
      if built.Err? {
        return Some(built.error);
      }
      db.users := db.users[built.value.id := built.value.user];
      if command.password.Some? {
        db.passwords := db.passwords[built.value.id := Hash(command.password.value)];
      }
      db.used := db.used + {built.value.id};
      failed := None;
    }

    /** `CreateUser` without a password, `RegisterUser` with one. */
    method CreateUser(command: Step) returns (failed: Option<Error>)
      requires Valid() && Inv(Stored()) && command.CreateUser? && Enabled(Stored(), command)
      modifies db
      ensures Executed(old(Stored()), command, Stored(), failed)
    {
      db.clock := command.now;
      failed := Register(command);
    }

    // -------------------------------------------------------------------------------------------
    // Members
    // -------------------------------------------------------------------------------------------

    method Attach(command: Step) returns (failed: Option<Error>)
      requires Valid() && NamesUnique(db.roles) && MembershipsDistinct(db.memberships) && command.AttachMember?
      modifies db, cache
      ensures Transacted(old(Stored()), DecideAttach(old(Stored()), command), Stored(), failed)
    {
      if command.user !in db.users {
        return Some(UserNotFound);
      }
      var existing := db.FindByUserAndTenant(command.user, command.tenant);
      if existing.Some? {
        return Some(MembershipAlreadyExists);
      }
      failed := db.AssertAssignable(command.tenant, command.roleIds);
      if failed.Some? {
        return;
      }
      var normalized := Entities.NormalizeRoleIds(command.roleIds);
      if normalized.Err? {
        return Some(normalized.error);
      }
      InsertAttached(command.newId, Membership(command.tenant, command.user, normalized.value, Active), command.now);
    }

    method AttachMember(command: Step) returns (failed: Option<Error>)
      requires Valid() && Inv(Stored()) && command.AttachMember? && Enabled(Stored(), command)
      modifies db, cache
      ensures Executed(old(Stored()), command, Stored(), failed)
    {
      db.clock := command.now;
      failed := authz.Require(command.actor, TenancyMembersManage, command.tenant, command.now);
      if failed == None {
        failed := Attach(command);
      }
    }

    /** Refuses roles that cannot be assigned and an email that belongs to a member. */
    method CheckInvitee(command: Step, email: string) returns (failed: Option<Error>)
      requires Valid() && NamesUnique(db.roles) && EmailsDistinct(db.users) && MembershipsDistinct(db.memberships)
      requires command.InviteMember? && email == Normalize(email)
      ensures
        var s, user := Stored(), FindUser(Stored().users, email);
        failed == match AssertAssignable(s.roles, FindOwner(s.roles, command.tenant), command.tenant, command.roleIds)
                  case Some(e) => Some(e)
                  case None => if user.Some? && FindMembership(s.memberships, user.value, command.tenant).Some? then Some(MembershipAlreadyExists) else None
    {
      failed := db.AssertAssignable(command.tenant, command.roleIds);
      if failed.Some? {
        return;
      }
      var user := db.FindUserByEmail(email);
      if user.Some? {
        var membership := db.FindByUserAndTenant(user.value, command.tenant);
        if membership.Some? {
          return Some(MembershipAlreadyExists);
        }
      }
    }

    method Invite(command: Step) returns (failed: Option<Error>)
      requires Valid() && NamesUnique(db.roles) && EmailsDistinct(db.users) && MembershipsDistinct(db.memberships)
      requires PendingDistinct(db.invitations) && command.InviteMember?
      modifies db
      ensures Transacted(old(Stored()), DecideInvite(old(Stored()), command), Stored(), failed)
    {
      var email := Normalize(command.email);
      NormalizeIsIdempotent(command.email);
      failed := CheckInvitee(command, email);
      if failed.Some? {
        return;
      }
      var pending := db.FindActiveByTenantAndEmail(command.tenant, email);
      if pending.Some? && InvitationActive(db.invitations[pending.value], command.now) {
        return Some(InvitationAlreadyPending);
      }
      failed := StoreInvitation(command, email, pending);
    }

    /** Supersedes the expired invitation first; when building the new one then throws, that save is rolled back too. */
    method StoreInvitation(command: Step, email: string, pending: Option<Id>) returns (failed: Option<Error>)
      requires Valid() && command.InviteMember?
      requires pending.Some? ==> pending.value in db.invitations && db.invitations[pending.value].consumedAt == None
      modifies db
      ensures Transacted(old(Stored()), BuildInvitation(old(Stored()), command, email, pending), Stored(), failed)
    {
      var before := db.invitations;
      if pending.Some? {
        var expired := new Entities.Invitation(pending.value, db.invitations[pending.value]);
        failed := expired.Supersede(command.now);
        db.invitations := db.invitations[pending.value := expired.Row()];
      }
      var invitedBy := InvitedByUser(command.actor);
      if invitedBy == None {
        db.invitations := before;
        return Some(Error.InsufficientPermission(TenancyMembersInvite));
      }
      var address := NormalizeEmail(email);
      var roleIds := Entities.NormalizeRoleIds(command.roleIds);
      if address.Err? || roleIds.Err? {
        db.invitations := before;
        return Some(if address.Err? then address.error else roleIds.error);
      }
      InsertInvitation(command.newId,
                       Invitation(command.tenant, address.value, roleIds.value, Digest(command.newToken),
                                  command.now + INVITATION_TTL_MS, invitedBy.value, None),
                       command.newToken, before, pending, command.now);
      failed := None;
    }

    /** One purge job; by `PurgeIsAStep` it is a step. */
    method PurgeStaleInvitations(limit: nat, now: int) returns (deleted: nat, ghost purged: set<Id>)
      requires Valid()
      modifies db
      ensures Stored() == old(Stored()).(clock := now, invitations := old(db.invitations) - purged)
      ensures IsBatch(old(db.invitations), InvitationIsStale, now, limit, purged) && deleted == |purged|
    {
      db.clock := now;
      deleted, purged := db.DeleteStaleInvitations(now, limit);
    }

    method InvitedByUser(actor: Actor) returns (user: Option<Id>)
      ensures user == InvitedBy(Stored(), actor)
    {
      match actor {
        case UserActor(id) => user := Some(id);
        case KeyActor(id) => user := if id in db.keys then Some(db.keys[id].createdBy) else None;
      }
    }

    method InviteMember(command: Step) returns (failed: Option<Error>)
      requires Valid() && Inv(Stored()) && command.InviteMember? && Enabled(Stored(), command)
      modifies db, cache
      ensures Executed(old(Stored()), command, Stored(), failed)
    {
      db.clock := command.now;
      failed := authz.Require(command.actor, TenancyMembersInvite, command.tenant, command.now);
      if failed == None {
        failed := Invite(command);
      }
    }

    /** Runs without a guard: the token is the proof. A user that was created on the way disappears when a later statement throws. */
    method AcceptInvitation(command: Step) returns (failed: Option<Error>)
      requires Valid() && Inv(Stored()) && command.AcceptInvitation? && Enabled(Stored(), command)
      modifies db, cache
      ensures Executed(old(Stored()), command, Stored(), failed)
    {
      db.clock := command.now;
      failed := Accept(command);
    }

    method Accept(command: Step) returns (failed: Option<Error>)
      requires Valid() && EmailsDistinct(db.users) && MembershipsDistinct(db.memberships) && TokensDistinct(db.invitations) && command.AcceptInvitation?
      modifies db, cache
      ensures Transacted(old(Stored()), DecideAccept(old(Stored()), command), Stored(), failed)
    {
      var found := db.FindInvitationByTokenHash(Digest(command.token));
      if found == None || !InvitationActive(db.invitations[found.value], command.now) {
        return Some(InvalidInvitationToken);
      }
      var invitation := new Entities.Invitation(found.value, db.invitations[found.value]);
      var user := db.FindUserByEmail(invitation.email);
      if user.Some? {
        failed := Join(command, invitation, user.value);
        return;
      }
      if command.maybeName == None || command.password == None {
        return Some(RegistrationRequired);
      }
      if |command.password.value| < MIN_PASSWORD_LENGTH {
        return Some(InvalidPassword);
      }
      var built := BuildUser(command.newUserId, invitation.email, command.maybeName.value, command.password);
      if built.Err? {
        return Some(built.error);
      }
      failed := RegisterAndJoin(command, invitation, built.value);
    }

    /** Saves the new user first; when joining then throws, that save is rolled back. */
    method RegisterAndJoin(command: Step, invitation: Entities.Invitation, created: NewUser) returns (failed: Option<Error>)
      requires Valid() && command.AcceptInvitation? && MembershipsDistinct(db.memberships) && created.password.Some?
      requires invitation.id in db.invitations && db.invitations[invitation.id] == invitation.Row()
      requires InvitationActive(invitation.Row(), command.now)
      modifies db, cache, invitation
      ensures Transacted(old(Stored()), JoinAs(old(Stored()), command, old(invitation.Row()), invitation.id, created.id, Some(created)), Stored(), failed)
    {
      var users, passwords := db.users, db.passwords;
      ghost var used := db.used;
      ghost var before := Stored();
      db.users := db.users[created.id := created.user];
      db.passwords := db.passwords[created.id := Hash(created.password.value)];
      db.used := db.used + {created.id};
      SavedThenJoined(before, command, invitation.Row(), invitation.id, created);
      failed := Join(command, invitation, created.id);
      if failed.Some? {
        db.users, db.passwords, db.used := users, passwords, used;
      }
    }

    method Join(command: Step, invitation: Entities.Invitation, user: Id) returns (failed: Option<Error>)
      requires Valid() && command.AcceptInvitation? && MembershipsDistinct(db.memberships)
      requires invitation.id in db.invitations && db.invitations[invitation.id] == invitation.Row()
      requires InvitationActive(invitation.Row(), command.now)
      modifies db, cache, invitation
      ensures Transacted(old(Stored()), JoinAs(old(Stored()), command, old(invitation.Row()), invitation.id, user, None), Stored(), failed)
    {
      var existing := db.FindByUserAndTenant(user, invitation.tenantId);
      if existing.Some? {
        return Some(MembershipAlreadyExists);
      }
      var roleIds := Entities.NormalizeRoleIds(invitation.roleIds);
      if roleIds.Err? {
        return Some(roleIds.error);
      }
      failed := invitation.Consume(command.now);
      InsertMember(command.newId, Membership(invitation.tenantId, user, roleIds.value, Active), invitation, command.now);
    }

    method Replace(command: Step) returns (failed: Option<Error>)
      requires Valid() && NamesUnique(db.roles) && command.ReplaceRoles?
      modifies db, cache
      ensures Transacted(old(Stored()), DecideReplace(old(Stored()), command), Stored(), failed)
    {
      if command.membership !in db.memberships || db.memberships[command.membership].tenantId != command.tenant {
        return Some(MembershipNotFound);
      }
      var membership := new Entities.Membership(command.membership, db.memberships[command.membership]);
      failed := db.AssertAssignable(command.tenant, command.roleIds);
      if failed.Some? {
        return;
      }
      var owner := db.FindOwnerRole(command.tenant);
      if owner.Some? && owner.value in membership.roleIds {
        var remaining := db.CountOtherActive(command.tenant, owner.value, membership.id);
        if remaining == 0 {
          return Some(LastOwnerRequired);
        }
      }
      failed := membership.ReplaceRoleIds(command.roleIds);
      if failed.Some? {
        return;
      }
      SaveMembership(membership);
    }

    method ReplaceMembershipRoles(command: Step) returns (failed: Option<Error>)
      requires Valid() && Inv(Stored()) && command.ReplaceRoles? && Enabled(Stored(), command)
      modifies db, cache
      ensures Executed(old(Stored()), command, Stored(), failed)
    {
      db.clock := command.now;
      failed := authz.Require(command.actor, TenancyMembersManage, command.tenant, command.now);
      if failed == None {
        failed := Replace(command);
      }
    }

    /** Seeds the three system roles and the founder's membership. */
    method Found(command: Step) returns (failed: Option<Error>)
      requires Valid() && command.CreateTenant?
      modifies db
      ensures Transacted(old(Stored()), DecideCreateTenant(old(Stored()), command), Stored(), failed)
    {
      if command.owner !in db.users {
        return Some(UserNotFound);
      }
      if Trim(command.tenantName) == "" {
        return Some(InvalidTenantName);
      }
      db.tenants := db.tenants[command.newTenant := Trim(command.tenantName)];
      db.roles := db.roles[command.ownerRole := Role(command.newTenant, "Owner", SystemPermissions("Owner"), true)];
      db.roles := db.roles[command.adminRole := Role(command.newTenant, "Admin", SystemPermissions("Admin"), true)];
      db.roles := db.roles[command.memberRole := Role(command.newTenant, "Member", SystemPermissions("Member"), true)];
      db.memberships := db.memberships[command.newId := Membership(command.newTenant, command.owner, [command.ownerRole], Active)];
      db.used := db.used + {command.newTenant, command.ownerRole, command.adminRole, command.memberRole, command.newId};
      db.founding := db.founding[command.newTenant := Founding(command.ownerRole, command.newId, command.owner)];
      failed := None;
    }

    method CreateTenant(command: Step) returns (failed: Option<Error>)
      requires Valid() && Inv(Stored()) && command.CreateTenant? && Enabled(Stored(), command)
      modifies db
      ensures Executed(old(Stored()), command, Stored(), failed)
    {
      db.clock := command.now;
      failed := Found(command);
    }

    // -------------------------------------------------------------------------------------------
    // Roles
    // -------------------------------------------------------------------------------------------

    method AddRole(command: Step) returns (failed: Option<Error>)
      requires Valid() && command.CreateRole?
      modifies db
      ensures Transacted(old(Stored()), DecideCreateRole(old(Stored()), command), Stored(), failed)
    {
      var name := Trim(command.name);
      var taken := db.IsNameTaken(command.tenant, name, None);
      if taken {
        return Some(RoleNameTaken);
      }
      var normalized := NormalizeRoleName(command.name);
      if normalized.Err? {
        return Some(normalized.error);
      }
      var permissions := Entities.NormalizePermissions(command.permissions);
      if permissions.Err? {
        return Some(permissions.error);
      }
      db.roles := db.roles[command.newId := Role(command.tenant, normalized.value, permissions.value, false)];
      db.used := db.used + {command.newId};
      failed := None;
    }

    method CreateCustomRole(command: Step) returns (failed: Option<Error>)
      requires Valid() && Inv(Stored()) && command.CreateRole? && Enabled(Stored(), command)
      modifies db, cache
      ensures Executed(old(Stored()), command, Stored(), failed)
    {
      db.clock := command.now;
      failed := authz.Require(command.actor, AuthorizationRolesManage, command.tenant, command.now);
      if failed == None {
        failed := AddRole(command);
      }
    }

    method ChangeRole(command: Step) returns (failed: Option<Error>)
      requires Valid() && command.UpdateRole?
      modifies db, cache
      ensures Transacted(old(Stored()), DecideUpdateRole(old(Stored()), command), Stored(), failed)
    {
      if command.role !in db.roles || db.roles[command.role].tenantId != command.tenant {
        return Some(RoleNotFound);
      }
      var role := new Entities.Role(command.role, db.roles[command.role]);
      if command.maybeName.Some? {
        var taken := db.IsNameTaken(command.tenant, Trim(command.maybeName.value), Some(role.id));
        if taken {
          return Some(RoleNameTaken);
        }
        failed := role.Rename(command.maybeName.value);
        if failed.Some? {
          return;
        }
      }
      if command.maybePermissions.Some? {
        failed := role.ReplacePermissions(command.maybePermissions.value);
        if failed.Some? {
          return;
        }
      }
      SaveRole(role);
      failed := None;
    }

    method UpdateCustomRole(command: Step) returns (failed: Option<Error>)
      requires Valid() && Inv(Stored()) && command.UpdateRole? && Enabled(Stored(), command)
      modifies db, cache
      ensures Executed(old(Stored()), command, Stored(), failed)
    {
      db.clock := command.now;
      failed := authz.Require(command.actor, AuthorizationRolesManage, command.tenant, command.now);
      if failed == None {
        failed := ChangeRole(command);
      }
    }

    method RemoveRole(command: Step) returns (failed: Option<Error>)
      requires Valid() && command.DeleteRole?
      modifies db, cache
      ensures Transacted(old(Stored()), DecideDeleteRole(old(Stored()), command), Stored(), failed)
    {
      if command.role !in db.roles || db.roles[command.role].tenantId != command.tenant {
        return Some(RoleNotFound);
      }
      if db.roles[command.role].isSystem {
        return Some(SystemRoleImmutable);
      }
      var holders := db.FindByTenantAndRole(command.tenant, command.role);
      if |holders| > 0 {
        return Some(RoleInUse);
      }
      db.roles := db.roles - {command.role};
      authz.InvalidateHoldersOf(command.role, command.tenant);
      failed := None;
    }

    method DeleteCustomRole(command: Step) returns (failed: Option<Error>)
      requires Valid() && Inv(Stored()) && command.DeleteRole? && Enabled(Stored(), command)
      modifies db, cache
      ensures Executed(old(Stored()), command, Stored(), failed)
    {
      db.clock := command.now;
      failed := authz.Require(command.actor, AuthorizationRolesManage, command.tenant, command.now);
      if failed == None {
        failed := RemoveRole(command);
      }
    }

    // -------------------------------------------------------------------------------------------
    // API keys
    // -------------------------------------------------------------------------------------------

    /** The loop over requested permissions: each must be known, and held by the user who grants it. */
    method AssertHeld(requested: seq<Permission>, held: seq<Permission>) returns (failed: Option<Error>)
      ensures failed == FirstNotHeld(requested, held)
    {
      for k := 0 to |requested|
        invariant FirstNotHeld(requested, held) == FirstNotHeld(requested[k..], held)
      {
        if requested[k] !in CATALOG {
          return Some(UnknownPermission(requested[k]));
        }
        if requested[k] !in held {
          return Some(Error.InsufficientPermission(requested[k]));
        }
      }
      failed := None;
    }

    /** After the guard: the creator's permissions come from the cache that the guard has just filled. */
    method MintKey(command: Step) returns (failed: Option<Error>)
      requires Valid() && MembershipsDistinct(db.memberships) && command.CreateApiKey?
      requires CacheHit(cache.store, CacheKeyOf(command.actor, command.tenant), command.now)
      modifies db, cache
      ensures Transacted(old(Stored()), DecideCreateKey(old(Stored()), command), Stored(), failed)
    {
      if !command.actor.UserActor? {
        return Some(Error.InsufficientPermission(IdentityApiKeysManage));
      }
      var held := authz.GetPermissions(command.actor, command.tenant, command.now);
      failed := AssertHeld(command.permissions, held);
      if failed.Some? {
        return;
      }
      var token := ApiKeyToken.Create(command.newPrefix, command.newSecret);
      if Trim(command.name) == "" {
        return Some(InvalidApiKeyName);
      }
      var permissions := Entities.NormalizeKeyPermissions(command.permissions);
      if permissions.Err? {
        return Some(permissions.error);
      }
      var prefix := ApiKeyToken.DisplayPrefix(command.newPrefix);
      var taken := db.IsPrefixTaken(prefix);
      if taken {
        return Some(PrefixTaken);
      }
      InsertApiKey(command.newId,
                   ApiKey(command.tenant, command.actor.id, Trim(command.name), prefix, Digest(token), permissions.value, command.keyExpiresAt, None),
                   token);
    }

    method CreateApiKey(command: Step) returns (failed: Option<Error>)
      requires Valid() && Inv(Stored()) && command.CreateApiKey? && Enabled(Stored(), command)
      modifies db, cache
      ensures Executed(old(Stored()), command, Stored(), failed)
    {
      db.clock := command.now;
      failed := authz.Require(command.actor, IdentityApiKeysManage, command.tenant, command.now);
      if failed == None {
        failed := MintKey(command);
      }
    }

    method ChangeKey(command: Step) returns (failed: Option<Error>)
      requires Valid() && MembershipsDistinct(db.memberships) && command.UpdateApiKey?
      requires CacheHit(cache.store, CacheKeyOf(command.actor, command.tenant), command.now)
      modifies db, cache
      ensures Transacted(old(Stored()), DecideUpdateKey(old(Stored()), command), Stored(), failed)
    {
      if command.maybePermissions.Some? && command.actor.UserActor? {
        var held := authz.GetPermissions(command.actor, command.tenant, command.now);
        failed := AssertHeld(command.maybePermissions.value, held);
        if failed.Some? {
          return;
        }
      }
      failed := SaveKey(command);
    }

    method SaveKey(command: Step) returns (failed: Option<Error>)
      requires Valid() && command.UpdateApiKey?
      modifies db, cache
      ensures Transacted(old(Stored()), ChangedKey(old(Stored()), command), Stored(), failed)
    {
      if command.key !in db.keys || db.keys[command.key].tenantId != command.tenant {
        return Some(ApiKeyNotFound);
      }
      var apiKey := new Entities.ApiKey(command.key, db.keys[command.key]);
      if command.maybeName.Some? {
        failed := apiKey.Rename(command.maybeName.value);
        if failed.Some? {
          return;
        }
      }
      if command.maybePermissions.Some? {
        failed := apiKey.ReplacePermissions(command.maybePermissions.value);
        if failed.Some? {
          return;
        }
      }
      SaveApiKey(apiKey);
      failed := None;
    }

    method UpdateApiKey(command: Step) returns (failed: Option<Error>)
      requires Valid() && MembershipsDistinct(db.memberships) && command.UpdateApiKey? && Enabled(Stored(), command)
      modifies db, cache
      ensures Executed(old(Stored()), command, Stored(), failed)
    {
      db.clock := command.now;
      failed := authz.Require(command.actor, IdentityApiKeysManage, command.tenant, command.now);
      if failed == None {
        failed := ChangeKey(command);
      }
    }

    method Revoke(command: Step) returns (failed: Option<Error>)
      requires Valid() && command.RevokeApiKey?
      modifies db, cache
      ensures Transacted(old(Stored()), DecideRevokeKey(old(Stored()), command), Stored(), failed)
    {
      if command.key !in db.keys || db.keys[command.key].tenantId != command.tenant {
        return Some(ApiKeyNotFound);
      }
      var apiKey := new Entities.ApiKey(command.key, db.keys[command.key]);
      failed := apiKey.Revoke(command.now);
      if failed.Some? {
        return;
      }
      SaveApiKey(apiKey);
    }

    method RevokeApiKey(command: Step) returns (failed: Option<Error>)
      requires Valid() && MembershipsDistinct(db.memberships) && command.RevokeApiKey?
      modifies db, cache
      ensures Executed(old(Stored()), command, Stored(), failed)
    {
      db.clock := command.now;
      failed := authz.Require(command.actor, IdentityApiKeysManage, command.tenant, command.now);
      RevokingIsGuarded(Stored(), command);
      if failed == None {
        failed := Revoke(command);
      }
    }
  }
}
