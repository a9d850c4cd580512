/**
 * What every use case comes to, given that its guard lets the actor through: the first rule that is broken decides the
 * error, and otherwise exactly these rows are written. `AccessGuards` says who gets through.
 */
module AccessOutcomes {
  import opened Wrappers
  import opened Text
  import opened Users
  import opened Access
  import opened AccessUseCases
  import opened AccessInvariants
  import opened AccessProofs
  import opened AccessTheorems
  import opened AccessGuards
  import ApiKeyToken

  type Outcome = Result<Delta, Error>

  /** Nothing was stored; the clock has moved on, and permissions may have been read into the cache. */
  ghost predicate Untouched(s: State, s': State, step: Step) {
    s' == s.(clock := step.now, cache := s'.cache)
  }

  ghost predicate FailsWith(s: State, s': State, step: Step, outcome: Outcome, error: Error) {
    outcome == Err(error) && Untouched(s, s', step)
  }

  /** Where the guard lets the actor through, the decision is taken on the stores as they are. */
  lemma Passed(s: State, step: Step, p: Permission) returns (s1: State)
    requires Reachable(s) && Enabled(s, step) && Needs(step, p) && p in Held(s, step.actor, step.tenant, step.now)
    ensures s1 == s.(clock := step.now, cache := s1.cache)
    ensures GetPermissions(s1, step.actor, step.tenant, step.now).1 == GetPermissions(s, step.actor, step.tenant, step.now).1
    ensures Apply(s, step) == Decided(s1, Decide(s1, step))
  {
    GuardReads(s, step, p);
    ReadsAsBefore(s, step, p);
    s1 := Authorize(s.(clock := step.now), step).0;
  }

  lemma Unguarded(s: State, step: Step) returns (s1: State)
    requires step.CreateUser? || step.CreateTenant? || step.AcceptInvitation?
    ensures s1 == s.(clock := step.now) && Apply(s, step) == Decided(s1, Decide(s1, step))
  {
    s1 := s.(clock := step.now);
  }

  function Decided(s: State, outcome: Outcome): (State, Outcome) {
    (if outcome.Ok? then Commit(s, outcome.value) else s, outcome)
  }

  lemma NamesAreUnique(s: State)
    requires Reachable(s)
    ensures NamesUnique(s.roles) && EmailsDistinct(s.users) && MembershipsDistinct(s.memberships)
    ensures PendingDistinct(s.invitations) && TokensDistinct(s.invitations)
  {
    ReachableIsSound(s);
  }

  /** The list holds the same ids once each. */
  ghost predicate SameIds(ids: seq<Id>, given: seq<Id>) {
    NoRepeats(ids) && forall id :: id in ids <==> id in given
  }

  // ---------------------------------------------------------------------------------------------
  // Registration and tenants
  // ---------------------------------------------------------------------------------------------

  /** A non-empty text with neither a space nor an at sign. */
  predicate IsPlain(s: string) {
    s != "" && forall k :: 0 <= k < |s| ==> s[k] != '@' && !IsSpace(s[k])
  }

  /** An address is a local part, an at sign, a host, a dot and an ending. */
  lemma EmailReads(s: string)
    ensures IsEmail(s) <==>
            exists local, host, ending :: IsPlain(local) && IsPlain(host) && IsPlain(ending) && s == local + "@" + host + "." + ending
  {
    if IsEmail(s) {
      var local, host, ending := EmailParts(s);
    } else if local, host, ending :| IsPlain(local) && IsPlain(host) && IsPlain(ending) && s == local + "@" + host + "." + ending {
      AddressIsEmail(local, host, ending);
    }
  }

  lemma EmailParts(s: string) returns (local: string, host: string, ending: string)
    requires IsEmail(s)
    ensures IsPlain(local) && IsPlain(host) && IsPlain(ending) && s == local + "@" + host + "." + ending
  {
    var i: nat, j: nat :| 0 < i && i + 1 < j && j + 1 < |s| && s[i] == '@' && s[j] == '.' && forall k :: 0 <= k < |s| && k != i ==> s[k] != '@';
    local, host, ending := s[..i], s[i + 1..j], s[j + 1..];
  }

  lemma AddressIsEmail(local: string, host: string, ending: string)
    requires IsPlain(local) && IsPlain(host) && IsPlain(ending)
    ensures IsEmail(local + "@" + host + "." + ending)
  {
    var s := local + "@" + host + "." + ending;
    var i, j := |local|, |local| + 1 + |host|;
    assert s[..i] == local && s[i] == '@' && s[i + 1..j] == host && s[j] == '.' && s[j + 1..] == ending;
    forall k | 0 <= k < |s| ensures !IsSpace(s[k]) && (k != i ==> s[k] != '@') {
      if k < i {
        assert s[k] == local[k];
      } else if i < k < j {
        assert s[k] == host[k - i - 1];
      } else if j < k {
        assert s[k] == ending[k - j - 1];
      }
    }
  }

  ghost predicate Registered(s: State, step: Step, s': State, outcome: Outcome)
    requires step.CreateUser?
  {
    var email := Normalize(step.email);
    if step.password.Some? && |step.password.value| < 8 then FailsWith(s, s', step, outcome, InvalidPassword)
    else if exists u :: HasEmail(s.users, u, email) then FailsWith(s, s', step, outcome, UserEmailTaken)
    else if !IsEmail(email) then FailsWith(s, s', step, outcome, InvalidEmail)
    else if Trim(step.displayName) == "" then FailsWith(s, s', step, outcome, InvalidDisplayName)
    else
      && outcome.Ok?
      && s' == s.(clock := step.now, used := s.used + {step.newId},
                  users := s.users[step.newId := User(email, Trim(step.displayName), false)],
                  passwords := if step.password.Some? then s.passwords[step.newId := Hash(step.password.value)] else s.passwords)
  }

  lemma CreateUserOutcome(s: State, step: Step)
    requires Reachable(s) && Enabled(s, step) && step.CreateUser?
    ensures Registered(s, step, Apply(s, step).0, Apply(s, step).1)
  {
    var s1 := Unguarded(s, step);
    CreateUserDecision(s1, step);
  }

  lemma CreateUserDecision(s: State, step: Step)
    requires step.CreateUser? && s.clock == step.now
    ensures Registered(s, step, Decided(s, DecideCreateUser(s, step)).0, DecideCreateUser(s, step))
  {
    NormalizeIsIdempotent(step.email);
  }

  /** The tenant, its three system roles with their permissions, and the founder's membership with the Owner role. */
  ghost predicate TenantFounded(s: State, step: Step, s': State, outcome: Outcome)
    requires step.CreateTenant?
  {
    if step.owner !in s.users then FailsWith(s, s', step, outcome, UserNotFound)
    else if Trim(step.tenantName) == "" then FailsWith(s, s', step, outcome, InvalidTenantName)
    else
      && outcome.Ok?
      && s' == s.(clock := step.now, used := s'.used, founding := s'.founding, roles := s'.roles,
                  tenants := s.tenants[step.newTenant := Trim(step.tenantName)],
                  memberships := s.memberships[step.newId := Membership(step.newTenant, step.owner, [step.ownerRole], Active)])
      && s'.roles.Keys == s.roles.Keys + {step.ownerRole, step.adminRole, step.memberRole}
      && (forall r :: r in s.roles ==> s'.roles[r] == s.roles[r])
      && s'.roles[step.ownerRole] == Role(step.newTenant, "Owner",
           [TenancyMembersRead, TenancyMembersInvite, TenancyMembersManage, TenancyTenantRead,
            AuthorizationRolesRead, AuthorizationRolesManage, IdentityUsersRead, IdentityApiKeysManage], true)
      && s'.roles[step.adminRole] == Role(step.newTenant, "Admin",
           [TenancyMembersRead, TenancyMembersInvite, TenancyMembersManage, TenancyTenantRead, IdentityUsersRead, IdentityApiKeysManage], true)
      && s'.roles[step.memberRole] == Role(step.newTenant, "Member", [TenancyTenantRead], true)
  }

  lemma CreateTenantOutcome(s: State, step: Step)
    requires Reachable(s) && Enabled(s, step) && step.CreateTenant?
    ensures TenantFounded(s, step, Apply(s, step).0, Apply(s, step).1)
  {
    var s1 := Unguarded(s, step);
    ReachableUses(s);
    CreateTenantDecision(s1, step);
  }

  lemma ReachableUses(s: State)
    requires Reachable(s)
    ensures s.roles.Keys <= s.used
  {
    ReachableIsSound(s);
  }

  lemma CreateTenantDecision(s: State, step: Step)
    requires step.CreateTenant? && s.clock == step.now && s.roles.Keys <= s.used
    requires NoRepeats([step.newTenant, step.ownerRole, step.adminRole, step.memberRole, step.newId])
    requires IsFresh(s, step.ownerRole) && IsFresh(s, step.adminRole) && IsFresh(s, step.memberRole)
    ensures TenantFounded(s, step, Decided(s, DecideCreateTenant(s, step)).0, DecideCreateTenant(s, step))
  {
    var ids := [step.newTenant, step.ownerRole, step.adminRole, step.memberRole, step.newId];
    assert ids[1] != ids[2] && ids[1] != ids[3] && ids[2] != ids[3];
  }

  // ---------------------------------------------------------------------------------------------
  // Members
  // ---------------------------------------------------------------------------------------------

  /** A role of the tenant other than its Owner role. */
  predicate MayBeGiven(roles: map<Id, Role>, tenant: Id, r: Id) {
    r in roles && roles[r].tenantId == tenant && !(roles[r].isSystem && roles[r].name == "Owner")
  }

  predicate AllMayBeGiven(roles: map<Id, Role>, tenant: Id, roleIds: seq<Id>) {
    forall r :: r in roleIds ==> MayBeGiven(roles, tenant, r)
  }

  /** The first role id that may not be given decides: the tenant's Owner role, or a role that the tenant does not have. */
  predicate IsFirstBad(roles: map<Id, Role>, tenant: Id, roleIds: seq<Id>, i: nat, error: Error) {
    && i < |roleIds| && !MayBeGiven(roles, tenant, roleIds[i]) && AllMayBeGiven(roles, tenant, roleIds[..i])
    && error == if roleIds[i] in roles && roles[roleIds[i]].tenantId == tenant then CannotAssignOwnerRole else RoleNotFound
  }

  ghost predicate IsRoleError(roles: map<Id, Role>, tenant: Id, roleIds: seq<Id>, error: Error) {
    exists i: nat :: IsFirstBad(roles, tenant, roleIds, i, error)
  }

  ghost predicate AssignmentDecided(roles: map<Id, Role>, tenant: Id, roleIds: seq<Id>, refused: Option<Error>) {
    if refused == None then AllMayBeGiven(roles, tenant, roleIds)
    else !AllMayBeGiven(roles, tenant, roleIds) && IsRoleError(roles, tenant, roleIds, refused.value)
  }

  lemma {:induction false} AssignmentIff(roles: map<Id, Role>, tenant: Id, roleIds: seq<Id>)
    requires NamesUnique(roles)
    ensures AssignmentDecided(roles, tenant, roleIds, AssertAssignable(roles, FindOwner(roles, tenant), tenant, roleIds))
  {
    if roleIds != [] {
      var rest := roleIds[1..];
      assert roleIds == [roleIds[0]] + rest;
      if MayBeGiven(roles, tenant, roleIds[0]) {
        AssignmentIff(roles, tenant, rest);
        var found := AssertAssignable(roles, FindOwner(roles, tenant), tenant, rest);
        if found.Some? {
          LaterIsBad(roles, tenant, roleIds, found.value);
        }
      } else {
        FirstIsBad(roles, tenant, roleIds);
      }
    }
  }

  lemma LaterIsBad(roles: map<Id, Role>, tenant: Id, roleIds: seq<Id>, error: Error)
    requires roleIds != [] && MayBeGiven(roles, tenant, roleIds[0]) && IsRoleError(roles, tenant, roleIds[1..], error)
    ensures IsRoleError(roles, tenant, roleIds, error) && !AllMayBeGiven(roles, tenant, roleIds)
  {
    var i: nat :| IsFirstBad(roles, tenant, roleIds[1..], i, error);
    assert roleIds[..i + 1] == [roleIds[0]] + roleIds[1..][..i];
    assert IsFirstBad(roles, tenant, roleIds, i + 1, error);
  }

  lemma FirstIsBad(roles: map<Id, Role>, tenant: Id, roleIds: seq<Id>)
    requires NamesUnique(roles) && roleIds != [] && !MayBeGiven(roles, tenant, roleIds[0])
    ensures
      var found := AssertAssignable(roles, FindOwner(roles, tenant), tenant, roleIds);
      found.Some? && IsRoleError(roles, tenant, roleIds, found.value) && !AllMayBeGiven(roles, tenant, roleIds)
  {
    var found := AssertAssignable(roles, FindOwner(roles, tenant), tenant, roleIds);
    assert IsOwnerRole(roles, roleIds[0], tenant) ==> FindOwner(roles, tenant) == Some(roleIds[0]);
    assert roleIds[..0] == [];
    assert IsFirstBad(roles, tenant, roleIds, 0, found.value);
  }

  ghost predicate Attached(s: State, step: Step, s': State, outcome: Outcome)
    requires step.AttachMember?
  {
    if step.user !in s.users then FailsWith(s, s', step, outcome, UserNotFound)
    else if exists m :: Links(s.memberships, m, step.user, step.tenant) then FailsWith(s, s', step, outcome, MembershipAlreadyExists)
    else if !AllMayBeGiven(s.roles, step.tenant, step.roleIds) then
      outcome.Err? && IsRoleError(s.roles, step.tenant, step.roleIds, outcome.error) && Untouched(s, s', step)
    else if step.roleIds == [] then FailsWith(s, s', step, outcome, EmptyMembershipRoles)
    else
      && outcome.Ok? && step.newId in s'.memberships
      && s' == s.(clock := step.now, cache := s'.cache, used := s.used + {step.newId},
                  memberships := s.memberships[step.newId := Membership(step.tenant, step.user, s'.memberships[step.newId].roleIds, Active)])
      && SameIds(s'.memberships[step.newId].roleIds, step.roleIds)
  }

  lemma AttachOutcome(s: State, step: Step)
    requires Reachable(s) && Enabled(s, step) && step.AttachMember? && TenancyMembersManage in Held(s, step.actor, step.tenant, step.now)
    ensures Attached(s, step, Apply(s, step).0, Apply(s, step).1)
  {
    var s1 := Passed(s, step, TenancyMembersManage);
    NamesAreUnique(s);
    AssignmentIff(s1.roles, step.tenant, step.roleIds);
    AttachDecision(s1, step);
  }

  lemma AttachDecision(s: State, step: Step)
    requires step.AttachMember? && s.clock == step.now
    requires AssignmentDecided(s.roles, step.tenant, step.roleIds, AssertAssignable(s.roles, FindOwner(s.roles, step.tenant), step.tenant, step.roleIds))
    ensures Attached(s, step, Decided(s, DecideAttach(s, step)).0, DecideAttach(s, step))
  {}

  ghost predicate IsOpenFor(invitations: map<Id, Invitation>, i: Id, tenant: Id, email: string, now: int) {
    IsPendingFor(invitations, i, tenant, email) && invitations[i].expiresAt > now
  }

  /** The new invitation is stored, for a week; an unused one of the same tenant and email, which has expired, is used up. */
  ghost predicate InvitationStored(s: State, step: Step, s': State, email: string, inviter: Id)
    requires step.InviteMember?
  {
    && s' == s.(clock := step.now, cache := s'.cache, used := s.used + {step.newId}, tokens := s.tokens + {step.newToken},
                invitations := s'.invitations)
    && s'.invitations.Keys == s.invitations.Keys + {step.newId}
    && s'.invitations[step.newId] == Invitation(step.tenant, email, s'.invitations[step.newId].roleIds, Digest(step.newToken),
                                                step.now + 7 * 24 * 3_600_000, inviter, None)
    && SameIds(s'.invitations[step.newId].roleIds, step.roleIds)
    && forall i :: i in s.invitations && i != step.newId ==>
         s'.invitations[i] == if IsPendingFor(s.invitations, i, step.tenant, email)
                              then s.invitations[i].(consumedAt := Some(step.now)) else s.invitations[i]
  }

  ghost predicate InvitationBuilt(s: State, step: Step, s': State, outcome: Outcome, email: string, inviter: Id)
    requires step.InviteMember?
  {
    if !IsEmail(email) then FailsWith(s, s', step, outcome, InvalidEmail)
    else if step.roleIds == [] then FailsWith(s, s', step, outcome, EmptyMembershipRoles)
    else outcome.Ok? && InvitationStored(s, step, s', email, inviter)
  }

  ghost predicate IsMember(s: State, email: string, tenant: Id) {
    exists u, m :: HasEmail(s.users, u, email) && Links(s.memberships, m, u, tenant)
  }

  ghost predicate Invited(s: State, step: Step, s': State, outcome: Outcome, inviter: Id)
    requires step.InviteMember?
  {
    var email := Normalize(step.email);
    if !AllMayBeGiven(s.roles, step.tenant, step.roleIds) then
      outcome.Err? && IsRoleError(s.roles, step.tenant, step.roleIds, outcome.error) && Untouched(s, s', step)
    else if IsMember(s, email, step.tenant) then FailsWith(s, s', step, outcome, MembershipAlreadyExists)
    else if exists i :: IsOpenFor(s.invitations, i, step.tenant, email, step.now) then FailsWith(s, s', step, outcome, InvitationAlreadyPending)
    else InvitationBuilt(s, step, s', outcome, email, inviter)
  }

  lemma InviteOutcome(s: State, step: Step)
    requires Reachable(s) && Enabled(s, step) && step.InviteMember? && TenancyMembersInvite in Held(s, step.actor, step.tenant, step.now)
    ensures step.actor.KeyActor? ==> step.actor.id in s.keys
    ensures Invited(s, step, Apply(s, step).0, Apply(s, step).1,
                    if step.actor.KeyActor? then s.keys[step.actor.id].createdBy else step.actor.id)
  {
    var s1 := Passed(s, step, TenancyMembersInvite);
    InviterIsKnown(s, step);
    NamesAreUnique(s);
    AssignmentIff(s1.roles, step.tenant, step.roleIds);
    InviteDecision(s, s1, step);
  }

  lemma InviterIsKnown(s: State, step: Step)
    requires Reachable(s) && step.InviteMember? && TenancyMembersInvite in Held(s, step.actor, step.tenant, step.now)
    ensures InvitedBy(s, step.actor).Some?
  {
    ReachableIsSound(s);
    KeyActorIsKnown(s, step);
  }

  lemma BuildDecision(s: State, s1: State, step: Step, email: string, pending: Option<Id>)
    requires s1 == s.(clock := step.now, cache := s1.cache)
    requires step.InviteMember? && InvitedBy(s, step.actor).Some? && Normalize(email) == email
    requires forall i: Id :: IsPendingFor(s.invitations, i, step.tenant, email) <==> pending == Some(i)
    ensures
      var outcome := BuildInvitation(s1, step, email, pending);
      InvitationBuilt(s, step, Decided(s1, outcome).0, outcome, email, InvitedBy(s, step.actor).value)
  {}

  lemma MemberIff(s: State, email: string, tenant: Id)
    requires EmailsDistinct(s.users) && MembershipsDistinct(s.memberships)
    ensures
      var user := FindUser(s.users, email);
      IsMember(s, email, tenant) <==> user.Some? && FindMembership(s.memberships, user.value, tenant).Some?
  {
    if u: Id, m: Id :| HasEmail(s.users, u, email) && Links(s.memberships, m, u, tenant) {
      assert FindUser(s.users, email) == Some(u);
    }
  }

  lemma PendingIff(s: State, tenant: Id, email: string, now: int)
    requires PendingDistinct(s.invitations)
    ensures
      var pending := FindPending(s.invitations, tenant, email);
      && (forall i: Id :: IsPendingFor(s.invitations, i, tenant, email) <==> pending == Some(i))
      && ((exists i :: IsOpenFor(s.invitations, i, tenant, email, now)) <==>
          pending.Some? && InvitationActive(s.invitations[pending.value], now))
  {
    var pending := FindPending(s.invitations, tenant, email);
    if pending.Some? && InvitationActive(s.invitations[pending.value], now) {
      assert IsOpenFor(s.invitations, pending.value, tenant, email, now);
    }
  }

  lemma InviteDecision(s: State, s1: State, step: Step)
    requires s1 == s.(clock := step.now, cache := s1.cache)
    requires step.InviteMember? && InvitedBy(s, step.actor).Some?
    requires EmailsDistinct(s.users) && MembershipsDistinct(s.memberships) && PendingDistinct(s.invitations)
    requires AssignmentDecided(s.roles, step.tenant, step.roleIds, AssertAssignable(s.roles, FindOwner(s.roles, step.tenant), step.tenant, step.roleIds))
    ensures Invited(s, step, Decided(s1, DecideInvite(s1, step)).0, DecideInvite(s1, step), InvitedBy(s, step.actor).value)
  {
    var email := Normalize(step.email);
    NormalizeIsIdempotent(step.email);
    MemberIff(s, email, step.tenant);
    PendingIff(s, step.tenant, email, step.now);
    BuildDecision(s, s1, step, email, FindPending(s.invitations, step.tenant, email));
  }

  ghost predicate IsOpen(invitations: map<Id, Invitation>, i: Id, token: string, now: int) {
    HasToken(invitations, i, Digest(token)) && invitations[i].consumedAt == None && invitations[i].expiresAt > now
  }

  /** The user has joined the inviting tenant with the roles of the invitation, which is used up. */
  ghost predicate Joined(s: State, step: Step, s': State, outcome: Outcome, i: Id, user: Id, users: map<Id, User>, passwords: map<Id, string>)
    requires step.AcceptInvitation? && i in s.invitations
  {
    var invitation := s.invitations[i];
    if exists m :: Links(s.memberships, m, user, invitation.tenantId) then FailsWith(s, s', step, outcome, MembershipAlreadyExists)
    else
      && outcome.Ok? && step.newId in s'.memberships
      && s' == s.(clock := step.now, cache := s'.cache, used := s'.used, users := users, passwords := passwords,
                  memberships := s.memberships[step.newId := Membership(invitation.tenantId, user, s'.memberships[step.newId].roleIds, Active)],
                  invitations := s.invitations[i := invitation.(consumedAt := Some(step.now))],
                  accepted := s.accepted[step.newId := i])
      && SameIds(s'.memberships[step.newId].roleIds, invitation.roleIds)
  }

  ghost predicate Accepted(s: State, step: Step, s': State, outcome: Outcome)
    requires step.AcceptInvitation?
  {
    if !exists i :: IsOpen(s.invitations, i, step.token, step.now) then FailsWith(s, s', step, outcome, InvalidInvitationToken)
    else
      forall i :: IsOpen(s.invitations, i, step.token, step.now) ==>
        var email := s.invitations[i].email;
        if exists u :: HasEmail(s.users, u, email) then
          forall u :: HasEmail(s.users, u, email) ==> Joined(s, step, s', outcome, i, u, s.users, s.passwords)
        else if step.maybeName == None || step.password == None then FailsWith(s, s', step, outcome, RegistrationRequired)
        else if |step.password.value| < 8 then FailsWith(s, s', step, outcome, InvalidPassword)
        else if Trim(step.maybeName.value) == "" then FailsWith(s, s', step, outcome, InvalidDisplayName)
        else
          Joined(s, step, s', outcome, i, step.newUserId,
                 s.users[step.newUserId := User(email, Trim(step.maybeName.value), false)],
                 s.passwords[step.newUserId := Hash(step.password.value)])
  }

  lemma AcceptOutcome(s: State, step: Step)
    requires Reachable(s) && Enabled(s, step) && step.AcceptInvitation?
    ensures Accepted(s, step, Apply(s, step).0, Apply(s, step).1)
  {
    var s1 := Unguarded(s, step);
    NamesAreUnique(s);
    InvitationsAreSound(s);
    AcceptDecision(s, s1, step);
  }

  predicate InvitationsNormal(invitations: map<Id, Invitation>) {
    forall i :: i in invitations ==> NormalizeEmail(invitations[i].email) == Ok(invitations[i].email) && invitations[i].roleIds != []
  }

  lemma InvitationsAreSound(s: State)
    requires Reachable(s)
    ensures InvitationsNormal(s.invitations)
  {
    ReachableIsSound(s);
  }

  lemma JoinDecision(s: State, s1: State, step: Step, i: Id, user: Id, created: Option<NewUser>)
    requires s1 == s.(clock := step.now)
    requires step.AcceptInvitation? && i in s.invitations && s.invitations[i].roleIds != []
    requires created.Some? ==> created.value.id == user && created.value.password.Some?
    ensures
      var outcome := JoinAs(s1, step, s.invitations[i], i, user, created);
      Joined(s, step, Decided(s1, outcome).0, outcome, i, user, WithUser(s.users, created), WithPassword(s.passwords, created))
  {}

  lemma TheOpenOne(s: State, token: string, now: int)
    requires TokensDistinct(s.invitations)
    ensures
      var found := FindInvitation(s.invitations, Digest(token));
      && (forall i: Id :: IsOpen(s.invitations, i, token, now) ==> found == Some(i))
      && (found.Some? && InvitationActive(s.invitations[found.value], now) ==> IsOpen(s.invitations, found.value, token, now))
  {}

  /** A user who is known joins. */
  lemma KnownAccepts(s: State, s1: State, step: Step, i: Id, user: Id)
    requires s1 == s.(clock := step.now) && step.AcceptInvitation? && EmailsDistinct(s.users) && InvitationsNormal(s.invitations)
    requires i in s.invitations && FindInvitation(s.invitations, Digest(step.token)) == Some(i) && IsOpen(s.invitations, i, step.token, step.now)
    requires FindUser(s.users, s.invitations[i].email) == Some(user)
    requires forall j :: IsOpen(s.invitations, j, step.token, step.now) ==> j == i
    ensures Accepted(s, step, Decided(s1, DecideAccept(s1, step)).0, DecideAccept(s1, step))
  {
    assert Normalize(s.invitations[i].email) == s.invitations[i].email;
    JoinDecision(s, s1, step, i, user, None);
  }

  lemma AcceptDecision(s: State, s1: State, step: Step)
    requires s1 == s.(clock := step.now) && step.AcceptInvitation?
    requires EmailsDistinct(s.users) && TokensDistinct(s.invitations) && InvitationsNormal(s.invitations)
    ensures Accepted(s, step, Decided(s1, DecideAccept(s1, step)).0, DecideAccept(s1, step))
  {
    var found := FindInvitation(s.invitations, Digest(step.token));
    TheOpenOne(s, step.token, step.now);
    if found.Some? && InvitationActive(s.invitations[found.value], step.now) {
      var i, email := found.value, s.invitations[found.value].email;
      assert Normalize(email) == email;
      var user := FindUser(s.users, email);
      if user.Some? {
        KnownAccepts(s, s1, step, i, user.value);
      } else if RegisterFor(step, s.invitations[i]).Ok? {
        var created := RegisterFor(step, s.invitations[i]).value;
        JoinDecision(s, s1, step, i, created.id, Some(created));
      }
    }
  }

  /** The membership holds an Owner role of the tenant that no other active membership of the tenant holds. */
  ghost predicate IsLastOwner(s: State, tenant: Id, membership: Id)
    requires membership in s.memberships
  {
    exists r :: && IsOwnerRole(s.roles, r, tenant) && r in s.memberships[membership].roleIds
                && forall m :: m != membership && Holds(s.memberships, m, tenant, r) ==> s.memberships[m].status != Active
  }

  ghost predicate Replaced(s: State, step: Step, s': State, outcome: Outcome)
    requires step.ReplaceRoles?
  {
    if step.membership !in s.memberships || s.memberships[step.membership].tenantId != step.tenant then
      FailsWith(s, s', step, outcome, MembershipNotFound)
    else if !AllMayBeGiven(s.roles, step.tenant, step.roleIds) then
      outcome.Err? && IsRoleError(s.roles, step.tenant, step.roleIds, outcome.error) && Untouched(s, s', step)
    else if IsLastOwner(s, step.tenant, step.membership) then FailsWith(s, s', step, outcome, LastOwnerRequired)
    else if step.roleIds == [] then FailsWith(s, s', step, outcome, EmptyMembershipRoles)
    else
      && outcome.Ok? && step.membership in s'.memberships
      && s' == s.(clock := step.now, cache := s'.cache,
                  memberships := s.memberships[step.membership :=
                    s.memberships[step.membership].(roleIds := s'.memberships[step.membership].roleIds)])
      && SameIds(s'.memberships[step.membership].roleIds, step.roleIds)
  }

  lemma ReplaceOutcome(s: State, step: Step)
    requires Reachable(s) && Enabled(s, step) && step.ReplaceRoles? && TenancyMembersManage in Held(s, step.actor, step.tenant, step.now)
    ensures Replaced(s, step, Apply(s, step).0, Apply(s, step).1)
  {
    var s1 := Passed(s, step, TenancyMembersManage);
    NamesAreUnique(s);
    AssignmentIff(s1.roles, step.tenant, step.roleIds);
    if step.membership in s.memberships {
      LastOwnerIff(s1, step.tenant, step.membership);
      assert IsLastOwner(s1, step.tenant, step.membership) <==> IsLastOwner(s, step.tenant, step.membership);
    }
    ReplaceDecision(s1, step);
  }

  lemma LastOwnerIff(s: State, tenant: Id, membership: Id)
    requires NamesUnique(s.roles) && membership in s.memberships
    ensures
      var owner := FindOwner(s.roles, tenant);
      IsLastOwner(s, tenant, membership) <==>
      owner.Some? && owner.value in s.memberships[membership].roleIds
      && |OtherActiveHolders(s.memberships, tenant, owner.value, membership)| == 0
  {
    var owner := FindOwner(s.roles, tenant);
    if owner.Some? {
      var others := OtherActiveHolders(s.memberships, tenant, owner.value, membership);
      assert |others| == 0 <==> others == {};
      assert others == {} <==> forall m :: m != membership && Holds(s.memberships, m, tenant, owner.value) ==> s.memberships[m].status != Active by {
        if others != {} {
          var m :| m in others;
          assert Holds(s.memberships, m, tenant, owner.value);
        }
        forall m: Id | m != membership && Holds(s.memberships, m, tenant, owner.value) && s.memberships[m].status == Active ensures m in others {}
      }
      assert forall r :: IsOwnerRole(s.roles, r, tenant) ==> r == owner.value;
    }
  }

  lemma ReplaceDecision(s: State, step: Step)
    requires step.ReplaceRoles? && s.clock == step.now
    requires AssignmentDecided(s.roles, step.tenant, step.roleIds, AssertAssignable(s.roles, FindOwner(s.roles, step.tenant), step.tenant, step.roleIds))
    requires
      step.membership in s.memberships ==>
        var owner := FindOwner(s.roles, step.tenant);
        IsLastOwner(s, step.tenant, step.membership) <==>
        owner.Some? && owner.value in s.memberships[step.membership].roleIds
        && |OtherActiveHolders(s.memberships, step.tenant, owner.value, step.membership)| == 0
    ensures Replaced(s, step, Decided(s, DecideReplace(s, step)).0, DecideReplace(s, step))
  {}

  // ---------------------------------------------------------------------------------------------
  // Roles
  // ---------------------------------------------------------------------------------------------

  ghost predicate IsTaken(s: State, tenant: Id, name: string, except_: Option<Id>) {
    exists r: Id :: r in s.roles && s.roles[r].tenantId == tenant && s.roles[r].name == name && Some(r) != except_
  }

  /** The list holds the same permissions once each, in the order of the catalog. */
  ghost predicate SamePermissions(stored: seq<Permission>, given: seq<Permission>) {
    InCatalogOrder(stored) && forall p :: p in stored <==> p in given
  }

  predicate IsFirstUnknown(permissions: seq<Permission>, i: nat, p: Permission) {
    i < |permissions| && permissions[i] == p && p !in CATALOG && forall j :: 0 <= j < i ==> permissions[j] in CATALOG
  }

  /** The list of permissions is empty, or the first unknown one in it decides the error. */
  ghost predicate IsPermissionError(permissions: seq<Permission>, error: Error) {
    if permissions == [] then error == EmptyRolePermissions
    else error.UnknownPermission? && exists i: nat :: IsFirstUnknown(permissions, i, error.permission)
  }

  predicate AllKnown(permissions: seq<Permission>) {
    permissions != [] && forall p :: p in permissions ==> p in CATALOG
  }

  lemma {:induction false} FirstUnknownIsFirst(permissions: seq<Permission>) returns (i: nat)
    requires FirstUnknown(permissions).Some?
    ensures IsFirstUnknown(permissions, i, FirstUnknown(permissions).value)
  {
    i := 0;
    if permissions[0] in CATALOG {
      i := FirstUnknownIsFirst(permissions[1..]);
      i := i + 1;
    }
  }

  lemma PermissionsIff(permissions: seq<Permission>)
    ensures
      match NormalizePermissions(permissions)
      case Ok(bundle) => AllKnown(permissions) && SamePermissions(bundle, permissions)
      case Err(error) => !AllKnown(permissions) && IsPermissionError(permissions, error)
  {
    NormalizedIsBundle(permissions);
    if NormalizePermissions(permissions).Ok? {
      var bundle := NormalizePermissions(permissions).value;
      assert forall p :: p in bundle <==> p in Elements(bundle);
      assert forall p :: p in permissions <==> p in Elements(permissions);
    } else if permissions != [] {
      var i := FirstUnknownIsFirst(permissions);
    }
  }

  ghost predicate RoleCreated(s: State, step: Step, s': State, outcome: Outcome)
    requires step.CreateRole?
  {
    var name := Trim(step.name);
    if IsTaken(s, step.tenant, name, None) then FailsWith(s, s', step, outcome, RoleNameTaken)
    else if name == "" then FailsWith(s, s', step, outcome, InvalidRoleName)
    else if name in {"Owner", "Admin", "Member"} then FailsWith(s, s', step, outcome, ReservedRoleName)
    else if !AllKnown(step.permissions) then outcome.Err? && IsPermissionError(step.permissions, outcome.error) && Untouched(s, s', step)
    else
      && outcome.Ok? && step.newId in s'.roles
      && s' == s.(clock := step.now, cache := s'.cache, used := s.used + {step.newId},
                  roles := s.roles[step.newId := Role(step.tenant, name, s'.roles[step.newId].permissions, false)])
      && SamePermissions(s'.roles[step.newId].permissions, step.permissions)
  }

  lemma CreateRoleOutcome(s: State, step: Step)
    requires Reachable(s) && Enabled(s, step) && step.CreateRole? && AuthorizationRolesManage in Held(s, step.actor, step.tenant, step.now)
    ensures RoleCreated(s, step, Apply(s, step).0, Apply(s, step).1)
  {
    var s1 := Passed(s, step, AuthorizationRolesManage);
    CreateRoleDecision(s, s1, step);
  }

  lemma TakenIff(roles: map<Id, Role>, tenant: Id, name: string, except_: Option<Id>)
    ensures NameTaken(roles, tenant, name, except_) <==>
            exists r: Id :: r in roles && roles[r].tenantId == tenant && roles[r].name == name && Some(r) != except_
  {
    if r: Id :| r in roles && roles[r].tenantId == tenant && roles[r].name == name && Some(r) != except_ {
      assert IsNamed(roles, r, tenant, name);
    }
  }

  lemma CreateRoleDecision(s: State, s1: State, step: Step)
    requires s1 == s.(clock := step.now, cache := s1.cache) && step.CreateRole?
    ensures RoleCreated(s, step, Decided(s1, DecideCreateRole(s1, step)).0, DecideCreateRole(s1, step))
  {
    TakenIff(s.roles, step.tenant, Trim(step.name), None);
    PermissionsIff(step.permissions);
  }

  /** Renaming comes first; a system role can be neither renamed nor given other permissions. */
  ghost predicate RoleChanged(s: State, step: Step, s': State, outcome: Outcome)
    requires step.UpdateRole?
  {
    if step.role !in s.roles || s.roles[step.role].tenantId != step.tenant then FailsWith(s, s', step, outcome, RoleNotFound)
    else
      var role, name := s.roles[step.role], if step.maybeName.Some? then Trim(step.maybeName.value) else s.roles[step.role].name;
      if step.maybeName.Some? && IsTaken(s, step.tenant, name, Some(step.role)) then FailsWith(s, s', step, outcome, RoleNameTaken)
      else if role.isSystem && (step.maybeName.Some? || step.maybePermissions.Some?) then FailsWith(s, s', step, outcome, SystemRoleImmutable)
      else if step.maybeName.Some? && name == "" then FailsWith(s, s', step, outcome, InvalidRoleName)
      else if step.maybeName.Some? && name in {"Owner", "Admin", "Member"} then FailsWith(s, s', step, outcome, ReservedRoleName)
      else if step.maybePermissions.Some? && !AllKnown(step.maybePermissions.value) then
        outcome.Err? && IsPermissionError(step.maybePermissions.value, outcome.error) && Untouched(s, s', step)
      else
        && outcome.Ok? && step.role in s'.roles
        && s' == s.(clock := step.now, cache := s'.cache,
                    roles := s.roles[step.role := role.(name := name, permissions := s'.roles[step.role].permissions)])
        && (step.maybePermissions == None ==> s'.roles[step.role].permissions == role.permissions)
        && (step.maybePermissions.Some? ==> SamePermissions(s'.roles[step.role].permissions, step.maybePermissions.value))
  }

  lemma UpdateRoleOutcome(s: State, step: Step)
    requires Reachable(s) && Enabled(s, step) && step.UpdateRole? && AuthorizationRolesManage in Held(s, step.actor, step.tenant, step.now)
    ensures RoleChanged(s, step, Apply(s, step).0, Apply(s, step).1)
  {
    var s1 := Passed(s, step, AuthorizationRolesManage);
    UpdateRoleDecision(s, s1, step);
  }

  lemma UpdateRoleDecision(s: State, s1: State, step: Step)
    requires s1 == s.(clock := step.now, cache := s1.cache) && step.UpdateRole?
    ensures RoleChanged(s, step, Decided(s1, DecideUpdateRole(s1, step)).0, DecideUpdateRole(s1, step))
  {
    if step.maybeName.Some? {
      TakenIff(s.roles, step.tenant, Trim(step.maybeName.value), Some(step.role));
    }
    if step.maybePermissions.Some? {
      PermissionsIff(step.maybePermissions.value);
    }
  }

  ghost predicate RoleRemoved(s: State, step: Step, s': State, outcome: Outcome)
    requires step.DeleteRole?
  {
    if step.role !in s.roles || s.roles[step.role].tenantId != step.tenant then FailsWith(s, s', step, outcome, RoleNotFound)
    else if s.roles[step.role].isSystem then FailsWith(s, s', step, outcome, SystemRoleImmutable)
    else if exists m :: Holds(s.memberships, m, step.tenant, step.role) then FailsWith(s, s', step, outcome, RoleInUse)
    else
      && outcome.Ok? && s' == s.(clock := step.now, cache := s'.cache, roles := s'.roles)
      && s'.roles.Keys == s.roles.Keys - {step.role}
      && forall r :: r in s'.roles ==> s'.roles[r] == s.roles[r]
  }

  lemma DeleteRoleOutcome(s: State, step: Step)
    requires Reachable(s) && Enabled(s, step) && step.DeleteRole? && AuthorizationRolesManage in Held(s, step.actor, step.tenant, step.now)
    ensures RoleRemoved(s, step, Apply(s, step).0, Apply(s, step).1)
  {
    var s1 := Passed(s, step, AuthorizationRolesManage);
    DeleteRoleDecision(s, s1, step);
  }

  lemma DeleteRoleDecision(s: State, s1: State, step: Step)
    requires s1 == s.(clock := step.now, cache := s1.cache) && step.DeleteRole?
    ensures RoleRemoved(s, step, Decided(s1, DecideDeleteRole(s1, step)).0, DecideDeleteRole(s1, step))
  {
    var holders := Holders(s.memberships, step.tenant, step.role);
    assert |holders| == 0 <==> holders == {};
    if m: Id :| Holds(s.memberships, m, step.tenant, step.role) {
      assert m in holders;
    }
  }

  // ---------------------------------------------------------------------------------------------
  // API keys
  // ---------------------------------------------------------------------------------------------

  predicate IsFirstNotHeld(requested: seq<Permission>, held: set<Permission>, i: nat, error: Error) {
    && i < |requested| && !(requested[i] in CATALOG && requested[i] in held)
    && (forall j :: 0 <= j < i ==> requested[j] in CATALOG && requested[j] in held)
    && error == if requested[i] in CATALOG then Error.InsufficientPermission(requested[i]) else UnknownPermission(requested[i])
  }

  predicate AllHeld(requested: seq<Permission>, held: set<Permission>) {
    forall p :: p in requested ==> p in CATALOG && p in held
  }

  /** The first requested permission that is unknown or not held by the actor decides. */
  ghost predicate IsGrantError(requested: seq<Permission>, held: set<Permission>, error: Error) {
    exists i: nat :: IsFirstNotHeld(requested, held, i, error)
  }

  lemma {:induction false} GrantIff(requested: seq<Permission>, held: seq<Permission>)
    ensures
      match FirstNotHeld(requested, held)
      case None => AllHeld(requested, Elements(held))
      case Some(error) => !AllHeld(requested, Elements(held)) && IsGrantError(requested, Elements(held), error)
  {
    if requested != [] {
      var rest := requested[1..];
      assert requested == [requested[0]] + rest;
      if requested[0] in CATALOG && requested[0] in held {
        GrantIff(rest, held);
        if FirstNotHeld(rest, held).Some? {
          var i: nat :| IsFirstNotHeld(rest, Elements(held), i, FirstNotHeld(rest, held).value);
          assert IsFirstNotHeld(requested, Elements(held), i + 1, FirstNotHeld(rest, held).value);
        }
      } else {
        assert IsFirstNotHeld(requested, Elements(held), 0, FirstNotHeld(requested, held).value);
      }
    }
  }

  /** The list holds the same permissions once each. */
  ghost predicate SameGrant(stored: seq<Permission>, given: seq<Permission>) {
    NoRepeats(stored) && forall p :: p in stored <==> p in given
  }

  ghost predicate KeyStored(s: State, step: Step, s': State)
    requires step.CreateApiKey?
  {
    var prefix, token := "bsk_" + step.newPrefix, "bsk_" + step.newPrefix + "_" + step.newSecret;
    && step.newId in s'.keys
    && s' == s.(clock := step.now, cache := s'.cache, used := s.used + {step.newId}, tokens := s.tokens + {token},
                minted := s.minted[step.newId := token],
                keys := s.keys[step.newId := ApiKey(step.tenant, step.actor.id, Trim(step.name), prefix, Digest(token),
                                                    s'.keys[step.newId].permissions, step.keyExpiresAt, None)])
    && SameGrant(s'.keys[step.newId].permissions, step.permissions)
  }

  /** A key of the creator's, with no more than the creator holds, and the token that is shown once. */
  ghost predicate KeyCreated(s: State, step: Step, s': State, outcome: Outcome)
    requires step.CreateApiKey?
  {
    var held := Held(s, step.actor, step.tenant, step.now);
    if !AllHeld(step.permissions, held) then outcome.Err? && IsGrantError(step.permissions, held, outcome.error) && Untouched(s, s', step)
    else if Trim(step.name) == "" then FailsWith(s, s', step, outcome, InvalidApiKeyName)
    else if step.permissions == [] then FailsWith(s, s', step, outcome, EmptyApiKeyPermissions)
    else if IdentityApiKeysManage in step.permissions then FailsWith(s, s', step, outcome, ApiKeyCannotManageKeys)
    else if exists k :: HasPrefix(s.keys, k, "bsk_" + step.newPrefix) then FailsWith(s, s', step, outcome, PrefixTaken)
    else outcome.Ok? && KeyStored(s, step, s')
  }

  lemma CreateKeyOutcome(s: State, step: Step)
    requires Reachable(s) && Enabled(s, step) && step.CreateApiKey? && IdentityApiKeysManage in Held(s, step.actor, step.tenant, step.now)
    ensures step.actor.UserActor?
    ensures KeyCreated(s, step, Apply(s, step).0, Apply(s, step).1)
  {
    var s1 := Passed(s, step, IdentityApiKeysManage);
    OnlyUsersManage(s, step.actor, step.tenant, step.now);
    GrantIff(step.permissions, GetPermissions(s, step.actor, step.tenant, step.now).1);
    CreateKeyDecision(s, s1, step);
  }

  lemma OnlyUsersManage(s: State, actor: Actor, tenant: Id, now: int)
    requires Reachable(s) && IdentityApiKeysManage in Held(s, actor, tenant, now)
    ensures actor.UserActor?
  {
    ReachableIsSound(s);
    if actor.KeyActor? {
      KeyReadsNoManagement(s, actor.id, tenant, now);
    }
  }

  ghost predicate GrantDecided(requested: seq<Permission>, held: seq<Permission>) {
    match FirstNotHeld(requested, held)
    case None => AllHeld(requested, Elements(held))
    case Some(error) => !AllHeld(requested, Elements(held)) && IsGrantError(requested, Elements(held), error)
  }

  lemma CreateKeyDecision(s: State, s1: State, step: Step)
    requires s1 == s.(clock := step.now, cache := s1.cache) && step.CreateApiKey? && step.actor.UserActor?
    requires GetPermissions(s1, step.actor, step.tenant, step.now).1 == GetPermissions(s, step.actor, step.tenant, step.now).1
    requires GrantDecided(step.permissions, GetPermissions(s, step.actor, step.tenant, step.now).1)
    ensures KeyCreated(s, step, Decided(s1, DecideCreateKey(s1, step)).0, DecideCreateKey(s1, step))
  {
    if DecideCreateKey(s1, step).Ok? {
      MintDecision(s, s1, step);
    }
  }

  lemma MintDecision(s: State, s1: State, step: Step)
    requires s1 == s.(clock := step.now, cache := s1.cache) && step.CreateApiKey? && DecideCreateKey(s1, step).Ok?
    ensures KeyStored(s, step, Commit(s1, DecideCreateKey(s1, step).value))
  {
    assert ApiKeyToken.Create(step.newPrefix, step.newSecret) == "bsk_" + step.newPrefix + "_" + step.newSecret;
  }

  /** The key has the new name and the new permissions, where there are any; a revoked key changes no more. */
  ghost predicate KeyRewritten(s: State, step: Step, s': State, outcome: Outcome)
    requires step.UpdateApiKey?
  {
    if step.key !in s.keys || s.keys[step.key].tenantId != step.tenant then FailsWith(s, s', step, outcome, ApiKeyNotFound)
    else if s.keys[step.key].revokedAt.Some? && (step.maybeName.Some? || step.maybePermissions.Some?) then
      FailsWith(s, s', step, outcome, ApiKeyAlreadyRevoked)
    else if step.maybeName.Some? && Trim(step.maybeName.value) == "" then FailsWith(s, s', step, outcome, InvalidApiKeyName)
    else if step.maybePermissions == Some([]) then FailsWith(s, s', step, outcome, EmptyApiKeyPermissions)
    else if step.maybePermissions.Some? && IdentityApiKeysManage in step.maybePermissions.value then
      FailsWith(s, s', step, outcome, ApiKeyCannotManageKeys)
    else
      var key := s.keys[step.key];
      && outcome.Ok? && step.key in s'.keys
      && s' == s.(clock := step.now, cache := s'.cache,
                  keys := s.keys[step.key := key.(name := if step.maybeName.Some? then Trim(step.maybeName.value) else key.name,
                                                  permissions := s'.keys[step.key].permissions)])
      && (step.maybePermissions == None ==> s'.keys[step.key].permissions == key.permissions)
      && (step.maybePermissions.Some? ==> SameGrant(s'.keys[step.key].permissions, step.maybePermissions.value))
  }

  /** A user gives a key no more than the user holds. */
  ghost predicate KeyChanged(s: State, step: Step, s': State, outcome: Outcome)
    requires step.UpdateApiKey?
  {
    var held := Held(s, step.actor, step.tenant, step.now);
    if step.maybePermissions.Some? && !AllHeld(step.maybePermissions.value, held) then
      outcome.Err? && IsGrantError(step.maybePermissions.value, held, outcome.error) && Untouched(s, s', step)
    else KeyRewritten(s, step, s', outcome)
  }

  lemma UpdateKeyOutcome(s: State, step: Step)
    requires Reachable(s) && Enabled(s, step) && step.UpdateApiKey? && IdentityApiKeysManage in Held(s, step.actor, step.tenant, step.now)
    ensures KeyChanged(s, step, Apply(s, step).0, Apply(s, step).1)
  {
    var s1 := Passed(s, step, IdentityApiKeysManage);
    OnlyUsersManage(s, step.actor, step.tenant, step.now);
    if step.maybePermissions.Some? {
      GrantIff(step.maybePermissions.value, GetPermissions(s, step.actor, step.tenant, step.now).1);
    }
    UpdateKeyDecision(s, s1, step);
  }

  lemma UpdateKeyDecision(s: State, s1: State, step: Step)
    requires s1 == s.(clock := step.now, cache := s1.cache) && step.UpdateApiKey? && step.actor.UserActor?
    requires GetPermissions(s1, step.actor, step.tenant, step.now).1 == GetPermissions(s, step.actor, step.tenant, step.now).1
    requires step.maybePermissions.Some? ==> GrantDecided(step.maybePermissions.value, GetPermissions(s, step.actor, step.tenant, step.now).1)
    ensures KeyChanged(s, step, Decided(s1, DecideUpdateKey(s1, step)).0, DecideUpdateKey(s1, step))
  {
    ChangeDecision(s, s1, step);
  }

  lemma KeyAfter(key: ApiKey, name: Option<string>, permissions: Option<seq<Permission>>)
    requires RenamedKey(key, name).Ok? && RepermittedKey(RenamedKey(key, name).value, permissions).Ok?
    ensures
      var after := RepermittedKey(RenamedKey(key, name).value, permissions).value;
      && after == key.(name := if name.Some? then Trim(name.value) else key.name, permissions := after.permissions)
      && (permissions == None ==> after.permissions == key.permissions)
      && (permissions.Some? ==> SameGrant(after.permissions, permissions.value))
  {}

  lemma ChangeDecision(s: State, s1: State, step: Step)
    requires s1 == s.(clock := step.now, cache := s1.cache) && step.UpdateApiKey?
    ensures KeyRewritten(s, step, Decided(s1, ChangedKey(s1, step)).0, ChangedKey(s1, step))
  {
    if ChangedKey(s1, step).Ok? {
      KeyAfter(s.keys[step.key], step.maybeName, step.maybePermissions);
    }
  }

  ghost predicate KeyRevoked(s: State, step: Step, s': State, outcome: Outcome)
    requires step.RevokeApiKey?
  {
    if step.key !in s.keys || s.keys[step.key].tenantId != step.tenant then FailsWith(s, s', step, outcome, ApiKeyNotFound)
    else if s.keys[step.key].revokedAt.Some? then FailsWith(s, s', step, outcome, ApiKeyAlreadyRevoked)
    else
      outcome.Ok? && s' == s.(clock := step.now, cache := s'.cache, keys := s.keys[step.key := s.keys[step.key].(revokedAt := Some(step.now))])
  }

  lemma RevokeKeyOutcome(s: State, step: Step)
    requires Reachable(s) && Enabled(s, step) && step.RevokeApiKey? && IdentityApiKeysManage in Held(s, step.actor, step.tenant, step.now)
    ensures KeyRevoked(s, step, Apply(s, step).0, Apply(s, step).1)
  {
    var s1 := Passed(s, step, IdentityApiKeysManage);
    RevokeKeyDecision(s, s1, step);
  }

  lemma RevokeKeyDecision(s: State, s1: State, step: Step)
    requires s1 == s.(clock := step.now, cache := s1.cache) && step.RevokeApiKey?
    ensures KeyRevoked(s, step, Decided(s1, DecideRevokeKey(s1, step)).0, DecideRevokeKey(s1, step))
  {}
}
