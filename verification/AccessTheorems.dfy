/** What holds of the tenancy, role, invitation and API-key stores and of the permission cache over whole runs. */
module AccessTheorems {
  import opened Wrappers
  import opened Text
  import opened Users
  import opened Access
  import opened AccessUseCases
  import opened AccessInvariants
  import opened AccessProofs
  import ApiKeyToken

  // ---------------------------------------------------------------------------------------------
  // Every step keeps the invariant
  // ---------------------------------------------------------------------------------------------

  lemma AdvanceKeepsInvariant(s: State, now: int)
    requires Inv(s) && now >= s.clock
    ensures Inv(s.(clock := now))
  {
    var s' := s.(clock := now);
    assert forall tenant, user :: Coherent(s, tenant, user) ==> Coherent(s', tenant, user);
  }

  /** Filling the cache keeps it coherent: the resolver's loops compute the recomputed union. */
  lemma ReadKeepsCoherence(s: State, actor: Actor, tenant: Id, now: int)
    requires CacheCoherent(s)
    ensures CacheCoherent(GetPermissions(s, actor, tenant, now).0)
  {
    var s' := GetPermissions(s, actor, tenant, now).0;
    forall t, user ensures Coherent(s', t, user) {
      assert Coherent(s, t, user);
      CollectIsUnion(s.roles, t, RoleIdsFor(s.memberships, user, t));
    }
  }

  lemma ReadKeepsKeyEntries(s: State, actor: Actor, tenant: Id)
    requires KeysSound(s.keys, s.minted) && KeyCacheSound(s)
    ensures KeyCacheSound(GetPermissions(s, actor, tenant, s.clock).0)
  {}

  lemma OtherCacheKeepsInvariant(s: State, cache: map<CacheKey, CacheEntry>)
    requires Inv(s) && CacheCoherent(s.(cache := cache)) && KeyCacheSound(s.(cache := cache))
    ensures Inv(s.(cache := cache))
  {}

  lemma ReadChangesOnlyCache(s: State, actor: Actor, tenant: Id, now: int)
    ensures GetPermissions(s, actor, tenant, now).0 == s.(cache := GetPermissions(s, actor, tenant, now).0.cache)
  {}

  lemma ReadKeepsInvariant(s: State, actor: Actor, tenant: Id)
    requires Inv(s)
    ensures Inv(GetPermissions(s, actor, tenant, s.clock).0)
    ensures GetPermissions(s, actor, tenant, s.clock).0 == s.(cache := GetPermissions(s, actor, tenant, s.clock).0.cache)
  {
    ReadChangesOnlyCache(s, actor, tenant, s.clock);
    ReadKeepsCoherence(s, actor, tenant, s.clock);
    ReadKeepsKeyEntries(s, actor, tenant);
    OtherCacheKeepsInvariant(s, GetPermissions(s, actor, tenant, s.clock).0.cache);
  }

  lemma AuthorizeKeepsInvariant(s: State, step: Step)
    requires Inv(s) && s.clock == step.now
    ensures Inv(Authorize(s, step).0) && Authorize(s, step).0 == s.(cache := Authorize(s, step).0.cache)
  {
    if GuardOf(step).Some? {
      ReadKeepsInvariant(s, GuardOf(step).value.actor, GuardOf(step).value.tenant);
    }
  }

  /** The permissions that an API key's cached or stored entry can give never include the management of keys. */
  lemma KeyReadsNoManagement(s: State, key: Id, tenant: Id, now: int)
    requires KeysSound(s.keys, s.minted) && KeyCacheSound(s)
    ensures IsKeyBundle(GetPermissions(s, KeyActor(key), tenant, now).1)
  {}

  lemma KeyGuardRefuses(s: State, step: Step)
    requires KeysSound(s.keys, s.minted) && KeyCacheSound(s)
    requires (step.CreateApiKey? || step.UpdateApiKey? || step.RevokeApiKey?) && step.actor.KeyActor?
    ensures Authorize(s, step).1 == Some(Error.InsufficientPermission(IdentityApiKeysManage))
    ensures Authorize(s, step).0 == s.(cache := Authorize(s, step).0.cache)
  {
    assert GuardOf(step) == Some(Guard(step.actor, step.tenant, Some(IdentityApiKeysManage)));
    KeyReadsNoManagement(s, step.actor.id, step.tenant, step.now);
  }

  /** No API-key actor gets past a guard that asks for the management of keys. */
  lemma KeyActorIsRefused(s: State, step: Step)
    requires Inv(s) && step.now >= s.clock
    requires (step.CreateApiKey? || step.UpdateApiKey? || step.RevokeApiKey?) && step.actor.KeyActor?
    ensures Apply(s, step).1 == Err(Error.InsufficientPermission(IdentityApiKeysManage))
    ensures Apply(s, step).0 == s.(clock := step.now, cache := Apply(s, step).0.cache)
  {
    AdvanceKeepsInvariant(s, step.now);
    KeyGuardRefuses(s.(clock := step.now), step);
  }

  lemma CommitKeepsInvariant(s: State, d: Delta)
    requires Inv(s) && Justified(s, d)
    ensures Inv(Commit(s, d))
  {
    CommitKeepsIds(s, d);
    CommitKeepsRoles(s, d);
    CommitKeepsFounded(s, d);
    CommitKeepsEmails(s, d);
    CommitKeepsMemberships(s, d);
    CommitKeepsInvitations(s, d);
    CommitKeepsAccepted(s, d);
    CommitKeepsCache(s, d);
    CommitKeepsKeys(s, d);
    CommitKeepsKeyCache(s, d);
  }

  /** A use case either commits a justified change or, on an error, leaves every store alone. */
  ghost predicate CommitsJustified(s: State, outcome: Result<Delta, Error>, s': State) {
    match outcome
    case Err(_) => s' == s
    case Ok(d) => Justified(s, d) && s' == Commit(s, d)
  }

  lemma StepIsJustified(s: State, step: Step) returns (s1: State)
    requires Inv(s) && Enabled(s, step)
    ensures Inv(s1) && s1 == s.(clock := step.now, cache := s1.cache)
    ensures CommitsJustified(s1, Apply(s, step).1, Apply(s, step).0)
  {
    var s0 := s.(clock := step.now);
    AdvanceKeepsInvariant(s, step.now);
    AuthorizeKeepsInvariant(s0, step);
    s1 := Authorize(s0, step).0;
    if Apply(s, step).1.Ok? {
      if step.UpdateApiKey? && step.actor.KeyActor? {
        KeyActorIsRefused(s, step);
      } else {
        assert Enabled(s1, step);
        DecisionJustified(s1, step);
      }
    }
  }

  lemma StepKeepsInvariant(s: State, step: Step)
    requires Inv(s) && Enabled(s, step)
    ensures Inv(Apply(s, step).0)
  {
    var s1 := StepIsJustified(s, step);
    if Apply(s, step).1.Ok? {
      CommitKeepsInvariant(s1, Apply(s, step).1.value);
    }
  }

  // ---------------------------------------------------------------------------------------------
  // Runs
  // ---------------------------------------------------------------------------------------------

  ghost predicate Feasible(s: State, steps: seq<Step>)
    decreases |steps|
  {
    steps == [] || (Enabled(s, steps[0]) && Feasible(Apply(s, steps[0]).0, steps[1..]))
  }

  ghost function Exec(s: State, steps: seq<Step>): State
    decreases |steps|
  {
    if steps == [] then s else Exec(Apply(s, steps[0]).0, steps[1..])
  }

  lemma {:induction false} RunKeepsInvariant(s: State, steps: seq<Step>)
    requires Inv(s) && Feasible(s, steps)
    ensures Inv(Exec(s, steps))
    decreases |steps|
  {
    if steps != [] {
      StepKeepsInvariant(s, steps[0]);
      RunKeepsInvariant(Apply(s, steps[0]).0, steps[1..]);
    }
  }

  lemma StartIsSound()
    ensures Inv(Start)
  {}

  // ---------------------------------------------------------------------------------------------
  // The permission cache
  // ---------------------------------------------------------------------------------------------

  lemma CoherentReads(s: State, user: Id, tenant: Id, now: int)
    requires CacheCoherent(s)
    ensures Elements(GetPermissions(s, UserActor(user), tenant, now).1) == Effective(s.memberships, s.roles, user, tenant)
  {
    assert Coherent(s, tenant, user);
    CollectIsUnion(s.roles, tenant, RoleIdsFor(s.memberships, user, tenant));
  }

  /**
   * Between any two use cases of any run, what a user is granted, whether it comes from the cache or not, is the union
   * of the permissions of the tenant's own roles that the user's active membership names.
   */
  lemma CachedEqualsRecomputed(steps: seq<Step>, user: Id, tenant: Id, now: int)
    requires Feasible(Start, steps)
    ensures
      var s := Exec(Start, steps);
      Elements(GetPermissions(s, UserActor(user), tenant, now).1) == Effective(s.memberships, s.roles, user, tenant)
  {
    StartIsSound();
    RunKeepsInvariant(Start, steps);
    CoherentReads(Exec(Start, steps), user, tenant, now);
  }

  // ---------------------------------------------------------------------------------------------
  // What history keeps
  // ---------------------------------------------------------------------------------------------

  ghost predicate FoundersRemembered(before: map<Id, Founding>, after: map<Id, Founding>) {
    forall t :: t in before ==> t in after && after[t] == before[t]
  }

  ghost predicate KeysRemembered(s: State, s': State) {
    forall k :: k in s.minted && k in s.keys ==>
      k in s'.minted && k in s'.keys && s'.minted[k] == s.minted[k] && SameIdentity(s.keys[k], s'.keys[k])
  }

  /** Recorded history is never rewritten, and keys are neither deleted nor re-identified. */
  ghost predicate Remembers(s: State, s': State) {
    FoundersRemembered(s.founding, s'.founding) && KeysRemembered(s, s')
  }

  lemma CommitRemembersFounders(s: State, d: Delta)
    requires Justified(s, d)
    ensures FoundersRemembered(s.founding, Commit(s, d).founding)
  {}

  lemma MintingRemembersKeys(s: State, d: Delta)
    requires s.keys.Keys <= s.used && d.KeyMinted? && IsFresh(s, d.keyId)
    ensures KeysRemembered(s, Commit(s, d))
  {}

  lemma UpdatingRemembersKeys(s: State, d: Delta)
    requires d.KeyUpdated? && d.keyId in s.keys && SameIdentity(s.keys[d.keyId], d.key)
    ensures KeysRemembered(s, Commit(s, d))
  {}

  lemma CommitRemembersKeys(s: State, d: Delta)
    requires IdsUsed(s) && Justified(s, d)
    ensures KeysRemembered(s, Commit(s, d))
  {
    if d.KeyMinted? {
      MintingRemembersKeys(s, d);
    } else if d.KeyUpdated? {
      UpdatingRemembersKeys(s, d);
    } else {
      assert Commit(s, d).keys == s.keys && Commit(s, d).minted == s.minted;
    }
  }

  lemma CommitRemembers(s: State, outcome: Result<Delta, Error>, s': State)
    requires IdsUsed(s) && CommitsJustified(s, outcome, s')
    ensures Remembers(s, s')
  {
    if outcome.Ok? {
      CommitRemembersFounders(s, outcome.value);
      CommitRemembersKeys(s, outcome.value);
    }
  }

  lemma StepRemembers(s: State, step: Step)
    requires Inv(s) && Enabled(s, step)
    ensures Remembers(s, Apply(s, step).0)
  {
    var s1 := StepIsJustified(s, step);
    CommitRemembers(s1, Apply(s, step).1, Apply(s, step).0);
    RemembersTransitively(s, s1, Apply(s, step).0);
  }

  lemma RemembersTransitively(a: State, b: State, c: State)
    requires Remembers(a, b) && Remembers(b, c)
    ensures Remembers(a, c)
  {}

  lemma {:induction false} RunRemembers(s: State, steps: seq<Step>)
    requires Inv(s) && Feasible(s, steps)
    ensures Remembers(s, Exec(s, steps))
    decreases |steps|
  {
    if steps != [] {
      StepKeepsInvariant(s, steps[0]);
      StepRemembers(s, steps[0]);
      RunRemembers(Apply(s, steps[0]).0, steps[1..]);
      RemembersTransitively(s, Apply(s, steps[0]).0, Exec(s, steps));
    }
  }

  // ---------------------------------------------------------------------------------------------
  // Owners
  // ---------------------------------------------------------------------------------------------

  /** The tenant's one and only holder of the Owner role is this membership, active, with that role alone. */
  ghost predicate HasSoleOwner(s: State, tenant: Id, owner: Id, membership: Id, user: Id) {
    && FindOwner(s.roles, tenant) == Some(owner)
    && Holders(s.memberships, tenant, owner) == {membership}
    && s.memberships[membership] == Membership(tenant, user, [owner], Active)
  }

  lemma FoundedHasSoleOwner(s: State, tenant: Id)
    requires Inv(s) && tenant in s.founding
    ensures HasSoleOwner(s, tenant, s.founding[tenant].ownerRole, s.founding[tenant].membershipId, s.founding[tenant].userId)
  {}

  lemma CreationIsRecorded(s: State, step: Step)
    requires step.CreateTenant? && Apply(s, step).1.Ok?
    ensures step.newTenant in Apply(s, step).0.founding
    ensures Apply(s, step).0.founding[step.newTenant] == Founding(step.ownerRole, step.newId, step.owner)
  {}

  /** In every run a created tenant has, from then on, exactly one Owner: the founder, whose membership nothing changes. */
  lemma OwnerForever(before: seq<Step>, step: Step, after: seq<Step>)
    requires Feasible(Start, before) && step.CreateTenant?
    requires Enabled(Exec(Start, before), step) && Apply(Exec(Start, before), step).1.Ok?
    requires Feasible(Apply(Exec(Start, before), step).0, after)
    ensures HasSoleOwner(Exec(Apply(Exec(Start, before), step).0, after), step.newTenant, step.ownerRole, step.newId, step.owner)
  {
    StartIsSound();
    RunKeepsInvariant(Start, before);
    FoundedForever(Exec(Start, before), step, after);
  }

  lemma FoundedForever(s: State, step: Step, steps: seq<Step>)
    requires Inv(s) && step.CreateTenant? && Enabled(s, step) && Apply(s, step).1.Ok? && Feasible(Apply(s, step).0, steps)
    ensures HasSoleOwner(Exec(Apply(s, step).0, steps), step.newTenant, step.ownerRole, step.newId, step.owner)
  {
    CreationIsRecorded(s, step);
    StepKeepsInvariant(s, step);
    RunRemembers(Apply(s, step).0, steps);
    RunKeepsInvariant(Apply(s, step).0, steps);
    FoundedHasSoleOwner(Exec(Apply(s, step).0, steps), step.newTenant);
  }

  function ActiveHolders(memberships: map<Id, Membership>, tenant: Id, role: Id): set<Id> {
    set m | m in Holders(memberships, tenant, role) && memberships[m].status == Active
  }

  lemma DecidedRoles(s: State, step: Step)
    requires step.ReplaceRoles? && DecideReplace(s, step).Ok?
    ensures
      var d := DecideReplace(s, step).value;
      && step.membership in s.memberships && d.RolesReplaced? && d.membershipId == step.membership
      && (FindOwner(s.roles, step.tenant).Some? ==> FindOwner(s.roles, step.tenant).value !in d.membership.roleIds)
      && d.membership == s.memberships[step.membership].(roleIds := d.membership.roleIds)
  {}

  lemma DecidedRolesKeepAnOwner(s: State, step: Step)
    requires step.ReplaceRoles? && DecideReplace(s, step).Ok? && FindOwner(s.roles, step.tenant).Some?
    requires ActiveHolders(s.memberships, step.tenant, FindOwner(s.roles, step.tenant).value) != {}
    ensures DecideReplace(s, step).value.RolesReplaced?
    ensures
      var d := DecideReplace(s, step).value;
      ActiveHolders(s.memberships[d.membershipId := d.membership], step.tenant, FindOwner(s.roles, step.tenant).value) != {}
  {
    DecidedRoles(s, step);
    var owner, d := FindOwner(s.roles, step.tenant).value, DecideReplace(s, step).value;
    var after := s.memberships[d.membershipId := d.membership];
    var m :| m in ActiveHolders(s.memberships, step.tenant, owner);
    if owner in s.memberships[step.membership].roleIds {
      var n :| n in OtherActiveHolders(s.memberships, step.tenant, owner, step.membership);
      assert n in ActiveHolders(after, step.tenant, owner);
    } else {
      assert m in ActiveHolders(after, step.tenant, owner);
    }
  }

  /** From any state at all: role replacement keeps an active Owner where there was one. */
  lemma ReplaceKeepsAnOwner(s: State, step: Step)
    requires step.ReplaceRoles? && FindOwner(s.roles, step.tenant).Some?
    requires ActiveHolders(s.memberships, step.tenant, FindOwner(s.roles, step.tenant).value) != {}
    ensures ActiveHolders(Apply(s, step).0.memberships, step.tenant, FindOwner(s.roles, step.tenant).value) != {}
  {
    var s1 := Authorize(s.(clock := step.now), step).0;
    assert s1.memberships == s.memberships && s1.roles == s.roles;
    if Apply(s, step).1.Ok? {
      DecidedRolesKeepAnOwner(s1, step);
    }
  }

  // ---------------------------------------------------------------------------------------------
  // Uniqueness
  // ---------------------------------------------------------------------------------------------

  /** In every run: one user per email, one membership per user and tenant, one open invitation per tenant and email. */
  lemma TenancyUniqueness(steps: seq<Step>)
    requires Feasible(Start, steps)
    ensures
      var s := Exec(Start, steps);
      && (forall u, v :: u in s.users && v in s.users && s.users[u].email == s.users[v].email ==> u == v)
      && (forall m, n, u, t :: Links(s.memberships, m, u, t) && Links(s.memberships, n, u, t) ==> m == n)
      && (forall i, j, t, e :: IsPendingFor(s.invitations, i, t, e) && IsPendingFor(s.invitations, j, t, e) ==> i == j)
      && (forall m, n :: m in s.accepted && n in s.accepted && s.accepted[m] == s.accepted[n] ==> m == n)
  {
    StartIsSound();
    RunKeepsInvariant(Start, steps);
  }

  /** In every run: role names are unique in a tenant, and a role's list is the catalog-ordered list of its permissions. */
  lemma RolesStaySound(steps: seq<Step>, r: Id, q: Id)
    requires Feasible(Start, steps) && r in Exec(Start, steps).roles && q in Exec(Start, steps).roles
    ensures
      var roles := Exec(Start, steps).roles;
      && RoleSound(roles[r])
      && (roles[r].tenantId == roles[q].tenantId && roles[r].name == roles[q].name ==> r == q)
      && (Elements(roles[r].permissions) == Elements(roles[q].permissions) ==> roles[r].permissions == roles[q].permissions)
  {
    StartIsSound();
    RunKeepsInvariant(Start, steps);
    var roles := Exec(Start, steps).roles;
    if Elements(roles[r].permissions) == Elements(roles[q].permissions) {
      assert forall p :: p in roles[r].permissions <==> p in Elements(roles[q].permissions);
      BundleIsCanonical(roles[r].permissions, roles[q].permissions);
    }
  }

  // ---------------------------------------------------------------------------------------------
  // Invitation tokens
  // ---------------------------------------------------------------------------------------------

  /** The token was issued, and any invitation still stored under it is consumed. */
  ghost predicate IsSpent(s: State, token: string) {
    token in s.tokens && forall i :: HasToken(s.invitations, i, Digest(token)) ==> s.invitations[i].consumedAt.Some?
  }

  lemma CommitKeepsSpent(s: State, d: Delta, token: string)
    requires Justified(s, d) && IsSpent(s, token)
    ensures IsSpent(Commit(s, d), token)
  {
    var s' := Commit(s, d);
    forall i | HasToken(s'.invitations, i, Digest(token)) ensures s'.invitations[i].consumedAt.Some? {
      if d.MemberInvited? {
        DigestIsInjective(d.token, token);
      }
      assert HasToken(s.invitations, i, Digest(token));
    }
  }

  lemma {:induction false} InvitationStaysSpent(s: State, steps: seq<Step>, token: string)
    requires Inv(s) && Feasible(s, steps) && IsSpent(s, token)
    ensures IsSpent(Exec(s, steps), token)
    decreases |steps|
  {
    if steps != [] {
      var s1 := StepIsJustified(s, steps[0]);
      assert IsSpent(s1, token);
      if Apply(s, steps[0]).1.Ok? {
        CommitKeepsSpent(s1, Apply(s, steps[0]).1.value, token);
      }
      StepKeepsInvariant(s, steps[0]);
      InvitationStaysSpent(Apply(s, steps[0]).0, steps[1..], token);
    }
  }

  lemma AcceptedInvitation(s: State, step: Step)
    requires step.AcceptInvitation? && Apply(s, step).1.Ok?
    ensures FindInvitation(s.invitations, Digest(step.token)).Some?
    ensures Apply(s, step).0.invitations == Consume(s.invitations, FindInvitation(s.invitations, Digest(step.token)), step.now)
    ensures Apply(s, step).0.tokens == s.tokens
  {}

  lemma AcceptSpends(s: State, step: Step)
    requires InvitationsUnique(s.invitations, s.tokens) && step.AcceptInvitation? && Apply(s, step).1.Ok?
    ensures IsSpent(Apply(s, step).0, step.token)
  {
    AcceptedInvitation(s, step);
    var found := FindInvitation(s.invitations, Digest(step.token)).value;
    assert IssuedHash(s.tokens, Digest(step.token));
    var t :| t in s.tokens && Digest(step.token) == Digest(t);
    DigestIsInjective(t, step.token);
    forall i | HasToken(Apply(s, step).0.invitations, i, Digest(step.token)) ensures i == found {
      assert HasToken(s.invitations, i, Digest(step.token));
    }
  }

  /** In every run an invitation token that was accepted once is refused in every later state. */
  lemma InvitationTokenWorksOnce(before: seq<Step>, first: Step, after: seq<Step>, second: Step)
    requires Feasible(Start, before) && first.AcceptInvitation?
    requires Enabled(Exec(Start, before), first) && Apply(Exec(Start, before), first).1.Ok?
    requires Feasible(Apply(Exec(Start, before), first).0, after)
    requires second.AcceptInvitation? && second.token == first.token
    ensures Apply(Exec(Apply(Exec(Start, before), first).0, after), second).1 == Err(InvalidInvitationToken)
  {
    StartIsSound();
    RunKeepsInvariant(Start, before);
    var s := Exec(Start, before);
    AcceptSpends(s, first);
    StepKeepsInvariant(s, first);
    InvitationStaysSpent(Apply(s, first).0, after, first.token);
    SpentIsRefused(Exec(Apply(s, first).0, after), second);
  }

  lemma SpentIsRefused(s: State, step: Step)
    requires step.AcceptInvitation? && IsSpent(s, step.token)
    ensures Apply(s, step).1 == Err(InvalidInvitationToken)
  {}

  // ---------------------------------------------------------------------------------------------
  // API keys
  // ---------------------------------------------------------------------------------------------

  /** In every run: stored and cached key permissions are in the catalog and never include the management of keys. */
  lemma KeysNeverEscalate(steps: seq<Step>, key: Id, tenant: Id, now: int)
    requires Feasible(Start, steps)
    ensures
      var s := Exec(Start, steps);
      && IsKeyBundle(GetPermissions(s, KeyActor(key), tenant, now).1)
      && (key in s.keys ==> IsKeyBundle(s.keys[key].permissions) && NoRepeats(s.keys[key].permissions))
  {
    StartIsSound();
    RunKeepsInvariant(Start, steps);
    KeyReadsNoManagement(Exec(Start, steps), key, tenant, now);
  }

  lemma NormalizedKeepElements(permissions: seq<Permission>)
    requires NormalizeKeyPermissions(permissions).Ok?
    ensures Elements(NormalizeKeyPermissions(permissions).value) == Elements(permissions) != {}
  {
    assert permissions[0] in Elements(permissions);
  }

  lemma CreatedWithinHeld(s: State, step: Step)
    requires step.CreateApiKey? && DecideCreateKey(s, step).Ok?
    ensures step.actor.UserActor? && Granted(DecideCreateKey(s, step)) != {}
    ensures Granted(DecideCreateKey(s, step)) <= Elements(GetPermissions(s, step.actor, step.tenant, step.now).1)
  {
    NormalizedKeepElements(step.permissions);
  }

  lemma UpdatedWithinHeld(s: State, step: Step)
    requires step.UpdateApiKey? && step.actor.UserActor? && step.maybePermissions.Some? && DecideUpdateKey(s, step).Ok?
    ensures Granted(DecideUpdateKey(s, step)) != {}
    ensures Granted(DecideUpdateKey(s, step)) <= Elements(GetPermissions(s, step.actor, step.tenant, step.now).1)
  {
    NormalizedKeepElements(step.maybePermissions.value);
  }

  lemma GrantedWithinHeld(s: State, step: Step)
    requires Decide(s, step).Ok? && (step.CreateApiKey? || (step.UpdateApiKey? && step.actor.UserActor? && step.maybePermissions.Some?))
    ensures step.actor.UserActor? && Granted(Decide(s, step)) != {}
    ensures Granted(Decide(s, step)) <= Elements(GetPermissions(s, step.actor, step.tenant, step.now).1)
  {
    if step.CreateApiKey? {
      CreatedWithinHeld(s, step);
    } else {
      UpdatedWithinHeld(s, step);
    }
  }

  /** In every run an API-key actor is refused by every use case that creates, changes or revokes keys, and nothing is stored. */
  lemma KeyActorsManageNoKeys(steps: seq<Step>, step: Step)
    requires Feasible(Start, steps) && Enabled(Exec(Start, steps), step)
    requires (step.CreateApiKey? || step.UpdateApiKey? || step.RevokeApiKey?) && step.actor.KeyActor?
    ensures
      var (s', outcome) := Apply(Exec(Start, steps), step);
      && outcome == Err(Error.InsufficientPermission(IdentityApiKeysManage))
      && s' == Exec(Start, steps).(clock := step.now, cache := s'.cache)
  {
    StartIsSound();
    RunKeepsInvariant(Start, steps);
    KeyActorIsRefused(Exec(Start, steps), step);
  }

  /** The permissions that a use case stores in a key. */
  function Granted(outcome: Result<Delta, Error>): set<Permission> {
    match outcome
    case Ok(KeyMinted(_, key, _)) => Elements(key.permissions)
    case Ok(KeyUpdated(_, key)) => Elements(key.permissions)
    case _ => {}
  }

  /** In every run what is put into a key, minting or changing it, is put there by a user who holds it at that moment. */
  lemma KeyWithinGrantor(steps: seq<Step>, step: Step)
    requires Feasible(Start, steps) && Enabled(Exec(Start, steps), step) && Apply(Exec(Start, steps), step).1.Ok?
    requires step.CreateApiKey? || (step.UpdateApiKey? && step.maybePermissions.Some?)
    ensures step.actor.UserActor?
    ensures
      var s := Exec(Start, steps);
      var granted := Granted(Apply(s, step).1);
      granted != {} && granted <= Effective(s.memberships, s.roles, step.actor.id, step.tenant)
  {
    StartIsSound();
    RunKeepsInvariant(Start, steps);
    var s := Exec(Start, steps);
    if step.actor.KeyActor? {
      KeyActorIsRefused(s, step);
    } else {
      var s0 := s.(clock := step.now);
      AdvanceKeepsInvariant(s, step.now);
      AuthorizeKeepsInvariant(s0, step);
      GrantedWithinHeld(Authorize(s0, step).0, step);
      CoherentReads(Authorize(s0, step).0, step.actor.id, step.tenant, step.now);
    }
  }

  lemma UnusableKeyGrantsNothing(s: State, key: Id, tenant: Id, now: int)
    requires KeyCacheSound(s) && key in s.keys
    requires
      || (s.keys[key].expiresAt.Some? && now >= s.keys[key].expiresAt.value + 60_000)
      || (s.keys[key].revokedAt.Some?
          && (tenant == s.keys[key].tenantId || now >= s.keys[key].revokedAt.value + 60_000))
    ensures GetPermissions(s, KeyActor(key), tenant, now).1 == []
  {}

  /** One minute after its expiry an expired key grants nothing anywhere, whatever was cached. */
  lemma ExpiredKeyIsForgotten(steps: seq<Step>, key: Id, tenant: Id, now: int)
    requires Feasible(Start, steps)
    requires key in Exec(Start, steps).keys && Exec(Start, steps).keys[key].expiresAt.Some?
    requires now >= Exec(Start, steps).keys[key].expiresAt.value + 60_000
    ensures GetPermissions(Exec(Start, steps), KeyActor(key), tenant, now).1 == []
  {
    StartIsSound();
    RunKeepsInvariant(Start, steps);
    UnusableKeyGrantsNothing(Exec(Start, steps), key, tenant, now);
  }

  /** A revoked key grants nothing in its own tenant from the moment it is revoked, and nothing anywhere from a minute after that. */
  lemma RevokedKeyIsForgotten(steps: seq<Step>, key: Id, tenant: Id, now: int)
    requires Feasible(Start, steps)
    requires key in Exec(Start, steps).keys && Exec(Start, steps).keys[key].revokedAt.Some?
    requires
      var revoked := Exec(Start, steps).keys[key];
      tenant == revoked.tenantId || now >= revoked.revokedAt.value + 60_000
    ensures GetPermissions(Exec(Start, steps), KeyActor(key), tenant, now).1 == []
  {
    StartIsSound();
    RunKeepsInvariant(Start, steps);
    UnusableKeyGrantsNothing(Exec(Start, steps), key, tenant, now);
  }

  ghost function FindByPrefix(keys: map<Id, ApiKey>, prefix: string): (found: Option<Id>)
    ensures found.Some? ==> HasPrefix(keys, found.value, prefix)
    ensures found == None ==> forall k :: !HasPrefix(keys, k, prefix)
  {
    if exists k :: HasPrefix(keys, k, prefix) then var k :| HasPrefix(keys, k, prefix); Some(k) else None
  }

  ghost function ResolveApiKey(keys: map<Id, ApiKey>, token: string, now: int): Option<Id> {
    match ApiKeyToken.Parse(token)
    case None => None
    case Some(prefix) =>
      var found := FindByPrefix(keys, prefix);
      if found == None || !KeyUsable(keys[found.value], now) || keys[found.value].secretHash != Digest(token) then None else found
  }

  /** A token resolves to a key exactly when it is the token minted for that key and the key is neither revoked nor expired. */
  lemma TokenResolvesToItsKey(s: State, token: string, key: Id, now: int)
    requires Inv(s)
    ensures
      ResolveApiKey(s.keys, token, now) == Some(key) <==>
      && key in s.keys && s.minted[key] == token && s.keys[key].revokedAt == None
      && (s.keys[key].expiresAt == None || s.keys[key].expiresAt.value > now)
  {
    if key in s.keys && s.minted[key] == token {
      assert KeySound(s.keys[key], token) && HasPrefix(s.keys, key, s.keys[key].prefix);
    }
    if ResolveApiKey(s.keys, token, now) == Some(key) {
      assert KeySound(s.keys[key], s.minted[key]);
      DigestIsInjective(s.minted[key], token);
    }
  }

  lemma MintIsRecorded(s: State, step: Step)
    requires step.CreateApiKey? && Apply(s, step).1.Ok?
    ensures
      var s' := Apply(s, step).0;
      && step.newId in s'.keys && step.newId in s'.minted && s'.keys[step.newId].expiresAt == step.keyExpiresAt
      && s'.minted[step.newId] == ApiKeyToken.Create(step.newPrefix, step.newSecret)
  {}

  /** In every run a minted token resolves to its own key in every later state until that key is revoked or expires. */
  lemma MintedTokenResolves(before: seq<Step>, step: Step, after: seq<Step>, now: int)
    requires Feasible(Start, before) && step.CreateApiKey?
    requires Enabled(Exec(Start, before), step) && Apply(Exec(Start, before), step).1.Ok?
    requires Feasible(Apply(Exec(Start, before), step).0, after)
    ensures
      var s' := Exec(Apply(Exec(Start, before), step).0, after);
      && step.newId in s'.keys && s'.keys[step.newId].expiresAt == step.keyExpiresAt
      && (ResolveApiKey(s'.keys, ApiKeyToken.Create(step.newPrefix, step.newSecret), now) == Some(step.newId)
          <==> s'.keys[step.newId].revokedAt == None && (step.keyExpiresAt == None || step.keyExpiresAt.value > now))
  {
    StartIsSound();
    RunKeepsInvariant(Start, before);
    var s := Exec(Start, before);
    MintIsRecorded(s, step);
    StepKeepsInvariant(s, step);
    RunRemembers(Apply(s, step).0, after);
    RunKeepsInvariant(Apply(s, step).0, after);
    TokenResolvesToItsKey(Exec(Apply(s, step).0, after), ApiKeyToken.Create(step.newPrefix, step.newSecret), step.newId, now);
  }
}
