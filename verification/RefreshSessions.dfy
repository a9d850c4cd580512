/**
 * Refresh-token families and password credentials as a step system. Every use case is one transaction on
 * stores of values: it either commits its whole effect or, on an error thrown out of the unit of work, nothing.
 */
module RefreshSessions {
  import opened Wrappers
  import opened Text
  import opened Users

  type SessionId = nat
  type FamilyId = nat

  const REFRESH_TTL_MS: int := 14 * 24 * 60 * 60 * 1000
  const PASSWORD_RESET_TTL_MS: int := 60 * 60 * 1000

  datatype Session = Session(userId: UserId, familyId: FamilyId, tokenHash: string, expiresAt: int, revokedAt: Option<int>)

  datatype ResetToken = ResetToken(tokenHash: string, expiresAt: int, consumedAt: Option<int>)

  /** `ids`, `families` and `tokens` are everything ever generated; generated values are fresh with respect to them. */
  datatype State = State(
    users: map<UserId, User>,
    passwords: map<UserId, string>,
    resets: map<UserId, ResetToken>,
    sessions: map<SessionId, Session>,
    ids: set<SessionId>,
    families: set<FamilyId>,
    tokens: set<string>,
    clock: int)

  datatype Error =
    | InvalidCredentials
    | UserSuspended
    | InvalidRefreshToken
    | InvalidPassword
    | InvalidResetToken
    | UserNotFound
    | PasswordAlreadySet

  datatype Outcome =
    | Done
    | LoggedIn(userId: UserId, token: string)
    | Rotated(userId: UserId, token: string)
    | Failed(error: Error)

  datatype Step =
    | UserAppears(userId: UserId, user: User, initial: Option<string>, now: int)
    | Login(email: string, password: string, newToken: string, newId: SessionId, newFamily: FamilyId, now: int)
    | Rotate(token: string, newToken: string, newId: SessionId, now: int)
    | Logout(maybeToken: Option<string>, now: int)
    | RequestReset(email: string, newToken: string, now: int)
    | ResetPassword(token: string, password: string, now: int)
    | SetOrChange(actor: UserId, current: Option<string>, password: string, now: int)
    | PurgeSessions(purged: set<SessionId>, now: int)
    | PurgeResets(purgedUsers: set<UserId>, now: int)

  const Start: State := State(map[], map[], map[], map[], {}, {}, {}, 0)

  // ---------------------------------------------------------------------------------------------
  // Entities and repository statements
  // ---------------------------------------------------------------------------------------------

  predicate SessionActive(session: Session, now: int) {
    session.revokedAt == None && session.expiresAt > now
  }

  predicate ResetActive(token: ResetToken, now: int) {
    token.consumedAt == None && token.expiresAt > now
  }

  function Revoked(session: Session, at: int): Session {
    if session.revokedAt == None then session.(revokedAt := Some(at)) else session
  }

  function RevokeFamily(sessions: map<SessionId, Session>, family: FamilyId, at: int): map<SessionId, Session> {
    map id | id in sessions :: if sessions[id].familyId == family then Revoked(sessions[id], at) else sessions[id]
  }

  function RevokeAllForUser(sessions: map<SessionId, Session>, user: UserId, at: int): map<SessionId, Session> {
    map id | id in sessions :: if sessions[id].userId == user then Revoked(sessions[id], at) else sessions[id]
  }

  predicate HasHash(sessions: map<SessionId, Session>, id: SessionId, hash: string) {
    id in sessions && sessions[id].tokenHash == hash
  }

  ghost function FindSession(sessions: map<SessionId, Session>, hash: string): (found: Option<SessionId>)
    ensures found.Some? ==> HasHash(sessions, found.value, hash)
    ensures found == None ==> forall id :: !HasHash(sessions, id, hash)
  {
    if exists id :: HasHash(sessions, id, hash) then var id :| HasHash(sessions, id, hash); Some(id) else None
  }

  predicate ResetHasHash(resets: map<UserId, ResetToken>, user: UserId, hash: string) {
    user in resets && resets[user].tokenHash == hash
  }

  ghost function FindReset(resets: map<UserId, ResetToken>, hash: string): (found: Option<UserId>)
    ensures found.Some? ==> ResetHasHash(resets, found.value, hash)
    ensures found == None ==> forall u :: !ResetHasHash(resets, u, hash)
  {
    if exists u :: ResetHasHash(resets, u, hash) then var u :| ResetHasHash(resets, u, hash); Some(u) else None
  }

  // ---------------------------------------------------------------------------------------------
  // Steps
  // ---------------------------------------------------------------------------------------------

  predicate Enabled(s: State, step: Step) {
    && step.now >= s.clock
    && match step
       case UserAppears(userId, user, _, _) =>
         userId !in s.users && userId !in s.passwords && forall u :: u in s.users ==> s.users[u].email != user.email
       case Login(_, _, newToken, newId, newFamily, _) => newToken !in s.tokens && newId !in s.ids && newFamily !in s.families
       case Rotate(_, newToken, newId, _) => newToken !in s.tokens && newId !in s.ids
       case RequestReset(_, newToken, _) => newToken !in s.tokens
       case PurgeSessions(purged, now) => forall id :: id in purged ==> id in s.sessions && !SessionActive(s.sessions[id], now)
       case PurgeResets(users, now) => forall u :: u in users ==> u in s.resets && !ResetActive(s.resets[u], now)
       case _ => true
  }

  ghost function ApplyLogin(s: State, step: Step): (State, Outcome)
    requires step.Login?
  {
    var user := FindUser(s.users, Normalize(step.email));
    if user == None || user.value !in s.passwords || !VerifyHash(step.password, s.passwords[user.value])
    then (s, Failed(InvalidCredentials))
    else if s.users[user.value].suspended then (s, Failed(UserSuspended))
    else
      var session := Session(user.value, step.newFamily, Digest(step.newToken), step.now + REFRESH_TTL_MS, None);
      (s.(sessions := s.sessions[step.newId := session], ids := s.ids + {step.newId},
          families := s.families + {step.newFamily}, tokens := s.tokens + {step.newToken}),
       LoggedIn(user.value, step.newToken))
  }

  /** Reuse is reported after the unit of work has returned, so the revocation of the family commits. */
  ghost function ApplyRotate(s: State, step: Step): (State, Outcome)
    requires step.Rotate?
  {
    var found := FindSession(s.sessions, Digest(step.token));
    if found == None then (s, Failed(InvalidRefreshToken))
    else
      var session := s.sessions[found.value];
      if session.revokedAt.Some? then
        (s.(sessions := RevokeFamily(s.sessions, session.familyId, step.now)), Failed(InvalidRefreshToken))
      else if !SessionActive(session, step.now) then (s, Failed(InvalidRefreshToken))
      else
        var next := Session(session.userId, session.familyId, Digest(step.newToken), step.now + REFRESH_TTL_MS, None);
        (s.(sessions := s.sessions[found.value := session.(revokedAt := Some(step.now))][step.newId := next],
            ids := s.ids + {step.newId}, tokens := s.tokens + {step.newToken}),
         Rotated(session.userId, step.newToken))
  }

  ghost function ApplyLogout(s: State, step: Step): (State, Outcome)
    requires step.Logout?
  {
    if step.maybeToken == None || step.maybeToken.value == "" then (s, Done)
    else
      var found := FindSession(s.sessions, Digest(step.maybeToken.value));
      if found == None then (s, Done)
      else (s.(sessions := RevokeFamily(s.sessions, s.sessions[found.value].familyId, step.now)), Done)
  }

  ghost function ApplyRequestReset(s: State, step: Step): (State, Outcome)
    requires step.RequestReset?
  {
    var user := FindUser(s.users, Normalize(step.email));
    if user == None then (s, Done)
    else
      var token := ResetToken(Digest(step.newToken), step.now + PASSWORD_RESET_TTL_MS, None);
      (s.(resets := s.resets[user.value := token], tokens := s.tokens + {step.newToken}), Done)
  }

  ghost function ApplyReset(s: State, step: Step): (State, Outcome)
    requires step.ResetPassword?
  {
    if |step.password| < MIN_PASSWORD_LENGTH then (s, Failed(InvalidPassword))
    else
      var user := FindReset(s.resets, Digest(step.token));
      if user == None || !ResetActive(s.resets[user.value], step.now) || user.value !in s.passwords
      then (s, Failed(InvalidResetToken))
      else
        (s.(resets := s.resets[user.value := s.resets[user.value].(consumedAt := Some(step.now))],
            passwords := s.passwords[user.value := Hash(step.password)],
            sessions := RevokeAllForUser(s.sessions, user.value, step.now)),
         Done)
  }

  function ApplySetOrChange(s: State, step: Step): (State, Outcome)
    requires step.SetOrChange?
  {
    if |step.password| < MIN_PASSWORD_LENGTH then (s, Failed(InvalidPassword))
    else if step.actor !in s.users then (s, Failed(UserNotFound))
    else if step.actor !in s.passwords then
      if step.current.Some? then (s, Failed(InvalidCredentials))
      else (s.(passwords := s.passwords[step.actor := Hash(step.password)]), Done)
    else if step.current == None then (s, Failed(PasswordAlreadySet))
    else if !VerifyHash(step.current.value, s.passwords[step.actor]) then (s, Failed(InvalidCredentials))
    else
      (s.(passwords := s.passwords[step.actor := Hash(step.password)],
          sessions := RevokeAllForUser(s.sessions, step.actor, step.now)),
       Done)
  }

  ghost function ApplyCase(s: State, step: Step): (State, Outcome) {
    match step
    case UserAppears(userId, user, initial, _) =>
      (s.(users := s.users[userId := user],
          passwords := if initial.Some? then s.passwords[userId := Hash(initial.value)] else s.passwords), Done)
    case Login(_, _, _, _, _, _) => ApplyLogin(s, step)
    case Rotate(_, _, _, _) => ApplyRotate(s, step)
    case Logout(_, _) => ApplyLogout(s, step)
    case RequestReset(_, _, _) => ApplyRequestReset(s, step)
    case ResetPassword(_, _, _) => ApplyReset(s, step)
    case SetOrChange(_, _, _, _) => ApplySetOrChange(s, step)
    case PurgeSessions(purged, _) => (s.(sessions := s.sessions - purged), Done)
    case PurgeResets(users, _) => (s.(resets := s.resets - users), Done)
  }

  ghost function Apply(s: State, step: Step): (State, Outcome) {
    var (after, outcome) := ApplyCase(s, step);
    (after.(clock := step.now), outcome)
  }

  // ---------------------------------------------------------------------------------------------
  // The invariant
  // ---------------------------------------------------------------------------------------------

  /** Every stored session and reset token was issued. */
  predicate SessionsIssued(sessions: map<SessionId, Session>, ids: set<SessionId>, families: set<FamilyId>, tokens: set<string>) {
    forall id :: id in sessions ==>
      id in ids && sessions[id].familyId in families && IssuedHash(tokens, sessions[id].tokenHash)
  }

  predicate SessionsUnique(sessions: map<SessionId, Session>) {
    forall i, j :: i in sessions && j in sessions && sessions[i].tokenHash == sessions[j].tokenHash ==> i == j
  }

  /** Each family has at most one unrevoked session, and one user. */
  predicate OneLive(sessions: map<SessionId, Session>) {
    forall i, j :: i in sessions && j in sessions && sessions[i].familyId == sessions[j].familyId ==>
      && sessions[i].userId == sessions[j].userId
      && (sessions[i].revokedAt == None && sessions[j].revokedAt == None ==> i == j)
  }

  predicate ResetsSound(resets: map<UserId, ResetToken>, tokens: set<string>) {
    && (forall u :: u in resets ==> IssuedHash(tokens, resets[u].tokenHash))
    && (forall u, v :: u in resets && v in resets && resets[u].tokenHash == resets[v].tokenHash ==> u == v)
  }

  predicate SessionsSound(s: State) {
    SessionsIssued(s.sessions, s.ids, s.families, s.tokens) && SessionsUnique(s.sessions) && OneLive(s.sessions)
  }

  predicate Inv(s: State) {
    SessionsSound(s) && ResetsSound(s.resets, s.tokens) && EmailsDistinct(s.users)
  }

  lemma FreshHash(tokens: set<string>, token: string)
    requires token !in tokens
    ensures !IssuedHash(tokens, Digest(token))
  {
    forall t | t in tokens ensures Digest(t) != Digest(token) {
      DigestIsInjective(t, token);
    }
  }

  lemma IssuedStays(tokens: set<string>, more: set<string>)
    ensures forall hash :: IssuedHash(tokens, hash) ==> IssuedHash(tokens + more, hash)
    ensures forall t :: t in more ==> IssuedHash(tokens + more, Digest(t))
  {}

  /** What the steps other than login and rotation do to the sessions: drop some, revoke some. */
  ghost predicate Shrinks(before: map<SessionId, Session>, after: map<SessionId, Session>) {
    forall id :: id in after ==>
      && id in before
      && (after[id] == before[id] || (before[id].revokedAt == None && after[id] == before[id].(revokedAt := after[id].revokedAt)))
  }

  lemma ShrinkKeeps(before: map<SessionId, Session>, after: map<SessionId, Session>)
    requires SessionsUnique(before) && OneLive(before) && Shrinks(before, after)
    ensures SessionsUnique(after) && OneLive(after)
  {}

  /** Adding a session with a fresh hash keeps both, when its family has no other user and no other unrevoked session. */
  lemma AddKeeps(before: map<SessionId, Session>, id: SessionId, session: Session)
    requires SessionsUnique(before) && OneLive(before) && id !in before
    requires forall i :: i in before ==> before[i].tokenHash != session.tokenHash
    requires forall i :: i in before && before[i].familyId == session.familyId ==> before[i].userId == session.userId && before[i].revokedAt.Some?
    ensures SessionsUnique(before[id := session]) && OneLive(before[id := session])
  {}

  lemma LoginKeeps(s: State, step: Step)
    requires step.Login? && SessionsSound(s) && Enabled(s, step)
    ensures SessionsSound(ApplyLogin(s, step).0)
  {
    var (s', outcome) := ApplyLogin(s, step);
    if outcome.LoggedIn? {
      FreshHash(s.tokens, step.newToken);
      IssuedStays(s.tokens, {step.newToken});
      AddKeeps(s.sessions, step.newId, s'.sessions[step.newId]);
    }
  }

  lemma IssuedKeeps(before: map<SessionId, Session>, after: map<SessionId, Session>, id: SessionId, session: Session, s: State, token: string)
    requires SessionsIssued(before, s.ids, s.families, s.tokens) && Shrinks(before, after)
    requires session.familyId in s.families && session.tokenHash == Digest(token)
    ensures SessionsIssued(after[id := session], s.ids + {id}, s.families, s.tokens + {token})
  {}

  lemma RotationKeeps(s: State, step: Step)
    requires step.Rotate? && SessionsSound(s) && Enabled(s, step) && ApplyRotate(s, step).1.Rotated?
    ensures SessionsSound(ApplyRotate(s, step).0)
  {
    var found := FindSession(s.sessions, Digest(step.token)).value;
    var next := ApplyRotate(s, step).0.sessions[step.newId];
    var mid := s.sessions[found := s.sessions[found].(revokedAt := Some(step.now))];
    FreshHash(s.tokens, step.newToken);
    ShrinkKeeps(s.sessions, mid);
    AddKeeps(mid, step.newId, next);
    IssuedKeeps(s.sessions, mid, step.newId, next, s, step.newToken);
  }

  lemma RevocationKeeps(s: State, family: FamilyId, user: UserId, at: int)
    requires SessionsSound(s)
    ensures SessionsSound(s.(sessions := RevokeFamily(s.sessions, family, at)))
  {
    RevokeShrinks(s.sessions, family, user, at);
    ShrinkKeeps(s.sessions, RevokeFamily(s.sessions, family, at));
  }

  lemma RotateKeeps(s: State, step: Step)
    requires step.Rotate? && SessionsSound(s) && Enabled(s, step)
    ensures SessionsSound(ApplyRotate(s, step).0)
  {
    var found := FindSession(s.sessions, Digest(step.token));
    if ApplyRotate(s, step).1.Rotated? {
      RotationKeeps(s, step);
    } else if found.Some? {
      RevocationKeeps(s, s.sessions[found.value].familyId, 0, step.now);
    }
  }

  lemma RevokeShrinks(sessions: map<SessionId, Session>, family: FamilyId, user: UserId, at: int)
    ensures Shrinks(sessions, RevokeFamily(sessions, family, at)) && Shrinks(sessions, RevokeAllForUser(sessions, user, at))
  {}

  lemma OtherStepsShrink(s: State, step: Step)
    requires Enabled(s, step) && !step.Login? && !step.Rotate?
    ensures Shrinks(s.sessions, Apply(s, step).0.sessions)
    ensures var s' := Apply(s, step).0; s'.ids == s.ids && s'.families == s.families
    ensures var s' := Apply(s, step).0; s'.tokens == s.tokens || (step.RequestReset? && s'.tokens == s.tokens + {step.newToken})
  {}

  lemma StepKeepsSessions(s: State, step: Step)
    requires SessionsSound(s) && Enabled(s, step)
    ensures SessionsSound(Apply(s, step).0)
  {
    if step.Login? {
      LoginKeeps(s, step);
    } else if step.Rotate? {
      RotateKeeps(s, step);
    } else {
      OtherStepsShrink(s, step);
      ShrinkKeeps(s.sessions, Apply(s, step).0.sessions);
      if step.RequestReset? {
        IssuedStays(s.tokens, {step.newToken});
      }
    }
  }

  lemma RequestKeepsResets(s: State, step: Step)
    requires ResetsSound(s.resets, s.tokens) && Enabled(s, step) && step.RequestReset?
    ensures ResetsSound(Apply(s, step).0.resets, Apply(s, step).0.tokens)
  {
    FreshHash(s.tokens, step.newToken);
    IssuedStays(s.tokens, {step.newToken});
  }

  lemma StepKeepsResets(s: State, step: Step)
    requires ResetsSound(s.resets, s.tokens) && Enabled(s, step)
    ensures ResetsSound(Apply(s, step).0.resets, Apply(s, step).0.tokens)
  {
    if step.RequestReset? {
      RequestKeepsResets(s, step);
    } else if step.Login? || step.Rotate? {
      IssuedStays(s.tokens, {step.newToken});
    }
  }

  lemma StepKeepsInvariant(s: State, step: Step)
    requires Inv(s) && Enabled(s, step)
    ensures Inv(Apply(s, step).0)
  {
    StepKeepsSessions(s, step);
    StepKeepsResets(s, step);
  }

  // ---------------------------------------------------------------------------------------------
  // Runs
  // ---------------------------------------------------------------------------------------------

  ghost predicate Feasible(s: State, steps: seq<Step>)
    decreases |steps|
  {
    steps == [] || (Enabled(s, steps[0]) && Feasible(Apply(s, steps[0]).0, steps[1..]))
  }

  ghost function Exec(s: State, steps: seq<Step>): State
    requires Feasible(s, steps)
    decreases |steps|
  {
    if steps == [] then s else Exec(Apply(s, steps[0]).0, steps[1..])
  }

  lemma {:induction false} RunKeepsInvariant(s: State, steps: seq<Step>)
    requires Inv(s) && Feasible(s, steps)
    ensures Inv(Exec(s, steps))
    decreases |steps|
  {
    if steps != [] {
      StepKeepsInvariant(s, steps[0]);
      RunKeepsInvariant(Apply(s, steps[0]).0, steps[1..]);
    }
  }

  /** In every reachable state, two unrevoked sessions of one family are the same session. */
  lemma OneLiveSessionPerFamily(steps: seq<Step>, i: SessionId, j: SessionId)
    requires Feasible(Start, steps) && i in Exec(Start, steps).sessions && j in Exec(Start, steps).sessions
    requires Exec(Start, steps).sessions[i].familyId == Exec(Start, steps).sessions[j].familyId
    requires Exec(Start, steps).sessions[i].revokedAt == None && Exec(Start, steps).sessions[j].revokedAt == None
    ensures i == j
  {
    RunKeepsInvariant(Start, steps);
  }

  /** A purged id never returns; a stored session only ever changes by being revoked once. */
  ghost predicate Ages(s: State, s': State) {
    && s.ids <= s'.ids && s.families <= s'.families && s.tokens <= s'.tokens && s.clock <= s'.clock
    && forall id :: id in s.ids && id in s'.sessions ==>
         && id in s.sessions
         && s'.sessions[id] == s.sessions[id].(revokedAt := s'.sessions[id].revokedAt)
         && (s.sessions[id].revokedAt.Some? ==> s'.sessions[id] == s.sessions[id])
  }

  lemma RotateAges(s: State, step: Step)
    requires step.Rotate? && s.sessions.Keys <= s.ids && Enabled(s, step)
    ensures Ages(s, Apply(s, step).0)
  {
    var found := FindSession(s.sessions, Digest(step.token));
    if found.Some? {
      if Apply(s, step).1.Rotated? {
        assert step.newId !in s.ids;
      } else {
        RevokeShrinks(s.sessions, s.sessions[found.value].familyId, 0, step.now);
      }
    }
  }

  lemma StepAges(s: State, step: Step)
    requires SessionsSound(s) && Enabled(s, step)
    ensures Ages(s, Apply(s, step).0)
  {
    if step.Rotate? {
      RotateAges(s, step);
    } else if !step.Login? {
      OtherStepsShrink(s, step);
    }
  }

  ghost predicate LiveIn(s: State, family: FamilyId, user: UserId) {
    exists i :: i in s.sessions && s.sessions[i].familyId == family && s.sessions[i].userId == user && s.sessions[i].revokedAt == None
  }

  /** A new session comes from a login, in a new family, or from a rotation of an unrevoked session of its family. */
  lemma NewSessionsHaveAnOrigin(s: State, step: Step, id: SessionId)
    requires SessionsSound(s) && Enabled(s, step) && id in Apply(s, step).0.sessions && id !in s.sessions
    ensures
      var (s', outcome) := Apply(s, step);
      var new_ := s'.sessions[id];
      || (step.Login? && new_.familyId == step.newFamily && outcome == LoggedIn(new_.userId, step.newToken))
      || (step.Rotate? && LiveIn(s, new_.familyId, new_.userId))
  {}

  /** In every run, `revokedAt` is never overwritten and the other fields of a session never change. */
  lemma {:induction false} RevokedAtIsFinal(s: State, steps: seq<Step>)
    requires Inv(s) && Feasible(s, steps)
    ensures Ages(s, Exec(s, steps))
    decreases |steps|
  {
    if steps != [] {
      var s1 := Apply(s, steps[0]).0;
      StepAges(s, steps[0]);
      StepKeepsInvariant(s, steps[0]);
      RevokedAtIsFinal(s1, steps[1..]);
    }
  }

  /** A family that has existed and has no unrevoked session. */
  ghost predicate DeadFamily(s: State, family: FamilyId) {
    family in s.families && forall id :: id in s.sessions && s.sessions[id].familyId == family ==> s.sessions[id].revokedAt.Some?
  }

  lemma StepKeepsDead(s: State, step: Step, family: FamilyId)
    requires SessionsSound(s) && Enabled(s, step) && DeadFamily(s, family)
    ensures DeadFamily(Apply(s, step).0, family)
  {
    var s' := Apply(s, step).0;
    StepAges(s, step);
    forall id | id in s'.sessions && s'.sessions[id].familyId == family ensures s'.sessions[id].revokedAt.Some? {
      if id in s.sessions {
        assert id in s.ids;
      } else {
        NewSessionsHaveAnOrigin(s, step, id);
      }
    }
  }

  /** A family with no unrevoked session never gets one again, in any run. */
  lemma {:induction false} DeadFamilyStaysDead(s: State, steps: seq<Step>, family: FamilyId)
    requires Inv(s) && Feasible(s, steps) && DeadFamily(s, family)
    ensures DeadFamily(Exec(s, steps), family)
    decreases |steps|
  {
    if steps != [] {
      StepKeepsDead(s, steps[0], family);
      StepKeepsInvariant(s, steps[0]);
      DeadFamilyStaysDead(Apply(s, steps[0]).0, steps[1..], family);
    }
  }

  // ---------------------------------------------------------------------------------------------
  // Rotation, reuse, logout and password changes
  // ---------------------------------------------------------------------------------------------

  /** Rotation succeeds exactly for the token of a stored, unrevoked and unexpired session. */
  lemma RotateSucceedsIff(s: State, step: Step)
    requires Inv(s) && step.Rotate? && Enabled(s, step)
    ensures Apply(s, step).1.Rotated? <==>
            exists id :: HasHash(s.sessions, id, Digest(step.token)) && s.sessions[id].revokedAt == None && s.sessions[id].expiresAt > step.now
  {}

  /** Presenting a revoked token ends in an error, yet the whole family is revoked in the committed state, and only it. */
  lemma ReuseRevokesFamily(s: State, step: Step, id: SessionId)
    requires Inv(s) && step.Rotate? && Enabled(s, step)
    requires HasHash(s.sessions, id, Digest(step.token)) && s.sessions[id].revokedAt.Some?
    ensures
      var (s', outcome) := Apply(s, step);
      && outcome == Failed(InvalidRefreshToken)
      && DeadFamily(s', s.sessions[id].familyId)
      && s'.sessions.Keys == s.sessions.Keys
      && (forall i :: i in s.sessions ==>
            s'.sessions[i] == if s.sessions[i].familyId == s.sessions[id].familyId && s.sessions[i].revokedAt == None
                              then s.sessions[i].(revokedAt := Some(step.now)) else s.sessions[i])
  {}

  /** Unknown and expired tokens leave the whole store as it was. */
  lemma RefusedRotationChangesNothing(s: State, step: Step)
    requires Inv(s) && step.Rotate? && Enabled(s, step)
    requires forall id :: HasHash(s.sessions, id, Digest(step.token)) ==> s.sessions[id].revokedAt == None && s.sessions[id].expiresAt <= step.now
    ensures Apply(s, step) == (s.(clock := step.now), Failed(InvalidRefreshToken))
  {}

  /**
   * In every reachable state, by what is stored under the presented token: a revoked session is an error whose family
   * is nevertheless revoked for good, an active one rotates, and anything else is an error that changes nothing.
   */
  lemma RotationOutcomes(steps: seq<Step>, step: Step)
    requires Feasible(Start, steps) && step.Rotate? && Enabled(Exec(Start, steps), step)
    ensures
      var s := Exec(Start, steps);
      var (s', outcome) := Apply(s, step);
      match FindSession(s.sessions, Digest(step.token))
      case None => s' == s.(clock := step.now) && outcome == Failed(InvalidRefreshToken)
      case Some(id) =>
        if s.sessions[id].revokedAt.Some? then
          && outcome == Failed(InvalidRefreshToken) && DeadFamily(s', s.sessions[id].familyId)
          && s'.sessions.Keys == s.sessions.Keys
          && forall j :: j in s.sessions && s.sessions[j].familyId != s.sessions[id].familyId ==> s'.sessions[j] == s.sessions[j]
        else if s.sessions[id].expiresAt > step.now then
          && outcome == Rotated(s.sessions[id].userId, step.newToken)
          && s'.sessions.Keys == s.sessions.Keys + {step.newId}
          && s'.sessions[id] == s.sessions[id].(revokedAt := Some(step.now))
          && s'.sessions[step.newId] == Session(s.sessions[id].userId, s.sessions[id].familyId, Digest(step.newToken),
                                                step.now + 14 * 24 * 3_600_000, None)
          && forall j :: j in s.sessions && j != id ==> s'.sessions[j] == s.sessions[j]
        else s' == s.(clock := step.now) && outcome == Failed(InvalidRefreshToken)
  {
    RunKeepsInvariant(Start, steps);
    var s := Exec(Start, steps);
    var found := FindSession(s.sessions, Digest(step.token));
    if found.Some? && s.sessions[found.value].revokedAt.Some? {
      ReuseRevokesFamily(s, step, found.value);
    }
  }

  /** Once reuse has been detected, no token of that family ever rotates again, in any later run. */
  lemma NoRotationAfterReuse(s: State, reuse: Step, id: SessionId, steps: seq<Step>, step: Step, target: SessionId)
    requires Inv(s) && reuse.Rotate? && Enabled(s, reuse)
    requires HasHash(s.sessions, id, Digest(reuse.token)) && s.sessions[id].revokedAt.Some?
    requires Feasible(Apply(s, reuse).0, steps)
    requires
      var s' := Exec(Apply(s, reuse).0, steps);
      && step.Rotate? && Enabled(s', step) && HasHash(s'.sessions, target, Digest(step.token))
      && s'.sessions[target].familyId == s.sessions[id].familyId
    ensures !Apply(Exec(Apply(s, reuse).0, steps), step).1.Rotated?
  {
    var s1 := Apply(s, reuse).0;
    ReuseRevokesFamily(s, reuse, id);
    StepKeepsInvariant(s, reuse);
    DeadFamilyStaysDead(s1, steps, s.sessions[id].familyId);
    RunKeepsInvariant(s1, steps);
    RotateSucceedsIff(Exec(s1, steps), step);
  }

  lemma LogoutRevokesFamily(s: State, step: Step, id: SessionId)
    requires Inv(s) && step.Logout? && Enabled(s, step)
    requires step.maybeToken.Some? && step.maybeToken.value != "" && HasHash(s.sessions, id, Digest(step.maybeToken.value))
    ensures Apply(s, step).1 == Done && DeadFamily(Apply(s, step).0, s.sessions[id].familyId)
    ensures
      var (s', family) := (Apply(s, step).0, s.sessions[id].familyId);
      && s' == s.(clock := step.now, sessions := s'.sessions) && s'.sessions.Keys == s.sessions.Keys
      && forall i :: i in s.sessions ==>
           s'.sessions[i] == if s.sessions[i].familyId == family && s.sessions[i].revokedAt == None
                             then s.sessions[i].(revokedAt := Some(step.now)) else s.sessions[i]
  {}

  /** Logging out with no token, or with one that no session has, does nothing, and does not tell. */
  lemma LogoutWithoutSession(s: State, step: Step)
    requires step.Logout? && Enabled(s, step)
    requires step.maybeToken.Some? && step.maybeToken.value != "" ==> forall id :: !HasHash(s.sessions, id, Digest(step.maybeToken.value))
    ensures Apply(s, step) == (s.(clock := step.now), Done)
  {}

  ghost predicate SignedOut(s: State, user: UserId) {
    forall id :: id in s.sessions && s.sessions[id].userId == user ==> s.sessions[id].revokedAt.Some?
  }

  /** A reset or a change of an existing password signs its user out everywhere. */
  lemma PasswordChangeSignsOut(s: State, step: Step)
    requires Inv(s) && Enabled(s, step) && Apply(s, step).1 == Done
    requires step.ResetPassword? || (step.SetOrChange? && step.actor in s.passwords)
    ensures
      var s' := Apply(s, step).0;
      var user := if step.SetOrChange? then step.actor else FindReset(s.resets, Digest(step.token)).value;
      SignedOut(s', user) && user in s'.passwords && VerifyHash(step.password, s'.passwords[user])
  {}

  /** Only a login of that user ends the signed-out state. */
  lemma OnlyLoginSignsIn(s: State, step: Step, user: UserId)
    requires Inv(s) && Enabled(s, step) && SignedOut(s, user)
    ensures SignedOut(Apply(s, step).0, user) || (step.Login? && Apply(s, step).1 == LoggedIn(user, step.newToken))
  {
    var s' := Apply(s, step).0;
    StepAges(s, step);
    if id :| id in s'.sessions && s'.sessions[id].userId == user && s'.sessions[id].revokedAt == None {
      if id !in s.sessions {
        NewSessionsHaveAnOrigin(s, step, id);
      }
    }
  }

  /** An issued reset token that no row holds unconsumed. */
  ghost predicate Spent(s: State, token: string) {
    token in s.tokens && forall u :: u in s.resets && s.resets[u].tokenHash == Digest(token) ==> s.resets[u].consumedAt.Some?
  }

  lemma StepKeepsSpent(s: State, step: Step, token: string)
    requires Enabled(s, step) && Spent(s, token)
    ensures Spent(Apply(s, step).0, token)
  {
    if step.RequestReset? {
      DigestIsInjective(step.newToken, token);
    }
  }

  lemma {:induction false} ResetStaysSpent(s: State, steps: seq<Step>, token: string)
    requires Inv(s) && Feasible(s, steps) && Spent(s, token)
    ensures Spent(Exec(s, steps), token)
    decreases |steps|
  {
    if steps != [] {
      StepKeepsSpent(s, steps[0], token);
      StepKeepsInvariant(s, steps[0]);
      ResetStaysSpent(Apply(s, steps[0]).0, steps[1..], token);
    }
  }

  /** A reset token works at most once, in every run. */
  lemma ResetTokenWorksOnce(s: State, first: Step, steps: seq<Step>, again: Step)
    requires Inv(s) && first.ResetPassword? && Enabled(s, first) && Apply(s, first).1 == Done
    requires Feasible(Apply(s, first).0, steps) && again.ResetPassword? && again.token == first.token
    ensures Apply(Exec(Apply(s, first).0, steps), again).1.Failed?
  {
    var s1, user := Apply(s, first).0, FindReset(s.resets, Digest(first.token)).value;
    var t :| t in s.tokens && s.resets[user].tokenHash == Digest(t);
    DigestIsInjective(t, first.token);
    StepKeepsInvariant(s, first);
    ResetStaysSpent(s1, steps, first.token);
  }

  /** Asking for a new reset token makes the user's earlier one useless. */
  lemma NewRequestReplacesToken(s: State, step: Step, user: UserId, token: string)
    requires Inv(s) && step.RequestReset? && Enabled(s, step) && FindUser(s.users, Normalize(step.email)) == Some(user)
    requires token in s.tokens && ResetHasHash(s.resets, user, Digest(token))
    ensures Spent(Apply(s, step).0, token)
  {
    DigestIsInjective(step.newToken, token);
  }

  // ---------------------------------------------------------------------------------------------
  // The honest chain
  // ---------------------------------------------------------------------------------------------

  /** A client of one family, holding the token it was given last. */
  datatype Client = Client(family: FamilyId, user: UserId, token: string)

  ghost predicate Holds(s: State, c: Client, deadline: int) {
    exists id :: id in s.sessions && s.sessions[id] == Session(c.user, c.family, Digest(c.token), deadline, None)
  }

  predicate IsRefresh(step: Step, c: Client) {
    step.Rotate? && step.token == c.token
  }

  /** Nobody replays an old token of the family, logs it out, or resets or changes the user's password. */
  ghost predicate Benign(s: State, step: Step, c: Client) {
    match step
    case Rotate(token, _, _, _) => forall id :: HasHash(s.sessions, id, Digest(token)) ==> s.sessions[id].familyId != c.family
    case Logout(Some(token), _) => forall id :: HasHash(s.sessions, id, Digest(token)) ==> s.sessions[id].familyId != c.family
    case ResetPassword(token, _, _) => !ResetHasHash(s.resets, c.user, Digest(token))
    case SetOrChange(actor, _, _, _) => actor != c.user
    case _ => true
  }

  /** The client refreshes before each deadline; everything between its refreshes is benign. */
  ghost predicate HonestRun(s: State, steps: seq<Step>, c: Client, deadline: int)
    decreases |steps|
  {
    steps == [] ||
    var step, s' := steps[0], Apply(s, steps[0]).0;
    if IsRefresh(step, c)
    then step.now < deadline && HonestRun(s', steps[1..], c.(token := step.newToken), step.now + REFRESH_TTL_MS)
    else Benign(s, step, c) && HonestRun(s', steps[1..], c, deadline)
  }

  ghost predicate RefreshesSucceed(s: State, steps: seq<Step>, c: Client)
    decreases |steps|
  {
    steps == [] ||
    var (s', outcome) := Apply(s, steps[0]);
    if IsRefresh(steps[0], c)
    then outcome == Rotated(c.user, steps[0].newToken) && RefreshesSucceed(s', steps[1..], c.(token := steps[0].newToken))
    else RefreshesSucceed(s', steps[1..], c)
  }

  lemma RefreshExtends(s: State, step: Step, c: Client, deadline: int)
    requires Inv(s) && Enabled(s, step) && Holds(s, c, deadline) && IsRefresh(step, c) && step.now < deadline
    ensures Apply(s, step).1 == Rotated(c.user, step.newToken)
    ensures Holds(Apply(s, step).0, c.(token := step.newToken), step.now + REFRESH_TTL_MS)
  {
    var id :| id in s.sessions && s.sessions[id] == Session(c.user, c.family, Digest(c.token), deadline, None);
    assert HasHash(s.sessions, id, Digest(step.token));
    assert FindSession(s.sessions, Digest(step.token)).value == id;
    assert step.newId in Apply(s, step).0.sessions;
  }

  lemma RotateLeavesOthers(s: State, step: Step, id: SessionId)
    requires SessionsSound(s) && step.Rotate? && Enabled(s, step) && id in s.sessions
    requires forall i :: HasHash(s.sessions, i, Digest(step.token)) ==> s.sessions[i].familyId != s.sessions[id].familyId
    ensures id in Apply(s, step).0.sessions && Apply(s, step).0.sessions[id] == s.sessions[id]
  {}

  lemma LogoutLeavesOthers(s: State, step: Step, id: SessionId)
    requires step.Logout? && Enabled(s, step) && id in s.sessions
    requires step.maybeToken.Some? ==>
               forall i :: HasHash(s.sessions, i, Digest(step.maybeToken.value)) ==> s.sessions[i].familyId != s.sessions[id].familyId
    ensures id in Apply(s, step).0.sessions && Apply(s, step).0.sessions[id] == s.sessions[id]
  {}

  lemma OthersLeaveSession(s: State, step: Step, c: Client, id: SessionId)
    requires SessionsSound(s) && Enabled(s, step) && Benign(s, step, c) && !step.Rotate? && !step.Logout?
    requires id in s.sessions && s.sessions[id].userId == c.user && SessionActive(s.sessions[id], step.now)
    ensures id in Apply(s, step).0.sessions && Apply(s, step).0.sessions[id] == s.sessions[id]
  {}

  lemma BenignKeepsHold(s: State, step: Step, c: Client, deadline: int)
    requires Inv(s) && Enabled(s, step) && Holds(s, c, deadline) && !IsRefresh(step, c) && Benign(s, step, c) && step.now < deadline
    ensures Holds(Apply(s, step).0, c, deadline)
  {
    var id :| id in s.sessions && s.sessions[id] == Session(c.user, c.family, Digest(c.token), deadline, None);
    if step.Rotate? {
      RotateLeavesOthers(s, step, id);
    } else if step.Logout? {
      LogoutLeavesOthers(s, step, id);
    } else {
      OthersLeaveSession(s, step, c, id);
    }
  }

  lemma {:induction false} LateMeansOver(s: State, steps: seq<Step>, c: Client, deadline: int)
    requires Feasible(s, steps) && HonestRun(s, steps, c, deadline) && s.clock >= deadline
    ensures RefreshesSucceed(s, steps, c)
    decreases |steps|
  {
    if steps != [] {
      LateMeansOver(Apply(s, steps[0]).0, steps[1..], c, deadline);
    }
  }

  /** Whatever purges and other users' steps interleave, every refresh of an honest client succeeds. */
  lemma {:induction false} HonestChain(s: State, steps: seq<Step>, c: Client, deadline: int)
    requires Inv(s) && Feasible(s, steps) && Holds(s, c, deadline) && HonestRun(s, steps, c, deadline)
    ensures RefreshesSucceed(s, steps, c)
    decreases |steps|
  {
    if steps != [] {
      var step, s' := steps[0], Apply(s, steps[0]).0;
      StepKeepsInvariant(s, step);
      if IsRefresh(step, c) {
        RefreshExtends(s, step, c, deadline);
        HonestChain(s', steps[1..], c.(token := step.newToken), step.now + REFRESH_TTL_MS);
      } else if step.now >= deadline {
        LateMeansOver(s', steps[1..], c, deadline);
      } else {
        BenignKeepsHold(s, step, c, deadline);
        HonestChain(s', steps[1..], c, deadline);
      }
    }
  }

  /** The chain as a client sees it: log in, then keep refreshing with the token returned last. */
  lemma HonestChainAfterLogin(s: State, login: Step, steps: seq<Step>)
    requires Inv(s) && login.Login? && Enabled(s, login) && Apply(s, login).1.LoggedIn?
    requires
      var s' := Apply(s, login).0;
      var c := Client(login.newFamily, Apply(s, login).1.userId, login.newToken);
      Feasible(s', steps) && HonestRun(s', steps, c, login.now + REFRESH_TTL_MS)
    ensures RefreshesSucceed(Apply(s, login).0, steps, Client(login.newFamily, Apply(s, login).1.userId, login.newToken))
  {
    var (s', outcome) := Apply(s, login);
    StepKeepsInvariant(s, login);
    assert login.newId in s'.sessions;
    HonestChain(s', steps, Client(login.newFamily, outcome.userId, login.newToken), login.now + REFRESH_TTL_MS);
  }
}
