/** When a login, a change or a reset of a password succeeds, what it stores, and which password works after any run. */
module Credentials {
  import opened Wrappers
  import opened Text
  import opened Users
  import opened RefreshSessions

  const WEEK_MS: int := 604_800_000
  const HOUR_MS: int := 3_600_000

  // ---------------------------------------------------------------------------------------------
  // Logging in
  // ---------------------------------------------------------------------------------------------

  /** The user has this email, and that password is the one stored for them. */
  predicate Matches(s: State, u: UserId, email: string, password: string) {
    u in s.users && s.users[u].email == Normalize(email) && u in s.passwords && s.passwords[u] == Hash(password)
  }

  /**
   * In every reachable state a login succeeds exactly for the email and the password of a user who is not suspended; the
   * session it stores is that user's, in a family of its own, for fourteen days. Otherwise nothing is stored.
   */
  lemma LoginOutcome(steps: seq<Step>, step: Step)
    requires Feasible(Start, steps) && step.Login? && Enabled(Exec(Start, steps), step)
    ensures
      var s := Exec(Start, steps);
      var (s', outcome) := Apply(s, step);
      && (outcome.LoggedIn? <==> exists u :: Matches(s, u, step.email, step.password) && !s.users[u].suspended)
      && (outcome.LoggedIn? ==>
            && Matches(s, outcome.userId, step.email, step.password) && outcome.token == step.newToken
            && s' == s.(clock := step.now, ids := s'.ids, families := s'.families, tokens := s'.tokens,
                        sessions := s.sessions[step.newId := Session(outcome.userId, step.newFamily, Digest(step.newToken), step.now + 2 * WEEK_MS, None)]))
      && (!outcome.LoggedIn? ==>
            && s' == s.(clock := step.now)
            && outcome == Failed(if exists u :: Matches(s, u, step.email, step.password) then UserSuspended else InvalidCredentials))
  {
    RunKeepsInvariant(Start, steps);
    var s := Exec(Start, steps);
    var found := FindUser(s.users, Normalize(step.email));
    LoginDecision(s, step);
    forall u: UserId | Matches(s, u, step.email, step.password) ensures found == Some(u) {
      MatchIsFound(s, u, step.email, step.password);
    }
  }

  lemma MatchIsFound(s: State, u: UserId, email: string, password: string)
    requires Inv(s) && Matches(s, u, email, password)
    ensures FindUser(s.users, Normalize(email)) == Some(u)
  {
    assert HasEmail(s.users, u, Normalize(email));
  }

  lemma LoginDecision(s: State, step: Step)
    requires step.Login?
    ensures
      var found, (s', outcome) := FindUser(s.users, Normalize(step.email)), Apply(s, step);
      if found == None || !Matches(s, found.value, step.email, step.password) then s' == s.(clock := step.now) && outcome == Failed(InvalidCredentials)
      else if s.users[found.value].suspended then s' == s.(clock := step.now) && outcome == Failed(UserSuspended)
      else
        && outcome == LoggedIn(found.value, step.newToken)
        && s' == s.(clock := step.now, ids := s'.ids, families := s'.families, tokens := s'.tokens,
                    sessions := s.sessions[step.newId := Session(found.value, step.newFamily, Digest(step.newToken), step.now + 2 * WEEK_MS, None)])
  {
    assert REFRESH_TTL_MS == 2 * WEEK_MS;
  }

  // ---------------------------------------------------------------------------------------------
  // Changing a password
  // ---------------------------------------------------------------------------------------------

  /** The user's unrevoked sessions are revoked now, and every other session is as it was. */
  ghost predicate SignedOutAt(s: State, s': State, user: UserId, now: int) {
    && s'.sessions.Keys == s.sessions.Keys
    && forall id :: id in s.sessions ==>
         s'.sessions[id] == if s.sessions[id].userId == user && s.sessions[id].revokedAt == None
                            then s.sessions[id].(revokedAt := Some(now)) else s.sessions[id]
  }

  /**
   * A password is set for a user without one, or changed by one who knows the present one, and then the user is signed out
   * everywhere; the first rule that is broken decides the error, and nothing is stored.
   */
  lemma SetOrChangeOutcome(s: State, step: Step)
    requires Inv(s) && step.SetOrChange? && Enabled(s, step)
    ensures
      var (s', outcome) := Apply(s, step);
      var stored := if step.actor in s.passwords then Some(s.passwords[step.actor]) else None;
      if |step.password| < 8 then s' == s.(clock := step.now) && outcome == Failed(InvalidPassword)
      else if step.actor !in s.users then s' == s.(clock := step.now) && outcome == Failed(UserNotFound)
      else if stored.Some? && step.current == None then s' == s.(clock := step.now) && outcome == Failed(PasswordAlreadySet)
      else if step.current.Some? && stored != Some(Hash(step.current.value)) then s' == s.(clock := step.now) && outcome == Failed(InvalidCredentials)
      else
        && outcome == Done
        && s' == s.(clock := step.now, passwords := s.passwords[step.actor := Hash(step.password)], sessions := s'.sessions)
        && (stored == None ==> s'.sessions == s.sessions)
        && (stored.Some? ==> SignedOutAt(s, s', step.actor, step.now))
  {}

  /** The token of the user's reset request, neither used nor expired. */
  predicate MayReset(s: State, u: UserId, token: string, now: int) {
    u in s.resets && s.resets[u].tokenHash == Digest(token) && s.resets[u].consumedAt == None && s.resets[u].expiresAt > now
  }

  /** A reset works exactly with such a token of a user who has a password; it uses the token up and signs the user out. */
  lemma ResetOutcome(s: State, step: Step)
    requires Inv(s) && step.ResetPassword? && Enabled(s, step)
    ensures
      var (s', outcome) := Apply(s, step);
      && (outcome == Done <==> |step.password| >= 8 && exists u :: MayReset(s, u, step.token, step.now) && u in s.passwords)
      && (outcome != Done ==>
            && s' == s.(clock := step.now)
            && outcome == Failed(if |step.password| < 8 then InvalidPassword else InvalidResetToken))
      && (outcome == Done ==> forall u :: MayReset(s, u, step.token, step.now) ==>
            && s' == s.(clock := step.now, passwords := s.passwords[u := Hash(step.password)], sessions := s'.sessions,
                        resets := s.resets[u := s.resets[u].(consumedAt := Some(step.now))])
            && SignedOutAt(s, s', u, step.now))
  {
    var found := FindReset(s.resets, Digest(step.token));
    forall u: UserId | MayReset(s, u, step.token, step.now) ensures found == Some(u) {
      assert ResetHasHash(s.resets, u, Digest(step.token));
    }
    if Apply(s, step).1 == Done {
      assert MayReset(s, found.value, step.token, step.now);
    }
  }

  /** Asking for a reset never tells whether the email is known; for a known one it stores a token that lasts an hour. */
  lemma RequestOutcome(s: State, step: Step)
    requires Inv(s) && step.RequestReset? && Enabled(s, step)
    ensures
      var (s', outcome) := Apply(s, step);
      && outcome == Done
      && (forall u :: HasEmail(s.users, u, Normalize(step.email)) ==>
            s' == s.(clock := step.now, tokens := s'.tokens,
                     resets := s.resets[u := ResetToken(Digest(step.newToken), step.now + HOUR_MS, None)]))
      && ((forall u :: !HasEmail(s.users, u, Normalize(step.email))) ==> s' == s.(clock := step.now))
  {}

  // ---------------------------------------------------------------------------------------------
  // The password that works
  // ---------------------------------------------------------------------------------------------

  /** The password that a step sets for the user, if it does. */
  ghost function PasswordSet(s: State, step: Step, u: UserId): Option<string> {
    match step
    case UserAppears(id, _, initial, _) => if id == u then initial else None
    case ResetPassword(token, password, now) => if Apply(s, step).1 == Done && MayReset(s, u, token, now) then Some(password) else None
    case SetOrChange(actor, _, password, _) => if Apply(s, step).1 == Done && actor == u then Some(password) else None
    case _ => None
  }

  /** The password that a run set last for the user, `before` being the one from before the run. */
  ghost function LastPassword(s: State, steps: seq<Step>, u: UserId, before: Option<string>): Option<string>
    decreases |steps|
  {
    if steps == [] then before
    else
      var set_ := PasswordSet(s, steps[0], u);
      LastPassword(Apply(s, steps[0]).0, steps[1..], u, if set_.Some? then set_ else before)
  }

  ghost predicate IsStored(s: State, u: UserId, password: Option<string>) {
    if password.Some? then u in s.passwords && s.passwords[u] == Hash(password.value) else u !in s.passwords
  }

  lemma ResetStores(s: State, step: Step, u: UserId, before: Option<string>)
    requires Inv(s) && Enabled(s, step) && IsStored(s, u, before) && step.ResetPassword?
    ensures IsStored(Apply(s, step).0, u, if PasswordSet(s, step, u).Some? then PasswordSet(s, step, u) else before)
  {
    ResetOutcome(s, step);
    if Apply(s, step).1 == Done {
      var v: UserId :| MayReset(s, v, step.token, step.now) && v in s.passwords;
      assert Apply(s, step).0.passwords == s.passwords[v := Hash(step.password)];
      MayResetOne(s, u, v, step.token, step.now);
    }
  }

  lemma MayResetOne(s: State, u: UserId, v: UserId, token: string, now: int)
    requires Inv(s) && MayReset(s, v, token, now)
    ensures MayReset(s, u, token, now) ==> u == v
  {}

  lemma OthersKeepPasswords(s: State, step: Step)
    requires !step.UserAppears? && !step.ResetPassword? && !step.SetOrChange?
    ensures Apply(s, step).0.passwords == s.passwords
  {}

  lemma ChangeStores(s: State, step: Step, u: UserId, before: Option<string>)
    requires Inv(s) && Enabled(s, step) && IsStored(s, u, before) && step.SetOrChange?
    ensures IsStored(Apply(s, step).0, u, if PasswordSet(s, step, u).Some? then PasswordSet(s, step, u) else before)
  {
    SetOrChangeOutcome(s, step);
  }

  lemma StepStores(s: State, step: Step, u: UserId, before: Option<string>)
    requires Inv(s) && Enabled(s, step) && IsStored(s, u, before)
    ensures IsStored(Apply(s, step).0, u, if PasswordSet(s, step, u).Some? then PasswordSet(s, step, u) else before)
  {
    if step.ResetPassword? {
      ResetStores(s, step, u, before);
    } else if step.SetOrChange? {
      ChangeStores(s, step, u, before);
    } else if !step.UserAppears? {
      OthersKeepPasswords(s, step);
    }
  }

  lemma {:induction false} LastIsStored(s: State, steps: seq<Step>, u: UserId, before: Option<string>)
    requires Inv(s) && Feasible(s, steps) && IsStored(s, u, before)
    ensures IsStored(Exec(s, steps), u, LastPassword(s, steps, u, before))
    decreases |steps|
  {
    if steps != [] {
      var set_ := PasswordSet(s, steps[0], u);
      StepStores(s, steps[0], u, before);
      StepKeepsInvariant(s, steps[0]);
      LastIsStored(Apply(s, steps[0]).0, steps[1..], u, if set_.Some? then set_ else before);
    }
  }

  /** After every run, just the password that was set last for the user with that email logs in. */
  lemma LastPasswordLogsIn(steps: seq<Step>, step: Step)
    requires Feasible(Start, steps) && step.Login? && Enabled(Exec(Start, steps), step)
    ensures
      var s := Exec(Start, steps);
      Apply(s, step).1.LoggedIn? <==>
      exists u :: && HasEmail(s.users, u, Normalize(step.email)) && !s.users[u].suspended
                  && LastPassword(Start, steps, u, None) == Some(step.password)
  {
    var s := Exec(Start, steps);
    LoginOutcome(steps, step);
    forall u ensures Matches(s, u, step.email, step.password) <==>
                     HasEmail(s.users, u, Normalize(step.email)) && LastPassword(Start, steps, u, None) == Some(step.password)
    {
      LastIsStored(Start, steps, u, None);
      var last := LastPassword(Start, steps, u, None);
      if last.Some? {
        HashIsInjective(last.value, step.password);
      }
    }
  }
}
