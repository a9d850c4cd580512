/**
 * The authentication use cases as they run: repositories over tables of rows, entities rebuilt from a row on
 * find and written back on save, and one service whose methods are the steps of `RefreshSessions`.
 */
module Authentication {
  import opened Wrappers
  import opened Text
  import opened Users
  import opened Purge
  import opened RefreshSessions

  /** An entity rebuilt from its row; only `save` writes it back. */
  class RefreshSession {
    const id: SessionId
    const userId: UserId
    const familyId: FamilyId
    const tokenHash: string
    const expiresAt: int
    var revokedAt: Option<int>

    constructor (id: SessionId, row: Session)
      ensures this.id == id && Row() == row
    {
      this.id := id;
      userId, familyId, tokenHash, expiresAt, revokedAt := row.userId, row.familyId, row.tokenHash, row.expiresAt, row.revokedAt;
    }

    function Row(): Session
      reads this
    {
      Session(userId, familyId, tokenHash, expiresAt, revokedAt)
    }

    method Revoke(at: int)
      modifies this
      ensures Row() == old(Row()).(revokedAt := Some(at))
    {
      revokedAt := Some(at);
    }

    predicate IsActive(now: int)
      reads this
      ensures IsActive(now) <==> SessionActive(Row(), now)
    {
      revokedAt == None && expiresAt > now
    }
  }

  class PasswordResetToken {
    const userId: UserId
    const tokenHash: string
    const expiresAt: int
    var consumedAt: Option<int>

    constructor (userId: UserId, row: ResetToken)
      ensures this.userId == userId && Row() == row
    {
      this.userId, tokenHash, expiresAt, consumedAt := userId, row.tokenHash, row.expiresAt, row.consumedAt;
    }

    function Row(): ResetToken
      reads this
    {
      ResetToken(tokenHash, expiresAt, consumedAt)
    }

    method Consume(at: int)
      modifies this
      ensures Row() == old(Row()).(consumedAt := Some(at))
    {
      consumedAt := Some(at);
    }

    predicate IsActive(now: int)
      reads this
      ensures IsActive(now) <==> ResetActive(Row(), now)
    {
      consumedAt == None && expiresAt > now
    }
  }

  predicate SessionIsStale(session: Session, before: int) {
    !SessionActive(session, before)
  }

  predicate ResetIsStale(token: ResetToken, before: int) {
    !ResetActive(token, before)
  }

  /** Exactly the sessions that are neither revoked nor expired are left, as they were. */
  ghost predicate SessionsLeft(before: map<SessionId, Session>, after: map<SessionId, Session>, at: int) {
    && (forall id :: id in after <==> id in before && before[id].revokedAt == None && before[id].expiresAt > at)
    && forall id :: id in after ==> after[id] == before[id]
  }

  /** Exactly the reset tokens that are neither consumed nor expired are left, as they were. */
  ghost predicate ResetsLeft(before: map<UserId, ResetToken>, after: map<UserId, ResetToken>, at: int) {
    && (forall u :: u in after <==> u in before && before[u].consumedAt == None && before[u].expiresAt > at)
    && forall u :: u in after ==> after[u] == before[u]
  }

  lemma LeftIffActive(before: map<SessionId, Session>, resets: map<UserId, ResetToken>, at: int)
    ensures SessionsLeft(before, before - StaleKeys(before, SessionIsStale, at), at)
    ensures ResetsLeft(resets, resets - StaleKeys(resets, ResetIsStale, at), at)
  {}

  class RefreshSessionRepository {
    var sessions: map<SessionId, Session>

    constructor ()
      ensures sessions == map[]
    {
      sessions := map[];
    }

    method FindByTokenHash(tokenHash: string) returns (found: RefreshSession?)
      ensures found == null <==> forall id :: !HasHash(sessions, id, tokenHash)
      ensures found != null ==> fresh(found) && HasHash(sessions, found.id, tokenHash) && found.Row() == sessions[found.id]
    {
      found := null;
      var left := sessions.Keys;
      while left != {}
        invariant left <= sessions.Keys
        invariant forall id :: id in sessions && id !in left ==> sessions[id].tokenHash != tokenHash
      {
        var id :| id in left;
        if sessions[id].tokenHash == tokenHash {
          assert HasHash(sessions, id, tokenHash);
          found := new RefreshSession(id, sessions[id]);
          return;
        }
        left := left - {id};
      }
    }

    method Save(session: RefreshSession)
      modifies this
      ensures sessions == old(sessions)[session.id := session.Row()]
    {
      sessions := sessions[session.id := session.Row()];
    }

    method RevokeFamily(family: FamilyId, at: int)
      modifies this
      ensures sessions == RefreshSessions.RevokeFamily(old(sessions), family, at)
    {
      var left := sessions.Keys;
      while left != {}
        invariant left <= sessions.Keys == old(sessions).Keys
        invariant forall id :: id in sessions ==>
                    sessions[id] == if id in left then old(sessions)[id] else RefreshSessions.RevokeFamily(old(sessions), family, at)[id]
      {
        var id :| id in left;
        if sessions[id].familyId == family && sessions[id].revokedAt == None {
          sessions := sessions[id := sessions[id].(revokedAt := Some(at))];
        }
        left := left - {id};
      }
    }

    method RevokeAllForUser(user: UserId, at: int)
      modifies this
      ensures sessions == RefreshSessions.RevokeAllForUser(old(sessions), user, at)
    {
      var left := sessions.Keys;
      while left != {}
        invariant left <= sessions.Keys == old(sessions).Keys
        invariant forall id :: id in sessions ==>
                    sessions[id] == if id in left then old(sessions)[id] else RefreshSessions.RevokeAllForUser(old(sessions), user, at)[id]
      {
        var id :| id in left;
        if sessions[id].userId == user && sessions[id].revokedAt == None {
          sessions := sessions[id := sessions[id].(revokedAt := Some(at))];
        }
        left := left - {id};
      }
    }

    /** Deletes exactly `min(limit, stale)` sessions, none of them active. */
    method DeleteExpiredOrRevoked(before: int, limit: nat) returns (deleted: nat, ghost purged: set<SessionId>)
      modifies this
      ensures IsBatch(old(sessions), SessionIsStale, before, limit, purged)
      ensures deleted == |purged| && sessions == old(sessions) - purged
    {
      sessions, deleted, purged := DeleteStale(sessions, SessionIsStale, before, limit);
    }

    /**
     * The chain of purge jobs, each full batch enqueuing the next, which reads the clock again: it ends, and then exactly
     * the sessions that were stale at its last reading are gone.
     */
    method PurgeChain(clock: nat -> int, limit: nat) returns (jobs: nat, total: nat)
      requires limit > 0 && Ticks(clock)
      modifies this
      ensures jobs > 0 && Finished(old(sessions), sessions, SessionIsStale, clock, limit, jobs, total)
      ensures SessionsLeft(old(sessions), sessions, clock(jobs - 1))
    {
      ghost var before := sessions;
      ghost var purged, gone;
      total, gone := DeleteExpiredOrRevoked(clock(0), limit);
      ChainStarts(before, SessionIsStale, clock, limit, gone);
      var deleted := total;
      jobs := 1;
      while deleted == limit
        invariant jobs > 0 && InChain(before, sessions, SessionIsStale, clock, limit, jobs, gone, deleted)
        invariant total == |gone| <= |before|
        decreases |before| - total + (if deleted == limit then 1 else 0)
      {
        ghost var left := sessions;
        deleted, purged := DeleteExpiredOrRevoked(clock(jobs), limit);
        assert Advances(clock, jobs - 1);
        ChainGoesOn(before, left, SessionIsStale, clock, limit, jobs, gone, purged);
        gone := gone + purged;
        jobs, total := jobs + 1, total + deleted;
      }
      ChainStops(before, sessions, SessionIsStale, clock, limit, jobs, gone, deleted);
      LeftIffActive(before, map[], clock(jobs - 1));
    }
  }

  /** At most one token a user: saving a token replaces the one before. */
  class PasswordResetTokenRepository {
    var resets: map<UserId, ResetToken>

    constructor ()
      ensures resets == map[]
    {
      resets := map[];
    }

    method FindByTokenHash(tokenHash: string) returns (found: PasswordResetToken?)
      ensures found == null <==> forall u :: !ResetHasHash(resets, u, tokenHash)
      ensures found != null ==> fresh(found) && ResetHasHash(resets, found.userId, tokenHash) && found.Row() == resets[found.userId]
    {
      found := null;
      var left := resets.Keys;
      while left != {}
        invariant left <= resets.Keys
        invariant forall u :: u in resets && u !in left ==> resets[u].tokenHash != tokenHash
      {
        var u :| u in left;
        if resets[u].tokenHash == tokenHash {
          assert ResetHasHash(resets, u, tokenHash);
          found := new PasswordResetToken(u, resets[u]);
          return;
        }
        left := left - {u};
      }
    }

    method Save(token: PasswordResetToken)
      modifies this
      ensures resets == old(resets)[token.userId := token.Row()]
    {
      resets := resets[token.userId := token.Row()];
    }

    /** Deletes exactly `min(limit, stale)` tokens, none of them active. */
    method DeleteInactive(before: int, limit: nat) returns (deleted: nat, ghost purged: set<UserId>)
      modifies this
      ensures IsBatch(old(resets), ResetIsStale, before, limit, purged)
      ensures deleted == |purged| && resets == old(resets) - purged
    {
      resets, deleted, purged := DeleteStale(resets, ResetIsStale, before, limit);
    }

    /** The same chain for reset tokens. */
    method PurgeChain(clock: nat -> int, limit: nat) returns (jobs: nat, total: nat)
      requires limit > 0 && Ticks(clock)
      modifies this
      ensures jobs > 0 && Finished(old(resets), resets, ResetIsStale, clock, limit, jobs, total)
      ensures ResetsLeft(old(resets), resets, clock(jobs - 1))
    {
      ghost var before := resets;
      ghost var purged, gone;
      total, gone := DeleteInactive(clock(0), limit);
      ChainStarts(before, ResetIsStale, clock, limit, gone);
      var deleted := total;
      jobs := 1;
      while deleted == limit
        invariant jobs > 0 && InChain(before, resets, ResetIsStale, clock, limit, jobs, gone, deleted)
        invariant total == |gone| <= |before|
        decreases |before| - total + (if deleted == limit then 1 else 0)
      {
        ghost var left := resets;
        deleted, purged := DeleteInactive(clock(jobs), limit);
        assert Advances(clock, jobs - 1);
        ChainGoesOn(before, left, ResetIsStale, clock, limit, jobs, gone, purged);
        gone := gone + purged;
        jobs, total := jobs + 1, total + deleted;
      }
      ChainStops(before, resets, ResetIsStale, clock, limit, jobs, gone, deleted);
      LeftIffActive(map[], before, clock(jobs - 1));
    }
  }

  /** Every purge batch is a step of the modelled system. */
  lemma PurgesAreSteps(s: State, sessions: set<SessionId>, users: set<UserId>, limit: nat, now: int)
    requires now >= s.clock && IsBatch(s.sessions, SessionIsStale, now, limit, sessions) && IsBatch(s.resets, ResetIsStale, now, limit, users)
    ensures Enabled(s, PurgeSessions(sessions, now)) && Enabled(s, PurgeResets(users, now))
    ensures Apply(s, PurgeSessions(sessions, now)).0 == s.(clock := now, sessions := s.sessions - sessions)
    ensures Apply(s, PurgeResets(users, now)).0 == s.(clock := now, resets := s.resets - users)
  {}

  class AuthenticationService {
    const repository: RefreshSessionRepository
    const resetTokens: PasswordResetTokenRepository
    var users: map<UserId, User>
    var passwords: map<UserId, string>
    ghost var ids: set<SessionId>
    ghost var families: set<FamilyId>
    ghost var tokens: set<string>
    ghost var clock: int

    constructor ()
      ensures Stored() == Start && fresh(repository) && fresh(resetTokens)
    {
      repository := new RefreshSessionRepository();
      resetTokens := new PasswordResetTokenRepository();
      users, passwords := map[], map[];
      ids, families, tokens, clock := {}, {}, {}, 0;
    }

    ghost function Stored(): State
      reads this, repository, resetTokens
    {
      State(users, passwords, resetTokens.resets, repository.sessions, ids, families, tokens, clock)
    }

    method FindUserByEmail(email: string) returns (found: Option<UserId>)
      requires EmailsDistinct(users)
      ensures found == FindUser(users, Normalize(email))
    {
      found := SearchByEmail(users, email);
    }

    /** The user that the credentials belong to; nobody learns which of them was wrong. */
    method CheckCredentials(email: string, password: string) returns (user: Result<UserId, Error>)
      requires EmailsDistinct(users)
      ensures
        var found := FindUser(users, Normalize(email));
        user == if found == None || found.value !in passwords || !VerifyHash(password, passwords[found.value]) then Err(InvalidCredentials)
                else if users[found.value].suspended then Err(UserSuspended)
                else Ok(found.value)
    {
      NormalizeIsIdempotent(email);
      var found := FindUserByEmail(Normalize(email));
      var matches := found.Some? && found.value in passwords && VerifyHash(password, passwords[found.value]);
      if !matches {
        return Err(InvalidCredentials);
      }
      if users[found.value].suspended {
        return Err(UserSuspended);
      }
      user := Ok(found.value);
    }

    method StartSession(user: UserId, newToken: string, newId: SessionId, newFamily: FamilyId, now: int)
      modifies this, repository
      ensures Stored() == old(Stored()).(
          sessions := old(repository.sessions)[newId := Session(user, newFamily, Digest(newToken), now + REFRESH_TTL_MS, None)],
          ids := old(ids) + {newId}, families := old(families) + {newFamily}, tokens := old(tokens) + {newToken})
    {
      var session := new RefreshSession(newId, Session(user, newFamily, Digest(newToken), now + REFRESH_TTL_MS, None));
      repository.Save(session);
      ids, families, tokens := ids + {newId}, families + {newFamily}, tokens + {newToken};
    }

    method Login(email: string, password: string, newToken: string, newId: SessionId, newFamily: FamilyId, now: int) returns (outcome: Outcome)
      requires EmailsDistinct(users)
      modifies this, repository
      ensures (Stored(), outcome) == Apply(old(Stored()), Step.Login(email, password, newToken, newId, newFamily, now))
    {
      clock := now;
      var user := CheckCredentials(email, password);
      if user.Err? {
        return Failed(user.error);
      }
      StartSession(user.value, newToken, newId, newFamily, now);
      outcome := LoggedIn(user.value, newToken);
    }

    method Rotate(token: string, newToken: string, newId: SessionId, now: int) returns (outcome: Outcome)
      requires Inv(Stored()) && Enabled(Stored(), Step.Rotate(token, newToken, newId, now))
      modifies this, repository
      ensures (Stored(), outcome) == Apply(old(Stored()), Step.Rotate(token, newToken, newId, now))
    {
      clock := now;
      var session := repository.FindByTokenHash(Digest(token));
      if session == null {
        return Failed(InvalidRefreshToken);
      }
      assert FindSession(repository.sessions, Digest(token)) == Some(session.id);
      if session.revokedAt.Some? {
        repository.RevokeFamily(session.familyId, now);
        return Failed(InvalidRefreshToken);
      }
      if !session.IsActive(now) {
        return Failed(InvalidRefreshToken);
      }
      session.Revoke(now);
      repository.Save(session);
      var next := new RefreshSession(newId, Session(session.userId, session.familyId, Digest(newToken), now + REFRESH_TTL_MS, None));
      repository.Save(next);
      ids, tokens := ids + {newId}, tokens + {newToken};
      outcome := Rotated(session.userId, newToken);
    }

    method Logout(maybeToken: Option<string>, now: int) returns (outcome: Outcome)
      requires Inv(Stored()) && Enabled(Stored(), Step.Logout(maybeToken, now))
      modifies this, repository
      ensures (Stored(), outcome) == Apply(old(Stored()), Step.Logout(maybeToken, now))
    {
      clock := now;
      if maybeToken == None || maybeToken.value == "" {
        return Done;
      }
      var session := repository.FindByTokenHash(Digest(maybeToken.value));
      if session != null {
        assert FindSession(repository.sessions, Digest(maybeToken.value)) == Some(session.id);
        repository.RevokeFamily(session.familyId, now);
      }
      outcome := Done;
    }

    method RequestReset(email: string, newToken: string, now: int) returns (outcome: Outcome)
      requires Inv(Stored()) && Enabled(Stored(), Step.RequestReset(email, newToken, now))
      modifies this, resetTokens
      ensures (Stored(), outcome) == Apply(old(Stored()), Step.RequestReset(email, newToken, now))
    {
      clock := now;
      NormalizeIsIdempotent(email);
      var user := FindUserByEmail(Normalize(email));
      if user.Some? {
        var token := new PasswordResetToken(user.value, ResetToken(Digest(newToken), now + PASSWORD_RESET_TTL_MS, None));
        resetTokens.Save(token);
        tokens := tokens + {newToken};
      }
      outcome := Done;
    }

    method ResetPassword(token: string, password: string, now: int) returns (outcome: Outcome)
      requires Inv(Stored()) && Enabled(Stored(), Step.ResetPassword(token, password, now))
      modifies this, repository, resetTokens
      ensures (Stored(), outcome) == Apply(old(Stored()), Step.ResetPassword(token, password, now))
    {
      clock := now;
      if |password| < MIN_PASSWORD_LENGTH {
        return Failed(InvalidPassword);
      }
      var reset := resetTokens.FindByTokenHash(Digest(token));
      if reset == null || !reset.IsActive(now) {
        return Failed(InvalidResetToken);
      }
      assert FindReset(resetTokens.resets, Digest(token)) == Some(reset.userId);
      if reset.userId !in passwords {
        return Failed(InvalidResetToken);
      }
      reset.Consume(now);
      resetTokens.Save(reset);
      passwords := passwords[reset.userId := Hash(password)];
      repository.RevokeAllForUser(reset.userId, now);
      outcome := Done;
    }

    method SetOrChangePassword(actor: UserId, current: Option<string>, password: string, now: int) returns (outcome: Outcome)
      requires Inv(Stored()) && Enabled(Stored(), SetOrChange(actor, current, password, now))
      modifies this, repository
      ensures (Stored(), outcome) == Apply(old(Stored()), SetOrChange(actor, current, password, now))
    {
      clock := now;
      if |password| < MIN_PASSWORD_LENGTH {
        return Failed(InvalidPassword);
      }
      if actor !in users {
        return Failed(UserNotFound);
      }
      if actor !in passwords {
        if current.Some? {
          return Failed(InvalidCredentials);
        }
        passwords := passwords[actor := Hash(password)];
        return Done;
      }
      if current == None {
        return Failed(PasswordAlreadySet);
      }
      if !VerifyHash(current.value, passwords[actor]) {
        return Failed(InvalidCredentials);
      }
      passwords := passwords[actor := Hash(password)];
      repository.RevokeAllForUser(actor, now);
      outcome := Done;
    }
  }
}
