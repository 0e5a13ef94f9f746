/**
 What every repository transaction keeps: the constraints of the schema, and the
 history already written.  Rows are never deleted, a session never changes its
 owner or expiry, the first revocation and the first use of a token stay, and a
 used refresh token stays on record unchanged.
 */
module Preservation {
  import opened Wrappers
  import opened Tables
  import opened Transactions

  ghost predicate SessionEvolves(a: Session, b: Session) {
    && a.userId == b.userId && a.createdAt == b.createdAt && a.expiresAt == b.expiresAt
    && (a.revokedAt.Some? ==> b.revokedAt == a.revokedAt)
  }

  ghost predicate TokenEvolves(a: OneTimeToken, b: OneTimeToken) {
    && b.(usedAt := None) == a.(usedAt := None)
    && (a.usedAt.Some? ==> b.usedAt == a.usedAt)
  }

  ghost predicate DbEvolves(a: Db, b: Db) {
    && (forall s | s in a.sessions :: s in b.sessions && SessionEvolves(a.sessions[s], b.sessions[s]))
    && (forall t | t in a.tokens :: t in b.tokens && TokenEvolves(a.tokens[t], b.tokens[t]))
    && (forall h | h in a.used :: h in b.used && b.used[h] == a.used[h])
    && a.users.Keys <= b.users.Keys
    && a.credentials.Keys <= b.credentials.Keys
  }

  /** Both parts of what a transaction keeps. */
  ghost predicate Keeps(a: Db, b: Db) {
    DbEvolves(a, b) && (Consistent(a) ==> Consistent(b))
  }

  lemma Same(db: Db)
    ensures Keeps(db, db)
  {
  }

  lemma Then(a: Db, b: Db, c: Db)
    requires Keeps(a, b) && Keeps(b, c)
    ensures Keeps(a, c)
  {
  }

  // ---- Single statements ----

  lemma Revoking(db: Db, ids: set<Id>, now: Instant)
    ensures Keeps(db, db.(sessions := RevokeIds(db.sessions, ids, now)))
  {
  }

  lemma UpdatingUser(db: Db, u: Id, user: User)
    requires u in db.users && user.email == db.users[u].email && user.version >= db.users[u].version
    requires db.users[u].deletedAt.Some? ==> user.deletedAt.Some?
    ensures Keeps(db, db.(users := db.users[u := user]))
  {
  }

  lemma UpdatingCredential(db: Db, u: Id, credential: Credential)
    requires u in db.credentials
    ensures Keeps(db, db.(credentials := db.credentials[u := credential]))
  {
  }

  lemma MarkingToken(db: Db, t: Id, now: Instant)
    requires t in db.tokens && db.tokens[t].usedAt.None?
    ensures Keeps(db, db.(tokens := db.tokens[t := db.tokens[t].(usedAt := Some(now))]))
  {
  }

  lemma Invalidating(db: Db, u: Id, now: Instant)
    ensures Keeps(db, db.(tokens := InvalidateResets(db.tokens, u, now)))
  {
  }

  lemma InsertingToken(db: Db, t: Id, row: OneTimeToken)
    requires t !in db.tokens && !TokenHashTaken(db.tokens, row.tokenHash)
    requires row.userId in db.users && row.expiresAt > row.createdAt
    ensures Keeps(db, db.(tokens := db.tokens[t := row]))
  {
  }

  lemma InsertingUser(db: Db, u: Id, user: User)
    requires u !in db.users && UserByEmail(db, user.email.normalized).None? && user.version > 0
    ensures Keeps(db, db.(users := db.users[u := user]))
  {
    assert forall id | id in db.users && db.users[id].deletedAt.None? ::
        db.users[id].email.normalized == user.email.normalized ==> OwnsEmail(db, id, user.email.normalized);
  }

  lemma InsertingCredential(db: Db, u: Id, credential: Credential)
    requires u in db.users
    ensures Keeps(db, db.(credentials := db.credentials[u := credential]))
  {
  }

  lemma InsertingSession(db: Db, s: Id, row: Session)
    requires s !in db.sessions && row.userId in db.users && row.expiresAt > row.createdAt
    requires !RefreshHashTaken(db.sessions, row.refreshHash, None)
    ensures Keeps(db, db.(sessions := db.sessions[s := row]))
  {
  }

  lemma Rotating(db: Db, s: Id, next: TokenHash, metadata: Metadata, now: Instant)
    requires s in db.sessions && !RefreshHashTaken(db.sessions, next, Some(s))
    ensures Keeps(db, db.(sessions := db.sessions[s :=
                          db.sessions[s].(refreshHash := next, metadata := metadata, lastUsedAt := now)]))
  {
  }

  lemma RecordingUse(db: Db, h: TokenHash, row: UsedToken)
    requires h !in db.used && row.sessionId in db.sessions && row.expiresAt > row.usedAt
    ensures Keeps(db, db.(used := db.used[h := row]))
  {
  }

  // ---- Transactions ----

  lemma CreateRegistrationKeeps(db: Db, r: RegistrationRecord)
    ensures Keeps(db, CreateRegistration(db, r).db)
  {
    var o := CreateRegistration(db, r);
    if o.result.Ok? {
      var at := r.user.createdAt;
      var user := r.user.(verifiedAt := None, deletedAt := None);
      var row := OneTimeToken(r.userId, EmailVerification, r.tokenHash, r.tokenExpiresAt, None, at);
      var a := db.(users := db.users[r.userId := user]);
      var b := a.(credentials := a.credentials[r.userId := Credential(r.passwordHash, at, 0, None, at, at)]);
      InsertingUser(db, r.userId, user);
      InsertingCredential(a, r.userId, Credential(r.passwordHash, at, 0, None, at, at));
      InsertingToken(b, r.tokenId, row);
      Then(db, a, b);
      Then(db, b, o.db);
    } else {
      Same(db);
    }
  }

  lemma VerifyEmailKeeps(db: Db, h: TokenHash, now: Instant)
    ensures Keeps(db, VerifyEmail(db, h, now).db)
  {
    var o := VerifyEmail(db, h, now);
    if o.result.Ok? {
      var t := TokenByHash(db, h, EmailVerification).value;
      var u := db.tokens[t].userId;
      var a := db.(users := db.users[u := o.result.value]);
      UpdatingUser(db, u, o.result.value);
      MarkingToken(a, t, now);
      Then(db, a, o.db);
    } else {
      Same(db);
    }
  }

  lemma CreateSessionKeeps(db: Db, r: SessionRecord)
    ensures Keeps(db, CreateSession(db, r).db)
  {
    if CreateSession(db, r).result.Ok? {
      InsertingSession(db, r.id, r.Row());
    } else {
      Same(db);
    }
  }

  lemma RotateRefreshTokenKeeps(db: Db, current: TokenHash, next: TokenHash, metadata: Metadata, now: Instant)
    ensures Keeps(db, RotateRefreshToken(db, current, next, metadata, now).db)
  {
    var o := RotateRefreshToken(db, current, next, metadata, now);
    match SessionByHash(db, current)
    case None =>
      if o.result == Err(RefreshTokenReused) {
        Revoking(db, {db.used[current].sessionId}, now);
      } else {
        Same(db);
      }
    case Some(id) =>
      if o.result.Ok? {
        var a := db.(used := db.used[current := UsedToken(id, now, db.sessions[id].expiresAt)]);
        RecordingUse(db, current, UsedToken(id, now, db.sessions[id].expiresAt));
        Rotating(a, id, next, metadata, now);
        Then(db, a, o.db);
      } else if o.result == Err(AccountUnavailable) {
        Revoking(db, {id}, now);
      } else {
        Same(db);
      }
  }

  lemma RevokeOwnedSessionKeeps(db: Db, userId: Id, sessionId: Id, now: Instant)
    ensures Keeps(db, RevokeOwnedSession(db, userId, sessionId, now).db)
  {
    Revoking(db, {sessionId}, now);
    Same(db);
  }

  lemma ChangePasswordKeeps(db: Db, userId: Id, expected: string, next: string, now: Instant)
    ensures Keeps(db, ChangePassword(db, userId, expected, next, now).db)
  {
    var o := ChangePassword(db, userId, expected, next, now);
    if o.result.Ok? {
      var a := db.(credentials := o.db.credentials);
      UpdatingCredential(db, userId, db.credentials[userId].Renewed(next, now));
      Revoking(a, SessionsOf(db.sessions, userId), now);
      Then(db, a, o.db);
    } else {
      Same(db);
    }
  }

  lemma CreatePasswordResetKeeps(db: Db, r: PasswordResetRecord)
    ensures Keeps(db, CreatePasswordReset(db, r).db)
  {
    var o := CreatePasswordReset(db, r);
    if o.result.Ok? {
      var a := db.(tokens := InvalidateResets(db.tokens, r.userId, r.createdAt));
      Invalidating(db, r.userId, r.createdAt);
      InsertingToken(a, r.tokenId, r.Row());
      Then(db, a, o.db);
    } else {
      Same(db);
    }
  }

  lemma ResetPasswordKeeps(db: Db, h: TokenHash, next: string, now: Instant)
    ensures Keeps(db, ResetPassword(db, h, next, now).db)
  {
    var o := ResetPassword(db, h, next, now);
    if o.result.Ok? {
      var t := TokenByHash(db, h, PasswordRecovery).value;
      var u := db.tokens[t].userId;
      var a := db.(credentials := o.db.credentials);
      var b := a.(sessions := o.db.sessions);
      if u in db.credentials {
        UpdatingCredential(db, u, db.credentials[u].Renewed(next, now));
      } else {
        Same(db);
      }
      Revoking(a, SessionsOf(db.sessions, u), now);
      MarkingToken(b, t, now);
      Then(db, a, b);
      Then(db, b, o.db);
    } else {
      Same(db);
    }
  }

  lemma SanctionedKeeps(db: Db, userId: Id, what: Sanction, now: Instant)
    ensures Keeps(db, Sanctioned(db, userId, what, now))
  {
    Same(db);
    if userId in db.users {
      UpdatingUser(db, userId, Sanctioned(db, userId, what, now).users[userId]);
    }
  }

  // ---- Which transactions touch the sessions, and how ----

  /** Sessions and used hashes as they were, except that some sessions were revoked at `now`. */
  ghost predicate OnlyRevokes(a: Db, b: Db, now: Instant) {
    && b.used == a.used
    && b.sessions.Keys == a.sessions.Keys
    && (forall s | s in a.sessions :: b.sessions[s] == a.sessions[s] || b.sessions[s] == a.sessions[s].Revoked(now))
  }

  lemma RegistrationAndVerificationLeaveSessions(db: Db, r: RegistrationRecord, h: TokenHash, now: Instant)
    ensures OnlyRevokes(db, CreateRegistration(db, r).db, now)
    ensures OnlyRevokes(db, VerifyEmail(db, h, now).db, now)
  {
  }

  lemma RevocationsOnlyRevoke(db: Db, h: TokenHash, u: Id, s: Id, now: Instant)
    ensures OnlyRevokes(db, RevokeSession(db, h, now).db, now)
    ensures OnlyRevokes(db, RevokeAllSessions(db, u, now).db, now)
    ensures OnlyRevokes(db, RevokeOwnedSession(db, u, s, now).db, now)
  {
  }

  lemma PasswordsOnlyRevoke(db: Db, u: Id, expected: string, h: TokenHash, next: string, now: Instant)
    ensures OnlyRevokes(db, ChangePassword(db, u, expected, next, now).db, now)
    ensures OnlyRevokes(db, ResetPassword(db, h, next, now).db, now)
  {
  }

  lemma RefusedRotationOnlyRevokes(db: Db, h: TokenHash, next: TokenHash, metadata: Metadata, now: Instant)
    requires RotateRefreshToken(db, h, next, metadata, now).result.Err?
    ensures OnlyRevokes(db, RotateRefreshToken(db, h, next, metadata, now).db, now)
  {
  }
}
