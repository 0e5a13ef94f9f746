/**
 What each transaction of the PostgreSQL repository does to the tables when it
 runs alone: a function from the tables and the arguments to the tables after
 it and the value or error it returns.  A failing transaction leaves the tables
 as they were, except where the code commits before it returns the error.
 */
module Transactions {
  import opened Wrappers
  import opened Tables

  datatype Outcome<+T> = Outcome(db: Db, result: Result<T>)

  datatype RegistrationRecord = RegistrationRecord(
    userId: Id,
    user: User,
    passwordHash: string,
    tokenId: Id,
    tokenHash: TokenHash,
    tokenExpiresAt: Instant)

  datatype SessionRecord = SessionRecord(
    id: Id,
    userId: Id,
    refreshHash: TokenHash,
    metadata: Metadata,
    expiresAt: Instant,
    createdAt: Instant)
  {
    function Row(): Session {
      Session(userId, refreshHash, metadata, expiresAt, createdAt, None, createdAt)
    }
  }

  datatype PasswordResetRecord = PasswordResetRecord(
    tokenId: Id,
    userId: Id,
    tokenHash: TokenHash,
    expiresAt: Instant,
    createdAt: Instant)
  {
    function Row(): OneTimeToken {
      OneTimeToken(userId, PasswordRecovery, tokenHash, expiresAt, None, createdAt)
    }
  }

  datatype SessionIdentity = SessionIdentity(id: Id, userId: Id, user: User, expiresAt: Instant)

  // ---- Registration and verification ----

  ghost function CreateRegistration(db: Db, r: RegistrationRecord): Outcome<()> {
    if r.user.version <= 0 || r.userId in db.users then
      Outcome(db, Err(Database))
    else if UserByEmail(db, r.user.email.normalized).Some? then
      Outcome(db, Err(EmailAlreadyExists))
    else if r.userId in db.credentials || r.tokenId in db.tokens || TokenHashTaken(db.tokens, r.tokenHash)
            || r.tokenExpiresAt <= r.user.createdAt then
      Outcome(db, Err(Database))
    else
      var at := r.user.createdAt;
      Outcome(
        db.(users := db.users[r.userId := r.user.(verifiedAt := None, deletedAt := None)],
        credentials := db.credentials[r.userId := Credential(r.passwordHash, at, 0, None, at, at)],
        tokens := db.tokens[r.tokenId :=
        OneTimeToken(r.userId, EmailVerification, r.tokenHash, r.tokenExpiresAt, None, at)]),
        Ok(()))
  }

  ghost function VerifyEmail(db: Db, h: TokenHash, now: Instant): Outcome<User> {
    match TokenByHash(db, h, EmailVerification)
    case None => Outcome(db, Err(VerificationTokenInvalid))
    case Some(t) => VerifyWith(db, t, now)
  }

  function VerifyWith(db: Db, t: Id, now: Instant): Outcome<User>
    requires t in db.tokens && db.tokens[t].userId in db.users
  {
    var token := db.tokens[t];
    var user := db.users[token.userId];
    if user.deletedAt.Some? then Outcome(db, Err(VerificationTokenInvalid))
    else if token.usedAt.Some? then Outcome(db, Err(VerificationTokenUsed))
    else if now >= token.expiresAt then Outcome(db, Err(VerificationTokenExpired))
    else
      var active := user.(status := Active, verifiedAt := Some(now), updatedAt := now, version := user.version + 1);
      Outcome(
        db.(users := db.users[token.userId := active],
        tokens := db.tokens[t := token.(usedAt := Some(now))]),
        Ok(active))
  }

  // ---- Sessions ----

  ghost function CreateSession(db: Db, r: SessionRecord): Outcome<()> {
    if r.id in db.sessions || r.userId !in db.users || RefreshHashTaken(db.sessions, r.refreshHash, None)
       || r.expiresAt <= r.createdAt then
      Outcome(db, Err(Database))
    else
      Outcome(db.(sessions := db.sessions[r.id := r.Row()]), Ok(()))
  }

  ghost function RotateRefreshToken(
    db: Db, current: TokenHash, next: TokenHash, metadata: Metadata, now: Instant): Outcome<SessionIdentity>
  {
    match SessionByHash(db, current)
    case None => HandlePossibleRefreshReuse(db, current, now)
    case Some(id) => RotateSession(db, id, next, metadata, now)
  }

  /** The rotation of the session that was found, locked together with its user. */
  ghost function RotateSession(db: Db, id: Id, next: TokenHash, metadata: Metadata, now: Instant): Outcome<SessionIdentity>
    requires id in db.sessions && db.sessions[id].userId in db.users
  {
    var session := db.sessions[id];
    var user := db.users[session.userId];
    if session.revokedAt.Some? then Outcome(db, Err(SessionRevoked))
    else if now >= session.expiresAt then Outcome(db, Err(SessionExpired))
    else if !user.Usable() then
      Outcome(db.(sessions := RevokeIds(db.sessions, {id}, now)), Err(AccountUnavailable))
    else if session.refreshHash in db.used || RefreshHashTaken(db.sessions, next, Some(id)) then
      Outcome(db, Err(Database))
    else
      var rotated := session.(refreshHash := next, metadata := metadata, lastUsedAt := now);
      Outcome(
        db.(used := db.used[session.refreshHash := UsedToken(id, now, session.expiresAt)],
        sessions := db.sessions[id := rotated]),
        Ok(SessionIdentity(id, session.userId, user, session.expiresAt)))
  }

  ghost function HandlePossibleRefreshReuse(db: Db, h: TokenHash, now: Instant): Outcome<SessionIdentity> {
    if h !in db.used || db.used[h].sessionId !in db.sessions then
      Outcome(db, Err(RefreshTokenInvalid))
    else
      Outcome(db.(sessions := RevokeIds(db.sessions, {db.used[h].sessionId}, now)), Err(RefreshTokenReused))
  }

  /** The sessions a refresh hash belongs or belonged to. */
  function OwnersOf(db: Db, h: TokenHash): set<Id> {
    set id | id in db.sessions
             && (db.sessions[id].refreshHash == h || (h in db.used && db.used[h].sessionId == id))
  }

  function RevokeSession(db: Db, h: TokenHash, now: Instant): Outcome<()> {
    Outcome(db.(sessions := RevokeIds(db.sessions, OwnersOf(db, h), now)), Ok(()))
  }

  function UnrevokedOf(db: Db, userId: Id): set<Id> {
    set id | id in db.sessions && db.sessions[id].userId == userId && db.sessions[id].revokedAt.None?
  }

  function RevokeAllSessions(db: Db, userId: Id, now: Instant): Outcome<nat> {
    Outcome(
      db.(sessions := RevokeIds(db.sessions, SessionsOf(db.sessions, userId), now)),
      Ok(|UnrevokedOf(db, userId)|))
  }

  function RevokeOwnedSession(db: Db, userId: Id, sessionId: Id, now: Instant): Outcome<()> {
    if sessionId in db.sessions && db.sessions[sessionId].userId == userId then
      Outcome(db.(sessions := RevokeIds(db.sessions, {sessionId}, now)), Ok(()))
    else
      Outcome(db, Err(SessionNotFound))
  }

  /** The rows ListSessions selects. */
  function ListedOf(db: Db, userId: Id, now: Instant): set<Id> {
    set id | id in db.sessions && db.sessions[id].userId == userId && db.sessions[id].Live(now)
  }

  // ---- Passwords ----

  predicate CredentialMatches(db: Db, userId: Id, expected: string) {
    && userId in db.credentials && db.credentials[userId].passwordHash == expected
    && userId in db.users && db.users[userId].Usable()
  }

  function ChangePassword(db: Db, userId: Id, expected: string, next: string, now: Instant): Outcome<()> {
    if !CredentialMatches(db, userId, expected) then
      Outcome(db, Err(InvalidCredentials))
    else
      Outcome(
        db.(credentials := db.credentials[userId := db.credentials[userId].Renewed(next, now)],
        sessions := RevokeIds(db.sessions, SessionsOf(db.sessions, userId), now)),
        Ok(()))
  }

  predicate PendingReset(tokens: map<Id, OneTimeToken>, id: Id, userId: Id) {
    id in tokens && tokens[id].userId == userId && tokens[id].purpose == PasswordRecovery && tokens[id].usedAt.None?
  }

  /** Marks every unused reset token of the user as used. */
  function InvalidateResets(tokens: map<Id, OneTimeToken>, userId: Id, now: Instant): (r: map<Id, OneTimeToken>)
    ensures r.Keys == tokens.Keys
    ensures forall id | id in tokens ::
              r[id] == if PendingReset(tokens, id, userId) then tokens[id].(usedAt := Some(now)) else tokens[id]
  {
    map id | id in tokens :: if PendingReset(tokens, id, userId) then tokens[id].(usedAt := Some(now)) else tokens[id]
  }

  ghost function CreatePasswordReset(db: Db, r: PasswordResetRecord): Outcome<()> {
    if r.userId !in db.users || !db.users[r.userId].Usable() then
      Outcome(db, Err(AccountUnavailable))
    else if r.tokenId in db.tokens || TokenHashTaken(db.tokens, r.tokenHash) || r.expiresAt <= r.createdAt then
      Outcome(db, Err(Database))
    else
      Outcome(
        db.(tokens := InvalidateResets(db.tokens, r.userId, r.createdAt)[r.tokenId := r.Row()]),
        Ok(()))
  }

  ghost function ResetPassword(db: Db, h: TokenHash, next: string, now: Instant): Outcome<()> {
    match TokenByHash(db, h, PasswordRecovery)
    case None => Outcome(db, Err(PasswordResetTokenInvalid))
    case Some(t) => ResetWith(db, t, next, now)
  }

  function ResetWith(db: Db, t: Id, next: string, now: Instant): Outcome<()>
    requires t in db.tokens && db.tokens[t].userId in db.users
  {
    var token := db.tokens[t];
    var userId := token.userId;
    if token.usedAt.Some? then Outcome(db, Err(PasswordResetTokenUsed))
    else if now >= token.expiresAt then Outcome(db, Err(PasswordResetTokenExpired))
    else if !db.users[userId].Usable() then Outcome(db, Err(AccountUnavailable))
    else
      Outcome(
        db.(credentials := if userId in db.credentials
                           then db.credentials[userId := db.credentials[userId].Renewed(next, now)]
                           else db.credentials,
        sessions := RevokeIds(db.sessions, SessionsOf(db.sessions, userId), now),
        tokens := db.tokens[t := token.(usedAt := Some(now))]),
        Ok(()))
  }

  // ---- What happens to accounts outside this service ----

  datatype Sanction = Block | MarkDeleting | SoftDelete

  /** Another process blocks, schedules for deletion or soft-deletes an account. */
  function Sanctioned(db: Db, userId: Id, what: Sanction, now: Instant): Db {
    if userId !in db.users then db
    else
      var user := db.users[userId];
      var changed :=
        match what
        case Block => user.(status := Blocked)
        case MarkDeleting => user.(status := Deleting)
        case SoftDelete => if user.deletedAt.Some? then user else user.(deletedAt := Some(now));
      db.(users := db.users[userId := changed])
  }
}
