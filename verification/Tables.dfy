/**
 The domain values, the five tables of the identity schema and the constraints
 the schema declares on them.
 */
module Tables {
  import opened Wrappers

  type Instant = int     // a point in time, in nanoseconds
  type Id = nat          // a UUID; NIL is uuid.Nil
  type TokenHash = nat   // a SHA-256 digest, as an opaque number

  const NIL: Id := 0

  datatype Error =
    | WeakPassword
    | EmailAlreadyExists
    | VerificationTokenInvalid
    | VerificationTokenExpired
    | VerificationTokenUsed
    | InvalidCredentials
    | EmailNotVerified
    | AccountUnavailable
    | RefreshTokenInvalid
    | RefreshTokenReused
    | SessionExpired
    | SessionRevoked
    | UserNotFound
    | SessionNotFound
    | PasswordResetTokenInvalid
    | PasswordResetTokenExpired
    | PasswordResetTokenUsed
    | InvalidSessionMetadata
    | InvalidEmail
    | InvalidDisplayName
    | Database      // a statement the schema rejected, wrapped
    | HashRejected  // a stored password hash that does not parse, wrapped
    | RandomnessFailed // the random source failed, wrapped
    | SigningFailed // the access-token signer failed, wrapped
    | MailFailed    // the mailer failed, wrapped

  datatype Result<+T> = Ok(value: T) | Err(error: Error)

  /** An e-mail address and its lower-case form, both opaque. */
  datatype Email = Email(value: nat, normalized: nat)

  datatype Status = Pending | Active | Blocked | Deleting

  datatype User = User(
    email: Email,
    displayName: string,
    status: Status,
    verifiedAt: Option<Instant>,
    createdAt: Instant,
    updatedAt: Instant,
    deletedAt: Option<Instant>,
    version: int)
  {
    /** The condition every account check of the repository tests. */
    predicate Usable() {
      status == Active && deletedAt.None?
    }
  }

  function NewUser(email: Email, displayName: string, now: Instant): User {
    User(email, displayName, Pending, None, now, now, None, 1)
  }

  datatype Credential = Credential(
    passwordHash: string,
    changedAt: Instant,
    failedLogins: nat,
    lockedUntil: Option<Instant>,
    createdAt: Instant,
    updatedAt: Instant)
  {
    function Renewed(hash: string, now: Instant): Credential {
      Credential(hash, now, 0, None, createdAt, now)
    }
  }

  datatype Metadata = Metadata(userAgent: string, ipAddress: string)

  datatype Session = Session(
    userId: Id,
    refreshHash: TokenHash,
    metadata: Metadata,
    expiresAt: Instant,
    lastUsedAt: Instant,
    revokedAt: Option<Instant>,
    createdAt: Instant)
  {
    /** `revoked_at = COALESCE(revoked_at, now)`. */
    function Revoked(now: Instant): Session {
      if revokedAt.Some? then this else this.(revokedAt := Some(now))
    }

    /** Neither revoked nor past its expiry. */
    predicate Live(now: Instant) {
      revokedAt.None? && now < expiresAt
    }
  }

  datatype Purpose = EmailVerification | PasswordRecovery

  datatype OneTimeToken = OneTimeToken(
    userId: Id,
    purpose: Purpose,
    tokenHash: TokenHash,
    expiresAt: Instant,
    usedAt: Option<Instant>,
    createdAt: Instant)

  datatype UsedToken = UsedToken(sessionId: Id, usedAt: Instant, expiresAt: Instant)

  datatype Db = Db(
    users: map<Id, User>,
    credentials: map<Id, Credential>,
    sessions: map<Id, Session>,
    tokens: map<Id, OneTimeToken>,
    used: map<TokenHash, UsedToken>)

  // ---- The constraints of the schema ----

  /** `refresh_token_hash text NOT NULL UNIQUE`. */
  ghost predicate UniqueRefreshHashes(sessions: map<Id, Session>) {
    forall a, b | a in sessions && b in sessions && sessions[a].refreshHash == sessions[b].refreshHash :: a == b
  }

  /** `token_hash text NOT NULL UNIQUE`. */
  ghost predicate UniqueTokenHashes(tokens: map<Id, OneTimeToken>) {
    forall a, b | a in tokens && b in tokens && tokens[a].tokenHash == tokens[b].tokenHash :: a == b
  }

  /** The partial unique index `users_normalized_email_active_uq`. */
  ghost predicate UniqueEmails(users: map<Id, User>) {
    forall a, b |
      && a in users && b in users
      && users[a].deletedAt.None? && users[b].deletedAt.None?
      && users[a].email.normalized == users[b].email.normalized :: a == b
  }

  /** The foreign keys. */
  ghost predicate References(db: Db) {
    && (forall u | u in db.credentials :: u in db.users)
    && (forall s | s in db.sessions :: db.sessions[s].userId in db.users)
    && (forall t | t in db.tokens :: db.tokens[t].userId in db.users)
    && (forall h | h in db.used :: db.used[h].sessionId in db.sessions)
  }

  /** The CHECK constraints on times and versions. */
  ghost predicate Checks(db: Db) {
    && (forall u | u in db.users :: db.users[u].version > 0)
    && (forall s | s in db.sessions :: db.sessions[s].expiresAt > db.sessions[s].createdAt)
    && (forall t | t in db.tokens :: db.tokens[t].expiresAt > db.tokens[t].createdAt)
    && (forall h | h in db.used :: db.used[h].expiresAt > db.used[h].usedAt)
  }

  ghost predicate Consistent(db: Db) {
    && UniqueRefreshHashes(db.sessions)
    && UniqueTokenHashes(db.tokens)
    && UniqueEmails(db.users)
    && References(db)
    && Checks(db)
  }

  // ---- Lookups through the unique indexes ----

  predicate OwnsRefreshHash(db: Db, id: Id, h: TokenHash) {
    id in db.sessions && db.sessions[id].refreshHash == h && db.sessions[id].userId in db.users
  }

  /** The session, joined with its user, whose current refresh hash is `h`. */
  ghost function SessionByHash(db: Db, h: TokenHash): (found: Option<Id>)
    ensures found.Some? ==> OwnsRefreshHash(db, found.value, h)
    ensures found.None? ==> forall id :: !OwnsRefreshHash(db, id, h)
  {
    if exists id :: OwnsRefreshHash(db, id, h) then
      var id :| OwnsRefreshHash(db, id, h);
      Some(id)
    else
      None
  }

  predicate OwnsTokenHash(db: Db, id: Id, h: TokenHash, purpose: Purpose) {
    && id in db.tokens && db.tokens[id].tokenHash == h && db.tokens[id].purpose == purpose
    && db.tokens[id].userId in db.users
  }

  /** The one-time token, joined with its user, that has hash `h` and the given purpose. */
  ghost function TokenByHash(db: Db, h: TokenHash, purpose: Purpose): (found: Option<Id>)
    ensures found.Some? ==> OwnsTokenHash(db, found.value, h, purpose)
    ensures found.None? ==> forall id :: !OwnsTokenHash(db, id, h, purpose)
  {
    if exists id :: OwnsTokenHash(db, id, h, purpose) then
      var id :| OwnsTokenHash(db, id, h, purpose);
      Some(id)
    else
      None
  }

  predicate OwnsEmail(db: Db, id: Id, normalized: nat) {
    id in db.users && db.users[id].deletedAt.None? && db.users[id].email.normalized == normalized
  }

  /** The account that currently holds a normalized address. */
  ghost function UserByEmail(db: Db, normalized: nat): (found: Option<Id>)
    ensures found.Some? ==> OwnsEmail(db, found.value, normalized)
    ensures found.None? ==> forall id :: !OwnsEmail(db, id, normalized)
  {
    if exists id :: OwnsEmail(db, id, normalized) then
      var id :| OwnsEmail(db, id, normalized);
      Some(id)
    else
      None
  }

  /** Whether a session other than `except` holds the refresh hash `h`. */
  ghost predicate RefreshHashTaken(sessions: map<Id, Session>, h: TokenHash, except: Option<Id>) {
    exists id :: id in sessions && sessions[id].refreshHash == h && Some(id) != except
  }

  ghost predicate TokenHashTaken(tokens: map<Id, OneTimeToken>, h: TokenHash) {
    exists id :: id in tokens && tokens[id].tokenHash == h
  }

  /** Revocation of a set of sessions; the first time-stamp of each row stays. */
  function RevokeIds(sessions: map<Id, Session>, ids: set<Id>, now: Instant): (revoked: map<Id, Session>)
    ensures revoked.Keys == sessions.Keys
    ensures forall id | id in sessions ::
              revoked[id] == if id in ids then sessions[id].Revoked(now) else sessions[id]
  {
    map id | id in sessions :: if id in ids then sessions[id].Revoked(now) else sessions[id]
  }

  function SessionsOf(sessions: map<Id, Session>, userId: Id): set<Id> {
    set id | id in sessions && sessions[id].userId == userId
  }

  // The unique indexes make each lookup find the one row there is.

  lemma SessionFound(db: Db, id: Id, h: TokenHash)
    requires Consistent(db) && OwnsRefreshHash(db, id, h)
    ensures SessionByHash(db, h) == Some(id)
  {
  }
}
