/**
 The PostgreSQL repository.  The five tables are fields that its methods update;
 a method works on local copies of the tables it writes, one statement after the
 other, and assigns them back where the code commits.
 */
module Repositories {
  import opened Wrappers
  import opened Tables
  import opened Transactions

  /** A row of ListSessions. */
  datatype UserSession = UserSession(
    id: Id,
    userId: Id,
    metadata: Metadata,
    createdAt: Instant,
    lastUsedAt: Instant,
    expiresAt: Instant)

  function View(id: Id, s: Session): UserSession {
    UserSession(id, s.userId, s.metadata, s.createdAt, s.lastUsedAt, s.expiresAt)
  }

  /** The latest use comes first; equal times go by id. */
  predicate Precedes(a: UserSession, b: UserSession) {
    a.lastUsedAt > b.lastUsedAt || (a.lastUsedAt == b.lastUsedAt && a.id < b.id)
  }

  ghost predicate InOrder(list: seq<UserSession>) {
    forall i, j | 0 <= i < j < |list| :: Precedes(list[i], list[j])
  }

  /** The list holds the views of exactly the sessions `ids`. */
  ghost predicate Shows(db: Db, ids: set<Id>, list: seq<UserSession>) {
    && (forall v | v in list :: v.id in ids && v.id in db.sessions && v == View(v.id, db.sessions[v.id]))
    && (forall id | id in ids :: exists k :: 0 <= k < |list| && list[k].id == id)
  }

  datatype LoginIdentity = LoginIdentity(userId: Id, user: User, passwordHash: string)

  /** The account has the address and is not deleted. */
  predicate HoldsAddress(users: map<Id, User>, id: Id, normalized: nat) {
    id in users && users[id].deletedAt == None && users[id].email.normalized == normalized
  }

  // ---- Statements that revoke many rows ----

  function CoalesceRevoked(s: Session, now: Instant): Session {
    s.(revokedAt := if s.revokedAt.Some? then s.revokedAt else Some(now))
  }

  /** Revokes the session whose current hash it is, and the one it was used for; an earlier time stays. */
  function UpdateByHash(db: Db, hash: TokenHash, now: Instant): (r: map<Id, Session>)
    ensures r == RevokeIds(db.sessions, OwnersOf(db, hash), now)
  {
    var replayed := set h | h in db.used && h == hash :: db.used[h].sessionId;
    map id | id in db.sessions ::
      if db.sessions[id].refreshHash == hash || id in replayed then CoalesceRevoked(db.sessions[id], now)
      else db.sessions[id]
  }

  /** Revokes every session of the user; an earlier time stays. */
  function UpdateByUser(sessions: map<Id, Session>, userId: Id, now: Instant): (r: map<Id, Session>)
    ensures r == RevokeIds(sessions, SessionsOf(sessions, userId), now)
  {
    map id | id in sessions ::
      if sessions[id].userId == userId then CoalesceRevoked(sessions[id], now) else sessions[id]
  }

  /** Revokes the sessions of the user that are not revoked yet. */
  function UpdateUnrevoked(sessions: map<Id, Session>, userId: Id, now: Instant): (r: map<Id, Session>)
    ensures r == RevokeIds(sessions, SessionsOf(sessions, userId), now)
  {
    map id | id in sessions ::
      if sessions[id].userId == userId && sessions[id].revokedAt.None?
      then sessions[id].(revokedAt := Some(now)) else sessions[id]
  }

  /** Revokes one session if it belongs to the user. */
  function UpdateOwned(sessions: map<Id, Session>, userId: Id, sessionId: Id, now: Instant): (r: map<Id, Session>)
    ensures r == if sessionId in sessions && sessions[sessionId].userId == userId
                 then RevokeIds(sessions, {sessionId}, now) else sessions
  {
    map id | id in sessions ::
      if id == sessionId && sessions[id].userId == userId then CoalesceRevoked(sessions[id], now) else sessions[id]
  }

  /** Revoking one row that exists. */
  lemma UpdateOne(sessions: map<Id, Session>, id: Id, now: Instant)
    requires id in sessions
    ensures sessions[id := CoalesceRevoked(sessions[id], now)] == RevokeIds(sessions, {id}, now)
  {
  }

  class Repository {
    var users: map<Id, User>
    var credentials: map<Id, Credential>
    var sessions: map<Id, Session>
    var tokens: map<Id, OneTimeToken>
    var used: map<TokenHash, UsedToken>

    function State(): Db
      reads this
    {
      Db(users, credentials, sessions, tokens, used)
    }

    constructor ()
      ensures State() == Db(map[], map[], map[], map[], map[]) && Consistent(State())
    {
      users, credentials, sessions, tokens, used := map[], map[], map[], map[], map[];
    }

    // ---- Registration and verification ----

    method CreateRegistration(record: RegistrationRecord) returns (r: Result<()>)
      requires Consistent(State())
      modifies this
      ensures Outcome(State(), r) == Transactions.CreateRegistration(old(State()), record)
    {
      var txUsers, txCredentials, txTokens := users, credentials, tokens;
      var user, at := record.user, record.user.createdAt;
      if user.version <= 0 || record.userId in txUsers {
        return Err(Database);
      }
      if exists id :: id in txUsers && OwnsEmail(State(), id, user.email.normalized) {
        return Err(EmailAlreadyExists);
      }
      txUsers := txUsers[record.userId :=
        User(user.email, user.displayName, user.status, None, user.createdAt, user.updatedAt, None, user.version)];
      if record.userId in txCredentials {
        return Err(Database);
      }
      txCredentials := txCredentials[record.userId := Credential(record.passwordHash, at, 0, None, at, at)];
      if record.tokenId in txTokens || record.tokenExpiresAt <= at
         || exists id :: id in txTokens && txTokens[id].tokenHash == record.tokenHash {
        return Err(Database);
      }
      txTokens := txTokens[record.tokenId :=
        OneTimeToken(record.userId, EmailVerification, record.tokenHash, record.tokenExpiresAt, None, at)];
      users, credentials, tokens := txUsers, txCredentials, txTokens;
      r := Ok(());
    }

    method VerifyEmail(hash: TokenHash, now: Instant) returns (r: Result<User>)
      requires Consistent(State())
      modifies this
      ensures Outcome(State(), r) == Transactions.VerifyEmail(old(State()), hash, now)
    {
      var txUsers, txTokens := users, tokens;
      if id :| && id in txTokens && OwnsTokenHash(State(), id, hash, EmailVerification)
               && txUsers[txTokens[id].userId].deletedAt.None?
      {
        var token := txTokens[id];
        var user := txUsers[token.userId];
        if token.usedAt.Some? {
          return Err(VerificationTokenUsed);
        }
        if now >= token.expiresAt {
          return Err(VerificationTokenExpired);
        }
        user := user.(status := Active, verifiedAt := Some(now), updatedAt := now, version := user.version + 1);
        txUsers := txUsers[token.userId := user];
        txTokens := txTokens[id := token.(usedAt := Some(now))];
        users, tokens := txUsers, txTokens;
        r := Ok(user);
      } else {
        r := Err(VerificationTokenInvalid);
      }
    }

    method FindLoginIdentity(normalized: nat) returns (r: Result<LoginIdentity>)
      requires Consistent(State())
      ensures match r
              case Ok(found) =>
                && HoldsAddress(users, found.userId, normalized) && found.user == users[found.userId]
                && found.userId in credentials && found.passwordHash == credentials[found.userId].passwordHash
              case Err(e) =>
                e == InvalidCredentials && forall id | HoldsAddress(users, id, normalized) :: id !in credentials
    {
      if id :| id in users && OwnsEmail(State(), id, normalized) && id in credentials {
        r := Ok(LoginIdentity(id, users[id], credentials[id].passwordHash));
      } else {
        r := Err(InvalidCredentials);
      }
    }

    // ---- Sessions ----

    method CreateSession(record: SessionRecord) returns (r: Result<()>)
      requires Consistent(State())
      modifies this
      ensures Outcome(State(), r) == Transactions.CreateSession(old(State()), record)
    {
      if record.id in sessions || record.userId !in users || record.expiresAt <= record.createdAt
         || exists id :: id in sessions && sessions[id].refreshHash == record.refreshHash {
        return Err(Database);
      }
      sessions := sessions[record.id :=
        Session(record.userId, record.refreshHash, record.metadata, record.expiresAt, record.createdAt, None, record.createdAt)];
      r := Ok(());
    }

    method RotateRefreshToken(current: TokenHash, next: TokenHash, metadata: Metadata, now: Instant)
      returns (r: Result<SessionIdentity>)
      requires Consistent(State())
      modifies this
      ensures Outcome(State(), r) == Transactions.RotateRefreshToken(old(State()), current, next, metadata, now)
    {
      var txSessions, txUsed := sessions, used;
      if id :| id in txSessions && OwnsRefreshHash(State(), id, current) {
        var session := txSessions[id];
        var user := users[session.userId];
        if session.revokedAt.Some? {
          return Err(SessionRevoked);
        }
        if now >= session.expiresAt {
          return Err(SessionExpired);
        }
        if user.deletedAt.Some? || user.status != Active {
          txSessions := txSessions[id := session.(revokedAt := Some(now))];
          UpdateOne(sessions, id, now);
          sessions := txSessions;
          return Err(AccountUnavailable);
        }
        if current in txUsed || session.expiresAt <= now {
          return Err(Database);
        }
        txUsed := txUsed[current := UsedToken(id, now, session.expiresAt)];
        if exists other :: other in txSessions && other != id && txSessions[other].refreshHash == next {
          return Err(Database);
        }
        txSessions := txSessions[id := session.(refreshHash := next, metadata := metadata, lastUsedAt := now)];
        sessions, used := txSessions, txUsed;
        r := Ok(SessionIdentity(id, session.userId, user, session.expiresAt));
      } else {
        r := HandlePossibleRefreshReuse(current, now);
      }
    }

    method HandlePossibleRefreshReuse(hash: TokenHash, now: Instant) returns (r: Result<SessionIdentity>)
      modifies this
      ensures Outcome(State(), r) == Transactions.HandlePossibleRefreshReuse(old(State()), hash, now)
    {
      if hash !in used || used[hash].sessionId !in sessions {
        return Err(RefreshTokenInvalid);
      }
      var id := used[hash].sessionId;
      var txSessions := sessions[id := CoalesceRevoked(sessions[id], now)];
      UpdateOne(sessions, id, now);
      sessions := txSessions;
      r := Err(RefreshTokenReused);
    }

    method RevokeSession(hash: TokenHash, now: Instant)
      requires Consistent(State())
      modifies this
      ensures State() == Transactions.RevokeSession(old(State()), hash, now).db
    {
      sessions := UpdateByHash(State(), hash, now);
    }

    method RevokeAllSessions(userId: Id, now: Instant) returns (count: nat)
      requires Consistent(State())
      modifies this
      ensures Outcome(State(), Ok(count)) == Transactions.RevokeAllSessions(old(State()), userId, now)
    {
      var affected := set id | id in sessions && sessions[id].userId == userId && sessions[id].revokedAt.None?;
      assert affected == UnrevokedOf(State(), userId);
      sessions := UpdateUnrevoked(sessions, userId, now);
      count := |affected|;
    }

    method RevokeOwnedSession(userId: Id, sessionId: Id, now: Instant) returns (r: Result<()>)
      requires Consistent(State())
      modifies this
      ensures Outcome(State(), r) == Transactions.RevokeOwnedSession(old(State()), userId, sessionId, now)
    {
      var affected := sessionId in sessions && sessions[sessionId].userId == userId;
      sessions := UpdateOwned(sessions, userId, sessionId, now);
      if !affected {
        return Err(SessionNotFound);
      }
      r := Ok(());
    }

    /** The listed sessions in the order of the query, each exactly once. */
    method ListSessions(userId: Id, now: Instant) returns (r: Result<seq<UserSession>>)
      ensures userId !in users || users[userId].deletedAt.Some? ==> r == Err(UserNotFound)
      ensures userId in users && users[userId].deletedAt.None? ==> r.Ok?
      ensures r.Ok? ==> Shows(State(), ListedOf(State(), userId, now), r.value) && InOrder(r.value)
      ensures r.Ok? ==>
                && (forall i | 0 <= i < |r.value| ::
                      && r.value[i].id in sessions
                      && var row := sessions[r.value[i].id];
                      && row.userId == userId && row.revokedAt == None && now < row.expiresAt
                      && r.value[i] == UserSession(r.value[i].id, userId, row.metadata, row.createdAt, row.lastUsedAt,
                                                   row.expiresAt))
                && (forall s | s in sessions && sessions[s].userId == userId && sessions[s].revokedAt == None
                               && now < sessions[s].expiresAt :: exists i :: 0 <= i < |r.value| && r.value[i].id == s)
                && (forall i, j | 0 <= i < j < |r.value| ::
                      || r.value[i].lastUsedAt > r.value[j].lastUsedAt
                      || (r.value[i].lastUsedAt == r.value[j].lastUsedAt && r.value[i].id < r.value[j].id))
    {
      if !(userId in users && users[userId].deletedAt.None?) {
        return Err(UserNotFound);
      }
      var rows := set id | id in sessions && sessions[id].userId == userId && sessions[id].revokedAt.None?
                           && sessions[id].expiresAt > now :: View(id, sessions[id]);
      var listed := ScanInOrder(rows);
      assert rows == set id | id in ListedOf(State(), userId, now) :: View(id, sessions[id]);
      AllShown(State(), ListedOf(State(), userId, now), rows, listed);
      r := Ok(listed);
    }

    // ---- Passwords ----

    method GetPasswordCredential(userId: Id) returns (r: Result<string>)
      ensures r == if userId in credentials && userId in users
                      && users[userId].status == Active && users[userId].deletedAt == None
                   then Ok(credentials[userId].passwordHash) else Err(AccountUnavailable)
    {
      if userId in credentials && userId in users && users[userId].status == Active && users[userId].deletedAt.None? {
        r := Ok(credentials[userId].passwordHash);
      } else {
        r := Err(AccountUnavailable);
      }
    }

    method ChangePassword(userId: Id, expected: string, next: string, now: Instant) returns (r: Result<()>)
      requires Consistent(State())
      modifies this
      ensures Outcome(State(), r) == Transactions.ChangePassword(old(State()), userId, expected, next, now)
    {
      var txCredentials, txSessions := credentials, sessions;
      if !(userId in txCredentials && txCredentials[userId].passwordHash == expected
           && userId in users && users[userId].status == Active && users[userId].deletedAt.None?) {
        return Err(InvalidCredentials);
      }
      txCredentials := txCredentials[userId := txCredentials[userId].(
        passwordHash := next, changedAt := now, updatedAt := now, failedLogins := 0, lockedUntil := None)];
      txSessions := UpdateByUser(txSessions, userId, now);
      credentials, sessions := txCredentials, txSessions;
      r := Ok(());
    }

    method FindPasswordResetUser(normalized: nat) returns (r: Result<Id>)
      requires Consistent(State())
      ensures forall id | HoldsAddress(users, id, normalized) ::
                r == if users[id].status == Active then Ok(id) else Err(AccountUnavailable)
      ensures (forall id :: !HoldsAddress(users, id, normalized)) ==> r == Err(UserNotFound)
    {
      if id :| id in users && HoldsAddress(users, id, normalized) {
        assert forall other | HoldsAddress(users, other, normalized) :: other == id;
        if users[id].status != Active {
          return Err(AccountUnavailable);
        }
        r := Ok(id);
      } else {
        r := Err(UserNotFound);
      }
    }

    method CreatePasswordReset(record: PasswordResetRecord) returns (r: Result<()>)
      requires Consistent(State())
      modifies this
      ensures Outcome(State(), r) == Transactions.CreatePasswordReset(old(State()), record)
    {
      var txTokens := tokens;
      if !(record.userId in users && users[record.userId].status == Active && users[record.userId].deletedAt.None?) {
        return Err(AccountUnavailable);
      }
      txTokens := InvalidateResets(txTokens, record.userId, record.createdAt);
      if record.tokenId in txTokens || record.expiresAt <= record.createdAt
         || exists id :: id in txTokens && txTokens[id].tokenHash == record.tokenHash {
        InvalidatingKeepsHashes(tokens, record.userId, record.createdAt, record.tokenHash);
        return Err(Database);
      }
      InvalidatingKeepsHashes(tokens, record.userId, record.createdAt, record.tokenHash);
      txTokens := txTokens[record.tokenId :=
        OneTimeToken(record.userId, PasswordRecovery, record.tokenHash, record.expiresAt, None, record.createdAt)];
      tokens := txTokens;
      r := Ok(());
    }

    method ResetPassword(hash: TokenHash, next: string, now: Instant) returns (r: Result<()>)
      requires Consistent(State())
      modifies this
      ensures Outcome(State(), r) == Transactions.ResetPassword(old(State()), hash, next, now)
    {
      var txCredentials, txSessions, txTokens := credentials, sessions, tokens;
      if id :| id in txTokens && OwnsTokenHash(State(), id, hash, PasswordRecovery) {
        var token := txTokens[id];
        var user := users[token.userId];
        if token.usedAt.Some? {
          return Err(PasswordResetTokenUsed);
        }
        if now >= token.expiresAt {
          return Err(PasswordResetTokenExpired);
        }
        if user.deletedAt.Some? || user.status != Active {
          return Err(AccountUnavailable);
        }
        if token.userId in txCredentials {
          txCredentials := txCredentials[token.userId := txCredentials[token.userId].(
            passwordHash := next, changedAt := now, updatedAt := now, failedLogins := 0, lockedUntil := None)];
        }
        txSessions := UpdateByUser(txSessions, token.userId, now);
        txTokens := txTokens[id := token.(usedAt := Some(now))];
        credentials, sessions, tokens := txCredentials, txSessions, txTokens;
        r := Ok(());
      } else {
        r := Err(PasswordResetTokenInvalid);
      }
    }
  }

  lemma InvalidatingKeepsHashes(tokens: map<Id, OneTimeToken>, userId: Id, now: Instant, h: TokenHash)
    ensures TokenHashTaken(InvalidateResets(tokens, userId, now), h) <==> TokenHashTaken(tokens, h)
  {
  }

  /** The loop over the rows of the ordered query. */
  method ScanInOrder(selected: set<UserSession>) returns (listed: seq<UserSession>)
    requires forall a, b | a in selected && b in selected && a.id == b.id :: a == b
    ensures forall v :: v in listed <==> v in selected
    ensures InOrder(listed)
  {
    var rows := selected;
    listed := [];
    while rows != {}
      invariant rows <= selected
      invariant forall v :: v in selected <==> v in rows || v in listed
      invariant forall l, v | l in listed && v in rows :: Precedes(l, v)
      invariant InOrder(listed)
      decreases |rows|
    {
      var _ := FirstExists(rows);
      var row :| row in rows && IsFirst(row, rows);
      listed := listed + [row];
      forall v | v in rows - {row} ensures Precedes(row, v) {
        assert v in rows && v != row;
        assert IsFirst(row, rows);
      }
      rows := rows - {row};
    }
  }

  lemma AllShown(db: Db, ids: set<Id>, rows: set<UserSession>, list: seq<UserSession>)
    requires ids <= db.sessions.Keys
    requires rows == set id | id in ids :: View(id, db.sessions[id])
    requires forall v :: v in list <==> v in rows
    ensures Shows(db, ids, list)
  {
    forall id | id in ids ensures exists k :: 0 <= k < |list| && list[k].id == id {
      assert View(id, db.sessions[id]) in rows;
    }
  }

  predicate IsFirst(row: UserSession, rows: set<UserSession>) {
    row in rows && forall v | v in rows && v != row :: Precedes(row, v)
  }

  /** A finite set of rows with distinct ids has a first row in the order of the query. */
  lemma {:induction false} FirstExists(rows: set<UserSession>) returns (first: UserSession)
    requires rows != {}
    requires forall a, b | a in rows && b in rows && a.id == b.id :: a == b
    ensures IsFirst(first, rows)
    decreases |rows|
  {
    var a :| a in rows;
    var rest := rows - {a};
    if rest == {} {
      first := a;
      assert forall v | v in rows && v != a :: v in rest;
    } else {
      var b := FirstExists(rest);
      first := if Precedes(a, b) then a else b;
      forall v | v in rows && v != first ensures Precedes(first, v) {
        assert v == a || v in rest;
        assert v in rest && v != b ==> Precedes(b, v);
      }
    }
  }
}
