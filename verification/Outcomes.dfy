/**
 What each call of the service does, told on the rows themselves: for every
 argument the answer and every field of every row that changes, in terms of the
 tables, the clock and the chains of issued hashes.
 */
module Outcomes {
  import opened Wrappers
  import opened Tables
  import opened Transactions
  import opened History
  import L = Lineage
  import Lifetimes
  import O = OneTimeTokens
  import P = Preservation
  import Passwords

  /** The row with the time of its first revocation. */
  function Ended(row: Session, now: Instant): Session {
    row.(revokedAt := Some(if row.revokedAt.Some? then row.revokedAt.value else now))
  }

  /** All tables but the sessions are as they were; no session row is added or removed. */
  ghost predicate OnlySessions(a: Db, b: Db) {
    b == a.(sessions := b.sessions) && b.sessions.Keys == a.sessions.Keys
  }

  // ---- Logging out ----

  /** The sessions a hash was issued to are those it belongs or belonged to. */
  lemma IssuedTo(w: World, h: TokenHash, s: Id)
    requires L.Linear(w) && Consistent(w.db) && s in w.db.sessions
    ensures s in w.issued && (h in w.issued[s] <==> s in OwnersOf(w.db, h))
  {
    assert L.ChainOfSession(w, s);
    if h in w.issued[s] {
      L.Resolves(w, s, h);
    }
    if s in OwnersOf(w.db, h) && h in w.db.used {
      assert L.Recorded(w, h) && L.Placed(w, h);
    }
  }

  /**
   Logging out with any hash a session was ever issued ends that session and no
   other; an unknown hash changes nothing.
   */
  lemma LogoutOutcome(cfg: Config, w: World, h: TokenHash, now: Instant)
    requires Reachable(cfg, w)
    ensures var v := Step(cfg, w, Op.Logout(h, now));
            && OnlySessions(w.db, v.db)
            && (forall s | s in w.db.sessions ::
                  && s in w.issued
                  && v.db.sessions[s] == if h in w.issued[s] then Ended(w.db.sessions[s], now) else w.db.sessions[s])
            && ((forall s | s in w.issued :: h !in w.issued[s]) ==> v.db == w.db)
  {
    L.ReachableLinear(cfg, w);
    StepDb(cfg, w, Op.Logout(h, now));
    LogoutRows(w.db, h, now);
    forall s | s in w.db.sessions ensures s in w.issued && (h in w.issued[s] <==> s in OwnersOf(w.db, h)) {
      IssuedTo(w, h, s);
    }
  }

  lemma LogoutRows(db: Db, h: TokenHash, now: Instant)
    ensures var b := RevokeSession(db, h, now).db;
            && OnlySessions(db, b)
            && (forall s | s in db.sessions ::
                  b.sessions[s] == if s in OwnersOf(db, h) then Ended(db.sessions[s], now) else db.sessions[s])
            && ((forall s | s in db.sessions :: s !in OwnersOf(db, h)) ==> b == db)
  {
    var b := RevokeSession(db, h, now).db;
    assert (forall s | s in db.sessions :: s !in OwnersOf(db, h)) ==> b.sessions == db.sessions;
  }

  /** A logout is for good: no continuation rotates any hash of the session. */
  lemma LogoutIsForGood(cfg: Config, w: World, h: TokenHash, now: Instant, s: Id, after: seq<Op>)
    requires Reachable(cfg, w) && s in w.issued && h in w.issued[s]
    requires AdmissibleRun(cfg, Step(cfg, w, Op.Logout(h, now)), after)
    ensures s in w.db.sessions
    ensures var v := Run(cfg, Step(cfg, w, Op.Logout(h, now)), after);
            && s in v.issued && s in v.db.sessions
            && v.db.sessions[s].revokedAt == Ended(w.db.sessions[s], now).revokedAt
            && forall g, next, metadata, t | g in v.issued[s] ::
                 RotateRefreshToken(v.db, g, next, metadata, t).result.Err?
  {
    L.ReachableLinear(cfg, w);
    LogoutOutcome(cfg, w, h, now);
    ReachableStep(cfg, w, Op.Logout(h, now));
    L.RevocationIsPermanent(cfg, Step(cfg, w, Op.Logout(h, now)), s, after);
  }

  lemma LogoutAllOutcome(db: Db, u: Id, now: Instant)
    ensures var o := RevokeAllSessions(db, u, now);
            && OnlySessions(db, o.db)
            && o.result == Ok(|set s | s in db.sessions && db.sessions[s].userId == u && db.sessions[s].revokedAt == None|)
            && forall s | s in db.sessions ::
                 o.db.sessions[s] == if db.sessions[s].userId == u then Ended(db.sessions[s], now) else db.sessions[s]
  {
    assert UnrevokedOf(db, u)
        == set s | s in db.sessions && db.sessions[s].userId == u && db.sessions[s].revokedAt == None;
  }

  /** Only the owner can revoke a session; to anyone else it does not exist. */
  lemma RevokeOwnedOutcome(db: Db, u: Id, s: Id, now: Instant)
    ensures RevokeOwnedSession(db, u, s, now)
         == if s in db.sessions && db.sessions[s].userId == u
            then Outcome(db.(sessions := db.sessions[s := Ended(db.sessions[s], now)]), Ok(()))
            else Outcome(db, Err(SessionNotFound))
  {
    if s in db.sessions && db.sessions[s].userId == u {
      assert RevokeIds(db.sessions, {s}, now) == db.sessions[s := Ended(db.sessions[s], now)];
    }
  }

  // ---- Passwords ----

  /** The new hash is in place with its times, and every session of the user has ended; nothing else changed. */
  ghost predicate PasswordReplaced(a: Db, b: Db, u: Id, hash: string, now: Instant) {
    && u in a.credentials
    && b.users == a.users && b.used == a.used
    && b.credentials
    == a.credentials[u := Credential(hash, now, 0, None, a.credentials[u].createdAt, now)]
    && b.sessions.Keys == a.sessions.Keys
    && forall s | s in a.sessions ::
         b.sessions[s] == if a.sessions[s].userId == u then Ended(a.sessions[s], now) else a.sessions[s]
  }

  /** The compare-and-set: it succeeds exactly for an active, undeleted account whose stored hash is the expected one. */
  lemma ChangeOutcome(db: Db, u: Id, expected: string, next: string, now: Instant)
    ensures var o := ChangePassword(db, u, expected, next, now);
            if && u in db.users && db.users[u].status == Active && db.users[u].deletedAt == None
               && u in db.credentials && db.credentials[u].passwordHash == expected
            then o.result == Ok(()) && PasswordReplaced(db, o.db, u, next, now) && o.db.tokens == db.tokens
            else o == Outcome(db, Err(InvalidCredentials))
  {
  }

  predicate IsToken(db: Db, t: Id, h: TokenHash, purpose: Purpose) {
    t in db.tokens && db.tokens[t].tokenHash == h && db.tokens[t].purpose == purpose
  }

  lemma FindsToken(db: Db, t: Id, h: TokenHash, purpose: Purpose)
    requires Consistent(db) && IsToken(db, t, h, purpose)
    ensures TokenByHash(db, h, purpose) == Some(t) && db.tokens[t].userId in db.users
  {
    assert OwnsTokenHash(db, t, h, purpose);
  }

  lemma FindsNoToken(db: Db, h: TokenHash, purpose: Purpose)
    requires forall t :: !IsToken(db, t, h, purpose)
    ensures TokenByHash(db, h, purpose) == None
  {
    var found := TokenByHash(db, h, purpose);
    assert found.Some? ==> IsToken(db, found.value, h, purpose);
  }

  /** The outcome of a recovery with the token `t`. */
  ghost predicate Recovers(db: Db, t: Id, hash: string, now: Instant, expiry: Instant, o: Outcome<()>)
    requires t in db.tokens && db.tokens[t].userId in db.users
  {
    var token := db.tokens[t];
    var user := db.users[token.userId];
    if token.usedAt != None then o == Outcome(db, Err(PasswordResetTokenUsed))
    else if now >= expiry then o == Outcome(db, Err(PasswordResetTokenExpired))
    else if user.status != Active || user.deletedAt != None then o == Outcome(db, Err(AccountUnavailable))
    else
      && o.result == Ok(()) && PasswordReplaced(db, o.db, token.userId, hash, now)
      && o.db.tokens == db.tokens[t := token.(usedAt := Some(now))]
  }

  /** The answer to a recovery is that of the token row with the hash and of its owner's row. */
  lemma RecoveryOutcome(cfg: Config, w: World, h: TokenHash, hash: string, now: Instant)
    requires Reachable(cfg, w)
    ensures (forall t :: !IsToken(w.db, t, h, PasswordRecovery)) ==>
              ResetPassword(w.db, h, hash, now) == Outcome(w.db, Err(PasswordResetTokenInvalid))
    ensures forall t | IsToken(w.db, t, h, PasswordRecovery) ::
              && w.db.tokens[t].userId in w.db.users
              && Recovers(w.db, t, hash, now, w.db.tokens[t].createdAt + 3_600_000_000_000, ResetPassword(w.db, h, hash, now))
  {
    L.ReachableConsistent(cfg, w);
    O.ReachableResetTimes(cfg, w);
    Passwords.ReachableHashes(cfg, w);
    if forall t :: !IsToken(w.db, t, h, PasswordRecovery) {
      FindsNoToken(w.db, h, PasswordRecovery);
    }
    forall t | IsToken(w.db, t, h, PasswordRecovery)
      ensures w.db.tokens[t].userId in w.db.users
              && Recovers(w.db, t, hash, now, w.db.tokens[t].createdAt + 3_600_000_000_000, ResetPassword(w.db, h, hash, now))
    {
      FindsToken(w.db, t, h, PasswordRecovery);
      RecoveryRows(w.db, t, hash, now);
    }
  }

  lemma RecoveryRows(db: Db, t: Id, hash: string, now: Instant)
    requires t in db.tokens && db.tokens[t].userId in db.users && db.tokens[t].userId in db.credentials
    ensures Recovers(db, t, hash, now, db.tokens[t].expiresAt, ResetWith(db, t, hash, now))
  {
  }

  // ---- One-time tokens come from the generator ----

  ghost predicate TokensMinted(w: World) {
    forall t | t in w.db.tokens :: w.db.tokens[t].tokenHash in w.minted
  }

  ghost predicate AddsOnly(a: map<Id, OneTimeToken>, b: map<Id, OneTimeToken>, hashes: set<TokenHash>) {
    forall t | t in b :: (t in a && b[t].tokenHash == a[t].tokenHash) || b[t].tokenHash in hashes
  }

  lemma EffectAddsOnly(cfg: Config, db: Db, op: Op)
    ensures AddsOnly(db.tokens, Effect(cfg, db, op).db.tokens, if Mints(op) then {op.newHash} else {})
  {
    match op
    case Recover(h, secret, now) => RecoveryAddsNone(db, h, Hashed(cfg, secret), now);
    case Verify(h, now) => VerificationAddsNone(db, h, now);
    case _ =>
  }

  lemma RecoveryAddsNone(db: Db, h: TokenHash, next: string, now: Instant)
    ensures AddsOnly(db.tokens, ResetPassword(db, h, next, now).db.tokens, {})
  {
  }

  lemma VerificationAddsNone(db: Db, h: TokenHash, now: Instant)
    ensures AddsOnly(db.tokens, VerifyEmail(db, h, now).db.tokens, {})
  {
  }

  lemma StepMinted(cfg: Config, w: World, op: Op)
    ensures Step(cfg, w, op).minted == w.minted + if Mints(op) then {op.newHash} else {}
  {
  }

  lemma {:induction false} RunTokensMinted(cfg: Config, w: World, ops: seq<Op>)
    requires TokensMinted(w)
    ensures TokensMinted(Run(cfg, w, ops))
    decreases |ops|
  {
    if ops != [] {
      EffectAddsOnly(cfg, w.db, ops[0]);
      StepDb(cfg, w, ops[0]);
      StepMinted(cfg, w, ops[0]);
      RunTokensMinted(cfg, Step(cfg, w, ops[0]), ops[1..]);
    }
  }

  lemma ReachableTokensMinted(cfg: Config, w: World)
    requires Reachable(cfg, w)
    ensures TokensMinted(w)
  {
    var ops :| AdmissibleRun(cfg, Empty(), ops) && Run(cfg, Empty(), ops) == w;
    RunTokensMinted(cfg, Empty(), ops);
  }

  /** A reset request is refused for an unavailable account and fails for a repeated id only. */
  lemma RequestOutcome(cfg: Config, w: World, op: Op)
    requires Reachable(cfg, w) && op.Forgot? && op.newHash !in w.minted
    ensures var o := Effect(cfg, w.db, op);
            var u := op.userId;
            if u !in w.db.users || w.db.users[u].status != Active || w.db.users[u].deletedAt != None then
              o == Outcome(w.db, Err(AccountUnavailable))
            else if op.tokenId in w.db.tokens then o == Outcome(w.db, Err(Database))
            else
              && o.result == Ok(()) && o.db == w.db.(tokens := o.db.tokens)
              && o.db.tokens.Keys == w.db.tokens.Keys + {op.tokenId}
              && o.db.tokens[op.tokenId]
              == OneTimeToken(u, PasswordRecovery, op.newHash, op.now + 3_600_000_000_000, None, op.now)
              && forall t | t in w.db.tokens ::
                   var row := w.db.tokens[t];
                   o.db.tokens[t] == if row.userId == u && row.purpose == PasswordRecovery && row.usedAt == None
                                     then row.(usedAt := Some(op.now)) else row
  {
    ReachableTokensMinted(cfg, w);
    assert !TokenHashTaken(w.db.tokens, op.newHash);
  }

  // ---- Registration and verification ----

  predicate HoldsAddress(db: Db, u: Id, email: Email) {
    u in db.users && db.users[u].deletedAt == None && db.users[u].email.normalized == email.normalized
  }

  /** A registration fails for a taken address or a repeated id, and else adds these three rows. */
  lemma RegistrationOutcome(cfg: Config, w: World, op: Op)
    requires Reachable(cfg, w) && op.Register? && op.newHash !in w.minted
    ensures var o := Effect(cfg, w.db, op);
            var u, now := op.userId, op.now;
            if u in w.db.users then o == Outcome(w.db, Err(Database))
            else if exists x :: HoldsAddress(w.db, x, op.email) then o == Outcome(w.db, Err(EmailAlreadyExists))
            else if op.tokenId in w.db.tokens then o == Outcome(w.db, Err(Database))
            else
              && o.result == Ok(())
              && o.db == w.db.(
                 users := w.db.users[u := User(op.email, op.displayName, Pending, None, now, now, None, 1)],
                 credentials := w.db.credentials[u := Credential(Hashed(cfg, op.secret), now, 0, None, now, now)],
                 tokens := w.db.tokens[op.tokenId :=
                   OneTimeToken(u, EmailVerification, op.newHash, now + 86_400_000_000_000, None, now)])
  {
    ReachableTokensMinted(cfg, w);
    Passwords.ReachableHashes(cfg, w);
    assert !TokenHashTaken(w.db.tokens, op.newHash);
    AddressIsTaken(w.db, op.email);
    RegistrationRows(w.db, RegistrationOf(cfg, op));
  }

  lemma AddressIsTaken(db: Db, email: Email)
    ensures UserByEmail(db, email.normalized).Some? <==> exists x :: HoldsAddress(db, x, email)
  {
    var holder := UserByEmail(db, email.normalized);
    if holder.Some? {
      assert HoldsAddress(db, holder.value, email);
    } else {
      assert forall x | HoldsAddress(db, x, email) :: OwnsEmail(db, x, email.normalized);
    }
  }

  lemma RegistrationRows(db: Db, r: RegistrationRecord)
    requires db.credentials.Keys == db.users.Keys && !TokenHashTaken(db.tokens, r.tokenHash)
    requires r.user.version == 1 && r.user.createdAt < r.tokenExpiresAt
    ensures var o, at := CreateRegistration(db, r), r.user.createdAt;
            if r.userId in db.users then o == Outcome(db, Err(Database))
            else if UserByEmail(db, r.user.email.normalized).Some? then o == Outcome(db, Err(EmailAlreadyExists))
            else if r.tokenId in db.tokens then o == Outcome(db, Err(Database))
            else
              && o.result == Ok(())
              && o.db == db.(
                 users := db.users[r.userId := User(r.user.email, r.user.displayName, r.user.status, None, at,
                                                    r.user.updatedAt, None, 1)],
                 credentials := db.credentials[r.userId := Credential(r.passwordHash, at, 0, None, at, at)],
                 tokens := db.tokens[r.tokenId :=
                   OneTimeToken(r.userId, EmailVerification, r.tokenHash, r.tokenExpiresAt, None, at)])
  {
  }

  /** The answer to a verification is that of the token row with the hash and of its owner's row. */
  lemma VerificationOutcome(cfg: Config, w: World, h: TokenHash, now: Instant)
    requires Reachable(cfg, w)
    ensures (forall t :: !IsToken(w.db, t, h, EmailVerification)) ==>
              VerifyEmail(w.db, h, now) == Outcome(w.db, Err(VerificationTokenInvalid))
    ensures forall t | IsToken(w.db, t, h, EmailVerification) ::
              var token, o := w.db.tokens[t], VerifyEmail(w.db, h, now);
              && token.userId in w.db.users
              && var user := w.db.users[token.userId];
              if user.deletedAt != None then o == Outcome(w.db, Err(VerificationTokenInvalid))
              else if token.usedAt != None then o == Outcome(w.db, Err(VerificationTokenUsed))
              else if now >= user.createdAt + 86_400_000_000_000 then o == Outcome(w.db, Err(VerificationTokenExpired))
              else
                var activated := User(user.email, user.displayName, Active, Some(now), user.createdAt, now, None, 2);
                o == Outcome(
                  w.db.(users := w.db.users[token.userId := activated],
                  tokens := w.db.tokens[t := token.(usedAt := Some(now))]),
                  Ok(activated))
  {
    L.ReachableConsistent(cfg, w);
    O.ReachableActivations(cfg, w);
    if forall t :: !IsToken(w.db, t, h, EmailVerification) {
      FindsNoToken(w.db, h, EmailVerification);
    }
    forall t | IsToken(w.db, t, h, EmailVerification)
      ensures w.db.tokens[t].userId in w.db.users
      ensures O.Activation(w.db.users[w.db.tokens[t].userId], w.db.tokens[t])
      ensures VerifyEmail(w.db, h, now) == VerifyWith(w.db, t, now)
    {
      FindsToken(w.db, t, h, EmailVerification);
      assert O.Verifies(w.db, t, w.db.tokens[t].userId);
    }
  }

  // ---- Sessions ----

  /** A login fails for a repeated session id or a missing user, and else inserts this row. */
  lemma LoginOutcome(cfg: Config, w: World, op: Op)
    requires Reachable(cfg, w) && op.Login? && op.newHash !in w.minted && cfg.refreshTtl > 0
    ensures Effect(cfg, w.db, op)
         == if op.sessionId in w.db.sessions || op.userId !in w.db.users then Outcome(w.db, Err(Database))
            else
              Outcome(
                w.db.(sessions := w.db.sessions[op.sessionId :=
                  Session(op.userId, op.newHash, op.metadata, op.now + cfg.refreshTtl, op.now, None, op.now)]),
                Ok(()))
  {
    L.ReachableLinear(cfg, w);
    Lifetimes.NextIsFree(w, op.newHash);
  }

  /** The outcome of presenting hash `h` of session `s`. */
  ghost predicate Refreshes(
    db: Db, s: Id, h: TokenHash, next: TokenHash, metadata: Metadata, now: Instant, o: Outcome<SessionIdentity>)
    requires s in db.sessions && db.sessions[s].userId in db.users
  {
    var row := db.sessions[s];
    var user := db.users[row.userId];
    if h != row.refreshHash then o == Outcome(db.(sessions := db.sessions[s := Ended(row, now)]), Err(RefreshTokenReused))
    else if row.revokedAt != None then o == Outcome(db, Err(SessionRevoked))
    else if now >= row.expiresAt then o == Outcome(db, Err(SessionExpired))
    else if user.status != Active || user.deletedAt != None then
      o == Outcome(db.(sessions := db.sessions[s := Ended(row, now)]), Err(AccountUnavailable))
    else
      var rotated := Session(row.userId, next, metadata, row.expiresAt, now, None, row.createdAt);
      o == Outcome(
        db.(used := db.used[h := UsedToken(s, now, row.expiresAt)], sessions := db.sessions[s := rotated]),
        Ok(SessionIdentity(s, row.userId, user, row.expiresAt)))
  }

  /** The answer to any hash, and what becomes of the session it was issued to. */
  lemma RefreshOutcome(
    cfg: Config, w: World, h: TokenHash, next: TokenHash, metadata: Metadata, now: Instant, s: Id)
    requires Reachable(cfg, w) && next !in w.minted && s in w.issued && h in w.issued[s]
    ensures s in w.db.sessions && w.db.sessions[s].userId in w.db.users
    ensures Refreshes(w.db, s, h, next, metadata, now, RotateRefreshToken(w.db, h, next, metadata, now))
  {
    L.ReachableLinear(cfg, w);
    assert L.ChainOfSession(w, s);
    L.Resolves(w, s, h);
    Lifetimes.NextIsFree(w, next);
    FoundOutcome(w.db, s, h, next, metadata, now);
  }

  lemma FoundOutcome(db: Db, s: Id, h: TokenHash, next: TokenHash, metadata: Metadata, now: Instant)
    requires s in db.sessions && db.sessions[s].userId in db.users
    requires db.sessions[s].refreshHash !in db.used && !RefreshHashTaken(db.sessions, next, Some(s))
    requires if h == db.sessions[s].refreshHash then SessionByHash(db, h) == Some(s)
             else SessionByHash(db, h) == None && h in db.used && db.used[h].sessionId == s
    ensures Refreshes(db, s, h, next, metadata, now, RotateRefreshToken(db, h, next, metadata, now))
  {
    assert RevokeIds(db.sessions, {s}, now) == db.sessions[s := Ended(db.sessions[s], now)];
  }

  /** A hash that was never issued is unknown and changes nothing. */
  lemma UnknownRefreshOutcome(cfg: Config, w: World, h: TokenHash, next: TokenHash, metadata: Metadata, now: Instant)
    requires Reachable(cfg, w) && forall s | s in w.issued :: h !in w.issued[s]
    ensures RotateRefreshToken(w.db, h, next, metadata, now) == Outcome(w.db, Err(RefreshTokenInvalid))
  {
    L.ReachableLinear(cfg, w);
    assert h in w.place ==> L.Placed(w, h);
    Lifetimes.UnknownHash(w, h);
  }
}
