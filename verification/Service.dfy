/**
 The application service: how each call composes repository transactions with
 the clock, the token generator, the password hasher and the access-token signer.
 What those collaborators return is passed in.
 */
module Services {
  import opened Wrappers
  import opened Tables
  import opened History
  import A = Argon2id
  import Lifetimes
  import Lineage
  import Passwords
  import Repositories
  import Transactions

  const MAX_DISPLAY_NAME_LENGTH: nat := 100

  datatype SessionResult = SessionResult(
    userId: Id,
    user: User,
    sessionId: Id,
    refreshHash: TokenHash,
    accessExpiresAt: Instant,
    refreshExpiresAt: Instant)

  /** The password derives the same key as the one the account was last given. */
  ghost predicate Passes(cfg: Config, w: World, u: Id, password: A.Bytes) {
    && u in w.secrets && |password| <= 1024
    && cfg.kdf(password, w.secrets[u].salt, 2, 19456, 1, 32)
    == cfg.kdf(w.secrets[u].password, w.secrets[u].salt, 2, 19456, 1, 32)
  }

  ghost predicate Authenticates(cfg: Config, w: World, normalized: nat, password: A.Bytes, u: Id) {
    Repositories.HoldsAddress(w.db.users, u, normalized) && Passes(cfg, w, u, password)
  }

  /** The signer refuses nil ids. */
  predicate Signs(signed: bool, userId: Id, sessionId: Id) {
    signed && userId != NIL && sessionId != NIL
  }

  /** The step a refresh takes; the session it finds decides whether the signer accepts. */
  ghost function RefreshOp(
    db: Db, h: TokenHash, next: TokenHash, metadata: Metadata, signed: bool, now: Instant): Op
  {
    var s := SessionByHash(db, h);
    Op.Refresh(h, next, metadata, s.Some? && Signs(signed, db.sessions[s.value].userId, s.value), now)
  }

  /** Read, checked and written in one go, the replaced hash is always the expected one. */
  lemma ReplacementOutcome(cfg: Config, w: World, op: Op)
    requires op.ReplacePassword? && op.userId in w.db.users && op.userId in w.db.credentials
    requires op.expected == w.db.credentials[op.userId].passwordHash
    ensures Effect(cfg, w.db, op).result.Ok? <==> w.db.users[op.userId].Usable()
  {
  }

  class Service {
    const cfg: Config
    const hasher: A.Hasher
    const repository: Repositories.Repository
    ghost var world: World

    /** The tables are those of a state that some run of the service reaches. */
    ghost predicate Valid()
      reads this, repository
    {
      && hasher.Valid() && hasher.kdf == cfg.kdf && cfg.refreshTtl > 0
      && Reachable(cfg, world) && world.db == repository.State()
    }

    constructor (cfg: Config)
      requires A.KeysFit(cfg.kdf) && cfg.refreshTtl > 0
      ensures Valid() && fresh(repository) && this.cfg == cfg && world == Empty()
    {
      this.cfg := cfg;
      hasher := new A.Hasher(cfg.kdf);
      repository := new Repositories.Repository();
      world := Empty();
      new;
      assert AdmissibleRun(cfg, Empty(), []) && Run(cfg, Empty(), []) == Empty();
    }

    // ---- Accounts ----

    method HashPassword(password: A.Candidate, random: Option<A.Bytes>) returns (r: Result<string>)
      requires hasher.Valid() && hasher.kdf == cfg.kdf && (random.Some? ==> |random.value| == A.DEFAULT_PARAMS.saltLength)
      ensures r == if password.characters < 15 || |password.bytes| > 1024 then Err(WeakPassword)
                   else if random.None? then Err(RandomnessFailed)
                   else Ok(Hashed(cfg, Secret(password.bytes, random.value)))
    {
      var h := hasher.Hash(password, random);
      match h
      case Printed(hash) => r := Ok(hash);
      case AgainstPolicy => r := Err(WeakPassword);
      case NoRandomness => r := Err(RandomnessFailed);
    }

    method Register(email: Option<Email>, displayName: string, password: A.Candidate, random: Option<A.Bytes>,
                    generated: Option<TokenHash>, userId: Id, tokenId: Id, mailed: bool, now: Instant)
      returns (r: Result<User>)
      requires Valid() && (random.Some? ==> |random.value| == A.DEFAULT_PARAMS.saltLength)
      requires generated.Some? ==> generated.value !in world.minted
      modifies this, repository
      ensures Valid()
      ensures if email.Some? && |displayName| <= 100 && password.MeetsPolicy()
                 && random.Some? && generated.Some?
              then
                var op := Op.Register(userId, email.value, displayName, Secret(password.bytes, random.value), tokenId,
                                      generated.value, now);
                && world == Step(cfg, old(world), op)
                && r == match Effect(cfg, old(world).db, op).result
                        case Err(e) => Err(e)
                        case Ok(_) => if mailed then Ok(NewUser(email.value, displayName, now)) else Err(MailFailed)
              else
                && world == old(world)
                && r == Err(if email.None? then InvalidEmail
                            else if |displayName| > 100 then InvalidDisplayName
                            else if !password.MeetsPolicy() then WeakPassword
                            else RandomnessFailed)
    {
      if email.None? {
        return Err(InvalidEmail);
      }
      if |displayName| > MAX_DISPLAY_NAME_LENGTH {
        return Err(InvalidDisplayName);
      }
      var hashed := HashPassword(password, random);
      if hashed.Err? {
        return Err(hashed.error);
      }
      if generated.None? {
        return Err(RandomnessFailed);
      }
      var user := NewUser(email.value, displayName, now);
      var created := Enrol(
        Transactions.RegistrationRecord(userId, user, hashed.value, tokenId, generated.value, now + VERIFICATION_TOKEN_TTL),
        Op.Register(userId, email.value, displayName, Secret(password.bytes, random.value), tokenId, generated.value, now));
      if created.Err? {
        return Err(created.error);
      }
      if !mailed {
        return Err(MailFailed);
      }
      r := Ok(user);
    }

    /** The repository transaction of a registration, and the step of the run it is. */
    method Enrol(record: Transactions.RegistrationRecord, ghost op: Op) returns (r: Result<()>)
      requires Valid() && op.Register? && Admissible(world, op) && record == RegistrationOf(cfg, op)
      modifies this, repository
      ensures Valid()
      ensures world == Step(cfg, old(world), op) && r == Effect(cfg, old(world).db, op).result
    {
      Lineage.ReachableConsistent(cfg, world);
      ReachableStep(cfg, world, op);
      StepDb(cfg, world, op);
      r := repository.CreateRegistration(record);
      world := Step(cfg, world, op);
    }

    method VerifyEmail(token: Option<TokenHash>, now: Instant) returns (r: Result<User>)
      requires Valid()
      modifies this, repository
      ensures Valid()
      ensures if token.Some? then
                && world == Step(cfg, old(world), Op.Verify(token.value, now))
                && r == Transactions.VerifyEmail(old(world).db, token.value, now).result
              else r == Err(VerificationTokenInvalid) && world == old(world)
    {
      if token.None? {
        return Err(VerificationTokenInvalid);
      }
      Lineage.ReachableConsistent(cfg, world);
      ReachableStep(cfg, world, Op.Verify(token.value, now));
      r := repository.VerifyEmail(token.value, now);
      world := Step(cfg, world, Op.Verify(token.value, now));
    }

    // ---- Sessions ----

    /** Burns the time of a password check on the dummy hash; the answer is always the same. */
    method RejectInvalidCredentials(password: A.Bytes) returns (e: Error)
      requires hasher.Valid() && hasher.kdf == cfg.kdf
      ensures e == InvalidCredentials
    {
      var candidate := if |password| > A.MAXIMUM_PASSWORD_BYTES then [] else password;
      hasher.DummyParses(candidate);
      if A.Verify(cfg.kdf, candidate, hasher.dummyHash).None? {
        return HashRejected;
      }
      e := InvalidCredentials;
    }

    /**
     A login succeeds exactly for a verified password of an active account, given
     a new session id and working collaborators; a wrong address and a wrong
     password get the same answer, and no stored hash is ever rejected.
     */
    method Login(email: Option<Email>, password: A.Bytes, metadata: Option<Metadata>,
                 generated: Option<TokenHash>, sessionId: Id, signed: bool, now: Instant)
      returns (r: Result<SessionResult>)
      requires Valid() && (generated.Some? ==> generated.value !in world.minted)
      modifies this, repository
      ensures Valid()
      ensures metadata.None? ==> r == Err(InvalidSessionMetadata)
      ensures metadata.Some? && email.None? ==> r == Err(InvalidCredentials)
      ensures metadata.Some? && email.Some? && (forall u :: !Authenticates(cfg, old(world), email.value.normalized, password, u))
              ==> r == Err(InvalidCredentials)
      ensures forall u |
                && metadata.Some? && email.Some?
                && Authenticates(cfg, old(world), email.value.normalized, password, u) ::
                var user := old(world).db.users[u];
                r == if user.status == Pending then Err(EmailNotVerified)
                     else if user.status != Active then Err(AccountUnavailable)
                     else if generated.None? then Err(RandomnessFailed)
                     else if !signed || u == NIL || sessionId == NIL then Err(SigningFailed)
                     else if sessionId in old(world).db.sessions then Err(Database)
                     else
                       Ok(SessionResult(u, user, sessionId, generated.value, now + cfg.accessTtl, now + cfg.refreshTtl))
      ensures forall u |
                && metadata.Some? && email.Some?
                && Repositories.HoldsAddress(old(world).db.users, u, email.value.normalized) && !Passes(cfg, old(world), u, password) ::
                r == Err(InvalidCredentials)
      ensures r.Ok? ==>
                && metadata.Some? && email.Some? && generated.Some?
                && Authenticates(cfg, old(world), email.value.normalized, password, r.value.userId)
                && var op := Op.Login(r.value.userId, sessionId, generated.value, metadata.value, now);
                && Succeeds(cfg, old(world), op) && world == Step(cfg, old(world), op)
      ensures r.Err? ==> world.db == old(world).db
    {
      if metadata.None? {
        return Err(InvalidSessionMetadata);
      }
      if email.None? {
        var e := RejectInvalidCredentials(password);
        return Err(e);
      }
      var identity := CheckPassword(email.value.normalized, password);
      if identity.Err? {
        return Err(identity.error);
      }
      if identity.value.user.status == Pending {
        return Err(EmailNotVerified);
      }
      if identity.value.user.status != Active {
        return Err(AccountUnavailable);
      }
      r := StartSession(identity.value, metadata.value, generated, sessionId, signed, now);
    }

    /** The part of a login after the checks: generate, sign, insert. */
    method StartSession(identity: Repositories.LoginIdentity, metadata: Metadata, generated: Option<TokenHash>,
                        sessionId: Id, signed: bool, now: Instant)
      returns (r: Result<SessionResult>)
      requires Valid() && identity.userId in world.db.users
      requires generated.Some? ==> generated.value !in world.minted
      modifies this, repository
      ensures Valid()
      ensures r.Err? <==>
                generated.None? || !signed || identity.userId == NIL || sessionId == NIL || sessionId in old(world).db.sessions
      ensures r.Err? ==> r.error == if generated.None? then RandomnessFailed
                                    else if !signed || identity.userId == NIL || sessionId == NIL then SigningFailed
                                    else Database
      ensures r.Ok? ==>
                && var op := Op.Login(identity.userId, sessionId, generated.value, metadata, now);
                && Succeeds(cfg, old(world), op) && world == Step(cfg, old(world), op)
                && r.value == SessionResult(identity.userId, identity.user, sessionId, generated.value,
                                            now + cfg.accessTtl, now + cfg.refreshTtl)
      ensures r.Err? ==> world.db == old(world).db
    {
      if generated.None? {
        return Err(RandomnessFailed);
      }
      if !Signs(signed, identity.userId, sessionId) {
        return Err(SigningFailed);
      }
      ghost var op := Op.Login(identity.userId, sessionId, generated.value, metadata, now);
      Lifetimes.LoginInsertOutcome(cfg, world, op);
      FailedLogin(cfg, world, op);
      var created := OpenSession(
        Transactions.SessionRecord(sessionId, identity.userId, generated.value, metadata, now + cfg.refreshTtl, now), op);
      if created.Err? {
        return Err(created.error);
      }
      r := Ok(SessionResult(identity.userId, identity.user, sessionId, generated.value,
                            now + cfg.accessTtl, now + cfg.refreshTtl));
    }

    /** The account behind an address, if the password passes against its stored hash. */
    method CheckPassword(normalized: nat, password: A.Bytes) returns (r: Result<Repositories.LoginIdentity>)
      requires Valid()
      ensures r.Err? ==> r.error == InvalidCredentials && forall u :: !Authenticates(cfg, world, normalized, password, u)
      ensures r.Ok? ==>
                && Authenticates(cfg, world, normalized, password, r.value.userId)
                && r.value.user == world.db.users[r.value.userId]
                && forall u | Repositories.HoldsAddress(world.db.users, u, normalized) :: u == r.value.userId
    {
      Lineage.ReachableConsistent(cfg, world);
      Passwords.ReachableHashes(cfg, world);
      var identity := repository.FindLoginIdentity(normalized);
      if identity.Err? {
        var e := RejectInvalidCredentials(password);
        return Err(e);
      }
      var u := identity.value.userId;
      assert forall v | Repositories.HoldsAddress(world.db.users, v, normalized) :: v == u;
      if |password| > A.MAXIMUM_PASSWORD_BYTES {
        var e := RejectInvalidCredentials([]);
        return Err(e);
      }
      Passwords.StoredHashesVerify(cfg, world, u, password);
      var matches := A.Verify(cfg.kdf, password, identity.value.passwordHash);
      if matches.None? {
        return Err(HashRejected);
      }
      if !matches.value {
        return Err(InvalidCredentials);
      }
      r := identity;
    }

    /** The repository transaction of a login, and the step of the run it is. */
    method OpenSession(record: Transactions.SessionRecord, ghost op: Op) returns (r: Result<()>)
      requires Valid() && op.Login? && Admissible(world, op) && record == LoginRecord(cfg, op)
      modifies this, repository
      ensures Valid()
      ensures world == Step(cfg, old(world), op) && r == Effect(cfg, old(world).db, op).result
    {
      Lineage.ReachableConsistent(cfg, world);
      ReachableStep(cfg, world, op);
      StepDb(cfg, world, op);
      r := repository.CreateSession(record);
      world := Step(cfg, world, op);
    }

    /**
     A refresh is a rotation followed by signing.  The schema never rejects it,
     and when only the signing fails the rotation has still happened.
     */
    method RefreshSession(token: Option<TokenHash>, metadata: Option<Metadata>, generated: Option<TokenHash>,
                          signed: bool, now: Instant)
      returns (r: Result<SessionResult>)
      requires Valid() && (generated.Some? ==> generated.value !in world.minted)
      modifies this, repository
      ensures Valid()
      ensures r != Err(Database)
      ensures if token.Some? && metadata.Some? && generated.Some? then
                var op := RefreshOp(old(world).db, token.value, generated.value, metadata.value, signed, now);
                var rotated := Transactions.RotateRefreshToken(old(world).db, token.value, generated.value, metadata.value, now).result;
                && world == Step(cfg, old(world), op)
                && r == match rotated
                        case Err(e) => Err(e)
                        case Ok(s) =>
                          if signed && s.userId != NIL && s.id != NIL then
                            Ok(SessionResult(s.userId, s.user, s.id, generated.value, now + cfg.accessTtl, s.expiresAt))
                          else Err(SigningFailed)
              else
                && world == old(world)
                && r == Err(if token.None? then RefreshTokenInvalid
                            else if metadata.None? then InvalidSessionMetadata
                            else RandomnessFailed)
    {
      if token.None? {
        return Err(RefreshTokenInvalid);
      }
      if metadata.None? {
        return Err(InvalidSessionMetadata);
      }
      if generated.None? {
        return Err(RandomnessFailed);
      }
      ghost var op := RefreshOp(world.db, token.value, generated.value, metadata.value, signed, now);
      Lineage.ReachableConsistent(cfg, world);
      Lifetimes.RotationOutcome(cfg, world, token.value, generated.value, metadata.value, now);
      ReachableStep(cfg, world, op);
      RefreshEffect(cfg, world, op);
      var session := repository.RotateRefreshToken(token.value, generated.value, metadata.value, now);
      world := Step(cfg, world, op);
      if session.Err? {
        return Err(session.error);
      }
      if !Signs(signed, session.value.userId, session.value.id) {
        return Err(SigningFailed);
      }
      r := Ok(SessionResult(session.value.userId, session.value.user, session.value.id, generated.value,
                            now + cfg.accessTtl, session.value.expiresAt));
    }

    method Logout(token: Option<TokenHash>, now: Instant)
      requires Valid()
      modifies this, repository
      ensures Valid()
      ensures world == if token.Some? then Step(cfg, old(world), Op.Logout(token.value, now)) else old(world)
    {
      if token.Some? {
        Lineage.ReachableConsistent(cfg, world);
        ReachableStep(cfg, world, Op.Logout(token.value, now));
        repository.RevokeSession(token.value, now);
        world := Step(cfg, world, Op.Logout(token.value, now));
      }
    }

    method LogoutAll(userId: Id, now: Instant) returns (r: Result<nat>)
      requires Valid()
      modifies this, repository
      ensures Valid()
      ensures if userId == NIL then r == Err(InvalidCredentials) && world == old(world)
              else
                && r == Ok(|Transactions.UnrevokedOf(old(world).db, userId)|)
                && world == Step(cfg, old(world), Op.LogoutAll(userId, now))
    {
      if userId == NIL {
        return Err(InvalidCredentials);
      }
      Lineage.ReachableConsistent(cfg, world);
      ReachableStep(cfg, world, Op.LogoutAll(userId, now));
      StepDb(cfg, world, Op.LogoutAll(userId, now));
      var count := repository.RevokeAllSessions(userId, now);
      world := Step(cfg, world, Op.LogoutAll(userId, now));
      r := Ok(count);
    }

    method RevokeSession(userId: Id, sessionId: Id, now: Instant) returns (r: Result<()>)
      requires Valid()
      modifies this, repository
      ensures Valid()
      ensures if userId == NIL || sessionId == NIL then r == Err(SessionNotFound) && world == old(world)
              else
                && r == Effect(cfg, old(world).db, Op.RevokeOwned(userId, sessionId, now)).result
                && world == Step(cfg, old(world), Op.RevokeOwned(userId, sessionId, now))
    {
      if userId == NIL || sessionId == NIL {
        return Err(SessionNotFound);
      }
      Lineage.ReachableConsistent(cfg, world);
      ReachableStep(cfg, world, Op.RevokeOwned(userId, sessionId, now));
      StepDb(cfg, world, Op.RevokeOwned(userId, sessionId, now));
      r := repository.RevokeOwnedSession(userId, sessionId, now);
      world := Step(cfg, world, Op.RevokeOwned(userId, sessionId, now));
    }

    // ---- Passwords ----

    /**
     Run without interference, a password change succeeds exactly for a usable
     account whose current password verifies and a new one that meets the policy.
     */
    method ChangePassword(userId: Id, current: A.Bytes, next: A.Candidate, random: Option<A.Bytes>, now: Instant)
      returns (r: Result<()>)
      requires Valid() && (random.Some? ==> |random.value| == A.DEFAULT_PARAMS.saltLength)
      modifies this, repository
      ensures Valid()
      ensures var db := old(world).db;
              r == if userId == NIL || |current| > 1024 then Err(InvalidCredentials)
                   else if userId !in db.users || db.users[userId].status != Active || db.users[userId].deletedAt != None then
                     Err(AccountUnavailable)
                   else if !Passes(cfg, old(world), userId, current) then Err(InvalidCredentials)
                   else if next.characters < 15 || |next.bytes| > 1024 then Err(WeakPassword)
                   else if random.None? then Err(RandomnessFailed)
                   else Ok(())
      ensures r.Ok? ==>
                && userId in old(world).db.credentials && random.Some?
                && world == Step(cfg, old(world),
                                 Op.ReplacePassword(userId, old(world).db.credentials[userId].passwordHash,
                                                    Secret(next.bytes, random.value), now))
      ensures r.Err? ==> world == old(world)
    {
      if userId == NIL || |current| > A.MAXIMUM_PASSWORD_BYTES {
        return Err(InvalidCredentials);
      }
      var stored := CurrentHash(userId, current);
      if stored.Err? {
        return Err(stored.error);
      }
      var hashed := HashPassword(next, random);
      if hashed.Err? {
        return Err(hashed.error);
      }
      ghost var op := Op.ReplacePassword(userId, stored.value, Secret(next.bytes, random.value), now);
      Lineage.ReachableConsistent(cfg, world);
      ReplacementOutcome(cfg, world, op);
      r := ReplacePassword(userId, stored.value, hashed.value, now, op);
    }

    /** The stored hash of a usable account, if the current password passes against it. */
    method CurrentHash(userId: Id, current: A.Bytes) returns (r: Result<string>)
      requires Valid() && |current| <= 1024
      ensures var db := world.db;
              if userId !in db.users || db.users[userId].status != Active || db.users[userId].deletedAt != None then
                r == Err(AccountUnavailable)
              else if !Passes(cfg, world, userId, current) then r == Err(InvalidCredentials)
              else userId in db.credentials && r == Ok(db.credentials[userId].passwordHash)
    {
      Passwords.ReachableHashes(cfg, world);
      var stored := repository.GetPasswordCredential(userId);
      if stored.Err? {
        return Err(stored.error);
      }
      Passwords.StoredHashesVerify(cfg, world, userId, current);
      var matches := A.Verify(cfg.kdf, current, stored.value);
      if matches.None? {
        return Err(HashRejected);
      }
      if !matches.value {
        return Err(InvalidCredentials);
      }
      r := stored;
    }

    /** The repository transaction of a password change, and the step of the run it is. */
    method ReplacePassword(userId: Id, expected: string, newHash: string, now: Instant, ghost op: Op)
      returns (r: Result<()>)
      requires Valid() && op.ReplacePassword? && Admissible(world, op)
      requires userId == op.userId && expected == op.expected && now == op.now && newHash == Hashed(cfg, op.secret)
      modifies this, repository
      ensures Valid()
      ensures world == Step(cfg, old(world), op) && r == Effect(cfg, old(world).db, op).result
    {
      Lineage.ReachableConsistent(cfg, world);
      ReachableStep(cfg, world, op);
      StepDb(cfg, world, op);
      r := repository.ChangePassword(userId, expected, newHash, now);
      world := Step(cfg, world, op);
    }

    /** Silent about unknown and unavailable accounts. */
    method ForgotPassword(email: Option<Email>, generated: Option<TokenHash>, tokenId: Id, mailed: bool, now: Instant)
      returns (r: Result<()>)
      requires Valid() && (generated.Some? ==> generated.value !in world.minted)
      modifies this, repository
      ensures Valid()
      ensures email.None? ==> r == Ok(()) && world == old(world)
      ensures email.Some? && (forall u | Repositories.HoldsAddress(old(world).db.users, u, email.value.normalized) ::
                                old(world).db.users[u].status != Active)
              ==> r == Ok(()) && world == old(world)
      ensures forall u | email.Some? && Repositories.HoldsAddress(old(world).db.users, u, email.value.normalized)
                         && old(world).db.users[u].status == Active ::
                if generated.None? then r == Err(RandomnessFailed) && world == old(world)
                else
                  var op := Op.Forgot(u, tokenId, generated.value, now);
                  && world == Step(cfg, old(world), op)
                  && r == match Effect(cfg, old(world).db, op).result
                          case Err(e) => Err(e)
                          case Ok(_) => if mailed then Ok(()) else Err(MailFailed)
    {
      if email.None? {
        return Ok(());
      }
      Lineage.ReachableConsistent(cfg, world);
      var user := repository.FindPasswordResetUser(email.value.normalized);
      if user.Err? {
        return Ok(());
      }
      var u := user.value;
      if generated.None? {
        return Err(RandomnessFailed);
      }
      ghost var op := Op.Forgot(u, tokenId, generated.value, now);
      var created := RequestReset(
        Transactions.PasswordResetRecord(tokenId, u, generated.value, now + PASSWORD_RESET_TOKEN_TTL, now), op);
      if created.Err? {
        return Err(created.error);
      }
      if !mailed {
        return Err(MailFailed);
      }
      r := Ok(());
    }

    /** The repository transaction of a reset request, and the step of the run it is. */
    method RequestReset(record: Transactions.PasswordResetRecord, ghost op: Op) returns (r: Result<()>)
      requires Valid() && op.Forgot? && Admissible(world, op) && record == ResetRecord(op)
      modifies this, repository
      ensures Valid()
      ensures world == Step(cfg, old(world), op) && r == Effect(cfg, old(world).db, op).result
    {
      Lineage.ReachableConsistent(cfg, world);
      ReachableStep(cfg, world, op);
      StepDb(cfg, world, op);
      r := repository.CreatePasswordReset(record);
      world := Step(cfg, world, op);
    }

    method ResetPassword(token: Option<TokenHash>, next: A.Candidate, random: Option<A.Bytes>, now: Instant)
      returns (r: Result<()>)
      requires Valid() && (random.Some? ==> |random.value| == A.DEFAULT_PARAMS.saltLength)
      modifies this, repository
      ensures Valid()
      ensures if token.Some? && next.MeetsPolicy() && random.Some? then
                var op := Op.Recover(token.value, Secret(next.bytes, random.value), now);
                && world == Step(cfg, old(world), op)
                && r == Effect(cfg, old(world).db, op).result
              else
                && world == old(world)
                && r == Err(if token.None? then PasswordResetTokenInvalid
                            else if !next.MeetsPolicy() then WeakPassword
                            else RandomnessFailed)
    {
      if token.None? {
        return Err(PasswordResetTokenInvalid);
      }
      var hashed := HashPassword(next, random);
      if hashed.Err? {
        return Err(hashed.error);
      }
      ghost var op := Op.Recover(token.value, Secret(next.bytes, random.value), now);
      r := Recover(token.value, hashed.value, now, op);
    }

    /** The repository transaction of a reset, and the step of the run it is. */
    method Recover(token: TokenHash, newHash: string, now: Instant, ghost op: Op) returns (r: Result<()>)
      requires Valid() && op.Recover? && Admissible(world, op)
      requires token == op.hash && now == op.now && newHash == Hashed(cfg, op.secret)
      modifies this, repository
      ensures Valid()
      ensures world == Step(cfg, old(world), op) && r == Effect(cfg, old(world).db, op).result
    {
      Lineage.ReachableConsistent(cfg, world);
      ReachableStep(cfg, world, op);
      StepDb(cfg, world, op);
      r := repository.ResetPassword(token, newHash, now);
      world := Step(cfg, world, op);
    }
  }
}
