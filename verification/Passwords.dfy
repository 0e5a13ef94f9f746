/**
 Credentials over whole runs: every stored hash was printed by the hasher for
 the password its owner last chose, and changing a password ends every session.
 */
module Passwords {
  import opened Wrappers
  import opened Tables
  import opened Transactions
  import opened History
  import A = Argon2id
  import L = Lineage
  import P = Preservation

  // ---- Every stored hash verifies ----

  ghost predicate HashOfSecret(cfg: Config, w: World, u: Id)
    requires u in w.db.credentials
  {
    && u in w.secrets
    && |w.secrets[u].salt| == A.DEFAULT_PARAMS.saltLength
    && w.db.credentials[u].passwordHash == Hashed(cfg, w.secrets[u])
  }

  ghost predicate Hashes(cfg: Config, w: World) {
    && w.db.credentials.Keys == w.db.users.Keys
    && (forall u | u in w.db.credentials :: HashOfSecret(cfg, w, u))
  }

  ghost predicate CredentialsUntouched(w: World, v: World) {
    v.db.credentials == w.db.credentials && v.secrets == w.secrets && v.db.users.Keys == w.db.users.Keys
  }

  ghost predicate Added(cfg: Config, w: World, v: World, u: Id, secret: Secret, now: Instant) {
    && v.db.users.Keys == w.db.users.Keys + {u}
    && v.db.credentials == w.db.credentials[u := Credential(Hashed(cfg, secret), now, 0, None, now, now)]
    && v.secrets == w.secrets[u := secret]
  }

  lemma RegistrationShape(cfg: Config, w: World, op: Op)
    requires op.Register?
    ensures var v := Step(cfg, w, op);
            if Succeeds(cfg, w, op) then Added(cfg, w, v, op.userId, op.secret, op.now)
            else CredentialsUntouched(w, v)
  {
  }

  /** Whose password a successful step replaces. */
  ghost function Target(db: Db, op: Op): Id
    requires op.ReplacePassword? || op.Recover?
  {
    match op
    case ReplacePassword(u, _, _, _) => u
    case Recover(h, _, _) =>
      var t := TokenByHash(db, h, PasswordRecovery);
      if t.Some? then db.tokens[t.value].userId else NIL
  }

  ghost predicate Replaced(cfg: Config, w: World, v: World, u: Id, secret: Secret, now: Instant) {
    && u in w.db.credentials && v.db.users == w.db.users
    && v.db.credentials == w.db.credentials[u := w.db.credentials[u].Renewed(Hashed(cfg, secret), now)]
    && v.secrets == w.secrets[u := secret]
  }

  lemma ChangeShape(cfg: Config, w: World, op: Op)
    requires op.ReplacePassword?
    ensures var v := Step(cfg, w, op);
            if Succeeds(cfg, w, op) then Replaced(cfg, w, v, Target(w.db, op), op.secret, op.now)
            else CredentialsUntouched(w, v)
  {
  }

  lemma RecoveryShape(cfg: Config, w: World, op: Op)
    requires op.Recover? && w.db.credentials.Keys == w.db.users.Keys
    ensures var v := Step(cfg, w, op);
            if Succeeds(cfg, w, op) then Replaced(cfg, w, v, Target(w.db, op), op.secret, op.now)
            else CredentialsUntouched(w, v)
  {
  }

  /** One account gets a new hash together with the secret it is made from. */
  lemma HashesWith(cfg: Config, w: World, v: World, u: Id, secret: Secret)
    requires Hashes(cfg, w) && |secret.salt| == A.DEFAULT_PARAMS.saltLength
    requires v.db.users.Keys == w.db.users.Keys + {u} && v.db.credentials.Keys == w.db.credentials.Keys + {u}
    requires v.db.credentials[u].passwordHash == Hashed(cfg, secret) && v.secrets == w.secrets[u := secret]
    requires forall x | x in w.db.credentials && x != u :: v.db.credentials[x] == w.db.credentials[x]
    ensures Hashes(cfg, v)
  {
    forall x | x in v.db.credentials ensures HashOfSecret(cfg, v, x) {
      assert x != u ==> HashOfSecret(cfg, w, x);
    }
  }

  lemma UntouchedHashes(cfg: Config, w: World, v: World)
    requires Hashes(cfg, w) && CredentialsUntouched(w, v)
    ensures Hashes(cfg, v)
  {
  }

  lemma RegisterHashes(cfg: Config, w: World, op: Op)
    requires Hashes(cfg, w) && op.Register? && Admissible(w, op)
    ensures Hashes(cfg, Step(cfg, w, op))
  {
    RegistrationShape(cfg, w, op);
    if Succeeds(cfg, w, op) {
      AddedHashes(cfg, w, Step(cfg, w, op), op.userId, op.secret, op.now);
    } else {
      UntouchedHashes(cfg, w, Step(cfg, w, op));
    }
  }

  lemma AddedHashes(cfg: Config, w: World, v: World, u: Id, secret: Secret, now: Instant)
    requires Hashes(cfg, w) && Added(cfg, w, v, u, secret, now) && |secret.salt| == A.DEFAULT_PARAMS.saltLength
    ensures Hashes(cfg, v)
  {
    HashesWith(cfg, w, v, u, secret);
  }

  lemma ReplacedHashes(cfg: Config, w: World, v: World, u: Id, secret: Secret, now: Instant)
    requires Hashes(cfg, w) && Replaced(cfg, w, v, u, secret, now) && |secret.salt| == A.DEFAULT_PARAMS.saltLength
    ensures Hashes(cfg, v)
  {
    HashesWith(cfg, w, v, u, secret);
  }

  lemma ChangingHashes(cfg: Config, w: World, op: Op)
    requires Hashes(cfg, w) && op.ReplacePassword? && Admissible(w, op)
    ensures Hashes(cfg, Step(cfg, w, op))
  {
    ChangeShape(cfg, w, op);
    if Succeeds(cfg, w, op) {
      ReplacedHashes(cfg, w, Step(cfg, w, op), Target(w.db, op), op.secret, op.now);
    } else {
      UntouchedHashes(cfg, w, Step(cfg, w, op));
    }
  }

  lemma RecoveringHashes(cfg: Config, w: World, op: Op)
    requires Hashes(cfg, w) && op.Recover? && Admissible(w, op)
    ensures Hashes(cfg, Step(cfg, w, op))
  {
    RecoveryShape(cfg, w, op);
    if Succeeds(cfg, w, op) {
      ReplacedHashes(cfg, w, Step(cfg, w, op), Target(w.db, op), op.secret, op.now);
    } else {
      UntouchedHashes(cfg, w, Step(cfg, w, op));
    }
  }

  lemma OthersLeaveCredentials(cfg: Config, w: World, op: Op)
    requires !op.Register? && !op.ReplacePassword? && !op.Recover?
    ensures CredentialsUntouched(w, Step(cfg, w, op))
  {
    match op
    case Verify(h, now) => VerificationLeavesCredentials(w.db, h, now);
    case Refresh(h, newHash, metadata, _, now) => RotationLeavesCredentials(w.db, h, newHash, metadata, now);
    case _ =>
  }

  lemma VerificationLeavesCredentials(db: Db, h: TokenHash, now: Instant)
    ensures var b := VerifyEmail(db, h, now).db; b.credentials == db.credentials && b.users.Keys == db.users.Keys
  {
  }

  lemma RotationLeavesCredentials(db: Db, h: TokenHash, next: TokenHash, metadata: Metadata, now: Instant)
    ensures var b := RotateRefreshToken(db, h, next, metadata, now).db;
            b.credentials == db.credentials && b.users == db.users
  {
  }

  lemma StepHashes(cfg: Config, w: World, op: Op)
    requires Hashes(cfg, w) && Admissible(w, op)
    ensures Hashes(cfg, Step(cfg, w, op))
  {
    if op.Register? {
      RegisterHashes(cfg, w, op);
    } else if op.ReplacePassword? {
      ChangingHashes(cfg, w, op);
    } else if op.Recover? {
      RecoveringHashes(cfg, w, op);
    } else {
      OthersLeaveCredentials(cfg, w, op);
      UntouchedHashes(cfg, w, Step(cfg, w, op));
    }
  }

  lemma {:induction false} RunHashes(cfg: Config, w: World, ops: seq<Op>)
    requires Hashes(cfg, w) && AdmissibleRun(cfg, w, ops)
    ensures Hashes(cfg, Run(cfg, w, ops))
    decreases |ops|
  {
    if ops != [] {
      StepHashes(cfg, w, ops[0]);
      RunHashes(cfg, Step(cfg, w, ops[0]), ops[1..]);
    }
  }

  lemma ReachableHashes(cfg: Config, w: World)
    requires Reachable(cfg, w)
    ensures Hashes(cfg, w)
  {
    var ops :| AdmissibleRun(cfg, Empty(), ops) && Run(cfg, Empty(), ops) == w;
    RunHashes(cfg, Empty(), ops);
  }

  /**
   In every reachable state every account has a credential, its hash parses,
   checking any candidate against it is decided without an error, and the
   password the account was last given passes.
   */
  lemma StoredHashesVerify(cfg: Config, w: World, u: Id, candidate: A.Bytes)
    requires Reachable(cfg, w) && A.KeysFit(cfg.kdf) && u in w.db.users
    ensures u in w.db.credentials && u in w.secrets
    ensures A.ParseHash(w.db.credentials[u].passwordHash).Some?
    ensures A.Verify(cfg.kdf, candidate, w.db.credentials[u].passwordHash)
         == Some(cfg.kdf(candidate, w.secrets[u].salt, 2, 19456, 1, 32)
                 == cfg.kdf(w.secrets[u].password, w.secrets[u].salt, 2, 19456, 1, 32))
  {
    ReachableHashes(cfg, w);
    assert HashOfSecret(cfg, w, u);
    A.ParseEncoded(cfg.kdf, w.secrets[u].password, w.secrets[u].salt, A.DEFAULT_PARAMS);
    A.VerifyEncoded(cfg.kdf, candidate, w.secrets[u].password, w.secrets[u].salt, A.DEFAULT_PARAMS);
  }

  // ---- A new password ends every session ----

  lemma ReplacementEffect(cfg: Config, db: Db, op: Op)
    requires op.ReplacePassword? || op.Recover?
    requires Effect(cfg, db, op).result.Ok?
    ensures var b := Effect(cfg, db, op).db;
            var u := Target(db, op);
            && (forall s | s in b.sessions && b.sessions[s].userId == u :: b.sessions[s].revokedAt.Some?)
            && b.sessions.Keys == db.sessions.Keys
            && (forall s | s in db.sessions && db.sessions[s].userId != u :: b.sessions[s] == db.sessions[s])
            && b.credentials.Keys == db.credentials.Keys
            && (forall x | x in db.credentials && x != u :: b.credentials[x] == db.credentials[x])
            && (u in db.credentials ==> b.credentials[u].passwordHash == Hashed(cfg, op.secret))
            && b.users == db.users && b.used == db.used
  {
  }

  /** A session stays revoked, and no hash it was ever issued rotates. */
  ghost predicate Ended(v: World, s: Id, since: Option<Instant>) {
    && s in v.db.sessions && v.db.sessions[s].revokedAt == since && since.Some?
    && s in v.issued
    && forall g, next, metadata, now | g in v.issued[s] :: RotateRefreshToken(v.db, g, next, metadata, now).result.Err?
  }

  /** Everything that belongs to other users is as it was. */
  ghost predicate OthersUntouched(a: Db, b: Db, u: Id) {
    && b.sessions.Keys == a.sessions.Keys && b.credentials.Keys == a.credentials.Keys
    && b.users == a.users && b.used == a.used
    && (forall t | t in a.sessions && a.sessions[t].userId != u :: b.sessions[t] == a.sessions[t])
    && (forall x | x in a.credentials && x != u :: b.credentials[x] == a.credentials[x])
  }

  /**
   After a successful password change or recovery every session of the user is
   revoked and stays so, no hash any of them was ever issued rotates again, and
   no other user's session or credential is touched.
   */
  lemma NewPasswordEndsSessions(cfg: Config, w: World, op: Op, after: seq<Op>)
    requires Reachable(cfg, w) && (op.ReplacePassword? || op.Recover?) && Admissible(w, op) && Succeeds(cfg, w, op)
    requires AdmissibleRun(cfg, Step(cfg, w, op), after)
    ensures var v := Step(cfg, w, op);
            var last := Run(cfg, v, after);
            && OthersUntouched(w.db, v.db, Target(w.db, op))
            && forall s | s in w.db.sessions && w.db.sessions[s].userId == Target(w.db, op) ::
                 s in v.db.sessions && Ended(last, s, v.db.sessions[s].revokedAt)
  {
    ReplacementEffect(cfg, w.db, op);
    StepDb(cfg, w, op);
    forall s | s in w.db.sessions && w.db.sessions[s].userId == Target(w.db, op)
      ensures s in Step(cfg, w, op).db.sessions
              && Ended(Run(cfg, Step(cfg, w, op), after), s, Step(cfg, w, op).db.sessions[s].revokedAt)
    {
      SessionEnds(cfg, w, op, s, after);
    }
  }

  lemma SessionEnds(cfg: Config, w: World, op: Op, s: Id, after: seq<Op>)
    requires Reachable(cfg, w) && (op.ReplacePassword? || op.Recover?) && Admissible(w, op) && Succeeds(cfg, w, op)
    requires AdmissibleRun(cfg, Step(cfg, w, op), after)
    requires s in w.db.sessions && w.db.sessions[s].userId == Target(w.db, op)
    ensures var v := Step(cfg, w, op);
            s in v.db.sessions && Ended(Run(cfg, v, after), s, v.db.sessions[s].revokedAt)
  {
    ReplacementEffect(cfg, w.db, op);
    EffectKeeps(cfg, w.db, op);
    assert P.SessionEvolves(w.db.sessions[s], Step(cfg, w, op).db.sessions[s]);
    ReachableStep(cfg, w, op);
    L.RevocationIsPermanent(cfg, Step(cfg, w, op), s, after);
  }
}
