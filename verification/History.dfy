/**
 Serial runs of the service: every repository transaction is one atomic step.
 A world is the five tables together with what an observer remembers: which
 hashes were ever generated, which refresh hash each session was given in which
 order, every access token handed out, and the password behind each credential.
 */
module History {
  import opened Wrappers
  import opened Tables
  import opened Transactions
  import Argon2id
  import P = Preservation

  const HOUR: int := 3_600_000_000_000
  const VERIFICATION_TOKEN_TTL: int := 24 * HOUR
  const PASSWORD_RESET_TOKEN_TTL: int := HOUR

  datatype Config = Config(refreshTtl: int, accessTtl: int, kdf: Argon2id.Kdf)

  /** A password and the random salt it is hashed with. */
  datatype Secret = Secret(password: Argon2id.Bytes, salt: Argon2id.Bytes)

  function Hashed(cfg: Config, secret: Secret): string {
    Argon2id.EncodeHash(cfg.kdf, secret.password, secret.salt, Argon2id.DEFAULT_PARAMS)
  }

  datatype AccessToken = AccessToken(sessionId: Id, issuedAt: Instant, expiresAt: Instant, login: bool)

  /** Where a refresh hash was issued: its session and its position in that session's chain. */
  datatype Place = Place(session: Id, position: nat)

  datatype World = World(
    db: Db,
    minted: set<TokenHash>,
    issued: map<Id, seq<TokenHash>>,
    place: map<TokenHash, Place>,
    access: seq<AccessToken>,
    secrets: map<Id, Secret>,
    clock: Instant)

  function Empty(): World {
    World(Db(map[], map[], map[], map[], map[]), {}, map[], map[], [], map[], 0)
  }

  datatype Op =
    | Register(userId: Id, email: Email, displayName: string, secret: Secret, tokenId: Id, newHash: TokenHash, now: Instant)
    | Verify(hash: TokenHash, now: Instant)
    | Login(userId: Id, sessionId: Id, newHash: TokenHash, metadata: Metadata, now: Instant)
    | Refresh(hash: TokenHash, newHash: TokenHash, metadata: Metadata, signed: bool, now: Instant)
    | Logout(hash: TokenHash, now: Instant)
    | LogoutAll(userId: Id, now: Instant)
    | RevokeOwned(userId: Id, sessionId: Id, now: Instant)
    | ReplacePassword(userId: Id, expected: string, secret: Secret, now: Instant)
    | Forgot(userId: Id, tokenId: Id, newHash: TokenHash, now: Instant)
    | Recover(hash: TokenHash, secret: Secret, now: Instant)
    | Sanction(userId: Id, what: Transactions.Sanction, now: Instant)

  /** Whether the step starts with a call of the token generator. */
  predicate Mints(op: Op) {
    op.Register? || op.Login? || op.Refresh? || op.Forgot?
  }

  function RegistrationOf(cfg: Config, op: Op): RegistrationRecord
    requires op.Register?
  {
    RegistrationRecord(op.userId, NewUser(op.email, op.displayName, op.now), Hashed(cfg, op.secret),
                       op.tokenId, op.newHash, op.now + VERIFICATION_TOKEN_TTL)
  }

  function LoginRecord(cfg: Config, op: Op): SessionRecord
    requires op.Login?
  {
    SessionRecord(op.sessionId, op.userId, op.newHash, op.metadata, op.now + cfg.refreshTtl, op.now)
  }

  function ResetRecord(op: Op): PasswordResetRecord
    requires op.Forgot?
  {
    PasswordResetRecord(op.tokenId, op.userId, op.newHash, op.now + PASSWORD_RESET_TOKEN_TTL, op.now)
  }

  function Erased<T>(o: Outcome<T>): Outcome<()> {
    Outcome(o.db, match o.result case Ok(_) => Ok(()) case Err(e) => Err(e))
  }

  /** The transaction a step runs. */
  ghost function Effect(cfg: Config, db: Db, op: Op): Outcome<()> {
    match op
    case Register(_, _, _, _, _, _, _) => CreateRegistration(db, RegistrationOf(cfg, op))
    case Verify(h, now) => Erased(VerifyEmail(db, h, now))
    case Login(_, _, _, _, _) => CreateSession(db, LoginRecord(cfg, op))
    case Refresh(h, newHash, metadata, _, now) => Erased(RotateRefreshToken(db, h, newHash, metadata, now))
    case Logout(h, now) => RevokeSession(db, h, now)
    case LogoutAll(u, now) => Erased(RevokeAllSessions(db, u, now))
    case RevokeOwned(u, s, now) => RevokeOwnedSession(db, u, s, now)
    case ReplacePassword(u, expected, secret, now) => ChangePassword(db, u, expected, Hashed(cfg, secret), now)
    case Forgot(_, _, _, _) => CreatePasswordReset(db, ResetRecord(op))
    case Recover(h, secret, now) => ResetPassword(db, h, Hashed(cfg, secret), now)
    case Sanction(u, what, now) => Outcome(Sanctioned(db, u, what, now), Ok(()))
  }

  /** What the observer notes about a step that succeeded. */
  ghost function Noted(cfg: Config, before: World, op: Op, after: World): World {
    match op
    case Register(u, _, _, secret, _, _, _) => after.(secrets := after.secrets[u := secret])
    case Login(_, s, newHash, _, now) =>
      after.(issued := after.issued[s := [newHash]],
      place := after.place[newHash := Place(s, 0)],
      access := after.access + [AccessToken(s, now, now + cfg.accessTtl, true)])
    case Refresh(h, newHash, _, signed, now) =>
      var s := SessionByHash(before.db, h);
      if s.None? || s.value !in after.issued then after
      else
        var chain := after.issued[s.value];
        after.(issued := after.issued[s.value := chain + [newHash]],
        place := after.place[newHash := Place(s.value, |chain|)],
        access := if signed then after.access + [AccessToken(s.value, now, now + cfg.accessTtl, false)]
                  else after.access)
    case ReplacePassword(u, _, secret, _) => after.(secrets := after.secrets[u := secret])
    case Recover(h, secret, _) =>
      var t := TokenByHash(before.db, h, PasswordRecovery);
      if t.None? then after
      else after.(secrets := after.secrets[before.db.tokens[t.value].userId := secret])
    case _ => after
  }

  ghost function Step(cfg: Config, w: World, op: Op): World {
    var o := Effect(cfg, w.db, op);
    var moved := w.(db := o.db, clock := op.now, minted := if Mints(op) then w.minted + {op.newHash} else w.minted);
    if o.result.Ok? then Noted(cfg, w, op, moved) else moved
  }

  /** Whether the step succeeds. */
  ghost predicate Succeeds(cfg: Config, w: World, op: Op) {
    Effect(cfg, w.db, op).result.Ok?
  }

  /** The token generator never returns a hash twice, and hashed passwords meet the hasher's policy. */
  ghost predicate Admissible(w: World, op: Op) {
    && (Mints(op) ==> op.newHash !in w.minted)
    && (op.Register? || op.ReplacePassword? || op.Recover? ==>
          |op.secret.salt| == Argon2id.DEFAULT_PARAMS.saltLength)
  }

  ghost function Run(cfg: Config, w: World, ops: seq<Op>): World
    decreases |ops|
  {
    if ops == [] then w else Run(cfg, Step(cfg, w, ops[0]), ops[1..])
  }

  ghost predicate AdmissibleRun(cfg: Config, w: World, ops: seq<Op>)
    decreases |ops|
  {
    ops == [] || (Admissible(w, ops[0]) && AdmissibleRun(cfg, Step(cfg, w, ops[0]), ops[1..]))
  }

  /** The clock a run reads never goes back. */
  ghost predicate TimelyRun(clock: Instant, ops: seq<Op>)
    decreases |ops|
  {
    ops == [] || (clock <= ops[0].now && TimelyRun(ops[0].now, ops[1..]))
  }

  ghost predicate Reachable(cfg: Config, w: World) {
    exists ops :: AdmissibleRun(cfg, Empty(), ops) && Run(cfg, Empty(), ops) == w
  }

  lemma {:induction false} RunSplit(cfg: Config, w: World, a: seq<Op>, b: seq<Op>)
    ensures Run(cfg, w, a + b) == Run(cfg, Run(cfg, w, a), b)
    ensures AdmissibleRun(cfg, w, a + b) <==> AdmissibleRun(cfg, w, a) && AdmissibleRun(cfg, Run(cfg, w, a), b)
    decreases |a|
  {
    if a == [] {
      assert a + b == b;
    } else {
      assert (a + b)[0] == a[0] && (a + b)[1..] == a[1..] + b;
      RunSplit(cfg, Step(cfg, w, a[0]), a[1..], b);
    }
  }

  lemma ReachableRun(cfg: Config, w: World, ops: seq<Op>)
    requires Reachable(cfg, w) && AdmissibleRun(cfg, w, ops)
    ensures Reachable(cfg, Run(cfg, w, ops))
  {
    var before :| AdmissibleRun(cfg, Empty(), before) && Run(cfg, Empty(), before) == w;
    RunSplit(cfg, Empty(), before, ops);
    assert AdmissibleRun(cfg, Empty(), before + ops);
  }

  lemma ReachableStep(cfg: Config, w: World, op: Op)
    requires Reachable(cfg, w) && Admissible(w, op)
    ensures Reachable(cfg, Step(cfg, w, op))
  {
    assert Run(cfg, Step(cfg, w, op), []) == Step(cfg, w, op);
    assert [op][1..] == [];
    ReachableRun(cfg, w, [op]);
  }

  // ---- What every run keeps ----

  lemma EffectKeeps(cfg: Config, db: Db, op: Op)
    ensures P.Keeps(db, Effect(cfg, db, op).db)
  {
    match op
    case Register(_, _, _, _, _, _, _) => P.CreateRegistrationKeeps(db, RegistrationOf(cfg, op));
    case Verify(h, now) => P.VerifyEmailKeeps(db, h, now);
    case Login(_, _, _, _, _) => P.CreateSessionKeeps(db, LoginRecord(cfg, op));
    case Refresh(h, newHash, metadata, _, now) => P.RotateRefreshTokenKeeps(db, h, newHash, metadata, now);
    case Logout(h, now) => P.Revoking(db, OwnersOf(db, h), now);
    case LogoutAll(u, now) => P.Revoking(db, SessionsOf(db.sessions, u), now);
    case RevokeOwned(u, s, now) => P.RevokeOwnedSessionKeeps(db, u, s, now);
    case ReplacePassword(u, expected, secret, now) => P.ChangePasswordKeeps(db, u, expected, Hashed(cfg, secret), now);
    case Forgot(_, _, _, _) => P.CreatePasswordResetKeeps(db, ResetRecord(op));
    case Recover(h, secret, now) => P.ResetPasswordKeeps(db, h, Hashed(cfg, secret), now);
    case Sanction(u, what, now) => P.SanctionedKeeps(db, u, what, now);
  }

  /**
   Over every run, whatever is called in whatever order: the constraints of the
   schema keep holding, rows stay, expiries stay, and the first `revoked_at` of
   a session and the first `used_at` of a token are never cleared or replaced.
   */
  lemma {:induction false} RunKeeps(cfg: Config, w: World, ops: seq<Op>)
    ensures P.Keeps(w.db, Run(cfg, w, ops).db)
    decreases |ops|
  {
    if ops == [] {
      P.Same(w.db);
    } else {
      var v := Step(cfg, w, ops[0]);
      EffectKeeps(cfg, w.db, ops[0]);
      RunKeeps(cfg, v, ops[1..]);
      P.Then(w.db, v.db, Run(cfg, w, ops).db);
    }
  }

  /** Only a login adds a session and only a rotation moves a refresh hash. */
  lemma EffectOnlyRevokes(cfg: Config, db: Db, op: Op)
    requires op.Login? || op.Refresh? ==> Effect(cfg, db, op).result.Err?
    ensures P.OnlyRevokes(db, Effect(cfg, db, op).db, op.now)
  {
    match op
    case Register(_, _, _, _, _, _, now) => P.RegistrationAndVerificationLeaveSessions(db, RegistrationOf(cfg, op), 0, now);
    case Verify(h, now) =>
      P.RegistrationAndVerificationLeaveSessions(
        db, RegistrationRecord(0, NewUser(Email(0, 0), "", 0), "", 0, 0, 0), h, now);
    case Login(_, _, _, _, _) =>
    case Refresh(h, newHash, metadata, _, now) => P.RefusedRotationOnlyRevokes(db, h, newHash, metadata, now);
    case Logout(h, now) => P.RevocationsOnlyRevoke(db, h, 0, 0, now);
    case LogoutAll(u, now) => P.RevocationsOnlyRevoke(db, 0, u, 0, now);
    case RevokeOwned(u, s, now) => P.RevocationsOnlyRevoke(db, 0, u, s, now);
    case ReplacePassword(u, expected, secret, now) => P.PasswordsOnlyRevoke(db, u, expected, 0, Hashed(cfg, secret), now);
    case Forgot(_, _, _, _) =>
    case Recover(h, secret, now) => P.PasswordsOnlyRevoke(db, 0, "", h, Hashed(cfg, secret), now);
    case Sanction(u, what, now) =>
  }

  lemma NotesNoChain(cfg: Config, w: World, op: Op)
    requires op.Login? || op.Refresh? ==> !Succeeds(cfg, w, op)
    ensures var v := Step(cfg, w, op);
            v.issued == w.issued && v.place == w.place && v.access == w.access && w.minted <= v.minted && v.clock == op.now
  {
  }

  /** What a successful login leaves behind. */
  lemma LoginShape(cfg: Config, w: World, op: Op)
    requires op.Login? && Succeeds(cfg, w, op)
    ensures var r := LoginRecord(cfg, op);
            var v := Step(cfg, w, op);
            && r.id !in w.db.sessions && r.userId in w.db.users
            && v.db == w.db.(sessions := w.db.sessions[r.id := r.Row()])
            && v.issued == w.issued[r.id := [r.refreshHash]]
            && v.place == w.place[r.refreshHash := Place(r.id, 0)]
            && v.minted == w.minted + {r.refreshHash} && v.clock == op.now
            && v.access == w.access + [AccessToken(r.id, op.now, op.now + cfg.accessTtl, true)]
  {
  }

  lemma StepDb(cfg: Config, w: World, op: Op)
    ensures Step(cfg, w, op).db == Effect(cfg, w.db, op).db
  {
  }

  lemma FailedLogin(cfg: Config, w: World, op: Op)
    requires op.Login?
    ensures !Succeeds(cfg, w, op) ==> Effect(cfg, w.db, op).result == Err(Database) && Step(cfg, w, op).db == w.db
  {
  }

  lemma RefreshEffect(cfg: Config, w: World, op: Op)
    requires op.Refresh?
    ensures var o := RotateRefreshToken(w.db, op.hash, op.newHash, op.metadata, op.now);
            && Effect(cfg, w.db, op) == Erased(o)
            && Succeeds(cfg, w, op) == o.result.Ok?
            && Step(cfg, w, op).db == o.db
  {
  }

  /** What a successful rotation leaves behind, in the tables and in the observer's notes. */
  lemma RotationShape(cfg: Config, w: World, op: Op)
    requires op.Refresh? && Succeeds(cfg, w, op) && w.issued.Keys == w.db.sessions.Keys
    ensures SessionByHash(w.db, op.hash).Some?
    ensures var id := SessionByHash(w.db, op.hash).value;
            var v := Step(cfg, w, op);
            var s := w.db.sessions[id];
            && s.refreshHash == op.hash && s.Live(op.now) && op.hash !in w.db.used
            && v.db.sessions == w.db.sessions[id := s.(refreshHash := op.newHash, metadata := op.metadata, lastUsedAt := op.now)]
            && v.db.used == w.db.used[op.hash := UsedToken(id, op.now, s.expiresAt)]
            && v.issued == w.issued[id := w.issued[id] + [op.newHash]]
            && v.place == w.place[op.newHash := Place(id, |w.issued[id]|)]
            && v.minted == w.minted + {op.newHash} && v.clock == op.now
            && v.access == (if op.signed then w.access + [AccessToken(id, op.now, op.now + cfg.accessTtl, false)] else w.access)
  {
  }
}
