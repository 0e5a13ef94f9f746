/**
 Verification and password-reset tokens over whole runs: each activates an
 account or changes a password at most once, and a user never has two usable
 reset tokens.
 */
module OneTimeTokens {
  import opened Wrappers
  import opened Tables
  import opened Transactions
  import opened History
  import Argon2id
  import P = Preservation
  import L = Lineage

  // ---- At most one usable reset token ----

  ghost predicate SinglePendingReset(tokens: map<Id, OneTimeToken>) {
    forall u, a, b | PendingReset(tokens, a, u) && PendingReset(tokens, b, u) :: a == b
  }

  /** No reset token became usable that was not usable before. */
  ghost predicate NoNewReset(a: map<Id, OneTimeToken>, b: map<Id, OneTimeToken>) {
    forall t, u | PendingReset(b, t, u) :: PendingReset(a, t, u)
  }

  lemma CreatePasswordResetInvalidates(db: Db, r: PasswordResetRecord)
    requires CreatePasswordReset(db, r).result.Ok?
    ensures var b := CreatePasswordReset(db, r).db.tokens;
            && PendingReset(b, r.tokenId, r.userId)
            && (forall t | PendingReset(b, t, r.userId) :: t == r.tokenId)
            && (forall t, u | u != r.userId && PendingReset(b, t, u) :: PendingReset(db.tokens, t, u))
  {
  }

  lemma ResetPasswordUses(db: Db, h: TokenHash, next: string, now: Instant)
    ensures NoNewReset(db.tokens, ResetPassword(db, h, next, now).db.tokens)
  {
  }

  lemma OthersAddNoReset(cfg: Config, db: Db, op: Op)
    requires !op.Forgot?
    ensures NoNewReset(db.tokens, Effect(cfg, db, op).db.tokens)
  {
    if op.Recover? {
      ResetPasswordUses(db, op.hash, Hashed(cfg, op.secret), op.now);
    }
  }

  lemma StepSinglePending(cfg: Config, w: World, op: Op)
    requires SinglePendingReset(w.db.tokens)
    ensures SinglePendingReset(Step(cfg, w, op).db.tokens)
  {
    if op.Forgot? {
      if Succeeds(cfg, w, op) {
        CreatePasswordResetInvalidates(w.db, ResetRecord(op));
      }
    } else {
      OthersAddNoReset(cfg, w.db, op);
    }
  }

  lemma {:induction false} RunSinglePending(cfg: Config, w: World, ops: seq<Op>)
    requires SinglePendingReset(w.db.tokens)
    ensures SinglePendingReset(Run(cfg, w, ops).db.tokens)
    decreases |ops|
  {
    if ops != [] {
      StepSinglePending(cfg, w, ops[0]);
      RunSinglePending(cfg, Step(cfg, w, ops[0]), ops[1..]);
    }
  }

  /** In every reachable state a user has at most one usable reset token. */
  lemma OneUsableReset(cfg: Config, w: World)
    requires Reachable(cfg, w)
    ensures SinglePendingReset(w.db.tokens)
  {
    var ops :| AdmissibleRun(cfg, Empty(), ops) && Run(cfg, Empty(), ops) == w;
    RunSinglePending(cfg, Empty(), ops);
  }

  /** A successful reset leaves its user without a usable reset token. */
  lemma ResetLeavesNone(cfg: Config, w: World, op: Op)
    requires Reachable(cfg, w) && op.Recover? && Succeeds(cfg, w, op)
    ensures var t := TokenByHash(w.db, op.hash, PasswordRecovery);
            && t.Some? && t.value in w.db.tokens
            && forall a :: !PendingReset(Step(cfg, w, op).db.tokens, a, w.db.tokens[t.value].userId)
  {
    OneUsableReset(cfg, w);
    var t := TokenByHash(w.db, op.hash, PasswordRecovery).value;
    var u := w.db.tokens[t].userId;
    assert PendingReset(w.db.tokens, t, u);
    ResetPasswordUses(w.db, op.hash, Hashed(cfg, op.secret), op.now);
  }

  // ---- Used tokens stay used ----

  lemma UsedResetIsRefused(db: Db, t: Id, next: string, now: Instant)
    requires Consistent(db) && t in db.tokens && db.tokens[t].purpose == PasswordRecovery && db.tokens[t].usedAt.Some?
    ensures ResetPassword(db, db.tokens[t].tokenHash, next, now) == Outcome(db, Err(PasswordResetTokenUsed))
  {
    assert OwnsTokenHash(db, t, db.tokens[t].tokenHash, PasswordRecovery);
  }

  lemma UsedVerificationIsRefused(db: Db, t: Id, now: Instant)
    requires Consistent(db) && t in db.tokens && db.tokens[t].purpose == EmailVerification && db.tokens[t].usedAt.Some?
    ensures VerifyEmail(db, db.tokens[t].tokenHash, now)
         == Outcome(db, Err(if db.users[db.tokens[t].userId].deletedAt.Some? then VerificationTokenInvalid
                            else VerificationTokenUsed))
  {
    assert OwnsTokenHash(db, t, db.tokens[t].tokenHash, EmailVerification);
  }

  lemma UsedTokenStays(cfg: Config, w: World, t: Id, ops: seq<Op>)
    requires Reachable(cfg, w) && AdmissibleRun(cfg, w, ops) && t in w.db.tokens && w.db.tokens[t].usedAt.Some?
    ensures var v := Run(cfg, w, ops);
            Consistent(v.db) && t in v.db.tokens && v.db.tokens[t] == w.db.tokens[t]
  {
    L.ReachableLinear(cfg, w);
    RunKeeps(cfg, w, ops);
    assert P.TokenEvolves(w.db.tokens[t], Run(cfg, w, ops).db.tokens[t]);
  }

  /** Each reset token changes a password at most once: after that it is refused for ever and changes nothing. */
  lemma ResetTokenWorksOnce(cfg: Config, w: World, op: Op, after: seq<Op>, next: string, now: Instant)
    requires Reachable(cfg, w) && op.Recover? && Admissible(w, op) && Succeeds(cfg, w, op)
    requires AdmissibleRun(cfg, Step(cfg, w, op), after)
    ensures var v := Run(cfg, Step(cfg, w, op), after).db;
            ResetPassword(v, op.hash, next, now) == Outcome(v, Err(PasswordResetTokenUsed))
  {
    var t := TokenByHash(w.db, op.hash, PasswordRecovery).value;
    var used := Step(cfg, w, op);
    assert used.db.tokens[t] == w.db.tokens[t].(usedAt := Some(op.now));
    ReachableStep(cfg, w, op);
    UsedTokenStays(cfg, used, t, after);
    UsedResetIsRefused(Run(cfg, used, after).db, t, next, now);
  }

  /** A newer reset request invalidates every earlier reset token of the user, for ever. */
  lemma NewerRequestInvalidates(cfg: Config, w: World, op: Op, t: Id, after: seq<Op>, next: string, now: Instant)
    requires Reachable(cfg, w) && op.Forgot? && Admissible(w, op) && Succeeds(cfg, w, op)
    requires t in w.db.tokens && w.db.tokens[t].userId == op.userId && w.db.tokens[t].purpose == PasswordRecovery
    requires AdmissibleRun(cfg, Step(cfg, w, op), after)
    ensures var v := Run(cfg, Step(cfg, w, op), after).db;
            ResetPassword(v, w.db.tokens[t].tokenHash, next, now) == Outcome(v, Err(PasswordResetTokenUsed))
  {
    var v := Step(cfg, w, op);
    CreatePasswordResetInvalidates(w.db, ResetRecord(op));
    EffectKeeps(cfg, w.db, op);
    assert t != op.tokenId && P.TokenEvolves(w.db.tokens[t], v.db.tokens[t]);
    assert !PendingReset(v.db.tokens, t, op.userId);
    ReachableStep(cfg, w, op);
    UsedTokenStays(cfg, v, t, after);
    UsedResetIsRefused(Run(cfg, v, after).db, t, next, now);
  }

  /** Each verification token activates at most once. */
  lemma VerificationTokenWorksOnce(cfg: Config, w: World, op: Op, after: seq<Op>, now: Instant)
    requires Reachable(cfg, w) && op.Verify? && Admissible(w, op) && Succeeds(cfg, w, op)
    requires AdmissibleRun(cfg, Step(cfg, w, op), after)
    ensures var v := Run(cfg, Step(cfg, w, op), after).db;
            var r := VerifyEmail(v, op.hash, now);
            r.db == v && (r.result == Err(VerificationTokenUsed) || r.result == Err(VerificationTokenInvalid))
  {
    var t := TokenByHash(w.db, op.hash, EmailVerification).value;
    var used := Step(cfg, w, op);
    assert used.db.tokens[t] == w.db.tokens[t].(usedAt := Some(op.now));
    ReachableStep(cfg, w, op);
    UsedTokenStays(cfg, used, t, after);
    UsedVerificationIsRefused(Run(cfg, used, after).db, t, now);
  }

  // ---- Resets in time ----

  ghost predicate ResetTimes(tokens: map<Id, OneTimeToken>) {
    forall t | t in tokens && tokens[t].purpose == PasswordRecovery ::
      tokens[t].expiresAt == tokens[t].createdAt + PASSWORD_RESET_TOKEN_TTL
  }

  /** Nothing happens to tokens but that they are used up and verification tokens are added. */
  ghost predicate OnlyUses(a: map<Id, OneTimeToken>, b: map<Id, OneTimeToken>) {
    forall t | t in b && b[t].purpose == PasswordRecovery ::
      t in a && b[t].(usedAt := None) == a[t].(usedAt := None)
  }

  lemma RecoveryOnlyUses(db: Db, h: TokenHash, next: string, now: Instant)
    ensures OnlyUses(db.tokens, ResetPassword(db, h, next, now).db.tokens)
  {
  }

  lemma OthersOnlyUse(cfg: Config, db: Db, op: Op)
    requires !op.Forgot?
    ensures OnlyUses(db.tokens, Effect(cfg, db, op).db.tokens)
  {
    if op.Recover? {
      RecoveryOnlyUses(db, op.hash, Hashed(cfg, op.secret), op.now);
    }
  }

  lemma RequestKeepsTimes(db: Db, op: Op)
    requires op.Forgot? && ResetTimes(db.tokens)
    ensures ResetTimes(CreatePasswordReset(db, ResetRecord(op)).db.tokens)
  {
  }

  lemma StepResetTimes(cfg: Config, w: World, op: Op)
    requires ResetTimes(w.db.tokens)
    ensures ResetTimes(Step(cfg, w, op).db.tokens)
  {
    StepDb(cfg, w, op);
    if op.Forgot? {
      RequestKeepsTimes(w.db, op);
    } else {
      OthersOnlyUse(cfg, w.db, op);
    }
  }

  lemma {:induction false} RunResetTimes(cfg: Config, w: World, ops: seq<Op>)
    requires ResetTimes(w.db.tokens)
    ensures ResetTimes(Run(cfg, w, ops).db.tokens)
    decreases |ops|
  {
    if ops != [] {
      StepResetTimes(cfg, w, ops[0]);
      RunResetTimes(cfg, Step(cfg, w, ops[0]), ops[1..]);
    }
  }

  lemma ReachableResetTimes(cfg: Config, w: World)
    requires Reachable(cfg, w)
    ensures ResetTimes(w.db.tokens)
  {
    var ops :| AdmissibleRun(cfg, Empty(), ops) && Run(cfg, Empty(), ops) == w;
    RunResetTimes(cfg, Empty(), ops);
  }

  /** A recovery succeeds only within an hour of the request that created its token. */
  lemma ResetInTime(cfg: Config, w: World, op: Op)
    requires Reachable(cfg, w) && op.Recover? && Succeeds(cfg, w, op)
    ensures var t := TokenByHash(w.db, op.hash, PasswordRecovery);
            t.Some? && t.value in w.db.tokens && op.now < w.db.tokens[t.value].createdAt + PASSWORD_RESET_TOKEN_TTL
  {
    ReachableResetTimes(cfg, w);
  }

  // ---- Activation ----

  predicate Verifies(db: Db, t: Id, u: Id) {
    t in db.tokens && db.tokens[t].purpose == EmailVerification && db.tokens[t].userId == u
  }

  /** The account agrees with its verification token, which was used within 24 hours of the registration. */
  predicate Activation(user: User, token: OneTimeToken) {
    && token.createdAt == user.createdAt && token.expiresAt == user.createdAt + VERIFICATION_TOKEN_TTL
    && (token.usedAt.Some? ==> token.usedAt.value < token.expiresAt)
    && user.version == (if token.usedAt.Some? then 2 else 1)
    && user.verifiedAt == token.usedAt
    && (user.status == Active ==> token.usedAt.Some?)
    && (user.status == Pending ==> token.usedAt.None?)
  }

  ghost predicate Activations(db: Db) {
    && (forall u | u in db.users :: exists t :: Verifies(db, t, u))
    && (forall u, s, t | Verifies(db, s, u) && Verifies(db, t, u) :: s == t)
    && (forall u, t | u in db.users && Verifies(db, t, u) :: Activation(db.users[u], db.tokens[t]))
  }

  /** Accounts and verification tokens are as they were. */
  ghost predicate SameAccounts(a: Db, b: Db) {
    && a.users == b.users
    && (forall t, u :: Verifies(a, t, u) <==> Verifies(b, t, u))
    && (forall t, u | Verifies(b, t, u) :: b.tokens[t] == a.tokens[t])
  }

  lemma ActivationsKept(a: Db, b: Db)
    requires Activations(a) && SameAccounts(a, b)
    ensures Activations(b)
  {
  }

  lemma ResetsLeaveAccounts(db: Db, r: PasswordResetRecord, h: TokenHash, next: string, now: Instant)
    ensures SameAccounts(db, CreatePasswordReset(db, r).db)
    ensures SameAccounts(db, ResetPassword(db, h, next, now).db)
  {
  }

  lemma EffectLeavesAccounts(cfg: Config, db: Db, op: Op)
    requires !op.Register? && !op.Verify? && !op.Sanction?
    ensures SameAccounts(db, Effect(cfg, db, op).db)
  {
    if op.Forgot? {
      ResetsLeaveAccounts(db, ResetRecord(op), 0, "", 0);
    } else if op.Recover? {
      ResetsLeaveAccounts(db, PasswordResetRecord(0, 0, 0, 0, 0), op.hash, Hashed(cfg, op.secret), op.now);
    }
  }

  lemma RegisteringActivates(db: Db, r: RegistrationRecord)
    requires Consistent(db) && Activations(db) && r.user.version == 1 && r.user.status == Pending
    requires r.tokenExpiresAt == r.user.createdAt + VERIFICATION_TOKEN_TTL
    ensures Activations(CreateRegistration(db, r).db)
  {
    var b := CreateRegistration(db, r).db;
    if b != db {
      forall u | u in b.users ensures exists t :: Verifies(b, t, u) {
        if u == r.userId {
          assert Verifies(b, r.tokenId, u);
        } else {
          var t :| Verifies(db, t, u);
          assert Verifies(b, t, u);
        }
      }
      assert forall t, u | Verifies(b, t, u) :: t == r.tokenId || Verifies(db, t, u);
      assert forall t, u | Verifies(db, t, u) :: u in db.users;
    }
  }

  lemma VerifyingActivates(db: Db, h: TokenHash, now: Instant)
    requires Activations(db)
    ensures Activations(VerifyEmail(db, h, now).db)
  {
    var o := VerifyEmail(db, h, now);
    if o.result.Ok? {
      var t := TokenByHash(db, h, EmailVerification).value;
      var u := db.tokens[t].userId;
      assert Verifies(db, t, u) && Activation(db.users[u], db.tokens[t]);
      forall s, v ensures Verifies(o.db, s, v) <==> Verifies(db, s, v) {
      }
      forall v | v in o.db.users ensures exists s :: Verifies(o.db, s, v) {
        var s :| Verifies(db, s, v);
        assert Verifies(o.db, s, v);
      }
    }
  }

  lemma SanctionKeepsActivations(db: Db, u: Id, what: Transactions.Sanction, now: Instant)
    requires Activations(db)
    ensures Activations(Sanctioned(db, u, what, now))
  {
    var b := Sanctioned(db, u, what, now);
    assert b.tokens == db.tokens && b.users.Keys == db.users.Keys;
    assert forall s, v :: Verifies(b, s, v) <==> Verifies(db, s, v);
  }

  lemma StepActivations(cfg: Config, w: World, op: Op)
    requires Consistent(w.db) && Activations(w.db)
    ensures Activations(Step(cfg, w, op).db)
  {
    if op.Register? {
      RegisteringActivates(w.db, RegistrationOf(cfg, op));
    } else if op.Verify? {
      VerifyingActivates(w.db, op.hash, op.now);
    } else if op.Sanction? {
      SanctionKeepsActivations(w.db, op.userId, op.what, op.now);
    } else {
      EffectLeavesAccounts(cfg, w.db, op);
      ActivationsKept(w.db, Step(cfg, w, op).db);
    }
  }

  lemma {:induction false} RunActivations(cfg: Config, w: World, ops: seq<Op>)
    requires Consistent(w.db) && Activations(w.db)
    ensures Activations(Run(cfg, w, ops).db)
    decreases |ops|
  {
    if ops != [] {
      EffectKeeps(cfg, w.db, ops[0]);
      StepActivations(cfg, w, ops[0]);
      RunActivations(cfg, Step(cfg, w, ops[0]), ops[1..]);
    }
  }

  lemma ReachableActivations(cfg: Config, w: World)
    requires Reachable(cfg, w)
    ensures Activations(w.db)
  {
    var ops :| AdmissibleRun(cfg, Empty(), ops) && Run(cfg, Empty(), ops) == w;
    RunActivations(cfg, Empty(), ops);
  }

  /**
   In every reachable state an account has exactly one verification token, its
   version, verification time and status agree with whether that token was used,
   and it was never verified more than 24 hours after it was registered.
   */
  lemma AccountsMatchTheirTokens(cfg: Config, w: World, u: Id)
    requires Reachable(cfg, w) && u in w.db.users
    ensures exists t ::
              && Verifies(w.db, t, u)
              && (forall s | Verifies(w.db, s, u) :: s == t)
              && Activation(w.db.users[u], w.db.tokens[t])
    ensures var user := w.db.users[u];
            user.verifiedAt.Some? ==> user.verifiedAt.value < user.createdAt + VERIFICATION_TOKEN_TTL
  {
    ReachableActivations(cfg, w);
    var t :| Verifies(w.db, t, u);
    assert Activation(w.db.users[u], w.db.tokens[t]);
  }

  /** `h` is the hash of the account's own verification token, unused and unexpired, and the account is not deleted. */
  ghost predicate CanVerify(db: Db, u: Id, h: TokenHash, now: Instant)
    requires u in db.users
  {
    && db.users[u].deletedAt.None?
    && exists t ::
         && Verifies(db, t, u) && db.tokens[t].tokenHash == h
         && db.tokens[t].usedAt.None? && now < db.tokens[t].expiresAt
  }

  lemma VerificationActivates(db: Db, u: Id, h: TokenHash, now: Instant)
    requires Consistent(db) && u in db.users && db.users[u].status != Active
    ensures var b := VerifyEmail(db, h, now).db;
            u in b.users && (b.users[u].status == Active <==> CanVerify(db, u, h, now))
  {
    var found := TokenByHash(db, h, EmailVerification);
    forall t | Verifies(db, t, u) && db.tokens[t].tokenHash == h ensures found == Some(t) {
      assert OwnsTokenHash(db, t, h, EmailVerification);
    }
    assert found.Some? && db.tokens[found.value].userId == u ==> Verifies(db, found.value, u);
  }

  lemma RegistrationActivatesNobody(db: Db, r: RegistrationRecord, u: Id)
    requires u in db.users
    ensures var b := CreateRegistration(db, r).db; u in b.users && b.users[u] == db.users[u]
  {
  }

  lemma SanctionActivatesNobody(db: Db, v: Id, what: Transactions.Sanction, now: Instant, u: Id)
    requires u in db.users && db.users[u].status != Active
    ensures var b := Sanctioned(db, v, what, now); u in b.users && b.users[u].status != Active
  {
  }

  /**
   Which step activates an account: exactly a verification with that account's
   own unused, unexpired token while the account is not deleted.  Its status does
   not matter, so an account blocked before it was ever verified is activated too.
   */
  lemma WhatActivates(cfg: Config, w: World, op: Op, u: Id)
    requires Consistent(w.db) && u in w.db.users && w.db.users[u].status != Active
    ensures var v := Step(cfg, w, op).db;
            && u in v.users
            && (v.users[u].status == Active <==> op.Verify? && CanVerify(w.db, u, op.hash, op.now))
  {
    if op.Verify? {
      VerificationActivates(w.db, u, op.hash, op.now);
    } else if op.Register? {
      RegistrationActivatesNobody(w.db, RegistrationOf(cfg, op), u);
    } else if op.Sanction? {
      SanctionActivatesNobody(w.db, op.userId, op.what, op.now, u);
    } else {
      EffectLeavesAccounts(cfg, w.db, op);
    }
  }

  /** A registration and a block before the address is verified. */
  function BlockedEarly(secret: Secret): seq<Op> {
    [Op.Register(1, Email(1, 1), "", secret, 2, 3, 0), Op.Sanction(1, Block, 0)]
  }

  lemma BlockedEarlyRuns(cfg: Config, secret: Secret)
    requires |secret.salt| == Argon2id.DEFAULT_PARAMS.saltLength
    ensures var register, block := BlockedEarly(secret)[0], BlockedEarly(secret)[1];
            Run(cfg, Empty(), BlockedEarly(secret)) == Step(cfg, Step(cfg, Empty(), register), block)
    ensures Reachable(cfg, Run(cfg, Empty(), BlockedEarly(secret)))
  {
    var register, block := BlockedEarly(secret)[0], BlockedEarly(secret)[1];
    var registered := Step(cfg, Empty(), register);
    assert BlockedEarly(secret)[1..] == [block] && [block][1..] == [];
    assert Run(cfg, registered, [block]) == Step(cfg, registered, block) && AdmissibleRun(cfg, registered, [block]);
    assert AdmissibleRun(cfg, Empty(), BlockedEarly(secret));
  }

  lemma BlockedEarlyTables(cfg: Config, secret: Secret)
    ensures var register, block := BlockedEarly(secret)[0], BlockedEarly(secret)[1];
            var db := Step(cfg, Step(cfg, Empty(), register), block).db;
            && db.users == map[1 := NewUser(Email(1, 1), "", 0).(status := Blocked)]
            && db.tokens == map[2 := OneTimeToken(1, EmailVerification, 3, VERIFICATION_TOKEN_TTL, None, 0)]
  {
    var register := BlockedEarly(secret)[0];
    var db := Empty().db;
    assert UserByEmail(db, 1).None? && !TokenHashTaken(db.tokens, 3);
    StepDb(cfg, Empty(), register);
    assert CreateRegistration(db, RegistrationOf(cfg, register)).result.Ok?;
    StepDb(cfg, Step(cfg, Empty(), register), BlockedEarly(secret)[1]);
  }

  /** The surprising case is reachable: a blocked account that was never verified is activated by its token. */
  lemma BlockedAccountIsActivated(cfg: Config, secret: Secret)
    requires |secret.salt| == Argon2id.DEFAULT_PARAMS.saltLength
    ensures var w := Run(cfg, Empty(), BlockedEarly(secret));
            var v := Step(cfg, w, Op.Verify(3, 0));
            && Reachable(cfg, w) && Reachable(cfg, v)
            && 1 in w.db.users && w.db.users[1].status == Blocked && w.db.users[1].verifiedAt.None?
            && 1 in v.db.users && v.db.users[1].status == Active
  {
    var w := Run(cfg, Empty(), BlockedEarly(secret));
    BlockedEarlyRuns(cfg, secret);
    BlockedEarlyTables(cfg, secret);
    L.ReachableConsistent(cfg, w);
    assert Verifies(w.db, 2, 1);
    WhatActivates(cfg, w, Op.Verify(3, 0), 1);
    ReachableStep(cfg, w, Op.Verify(3, 0));
  }
}
