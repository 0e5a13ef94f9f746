/**
 Password-reset requests and recoveries with transactions that interleave, under
 the model assumption stated in RotationRace.  The insert of a request and its
 commit are one step, since the unique index keeps its entry reserved in between;
 so are the updates of a recovery and its commit, since a session inserted in
 between would need a lock on the user row, through its foreign key.
 */
module ResetTokenRace {
  import opened Wrappers
  import opened Tables
  import opened RowLocks
  import opened Transactions
  import H = History
  import L = Lineage
  import O = OneTimeTokens

  datatype Job =
    | Request(record: PasswordResetRecord)
    | Recovery(hash: TokenHash, next: string, now: Instant)

  datatype Pc =
    | Begin
    | Waiting                                    // request: account seen usable, waits for its row
    | UserLocked                                 // request: account locked and still usable
    | Invalidating(rows: set<Id>, marked: set<Id>) // request: the update saw `rows`, has locked and marked some
    | Found(token: Id)                           // recovery: waits for the token row
    | TokenLocked(token: Id)                     // recovery: waits for the account row
    | BothLocked(token: Id)
    | Resetting(token: Id)                       // recovery: all updates done, not committed
    | Finished(result: Result<()>)
    | Aborted

  datatype Tx = Tx(job: Job, pc: Pc)

  /** The tables that no request or recovery reads. */
  datatype Rest = Rest(credentials: map<Id, Credential>, sessions: map<Id, Session>, used: map<TokenHash, UsedToken>)

  datatype Shared = Shared(
    users: map<Id, User>,
    tokens: map<Id, OneTimeToken>,
    rest: Rest,
    txs: map<TxId, Tx>,
    tokenLocks: Locks,
    userLocks: Locks,
    changes: seq<Id>) // the reset token behind every committed password recovery

  /** The tables as the serial transactions see them. */
  function AsDb(st: Shared): Db {
    Db(st.users, st.rest.credentials, st.rest.sessions, st.tokens, st.rest.used)
  }

  datatype Label =
    | Start(tx: TxId, job: Job)
    | LookupUser(tx: TxId)
    | LockUser(tx: TxId)
    | BeginUpdate(tx: TxId)
    | MarkRow(tx: TxId, row: Id)
    | LookupToken(tx: TxId)
    | LockToken(tx: TxId)
    | LockOwner(tx: TxId)
    | Decide(tx: TxId)
    | Commit(tx: TxId)
    | Abort(tx: TxId)
    | Environment(after: Db)

  // ---- Transitions ----

  function Move(st: Shared, i: TxId, pc: Pc): Shared
    requires i in st.txs
  {
    st.(txs := st.txs[i := st.txs[i].(pc := pc)])
  }

  function Leave(st: Shared, i: TxId, pc: Pc): Shared
    requires i in st.txs
  {
    Move(st, i, pc).(tokenLocks := Released(st.tokenLocks, i), userLocks := Released(st.userLocks, i))
  }

  predicate UsableIn(users: map<Id, User>, u: Id) {
    u in users && users[u].Usable()
  }

  /** The rows the update of a request selects. */
  function PendingRows(tokens: map<Id, OneTimeToken>, u: Id): set<Id> {
    set t | t in tokens && PendingReset(tokens, t, u)
  }

  ghost predicate SameResets(a: map<Id, OneTimeToken>, b: map<Id, OneTimeToken>) {
    && (forall t | t in a && a[t].purpose == PasswordRecovery :: t in b && b[t] == a[t])
    && (forall t | t in b && b[t].purpose == PasswordRecovery :: t in a && b[t] == a[t])
  }

  /** What other transactions may do: never touch reset tokens, and nothing that is locked. */
  ghost predicate Permitted(st: Shared, users: map<Id, User>, tokens: map<Id, OneTimeToken>) {
    && UniqueTokenHashes(tokens)
    && SameResets(st.tokens, tokens)
    && (forall u | u in st.users :: u in users)
    && (forall u | u in st.users && u in st.userLocks :: users[u] == st.users[u])
  }

  ghost predicate Enabled(st: Shared, l: Label) {
    match l
    case Start(i, _) => i !in st.txs
    case LookupUser(i) => i in st.txs && st.txs[i].job.Request? && st.txs[i].pc.Begin?
    case LockUser(i) =>
      i in st.txs && st.txs[i].job.Request? && st.txs[i].pc.Waiting? && Free(st.userLocks, st.txs[i].job.record.userId, i)
    case BeginUpdate(i) => i in st.txs && st.txs[i].job.Request? && st.txs[i].pc.UserLocked?
    case MarkRow(i, t) =>
      && i in st.txs && st.txs[i].job.Request? && st.txs[i].pc.Invalidating?
      && t in st.txs[i].pc.rows && t !in st.txs[i].pc.marked && t in st.tokens && Free(st.tokenLocks, t, i)
    case LookupToken(i) => i in st.txs && st.txs[i].job.Recovery? && st.txs[i].pc.Begin?
    case LockToken(i) =>
      && i in st.txs && st.txs[i].job.Recovery? && st.txs[i].pc.Found?
      && st.txs[i].pc.token in st.tokens && Free(st.tokenLocks, st.txs[i].pc.token, i)
    case LockOwner(i) =>
      && i in st.txs && st.txs[i].job.Recovery? && st.txs[i].pc.TokenLocked?
      && st.txs[i].pc.token in st.tokens && Free(st.userLocks, st.tokens[st.txs[i].pc.token].userId, i)
    case Decide(i) =>
      && i in st.txs && st.txs[i].job.Recovery? && st.txs[i].pc.BothLocked?
      && st.txs[i].pc.token in st.tokens && st.tokens[st.txs[i].pc.token].userId in st.users
    case Commit(i) =>
      && i in st.txs
      && if st.txs[i].job.Request? then st.txs[i].pc.Invalidating? && st.txs[i].pc.rows <= st.txs[i].pc.marked
         else st.txs[i].pc.Resetting? && st.txs[i].pc.token in st.tokens
    case Abort(i) => i in st.txs && !st.txs[i].pc.Finished?
    case Environment(after) => Permitted(st, after.users, after.tokens)
  }

  /** The rows a request marked, as they are after its commit. */
  function Marked(tokens: map<Id, OneTimeToken>, marked: set<Id>, u: Id, now: Instant): map<Id, OneTimeToken> {
    map t | t in tokens ::
      if t in marked && PendingReset(tokens, t, u) then tokens[t].(usedAt := Some(now)) else tokens[t]
  }

  /** The credential with its new hash, and every session of the user revoked. */
  function Recovered(rest: Rest, u: Id, next: string, now: Instant): Rest {
    rest.(credentials := if u in rest.credentials then rest.credentials[u := rest.credentials[u].Renewed(next, now)]
                         else rest.credentials,
    sessions := RevokeIds(rest.sessions, SessionsOf(rest.sessions, u), now))
  }

  ghost function Committed(st: Shared, i: TxId): Shared
    requires Enabled(st, Commit(i))
  {
    match st.txs[i].job
    case Request(r) =>
      if r.tokenId in st.tokens || TokenHashTaken(st.tokens, r.tokenHash) || r.expiresAt <= r.createdAt then
        Leave(st, i, Finished(Err(Database)))
      else
        Leave(st, i, Finished(Ok(()))).(
        tokens := Marked(st.tokens, st.txs[i].pc.marked, r.userId, r.createdAt)[r.tokenId := r.Row()])
    case Recovery(_, next, now) =>
      var t := st.txs[i].pc.token;
      Leave(st, i, Finished(Ok(()))).(
      tokens := st.tokens[t := st.tokens[t].(usedAt := Some(now))],
      rest := Recovered(st.rest, st.tokens[t].userId, next, now),
      changes := st.changes + [t])
  }

  ghost function Decided(st: Shared, i: TxId): Shared
    requires Enabled(st, Decide(i))
  {
    var t := st.txs[i].pc.token;
    if st.tokens[t].usedAt.Some? then Leave(st, i, Finished(Err(PasswordResetTokenUsed)))
    else if st.txs[i].job.now >= st.tokens[t].expiresAt then Leave(st, i, Finished(Err(PasswordResetTokenExpired)))
    else if !st.users[st.tokens[t].userId].Usable() then Leave(st, i, Finished(Err(AccountUnavailable)))
    else Move(st, i, Resetting(t))
  }

  ghost function Next(st: Shared, l: Label): Shared
    requires Enabled(st, l)
  {
    match l
    case Start(i, job) => st.(txs := st.txs[i := Tx(job, Begin)])
    case LookupUser(i) =>
      if UsableIn(st.users, st.txs[i].job.record.userId) then Move(st, i, Waiting)
      else Leave(st, i, Finished(Err(AccountUnavailable)))
    case LockUser(i) =>
      var u := st.txs[i].job.record.userId;
      if UsableIn(st.users, u) then Move(st.(userLocks := st.userLocks[u := i]), i, UserLocked)
      else Leave(st, i, Finished(Err(AccountUnavailable)))
    case BeginUpdate(i) => Move(st, i, Invalidating(PendingRows(st.tokens, st.txs[i].job.record.userId), {}))
    case MarkRow(i, t) =>
      var pc := st.txs[i].pc;
      Move(st.(tokenLocks := st.tokenLocks[t := i]), i, pc.(marked := pc.marked + {t}))
    case LookupToken(i) =>
      (match TokenByHash(AsDb(st), st.txs[i].job.hash, PasswordRecovery)
       case None => Leave(st, i, Finished(Err(PasswordResetTokenInvalid)))
       case Some(t) => Move(st, i, Found(t)))
    case LockToken(i) =>
      var t := st.txs[i].pc.token;
      Move(st.(tokenLocks := st.tokenLocks[t := i]), i, TokenLocked(t))
    case LockOwner(i) =>
      var t := st.txs[i].pc.token;
      Move(st.(userLocks := st.userLocks[st.tokens[t].userId := i]), i, BothLocked(t))
    case Decide(i) => Decided(st, i)
    case Commit(i) => Committed(st, i)
    case Abort(i) => Leave(st, i, Aborted)
    case Environment(after) =>
      st.(users := after.users, tokens := after.tokens, rest := Rest(after.credentials, after.sessions, after.used))
  }

  // ---- Invariant ----

  ghost predicate HoldsUser(st: Shared, i: TxId, u: Id) {
    Holds(st.userLocks, i, u)
  }

  ghost predicate HoldsToken(st: Shared, i: TxId, t: Id) {
    Holds(st.tokenLocks, i, t)
  }

  ghost predicate IsReset(st: Shared, t: Id, h: TokenHash) {
    t in st.tokens && st.tokens[t].purpose == PasswordRecovery && st.tokens[t].tokenHash == h && st.tokens[t].userId in st.users
  }

  ghost predicate PcOk(st: Shared, tx: Tx, i: TxId) {
    match tx.pc
    case UserLocked => tx.job.Request? && HoldsUser(st, i, tx.job.record.userId) && UsableIn(st.users, tx.job.record.userId)
    case Invalidating(rows, marked) =>
      && tx.job.Request? && HoldsUser(st, i, tx.job.record.userId) && UsableIn(st.users, tx.job.record.userId)
      && PendingRows(st.tokens, tx.job.record.userId) <= rows
    case Found(t) => tx.job.Recovery? && IsReset(st, t, tx.job.hash)
    case TokenLocked(t) => tx.job.Recovery? && IsReset(st, t, tx.job.hash) && HoldsToken(st, i, t)
    case BothLocked(t) =>
      tx.job.Recovery? && IsReset(st, t, tx.job.hash) && HoldsToken(st, i, t) && HoldsUser(st, i, st.tokens[t].userId)
    case Resetting(t) =>
      && tx.job.Recovery? && IsReset(st, t, tx.job.hash) && HoldsToken(st, i, t) && HoldsUser(st, i, st.tokens[t].userId)
      && st.tokens[t].usedAt.None? && tx.job.now < st.tokens[t].expiresAt && UsableIn(st.users, st.tokens[t].userId)
    case _ => true
  }

  /** Every recovery on the log used its token up, and no token is on the log twice. */
  ghost predicate LogOk(st: Shared) {
    && (forall k | 0 <= k < |st.changes| ::
          && st.changes[k] in st.tokens && st.tokens[st.changes[k]].usedAt.Some?
          && st.tokens[st.changes[k]].purpose == PasswordRecovery)
    && (forall k, m | 0 <= k < m < |st.changes| :: st.changes[k] != st.changes[m])
  }

  ghost predicate Inv(st: Shared) {
    && UniqueTokenHashes(st.tokens)
    && O.SinglePendingReset(st.tokens)
    && LogOk(st)
    && (forall i | i in st.txs :: PcOk(st, st.txs[i], i))
  }

  /** What a step of transaction `i` leaves to every other transaction. */
  ghost predicate Frame(a: Shared, b: Shared, i: TxId) {
    && b.txs.Keys == a.txs.Keys
    && (forall j | j in a.txs && j != i :: b.txs[j] == a.txs[j])
    && OthersKeep(a.tokenLocks, b.tokenLocks, i)
    && OthersKeep(a.userLocks, b.userLocks, i)
    && b.users == a.users
    && (forall t | t in a.tokens ::
          && t in b.tokens && b.tokens[t].(usedAt := None) == a.tokens[t].(usedAt := None)
          && (b.tokens[t] == a.tokens[t] || HoldsUser(a, i, a.tokens[t].userId)))
    && (forall t, u | PendingReset(b.tokens, t, u) :: PendingReset(a.tokens, t, u) || HoldsUser(a, i, u))
  }

  lemma OthersKept(a: Shared, b: Shared, i: TxId, j: TxId)
    requires Frame(a, b, i) && j in a.txs && j != i && PcOk(a, a.txs[j], j)
    ensures PcOk(b, a.txs[j], j)
  {
  }

  lemma FrameKeeps(a: Shared, b: Shared, i: TxId)
    requires Inv(a) && i in a.txs && Frame(a, b, i) && PcOk(b, b.txs[i], i)
    requires UniqueTokenHashes(b.tokens) && O.SinglePendingReset(b.tokens) && LogOk(b)
    ensures Inv(b)
  {
    forall j | j in b.txs ensures PcOk(b, b.txs[j], j) {
      if j != i { OthersKept(a, b, i, j); }
    }
  }

  lemma LockKeeps(a: Shared, i: TxId, row: Id)
    requires Inv(a) && i in a.txs
    ensures Free(a.userLocks, row, i) ==> Inv(a.(userLocks := a.userLocks[row := i]))
    ensures Free(a.tokenLocks, row, i) ==> Inv(a.(tokenLocks := a.tokenLocks[row := i]))
  {
  }

  lemma Moved(a: Shared, i: TxId, pc: Pc)
    requires Inv(a) && i in a.txs && PcOk(a, a.txs[i].(pc := pc), i)
    ensures Inv(Move(a, i, pc))
  {
  }

  lemma Left(a: Shared, i: TxId, pc: Pc)
    requires Inv(a) && i in a.txs && (pc == Aborted || pc.Finished?)
    ensures Inv(Leave(a, i, pc))
  {
  }

  lemma RequestStepKeeps(a: Shared, l: Label)
    requires Inv(a) && Enabled(a, l) && (l.LookupUser? || l.LockUser? || l.BeginUpdate? || l.MarkRow?)
    ensures Inv(Next(a, l))
  {
    var i := l.tx;
    var u := a.txs[i].job.record.userId;
    match l
    case LookupUser(_) =>
      Left(a, i, Finished(Err(AccountUnavailable)));
      if UsableIn(a.users, u) { Moved(a, i, Waiting); }
    case LockUser(_) =>
      Left(a, i, Finished(Err(AccountUnavailable)));
      if UsableIn(a.users, u) {
        LockKeeps(a, i, u);
        Moved(a.(userLocks := a.userLocks[u := i]), i, UserLocked);
      }
    case BeginUpdate(_) => Moved(a, i, Invalidating(PendingRows(a.tokens, u), {}));
    case MarkRow(_, t) =>
      LockKeeps(a, i, t);
      Moved(a.(tokenLocks := a.tokenLocks[t := i]), i, a.txs[i].pc.(marked := a.txs[i].pc.marked + {t}));
  }

  lemma RecoveryStepKeeps(a: Shared, l: Label)
    requires Inv(a) && Enabled(a, l) && (l.LookupToken? || l.LockToken? || l.LockOwner?)
    ensures Inv(Next(a, l))
  {
    var i := l.tx;
    match l
    case LookupToken(_) =>
      Left(a, i, Finished(Err(PasswordResetTokenInvalid)));
      match TokenByHash(AsDb(a), a.txs[i].job.hash, PasswordRecovery) {
        case None =>
        case Some(t) => Moved(a, i, Found(t));
      }
    case LockToken(_) =>
      var t := a.txs[i].pc.token;
      LockKeeps(a, i, t);
      Moved(a.(tokenLocks := a.tokenLocks[t := i]), i, TokenLocked(t));
    case LockOwner(_) =>
      var t := a.txs[i].pc.token;
      LockKeeps(a, i, a.tokens[t].userId);
      Moved(a.(userLocks := a.userLocks[a.tokens[t].userId := i]), i, BothLocked(t));
  }

  lemma DecideKeeps(a: Shared, i: TxId)
    requires Inv(a) && Enabled(a, Decide(i))
    ensures Inv(Next(a, Decide(i)))
  {
    var t := a.txs[i].pc.token;
    if a.tokens[t].usedAt.Some? {
      Left(a, i, Finished(Err(PasswordResetTokenUsed)));
    } else if a.txs[i].job.now >= a.tokens[t].expiresAt {
      Left(a, i, Finished(Err(PasswordResetTokenExpired)));
    } else if !a.users[a.tokens[t].userId].Usable() {
      Left(a, i, Finished(Err(AccountUnavailable)));
    } else {
      Moved(a, i, Resetting(t));
    }
  }

  lemma EnvironmentKeeps(a: Shared, l: Label)
    requires Inv(a) && Enabled(a, l) && l.Environment?
    ensures Inv(Next(a, l))
  {
    var b := Next(a, l);
    assert forall t, u | PendingReset(b.tokens, t, u) :: PendingReset(a.tokens, t, u);
    forall j | j in b.txs ensures PcOk(b, b.txs[j], j) {
      assert PcOk(a, a.txs[j], j);
    }
  }

  // ---- What the environment stands for ----

  lemma OthersLeaveResets(cfg: H.Config, db: Db, op: H.Op)
    requires !op.Forgot? && !op.Recover?
    ensures SameResets(db.tokens, H.Effect(cfg, db, op).db.tokens)
  {
  }

  /** Every other serial step is permitted, as long as it leaves the locked accounts alone. */
  lemma SerialStepsArePermitted(cfg: H.Config, st: Shared, op: H.Op)
    requires Consistent(AsDb(st)) && !op.Forgot? && !op.Recover?
    requires var users := H.Effect(cfg, AsDb(st), op).db.users;
             forall u | u in st.users && u in st.userLocks :: u in users && users[u] == st.users[u]
    ensures Enabled(st, Environment(H.Effect(cfg, AsDb(st), op).db))
  {
    H.EffectKeeps(cfg, AsDb(st), op);
    OthersLeaveResets(cfg, AsDb(st), op);
  }

  // ---- Commits ----

  /** The rows a request has marked by the time it commits are all the user's usable reset tokens. */
  lemma MarkedIsAll(a: Shared, i: TxId)
    requires Inv(a) && Enabled(a, Commit(i)) && a.txs[i].job.Request?
    ensures var r := a.txs[i].job.record;
            Marked(a.tokens, a.txs[i].pc.marked, r.userId, r.createdAt) == InvalidateResets(a.tokens, r.userId, r.createdAt)
  {
  }

  /** A request that commits does what it does when it runs alone. */
  lemma RequestIsSerial(a: Shared, i: TxId)
    requires Inv(a) && Enabled(a, Commit(i)) && a.txs[i].job.Request?
    ensures var b := Next(a, Commit(i));
            && b.txs[i].pc.Finished?
            && CreatePasswordReset(AsDb(a), a.txs[i].job.record) == Outcome(AsDb(b), b.txs[i].pc.result)
  {
    assert PcOk(a, a.txs[i], i);
    MarkedIsAll(a, i);
  }

  /** A recovery that commits does to all tables what it does when it runs alone. */
  lemma RecoveryIsSerial(a: Shared, i: TxId)
    requires Inv(a) && Enabled(a, Commit(i)) && a.txs[i].job.Recovery?
    ensures var b := Next(a, Commit(i));
            && b.txs[i].pc == Finished(Ok(()))
            && ResetPassword(AsDb(a), a.txs[i].job.hash, a.txs[i].job.next, a.txs[i].job.now) == Outcome(AsDb(b), Ok(()))
            && b.changes == a.changes + [a.txs[i].pc.token]
  {
    var t := a.txs[i].pc.token;
    assert PcOk(a, a.txs[i], i);
    TokenIsFound(a, t, a.txs[i].job.hash);
  }

  lemma TokenIsFound(a: Shared, t: Id, h: TokenHash)
    requires UniqueTokenHashes(a.tokens) && IsReset(a, t, h)
    ensures TokenByHash(AsDb(a), h, PasswordRecovery) == Some(t)
  {
    assert OwnsTokenHash(AsDb(a), t, h, PasswordRecovery);
  }

  /** Every refusal of a recovery, with both rows locked, is the answer it gives when it runs alone; nothing changes. */
  lemma RefusalIsSerial(a: Shared, i: TxId)
    requires Inv(a) && Enabled(a, Decide(i))
    ensures var job := a.txs[i].job;
            var b := Decided(a, i);
            b.txs[i].pc.Finished? ==>
              ResetPassword(AsDb(a), job.hash, job.next, job.now) == Outcome(AsDb(b), b.txs[i].pc.result)
  {
    assert PcOk(a, a.txs[i], i);
    TokenIsFound(a, a.txs[i].pc.token, a.txs[i].job.hash);
  }

  /** So is the answer that the token is unknown, at the instant of the lookup. */
  lemma UnknownIsSerial(a: Shared, i: TxId)
    requires Enabled(a, LookupToken(i)) && Next(a, LookupToken(i)).txs[i].pc.Finished?
    ensures var job := a.txs[i].job;
            var b := Next(a, LookupToken(i));
            ResetPassword(AsDb(a), job.hash, job.next, job.now) == Outcome(AsDb(b), b.txs[i].pc.result)
  {
  }

  /** And the refusal of a request, before and after its wait for the account. */
  lemma RequestRefusalIsSerial(a: Shared, l: Label)
    requires Enabled(a, l) && (l.LookupUser? || l.LockUser?) && Next(a, l).txs[l.tx].pc.Finished?
    ensures var b := Next(a, l);
            CreatePasswordReset(AsDb(a), a.txs[l.tx].job.record) == Outcome(AsDb(b), b.txs[l.tx].pc.result)
  {
  }

  lemma RequestCommitKeeps(a: Shared, i: TxId)
    requires Inv(a) && Enabled(a, Commit(i)) && a.txs[i].job.Request?
    ensures Inv(Next(a, Commit(i)))
  {
    assert PcOk(a, a.txs[i], i);
    if Next(a, Commit(i)).txs[i].pc == Finished(Ok(())) {
      RequestDoneKeeps(a, i);
    } else {
      Left(a, i, Finished(Err(Database)));
    }
  }

  lemma RequestDoneKeeps(a: Shared, i: TxId)
    requires Inv(a) && Enabled(a, Commit(i)) && a.txs[i].job.Request?
    requires Next(a, Commit(i)).txs[i].pc == Finished(Ok(()))
    ensures Inv(Next(a, Commit(i)))
  {
    var b := Next(a, Commit(i));
    RequestLeavesOne(a, i);
    RequestFrame(a, i);
    FrameKeeps(a, b, i);
  }

  /** A request that commits leaves the user one usable reset token, its own. */
  lemma RequestLeavesOne(a: Shared, i: TxId)
    requires Inv(a) && Enabled(a, Commit(i)) && a.txs[i].job.Request?
    requires Next(a, Commit(i)).txs[i].pc == Finished(Ok(()))
    ensures O.SinglePendingReset(Next(a, Commit(i)).tokens)
  {
    RequestIsSerial(a, i);
    O.CreatePasswordResetInvalidates(AsDb(a), a.txs[i].job.record);
  }

  lemma RequestRows(a: Shared, i: TxId)
    requires Inv(a) && Enabled(a, Commit(i)) && a.txs[i].job.Request?
    requires Next(a, Commit(i)).txs[i].pc == Finished(Ok(()))
    ensures var r := a.txs[i].job.record;
            && HoldsUser(a, i, r.userId) && r.tokenId !in a.tokens && !TokenHashTaken(a.tokens, r.tokenHash)
            && Next(a, Commit(i)).tokens == InvalidateResets(a.tokens, r.userId, r.createdAt)[r.tokenId := r.Row()]
  {
    assert PcOk(a, a.txs[i], i);
    MarkedIsAll(a, i);
  }

  lemma RequestFrame(a: Shared, i: TxId)
    requires Inv(a) && Enabled(a, Commit(i)) && a.txs[i].job.Request?
    requires Next(a, Commit(i)).txs[i].pc == Finished(Ok(()))
    ensures var b := Next(a, Commit(i)); Frame(a, b, i) && UniqueTokenHashes(b.tokens) && LogOk(b)
  {
    RequestRows(a, i);
    var r := a.txs[i].job.record;
    RequestKeepsTokens(a, Next(a, Commit(i)), i, r);
    RequestKeepsHashes(a.tokens, r);
    RequestKeepsLog(a, Next(a, Commit(i)), r);
  }

  lemma RequestKeepsTokens(a: Shared, b: Shared, i: TxId, r: PasswordResetRecord)
    requires i in a.txs && i in b.txs && HoldsUser(a, i, r.userId) && r.tokenId !in a.tokens
    requires b == Leave(a, i, b.txs[i].pc).(tokens := InvalidateResets(a.tokens, r.userId, r.createdAt)[r.tokenId := r.Row()])
    ensures Frame(a, b, i)
  {
  }

  lemma RequestKeepsHashes(tokens: map<Id, OneTimeToken>, r: PasswordResetRecord)
    requires UniqueTokenHashes(tokens) && r.tokenId !in tokens && !TokenHashTaken(tokens, r.tokenHash)
    ensures UniqueTokenHashes(InvalidateResets(tokens, r.userId, r.createdAt)[r.tokenId := r.Row()])
  {
  }

  lemma RequestKeepsLog(a: Shared, b: Shared, r: PasswordResetRecord)
    requires LogOk(a) && r.tokenId !in a.tokens && b.changes == a.changes
    requires b.tokens == InvalidateResets(a.tokens, r.userId, r.createdAt)[r.tokenId := r.Row()]
    ensures LogOk(b)
  {
  }

  /** What the commit of a recovery does to the tokens and to the log. */
  ghost predicate UsesUp(a: Shared, b: Shared, i: TxId, t: Id, now: Instant)
    requires t in a.tokens
  {
    && i in a.txs && i in b.txs && HoldsUser(a, i, a.tokens[t].userId)
    && b.txs == a.txs[i := a.txs[i].(pc := b.txs[i].pc)] && b.users == a.users
    && b.tokenLocks == Released(a.tokenLocks, i) && b.userLocks == Released(a.userLocks, i)
    && b.tokens == a.tokens[t := a.tokens[t].(usedAt := Some(now))] && b.changes == a.changes + [t]
  }

  lemma RecoveryFrame(a: Shared, b: Shared, i: TxId, t: Id, now: Instant)
    requires t in a.tokens && UsesUp(a, b, i, t, now)
    ensures Frame(a, b, i)
  {
  }

  lemma RecoveryKeepsLog(a: Shared, b: Shared, i: TxId, t: Id, now: Instant)
    requires t in a.tokens && UsesUp(a, b, i, t, now) && LogOk(a)
    requires a.tokens[t].usedAt.None? && a.tokens[t].purpose == PasswordRecovery
    ensures LogOk(b)
  {
  }

  lemma RecoveryKeepsTokens(a: map<Id, OneTimeToken>, t: Id, now: Instant)
    requires t in a && UniqueTokenHashes(a) && O.SinglePendingReset(a)
    ensures var b := a[t := a[t].(usedAt := Some(now))]; UniqueTokenHashes(b) && O.SinglePendingReset(b)
  {
    var b := a[t := a[t].(usedAt := Some(now))];
    assert forall r, u | PendingReset(b, r, u) :: PendingReset(a, r, u);
  }

  lemma RecoveryCommitKeeps(a: Shared, i: TxId)
    requires Inv(a) && Enabled(a, Commit(i)) && a.txs[i].job.Recovery?
    ensures Inv(Next(a, Commit(i)))
  {
    var b := Next(a, Commit(i));
    var t, now := a.txs[i].pc.token, a.txs[i].job.now;
    assert PcOk(a, a.txs[i], i);
    RecoveryFrame(a, b, i, t, now);
    RecoveryKeepsLog(a, b, i, t, now);
    RecoveryKeepsTokens(a.tokens, t, now);
    FrameKeeps(a, b, i);
  }

  lemma NextKeeps(a: Shared, l: Label)
    requires Inv(a) && Enabled(a, l)
    ensures Inv(Next(a, l))
  {
    match l
    case Start(_, _) => assert forall j | j in a.txs :: PcOk(Next(a, l), a.txs[j], j);
    case Decide(i) => DecideKeeps(a, i);
    case Commit(i) => if a.txs[i].job.Request? { RequestCommitKeeps(a, i); } else { RecoveryCommitKeeps(a, i); }
    case Abort(i) => Left(a, i, Aborted);
    case Environment(_) => EnvironmentKeeps(a, l);
    case LookupToken(_) => RecoveryStepKeeps(a, l);
    case LockToken(_) => RecoveryStepKeeps(a, l);
    case LockOwner(_) => RecoveryStepKeeps(a, l);
    case _ => RequestStepKeeps(a, l);
  }

  // ---- Runs ----

  ghost predicate Legal(st: Shared, labels: seq<Label>)
    decreases |labels|
  {
    labels == [] || (Enabled(st, labels[0]) && Legal(Next(st, labels[0]), labels[1..]))
  }

  ghost function After(st: Shared, labels: seq<Label>): Shared
    requires Legal(st, labels)
    decreases |labels|
  {
    if labels == [] then st else After(Next(st, labels[0]), labels[1..])
  }

  lemma {:induction false} AfterInv(st: Shared, labels: seq<Label>)
    requires Inv(st) && Legal(st, labels)
    ensures Inv(After(st, labels))
    decreases |labels|
  {
    if labels != [] {
      NextKeeps(st, labels[0]);
      AfterInv(Next(st, labels[0]), labels[1..]);
    }
  }

  function Quiet(w: H.World): Shared {
    Shared(w.db.users, w.db.tokens, Rest(w.db.credentials, w.db.sessions, w.db.used), map[], map[], map[], [])
  }

  /**
   However reset requests and recoveries interleave: a user never has two usable
   reset tokens, and no reset token is behind two password changes.
   */
  lemma ResetTokensStaySingle(cfg: H.Config, w: H.World, labels: seq<Label>)
    requires H.Reachable(cfg, w) && Legal(Quiet(w), labels)
    ensures var st := After(Quiet(w), labels);
            && O.SinglePendingReset(st.tokens)
            && forall k, m | 0 <= k < m < |st.changes| :: st.changes[k] != st.changes[m]
  {
    L.ReachableConsistent(cfg, w);
    O.OneUsableReset(cfg, w);
    AfterInv(Quiet(w), labels);
  }
}
