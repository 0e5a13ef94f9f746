/**
 Refresh-token rotation with transactions that interleave.

 Model assumption (READ COMMITTED with row locks): every statement reads the
 rows committed before it starts; FOR UPDATE waits until no other transaction
 holds the row, then re-reads the newest committed version and applies its
 condition again; a lock is held to the end of the transaction; what a transaction
 wrote becomes visible at its commit, all at once.  A waiting or running
 transaction may be aborted at any point.  Everything else that runs against the
 same tables may change whatever is not locked, as long as it only revokes
 sessions, adds sessions with new hashes and leaves used hashes alone.
 */
module RotationRace {
  import opened Wrappers
  import opened Tables
  import opened RowLocks
  import opened Transactions
  import H = History
  import L = Lineage
  import P = Preservation

  datatype Pc =
    | Begin
    | Found(session: Id)          // the lookup saw this row and waits for its lock
    | SessionLocked(session: Id)  // the row still matches; the user row is next
    | BothLocked(session: Id)
    | Rotating(session: Id)       // used hash inserted and session updated, not committed
    | Withdrawing(session: Id)    // session revoked for an unusable account, not committed
    | Missed                      // the lookup or its re-check returned no row
    | Replayed(session: Id)       // the hash is on record as used; waits for the session's lock
    | ReplayLocked(session: Id)   // session revoked for a replay, not committed
    | Finished(result: Result<SessionIdentity>)
    | Aborted

  datatype Tx = Tx(hash: TokenHash, next: TokenHash, metadata: Metadata, now: Instant, pc: Pc)

  datatype Shared = Shared(
    db: Db,
    minted: set<TokenHash>,
    txs: map<TxId, Tx>,
    sessionLocks: Locks,
    userLocks: Locks,
    winner: map<TokenHash, TxId>) // which transaction committed the rotation of a hash

  datatype Label =
    | Start(tx: TxId, hash: TokenHash, next: TokenHash, metadata: Metadata, now: Instant)
    | Lookup(tx: TxId)
    | LockSession(tx: TxId)
    | LockUser(tx: TxId)
    | Decide(tx: TxId)
    | LookupUsed(tx: TxId)
    | LockReplayed(tx: TxId)
    | Commit(tx: TxId)
    | Abort(tx: TxId)
    | Environment(after: Db, generated: set<TokenHash>)

  // ---- Transitions ----

  function Move(st: Shared, i: TxId, pc: Pc): Shared
    requires i in st.txs
  {
    st.(txs := st.txs[i := st.txs[i].(pc := pc)])
  }

  /** The end of a transaction, by commit or rollback. */
  function Leave(st: Shared, i: TxId, pc: Pc): Shared
    requires i in st.txs
  {
    Move(st, i, pc).(sessionLocks := Released(st.sessionLocks, i), userLocks := Released(st.userLocks, i))
  }

  /** What other transactions may do to rows that are not locked. */
  ghost predicate Permitted(st: Shared, after: Db) {
    && Consistent(after)
    && after.used == st.db.used
    && st.db.users.Keys <= after.users.Keys
    && (forall s | s in st.db.sessions ::
          && s in after.sessions
          && var a, b := st.db.sessions[s], after.sessions[s];
          && a.userId == b.userId && a.refreshHash == b.refreshHash && a.expiresAt == b.expiresAt
          && (a.revokedAt.Some? ==> b.revokedAt == a.revokedAt)
          && (s in st.sessionLocks ==> b == a))
    && (forall s | s in after.sessions && s !in st.db.sessions :: after.sessions[s].refreshHash !in st.minted)
    && (forall u | u in st.db.users && u in st.userLocks :: after.users[u] == st.db.users[u])
  }

  ghost predicate Enabled(st: Shared, l: Label) {
    match l
    case Start(i, _, next, _, _) => i !in st.txs && next !in st.minted
    case Lookup(i) => i in st.txs && st.txs[i].pc.Begin?
    case LockSession(i) =>
      && i in st.txs && st.txs[i].pc.Found? && st.txs[i].pc.session in st.db.sessions
      && Free(st.sessionLocks, st.txs[i].pc.session, i)
    case LockUser(i) =>
      && i in st.txs && st.txs[i].pc.SessionLocked? && st.txs[i].pc.session in st.db.sessions
      && Free(st.userLocks, st.db.sessions[st.txs[i].pc.session].userId, i)
    case Decide(i) =>
      && i in st.txs && st.txs[i].pc.BothLocked? && st.txs[i].pc.session in st.db.sessions
      && st.db.sessions[st.txs[i].pc.session].userId in st.db.users
    case LookupUsed(i) => i in st.txs && st.txs[i].pc.Missed?
    case LockReplayed(i) =>
      && i in st.txs && st.txs[i].pc.Replayed? && st.txs[i].pc.session in st.db.sessions
      && Free(st.sessionLocks, st.txs[i].pc.session, i)
    case Commit(i) =>
      && i in st.txs && (st.txs[i].pc.Rotating? || st.txs[i].pc.Withdrawing? || st.txs[i].pc.ReplayLocked?)
      && st.txs[i].pc.session in st.db.sessions
      && st.db.sessions[st.txs[i].pc.session].userId in st.db.users
    case Abort(i) => i in st.txs && !st.txs[i].pc.Finished?
    case Environment(after, _) => Permitted(st, after)
  }

  /** After both rows are locked: the checks of the code, in its order. */
  ghost function Decision(st: Shared, i: TxId): Pc
    requires Enabled(st, Decide(i))
  {
    var tx := st.txs[i];
    var id := tx.pc.session;
    var session := st.db.sessions[id];
    if session.revokedAt.Some? then Finished(Err(SessionRevoked))
    else if tx.now >= session.expiresAt then Finished(Err(SessionExpired))
    else if !st.db.users[session.userId].Usable() then Withdrawing(id)
    else if tx.hash in st.db.used || RefreshHashTaken(st.db.sessions, tx.next, Some(id)) then Finished(Err(Database))
    else Rotating(id)
  }

  ghost function Decided(st: Shared, i: TxId): Shared
    requires Enabled(st, Decide(i))
  {
    var pc := Decision(st, i);
    if pc.Finished? then Leave(st, i, pc) else Move(st, i, pc)
  }

  function Committed(st: Shared, i: TxId): Shared
    requires Enabled(st, Commit(i))
  {
    var tx := st.txs[i];
    var id := tx.pc.session;
    var session := st.db.sessions[id];
    match tx.pc
    case Rotating(_) =>
      var rotated := session.(refreshHash := tx.next, metadata := tx.metadata, lastUsedAt := tx.now);
      Leave(st, i, Finished(Ok(SessionIdentity(id, session.userId, st.db.users[session.userId], session.expiresAt)))).(
      db := st.db.(used := st.db.used[tx.hash := UsedToken(id, tx.now, session.expiresAt)],
      sessions := st.db.sessions[id := rotated]),
      winner := st.winner[tx.hash := i])
    case Withdrawing(_) =>
      Leave(st, i, Finished(Err(AccountUnavailable))).(
      db := st.db.(sessions := st.db.sessions[id := session.(revokedAt := Some(tx.now))]))
    case _ =>
      Leave(st, i, Finished(Err(RefreshTokenReused))).(
      db := st.db.(sessions := st.db.sessions[id := session.Revoked(tx.now)]))
  }

  ghost function Next(st: Shared, l: Label): Shared
    requires Enabled(st, l)
  {
    match l
    case Start(i, h, next, metadata, now) =>
      st.(txs := st.txs[i := Tx(h, next, metadata, now, Begin)], minted := st.minted + {next})
    case Lookup(i) =>
      (match SessionByHash(st.db, st.txs[i].hash)
       case Some(s) => Move(st, i, Found(s))
       case None => Move(st, i, Missed))
    case LockSession(i) =>
      var s := st.txs[i].pc.session;
      var locked := st.(sessionLocks := st.sessionLocks[s := i]);
      if st.db.sessions[s].refreshHash == st.txs[i].hash then Move(locked, i, SessionLocked(s)) else Move(locked, i, Missed)
    case LockUser(i) =>
      var s := st.txs[i].pc.session;
      Move(st.(userLocks := st.userLocks[st.db.sessions[s].userId := i]), i, BothLocked(s))
    case Decide(i) => Decided(st, i)
    case LookupUsed(i) =>
      var h := st.txs[i].hash;
      if h in st.db.used && st.db.used[h].sessionId in st.db.sessions then Move(st, i, Replayed(st.db.used[h].sessionId))
      else Leave(st, i, Finished(Err(RefreshTokenInvalid)))
    case LockReplayed(i) =>
      var s := st.txs[i].pc.session;
      Move(st.(sessionLocks := st.sessionLocks[s := i]), i, ReplayLocked(s))
    case Commit(i) => Committed(st, i)
    case Abort(i) => Leave(st, i, Aborted)
    case Environment(after, generated) =>
      st.(db := after, minted := st.minted + generated + set s | s in after.sessions :: after.sessions[s].refreshHash)
  }

  // ---- Invariant ----

  ghost predicate HashesOk(st: Shared) {
    && (forall s | s in st.db.sessions ::
          st.db.sessions[s].refreshHash in st.minted && st.db.sessions[s].refreshHash !in st.db.used)
    && (forall h | h in st.db.used :: h in st.minted)
  }

  /** The hash a transaction would install is its own, and installed nowhere before it commits. */
  ghost predicate NextOk(st: Shared, i: TxId)
    requires i in st.txs
  {
    var tx := st.txs[i];
    && tx.next in st.minted
    && (forall j | j in st.txs && j != i :: st.txs[j].next != tx.next)
    && (!(tx.pc.Finished? && tx.pc.result.Ok?) ==>
          tx.next !in st.db.used && forall s | s in st.db.sessions :: st.db.sessions[s].refreshHash != tx.next)
  }

  ghost predicate HoldsSession(st: Shared, i: TxId, s: Id)
    requires i in st.txs
  {
    s in st.db.sessions && Holds(st.sessionLocks, i, s)
  }

  ghost predicate HoldsBoth(st: Shared, i: TxId, s: Id)
    requires i in st.txs
  {
    && HoldsSession(st, i, s) && st.db.sessions[s].refreshHash == st.txs[i].hash
    && Holds(st.userLocks, i, st.db.sessions[s].userId)
    && st.db.sessions[s].userId in st.db.users
  }

  ghost predicate OnRecord(st: Shared, i: TxId, s: Id)
    requires i in st.txs
  {
    st.txs[i].hash in st.db.used && st.db.used[st.txs[i].hash].sessionId == s && s in st.db.sessions
  }

  ghost predicate PcOk(st: Shared, i: TxId)
    requires i in st.txs
  {
    var tx := st.txs[i];
    match tx.pc
    case Begin => true
    case Missed => true
    case Aborted => true
    case Found(s) => s in st.db.sessions
    case SessionLocked(s) => HoldsSession(st, i, s) && st.db.sessions[s].refreshHash == tx.hash
    case BothLocked(s) => HoldsBoth(st, i, s)
    case Rotating(s) =>
      HoldsBoth(st, i, s) && st.db.sessions[s].Live(tx.now) && st.db.users[st.db.sessions[s].userId].Usable()
    case Withdrawing(s) =>
      HoldsBoth(st, i, s) && st.db.sessions[s].Live(tx.now) && !st.db.users[st.db.sessions[s].userId].Usable()
    case Replayed(s) => OnRecord(st, i, s)
    case ReplayLocked(s) => OnRecord(st, i, s) && HoldsSession(st, i, s)
    case Finished(r) =>
      match r
      case Ok(_) => tx.hash in st.db.used && tx.hash in st.winner && st.winner[tx.hash] == i
      case Err(e) =>
        e == RefreshTokenReused ==>
          && tx.hash in st.db.used
          && st.db.used[tx.hash].sessionId in st.db.sessions
          && st.db.sessions[st.db.used[tx.hash].sessionId].revokedAt.Some?
  }

  ghost predicate Inv(st: Shared) {
    && Consistent(st.db)
    && HashesOk(st)
    && (forall i | i in st.txs :: NextOk(st, i) && PcOk(st, i))
  }

  /** What a step of transaction `i` leaves to every other transaction. */
  ghost predicate Frame(a: Shared, b: Shared, i: TxId) {
    && b.txs.Keys == a.txs.Keys
    && (forall j | j in a.txs && j != i :: b.txs[j] == a.txs[j])
    && OthersKeep(a.sessionLocks, b.sessionLocks, i)
    && OthersKeep(a.userLocks, b.userLocks, i)
    && b.db.users == a.db.users
    && (forall s | s in a.db.sessions ::
          && s in b.db.sessions
          && (a.db.sessions[s].revokedAt.Some? ==> b.db.sessions[s].revokedAt.Some?)
          && (b.db.sessions[s] == a.db.sessions[s] || (s in a.sessionLocks && a.sessionLocks[s] == i)))
    && (forall h | h in a.db.used :: h in b.db.used && b.db.used[h] == a.db.used[h])
    && (forall h | h in a.db.used && h in a.winner :: h in b.winner && b.winner[h] == a.winner[h])
  }

  lemma OthersKept(a: Shared, b: Shared, i: TxId, j: TxId)
    requires Frame(a, b, i) && j in a.txs && j != i && PcOk(a, j)
    ensures PcOk(b, j)
  {
  }

  predicate Unfinished(tx: Tx) {
    !tx.pc.Finished?
  }

  /** A step of transaction `i` that writes no row. */
  ghost predicate Quietly(a: Shared, b: Shared, i: TxId) {
    && Frame(a, b, i) && b.db == a.db && b.minted == a.minted
    && i in a.txs && b.txs[i] == a.txs[i].(pc := b.txs[i].pc)
  }

  lemma NextKept(a: Shared, b: Shared, i: TxId, j: TxId)
    requires Quietly(a, b, i) && j in a.txs && NextOk(a, j)
    requires b.txs[i].pc == a.txs[i].pc || Unfinished(a.txs[i])
    ensures NextOk(b, j)
  {
  }

  lemma QuietlyKeeps(a: Shared, b: Shared, i: TxId)
    requires Inv(a) && Quietly(a, b, i) && PcOk(b, i)
    requires b.txs[i].pc == a.txs[i].pc || Unfinished(a.txs[i])
    ensures Inv(b)
  {
    forall j | j in b.txs ensures NextOk(b, j) && PcOk(b, j) {
      NextKept(a, b, i, j);
      if j != i { OthersKept(a, b, i, j); }
    }
  }

  lemma SessionLockKeeps(a: Shared, i: TxId, s: Id)
    requires Inv(a) && i in a.txs && Free(a.sessionLocks, s, i)
    ensures Inv(a.(sessionLocks := a.sessionLocks[s := i]))
  {
    assert PcOk(a, i);
    QuietlyKeeps(a, a.(sessionLocks := a.sessionLocks[s := i]), i);
  }

  lemma UserLockKeeps(a: Shared, i: TxId, u: Id)
    requires Inv(a) && i in a.txs && Free(a.userLocks, u, i)
    ensures Inv(a.(userLocks := a.userLocks[u := i]))
  {
    assert PcOk(a, i);
    QuietlyKeeps(a, a.(userLocks := a.userLocks[u := i]), i);
  }

  lemma Moved(a: Shared, i: TxId, pc: Pc)
    requires Inv(a) && i in a.txs && Unfinished(a.txs[i]) && PcOk(Move(a, i, pc), i)
    ensures Inv(Move(a, i, pc))
  {
    QuietlyKeeps(a, Move(a, i, pc), i);
  }

  lemma Left(a: Shared, i: TxId, pc: Pc)
    requires Inv(a) && i in a.txs && Unfinished(a.txs[i])
    requires pc == Aborted || (pc.Finished? && pc.result.Err? && pc.result.error != RefreshTokenReused)
    ensures Inv(Leave(a, i, pc))
  {
    QuietlyKeeps(a, Leave(a, i, pc), i);
  }

  lemma LookupKeeps(a: Shared, i: TxId)
    requires Inv(a) && Enabled(a, Lookup(i))
    ensures Inv(Next(a, Lookup(i)))
  {
    match SessionByHash(a.db, a.txs[i].hash)
    case Some(s) => Moved(a, i, Found(s));
    case None => Moved(a, i, Missed);
  }

  lemma LockSessionKeeps(a: Shared, i: TxId)
    requires Inv(a) && Enabled(a, LockSession(i))
    ensures Inv(Next(a, LockSession(i)))
  {
    var s := a.txs[i].pc.session;
    var locked := a.(sessionLocks := a.sessionLocks[s := i]);
    SessionLockKeeps(a, i, s);
    if a.db.sessions[s].refreshHash == a.txs[i].hash {
      Moved(locked, i, SessionLocked(s));
    } else {
      Moved(locked, i, Missed);
    }
  }

  lemma LockUserKeeps(a: Shared, i: TxId)
    requires Inv(a) && Enabled(a, LockUser(i))
    ensures Inv(Next(a, LockUser(i)))
  {
    var s := a.txs[i].pc.session;
    var u := a.db.sessions[s].userId;
    assert PcOk(a, i);
    UserLockKeeps(a, i, u);
    Moved(a.(userLocks := a.userLocks[u := i]), i, BothLocked(s));
  }

  lemma DecisionFits(a: Shared, i: TxId)
    requires i in a.txs && PcOk(a, i) && Enabled(a, Decide(i))
    ensures var pc := Decision(a, i);
            if pc.Finished? then pc.result.Err? && pc.result.error != RefreshTokenReused else PcOk(Move(a, i, pc), i)
  {
  }

  lemma DecideKeeps(a: Shared, i: TxId)
    requires Inv(a) && Enabled(a, Decide(i))
    ensures Inv(Next(a, Decide(i)))
  {
    var pc := Decision(a, i);
    DecisionFits(a, i);
    if pc.Finished? {
      Left(a, i, pc);
    } else {
      Moved(a, i, pc);
    }
  }

  lemma LookupUsedKeeps(a: Shared, i: TxId)
    requires Inv(a) && Enabled(a, LookupUsed(i))
    ensures Inv(Next(a, LookupUsed(i)))
  {
    var h := a.txs[i].hash;
    if h in a.db.used && a.db.used[h].sessionId in a.db.sessions {
      Moved(a, i, Replayed(a.db.used[h].sessionId));
    } else {
      Left(a, i, Finished(Err(RefreshTokenInvalid)));
    }
  }

  lemma LockReplayedKeeps(a: Shared, i: TxId)
    requires Inv(a) && Enabled(a, LockReplayed(i))
    ensures Inv(Next(a, LockReplayed(i)))
  {
    var s := a.txs[i].pc.session;
    assert PcOk(a, i);
    SessionLockKeeps(a, i, s);
    Moved(a.(sessionLocks := a.sessionLocks[s := i]), i, ReplayLocked(s));
  }

  lemma StartKeeps(a: Shared, l: Label)
    requires Inv(a) && l.Start? && Enabled(a, l)
    ensures Inv(Next(a, l))
  {
    var b := Next(a, l);
    forall j | j in b.txs ensures NextOk(b, j) && PcOk(b, j) {
      assert j in a.txs ==> NextOk(a, j) && PcOk(a, j);
    }
  }

  lemma EnvironmentKeeps(a: Shared, after: Db, generated: set<TokenHash>)
    requires Inv(a) && Enabled(a, Environment(after, generated))
    ensures Inv(Next(a, Environment(after, generated)))
  {
    var b := Next(a, Environment(after, generated));
    forall s | s in after.sessions
      ensures after.sessions[s].refreshHash in b.minted && after.sessions[s].refreshHash !in after.used
    {
      assert s in a.db.sessions ==> after.sessions[s].refreshHash == a.db.sessions[s].refreshHash;
    }
    forall j | j in b.txs ensures NextOk(b, j) {
      assert NextOk(a, j);
    }
    forall j | j in b.txs ensures PcOk(b, j) {
      assert PcOk(a, j);
      EnvironmentKeepsPc(a, after, generated, j);
    }
  }

  lemma EnvironmentKeepsPc(a: Shared, after: Db, generated: set<TokenHash>, j: TxId)
    requires Permitted(a, after) && j in a.txs && PcOk(a, j)
    ensures PcOk(Next(a, Environment(after, generated)), j)
  {
  }

  // ---- Commits ----

  /**
   A transaction that commits, at that instant, does to the tables exactly what
   the whole transaction does when it runs alone, and reports the same result.
   */
  lemma CommitIsSerial(a: Shared, i: TxId)
    requires Inv(a) && Enabled(a, Commit(i))
    ensures var tx := a.txs[i];
            var b := Next(a, Commit(i));
            && b.txs[i].pc.Finished?
            && RotateRefreshToken(a.db, tx.hash, tx.next, tx.metadata, tx.now) == Outcome(b.db, b.txs[i].pc.result)
  {
    var tx := a.txs[i];
    assert PcOk(a, i) && NextOk(a, i);
    if tx.pc.ReplayLocked? {
      ReplayIsSerial(a, i);
    } else {
      SessionFound(a.db, tx.pc.session, tx.hash);
      if tx.pc.Rotating? {
        assert !RefreshHashTaken(a.db.sessions, tx.next, Some(tx.pc.session));
      } else {
        WithdrawalIsSerial(a, i);
      }
    }
  }

  lemma ReplayIsSerial(a: Shared, i: TxId)
    requires Inv(a) && Enabled(a, Commit(i)) && a.txs[i].pc.ReplayLocked?
    ensures var tx := a.txs[i];
            var alone := RotateRefreshToken(a.db, tx.hash, tx.next, tx.metadata, tx.now);
            alone == Outcome(Committed(a, i).db, Err(RefreshTokenReused))
  {
    var id := a.txs[i].pc.session;
    assert PcOk(a, i);
    UsedIsNotCurrent(a, a.txs[i].hash);
    assert RevokeIds(a.db.sessions, {id}, a.txs[i].now) == a.db.sessions[id := a.db.sessions[id].Revoked(a.txs[i].now)];
  }

  lemma WithdrawalIsSerial(a: Shared, i: TxId)
    requires Inv(a) && Enabled(a, Commit(i)) && a.txs[i].pc.Withdrawing?
    ensures var tx := a.txs[i];
            var alone := RotateRefreshToken(a.db, tx.hash, tx.next, tx.metadata, tx.now);
            alone == Outcome(Committed(a, i).db, Err(AccountUnavailable))
  {
    var tx := a.txs[i];
    var id := tx.pc.session;
    assert PcOk(a, i);
    SessionFound(a.db, id, tx.hash);
    assert RevokeIds(a.db.sessions, {id}, tx.now) == a.db.sessions[id := a.db.sessions[id].(revokedAt := Some(tx.now))];
  }

  lemma CommitKeepsConsistency(a: Shared, i: TxId)
    requires Inv(a) && Enabled(a, Commit(i))
    ensures Consistent(Next(a, Commit(i)).db)
  {
    var tx := a.txs[i];
    CommitIsSerial(a, i);
    P.RotateRefreshTokenKeeps(a.db, tx.hash, tx.next, tx.metadata, tx.now);
  }

  /** The tables and the transactions after session `id` is revoked and transaction `i` is over. */
  ghost predicate RevokedBy(a: Shared, b: Shared, i: TxId, id: Id, row: Session, pc: Pc)
    requires i in a.txs
  {
    && HoldsSession(a, i, id)
    && row.revokedAt.Some? && row.(revokedAt := None) == a.db.sessions[id].(revokedAt := None)
    && b == Leave(a, i, pc).(db := a.db.(sessions := a.db.sessions[id := row]))
    && (pc == Finished(Err(AccountUnavailable)) || (pc == Finished(Err(RefreshTokenReused)) && OnRecord(a, i, id)))
  }

  lemma RevocationFrame(a: Shared, b: Shared, i: TxId, id: Id, row: Session, pc: Pc)
    requires i in a.txs && RevokedBy(a, b, i, id, row, pc)
    ensures Frame(a, b, i) && PcOk(b, i)
  {
  }

  lemma RevocationKeepsHashes(a: Shared, b: Shared, i: TxId, id: Id, row: Session, pc: Pc)
    requires HashesOk(a) && (forall j | j in a.txs :: NextOk(a, j))
    requires i in a.txs && Unfinished(a.txs[i]) && RevokedBy(a, b, i, id, row, pc)
    ensures HashesOk(b) && forall j | j in b.txs :: NextOk(b, j)
  {
    assert forall s | s in a.db.sessions :: b.db.sessions[s].refreshHash == a.db.sessions[s].refreshHash;
    forall j | j in b.txs ensures NextOk(b, j) {
      assert NextOk(a, j);
    }
  }

  lemma RevocationKeeps(a: Shared, b: Shared, i: TxId, id: Id, row: Session, pc: Pc)
    requires Inv(a) && i in a.txs && Unfinished(a.txs[i]) && RevokedBy(a, b, i, id, row, pc) && Consistent(b.db)
    ensures Inv(b)
  {
    RevocationFrame(a, b, i, id, row, pc);
    RevocationKeepsHashes(a, b, i, id, row, pc);
    forall j | j in b.txs ensures PcOk(b, j) {
      assert PcOk(a, j);
      if j != i { OthersKept(a, b, i, j); }
    }
  }

  lemma RotationKeepsHashes(a: Shared, i: TxId)
    requires Inv(a) && Enabled(a, Commit(i)) && a.txs[i].pc.Rotating?
    ensures var b := Next(a, Commit(i));
            HashesOk(b) && forall j | j in b.txs :: NextOk(b, j)
  {
    var b := Next(a, Commit(i));
    assert PcOk(a, i) && NextOk(a, i);
    forall j | j in b.txs ensures NextOk(b, j) {
      assert NextOk(a, j);
    }
  }

  lemma RotationFrame(a: Shared, i: TxId)
    requires i in a.txs && PcOk(a, i) && Enabled(a, Commit(i)) && a.txs[i].pc.Rotating? && a.txs[i].hash !in a.db.used
    ensures Frame(a, Committed(a, i), i) && PcOk(Committed(a, i), i)
  {
  }

  lemma RotatedHashIsNew(a: Shared, i: TxId)
    requires Inv(a) && i in a.txs && a.txs[i].pc.Rotating?
    ensures PcOk(a, i) && a.txs[i].hash !in a.db.used
  {
  }

  lemma RotationKeepsPcs(a: Shared, i: TxId)
    requires Inv(a) && Enabled(a, Commit(i)) && a.txs[i].pc.Rotating?
    ensures var b := Next(a, Commit(i)); forall j | j in b.txs :: PcOk(b, j)
  {
    var b := Committed(a, i);
    RotatedHashIsNew(a, i);
    RotationFrame(a, i);
    forall j | j in b.txs ensures PcOk(b, j) {
      assert PcOk(a, j);
      if j != i { OthersKept(a, b, i, j); }
    }
  }

  lemma CommitKeeps(a: Shared, i: TxId)
    requires Inv(a) && Enabled(a, Commit(i))
    ensures Inv(Next(a, Commit(i)))
  {
    var tx := a.txs[i];
    var id := tx.pc.session;
    var b := Next(a, Commit(i));
    CommitKeepsConsistency(a, i);
    assert PcOk(a, i);
    match tx.pc
    case Rotating(_) =>
      RotationKeepsHashes(a, i);
      RotationKeepsPcs(a, i);
    case Withdrawing(_) => RevocationKeeps(a, b, i, id, b.db.sessions[id], Finished(Err(AccountUnavailable)));
    case ReplayLocked(_) => RevocationKeeps(a, b, i, id, b.db.sessions[id], Finished(Err(RefreshTokenReused)));
  }

  lemma NextKeeps(a: Shared, l: Label)
    requires Inv(a) && Enabled(a, l)
    ensures Inv(Next(a, l))
  {
    match l
    case Start(_, _, _, _, _) => StartKeeps(a, l);
    case Lookup(i) => LookupKeeps(a, i);
    case LockSession(i) => LockSessionKeeps(a, i);
    case LockUser(i) => LockUserKeeps(a, i);
    case Decide(i) => DecideKeeps(a, i);
    case LookupUsed(i) => LookupUsedKeeps(a, i);
    case LockReplayed(i) => LockReplayedKeeps(a, i);
    case Commit(i) => CommitKeeps(a, i);
    case Abort(i) => Left(a, i, Aborted);
    case Environment(after, generated) => EnvironmentKeeps(a, after, generated);
  }

  // ---- Runs ----

  ghost predicate Legal(st: Shared, labels: seq<Label>)
    decreases |labels|
  {
    labels == [] || (Enabled(st, labels[0]) && Legal(Next(st, labels[0]), labels[1..]))
  }

  ghost function After(st: Shared, labels: seq<Label>): Shared
    requires Legal(st, labels)
    decreases |labels|
  {
    if labels == [] then st else After(Next(st, labels[0]), labels[1..])
  }

  /** A state of the serial history with no transaction under way. */
  function Quiet(w: H.World): Shared {
    Shared(w.db, w.minted, map[], map[], map[], map[])
  }

  lemma QuietInv(cfg: H.Config, w: H.World)
    requires H.Reachable(cfg, w)
    ensures Inv(Quiet(w))
  {
    L.ReachableLinear(cfg, w);
    forall s | s in w.db.sessions
      ensures w.db.sessions[s].refreshHash in w.minted && w.db.sessions[s].refreshHash !in w.db.used
    {
      assert L.ChainOfSession(w, s);
    }
    forall h | h in w.db.used ensures h in w.minted { L.WasMinted(w, h); }
  }

  lemma {:induction false} AfterInv(st: Shared, labels: seq<Label>)
    requires Inv(st) && Legal(st, labels)
    ensures Inv(After(st, labels))
    decreases |labels|
  {
    if labels != [] {
      NextKeeps(st, labels[0]);
      AfterInv(Next(st, labels[0]), labels[1..]);
    }
  }

  /** Whatever the interleaving, at most one transaction commits a rotation of a given hash. */
  lemma AtMostOneRotation(cfg: H.Config, w: H.World, labels: seq<Label>, i: TxId, j: TxId)
    requires H.Reachable(cfg, w) && Legal(Quiet(w), labels)
    requires var st := After(Quiet(w), labels);
             && i in st.txs && st.txs[i].pc.Finished? && st.txs[i].pc.result.Ok?
             && j in st.txs && st.txs[j].pc.Finished? && st.txs[j].pc.result.Ok?
             && st.txs[i].hash == st.txs[j].hash
    ensures i == j
  {
    QuietInv(cfg, w);
    AfterInv(Quiet(w), labels);
    var st := After(Quiet(w), labels);
    assert PcOk(st, i) && PcOk(st, j);
  }

  // ---- The losers ----

  /** Transaction `j` presents a hash on record as used and has not passed the lock re-check with it. */
  ghost predicate Caught(st: Shared, j: TxId) {
    && j in st.txs && st.txs[j].hash in st.db.used
    && match st.txs[j].pc
       case Begin => true
       case Found(_) => true
       case Missed => true
       case Replayed(_) => true
       case ReplayLocked(_) => true
       case Aborted => true
       case Finished(r) => r == Err(RefreshTokenReused)
       case _ => false
  }

  /** Only its own steps move a transaction, and used hashes stay on record. */
  ghost predicate Unmoved(a: Shared, b: Shared, j: TxId) {
    && j in a.txs && j in b.txs && b.txs[j] == a.txs[j]
    && forall h | h in a.db.used :: h in b.db.used
  }

  lemma DecideLeavesOthers(a: Shared, i: TxId, j: TxId)
    requires Enabled(a, Decide(i)) && j in a.txs && j != i
    ensures Unmoved(a, Decided(a, i), j)
  {
  }

  lemma CommitLeavesOthers(a: Shared, i: TxId, j: TxId)
    requires Enabled(a, Commit(i)) && j in a.txs && j != i
    ensures Unmoved(a, Committed(a, i), j)
  {
  }

  lemma OthersUnmoved(a: Shared, l: Label, j: TxId)
    requires Enabled(a, l) && j in a.txs && (l.Environment? || l.Start? || l.tx != j)
    ensures Unmoved(a, Next(a, l), j)
  {
    match l
    case Start(_, _, _, _, _) =>
    case Lookup(i) =>
    case LockSession(i) =>
    case LockUser(i) =>
    case Decide(i) => DecideLeavesOthers(a, i, j);
    case LookupUsed(i) =>
    case LockReplayed(i) =>
    case Commit(i) => CommitLeavesOthers(a, i, j);
    case Abort(i) =>
    case Environment(_, _) =>
  }

  /** A hash on record as used is nobody's current hash. */
  lemma UsedIsNotCurrent(a: Shared, h: TokenHash)
    requires Inv(a) && h in a.db.used
    ensures forall s | s in a.db.sessions :: a.db.sessions[s].refreshHash != h
    ensures SessionByHash(a.db, h).None?
    ensures a.db.used[h].sessionId in a.db.sessions
  {
  }

  lemma CaughtLooksUp(a: Shared, j: TxId)
    requires Inv(a) && Enabled(a, Lookup(j)) && Caught(a, j)
    ensures Caught(Next(a, Lookup(j)), j)
  {
  }

  lemma CaughtLocks(a: Shared, j: TxId)
    requires Inv(a) && Enabled(a, LockSession(j)) && Caught(a, j)
    ensures Caught(Next(a, LockSession(j)), j)
  {
    UsedIsNotCurrent(a, a.txs[j].hash);
  }

  lemma CaughtReplays(a: Shared, l: Label, j: TxId)
    requires Inv(a) && Enabled(a, l) && Caught(a, j) && (l == LookupUsed(j) || l == LockReplayed(j))
    ensures Caught(Next(a, l), j)
  {
  }

  lemma CaughtCommits(a: Shared, j: TxId)
    requires Enabled(a, Commit(j)) && Caught(a, j)
    ensures Caught(Committed(a, j), j)
  {
  }

  lemma CaughtMoves(a: Shared, l: Label, j: TxId)
    requires Inv(a) && Enabled(a, l) && Caught(a, j) && !l.Environment? && !l.Start? && l.tx == j
    ensures Caught(Next(a, l), j)
  {
    match l
    case Lookup(_) => CaughtLooksUp(a, j);
    case LockSession(_) => CaughtLocks(a, j);
    case LookupUsed(_) => CaughtReplays(a, l, j);
    case LockReplayed(_) => CaughtReplays(a, l, j);
    case Commit(_) => CaughtCommits(a, j);
    case Abort(_) =>
  }

  lemma CaughtStays(a: Shared, l: Label, j: TxId)
    requires Inv(a) && Enabled(a, l) && Caught(a, j)
    ensures Caught(Next(a, l), j)
  {
    if l.Environment? || l.Start? || l.tx != j {
      OthersUnmoved(a, l, j);
    } else {
      CaughtMoves(a, l, j);
    }
  }

  lemma {:induction false} CaughtForever(st: Shared, labels: seq<Label>, j: TxId)
    requires Inv(st) && Legal(st, labels) && Caught(st, j)
    ensures Caught(After(st, labels), j)
    decreases |labels|
  {
    if labels != [] {
      CaughtStays(st, labels[0], j);
      NextKeeps(st, labels[0]);
      CaughtForever(Next(st, labels[0]), labels[1..], j);
    }
  }

  /**
   Once one transaction has committed the rotation of a hash, every other
   transaction presenting that hash that has not finished by then can, however
   the run goes on, only be aborted or end in ErrRefreshTokenReused with the
   session revoked.
   */
  lemma LosersAreCaught(cfg: H.Config, w: H.World, before: seq<Label>, after: seq<Label>, i: TxId, j: TxId)
    requires H.Reachable(cfg, w) && Legal(Quiet(w), before)
    requires var st := After(Quiet(w), before);
             && i in st.txs && st.txs[i].pc.Finished? && st.txs[i].pc.result.Ok?
             && j in st.txs && !st.txs[j].pc.Finished?
             && st.txs[j].hash == st.txs[i].hash
    requires Legal(After(Quiet(w), before), after)
    ensures var st := After(After(Quiet(w), before), after);
            && j in st.txs
            && (st.txs[j].pc.Finished? ==>
                  && st.txs[j].pc.result == Err(RefreshTokenReused)
                  && var h := st.txs[j].hash;
                  && h in st.db.used && st.db.used[h].sessionId in st.db.sessions
                  && st.db.sessions[st.db.used[h].sessionId].revokedAt.Some?)
  {
    QuietInv(cfg, w);
    AfterInv(Quiet(w), before);
    var st := After(Quiet(w), before);
    assert PcOk(st, i) && PcOk(st, j);
    assert Caught(st, j);
    CaughtForever(st, after, j);
    AfterInv(st, after);
    assert PcOk(After(st, after), j);
  }

  /** Any other answer the code gives after locking both rows is the one of the transaction run alone at that instant. */
  lemma RefusalIsSerial(a: Shared, i: TxId)
    requires Inv(a) && Enabled(a, Decide(i))
    ensures var tx := a.txs[i];
            var b := Next(a, Decide(i));
            b.txs[i].pc.Finished? ==>
              RotateRefreshToken(a.db, tx.hash, tx.next, tx.metadata, tx.now) == Outcome(b.db, b.txs[i].pc.result)
  {
    assert PcOk(a, i);
    SessionFound(a.db, a.txs[i].pc.session, a.txs[i].hash);
  }

  // ---- The answer that is given without a lock ----

  predicate IsCurrent(db: Db, s: Id, h: TokenHash) {
    s in db.sessions && db.sessions[s].refreshHash == h
  }

  /** The tables know the hash, as a current one or as a used one. */
  ghost predicate Known(db: Db, h: TokenHash) {
    h in db.used || exists s :: IsCurrent(db, s, h)
  }

  /** Transaction `i` presents a hash the tables know, and so cannot end up not finding it. */
  ghost predicate WillFind(st: Shared, i: TxId) {
    && i in st.txs
    && var h := st.txs[i].hash;
    && Known(st.db, h)
    && match st.txs[i].pc
       case Found(s) => s in st.db.sessions && (st.db.sessions[s].refreshHash == h || h in st.db.used)
       case Missed => h in st.db.used
       case Finished(r) => r != Err(RefreshTokenInvalid)
       case _ => true
  }

  /** A current hash stays known: it only stops being current by being used. */
  ghost predicate KnownStays(a: Db, b: Db) {
    && (forall h | h in a.used :: h in b.used)
    && (forall s | s in a.sessions :: s in b.sessions
          && (b.sessions[s].refreshHash == a.sessions[s].refreshHash || a.sessions[s].refreshHash in b.used))
  }

  lemma StillKnown(a: Db, b: Db, h: TokenHash)
    requires KnownStays(a, b) && Known(a, h)
    ensures Known(b, h)
  {
    if h !in b.used {
      var s :| IsCurrent(a, s, h);
      assert IsCurrent(b, s, h);
    }
  }

  lemma CommitKeepsKnown(a: Shared, i: TxId)
    requires i in a.txs && PcOk(a, i) && Enabled(a, Commit(i))
    ensures KnownStays(a.db, Committed(a, i).db)
  {
  }

  /** Only a commit and the environment write. */
  lemma WritesNothing(a: Shared, l: Label)
    requires Enabled(a, l) && !l.Commit? && !l.Environment?
    ensures Next(a, l).db == a.db
  {
    match l
    case Decide(i) => DecisionWritesNothing(a, i);
    case _ =>
  }

  lemma DecisionWritesNothing(a: Shared, i: TxId)
    requires Enabled(a, Decide(i))
    ensures Decided(a, i).db == a.db
  {
  }

  lemma StepKeepsKnown(a: Shared, l: Label)
    requires Inv(a) && Enabled(a, l)
    ensures KnownStays(a.db, Next(a, l).db)
  {
    if l.Commit? {
      CommitKeepsKnown(a, l.tx);
    } else if !l.Environment? {
      WritesNothing(a, l);
    }
  }

  lemma OtherStepFinds(a: Shared, l: Label, i: TxId)
    requires Inv(a) && Enabled(a, l) && WillFind(a, i) && (l.Environment? || l.Start? || l.tx != i)
    ensures WillFind(Next(a, l), i)
  {
    OthersUnmoved(a, l, i);
    StepKeepsKnown(a, l);
    StillKnown(a.db, Next(a, l).db, a.txs[i].hash);
  }

  lemma CurrentIsFound(db: Db, h: TokenHash)
    requires Consistent(db)
    ensures SessionByHash(db, h).None? <==> forall s :: !IsCurrent(db, s, h)
  {
    var found := SessionByHash(db, h);
    if found.Some? {
      assert IsCurrent(db, found.value, h);
    } else {
      forall s ensures !IsCurrent(db, s, h) {
        assert IsCurrent(db, s, h) ==> OwnsRefreshHash(db, s, h);
      }
    }
  }

  lemma LookupFinds(a: Shared, i: TxId)
    requires Inv(a) && Enabled(a, Lookup(i)) && i in a.txs && Known(a.db, a.txs[i].hash)
    ensures WillFind(Next(a, Lookup(i)), i)
  {
    CurrentIsFound(a.db, a.txs[i].hash);
  }

  lemma LookupUsedFinds(a: Shared, i: TxId)
    requires Inv(a) && Enabled(a, LookupUsed(i)) && WillFind(a, i)
    ensures WillFind(Next(a, LookupUsed(i)), i)
  {
    UsedIsNotCurrent(a, a.txs[i].hash);
  }

  lemma LockingFinds(a: Shared, l: Label, i: TxId)
    requires Enabled(a, l) && WillFind(a, i) && (l == LockSession(i) || l == LockUser(i) || l == LockReplayed(i))
    ensures WillFind(Next(a, l), i)
  {
  }

  lemma DecisionFinds(a: Shared, i: TxId)
    requires Enabled(a, Decide(i)) && WillFind(a, i)
    ensures WillFind(Decided(a, i), i)
  {
  }

  lemma CommitFinds(a: Shared, i: TxId)
    requires Inv(a) && Enabled(a, Commit(i)) && WillFind(a, i)
    ensures WillFind(Committed(a, i), i)
  {
    CommitKeepsKnown(a, i);
    StillKnown(a.db, Committed(a, i).db, a.txs[i].hash);
  }

  lemma OwnStepFinds(a: Shared, l: Label, i: TxId)
    requires Inv(a) && Enabled(a, l) && WillFind(a, i) && !l.Environment? && !l.Start? && l.tx == i
    ensures WillFind(Next(a, l), i)
  {
    match l
    case Lookup(_) => LookupFinds(a, i);
    case LookupUsed(_) => LookupUsedFinds(a, i);
    case Decide(_) => DecisionFinds(a, i);
    case Commit(_) => CommitFinds(a, i);
    case Abort(_) =>
    case _ => LockingFinds(a, l, i);
  }

  lemma {:induction false} WillFindForever(st: Shared, labels: seq<Label>, i: TxId)
    requires Inv(st) && Legal(st, labels) && WillFind(st, i)
    ensures WillFind(After(st, labels), i)
    decreases |labels|
  {
    if labels != [] {
      var l := labels[0];
      if l.Environment? || l.Start? || l.tx != i {
        OtherStepFinds(st, l, i);
      } else {
        OwnStepFinds(st, l, i);
      }
      NextKeeps(st, l);
      WillFindForever(Next(st, l), labels[1..], i);
    }
  }

  /**
   The answer that a token is unknown takes no lock.  It is the one the
   transaction gives when it runs alone at the instant of its first lookup,
   whatever happens between that lookup and the answer.
   */
  lemma UnknownIsSerial(cfg: H.Config, w: H.World, before: seq<Label>, after: seq<Label>, i: TxId)
    requires H.Reachable(cfg, w) && Legal(Quiet(w), before)
    requires var st := After(Quiet(w), before); Enabled(st, Lookup(i)) && Legal(Next(st, Lookup(i)), after)
    requires var last := After(Next(After(Quiet(w), before), Lookup(i)), after);
             i in last.txs && last.txs[i].pc == Finished(Err(RefreshTokenInvalid))
    ensures var st := After(Quiet(w), before);
            var tx := st.txs[i];
            RotateRefreshToken(st.db, tx.hash, tx.next, tx.metadata, tx.now) == Outcome(st.db, Err(RefreshTokenInvalid))
  {
    QuietInv(cfg, w);
    AfterInv(Quiet(w), before);
    var st := After(Quiet(w), before);
    NextKeeps(st, Lookup(i));
    if Known(st.db, st.txs[i].hash) {
      LookupFinds(st, i);
      WillFindForever(Next(st, Lookup(i)), after, i);
    }
    CurrentIsFound(st.db, st.txs[i].hash);
  }
}
