/**
 Session and access-token lifetimes, for runs whose clock never goes back.
 */
module Lifetimes {
  import opened Wrappers
  import opened Tables
  import opened Transactions
  import opened History
  import opened Lineage
  import P = Preservation

  ghost predicate SessionTimed(cfg: Config, w: World, s: Id)
    requires s in w.db.sessions
  {
    var row := w.db.sessions[s];
    && row.createdAt <= row.lastUsedAt <= w.clock
    && row.lastUsedAt < row.expiresAt
    && row.expiresAt == row.createdAt + cfg.refreshTtl
    && (row.revokedAt.Some? ==> row.lastUsedAt <= row.revokedAt.value <= w.clock)
  }

  ghost predicate UseTimed(w: World, h: TokenHash)
    requires h in w.db.used
  {
    var use := w.db.used[h];
    && use.sessionId in w.db.sessions
    && var row := w.db.sessions[use.sessionId];
    && row.createdAt <= use.usedAt <= row.lastUsedAt
    && use.expiresAt == row.expiresAt
  }

  /** Earlier hashes of a chain were used no later than later ones. */
  ghost predicate ChainTimed(w: World, s: Id)
    requires s in w.issued
  {
    forall i, j | 0 <= i <= j < |w.issued[s]| && w.issued[s][i] in w.db.used && w.issued[s][j] in w.db.used ::
      w.db.used[w.issued[s][i]].usedAt <= w.db.used[w.issued[s][j]].usedAt
  }

  ghost predicate AccessTimed(cfg: Config, w: World, t: AccessToken) {
    && t.expiresAt == t.issuedAt + cfg.accessTtl
    && t.sessionId in w.db.sessions
    && var row := w.db.sessions[t.sessionId];
    && row.createdAt <= t.issuedAt <= row.lastUsedAt
    && (t.login ==> t.issuedAt == row.createdAt)
  }

  ghost predicate Timed(cfg: Config, w: World) {
    && (forall s | s in w.db.sessions :: SessionTimed(cfg, w, s))
    && (forall h | h in w.db.used :: UseTimed(w, h))
    && (forall s | s in w.issued :: ChainTimed(w, s))
    && (forall k | 0 <= k < |w.access| :: AccessTimed(cfg, w, w.access[k]))
  }

  ghost predicate TimelyReachable(cfg: Config, w: World) {
    exists ops ::
      AdmissibleRun(cfg, Empty(), ops) && TimelyRun(Empty().clock, ops) && Run(cfg, Empty(), ops) == w
  }

  lemma TimedKept(cfg: Config, w: World, v: World, now: Instant)
    requires Timed(cfg, w) && P.OnlyRevokes(w.db, v.db, now) && w.clock <= now == v.clock
    requires v.issued == w.issued && v.access == w.access
    ensures Timed(cfg, v)
  {
  }

  lemma TimedLogin(cfg: Config, w: World, v: World, r: SessionRecord)
    requires Timed(cfg, w) && cfg.refreshTtl > 0
    requires r.id !in w.db.sessions && r.expiresAt == r.createdAt + cfg.refreshTtl
    requires w.clock <= r.createdAt == v.clock
    requires v.db.sessions == w.db.sessions[r.id := r.Row()] && v.db.used == w.db.used
    requires v.issued == w.issued[r.id := [r.refreshHash]]
    requires v.access == w.access + [AccessToken(r.id, r.createdAt, r.createdAt + cfg.accessTtl, true)]
    ensures Timed(cfg, v)
  {
    forall s | s in v.db.sessions ensures SessionTimed(cfg, v, s) { assert s != r.id ==> SessionTimed(cfg, w, s); }
    forall h | h in v.db.used ensures UseTimed(v, h) { assert UseTimed(w, h); }
    forall s | s in v.issued ensures ChainTimed(v, s) { assert s != r.id ==> ChainTimed(w, s); }
    forall k | 0 <= k < |v.access| ensures AccessTimed(cfg, v, v.access[k]) {
      assert k < |w.access| ==> AccessTimed(cfg, w, w.access[k]);
    }
  }

  /** The tables and the access log after a rotation of session `id` at `now`. */
  ghost predicate Rotated(w: World, v: World, id: Id, row: Session, now: Instant)
    requires id in w.db.sessions && id in w.issued
  {
    var s := w.db.sessions[id];
    && s.revokedAt.None? && now < s.expiresAt && s.refreshHash !in w.db.used
    && row.refreshHash !in w.db.used && row.refreshHash != s.refreshHash
    && row.createdAt == s.createdAt && row.expiresAt == s.expiresAt && row.revokedAt.None? && row.lastUsedAt == now
    && v.db.sessions == w.db.sessions[id := row]
    && v.db.used == w.db.used[s.refreshHash := UsedToken(id, now, s.expiresAt)]
    && v.issued == w.issued[id := w.issued[id] + [row.refreshHash]]
    && w.clock <= now == v.clock
  }

  lemma TimedRotation(cfg: Config, w: World, v: World, id: Id, row: Session, now: Instant)
    requires Timed(cfg, w) && Linear(w) && id in w.db.sessions && Rotated(w, v, id, row, now)
    requires v.access == w.access || v.access == w.access + [AccessToken(id, now, now + cfg.accessTtl, false)]
    ensures Timed(cfg, v)
  {
    RotationKeepsTimes(cfg, w, v, id, row, now);
    RotationKeepsUses(cfg, w, v, id, row, now);
    forall s | s in v.issued ensures ChainTimed(v, s) { RotationKeepsOrder(cfg, w, v, id, row, now, s); }
  }

  lemma RotationKeepsTimes(cfg: Config, w: World, v: World, id: Id, row: Session, now: Instant)
    requires Timed(cfg, w) && id in w.db.sessions && id in w.issued && Rotated(w, v, id, row, now)
    requires v.access == w.access || v.access == w.access + [AccessToken(id, now, now + cfg.accessTtl, false)]
    ensures forall s | s in v.db.sessions :: SessionTimed(cfg, v, s)
    ensures forall k | 0 <= k < |v.access| :: AccessTimed(cfg, v, v.access[k])
  {
  }

  lemma RotationKeepsUses(cfg: Config, w: World, v: World, id: Id, row: Session, now: Instant)
    requires Timed(cfg, w) && id in w.db.sessions && id in w.issued && Rotated(w, v, id, row, now)
    ensures forall h | h in v.db.used :: UseTimed(v, h)
  {
  }

  lemma RotationKeepsOrder(cfg: Config, w: World, v: World, id: Id, row: Session, now: Instant, s: Id)
    requires Timed(cfg, w) && Linear(w) && id in w.db.sessions && Rotated(w, v, id, row, now) && s in v.issued
    ensures ChainTimed(v, s)
  {
    var current := w.db.sessions[id].refreshHash;
    assert ChainOfSession(w, s) && ChainOfSession(w, id) && ChainTimed(w, s);
    forall i, j | 0 <= i <= j < |v.issued[s]| && v.issued[s][i] in v.db.used && v.issued[s][j] in v.db.used
      ensures v.db.used[v.issued[s][i]].usedAt <= v.db.used[v.issued[s][j]].usedAt
    {
      assert v.issued[s][i] == w.issued[s][i] && v.issued[s][j] == w.issued[s][j];
      if w.issued[s][j] == current {
        assert i < j ==> UseTimed(w, w.issued[s][i]) && SessionTimed(cfg, w, w.db.used[w.issued[s][i]].sessionId);
      } else {
        assert w.issued[s][i] != current;
      }
    }
  }

  lemma RefreshRotates(cfg: Config, w: World, op: Op)
    requires Linear(w) && Admissible(w, op) && w.clock <= op.now && op.Refresh? && Succeeds(cfg, w, op)
    ensures SessionByHash(w.db, op.hash).Some?
    ensures var id := SessionByHash(w.db, op.hash).value;
            var v := Step(cfg, w, op);
            && id in w.db.sessions && id in w.issued && id in v.db.sessions
            && Rotated(w, v, id, v.db.sessions[id], op.now)
            && (v.access == w.access || v.access == w.access + [AccessToken(id, op.now, op.now + cfg.accessTtl, false)])
  {
    RotationShape(cfg, w, op);
    WasMinted(w, op.newHash);
    assert ChainOfSession(w, SessionByHash(w.db, op.hash).value);
  }

  lemma RefreshTimed(cfg: Config, w: World, op: Op)
    requires Timed(cfg, w) && Linear(w) && Admissible(w, op) && w.clock <= op.now
    requires op.Refresh? && Succeeds(cfg, w, op)
    ensures Timed(cfg, Step(cfg, w, op))
  {
    RefreshRotates(cfg, w, op);
    var id := SessionByHash(w.db, op.hash).value;
    TimedRotation(cfg, w, Step(cfg, w, op), id, Step(cfg, w, op).db.sessions[id], op.now);
  }

  lemma LoginTimed(cfg: Config, w: World, op: Op)
    requires Timed(cfg, w) && cfg.refreshTtl > 0 && w.clock <= op.now && op.Login? && Succeeds(cfg, w, op)
    ensures Timed(cfg, Step(cfg, w, op))
  {
    LoginShape(cfg, w, op);
    TimedLogin(cfg, w, Step(cfg, w, op), LoginRecord(cfg, op));
  }

  lemma OtherTimed(cfg: Config, w: World, op: Op)
    requires Timed(cfg, w) && w.clock <= op.now && (op.Login? || op.Refresh? ==> !Succeeds(cfg, w, op))
    ensures Timed(cfg, Step(cfg, w, op))
  {
    EffectOnlyRevokes(cfg, w.db, op);
    NotesNoChain(cfg, w, op);
    StepDb(cfg, w, op);
    TimedKept(cfg, w, Step(cfg, w, op), op.now);
  }

  lemma StepTimed(cfg: Config, w: World, op: Op)
    requires Timed(cfg, w) && Linear(w) && Admissible(w, op) && cfg.refreshTtl > 0 && w.clock <= op.now
    ensures Timed(cfg, Step(cfg, w, op))
  {
    if op.Login? && Succeeds(cfg, w, op) {
      LoginTimed(cfg, w, op);
    } else if op.Refresh? && Succeeds(cfg, w, op) {
      RefreshTimed(cfg, w, op);
    } else {
      OtherTimed(cfg, w, op);
    }
  }

  lemma {:induction false} RunTimed(cfg: Config, w: World, ops: seq<Op>)
    requires Timed(cfg, w) && Linear(w) && AdmissibleRun(cfg, w, ops) && TimelyRun(w.clock, ops) && cfg.refreshTtl > 0
    ensures Timed(cfg, Run(cfg, w, ops))
    decreases |ops|
  {
    if ops != [] {
      StepTimed(cfg, w, ops[0]);
      StepLinear(cfg, w, ops[0]);
      RunTimed(cfg, Step(cfg, w, ops[0]), ops[1..]);
    }
  }

  lemma TimelyReachableTimed(cfg: Config, w: World)
    requires TimelyReachable(cfg, w) && cfg.refreshTtl > 0
    ensures Reachable(cfg, w) && Linear(w) && Consistent(w.db) && Timed(cfg, w)
  {
    var ops :|
      AdmissibleRun(cfg, Empty(), ops) && TimelyRun(Empty().clock, ops) && Run(cfg, Empty(), ops) == w;
    assert Reachable(cfg, w);
    ReachableLinear(cfg, w);
    RunTimed(cfg, Empty(), ops);
  }

  /** Expiry is absolute, use is recorded within it, and used rows are in the order of their times. */
  lemma SessionTimes(cfg: Config, w: World, s: Id)
    requires TimelyReachable(cfg, w) && cfg.refreshTtl > 0 && s in w.db.sessions
    ensures var row := w.db.sessions[s];
            && row.createdAt <= row.lastUsedAt < row.expiresAt == row.createdAt + cfg.refreshTtl
            && (forall h | h in UsedOf(w.db, s) ::
                  row.createdAt <= w.db.used[h].usedAt <= row.lastUsedAt && w.db.used[h].expiresAt == row.expiresAt)
    ensures s in w.issued
    ensures forall i, j | 0 <= i < j < |w.issued[s]| - 1 ::
              && w.issued[s][i] in w.db.used && w.issued[s][j] in w.db.used
              && w.db.used[w.issued[s][i]].usedAt <= w.db.used[w.issued[s][j]].usedAt
  {
    TimelyReachableTimed(cfg, w);
    assert SessionTimed(cfg, w, s) && ChainOfSession(w, s) && ChainTimed(w, s);
    forall h | h in UsedOf(w.db, s)
      ensures var row := w.db.sessions[s];
              row.createdAt <= w.db.used[h].usedAt <= row.lastUsedAt && w.db.used[h].expiresAt == row.expiresAt
    {
      assert UseTimed(w, h);
    }
  }

  /**
   Every access token ever handed out for a session: the one of the login expires
   one access TTL after the session began, any other before the session's absolute
   expiry plus one access TTL, and none later than one access TTL after a
   revocation.
   */
  lemma AccessTokensExpire(cfg: Config, w: World, k: nat)
    requires TimelyReachable(cfg, w) && cfg.refreshTtl > 0 && k < |w.access|
    ensures w.access[k].sessionId in w.db.sessions
    ensures var t := w.access[k];
            var row := w.db.sessions[t.sessionId];
            && t.expiresAt < row.createdAt + cfg.refreshTtl + cfg.accessTtl
            && (t.login ==> t.expiresAt == row.createdAt + cfg.accessTtl)
            && (row.revokedAt.Some? ==> t.expiresAt <= row.revokedAt.value + cfg.accessTtl)
  {
    TimelyReachableTimed(cfg, w);
    assert AccessTimed(cfg, w, w.access[k]);
    assert SessionTimed(cfg, w, w.access[k].sessionId);
  }

  // ---- The schema never gets in the way ----

  /** With a hash the generator has not returned before, the answer to a rotation is decided by the chain alone. */
  lemma RotationOutcome(cfg: Config, w: World, h: TokenHash, next: TokenHash, metadata: Metadata, now: Instant)
    requires Reachable(cfg, w) && next !in w.minted
    ensures h in w.place ==> w.place[h].session in w.db.sessions && w.db.sessions[w.place[h].session].userId in w.db.users
    ensures var r := RotateRefreshToken(w.db, h, next, metadata, now).result;
            if h !in w.place then r == Err(RefreshTokenInvalid)
            else
              var s := w.place[h].session;
              var row := w.db.sessions[s];
              var user := w.db.users[row.userId];
              if h != row.refreshHash then r == Err(RefreshTokenReused)
              else if row.revokedAt.Some? then r == Err(SessionRevoked)
              else if now >= row.expiresAt then r == Err(SessionExpired)
              else if !user.Usable() then r == Err(AccountUnavailable)
              else r == Ok(SessionIdentity(s, row.userId, user, row.expiresAt))
  {
    ReachableLinear(cfg, w);
    if h in w.place {
      PlacedSession(w, h);
      Resolves(w, w.place[h].session, h);
      NextIsFree(w, next);
    } else {
      UnknownHash(w, h);
    }
  }

  lemma PlacedSession(w: World, h: TokenHash)
    requires Linear(w) && h in w.place
    ensures var s := w.place[h].session; s in w.issued && s in w.db.sessions && h in w.issued[s]
    ensures h == w.db.sessions[w.place[h].session].refreshHash ==> h !in w.db.used
  {
  }

  /** A hash that was never issued is nowhere in the tables. */
  lemma UnknownHash(w: World, h: TokenHash)
    requires Linear(w) && h !in w.place
    ensures SessionByHash(w.db, h).None? && h !in w.db.used
  {
  }

  lemma NextIsFree(w: World, next: TokenHash)
    requires Linear(w) && next !in w.minted
    ensures forall except :: !RefreshHashTaken(w.db.sessions, next, except)
  {
  }

  /** A login insert is rejected only for a repeated session id or a missing user. */
  lemma LoginInsertOutcome(cfg: Config, w: World, op: Op)
    requires Reachable(cfg, w) && op.Login? && Admissible(w, op) && cfg.refreshTtl > 0
    ensures Succeeds(cfg, w, op) <==> op.sessionId !in w.db.sessions && op.userId in w.db.users
  {
    ReachableLinear(cfg, w);
    NextIsFree(w, op.newHash);
  }

  // ---- Listing and logging out ----

  /** A session is listed and its account usable exactly when its current hash would rotate. */
  lemma ListedIffRotates(cfg: Config, w: World, s: Id, next: TokenHash, metadata: Metadata, now: Instant)
    requires Reachable(cfg, w) && s in w.db.sessions && next !in w.minted
    ensures w.db.sessions[s].userId in w.db.users
    ensures var row := w.db.sessions[s];
            RotateRefreshToken(w.db, row.refreshHash, next, metadata, now).result.Ok?
            <==> s in ListedOf(w.db, row.userId, now) && w.db.users[row.userId].Usable()
  {
    ReachableLinear(cfg, w);
    assert ChainOfSession(w, s);
    RotationOutcome(cfg, w, w.db.sessions[s].refreshHash, next, metadata, now);
  }

  /** LogoutAll counts the unrevoked sessions, at least the listed ones, leaves none, and then counts zero. */
  lemma LogoutAllEmpties(db: Db, u: Id, now: Instant, t: Instant, later: Instant)
    ensures var o := RevokeAllSessions(db, u, now);
            && o.result.Ok? && o.result.value == |UnrevokedOf(db, u)|
            && |ListedOf(db, u, t)| <= o.result.value
            && ListedOf(o.db, u, t) == {}
            && RevokeAllSessions(o.db, u, later) == Outcome(o.db, Ok(0))
            && (forall s | s in db.sessions && db.sessions[s].userId != u :: o.db.sessions[s] == db.sessions[s])
  {
    var o := RevokeAllSessions(db, u, now);
    SubsetSize(ListedOf(db, u, t), UnrevokedOf(db, u));
    assert UnrevokedOf(o.db, u) == {};
    assert RevokeIds(o.db.sessions, SessionsOf(o.db.sessions, u), later) == o.db.sessions;
  }

  lemma {:induction false} SubsetSize<T>(a: set<T>, b: set<T>)
    requires a <= b
    ensures |a| <= |b|
  {
    assert b == a + (b - a);
  }
}
