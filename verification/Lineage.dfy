/**
 Refresh-token lineage.  Every session owns a chain of refresh hashes; only the
 newest one rotates, every older one is on record and betrays a replay.
 */
module Lineage {
  import opened Wrappers
  import opened Tables
  import opened Transactions
  import opened History
  import P = Preservation

  // ---- The lineage invariant ----

  ghost predicate ChainOfSession(w: World, s: Id)
    requires s in w.issued && s in w.db.sessions
  {
    && |w.issued[s]| > 0
    && w.issued[s][|w.issued[s]| - 1] == w.db.sessions[s].refreshHash
    && (forall i | 0 <= i < |w.issued[s]| ::
          && w.issued[s][i] in w.minted
          && w.issued[s][i] in w.place && w.place[w.issued[s][i]] == Place(s, i)
          && (w.issued[s][i] in w.db.used <==> i < |w.issued[s]| - 1))
  }

  ghost predicate Placed(w: World, h: TokenHash)
    requires h in w.place
  {
    var p := w.place[h];
    p.session in w.issued && p.position < |w.issued[p.session]| && w.issued[p.session][p.position] == h
  }

  ghost predicate Recorded(w: World, h: TokenHash)
    requires h in w.db.used
  {
    h in w.place && w.db.used[h].sessionId == w.place[h].session
  }

  ghost predicate Linear(w: World) {
    && w.issued.Keys == w.db.sessions.Keys
    && (forall s | s in w.db.sessions :: ChainOfSession(w, s))
    && (forall h | h in w.place :: Placed(w, h))
    && (forall h | h in w.db.used :: Recorded(w, h))
  }

  /** Every hash in a chain and every used hash came out of the generator. */
  lemma WasMinted(w: World, h: TokenHash)
    requires Linear(w)
    ensures h in w.place || h in w.db.used ==> h in w.minted
  {
  }

  lemma LinearKept(w: World, v: World, now: Instant)
    requires Linear(w) && P.OnlyRevokes(w.db, v.db, now)
    requires v.issued == w.issued && v.place == w.place && w.minted <= v.minted
    ensures Linear(v)
  {
    forall s | s in v.db.sessions ensures ChainOfSession(v, s) { assert ChainOfSession(w, s); }
    forall h | h in v.place ensures Placed(v, h) { assert Placed(w, h); }
    forall h | h in v.db.used ensures Recorded(v, h) { assert Recorded(w, h); }
  }

  lemma LinearLogin(w: World, v: World, id: Id, h: TokenHash, row: Session)
    requires Linear(w) && h !in w.minted && id !in w.db.sessions && row.refreshHash == h
    requires v.db.sessions == w.db.sessions[id := row] && v.db.used == w.db.used
    requires v.issued == w.issued[id := [h]] && v.place == w.place[h := Place(id, 0)] && v.minted == w.minted + {h}
    ensures Linear(v)
  {
    WasMinted(w, h);
    forall s | s in v.db.sessions && s != id ensures ChainOfSession(v, s) {
      assert ChainOfSession(w, s);
    }
    assert ChainOfSession(v, id);
    forall g | g in v.place ensures Placed(v, g) { assert g != h ==> Placed(w, g); }
    forall g | g in v.db.used ensures Recorded(v, g) { assert Recorded(w, g); }
  }

  /** What a rotation of session `id` does to the chains. */
  ghost predicate Extends(w: World, v: World, id: Id, row: Session, use: UsedToken) {
    && id in w.db.sessions && id in w.issued && row.refreshHash !in w.minted && use.sessionId == id
    && v.db.sessions == w.db.sessions[id := row]
    && v.db.used == w.db.used[w.db.sessions[id].refreshHash := use]
    && v.issued == w.issued[id := w.issued[id] + [row.refreshHash]]
    && v.place == w.place[row.refreshHash := Place(id, |w.issued[id]|)]
    && v.minted == w.minted + {row.refreshHash}
  }

  lemma RotatedChain(w: World, v: World, id: Id, row: Session, use: UsedToken)
    requires Extends(w, v, id, row, use) && ChainOfSession(w, id)
    requires row.refreshHash !in w.place && row.refreshHash !in w.db.used
    ensures ChainOfSession(v, id)
  {
  }

  lemma OtherChain(w: World, v: World, id: Id, row: Session, use: UsedToken, s: Id)
    requires Extends(w, v, id, row, use) && ChainOfSession(w, id)
    requires s in w.db.sessions && s in w.issued && s != id && ChainOfSession(w, s) && row.refreshHash !in w.place
    ensures ChainOfSession(v, s)
  {
  }

  lemma LinearRotation(w: World, v: World, id: Id, row: Session, use: UsedToken)
    requires Linear(w) && Extends(w, v, id, row, use)
    ensures Linear(v)
  {
    var current := w.db.sessions[id].refreshHash;
    WasMinted(w, row.refreshHash);
    RotatedChain(w, v, id, row, use);
    forall s | s in v.db.sessions && s != id ensures ChainOfSession(v, s) {
      OtherChain(w, v, id, row, use, s);
    }
    forall g | g in v.place ensures Placed(v, g) { assert g != row.refreshHash ==> Placed(w, g); }
    forall g | g in v.db.used ensures Recorded(v, g) {
      assert g != current ==> Recorded(w, g);
      assert ChainOfSession(w, id);
    }
  }

  lemma StepLinear(cfg: Config, w: World, op: Op)
    requires Linear(w) && Admissible(w, op)
    ensures Linear(Step(cfg, w, op))
  {
    var v := Step(cfg, w, op);
    if op.Login? && Succeeds(cfg, w, op) {
      LoginShape(cfg, w, op);
      LinearLogin(w, v, op.sessionId, op.newHash, LoginRecord(cfg, op).Row());
    } else if op.Refresh? && Succeeds(cfg, w, op) {
      RotationShape(cfg, w, op);
      var id := SessionByHash(w.db, op.hash).value;
      LinearRotation(w, v, id, v.db.sessions[id], v.db.used[op.hash]);
    } else {
      EffectOnlyRevokes(cfg, w.db, op);
      NotesNoChain(cfg, w, op);
      LinearKept(w, v, op.now);
    }
  }

  lemma {:induction false} RunLinear(cfg: Config, w: World, ops: seq<Op>)
    requires Linear(w) && AdmissibleRun(cfg, w, ops)
    ensures Linear(Run(cfg, w, ops))
    decreases |ops|
  {
    if ops != [] {
      StepLinear(cfg, w, ops[0]);
      RunLinear(cfg, Step(cfg, w, ops[0]), ops[1..]);
    }
  }

  lemma ReachableLinear(cfg: Config, w: World)
    requires Reachable(cfg, w)
    ensures Linear(w) && Consistent(w.db)
  {
    var ops :| AdmissibleRun(cfg, Empty(), ops) && Run(cfg, Empty(), ops) == w;
    RunLinear(cfg, Empty(), ops);
    RunKeeps(cfg, Empty(), ops);
  }

  lemma ReachableConsistent(cfg: Config, w: World)
    requires Reachable(cfg, w)
    ensures Consistent(w.db)
  {
    ReachableLinear(cfg, w);
  }

  // ---- Chains ----

  /** The used refresh tokens on record for a session. */
  ghost function UsedOf(db: Db, s: Id): set<TokenHash> {
    set h | h in db.used && db.used[h].sessionId == s
  }

  function FirstHashes(chain: seq<TokenHash>, n: nat): set<TokenHash>
    requires n <= |chain|
  {
    set i | 0 <= i < n :: chain[i]
  }

  /** A chain without repetition has as many hashes as it is long. */
  lemma {:induction false} DistinctCount(chain: seq<TokenHash>, n: nat)
    requires n <= |chain| && forall i, j | 0 <= i < j < |chain| :: chain[i] != chain[j]
    ensures |FirstHashes(chain, n)| == n
  {
    if n > 0 {
      DistinctCount(chain, n - 1);
      var last := chain[n - 1];
      assert FirstHashes(chain, n) == FirstHashes(chain, n - 1) + {last};
      assert last !in FirstHashes(chain, n - 1);
    } else {
      assert FirstHashes(chain, 0) == {};
    }
  }

  lemma PrefixCount(w: World, s: Id, n: nat)
    requires s in w.issued && s in w.db.sessions && ChainOfSession(w, s) && n <= |w.issued[s]|
    ensures |set i | 0 <= i < n :: w.issued[s][i]| == n
  {
    var chain := w.issued[s];
    assert forall i | 0 <= i < |chain| :: w.place[chain[i]] == Place(s, i);
    DistinctCount(chain, n);
    assert FirstHashes(chain, n) == set i | 0 <= i < n :: chain[i];
  }

  /**
   In every reachable state a session's chain is exactly its used hashes, oldest
   first, followed by its current hash; no hash occurs twice in any chain or in
   two chains; and no current hash is on record as used.
   */
  lemma ChainsAreExact(cfg: Config, w: World, s: Id)
    requires Reachable(cfg, w) && s in w.db.sessions
    ensures s in w.issued && |w.issued[s]| > 0
    ensures w.issued[s][|w.issued[s]| - 1] == w.db.sessions[s].refreshHash
    ensures w.db.sessions[s].refreshHash !in w.db.used
    ensures UsedOf(w.db, s) == set i | 0 <= i < |w.issued[s]| - 1 :: w.issued[s][i]
    ensures |UsedOf(w.db, s)| == |w.issued[s]| - 1
    ensures forall t, i, j | t in w.issued && 0 <= i < |w.issued[s]| && 0 <= j < |w.issued[t]| ::
              w.issued[s][i] == w.issued[t][j] ==> s == t && i == j
  {
    ReachableLinear(cfg, w);
    assert ChainOfSession(w, s);
    UsedIsPrefix(w, s);
    PrefixCount(w, s, |w.issued[s]| - 1);
    forall t, i, j | t in w.issued && 0 <= i < |w.issued[s]| && 0 <= j < |w.issued[t]| && w.issued[s][i] == w.issued[t][j]
      ensures s == t && i == j
    {
      assert ChainOfSession(w, t);
    }
  }

  lemma UsedIsPrefix(w: World, s: Id)
    requires Linear(w) && s in w.db.sessions
    ensures UsedOf(w.db, s) == set i | 0 <= i < |w.issued[s]| - 1 :: w.issued[s][i]
  {
  }

  /** How often a run rotates a session. */
  ghost function Rotations(cfg: Config, w: World, ops: seq<Op>, s: Id): nat
    decreases |ops|
  {
    if ops == [] then 0
    else
      (if ops[0].Refresh? && Succeeds(cfg, w, ops[0]) && SessionByHash(w.db, ops[0].hash) == Some(s) then 1 else 0)
      + Rotations(cfg, Step(cfg, w, ops[0]), ops[1..], s)
  }

  /** The chain of `s` got `k` hashes longer, or was begun. */
  ghost predicate Grew(w: World, v: World, s: Id, k: nat) {
    && (s in w.issued ==> s in v.issued && w.issued[s] <= v.issued[s] && |v.issued[s]| == |w.issued[s]| + k)
    && (s !in w.issued ==> k == 0 && (s in v.issued ==> |v.issued[s]| == 1))
  }

  lemma OneRotation(cfg: Config, w: World, op: Op, s: Id)
    ensures Rotations(cfg, w, [op], s)
         == if op.Refresh? && Succeeds(cfg, w, op) && SessionByHash(w.db, op.hash) == Some(s) then 1 else 0
  {
    assert [op][1..] == [];
  }

  lemma RotationGrows(cfg: Config, w: World, op: Op, s: Id)
    requires w.issued.Keys == w.db.sessions.Keys && op.Refresh? && Succeeds(cfg, w, op)
    ensures Grew(w, Step(cfg, w, op), s, if SessionByHash(w.db, op.hash) == Some(s) then 1 else 0)
  {
    RotationShape(cfg, w, op);
  }

  lemma LoginGrows(cfg: Config, w: World, op: Op, s: Id)
    requires w.issued.Keys == w.db.sessions.Keys && op.Login? && Succeeds(cfg, w, op)
    ensures Grew(w, Step(cfg, w, op), s, 0)
  {
    LoginShape(cfg, w, op);
  }

  lemma StepGrowsChain(cfg: Config, w: World, op: Op, s: Id)
    requires w.issued.Keys == w.db.sessions.Keys
    ensures Grew(w, Step(cfg, w, op), s, Rotations(cfg, w, [op], s))
  {
    OneRotation(cfg, w, op, s);
    if op.Refresh? && Succeeds(cfg, w, op) {
      RotationGrows(cfg, w, op, s);
    } else if op.Login? && Succeeds(cfg, w, op) {
      LoginGrows(cfg, w, op, s);
    } else {
      NotesNoChain(cfg, w, op);
    }
  }

  ghost predicate GrewOver(w: World, v: World, s: Id, k: nat) {
    && (s in w.issued ==> s in v.issued && w.issued[s] <= v.issued[s] && |v.issued[s]| == |w.issued[s]| + k)
    && (s !in w.issued && s in v.issued ==> |v.issued[s]| == 1 + k)
  }

  lemma GrewThen(w: World, u: World, v: World, s: Id, j: nat, k: nat)
    requires Grew(w, u, s, j) && GrewOver(u, v, s, k)
    ensures GrewOver(w, v, s, j + k)
  {
  }

  lemma {:induction false} RunGrowsChain(cfg: Config, w: World, ops: seq<Op>, s: Id)
    requires Linear(w) && AdmissibleRun(cfg, w, ops)
    ensures GrewOver(w, Run(cfg, w, ops), s, Rotations(cfg, w, ops, s))
    decreases |ops|
  {
    if ops != [] {
      var v, rest := Step(cfg, w, ops[0]), ops[1..];
      StepLinear(cfg, w, ops[0]);
      StepGrowsChain(cfg, w, ops[0], s);
      OneRotation(cfg, w, ops[0], s);
      RunGrowsChain(cfg, v, rest, s);
      GrewThen(w, v, Run(cfg, v, rest), s, Rotations(cfg, w, [ops[0]], s), Rotations(cfg, v, rest, s));
    }
  }

  /** Conservation over whole runs: a session has one used row for each rotation the run made of it. */
  lemma UsedRowsCountRotations(cfg: Config, ops: seq<Op>, s: Id)
    requires AdmissibleRun(cfg, Empty(), ops) && s in Run(cfg, Empty(), ops).db.sessions
    ensures |UsedOf(Run(cfg, Empty(), ops).db, s)| == Rotations(cfg, Empty(), ops, s)
  {
    var w := Run(cfg, Empty(), ops);
    assert Reachable(cfg, w);
    ReachableLinear(cfg, w);
    ChainsAreExact(cfg, w, s);
    RunGrowsChain(cfg, Empty(), ops, s);
  }

  // ---- Replay ----

  /** The newest hash of a chain finds its session; any older one finds only its used row. */
  lemma Resolves(w: World, s: Id, g: TokenHash)
    requires Linear(w) && Consistent(w.db) && s in w.issued && g in w.issued[s]
    ensures g == w.db.sessions[s].refreshHash ==> SessionByHash(w.db, g) == Some(s)
    ensures g != w.db.sessions[s].refreshHash ==>
              SessionByHash(w.db, g) == None && g in w.db.used && w.db.used[g].sessionId == s
  {
    assert ChainOfSession(w, s);
    var i :| 0 <= i < |w.issued[s]| && w.issued[s][i] == g;
    var found := SessionByHash(w.db, g);
    if found.Some? {
      assert ChainOfSession(w, found.value);
    }
    assert OwnsRefreshHash(w.db, s, w.db.sessions[s].refreshHash);
    assert g in w.db.used ==> Recorded(w, g);
  }

  /** No hash ever issued to a revoked session rotates; which error it gets tells whether it was the newest. */
  lemma RevokedNeverRotates(w: World, s: Id, g: TokenHash, next: TokenHash, metadata: Metadata, now: Instant)
    requires Linear(w) && Consistent(w.db) && s in w.issued && g in w.issued[s]
    requires w.db.sessions[s].revokedAt.Some?
    ensures RotateRefreshToken(w.db, g, next, metadata, now).result
         == Err(if g == w.db.sessions[s].refreshHash then SessionRevoked else RefreshTokenReused)
    ensures RotateRefreshToken(w.db, g, next, metadata, now).db == w.db
  {
    Resolves(w, s, g);
    RevokedIsRefused(w.db, s, g, next, metadata, now);
  }

  lemma RevokedIsRefused(db: Db, s: Id, g: TokenHash, next: TokenHash, metadata: Metadata, now: Instant)
    requires s in db.sessions && db.sessions[s].revokedAt.Some?
    ensures SessionByHash(db, g) == Some(s) ==>
              RotateRefreshToken(db, g, next, metadata, now) == Outcome(db, Err(SessionRevoked))
    ensures SessionByHash(db, g).None? && g in db.used && db.used[g].sessionId == s ==>
              RotateRefreshToken(db, g, next, metadata, now) == Outcome(db, Err(RefreshTokenReused))
  {
  }

  lemma ReplayIsRefused(db: Db, s: Id, g: TokenHash, next: TokenHash, metadata: Metadata, now: Instant)
    requires SessionByHash(db, g).None? && g in db.used && db.used[g].sessionId == s && s in db.sessions
    ensures RotateRefreshToken(db, g, next, metadata, now)
         == Outcome(db.(sessions := RevokeIds(db.sessions, {s}, now)), Err(RefreshTokenReused))
  {
  }

  /** From the moment a session is revoked, no continuation of the run rotates any hash it was ever issued. */
  lemma RevocationIsPermanent(cfg: Config, w: World, s: Id, after: seq<Op>)
    requires Reachable(cfg, w) && s in w.db.sessions && w.db.sessions[s].revokedAt.Some? && AdmissibleRun(cfg, w, after)
    ensures var v := Run(cfg, w, after);
            && s in v.issued && s in v.db.sessions && v.db.sessions[s].revokedAt == w.db.sessions[s].revokedAt
            && forall g, next, metadata, now | g in v.issued[s] ::
                 RotateRefreshToken(v.db, g, next, metadata, now).result.Err?
  {
    var v := Run(cfg, w, after);
    RunKeeps(cfg, w, after);
    ReachableRun(cfg, w, after);
    ReachableLinear(cfg, v);
    forall g, next, metadata, now | g in v.issued[s]
      ensures RotateRefreshToken(v.db, g, next, metadata, now).result.Err?
    {
      RevokedNeverRotates(v, s, g, next, metadata, now);
    }
  }

  lemma RotatedOnRecord(cfg: Config, w: World, rotation: Op)
    requires Linear(w) && rotation.Refresh? && Succeeds(cfg, w, rotation)
    ensures var s := SessionByHash(w.db, rotation.hash);
            var v := Step(cfg, w, rotation);
            s.Some? && s.value in v.issued && rotation.hash in v.issued[s.value] && rotation.hash in v.db.used
  {
    RotationShape(cfg, w, rotation);
    var s := SessionByHash(w.db, rotation.hash).value;
    assert ChainOfSession(w, s);
    assert Step(cfg, w, rotation).issued[s][|w.issued[s]| - 1] == rotation.hash;
  }

  lemma StaysOnRecord(cfg: Config, w: World, s: Id, h: TokenHash, ops: seq<Op>)
    requires Reachable(cfg, w) && AdmissibleRun(cfg, w, ops)
    requires s in w.issued && h in w.issued[s] && h in w.db.used
    ensures var v := Run(cfg, w, ops);
            Reachable(cfg, v) && s in v.issued && h in v.issued[s] && h in v.db.used
  {
    ReachableRun(cfg, w, ops);
    ReachableLinear(cfg, w);
    RunKeeps(cfg, w, ops);
    RunGrowsChain(cfg, w, ops, s);
    PrefixMember(w.issued[s], Run(cfg, w, ops).issued[s], h);
  }

  lemma PrefixMember(a: seq<TokenHash>, b: seq<TokenHash>, h: TokenHash)
    requires a <= b && h in a
    ensures h in b
  {
  }

  /** A hash that is on record as used gets ErrRefreshTokenReused and revokes its session. */
  lemma ReusedRotation(w: World, s: Id, g: TokenHash, next: TokenHash, metadata: Metadata, now: Instant)
    requires Linear(w) && Consistent(w.db) && s in w.issued && g in w.issued[s] && g in w.db.used
    ensures RotateRefreshToken(w.db, g, next, metadata, now)
         == Outcome(w.db.(sessions := RevokeIds(w.db.sessions, {s}, now)), Err(RefreshTokenReused))
  {
    assert ChainOfSession(w, s);
    Resolves(w, s, g);
    ReplayIsRefused(w.db, s, g, next, metadata, now);
  }

  lemma ReplayRevokes(cfg: Config, w: World, s: Id, replay: Op)
    requires Reachable(cfg, w) && replay.Refresh? && Admissible(w, replay)
    requires s in w.issued && replay.hash in w.issued[s] && replay.hash in w.db.used
    ensures Effect(cfg, w.db, replay).result == Err(RefreshTokenReused)
    ensures var v := Step(cfg, w, replay);
            && Reachable(cfg, v)
            && s in v.db.sessions && v.db.sessions[s].revokedAt.Some?
            && s in v.issued && replay.hash in v.issued[s]
  {
    ReachableLinear(cfg, w);
    ReusedRotation(w, s, replay.hash, replay.newHash, replay.metadata, replay.now);
    RefreshEffect(cfg, w, replay);
    NotesNoChain(cfg, w, replay);
    ReachableStep(cfg, w, replay);
  }

  /**
   Replay detection.  Once a hash has rotated, presenting it again after any
   number of further steps is answered with ErrRefreshTokenReused and leaves its
   session revoked, and from then on nothing ever issued to that session rotates.
   */
  lemma ReplayIsDetected(cfg: Config, w: World, rotation: Op, between: seq<Op>, replay: Op, after: seq<Op>)
    requires Reachable(cfg, w) && rotation.Refresh? && Admissible(w, rotation) && Succeeds(cfg, w, rotation)
    requires AdmissibleRun(cfg, Step(cfg, w, rotation), between)
    requires replay.Refresh? && replay.hash == rotation.hash
    requires Admissible(Run(cfg, Step(cfg, w, rotation), between), replay)
    requires AdmissibleRun(cfg, Step(cfg, Run(cfg, Step(cfg, w, rotation), between), replay), after)
    ensures var s := SessionByHash(w.db, rotation.hash);
            var replayed := Run(cfg, Step(cfg, w, rotation), between);
            var revoked := Step(cfg, replayed, replay);
            var last := Run(cfg, revoked, after);
            && s.Some?
            && Effect(cfg, replayed.db, replay).result == Err(RefreshTokenReused)
            && s.value in revoked.db.sessions && revoked.db.sessions[s.value].revokedAt.Some?
            && s.value in last.issued && rotation.hash in last.issued[s.value]
            && forall g, next, metadata, now | g in last.issued[s.value] ::
                 RotateRefreshToken(last.db, g, next, metadata, now).result.Err?
  {
    var rotated := Step(cfg, w, rotation);
    var replayed := Run(cfg, rotated, between);
    var revoked := Step(cfg, replayed, replay);
    ReachableLinear(cfg, w);
    RotatedOnRecord(cfg, w, rotation);
    var s := SessionByHash(w.db, rotation.hash).value;
    ReachableStep(cfg, w, rotation);
    StaysOnRecord(cfg, rotated, s, rotation.hash, between);
    ReplayRevokes(cfg, replayed, s, replay);
    ReachableLinear(cfg, revoked);
    RunGrowsChain(cfg, revoked, after, s);
    PrefixMember(revoked.issued[s], Run(cfg, revoked, after).issued[s], rotation.hash);
    RevocationIsPermanent(cfg, revoked, s, after);
  }

  /**
   A refresh whose signing failed hands out no access token but has rotated all
   the same: the hash the caller is left with is a used one, and presenting it
   again, at any later time, ends the session for good.
   */
  lemma UnsignedRefreshEndsSession(
    cfg: Config, w: World, refresh: Op, between: seq<Op>, again: Op, after: seq<Op>)
    requires Reachable(cfg, w) && refresh.Refresh? && !refresh.signed && Admissible(w, refresh) && Succeeds(cfg, w, refresh)
    requires AdmissibleRun(cfg, Step(cfg, w, refresh), between)
    requires again.Refresh? && again.hash == refresh.hash
    requires Admissible(Run(cfg, Step(cfg, w, refresh), between), again)
    requires AdmissibleRun(cfg, Step(cfg, Run(cfg, Step(cfg, w, refresh), between), again), after)
    ensures Step(cfg, w, refresh).access == w.access && refresh.hash in Step(cfg, w, refresh).db.used
    ensures var s := SessionByHash(w.db, refresh.hash);
            var later := Run(cfg, Step(cfg, w, refresh), between);
            var revoked := Step(cfg, later, again);
            var last := Run(cfg, revoked, after);
            && s.Some?
            && Effect(cfg, later.db, again).result == Err(RefreshTokenReused)
            && s.value in revoked.db.sessions && revoked.db.sessions[s.value].revokedAt.Some?
            && s.value in last.issued
            && forall g, next, metadata, now | g in last.issued[s.value] ::
                 RotateRefreshToken(last.db, g, next, metadata, now).result.Err?
  {
    ReachableLinear(cfg, w);
    RotationShape(cfg, w, refresh);
    ReplayIsDetected(cfg, w, refresh, between, again, after);
  }
}
