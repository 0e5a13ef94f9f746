/**
 Interleaved rotations in the history of the service.  In a run of RotationRace
 whose other steps are serial transactions on rows that are not locked, the
 tables are at every instant those of a serial run: the committed transactions in
 the order of their commits.  What is proved about serial runs carries over.
 */
module RotationHistory {
  import opened Wrappers
  import opened Tables
  import opened Transactions
  import opened RotationRace
  import opened RowLocks
  import Argon2id
  import H = History
  import L = Lineage
  import P = Preservation

  // ---- The environment is the rest of the service ----

  /** A step leaves alone what is locked. */
  ghost predicate LeavesLocked(st: Shared, after: Db) {
    && (forall s | s in st.db.sessions && s in st.sessionLocks ::
          s in after.sessions && after.sessions[s] == st.db.sessions[s])
    && (forall u | u in st.db.users && u in st.userLocks :: u in after.users && after.users[u] == st.db.users[u])
  }

  /** The hash a step generates, if it does. */
  function Generated(op: H.Op): set<TokenHash> {
    if H.Mints(op) then {op.newHash} else {}
  }

  /** The step generates a hash of its own, and hashes passwords with a full salt. */
  ghost predicate Fresh(st: Shared, op: H.Op) {
    && Generated(op) !! st.minted
    && (op.Register? || op.ReplacePassword? || op.Recover? ==>
          |op.secret.salt| == Argon2id.DEFAULT_PARAMS.saltLength)
  }

  lemma OtherStepIsPermitted(cfg: H.Config, st: Shared, op: H.Op)
    requires Inv(st) && (op.Login? || op.Refresh? ==> H.Effect(cfg, st.db, op).result.Err?)
    requires LeavesLocked(st, H.Effect(cfg, st.db, op).db)
    ensures Permitted(st, H.Effect(cfg, st.db, op).db)
  {
    H.EffectKeeps(cfg, st.db, op);
    H.EffectOnlyRevokes(cfg, st.db, op);
    OnlyRevokesIsPermitted(st, H.Effect(cfg, st.db, op).db, op.now);
  }

  lemma OnlyRevokesIsPermitted(st: Shared, after: Db, now: Instant)
    requires Consistent(after) && P.DbEvolves(st.db, after) && P.OnlyRevokes(st.db, after, now) && LeavesLocked(st, after)
    ensures Permitted(st, after)
  {
  }

  lemma LoginIsPermitted(cfg: H.Config, st: Shared, op: H.Op)
    requires Inv(st) && op.Login? && Fresh(st, op) && H.Effect(cfg, st.db, op).result.Ok?
    ensures Permitted(st, H.Effect(cfg, st.db, op).db)
  {
    H.EffectKeeps(cfg, st.db, op);
    InsertIsPermitted(st, H.Effect(cfg, st.db, op).db, op.sessionId, H.LoginRecord(cfg, op).Row());
  }

  lemma InsertIsPermitted(st: Shared, after: Db, id: Id, row: Session)
    requires Consistent(after) && id !in st.db.sessions && row.refreshHash !in st.minted
    requires after == st.db.(sessions := st.db.sessions[id := row])
    ensures Permitted(st, after)
  {
  }

  /** Every serial step but a rotation, on rows that are not locked, is one the environment may take. */
  lemma SerialStepsArePermitted(cfg: H.Config, st: Shared, op: H.Op)
    requires Inv(st) && !op.Refresh? && Fresh(st, op) && LeavesLocked(st, H.Effect(cfg, st.db, op).db)
    ensures Enabled(st, Environment(H.Effect(cfg, st.db, op).db, Generated(op)))
  {
    if op.Login? && H.Effect(cfg, st.db, op).result.Ok? {
      LoginIsPermitted(cfg, st, op);
    } else {
      OtherStepIsPermitted(cfg, st, op);
    }
  }

  /** The environment's step is this serial one. */
  ghost predicate IsStep(cfg: H.Config, st: Shared, l: Label, op: H.Op) {
    !op.Refresh? && Fresh(st, op) && l == Environment(H.Effect(cfg, st.db, op).db, Generated(op))
  }

  ghost predicate Served(cfg: H.Config, st: Shared, l: Label) {
    l.Environment? ==> exists op :: IsStep(cfg, st, l, op)
  }

  ghost predicate ServedRun(cfg: H.Config, st: Shared, labels: seq<Label>)
    requires Legal(st, labels)
    decreases |labels|
  {
    labels == [] || (Served(cfg, st, labels[0]) && ServedRun(cfg, Next(st, labels[0]), labels[1..]))
  }

  // ---- The serial run ----

  /** The rotation a transaction stands for. */
  function RotationOf(tx: Tx): H.Op {
    H.Refresh(tx.hash, tx.next, tx.metadata, true, tx.now)
  }

  /** The serial steps that take effect with a step: at a commit the rotation, else what the environment does. */
  ghost function Committing(cfg: H.Config, st: Shared, l: Label): seq<H.Op>
    requires Enabled(st, l) && Served(cfg, st, l)
  {
    match l
    case Commit(i) => [RotationOf(st.txs[i])]
    case Environment(_, _) => (var op :| IsStep(cfg, st, l, op); [op])
    case _ => []
  }

  ghost function CommitOrder(cfg: H.Config, st: Shared, labels: seq<Label>): seq<H.Op>
    requires Legal(st, labels) && ServedRun(cfg, st, labels)
    decreases |labels|
  {
    if labels == [] then []
    else Committing(cfg, st, labels[0]) + CommitOrder(cfg, Next(st, labels[0]), labels[1..])
  }

  /** A serial world with the same tables, in which no unfinished rotation has drawn its hash yet. */
  ghost predicate Mirrors(st: Shared, w: H.World) {
    && w.db == st.db && w.minted <= st.minted
    && forall i | i in st.txs && !st.txs[i].pc.Finished? :: st.txs[i].next !in w.minted
  }

  lemma StepMinted(cfg: H.Config, w: H.World, op: H.Op)
    ensures H.Step(cfg, w, op).minted == w.minted + Generated(op)
  {
  }

  lemma OneStep(cfg: H.Config, w: H.World, op: H.Op)
    ensures H.Run(cfg, w, [op]) == H.Step(cfg, w, op)
    ensures H.AdmissibleRun(cfg, w, [op]) <==> H.Admissible(w, op)
  {
    assert [op][1..] == [];
  }

  lemma CommitMirrors(cfg: H.Config, st: Shared, i: TxId, w: H.World)
    requires Inv(st) && Enabled(st, Commit(i)) && Mirrors(st, w)
    ensures var op := RotationOf(st.txs[i]);
            H.Admissible(w, op) && Mirrors(Next(st, Commit(i)), H.Step(cfg, w, op))
  {
    var op := RotationOf(st.txs[i]);
    CommitIsSerial(st, i);
    H.RefreshEffect(cfg, w, op);
    StepMinted(cfg, w, op);
    CommitMirrorsHashes(st, i, w.minted, H.Step(cfg, w, op).minted);
  }

  lemma CommitMirrorsHashes(st: Shared, i: TxId, before: set<TokenHash>, after: set<TokenHash>)
    requires Enabled(st, Commit(i)) && (forall j | j in st.txs :: NextOk(st, j))
    requires before <= st.minted && forall j | j in st.txs && !st.txs[j].pc.Finished? :: st.txs[j].next !in before
    requires after == before + {st.txs[i].next}
    ensures var b := Committed(st, i);
            after <= b.minted && forall j | j in b.txs && !b.txs[j].pc.Finished? :: b.txs[j].next !in after
  {
    assert NextOk(st, i);
    var b := Committed(st, i);
    assert b.txs.Keys == st.txs.Keys && b.minted == st.minted && b.txs[i].pc.Finished?;
    forall j | j in b.txs && !b.txs[j].pc.Finished? ensures b.txs[j].next !in after {
      assert b.txs[j] == st.txs[j];
    }
  }

  lemma EnvironmentMirrors(cfg: H.Config, st: Shared, l: Label, op: H.Op, w: H.World)
    requires (forall j | j in st.txs :: NextOk(st, j)) && Enabled(st, l) && IsStep(cfg, st, l, op) && Mirrors(st, w)
    ensures H.Admissible(w, op) && Mirrors(Next(st, l), H.Step(cfg, w, op))
  {
    H.StepDb(cfg, w, op);
    StepMinted(cfg, w, op);
    forall i | i in st.txs && !st.txs[i].pc.Finished? ensures st.txs[i].next !in w.minted + Generated(op) {
      assert NextOk(st, i);
    }
  }

  lemma DecisionMirrors(st: Shared, i: TxId, w: H.World)
    requires Enabled(st, Decide(i)) && Mirrors(st, w)
    ensures Mirrors(Decided(st, i), w)
  {
  }

  lemma OtherMirrors(st: Shared, l: Label, w: H.World)
    requires Enabled(st, l) && !l.Commit? && !l.Environment? && Mirrors(st, w)
    ensures Mirrors(Next(st, l), w)
  {
    match l
    case Decide(i) => DecisionMirrors(st, i, w);
    case _ =>
  }

  lemma StepMirrors(cfg: H.Config, st: Shared, l: Label, w: H.World)
    requires Inv(st) && Enabled(st, l) && Served(cfg, st, l) && Mirrors(st, w)
    ensures var ops := Committing(cfg, st, l);
            H.AdmissibleRun(cfg, w, ops) && Mirrors(Next(st, l), H.Run(cfg, w, ops))
  {
    match l
    case Commit(i) =>
      CommitMirrors(cfg, st, i, w);
      OneStep(cfg, w, RotationOf(st.txs[i]));
    case Environment(_, _) =>
      var op := Committing(cfg, st, l)[0];
      EnvironmentMirrors(cfg, st, l, op, w);
      OneStep(cfg, w, op);
    case _ => OtherMirrors(st, l, w);
  }

  lemma {:induction false} RunMirrors(cfg: H.Config, st: Shared, labels: seq<Label>, w: H.World)
    requires Inv(st) && Legal(st, labels) && ServedRun(cfg, st, labels) && Mirrors(st, w)
    ensures var ops := CommitOrder(cfg, st, labels);
            H.AdmissibleRun(cfg, w, ops) && Mirrors(After(st, labels), H.Run(cfg, w, ops))
    decreases |labels|
  {
    if labels != [] {
      var l := labels[0];
      var ops := Committing(cfg, st, l);
      StepMirrors(cfg, st, l, w);
      NextKeeps(st, l);
      RunMirrors(cfg, Next(st, l), labels[1..], H.Run(cfg, w, ops));
      H.RunSplit(cfg, w, ops, CommitOrder(cfg, Next(st, l), labels[1..]));
    }
  }

  /**
   Serialisability.  Whatever interleaves, the committed tables are those of the
   serial run of the committed transactions in commit order, which is a run the
   service can take; so they are the tables of a reachable state.
   */
  lemma InterleavingIsSerial(cfg: H.Config, w: H.World, labels: seq<Label>)
    requires H.Reachable(cfg, w) && Legal(Quiet(w), labels) && ServedRun(cfg, Quiet(w), labels)
    ensures var ops := CommitOrder(cfg, Quiet(w), labels);
            && H.AdmissibleRun(cfg, w, ops)
            && H.Run(cfg, w, ops).db == After(Quiet(w), labels).db
            && H.Reachable(cfg, H.Run(cfg, w, ops))
  {
    QuietInv(cfg, w);
    RunMirrors(cfg, Quiet(w), labels, w);
    H.ReachableRun(cfg, w, CommitOrder(cfg, Quiet(w), labels));
  }

  /**
   One consequence: a session that is revoked at some instant of an interleaved
   run is revoked with the same time ever after, and no hash it was ever issued
   finds it usable again, whatever else is under way.
   */
  lemma RevocationSurvivesInterleaving(
    cfg: H.Config, w: H.World, before: seq<Label>, after: seq<Label>, s: Id)
    requires H.Reachable(cfg, w) && Legal(Quiet(w), before) && ServedRun(cfg, Quiet(w), before)
    requires var st := After(Quiet(w), before);
             && Legal(st, after) && ServedRun(cfg, st, after)
             && s in st.db.sessions && st.db.sessions[s].revokedAt.Some?
    ensures var mid := H.Run(cfg, w, CommitOrder(cfg, Quiet(w), before));
            var last := H.Run(cfg, mid, CommitOrder(cfg, After(Quiet(w), before), after));
            var st := After(After(Quiet(w), before), after);
            && last.db == st.db && s in st.db.sessions && s in last.issued
            && st.db.sessions[s].revokedAt == After(Quiet(w), before).db.sessions[s].revokedAt
            && forall g, next, metadata, now | g in last.issued[s] ::
                 RotateRefreshToken(st.db, g, next, metadata, now).result.Err?
  {
    QuietInv(cfg, w);
    InterleavingIsSerial(cfg, w, before);
    RunMirrors(cfg, Quiet(w), before, w);
    AfterInv(Quiet(w), before);
    var st := After(Quiet(w), before);
    var mid := H.Run(cfg, w, CommitOrder(cfg, Quiet(w), before));
    RunMirrors(cfg, st, after, mid);
    L.RevocationIsPermanent(cfg, mid, s, CommitOrder(cfg, st, after));
  }
}
