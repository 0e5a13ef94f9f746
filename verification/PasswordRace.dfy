/**
 Password changes whose read, check and compare-and-set are separate steps,
 interleaved with each other and with password recoveries, under the model
 assumption stated in RotationRace.  Only the credential rows matter here: who
 may use an account changes freely, and the hash a transaction would write was
 printed with a salt of its own and so equals no earlier hash.  The account row
 is joined to the update but not locked, so a change that had to wait re-checks
 the hash and not the account.
 */
module PasswordRace {
  import opened Wrappers
  import opened Tables
  import opened RowLocks
  import H = History
  import Transactions

  datatype Job =
    | Change(userId: Id, next: string)  // an authenticated password change
    | Recover(userId: Id, next: string) // the credential update of a recovery

  datatype Pc =
    | Begin
    | Read(expected: string, version: nat)     // the hash read, and which version of the credential that was
    | Checked(expected: string, version: nat)  // the current password verified against it
    | Waiting(expected: string, version: nat)  // the update matched a row and waits for its lock
    | Locked(version: nat)                     // the row still matches and is written, not committed
    | RecoveryLocked                           // the row is written without a condition, not committed
    | Succeeded(version: nat)                  // committed; for a change, the version it had read
    | Recovered
    | Refused(error: Error)
    | Aborted

  datatype Tx = Tx(job: Job, pc: Pc)

  datatype Shared = Shared(
    usable: set<Id>,
    hashes: map<Id, string>,          // password_hash of every credential
    versions: map<Id, seq<string>>,   // every hash a credential has had, oldest first
    printed: set<string>,
    txs: map<TxId, Tx>,
    locks: Locks)

  datatype Label =
    | Start(tx: TxId, job: Job)
    | ReadHash(tx: TxId)
    | Check(tx: TxId, matches: bool)
    | Match(tx: TxId)
    | Lock(tx: TxId)
    | LockForRecovery(tx: TxId)
    | Commit(tx: TxId)
    | Abort(tx: TxId)
    | Register(userId: Id, hash: string)
    | Usable(usable: set<Id>)

  function Move(st: Shared, i: TxId, pc: Pc): Shared
    requires i in st.txs
  {
    st.(txs := st.txs[i := st.txs[i].(pc := pc)])
  }

  function Leave(st: Shared, i: TxId, pc: Pc): Shared
    requires i in st.txs
  {
    Move(st, i, pc).(locks := Released(st.locks, i))
  }

  /** Not yet committed, refused or aborted. */
  predicate Open(pc: Pc) {
    !pc.Succeeded? && !pc.Recovered? && !pc.Refused? && !pc.Aborted?
  }

  ghost predicate Enabled(st: Shared, l: Label) {
    match l
    case Start(i, job) => i !in st.txs && job.next !in st.printed
    case ReadHash(i) => i in st.txs && st.txs[i].job.Change? && st.txs[i].pc.Begin?
    case Check(i, _) => i in st.txs && st.txs[i].job.Change? && st.txs[i].pc.Read?
    case Match(i) => i in st.txs && st.txs[i].job.Change? && st.txs[i].pc.Checked?
    case Lock(i) =>
      && i in st.txs && st.txs[i].job.Change? && st.txs[i].pc.Waiting?
      && st.txs[i].job.userId in st.hashes && Free(st.locks, st.txs[i].job.userId, i)
    case LockForRecovery(i) =>
      && i in st.txs && st.txs[i].job.Recover? && st.txs[i].pc.Begin?
      && st.txs[i].job.userId in st.hashes && Free(st.locks, st.txs[i].job.userId, i)
    case Commit(i) =>
      && i in st.txs && (st.txs[i].pc.Locked? || st.txs[i].pc.RecoveryLocked?)
      && st.txs[i].job.userId in st.versions
    case Abort(i) => i in st.txs && Open(st.txs[i].pc)
    case Register(u, hash) => u !in st.hashes && u !in st.versions && hash !in st.printed
    case Usable(_) => true
  }

  ghost function Next(st: Shared, l: Label): Shared
    requires Enabled(st, l)
  {
    match l
    case Start(i, job) => st.(txs := st.txs[i := Tx(job, Begin)], printed := st.printed + {job.next})
    case ReadHash(i) =>
      var u := st.txs[i].job.userId;
      if u in st.usable && u in st.hashes && u in st.versions && |st.versions[u]| > 0
      then Move(st, i, Read(st.hashes[u], |st.versions[u]| - 1))
      else Leave(st, i, Refused(AccountUnavailable))
    case Check(i, matches) =>
      var pc := st.txs[i].pc;
      if matches then Move(st, i, Checked(pc.expected, pc.version)) else Leave(st, i, Refused(InvalidCredentials))
    case Match(i) =>
      var u, pc := st.txs[i].job.userId, st.txs[i].pc;
      if u in st.hashes && st.hashes[u] == pc.expected && u in st.usable
      then Move(st, i, Waiting(pc.expected, pc.version)) else Leave(st, i, Refused(InvalidCredentials))
    case Lock(i) =>
      var u, pc := st.txs[i].job.userId, st.txs[i].pc;
      if st.hashes[u] == pc.expected then Move(st.(locks := st.locks[u := i]), i, Locked(pc.version))
      else Leave(st, i, Refused(InvalidCredentials))
    case LockForRecovery(i) => Move(st.(locks := st.locks[st.txs[i].job.userId := i]), i, RecoveryLocked)
    case Commit(i) =>
      var u, next := st.txs[i].job.userId, st.txs[i].job.next;
      Leave(st, i, if st.txs[i].pc.Locked? then Succeeded(st.txs[i].pc.version) else Recovered).(
      hashes := st.hashes[u := next], versions := st.versions[u := st.versions[u] + [next]])
    case Abort(i) => Leave(st, i, Aborted)
    case Register(u, hash) =>
      st.(hashes := st.hashes[u := hash], versions := st.versions[u := [hash]], printed := st.printed + {hash})
    case Usable(usable) => st.(usable := usable)
  }

  // ---- Invariant ----

  ghost predicate HistoryOk(st: Shared, u: Id)
    requires u in st.versions
  {
    && u in st.hashes && |st.versions[u]| > 0 && st.versions[u][|st.versions[u]| - 1] == st.hashes[u]
    && (forall k | 0 <= k < |st.versions[u]| :: st.versions[u][k] in st.printed)
    && (forall k, m | 0 <= k < m < |st.versions[u]| :: st.versions[u][k] != st.versions[u][m])
  }

  /** The hash a transaction would write is its own, and is not written before it commits. */
  ghost predicate NextOk(st: Shared, i: TxId)
    requires i in st.txs
  {
    && st.txs[i].job.next in st.printed
    && (forall j | j in st.txs && j != i :: st.txs[j].job.next != st.txs[i].job.next)
    && (Open(st.txs[i].pc) ==>
          forall u, k | u in st.versions && 0 <= k < |st.versions[u]| :: st.versions[u][k] != st.txs[i].job.next)
  }

  ghost predicate HasRead(st: Shared, u: Id, expected: string, version: nat) {
    u in st.versions && version < |st.versions[u]| && st.versions[u][version] == expected
  }

  ghost predicate PcOk(st: Shared, i: TxId)
    requires i in st.txs
  {
    var tx := st.txs[i];
    var u := tx.job.userId;
    match tx.pc
    case Read(h, v) => HasRead(st, u, h, v)
    case Checked(h, v) => HasRead(st, u, h, v)
    case Waiting(h, v) => HasRead(st, u, h, v)
    case Locked(v) => Holds(st.locks, i, u) && u in st.hashes && HasRead(st, u, st.hashes[u], v)
    case RecoveryLocked => Holds(st.locks, i, u) && u in st.versions
    case Succeeded(v) => HasRead(st, u, tx.job.next, v + 1)
    case _ => true
  }

  ghost predicate Inv(st: Shared) {
    && st.hashes.Keys == st.versions.Keys
    && (forall u | u in st.versions :: HistoryOk(st, u))
    && (forall i | i in st.txs :: NextOk(st, i) && PcOk(st, i))
  }

  /** What a step of transaction `i` that writes nothing leaves to every other transaction. */
  ghost predicate Frame(a: Shared, b: Shared, i: TxId) {
    && b.txs.Keys == a.txs.Keys && i in a.txs && b.txs[i].job == a.txs[i].job
    && (Open(b.txs[i].pc) ==> Open(a.txs[i].pc))
    && (forall j | j in a.txs && j != i :: b.txs[j] == a.txs[j])
    && OthersKeep(a.locks, b.locks, i)
    && b.hashes == a.hashes && b.versions == a.versions && b.printed == a.printed
  }

  lemma FrameKeeps(a: Shared, b: Shared, i: TxId)
    requires Inv(a) && Frame(a, b, i) && PcOk(b, i)
    ensures Inv(b)
  {
    forall u | u in b.versions ensures HistoryOk(b, u) { assert HistoryOk(a, u); }
    forall j | j in b.txs ensures NextOk(b, j) && PcOk(b, j) {
      assert NextOk(a, j) && PcOk(a, j);
    }
  }

  lemma Moved(a: Shared, i: TxId, pc: Pc)
    requires Inv(a) && i in a.txs && Open(a.txs[i].pc) && PcOk(Move(a, i, pc), i)
    ensures Inv(Move(a, i, pc))
  {
    FrameKeeps(a, Move(a, i, pc), i);
  }

  lemma Left(a: Shared, i: TxId, pc: Pc)
    requires Inv(a) && i in a.txs && Open(a.txs[i].pc) && (pc.Refused? || pc.Aborted?)
    ensures Inv(Leave(a, i, pc))
  {
    FrameKeeps(a, Leave(a, i, pc), i);
  }

  lemma LockKeeps(a: Shared, i: TxId, u: Id)
    requires Inv(a) && i in a.txs && Free(a.locks, u, i)
    ensures Inv(a.(locks := a.locks[u := i]))
  {
    assert PcOk(a, i);
    FrameKeeps(a, a.(locks := a.locks[u := i]), i);
  }

  lemma StartKeeps(a: Shared, i: TxId, job: Job)
    requires Inv(a) && Enabled(a, Start(i, job))
    ensures Inv(Next(a, Start(i, job)))
  {
    var b := Next(a, Start(i, job));
    forall u | u in b.versions ensures HistoryOk(b, u) { assert HistoryOk(a, u); }
    forall j | j in b.txs ensures NextOk(b, j) && PcOk(b, j) {
      if j in a.txs {
        assert NextOk(a, j) && PcOk(a, j);
      } else {
        forall u, k | u in b.versions && 0 <= k < |b.versions[u]| ensures b.versions[u][k] != job.next {
          assert HistoryOk(a, u);
        }
        assert forall m | m in a.txs :: NextOk(a, m);
      }
    }
  }

  lemma RegisterKeeps(a: Shared, u: Id, hash: string)
    requires Inv(a) && Enabled(a, Register(u, hash))
    ensures Inv(Next(a, Register(u, hash)))
  {
    var b := Next(a, Register(u, hash));
    forall v | v in b.versions ensures HistoryOk(b, v) { assert v in a.versions ==> HistoryOk(a, v); }
    forall j | j in b.txs ensures NextOk(b, j) && PcOk(b, j) {
      assert NextOk(a, j) && PcOk(a, j);
    }
  }

  lemma UsableKeeps(a: Shared, usable: set<Id>)
    requires Inv(a)
    ensures Inv(a.(usable := usable))
  {
    var b := a.(usable := usable);
    forall u | u in b.versions ensures HistoryOk(b, u) { assert HistoryOk(a, u); }
    forall j | j in b.txs ensures NextOk(b, j) && PcOk(b, j) { assert NextOk(a, j) && PcOk(a, j); }
  }

  lemma ReadHashKeeps(a: Shared, i: TxId)
    requires Inv(a) && Enabled(a, ReadHash(i))
    ensures Inv(Next(a, ReadHash(i)))
  {
    var u := a.txs[i].job.userId;
    Left(a, i, Refused(AccountUnavailable));
    if u in a.usable && u in a.hashes {
      assert HistoryOk(a, u);
      Moved(a, i, Read(a.hashes[u], |a.versions[u]| - 1));
    }
  }

  lemma CheckAndMatchKeep(a: Shared, l: Label)
    requires Inv(a) && Enabled(a, l) && (l.Check? || l.Match?)
    ensures Inv(Next(a, l))
  {
    var i := l.tx;
    var pc := a.txs[i].pc;
    assert PcOk(a, i);
    Left(a, i, Refused(InvalidCredentials));
    if l.Check? {
      Moved(a, i, Checked(pc.expected, pc.version));
    } else {
      Moved(a, i, Waiting(pc.expected, pc.version));
    }
  }

  lemma LockingKeeps(a: Shared, l: Label)
    requires Inv(a) && Enabled(a, l) && (l.Lock? || l.LockForRecovery?)
    ensures Inv(Next(a, l))
  {
    var i := l.tx;
    var u := a.txs[i].job.userId;
    var locked := a.(locks := a.locks[u := i]);
    assert PcOk(a, i);
    LockKeeps(a, i, u);
    if l.LockForRecovery? {
      Moved(locked, i, RecoveryLocked);
    } else if a.hashes[u] == a.txs[i].pc.expected {
      Moved(locked, i, Locked(a.txs[i].pc.version));
    } else {
      Left(a, i, Refused(InvalidCredentials));
    }
  }

  lemma StepKeeps(a: Shared, l: Label)
    requires Inv(a) && Enabled(a, l) && !l.Commit?
    ensures Inv(Next(a, l))
  {
    match l
    case Start(i, job) => StartKeeps(a, i, job);
    case ReadHash(i) => ReadHashKeeps(a, i);
    case Check(_, _) => CheckAndMatchKeep(a, l);
    case Match(_) => CheckAndMatchKeep(a, l);
    case Lock(_) => LockingKeeps(a, l);
    case LockForRecovery(_) => LockingKeeps(a, l);
    case Abort(i) => Left(a, i, Aborted);
    case Register(u, hash) => RegisterKeeps(a, u, hash);
    case Usable(usable) => UsableKeeps(a, usable);
  }

  lemma CommitKeepsHistory(a: Shared, i: TxId)
    requires Inv(a) && Enabled(a, Commit(i))
    ensures var b := Next(a, Commit(i)); forall u | u in b.versions :: HistoryOk(b, u)
  {
  }

  /**
   No lost update: when a password change commits, the credential is still the
   very version the caller read; nobody wrote it in between.
   */
  lemma NoLostUpdate(a: Shared, i: TxId)
    requires Inv(a) && Enabled(a, Commit(i)) && a.txs[i].pc.Locked?
    ensures var u := a.txs[i].job.userId;
            && u in a.hashes && u in a.versions
            && a.txs[i].pc.version == |a.versions[u]| - 1
            && Next(a, Commit(i)).versions[u] == a.versions[u] + [a.txs[i].job.next]
  {
  }

  lemma CommitKeepsPc(a: Shared, i: TxId, j: TxId)
    requires Inv(a) && Enabled(a, Commit(i)) && j in a.txs
    ensures PcOk(Next(a, Commit(i)), j)
  {
    assert PcOk(a, i) && PcOk(a, j);
    if j == i && a.txs[i].pc.Locked? { NoLostUpdate(a, i); }
  }

  lemma CommitKeeps(a: Shared, i: TxId)
    requires Inv(a) && Enabled(a, Commit(i))
    ensures Inv(Next(a, Commit(i)))
  {
    var b := Next(a, Commit(i));
    CommitKeepsHistory(a, i);
    forall j | j in b.txs ensures NextOk(b, j) { assert NextOk(a, j); }
    forall j | j in b.txs ensures PcOk(b, j) { CommitKeepsPc(a, i, j); }
  }

  // ---- Runs ----

  ghost predicate Legal(st: Shared, labels: seq<Label>)
    decreases |labels|
  {
    labels == [] || (Enabled(st, labels[0]) && Legal(Next(st, labels[0]), labels[1..]))
  }

  ghost function After(st: Shared, labels: seq<Label>): Shared
    requires Legal(st, labels)
    decreases |labels|
  {
    if labels == [] then st else After(Next(st, labels[0]), labels[1..])
  }

  lemma {:induction false} AfterInv(st: Shared, labels: seq<Label>)
    requires Inv(st) && Legal(st, labels)
    ensures Inv(After(st, labels))
    decreases |labels|
  {
    if labels != [] {
      if labels[0].Commit? { CommitKeeps(st, labels[0].tx); } else { StepKeeps(st, labels[0]); }
      AfterInv(Next(st, labels[0]), labels[1..]);
    }
  }

  /** The credentials of a state of the serial history, with nothing under way. */
  function Quiet(w: H.World): Shared {
    Shared(
      set u | u in w.db.users && w.db.users[u].Usable(),
      map u | u in w.db.credentials :: w.db.credentials[u].passwordHash,
      map u | u in w.db.credentials :: [w.db.credentials[u].passwordHash],
      set u | u in w.db.credentials :: w.db.credentials[u].passwordHash,
      map[], map[])
  }

  /** Of all callers that read the same version of a credential, at most one changes the password. */
  lemma OneChangePerRead(w: H.World, labels: seq<Label>, i: TxId, j: TxId)
    requires Legal(Quiet(w), labels)
    requires var st := After(Quiet(w), labels);
             && i in st.txs && st.txs[i].pc.Succeeded?
             && j in st.txs && st.txs[j].pc.Succeeded?
             && st.txs[i].job.userId == st.txs[j].job.userId
             && st.txs[i].pc.version == st.txs[j].pc.version
    ensures i == j
  {
    AfterInv(Quiet(w), labels);
    var st := After(Quiet(w), labels);
    assert PcOk(st, i) && PcOk(st, j) && NextOk(st, i);
  }

  /** The same for callers that read the same hash: with salted hashes it is the same version. */
  lemma OneChangePerHash(w: H.World, labels: seq<Label>, i: TxId, j: TxId)
    requires Legal(Quiet(w), labels)
    requires var st := After(Quiet(w), labels);
             && i in st.txs && st.txs[i].pc.Succeeded?
             && j in st.txs && st.txs[j].pc.Succeeded?
             && st.txs[i].job.userId == st.txs[j].job.userId
             && var u, v, x := st.txs[i].job.userId, st.txs[i].pc.version, st.txs[j].pc.version;
             && u in st.versions && v < |st.versions[u]| && x < |st.versions[u]|
             && st.versions[u][v] == st.versions[u][x]
    ensures i == j
  {
    AfterInv(Quiet(w), labels);
    assert HistoryOk(After(Quiet(w), labels), After(Quiet(w), labels).txs[i].job.userId);
    OneChangePerRead(w, labels, i, j);
  }

  /** In every interleaving each successful change replaced exactly the version its caller had read. */
  lemma ChangesReplaceWhatTheyRead(w: H.World, labels: seq<Label>, i: TxId)
    requires Legal(Quiet(w), labels)
    requires i in After(Quiet(w), labels).txs && After(Quiet(w), labels).txs[i].pc.Succeeded?
    ensures var st := After(Quiet(w), labels);
            var u, v := st.txs[i].job.userId, st.txs[i].pc.version;
            u in st.versions && v + 1 < |st.versions[u]| && st.versions[u][v + 1] == st.txs[i].job.next
  {
    AfterInv(Quiet(w), labels);
    assert PcOk(After(Quiet(w), labels), i);
  }

  // ---- The serial answers ----

  /** The state shows who may use an account and every stored hash of the tables. */
  ghost predicate Shows(st: Shared, db: Db) {
    && (forall u :: u in st.usable <==> u in db.users && db.users[u].status == Active && db.users[u].deletedAt == None)
    && st.hashes.Keys == db.credentials.Keys
    && (forall u | u in st.hashes :: st.hashes[u] == db.credentials[u].passwordHash)
  }

  /** The update finds its row exactly when the change run alone at that instant succeeds, and refuses with its error. */
  lemma MatchIsSerial(a: Shared, i: TxId, db: Db, now: Instant)
    requires Enabled(a, Match(i)) && Shows(a, db)
    ensures var tx := a.txs[i];
            var alone := Transactions.ChangePassword(db, tx.job.userId, tx.pc.expected, tx.job.next, now);
            Next(a, Match(i)).txs[i].pc
            == if alone.result.Ok? then Waiting(tx.pc.expected, tx.pc.version) else Refused(alone.result.error)
  {
  }

  /** A refusal after the wait is the one of the change run alone at that instant. */
  lemma LockRefusalIsSerial(a: Shared, i: TxId, db: Db, now: Instant)
    requires Enabled(a, Lock(i)) && Shows(a, db) && Next(a, Lock(i)).txs[i].pc.Refused?
    ensures var tx := a.txs[i];
            var alone := Transactions.ChangePassword(db, tx.job.userId, tx.pc.expected, tx.job.next, now);
            alone == Transactions.Outcome(db, Err(InvalidCredentials))
            && Next(a, Lock(i)).txs[i].pc == Refused(InvalidCredentials)
  {
  }

  /**
   A commit does to the stored hashes what the change does when it runs alone at
   that instant, with the hash its caller read, exactly if the account is still
   usable; run alone, the change of an account that is not would be refused.
   */
  lemma CommitIsSerial(a: Shared, i: TxId, db: Db, now: Instant)
    requires Inv(a) && Enabled(a, Commit(i)) && a.txs[i].pc.Locked? && Shows(a, db)
    ensures var u := a.txs[i].job.userId;
            && u in a.versions && a.txs[i].pc.version < |a.versions[u]|
            && var read := a.versions[u][a.txs[i].pc.version];
            var alone := Transactions.ChangePassword(db, u, read, a.txs[i].job.next, now);
            && (alone.result.Ok? <==> u in a.usable)
            && (u in a.usable ==> Shows(Next(a, Commit(i)), alone.db))
            && (u !in a.usable ==> alone == Transactions.Outcome(db, Err(InvalidCredentials)))
  {
    assert PcOk(a, i);
  }

  lemma {:induction false} RunsOn(st: Shared, a: seq<Label>, b: seq<Label>)
    requires Legal(st, a) && Legal(After(st, a), b)
    ensures Legal(st, a + b) && After(st, a + b) == After(After(st, a), b)
    decreases |a|
  {
    if a == [] {
      assert a + b == b;
    } else {
      assert (a + b)[0] == a[0] && (a + b)[1..] == a[1..] + b;
      RunsOn(Next(st, a[0]), a[1..], b);
    }
  }

  lemma Single(st: Shared, l: Label)
    requires Enabled(st, l)
    ensures Legal(st, [l]) && After(st, [l]) == Next(st, l)
  {
    assert [l][1..] == [] && Legal(Next(st, l), []);
  }

  lemma TwoSteps(st: Shared, k: Label, l: Label)
    requires Enabled(st, k) && Enabled(Next(st, k), l)
    ensures Legal(st, [k, l]) && After(st, [k, l]) == Next(Next(st, k), l)
  {
    Single(st, k);
    Single(Next(st, k), l);
    RunsOn(st, [k], [l]);
    assert [k] + [l] == [k, l];
  }

  /** A change reads, checks and finds its row. */
  function Asking(u: Id, next: string): seq<Label> {
    [Start(0, Change(u, next)), ReadHash(0)] + [Check(0, true), Match(0)]
  }

  /** While it waits only the other accounts stay usable; then it gets the lock and commits. */
  function Overtaken(others: set<Id>): seq<Label> {
    [Usable(others), Lock(0)] + [Commit(0)]
  }

  lemma AskingWaits(st: Shared, u: Id, next: string)
    requires st.txs == map[] && st.locks == map[] && u in st.usable && next !in st.printed
    requires u in st.hashes && u in st.versions && |st.versions[u]| == 1
    ensures Legal(st, Asking(u, next))
    ensures After(st, Asking(u, next))
         == st.(txs := map[0 := Tx(Change(u, next), Waiting(st.hashes[u], 0))], printed := st.printed + {next})
  {
    var read := st.(txs := map[0 := Tx(Change(u, next), Read(st.hashes[u], 0))], printed := st.printed + {next});
    TwoSteps(st, Start(0, Change(u, next)), ReadHash(0));
    assert After(st, [Start(0, Change(u, next)), ReadHash(0)]) == read;
    TwoSteps(read, Check(0, true), Match(0));
    RunsOn(st, [Start(0, Change(u, next)), ReadHash(0)], [Check(0, true), Match(0)]);
  }

  lemma OvertakenCommits(st: Shared, u: Id, next: string, others: set<Id>)
    requires u in st.hashes && u in st.versions && st.locks == map[]
    requires st.txs == map[0 := Tx(Change(u, next), Waiting(st.hashes[u], 0))]
    ensures Legal(st, Overtaken(others))
    ensures var last := After(st, Overtaken(others));
            0 in last.txs && last.txs[0].pc == Succeeded(0) && last.usable == others
            && u in last.hashes && last.hashes[u] == next
  {
    TwoSteps(st, Usable(others), Lock(0));
    var locked := Next(Next(st, Usable(others)), Lock(0));
    Single(locked, Commit(0));
    RunsOn(st, [Usable(others), Lock(0)], [Commit(0)]);
  }

  /** The case is reachable: the change of any usable account succeeds although the account was blocked before it committed. */
  lemma OvertakenSucceeds(w: H.World, u: Id, next: string)
    requires u in w.db.users && w.db.users[u].Usable() && u in w.db.credentials && next !in Quiet(w).printed
    ensures var labels := Asking(u, next) + Overtaken(Quiet(w).usable - {u});
            && Legal(Quiet(w), labels)
            && var last := After(Quiet(w), labels);
            && 0 in last.txs && last.txs[0].pc == Succeeded(0) && u !in last.usable
            && u in last.hashes && last.hashes[u] == next
  {
    AskingWaits(Quiet(w), u, next);
    OvertakenCommits(After(Quiet(w), Asking(u, next)), u, next, Quiet(w).usable - {u});
    RunsOn(Quiet(w), Asking(u, next), Overtaken(Quiet(w).usable - {u}));
  }
}
