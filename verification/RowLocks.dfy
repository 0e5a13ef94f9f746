/** Row locks of interleaved transactions: which transaction holds which row. */
module RowLocks {
  import opened Tables

  type TxId = nat

  type Locks = map<Id, TxId>

  predicate Free(locks: Locks, row: Id, i: TxId) {
    row !in locks || locks[row] == i
  }

  predicate Holds(locks: Locks, i: TxId, row: Id) {
    row in locks && locks[row] == i
  }

  /** At the end of a transaction all its locks go. */
  function Released(locks: Locks, i: TxId): (r: Locks)
    ensures forall row :: row in r <==> row in locks && locks[row] != i
    ensures forall row | row in r :: r[row] == locks[row]
  {
    map row | row in locks && locks[row] != i :: locks[row]
  }

  /** A step of transaction `i` takes no lock from another. */
  ghost predicate OthersKeep(a: Locks, b: Locks, i: TxId) {
    forall row | row in a && a[row] != i :: row in b && b[row] == a[row]
  }
}
