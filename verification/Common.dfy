/** What several components share. */
module Common {
  datatype Option<+T> = None | Some(value: T)

  // Where a record of the live store is. Batch IDs start at the least 32-bit integer.
  datatype RecordID = RecordID(batchID: int, index: nat)

  // Batch IDs of live and temporary stores start far below those of archive batches.
  const BASE_BATCH_ID: int := -0x8000_0000

  // The record after r in batches of the given size.
  function Advance(r: RecordID, batchSize: nat): RecordID {
    if r.index + 1 == batchSize then RecordID(r.batchID + 1, 0) else r.(index := r.index + 1)
  }

  predicate Precedes(a: RecordID, b: RecordID) {
    a.batchID < b.batchID || (a.batchID == b.batchID && a.index < b.index)
  }

  // The n-th record of a store.
  function NthRecord(n: nat, batchSize: nat): RecordID {
    if n == 0 then RecordID(BASE_BATCH_ID, 0) else Advance(NthRecord(n - 1, batchSize), batchSize)
  }

  // A set that is not empty has an element to choose.
  lemma {:induction false} SomeElement<T>(s: set<T>) returns (x: T)
    requires s != {}
    ensures x in s
  {
    EmptyOrNot(s);
    x :| x in s;
  }

  lemma {:induction false} EmptyOrNot<T>(s: set<T>)
    ensures s == {} || exists x :: x in s
  {
    if forall x :: x !in s {
      assert s == {};
    }
  }
}
