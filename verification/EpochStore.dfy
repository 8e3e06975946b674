/** The epoch table of the database: one row per epoch with its pivot hash. Pushes and pops are
    transactions with a finalizer that may roll them back.
 */
module EpochStore {
  import opened Basics

  /** An epoch row. The parent hash of the pivot block is not stored; it is kept here to say what
      the stored pivots were checked against. */
  datatype Row = Row(epoch: nat, hash: Hash, parent: Hash)

  /** Whether a transaction is committed, or rolled back by its finalizer or by an error. */
  datatype Commit = Committed | RenewalFailed | WriteFailed

  datatype WriteResult = Written | NotContinuous | RolledBack(reason: Commit)

  ghost predicate Contiguous(rows: seq<Row>) {
    forall i :: 0 <= i < |rows| ==> rows[i].epoch == rows[0].epoch + i
  }

  /** Each row's pivot names the pivot before it as its parent. A pivot with an empty hash is the
      one exception, since an empty hash is never compared. */
  ghost predicate Linked(rows: seq<Row>) {
    forall i :: 0 < i < |rows| && rows[i - 1].hash != "" ==> rows[i].parent == rows[i - 1].hash
  }

  function MaxEpoch(rows: seq<Row>): Option<nat> {
    if rows == [] then None else Some(rows[|rows| - 1].epoch)
  }

  function PivotHash(rows: seq<Row>, epoch: nat): Option<Hash> {
    if rows != [] && rows[0].epoch <= epoch < rows[0].epoch + |rows|
    then Some(rows[epoch - rows[0].epoch].hash)
    else None
  }

  /** On contiguous rows this is the hash of the row of that epoch. */
  lemma PivotHashFinds(rows: seq<Row>, epoch: nat)
    requires Contiguous(rows)
    ensures PivotHash(rows, epoch).Some? <==> exists i :: 0 <= i < |rows| && rows[i].epoch == epoch
    ensures forall i :: 0 <= i < |rows| && rows[i].epoch == epoch ==> PivotHash(rows, epoch) == Some(rows[i].hash)
  {
    if PivotHash(rows, epoch).Some? {
      assert rows[epoch - rows[0].epoch].epoch == epoch;
    }
  }

  /** The rows of epochs before `until`. */
  function Before(rows: seq<Row>, until: nat): seq<Row> {
    if rows == [] then []
    else if rows[|rows| - 1].epoch < until then Before(rows[..|rows| - 1], until) + [rows[|rows| - 1]]
    else Before(rows[..|rows| - 1], until)
  }

  lemma FullPrefix(rows: seq<Row>, k: nat)
    requires k + 1 == |rows|
    ensures rows[..k][..k] == rows[..k] && rows[..k + 1] == rows[..k] + [rows[k]]
  {
  }

  lemma {:induction false} BeforePrefix(rows: seq<Row>, until: nat, n: nat)
    requires n <= |rows| && (forall i :: 0 <= i < n ==> rows[i].epoch < until)
    requires forall i :: n <= i < |rows| ==> rows[i].epoch >= until
    ensures Before(rows, until) == rows[..n]
  {
    if rows != [] {
      var k := |rows| - 1;
      var init := rows[..k];
      if n == |rows| {
        BeforePrefix(init, until, k);
        FullPrefix(rows, k);
      } else {
        BeforePrefix(init, until, n);
        assert init[..n] == rows[..n];
      }
    }
  }

  /** On contiguous rows a pop drops exactly the last ones. */
  lemma BeforeContiguous(rows: seq<Row>, until: nat)
    requires Contiguous(rows) && rows != [] && until <= rows[|rows| - 1].epoch
    ensures Before(rows, until) == rows[..if until <= rows[0].epoch then 0 else until - rows[0].epoch]
  {
    BeforePrefix(rows, until, if until <= rows[0].epoch then 0 else until - rows[0].epoch);
  }

  /** Whether a slice continues after epoch `current`, or is contiguous if there is none. */
  method RequireContinuous(slice: seq<Row>, current: Option<nat>) returns (ok: bool)
    ensures ok <==> Continues(slice, current)
  {
    if slice == [] {
      return true;
    }
    var next := if current == None then slice[0].epoch else current.value + 1;
    for i := 0 to |slice|
      invariant next == (if current == None then slice[0].epoch else current.value + 1) + i
      invariant forall k :: 0 <= k < i ==> slice[k].epoch == next - i + k
    {
      if slice[i].epoch != next {
        return false;
      }
      next := next + 1;
    }
    ok := true;
  }

  ghost predicate Continues(slice: seq<Row>, current: Option<nat>) {
    && Contiguous(slice)
    && (slice != [] && current.Some? ==> slice[0].epoch == current.value + 1)
  }

  lemma ContinuesAppends(rows: seq<Row>, slice: seq<Row>)
    requires Contiguous(rows) && Continues(slice, MaxEpoch(rows))
    ensures Contiguous(rows + slice)
  {
  }

  class Store {
    var rows: seq<Row>

    ghost predicate Valid()
      reads this
    {
      Contiguous(rows)
    }

    constructor ()
      ensures Valid() && rows == []
    {
      rows := [];
    }

    /** Appends a slice, in a transaction that the finalizer may roll back. */
    method PushnWithFinalizer(slice: seq<Row>, commit: Commit) returns (r: WriteResult)
      requires Valid()
      modifies this
      ensures Valid()
      ensures r == Written <==> slice == [] || (Continues(slice, MaxEpoch(old(rows))) && commit == Committed)
      ensures r == NotContinuous <==> slice != [] && !Continues(slice, MaxEpoch(old(rows)))
      ensures rows == if r == Written then old(rows) + slice else old(rows)
    {
      if slice == [] {
        assert rows + slice == rows;
        return Written;
      }
      var ok := RequireContinuous(slice, MaxEpoch(rows));
      if !ok {
        return NotContinuous;
      }
      if commit != Committed {
        return RolledBack(commit);
      }
      ContinuesAppends(rows, slice);
      rows := rows + slice;
      r := Written;
    }

    /** Removes the epochs from `until` on, in a transaction that the finalizer may roll back. */
    method PopnWithFinalizer(until: nat, commit: Commit) returns (r: WriteResult)
      requires Valid()
      modifies this
      ensures Valid()
      ensures r == Written <==>
                commit == Committed || old(rows) == [] || until > old(rows)[|old(rows)| - 1].epoch
      ensures rows == if r == Written then Before(old(rows), until) else old(rows)
    {
      if rows == [] || until > rows[|rows| - 1].epoch {
        BeforePrefix(rows, until, |rows|);
        assert rows[..|rows|] == rows;
        return Written;
      }
      if commit != Committed {
        return RolledBack(commit);
      }
      BeforeContiguous(rows, until);
      rows := Before(rows, until);
      r := Written;
    }
  }
}
