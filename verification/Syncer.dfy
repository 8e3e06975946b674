/** The database syncer: rounds that append the next epochs of a full node, or drop the latest
    stored epoch when the node's chain does not continue it.
 */
module Syncer {
  import opened Basics
  import opened EpochStore
  import opened PivotWindow

  const TWO_TO_64: nat := 0x1_0000_0000_0000_0000

  /** Answer to a query for an epoch: its pivot, a detected pivot switch, or an error. */
  datatype Answer = Pivot(hash: Hash, parent: Hash) | PivotSwitched | QueryError

  /** Everything the environment decides in one round. */
  datatype Round = Round(confirmed: Option<nat>, query: nat -> Answer, commit: Commit)

  datatype Params = Params(fromEpoch: nat, maxSyncEpochs: nat)

  // ---------- what a round does to the stored rows ----------

  /** The epoch to sync from: the one after the stored maximum, or the configured one. */
  function NextEpoch(p: Params, rows: seq<Row>): nat {
    if rows == [] then p.fromEpoch else rows[|rows| - 1].epoch + 1
  }

  /** Number of epochs to query, with the wrap-around of 64-bit integers. */
  function SyncSize(from: nat, maxSync: nat, confirmed: nat): nat {
    var last := (from + maxSync + TWO_TO_64 - 1) % TWO_TO_64;
    var to := if last < confirmed then last else confirmed;
    if to < from then 0 else to - from + 1
  }

  /** The hash the first queried epoch must continue; empty if there is none. */
  function LatestHash(rows: seq<Row>): Hash {
    if rows == [] then "" else rows[|rows| - 1].hash
  }

  /** Outcome of querying the epochs `from`, `from + 1`, ...: a batch to push, a mismatch with
      the stored tail, or an error. */
  datatype Fetched = Batch(slice: seq<Row>) | Mismatch | Failed

  /** The query loop from index `i` on, with `slice` collected so far. */
  function Fetch(query: nat -> Answer, from: nat, size: nat, latest: Hash, i: nat, slice: seq<Row>): Fetched
    requires i == |slice| && i <= size
    decreases size - i
  {
    if i == size then Batch(slice)
    else
      match query(from + i)
      case PivotSwitched => Batch(slice)
      case QueryError => Failed
      case Pivot(hash, parent) =>
        if i == 0 then
          if latest != "" && parent != latest then Mismatch
          else Fetch(query, from, size, latest, 1, [Row(from, hash, parent)])
        else if slice[i - 1].hash != parent then Batch(slice[..i - 1])
        else Fetch(query, from, size, latest, i + 1, slice + [Row(from + i, hash, parent)])
  }

  /** The stored rows after a round. */
  function SyncStep(p: Params, rows: seq<Row>, r: Round): seq<Row> {
    var from := NextEpoch(p, rows);
    if r.confirmed == None || from > r.confirmed.value || r.commit != Committed then rows
    else
      match Fetch(r.query, from, SyncSize(from, p.maxSyncEpochs, r.confirmed.value), LatestHash(rows), 0, [])
      case Failed => rows
      case Mismatch => if rows == [] || rows[|rows| - 1].epoch == 0 then rows else rows[..|rows| - 1]
      case Batch(slice) => rows + slice
  }

  // ---------- safety ----------

  ghost predicate StrictlyLinked(rows: seq<Row>) {
    forall i :: 0 < i < |rows| ==> rows[i].parent == rows[i - 1].hash
  }

  ghost predicate GoodSlice(slice: seq<Row>, from: nat, latest: Hash) {
    && (forall i :: 0 <= i < |slice| ==> slice[i].epoch == from + i)
    && StrictlyLinked(slice)
    && (slice != [] && latest != "" ==> slice[0].parent == latest)
  }

  lemma {:induction false} FetchIsGood(query: nat -> Answer, from: nat, size: nat, latest: Hash, i: nat, slice: seq<Row>)
    requires i == |slice| && i <= size && GoodSlice(slice, from, latest)
    ensures var f := Fetch(query, from, size, latest, i, slice);
            f.Batch? ==> GoodSlice(f.slice, from, latest) && |f.slice| <= size
    decreases size - i
  {
    if i < size && query(from + i).Pivot? {
      var hash, parent := query(from + i).hash, query(from + i).parent;
      if i == 0 {
        if latest == "" || parent == latest {
          FetchIsGood(query, from, size, latest, 1, [Row(from, hash, parent)]);
        }
      } else if slice[i - 1].hash == parent {
        FetchIsGood(query, from, size, latest, i + 1, slice + [Row(from + i, hash, parent)]);
      }
    }
  }

  // ---------- what a fetch yields, and why ----------

  /** The `i`-th answer is a pivot that continues the one before, the first one `latest`. */
  ghost predicate Continuing(query: nat -> Answer, from: nat, latest: Hash, i: nat) {
    query(from + i).Pivot? &&
    if i == 0 then latest == "" || query(from).parent == latest
    else query(from + i - 1).Pivot? && query(from + i).parent == query(from + i - 1).hash
  }

  ghost predicate Chained(query: nat -> Answer, from: nat, latest: Hash, n: nat) {
    forall i :: 0 <= i < n ==> Continuing(query, from, latest, i)
  }

  ghost predicate Copies(query: nat -> Answer, from: nat, slice: seq<Row>) {
    forall i :: 0 <= i < |slice| ==> query(from + i) == Pivot(slice[i].hash, slice[i].parent) && slice[i].epoch == from + i
  }

  /** The answer for epoch `from + n` continues the chain, but the one after it does not. */
  ghost predicate Contradicted(query: nat -> Answer, from: nat, size: nat, latest: Hash, n: nat) {
    && n + 1 < size && Chained(query, from, latest, n + 1)
    && query(from + n + 1).Pivot? && !Continuing(query, from, latest, n + 1)
  }

  /** The reason for an outcome. A batch ends because it is complete, because the node reports a
      pivot switch, or because the answer behind it is contradicted by the next one. */
  ghost predicate Explained(query: nat -> Answer, from: nat, size: nat, latest: Hash, f: Fetched) {
    match f
    case Failed => exists n: nat :: n < size && FailsAt(query, from, latest, n)
    case Mismatch => size > 0 && query(from).Pivot? && latest != "" && query(from).parent != latest
    case Batch(slice) =>
      var n := |slice|;
      && n <= size && Chained(query, from, latest, n) && Copies(query, from, slice)
      && (n < size ==> query(from + n).PivotSwitched? || Contradicted(query, from, size, latest, n))
  }

  ghost predicate FailsAt(query: nat -> Answer, from: nat, latest: Hash, n: nat) {
    Chained(query, from, latest, n) && query(from + n).QueryError?
  }

  /** Whatever the node answers, the outcome of a fetch has its reason. */
  lemma {:induction false} FetchExplained(query: nat -> Answer, from: nat, size: nat, latest: Hash, i: nat, slice: seq<Row>)
    requires i == |slice| && i <= size && Chained(query, from, latest, i) && Copies(query, from, slice)
    ensures Explained(query, from, size, latest, Fetch(query, from, size, latest, i, slice))
    decreases size - i
  {
    if i < size {
      match query(from + i)
      case PivotSwitched =>
      case QueryError =>
        assert FailsAt(query, from, latest, i);
      case Pivot(hash, parent) =>
        if i == 0 {
          if latest == "" || parent == latest {
            assert [] + [Row(from, hash, parent)] == [Row(from, hash, parent)];
            OneMorePivot(query, from, latest, 0, slice);
            FetchExplained(query, from, size, latest, 1, [Row(from, hash, parent)]);
          }
        } else if slice[i - 1].hash == parent {
          OneMorePivot(query, from, latest, i, slice);
          FetchExplained(query, from, size, latest, i + 1, slice + [Row(from + i, hash, parent)]);
        } else {
          CutShort(query, from, size, latest, i, slice);
        }
    }
  }

  lemma OneMorePivot(query: nat -> Answer, from: nat, latest: Hash, i: nat, slice: seq<Row>)
    requires i == |slice| && Chained(query, from, latest, i) && Copies(query, from, slice) && query(from + i).Pivot?
    requires if i == 0 then latest == "" || query(from).parent == latest else slice[i - 1].hash == query(from + i).parent
    ensures Chained(query, from, latest, i + 1)
    ensures Copies(query, from, slice + [Row(from + i, query(from + i).hash, query(from + i).parent)])
  {
    assert i > 0 ==> query(from + (i - 1)) == Pivot(slice[i - 1].hash, slice[i - 1].parent);
    assert Continuing(query, from, latest, i);
  }

  lemma CutShort(query: nat -> Answer, from: nat, size: nat, latest: Hash, i: nat, slice: seq<Row>)
    requires 0 < i == |slice| < size && Chained(query, from, latest, i) && Copies(query, from, slice)
    requires query(from + i).Pivot? && slice[i - 1].hash != query(from + i).parent
    ensures Explained(query, from, size, latest, Batch(slice[..i - 1]))
  {
    assert query(from + (i - 1)) == Pivot(slice[i - 1].hash, slice[i - 1].parent);
    assert Contradicted(query, from, size, latest, i - 1);
  }

  /** No epoch of a batch is contradicted by the next answer asked for. */
  lemma BatchUncontradicted(query: nat -> Answer, from: nat, size: nat, latest: Hash)
    ensures var f := Fetch(query, from, size, latest, 0, []);
            f.Batch? ==> forall i :: 0 <= i < |f.slice| && i + 1 < size && query(from + i + 1).Pivot? ==>
                           query(from + i + 1).parent == f.slice[i].hash
  {
    FetchExplained(query, from, size, latest, 0, []);
    var f := Fetch(query, from, size, latest, 0, []);
    if f.Batch? {
      forall i | 0 <= i < |f.slice| && i + 1 < size && query(from + i + 1).Pivot?
        ensures query(from + i + 1).parent == f.slice[i].hash
      {
        NextContinues(query, from, size, latest, f.slice, i + 1);
      }
    }
  }

  lemma NextContinues(query: nat -> Answer, from: nat, size: nat, latest: Hash, slice: seq<Row>, i: nat)
    requires Explained(query, from, size, latest, Batch(slice)) && 0 < i <= |slice| && i < size && query(from + i).Pivot?
    ensures query(from + i).parent == slice[i - 1].hash
  {
    assert Chained(query, from, latest, i + 1);
    assert Continuing(query, from, latest, i);
  }

  /** The sync range is as long as the batch size allows and the confirmed epoch permits; when its
      end overflows 64 bits it wraps around and the range is empty. */
  lemma SyncSizeIs(from: nat, maxSync: nat, confirmed: nat)
    requires from <= confirmed < TWO_TO_64 && 1 <= maxSync < TWO_TO_64
    ensures from + maxSync <= TWO_TO_64 && maxSync <= confirmed - from ==> SyncSize(from, maxSync, confirmed) == maxSync
    ensures from + maxSync <= TWO_TO_64 && maxSync > confirmed - from ==> SyncSize(from, maxSync, confirmed) == confirmed - from + 1
    ensures from + maxSync > TWO_TO_64 ==> SyncSize(from, maxSync, confirmed) == 0
  {
  }

  /** Whatever the node answers and whichever transactions are rolled back, a round keeps the
      stored epochs contiguous and hash-linked. */
  lemma StepKeepsLinked(p: Params, rows: seq<Row>, r: Round)
    requires Contiguous(rows) && Linked(rows)
    ensures Contiguous(SyncStep(p, rows, r)) && Linked(SyncStep(p, rows, r))
  {
    if r.confirmed.Some? {
      var from := NextEpoch(p, rows);
      var size := SyncSize(from, p.maxSyncEpochs, r.confirmed.value);
      FetchIsGood(r.query, from, size, LatestHash(rows), 0, []);
    }
  }

  function Run(p: Params, rows: seq<Row>, rounds: seq<Round>): seq<Row>
    decreases |rounds|
  {
    if rounds == [] then rows else Run(p, SyncStep(p, rows, rounds[0]), rounds[1..])
  }

  /** In every reachable state of the syncer the store is contiguous and hash-linked. */
  lemma {:induction false} RunKeepsLinked(p: Params, rows: seq<Row>, rounds: seq<Round>)
    requires Contiguous(rows) && Linked(rows)
    ensures Contiguous(Run(p, rows, rounds)) && Linked(Run(p, rows, rounds))
    decreases |rounds|
  {
    if rounds != [] {
      StepKeepsLinked(p, rows, rounds[0]);
      RunKeepsLinked(p, SyncStep(p, rows, rounds[0]), rounds[1..]);
    }
  }

  // ---------- the syncer and its window ----------

  /** The window is empty or caches exactly a suffix of the stored pivots. */
  ghost predicate Suffix(hashes: map<nat, Hash>, from: nat, to: nat, rows: seq<Row>) {
    hashes == map[] || (
      && rows != [] && to == rows[|rows| - 1].epoch && rows[0].epoch <= from
      && forall e :: e in hashes ==> PivotHash(rows, e) == Some(hashes[e]))
  }

  ghost predicate AllBelowNil(rows: seq<Row>) {
    forall i :: 0 <= i < |rows| ==> rows[i].epoch < EPOCH_NIL
  }

  lemma DropLast(rows: seq<Row>)
    requires Contiguous(rows) && Linked(rows) && AllBelowNil(rows) && rows != []
    ensures var r := rows[..|rows| - 1]; Contiguous(r) && Linked(r) && AllBelowNil(r)
  {
  }

  lemma SuffixAfterPop(w: map<nat, Hash>, w': map<nat, Hash>, from: nat, to: nat, to': nat, rows: seq<Row>)
    requires Contiguous(rows) && |rows| >= 1 && Suffix(w, from, to, rows) && rows[|rows| - 1].epoch > 0
    requires forall e :: e in w' ==> e in w && w'[e] == w[e] && e < rows[|rows| - 1].epoch
    requires w' != map[] ==> w != map[] && from <= to' == rows[|rows| - 1].epoch - 1
    ensures Suffix(w', from, to', rows[..|rows| - 1])
  {
  }

  lemma SuffixAfterPush(w: map<nat, Hash>, w': map<nat, Hash>, from: nat, from': nat, to: nat, rows: seq<Row>, x: Row)
    requires Contiguous(rows + [x]) && Suffix(w, from, to, rows) && x.epoch in w'
    requires w != map[] ==> from <= from'
    requires w == map[] ==> from' == x.epoch
    requires forall e :: e in w' ==> if e == x.epoch then w'[e] == x.hash else e in w && w'[e] == w[e]
    ensures Suffix(w', from', x.epoch, rows + [x])
  {
    var all := rows + [x];
    assert all[|rows|] == x && (rows != [] ==> all[0] == rows[0]);
    forall e | e in w' ensures PivotHash(all, e) == Some(w'[e]) {
      if e != x.epoch {
        assert PivotHash(rows, e) == Some(w[e]);
      }
    }
  }

  /** The query loop of a round. */
  method FetchEpochs(query: nat -> Answer, from: nat, size: nat, latest: Hash) returns (f: Fetched)
    ensures f == Fetch(query, from, size, latest, 0, []) && Explained(query, from, size, latest, f)
  {
    FetchExplained(query, from, size, latest, 0, []);
    var slice: seq<Row>, i := [], 0;
    while i < size
      invariant 0 <= i <= size && i == |slice|
      invariant Fetch(query, from, size, latest, i, slice) == Fetch(query, from, size, latest, 0, [])
    {
      match query(from + i) {
        case PivotSwitched => return Batch(slice);
        case QueryError => return Failed;
        case Pivot(hash, parent) =>
          if i == 0 {
            if latest != "" && parent != latest {
              return Mismatch;
            }
            assert slice + [Row(from + i, hash, parent)] == [Row(from, hash, parent)];
          } else if slice[i - 1].hash != parent {
            return Batch(slice[..i - 1]);
          }
          slice := slice + [Row(from + i, hash, parent)];
      }
      i := i + 1;
    }
    f := Batch(slice);
  }

  class DatabaseSyncer {
    const p: Params
    const store: Store
    const win: Window
    var epochFrom: nat

    ghost predicate Valid()
      reads this, store, win
    {
      && store.Valid() && win.Valid() && Linked(store.rows)
      && Suffix(win.hashes, win.from, win.to, store.rows)
      && AllBelowNil(store.rows)
    }

    constructor (params: Params, capacity: nat)
      requires capacity < TWO_TO_32
      ensures Valid() && p == params && store.rows == [] && fresh(store) && fresh(win)
    {
      p, epochFrom := params, 0;
      store := new Store();
      win := new Window(capacity);
    }

    /** Leadership was gained or lost. */
    method OnLeadershipChanged()
      requires Valid()
      modifies win
      ensures Valid() && win.hashes == map[]
    {
      win.Reset();
    }

    /** The stored pivot hash before `epochFrom`, from the window if it is cached there. */
    method GetStoreLatestPivotHash() returns (h: Hash)
      requires Valid() && epochFrom == NextEpoch(p, store.rows)
      ensures h == LatestHash(store.rows)
    {
      if epochFrom == 0 {
        return "";
      }
      var latest := epochFrom - 1;
      if latest in win.hashes {
        return win.hashes[latest];
      }
      var stored := PivotHash(store.rows, latest);
      h := if stored.Some? then stored.value else "";
    }

    /** Drops the latest stored epoch, unless that is the genesis epoch. */
    method PivotSwitchRevert(commit: Commit)
      requires Valid() && store.rows != [] && epochFrom == NextEpoch(p, store.rows)
      modifies this, store, win
      ensures Valid()
      ensures store.rows == if commit == Committed && old(epochFrom) > 1 then old(store.rows)[..|old(store.rows)| - 1]
                            else old(store.rows)
    {
      var revertTo := epochFrom - 1;
      if revertTo == 0 {
        return;
      }
      ghost var rows, w := store.rows, win.hashes;
      BeforeContiguous(rows, revertTo);
      DropLast(rows);
      var r := store.PopnWithFinalizer(revertTo, commit);
      if r == Written {
        win.Popn(revertTo);
        epochFrom := revertTo;
        SuffixAfterPop(w, win.hashes, win.from, old(win.to), win.to, rows);
      }
    }

    /** Caches the pivots of a pushed slice; the window is emptied if it cannot be continued. */
    method CachePivots(slice: seq<Row>, ghost rows: seq<Row>)
      requires win.Valid() && Suffix(win.hashes, win.from, win.to, rows) && Contiguous(rows + slice)
      requires AllBelowNil(slice)
      modifies win
      ensures win.Valid() && Suffix(win.hashes, win.from, win.to, rows + slice)
    {
      assert rows + slice[..0] == rows;
      for i := 0 to |slice|
        invariant win.Valid() && Suffix(win.hashes, win.from, win.to, rows + slice[..i])
      {
        ghost var w, from, to, before := win.hashes, win.from, win.to, rows + slice[..i];
        PrefixContiguous(rows, slice, i);
        var ok := win.Push(slice[i].epoch, slice[i].hash, slice[i].parent);
        if !ok {
          win.Reset();
          return;
        }
        SuffixAfterPush(w, win.hashes, from, win.from, to, before, slice[i]);
      }
      assert slice[..|slice|] == slice;
    }

    /** One round of synchronisation. Returns true if the store has caught up. */
    method SyncOnce(r: Round) returns (complete: bool)
      requires Valid() && (r.confirmed.Some? ==> r.confirmed.value < EPOCH_NIL)
      modifies this, store, win
      ensures Valid() && store.rows == SyncStep(p, old(store.rows), r)
      ensures complete <==> r.confirmed.Some? && NextEpoch(p, old(store.rows)) > r.confirmed.value
    {
      if r.confirmed == None {
        return false;
      }
      epochFrom := NextEpoch(p, store.rows);
      if epochFrom > r.confirmed.value {
        return true;
      }
      var size := SyncSize(epochFrom, p.maxSyncEpochs, r.confirmed.value);
      var latest := GetStoreLatestPivotHash();
      var f := FetchEpochs(r.query, epochFrom, size, latest);
      match f {
        case Failed =>
        case Mismatch =>
          MismatchMeansStored(r.query, epochFrom, size, latest);
          PivotSwitchRevert(r.commit);
        case Batch(slice) =>
          FetchIsGood(r.query, epochFrom, size, latest, 0, []);
          StepKeepsLinked(p, store.rows, r);
          PushSlice(slice, r.commit, r.confirmed.value);
      }
      complete := false;
    }

    method PushSlice(slice: seq<Row>, commit: Commit, confirmed: nat)
      requires Valid() && epochFrom == NextEpoch(p, store.rows) && confirmed < EPOCH_NIL
      requires GoodSlice(slice, epochFrom, LatestHash(store.rows)) && epochFrom + |slice| <= confirmed + 1
      modifies this, store, win
      ensures Valid() && store.rows == if commit == Committed then old(store.rows) + slice else old(store.rows)
    {
      assert store.rows + [] == store.rows;
      if slice == [] {
        return;
      }
      ghost var rows := store.rows;
      AppendLinked(rows, slice, epochFrom);
      AppendBelowNil(rows, slice, epochFrom);
      var w := store.PushnWithFinalizer(slice, commit);
      if w == Written {
        epochFrom := epochFrom + |slice|;
        CachePivots(slice, rows);
      }
    }
  }

  lemma MismatchMeansStored(query: nat -> Answer, from: nat, size: nat, latest: Hash)
    requires Fetch(query, from, size, latest, 0, []) == Mismatch
    ensures latest != ""
  {
    if size > 0 && query(from).Pivot? && latest == "" {
      NoLaterMismatch(query, from, size, latest, 1, [Row(from, query(from).hash, query(from).parent)]);
    }
  }

  lemma {:induction false} NoLaterMismatch(query: nat -> Answer, from: nat, size: nat, latest: Hash, i: nat, slice: seq<Row>)
    requires 0 < i == |slice| && i <= size
    ensures Fetch(query, from, size, latest, i, slice) != Mismatch
    decreases size - i
  {
    if i < size && query(from + i).Pivot? && slice[i - 1].hash == query(from + i).parent {
      NoLaterMismatch(query, from, size, latest, i + 1,
                      slice + [Row(from + i, query(from + i).hash, query(from + i).parent)]);
    }
  }

  lemma AppendLinked(rows: seq<Row>, slice: seq<Row>, from: nat)
    requires Contiguous(rows) && Linked(rows) && GoodSlice(slice, from, LatestHash(rows))
    requires rows != [] ==> from == rows[|rows| - 1].epoch + 1
    ensures Continues(slice, MaxEpoch(rows)) && Contiguous(rows + slice) && Linked(rows + slice)
  {
  }

  lemma AppendBelowNil(rows: seq<Row>, slice: seq<Row>, from: nat)
    requires AllBelowNil(rows) && (forall i :: 0 <= i < |slice| ==> slice[i].epoch == from + i)
    requires from + |slice| <= EPOCH_NIL
    ensures AllBelowNil(slice) && AllBelowNil(rows + slice)
  {
  }

  lemma PrefixContiguous(rows: seq<Row>, slice: seq<Row>, i: nat)
    requires Contiguous(rows + slice) && i < |slice|
    ensures rows + slice[..i] + [slice[i]] == rows + slice[..i + 1]
    ensures Contiguous(rows + slice[..i] + [slice[i]])
  {
    var all, part := rows + slice, rows + slice[..i] + [slice[i]];
    assert part == all[..|rows| + i + 1];
  }
}
