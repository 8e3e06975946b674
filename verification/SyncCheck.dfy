/** Startup repair: finds the first stored epoch that the full node no longer has on its pivot
    chain and prunes the store from there on.
 */
module SyncCheck {
  import opened Basics
  import opened EpochStore
  import opened Syncer
  import opened SyncConvergence

  /** Pivot hashes of a full node, None where the query fails. */
  type Node = nat -> Option<Hash>

  /** A node that answers with the pivots of the chain, where it answers at all. */
  ghost predicate Truthful(node: Node, c: Chain) {
    forall e {:trigger node(e)} :: node(e) == None || node(e) == Some(c.hashOf(e))
  }

  /** An epoch is reverted if it is stored with another pivot than the chain's. */
  predicate Reverted(rows: seq<Row>, c: Chain, e: nat) {
    PivotHash(rows, e).Some? && PivotHash(rows, e) != Some(c.hashOf(e))
  }

  /** The node fails to tell about a stored epoch. */
  predicate Unanswered(rows: seq<Row>, node: Node, e: nat) {
    PivotHash(rows, e).Some? && node(e) == None
  }

  /** Once an epoch is reverted, so are all later ones. */
  ghost predicate Monotone(rows: seq<Row>, c: Chain, to: nat) {
    forall e: nat, f: nat :: e <= f <= to && Reverted(rows, c, e) ==> Reverted(rows, c, f)
  }

  /** `m` is the least reverted epoch from `from` to `to`, or 0 if there is none. */
  ghost predicate IsFirst(rows: seq<Row>, c: Chain, from: nat, to: nat, m: nat) {
    if m == 0 then forall e :: from <= e <= to ==> !Reverted(rows, c, e)
    else from <= m <= to && Reverted(rows, c, m) && forall e :: from <= e < m ==> !Reverted(rows, c, e)
  }

  method CheckIfEpochIsReverted(rows: seq<Row>, node: Node, ghost c: Chain, e: nat) returns (r: Option<bool>)
    requires Truthful(node, c)
    ensures r.Some? ==> r.value == Reverted(rows, c, e)
    ensures r == None <==> Unanswered(rows, node, e)
  {
    var stored := PivotHash(rows, e);
    if stored == None {
      return Some(false);
    }
    if node(e) == None {
      return None;
    }
    r := Some(stored != node(e));
  }

  /** Binary probing. All arithmetic stays within the range, so nothing underflows. Fails only at a
      stored epoch for which the node does not answer. */
  method FindFirstRevertedEpochInRange(rows: seq<Row>, node: Node, ghost c: Chain, from: nat, to: nat) returns (r: Option<nat>)
    requires 1 <= from <= to && Truthful(node, c) && Monotone(rows, c, to)
    ensures r.Some? ==> IsFirst(rows, c, from, to, r.value)
    ensures r == None ==> exists e :: from <= e <= to && Unanswered(rows, node, e)
  {
    var start, mid, end: int, matched: nat := from, to, to, 0;
    while start <= end && from <= mid <= to
      invariant from <= start <= end + 1 <= to + 1 && (start <= end ==> start <= mid <= end)
      invariant forall e :: from <= e < start ==> !Reverted(rows, c, e)
      invariant if matched == 0 then end == to else matched == end + 1 <= to && Reverted(rows, c, matched)
      decreases end + 1 - start
    {
      var reverted := CheckIfEpochIsReverted(rows, node, c, mid);
      if reverted == None {
        return None;
      }
      if reverted.value {
        matched, end := mid, mid - 1;
      } else {
        start := mid + 1;
      }
      if start <= end {
        mid := start + (end - start) / 2;
      }
    }
    r := Some(matched);
  }

  const WINDOW: nat := 200

  /** Searches the last epoch first and then windows of 200 epochs further and further back. */
  method FindFirstReverted(rows: seq<Row>, node: Node, ghost c: Chain, from: nat, to: nat) returns (r: Option<nat>)
    requires 1 <= from && (from <= to || to == 0) && Truthful(node, c) && Monotone(rows, c, to)
    ensures r.Some? ==> IsFirst(rows, c, from, to, r.value)
    ensures r == None ==> exists e :: from <= e <= to && Unanswered(rows, node, e)
  {
    var winStart, winEnd, matched: nat := to, to, 0;
    while winStart <= winEnd && winEnd > 0
      invariant winEnd <= to && (from <= to ==> from <= winStart)
      invariant if winEnd == to then winStart == to && matched == 0
                else from <= matched == winEnd + 1 && Reverted(rows, c, matched) && (winStart > winEnd ==> matched == from)
      decreases winEnd
    {
      var first := FindFirstRevertedEpochInRange(rows, node, c, winStart, winEnd);
      if first == None {
        return None;
      }
      if first.value != 0 {
        matched := first.value;
      }
      if first.value > winStart || first.value == 0 || winStart <= 1 {
        Settled(rows, c, from, to, winStart, winEnd, first.value, matched);
        return Some(matched);
      }
      winEnd := winStart - 1;
      winStart := from;
      if winEnd >= WINDOW {
        winStart := if winEnd - WINDOW + 1 > from then winEnd - WINDOW + 1 else from;
      }
    }
    r := Some(matched);
  }

  lemma Settled(rows: seq<Row>, c: Chain, from: nat, to: nat, winStart: nat, winEnd: nat, first: nat, matched: nat)
    requires Monotone(rows, c, to) && 1 <= from <= winStart <= winEnd <= to
    requires IsFirst(rows, c, winStart, winEnd, first)
    requires first > winStart || first == 0 || winStart <= 1
    requires if first != 0 then matched == first
             else if winEnd == to then matched == 0 else matched == winEnd + 1 && Reverted(rows, c, matched)
    ensures IsFirst(rows, c, from, to, matched)
  {
    if first == 0 {
      assert !Reverted(rows, c, winStart);
    }
    assert forall e: nat :: e <= winStart <= to && Reverted(rows, c, e) ==> Reverted(rows, c, winStart);
  }

  /** Round `i`, counted down, is the first one that is not committed: the epochs from `reached` on
      are gone, and those before it are all there. */
  ghost predicate StoppedAt(commits: nat -> Commit, from: nat, reached: nat, i: nat) {
    i > 0 && commits(i) != Committed && reached == from + i * 200
  }

  /** Pops the epochs from `from` to `to`, the latest ones first and at most 200 at a time. Stops
      at the first pop that is rolled back, and only there. */
  method PruneRevertedEpochData(store: Store, from: nat, to: nat, commits: nat -> Commit)
    returns (ok: bool, ghost reached: nat, ghost popped: seq<nat>)
    requires store.Valid() && from <= to && MaxEpoch(store.rows) == Some(to)
    modifies store
    ensures store.Valid() && store.rows == Before(old(store.rows), reached)
    ensures if ok then reached == from else exists i: nat :: StoppedAt(commits, from, reached, i)
    ensures forall k :: 0 <= k < |popped| ==> popped[k] <= WINDOW
    ensures |old(store.rows)| == |store.rows| + Sum(popped)
  {
    var nums := to - from + 1;
    var rounds := nums / 200;
    if nums % 200 != 0 {
      rounds := rounds + 1;
    }
    popped := [];
    ghost var all := store.rows;
    reached := from + rounds * 200;
    BeforeAll(all, reached);
    var i := rounds;
    while i > 0
      invariant 0 <= i <= rounds && reached == from + i * 200
      invariant store.Valid() && store.rows == Before(all, reached)
      invariant forall k :: 0 <= k < |popped| ==> popped[k] <= WINDOW
      invariant |all| == |store.rows| + Sum(popped)
    {
      ghost var n;
      ok, n := PopRound(store, all, from + (i - 1) * 200, commits(i));
      if !ok {
        assert StoppedAt(commits, from, reached, i);
        return;
      }
      SumAdd(popped, n);
      popped := popped + [n];
      reached := reached - 200;
      i := i - 1;
    }
    ok := true;
  }

  method PopRound(store: Store, ghost all: seq<Row>, until: nat, commit: Commit) returns (ok: bool, ghost n: nat)
    requires store.Valid() && Contiguous(all) && store.rows == Before(all, until + WINDOW)
    modifies store
    ensures store.Valid() && (!ok ==> store.rows == old(store.rows) && commit != Committed)
    ensures ok ==> store.rows == Before(all, until) && n <= WINDOW && |old(store.rows)| == |store.rows| + n
  {
    PopWindow(all, store.rows, until);
    n := |store.rows| - |Before(store.rows, until)|;
    var r := store.PopnWithFinalizer(until, commit);
    ok := r == Written;
  }

  lemma PopWindow(all: seq<Row>, rows: seq<Row>, until: nat)
    requires Contiguous(all) && rows == Before(all, until + WINDOW)
    ensures Before(rows, until) == Before(all, until) && |Before(rows, until)| <= |rows| <= |Before(rows, until)| + WINDOW
  {
    PopSize(all, until, WINDOW);
    BeforeTwice(all, until, until + WINDOW);
  }

  function Sum(ns: seq<nat>): nat {
    if ns == [] then 0 else Sum(ns[..|ns| - 1]) + ns[|ns| - 1]
  }

  lemma SumAdd(ns: seq<nat>, n: nat)
    ensures Sum(ns + [n]) == Sum(ns) + n
  {
    assert (ns + [n])[..|ns|] == ns;
  }

  lemma BeforeAll(rows: seq<Row>, until: nat)
    requires Contiguous(rows) && (rows != [] ==> rows[|rows| - 1].epoch < until)
    ensures Before(rows, until) == rows
  {
    BeforePrefix(rows, until, |rows|);
    assert rows[..|rows|] == rows;
  }

  lemma {:induction false} BeforeTwice(rows: seq<Row>, a: nat, b: nat)
    requires a <= b
    ensures Before(Before(rows, b), a) == Before(rows, a)
  {
    if rows != [] {
      var k := |rows| - 1;
      BeforeTwice(rows[..k], a, b);
      var init := Before(rows[..k], b);
      if rows[k].epoch < b {
        assert (init + [rows[k]])[..|init|] == init;
      }
    }
  }

  /** Of contiguous rows, a pop removes no more epochs than the distance between the bounds. */
  lemma PopSize(rows: seq<Row>, until: nat, n: nat)
    requires Contiguous(rows)
    ensures |Before(rows, until)| <= |Before(rows, until + n)| <= |Before(rows, until)| + n
  {
    BeforeLength(rows, until);
    BeforeLength(rows, until + n);
  }

  lemma BeforeLength(rows: seq<Row>, until: nat)
    requires Contiguous(rows)
    ensures |Before(rows, until)| == if rows == [] || until <= rows[0].epoch then 0
                                     else if until - rows[0].epoch < |rows| then until - rows[0].epoch else |rows|
  {
    if rows != [] {
      if until > rows[|rows| - 1].epoch {
        BeforeAll(rows, until);
      } else {
        BeforeContiguous(rows, until);
      }
    }
  }

  /** The search failed at a stored epoch that the node does not tell about, and nothing changed. */
  ghost predicate SearchFailed(rows: seq<Row>, was: seq<Row>, node: Node) {
    rows == was && exists e :: 1 <= e && Unanswered(was, node, e)
  }

  /** The prune was stopped by a pop that was not committed, and has removed the epochs from
      `reached` on, behind the least reverted one. */
  ghost predicate PruneFailed(rows: seq<Row>, was: seq<Row>, commits: nat -> Commit, m: nat, reached: nat) {
    m > 0 && rows == Before(was, reached) && exists i: nat :: StoppedAt(commits, m, reached, i)
  }

  /** Startup repair. On success the store holds exactly the epochs before the least stored epoch
      from 1 on whose pivot differs from the chain's, and everything if there is none. It fails only
      if the node does not answer for a stored epoch or a pop is not committed. */
  method EnsureStoreEpochDataOk(store: Store, node: Node, ghost c: Chain, commits: nat -> Commit)
    returns (ok: bool, ghost m: nat, ghost reached: nat)
    requires store.Valid() && Truthful(node, c)
    requires store.rows != [] ==> Monotone(store.rows, c, store.rows[|store.rows| - 1].epoch)
    modifies store
    ensures store.Valid()
    ensures old(store.rows) == [] ==> ok && store.rows == []
    ensures ok && old(store.rows) != [] ==>
              && IsFirst(old(store.rows), c, 1, old(store.rows)[|old(store.rows)| - 1].epoch, m)
              && store.rows == if m == 0 then old(store.rows) else Before(old(store.rows), m)
    ensures !ok ==>
              || SearchFailed(store.rows, old(store.rows), node)
              || (IsFirst(old(store.rows), c, 1, old(store.rows)[|old(store.rows)| - 1].epoch, m)
                  && PruneFailed(store.rows, old(store.rows), commits, m, reached))
  {
    m, reached := 0, 0;
    var max := MaxEpoch(store.rows);
    if max == None {
      return true, 0, 0;
    }
    var first := FindFirstReverted(store.rows, node, c, 1, max.value);
    if first == None {
      return false, 0, 0;
    }
    ok, m := true, first.value;
    if first.value != 0 {
      ghost var popped;
      ok, reached, popped := PruneRevertedEpochData(store, first.value, max.value, commits);
    }
  }

  lemma RevertedStays(c: Chain, rows: seq<Row>, parentOf: Hash -> Hash, i: nat, j: nat)
    requires Contiguous(rows) && StrictlyLinked(rows) && i <= j < |rows| && !c.Has(rows[i])
    requires ParentsBy(c, rows, parentOf)
    ensures !c.Has(rows[j])
  {
    if c.Has(rows[j]) {
      AgreementIsPrefix(c, rows, parentOf, i, j);
    }
  }

  lemma RevertedAt(c: Chain, rows: seq<Row>, e: nat)
    requires Contiguous(rows)
    ensures Reverted(rows, c, e) <==>
              rows != [] && rows[0].epoch <= e < rows[0].epoch + |rows| && !c.Has(rows[e - rows[0].epoch])
  {
  }

  /** Where pivot hashes determine their parents, the reverted epochs of a hash-linked store are
      the stored ones from some epoch on. */
  lemma RevertedIsMonotone(c: Chain, rows: seq<Row>, parentOf: Hash -> Hash)
    requires Contiguous(rows) && StrictlyLinked(rows) && rows != []
    requires ParentsBy(c, rows, parentOf)
    ensures Monotone(rows, c, rows[|rows| - 1].epoch)
  {
    forall e: nat, f: nat | e <= f <= rows[|rows| - 1].epoch && Reverted(rows, c, e)
      ensures Reverted(rows, c, f)
    {
      RevertedAt(c, rows, e);
      RevertedAt(c, rows, f);
      RevertedStays(c, rows, parentOf, e - rows[0].epoch, f - rows[0].epoch);
    }
  }
}
