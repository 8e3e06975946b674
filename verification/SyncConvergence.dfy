/** Convergence of the syncer against a fixed chain. */
module SyncConvergence {
  import opened Basics
  import opened EpochStore
  import opened Syncer

  /** A fixed hash-linked chain of pivots, by epoch. */
  datatype Chain = Chain(hashOf: nat -> Hash, genesisParent: Hash) {
    function ParentAt(e: nat): Hash { if e == 0 then genesisParent else hashOf(e - 1) }

    function RowAt(e: nat): Row { Row(e, hashOf(e), ParentAt(e)) }

    function Rows(from: nat, n: nat): (r: seq<Row>)
      ensures |r| == n && forall i :: 0 <= i < n ==> r[i] == RowAt(from + i)
    {
      seq(n, i requires 0 <= i < n => RowAt(from + i))
    }

    predicate Has(x: Row) { x.hash == hashOf(x.epoch) }

    /** A round against this chain with latest confirmed epoch `k`, whose writes are committed. */
    function RoundAt(k: nat): Round {
      Round(Some(k), (e: nat) => Pivot(hashOf(e), ParentAt(e)), Committed)
    }
  }

  // ---------- one round ----------

  lemma {:induction false} FetchesChain(c: Chain, k: nat, from: nat, size: nat, latest: Hash, i: nat)
    requires i <= size && (i == 0 ==> latest == "" || c.ParentAt(from) == latest)
    ensures Fetch(c.RoundAt(k).query, from, size, latest, i, c.Rows(from, i)) == Batch(c.Rows(from, size))
    decreases size - i
  {
    if i < size {
      assert c.Rows(from, i) + [c.RowAt(from + i)] == c.Rows(from, i + 1);
      assert c.Rows(from, 1) == [c.RowAt(from)];
      FetchesChain(c, k, from, size, latest, i + 1);
    }
  }

  function Min(a: nat, b: nat): nat { if a < b then a else b }

  /** No 64-bit overflow in the computation of the sync range. */
  predicate Small(p: Params, k: nat) { p.maxSyncEpochs >= 1 && k + p.maxSyncEpochs < TWO_TO_64 }

  /** If the stored tail is on the chain, or there is none, the next epochs are appended. */
  lemma RoundAppends(p: Params, c: Chain, k: nat, rows: seq<Row>)
    requires Small(p, k) && NextEpoch(p, rows) <= k && (rows != [] ==> c.Has(rows[|rows| - 1]))
    ensures var from := NextEpoch(p, rows);
            SyncStep(p, rows, c.RoundAt(k)) == rows + c.Rows(from, Min(p.maxSyncEpochs, k + 1 - from))
  {
    var from := NextEpoch(p, rows);
    FetchesChain(c, k, from, SyncSize(from, p.maxSyncEpochs, k), LatestHash(rows), 0);
    assert c.Rows(from, 0) == [];
  }

  /** If the stored tail is off the chain, it is dropped. */
  lemma RoundPops(p: Params, c: Chain, k: nat, rows: seq<Row>)
    requires Small(p, k) && rows != [] && NextEpoch(p, rows) <= k
    requires !c.Has(rows[|rows| - 1]) && rows[|rows| - 1].hash != "" && rows[|rows| - 1].epoch > 0
    ensures SyncStep(p, rows, c.RoundAt(k)) == rows[..|rows| - 1]
  {
    assert c.ParentAt(NextEpoch(p, rows)) == c.hashOf(rows[|rows| - 1].epoch);
  }

  // ---------- many rounds ----------

  /** The rows after `n` rounds. */
  function After(p: Params, rows: seq<Row>, r: Round, n: nat): seq<Row>
    decreases n
  {
    if n == 0 then rows else After(p, SyncStep(p, rows, r), r, n - 1)
  }

  ghost predicate Reaches(p: Params, rows: seq<Row>, r: Round, n: nat, out: seq<Row>) {
    After(p, rows, r, n) == out
  }

  lemma {:induction false} AfterAdds(p: Params, rows: seq<Row>, r: Round, m: nat, n: nat)
    ensures After(p, rows, r, m + n) == After(p, After(p, rows, r, m), r, n)
    decreases m
  {
    if m > 0 {
      AfterAdds(p, SyncStep(p, rows, r), r, m - 1, n);
    }
  }

  /** The first `agree` rows are on the chain, the others are not. */
  ghost predicate Agrees(c: Chain, rows: seq<Row>, agree: nat) {
    && agree <= |rows|
    && (forall i :: 0 <= i < agree ==> c.Has(rows[i]))
    && (forall i :: agree <= i < |rows| ==> !c.Has(rows[i]) && rows[i].hash != "")
  }

  /** Each of the first rounds drops one row that is off the chain. */
  lemma {:induction false} PopPhase(p: Params, c: Chain, k: nat, rows: seq<Row>, agree: nat, n: nat)
    requires Small(p, k) && Contiguous(rows) && Agrees(c, rows, agree) && NextEpoch(p, rows) <= k
    requires n <= |rows| - agree && (0 < n == |rows| ==> rows[0].epoch > 0)
    ensures Reaches(p, rows, c.RoundAt(k), n, rows[..|rows| - n])
    decreases n
  {
    if n == 0 {
      assert rows[..|rows|] == rows;
    } else {
      var rest := rows[..|rows| - 1];
      RoundPops(p, c, k, rows);
      if n > 1 {
        PopPhase(p, c, k, rest, agree, n - 1);
      }
      assert rest[..|rest| - (n - 1)] == rows[..|rows| - n];
    }
  }

  /** Rounds needed to append `left` epochs, `batch` at a time. */
  function PushRounds(left: nat, batch: nat): nat
    requires batch >= 1
  {
    if left == 0 then 0 else 1 + PushRounds(left - Min(batch, left), batch)
  }

  lemma {:induction false} PushRoundsBound(left: nat, batch: nat)
    requires batch >= 1 && left >= 1
    ensures var n := PushRounds(left, batch); (n - 1) * batch < left <= n * batch
  {
    var n := PushRounds(left, batch);
    if left <= batch {
      assert PushRounds(0, batch) == 0 && n == 1;
    } else {
      PushRoundsBound(left - batch, batch);
      assert n * batch == (n - 1) * batch + batch && (n - 1) * batch == (n - 2) * batch + batch;
    }
  }

  lemma AfterStep(p: Params, rows: seq<Row>, r: Round, next: seq<Row>, n: nat)
    requires SyncStep(p, rows, r) == next
    ensures Reaches(p, rows, r, 1 + n, After(p, next, r, n))
  {
  }

  /** Epochs still to be appended. */
  function Left(p: Params, k: nat, rows: seq<Row>): nat {
    if NextEpoch(p, rows) <= k then k + 1 - NextEpoch(p, rows) else 0
  }

  /** The stored rows continued by the chain up to epoch `k`. */
  function Continued(p: Params, c: Chain, k: nat, rows: seq<Row>): seq<Row> {
    rows + c.Rows(NextEpoch(p, rows), Left(p, k, rows))
  }

  /** One round appends the next batch, from which the chain continues to the same rows. */
  lemma PushOne(p: Params, c: Chain, k: nat, rows: seq<Row>, next: seq<Row>)
    requires Small(p, k) && NextEpoch(p, rows) <= k && (rows != [] ==> c.Has(rows[|rows| - 1]))
    requires next == rows + c.Rows(NextEpoch(p, rows), Min(p.maxSyncEpochs, Left(p, k, rows)))
    ensures SyncStep(p, rows, c.RoundAt(k)) == next && next != [] && c.Has(next[|next| - 1])
    ensures Left(p, k, next) == Left(p, k, rows) - Min(p.maxSyncEpochs, Left(p, k, rows))
    ensures Continued(p, c, k, next) == Continued(p, c, k, rows)
  {
    RoundAppends(p, c, k, rows);
    OneBatch(p, c, k, rows, NextEpoch(p, rows), Min(p.maxSyncEpochs, Left(p, k, rows)), Left(p, k, rows), next);
  }

  lemma OneBatch(p: Params, c: Chain, k: nat, rows: seq<Row>, from: nat, n: nat, left: nat, next: seq<Row>)
    requires 0 < n <= left && from == NextEpoch(p, rows) && from + left == k + 1 && next == rows + c.Rows(from, n)
    ensures next != [] && c.Has(next[|next| - 1]) && Left(p, k, next) == left - n
    ensures Continued(p, c, k, next) == rows + c.Rows(from, left)
  {
    RowsSplit(c, rows, from, n, left);
  }

  lemma {:induction false} PushPhase(p: Params, c: Chain, k: nat, rows: seq<Row>, m: nat, out: seq<Row>)
    requires Small(p, k) && (rows != [] ==> c.Has(rows[|rows| - 1]))
    requires m == PushRounds(Left(p, k, rows), p.maxSyncEpochs) && out == Continued(p, c, k, rows)
    ensures Reaches(p, rows, c.RoundAt(k), m, out)
    decreases m
  {
    if m == 0 {
      assert rows + c.Rows(NextEpoch(p, rows), 0) == rows;
    } else {
      var next := rows + c.Rows(NextEpoch(p, rows), Min(p.maxSyncEpochs, Left(p, k, rows)));
      PushOne(p, c, k, rows, next);
      PushPhase(p, c, k, next, m - 1, out);
      AfterStep(p, rows, c.RoundAt(k), next, m - 1);
    }
  }

  lemma RowsSplit(c: Chain, rows: seq<Row>, from: nat, n: nat, left: nat)
    requires 0 < n <= left
    ensures rows + c.Rows(from, n) + c.Rows(from + n, left - n) == rows + c.Rows(from, left)
    ensures var next := rows + c.Rows(from, n); next != [] && next[|next| - 1] == c.RowAt(from + n - 1)
  {
  }

  /** Once the store has reached the confirmed epoch, rounds change nothing. */
  lemma {:induction false} Rests(p: Params, c: Chain, k: nat, rows: seq<Row>, n: nat)
    requires NextEpoch(p, rows) == k + 1
    ensures Reaches(p, rows, c.RoundAt(k), n, rows)
  {
    if n > 0 {
      Rests(p, c, k, rows, n - 1);
    }
  }

  /** Against a fixed chain confirmed up to `k`, beyond the stored maximum, the syncer drops the
      epochs off the chain in one round each, then appends batches until the store is continued by
      the chain up to `k`, and stays there: after any number of rounds that is at least the number
      to drop plus `m`. */
  lemma Converges(p: Params, c: Chain, k: nat, rows: seq<Row>, agree: nat, kept: seq<Row>, m: nat, n: nat)
    requires Small(p, k) && Contiguous(rows) && Agrees(c, rows, agree) && NextEpoch(p, rows) <= k
    requires agree == 0 && rows != [] ==> rows[0].epoch > 0 && p.fromEpoch <= k
    requires kept == rows[..agree] && m == PushRounds(Left(p, k, kept), p.maxSyncEpochs) && n >= |rows| - agree + m
    ensures Reaches(p, rows, c.RoundAt(k), n, Continued(p, c, k, kept))
    ensures NextEpoch(p, Continued(p, c, k, kept)) == k + 1
  {
    var d, out := |rows| - agree, Continued(p, c, k, kept);
    PopsTo(p, c, k, rows, agree, d, kept);
    KeptEnds(p, c, k, rows, agree, kept);
    ReachesEnd(p, c, k, kept);
    PopsThenPushes(p, c, k, rows, d, kept, m, n, out);
  }

  lemma KeptEnds(p: Params, c: Chain, k: nat, rows: seq<Row>, agree: nat, kept: seq<Row>)
    requires Contiguous(rows) && Agrees(c, rows, agree) && NextEpoch(p, rows) <= k && kept == rows[..agree]
    requires agree == 0 && rows != [] ==> p.fromEpoch <= k
    ensures (kept != [] ==> c.Has(kept[|kept| - 1])) && NextEpoch(p, kept) <= k
  {
  }

  lemma PopsThenPushes(p: Params, c: Chain, k: nat, rows: seq<Row>, d: nat, kept: seq<Row>, m: nat, n: nat, out: seq<Row>)
    requires Small(p, k) && (kept != [] ==> c.Has(kept[|kept| - 1])) && Reaches(p, rows, c.RoundAt(k), d, kept)
    requires m == PushRounds(Left(p, k, kept), p.maxSyncEpochs) && n >= d + m
    requires out == Continued(p, c, k, kept) && NextEpoch(p, out) == k + 1
    ensures Reaches(p, rows, c.RoundAt(k), n, out)
  {
    Arrives(p, c, k, kept, m, n - d, out);
    Joined(p, rows, c.RoundAt(k), d, kept, n, out);
  }

  lemma PopsTo(p: Params, c: Chain, k: nat, rows: seq<Row>, agree: nat, d: nat, kept: seq<Row>)
    requires Small(p, k) && Contiguous(rows) && Agrees(c, rows, agree) && NextEpoch(p, rows) <= k
    requires agree == 0 && rows != [] ==> rows[0].epoch > 0
    requires d == |rows| - agree && kept == rows[..agree]
    ensures Reaches(p, rows, c.RoundAt(k), d, kept)
  {
    PopPhase(p, c, k, rows, agree, d);
  }

  lemma Joined(p: Params, rows: seq<Row>, r: Round, m: nat, mid: seq<Row>, n: nat, out: seq<Row>)
    requires m <= n && Reaches(p, rows, r, m, mid) && Reaches(p, mid, r, n - m, out)
    ensures Reaches(p, rows, r, n, out)
  {
    AfterAdds(p, rows, r, m, n - m);
  }

  lemma ReachesEnd(p: Params, c: Chain, k: nat, kept: seq<Row>)
    requires NextEpoch(p, kept) <= k
    ensures NextEpoch(p, Continued(p, c, k, kept)) == k + 1
  {
    RowsSplit(c, kept, NextEpoch(p, kept), Left(p, k, kept), Left(p, k, kept));
  }

  lemma Arrives(p: Params, c: Chain, k: nat, kept: seq<Row>, m: nat, n: nat, out: seq<Row>)
    requires Small(p, k) && (kept != [] ==> c.Has(kept[|kept| - 1]))
    requires m == PushRounds(Left(p, k, kept), p.maxSyncEpochs)
    requires out == Continued(p, c, k, kept) && NextEpoch(p, out) == k + 1 && m <= n
    ensures Reaches(p, kept, c.RoundAt(k), n, out)
  {
    PushPhase(p, c, k, kept, m, out);
    Rests(p, c, k, out, n - m);
    Joined(p, kept, c.RoundAt(k), m, out, n, out);
  }

  // ---------- the agreeing epochs form a prefix ----------

  ghost predicate Hashed(rows: seq<Row>) {
    forall i :: 0 <= i < |rows| ==> rows[i].hash != ""
  }

  /** The hash of a pivot determines its parent, on the chain and in the store. */
  ghost predicate ParentsBy(c: Chain, rows: seq<Row>, parentOf: Hash -> Hash) {
    && (forall x :: 0 <= x < |rows| ==> rows[x].parent == parentOf(rows[x].hash))
    && (forall e {:trigger parentOf(c.hashOf(e))} :: parentOf(c.hashOf(e)) == c.ParentAt(e))
  }

  /** Agreement at one stored epoch means agreement at all stored epochs before it. */
  lemma {:induction false} AgreementIsPrefix(c: Chain, rows: seq<Row>, parentOf: Hash -> Hash, i: nat, j: nat)
    requires Contiguous(rows) && StrictlyLinked(rows) && i <= j < |rows| && c.Has(rows[j])
    requires ParentsBy(c, rows, parentOf)
    ensures c.Has(rows[i])
  {
    if i < j {
      assert rows[j].parent == parentOf(c.hashOf(rows[j].epoch)) == c.ParentAt(rows[j].epoch);
      AgreementIsPrefix(c, rows, parentOf, i, j - 1);
    }
  }

  /** Number of stored epochs up to the last one that is on the chain. */
  function Agree(c: Chain, rows: seq<Row>): (agree: nat)
    ensures agree <= |rows| && (agree > 0 ==> c.Has(rows[agree - 1]))
    ensures forall i :: agree <= i < |rows| ==> !c.Has(rows[i])
  {
    if rows == [] then 0
    else if c.Has(rows[|rows| - 1]) then |rows|
    else Agree(c, rows[..|rows| - 1])
  }

  lemma AgreeAgrees(c: Chain, rows: seq<Row>, parentOf: Hash -> Hash)
    requires Contiguous(rows) && StrictlyLinked(rows) && Hashed(rows) && ParentsBy(c, rows, parentOf)
    ensures Agrees(c, rows, Agree(c, rows))
  {
    var agree := Agree(c, rows);
    forall i | 0 <= i < agree ensures c.Has(rows[i]) {
      AgreementIsPrefix(c, rows, parentOf, i, agree - 1);
    }
  }

  // ---------- convergence ----------

  /** The genesis epoch is never dropped: a store that holds only a foreign one stays so. */
  lemma {:induction false} StuckAtGenesis(p: Params, c: Chain, k: nat, rows: seq<Row>, n: nat)
    requires Small(p, k) && |rows| == 1 && rows[0].epoch == 0 && k >= 1 && !c.Has(rows[0]) && rows[0].hash != ""
    ensures Reaches(p, rows, c.RoundAt(k), n, rows)
  {
    if n > 0 {
      assert c.ParentAt(1) == c.hashOf(0);
      assert SyncStep(p, rows, c.RoundAt(k)) == rows;
      StuckAtGenesis(p, c, k, rows, n - 1);
    }
  }

  lemma StuckAfterPops(p: Params, c: Chain, k: nat, rows: seq<Row>, n: nat)
    requires Small(p, k) && Contiguous(rows) && Agrees(c, rows, 0) && NextEpoch(p, rows) <= k
    requires rows != [] && rows[0].epoch == 0 && n >= |rows| - 1
    ensures Reaches(p, rows, c.RoundAt(k), n, rows[..1])
  {
    var d := |rows| - 1;
    PopPhase(p, c, k, rows, 0, d);
    StuckAtGenesis(p, c, k, rows[..1], n - d);
    Joined(p, rows, c.RoundAt(k), d, rows[..1], n, rows[..1]);
  }

  /** From any linked store below the confirmed epoch the syncer ends with the stored epochs of
      the chain continued by the chain up to `k`, unless the store holds a genesis epoch that is
      not the chain's: then, and only then, that one stays. */
  lemma ConvergesIff(p: Params, c: Chain, k: nat, rows: seq<Row>, parentOf: Hash -> Hash, kept: seq<Row>, m: nat, n: nat)
    requires Small(p, k) && Contiguous(rows) && StrictlyLinked(rows) && Hashed(rows) && ParentsBy(c, rows, parentOf)
    requires NextEpoch(p, rows) <= k && p.fromEpoch <= k
    requires kept == rows[..Agree(c, rows)] && m == PushRounds(Left(p, k, kept), p.maxSyncEpochs)
    requires n >= |rows| - |kept| + m
    ensures NextEpoch(p, Continued(p, c, k, kept)) == k + 1
    ensures Reaches(p, rows, c.RoundAt(k), n, Continued(p, c, k, kept)) <==>
              !(rows != [] && rows[0].epoch == 0 && !c.Has(rows[0]))
  {
    AgreeAgrees(c, rows, parentOf);
    if rows != [] && rows[0].epoch == 0 && !c.Has(rows[0]) {
      StuckAfterPops(p, c, k, rows, n);
      StaysForeign(p, c, k, rows, kept, After(p, rows, c.RoundAt(k), n));
    } else {
      Converges(p, c, k, rows, Agree(c, rows), kept, m, n);
    }
  }

  lemma StaysForeign(p: Params, c: Chain, k: nat, rows: seq<Row>, kept: seq<Row>, out: seq<Row>)
    requires rows != [] && !c.Has(rows[0]) && kept == [] && out == rows[..1] && p.fromEpoch <= k
    ensures NextEpoch(p, Continued(p, c, k, kept)) == k + 1
    ensures out != Continued(p, c, k, kept)
  {
    ReachesEnd(p, c, k, kept);
    assert Continued(p, c, k, kept)[0] == c.RowAt(p.fromEpoch) && out[0] == rows[0];
  }
}
