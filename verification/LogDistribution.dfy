/** Distributing the logs of an epoch range over the receipts of its epochs. */
module LogDistribution {
  import opened Basics

  datatype Log = Log(epoch: nat, block: Hash, tx: Hash, id: nat)

  datatype Receipt = Receipt(epoch: nat, block: Hash, tx: Hash, logs: seq<Log>)

  /** Epoch data reduced to its number, its blocks and its receipts by transaction. */
  datatype EpochData = EpochData(number: nat, blocks: seq<Hash>, receipts: map<Hash, Receipt>)

  /** A full node: the blocks of an epoch, None if that call fails, and whether a block is found. */
  datatype FullNode = FullNode(blocksOf: nat -> Option<seq<Hash>>, found: Hash -> bool)

  // ---------- receipts of a stretch of logs ----------

  function OfTx(logs: seq<Log>, tx: Hash): (r: seq<Log>)
    ensures r != [] <==> exists i :: 0 <= i < |logs| && logs[i].tx == tx
    ensures forall x :: x in r ==> x in logs && x.tx == tx
  {
    if logs == [] then []
    else
      var x := logs[|logs| - 1];
      if x.tx == tx then OfTx(logs[..|logs| - 1], tx) + [x] else OfTx(logs[..|logs| - 1], tx)
  }

  function OfEpoch(logs: seq<Log>, e: nat): seq<Log> {
    if logs == [] then []
    else
      var x := logs[|logs| - 1];
      if x.epoch == e then OfEpoch(logs[..|logs| - 1], e) + [x] else OfEpoch(logs[..|logs| - 1], e)
  }

  lemma {:induction false} OfEpochSelects(logs: seq<Log>, e: nat)
    ensures forall x :: x in OfEpoch(logs, e) <==> x in logs && x.epoch == e
  {
    if logs != [] {
      OfEpochSelects(logs[..|logs| - 1], e);
    }
  }

  function AddLog(receipts: map<Hash, Receipt>, e: nat, x: Log): map<Hash, Receipt> {
    var r := if x.tx in receipts then receipts[x.tx] else Receipt(e, x.block, x.tx, []);
    receipts[x.tx := r.(logs := r.logs + [x])]
  }

  function Receipts(logs: seq<Log>, e: nat): map<Hash, Receipt> {
    if logs == [] then map[] else AddLog(Receipts(logs[..|logs| - 1], e), e, logs[|logs| - 1])
  }

  function InTx(tx: Hash): Log -> bool {
    (x: Log) => x.tx == tx
  }

  function InEpoch(e: nat): Log -> bool {
    (x: Log) => x.epoch == e
  }

  /** The logs of a transaction, each once and in order. */
  lemma {:induction false} OfTxPicks(logs: seq<Log>, tx: Hash) returns (ps: seq<nat>)
    ensures Picked(logs, InTx(tx), ps, OfTx(logs, tx))
  {
    if logs == [] {
      ps := [];
    } else {
      var init, x := logs[..|logs| - 1], logs[|logs| - 1];
      ps := OfTxPicks(init, tx);
      assert logs == init + [x];
      PickedPush(init, InTx(tx), ps, OfTx(init, tx), x);
      ps := if x.tx == tx then ps + [|init|] else ps;
    }
  }

  /** The logs of an epoch, each once and in order. */
  lemma {:induction false} OfEpochPicks(logs: seq<Log>, e: nat) returns (ps: seq<nat>)
    ensures Picked(logs, InEpoch(e), ps, OfEpoch(logs, e))
  {
    if logs == [] {
      ps := [];
    } else {
      var init, x := logs[..|logs| - 1], logs[|logs| - 1];
      ps := OfEpochPicks(init, e);
      assert logs == init + [x];
      PickedPush(init, InEpoch(e), ps, OfEpoch(init, e), x);
      ps := if x.epoch == e then ps + [|init|] else ps;
    }
  }

  /** There is one receipt per transaction that has logs; it carries the epoch, the block of the
      first log, and all logs of the transaction in their original order. */
  lemma {:induction false} ReceiptsHoldLogs(logs: seq<Log>, e: nat)
    ensures forall tx :: tx in Receipts(logs, e) <==> OfTx(logs, tx) != []
    ensures forall tx :: tx in Receipts(logs, e) ==>
              Receipts(logs, e)[tx] == Receipt(e, OfTx(logs, tx)[0].block, tx, OfTx(logs, tx))
  {
    if logs != [] {
      ReceiptsHoldLogs(logs[..|logs| - 1], e);
    }
  }

  // ---------- the query ----------

  ghost predicate Sorted(logs: seq<Log>) {
    forall i, j :: 0 <= i < j < |logs| ==> logs[i].epoch <= logs[j].epoch
  }

  ghost predicate Within(logs: seq<Log>, from: nat, to: nat) {
    forall i :: 0 <= i < |logs| ==> from <= logs[i].epoch <= to
  }

  /** All calls to the full node succeed. */
  ghost predicate Responsive(node: FullNode) {
    && (forall e {:trigger node.blocksOf(e)} :: node.blocksOf(e).Some? && node.blocksOf(e).value != [])
    && (forall h {:trigger node.found(h)} :: node.found(h))
  }

  /** The logs from `cursor` to before `end` belong to epoch `e`. */
  ghost predicate Uniform(logs: seq<Log>, cursor: nat, end: nat, e: nat) {
    end <= |logs| && forall i :: cursor <= i < end ==> logs[i].epoch == e
  }

  /** The first `cursor` logs belong to epochs before `e`. */
  ghost predicate Earlier(logs: seq<Log>, cursor: nat, e: nat) {
    cursor <= |logs| && forall i :: 0 <= i < cursor ==> logs[i].epoch < e
  }

  function Blocks(logs: seq<Log>): set<Hash> {
    set x | x in logs :: x.block
  }

  lemma OneMoreReceipt(logs: seq<Log>, cursor: nat, end: nat, next: nat, e: nat)
    requires cursor <= end < |logs| && next == end + 1
    ensures Receipts(logs[cursor..next], e) == AddLog(Receipts(logs[cursor..end], e), e, logs[end])
  {
    var a, b := logs[cursor..end], logs[cursor..next];
    assert b == a + [logs[end]] && b[..|b| - 1] == a;
  }

  lemma OneMoreBlock(logs: seq<Log>, cursor: nat, end: nat, next: nat, cached: set<Hash>)
    requires cursor <= end < |logs| && next == end + 1
    ensures cached + Blocks(logs[cursor..end]) + {logs[end].block} == cached + Blocks(logs[cursor..next])
  {
    assert logs[cursor..next] == logs[cursor..end] + [logs[end]];
    BlocksAdd(logs[cursor..end], logs[end]);
  }

  lemma BlocksAdd(logs: seq<Log>, x: Log)
    ensures Blocks(logs + [x]) == Blocks(logs) + {x.block}
  {
    var all := logs + [x];
    assert all[|logs|] == x;
    forall h | h in Blocks(logs) ensures h in Blocks(all) {
      var y :| y in logs && y.block == h;
      assert y in all;
    }
  }

  /** The logs from `cursor` to before `end` are of epoch `e` and have been taken up. */
  ghost predicate Taken(logs: seq<Log>, cursor: nat, end: nat, e: nat, cached: set<Hash>, receipts: map<Hash, Receipt>,
                        blocks: set<Hash>) {
    && cursor <= end <= |logs| && Uniform(logs, cursor, end, e)
    && receipts == Receipts(logs[cursor..end], e) && blocks == cached + Blocks(logs[cursor..end])
  }

  lemma TakenNext(logs: seq<Log>, cursor: nat, end: nat, next: nat, e: nat, cached: set<Hash>,
                  receipts: map<Hash, Receipt>, blocks: set<Hash>)
    requires Taken(logs, cursor, end, e, cached, receipts, blocks) && end < |logs| && next == end + 1
    requires logs[end].epoch == e
    ensures Taken(logs, cursor, next, e, cached, AddLog(receipts, e, logs[end]), blocks + {logs[end].block})
  {
    OneMoreReceipt(logs, cursor, end, next, e);
    OneMoreBlock(logs, cursor, end, next, cached);
  }

  lemma NothingTaken(logs: seq<Log>, cursor: nat, e: nat, cached: set<Hash>)
    requires cursor <= |logs|
    ensures Taken(logs, cursor, cursor, e, cached, map[], cached)
  {
    assert logs[cursor..cursor] == [];
    assert cached + Blocks([]) == cached;
  }

  /** Consumes the logs of epoch `e` from `cursor` on. Fails if one of their blocks is not found. */
  method CollectLogs(node: FullNode, logs: seq<Log>, cursor: nat, e: nat, cached: set<Hash>)
    returns (ok: bool, end: nat, receipts: map<Hash, Receipt>, blocks: set<Hash>)
    requires cursor <= |logs|
    ensures Taken(logs, cursor, end, e, cached, receipts, blocks) && (Responsive(node) ==> ok)
    ensures ok ==> (end < |logs| ==> logs[end].epoch != e) && forall h :: h in blocks ==> h in cached || node.found(h)
    ensures !ok ==> end < |logs| && logs[end].epoch == e && !node.found(logs[end].block) && logs[end].block !in blocks
  {
    ok, end, receipts, blocks := true, cursor, map[], cached;
    NothingTaken(logs, cursor, e, cached);
    while end < |logs| && logs[end].epoch == e
      invariant Taken(logs, cursor, end, e, cached, receipts, blocks)
      invariant forall h :: h in blocks ==> h in cached || node.found(h)
    {
      var x := logs[end];
      if x.block !in blocks && !node.found(x.block) {
        return false, end, receipts, blocks;
      }
      TakenNext(logs, cursor, end, end + 1, e, cached, receipts, blocks);
      blocks := blocks + {x.block};
      receipts := AddLog(receipts, e, x);
      end := end + 1;
    }
  }

  lemma {:induction false} OfEpochConcat(a: seq<Log>, b: seq<Log>, e: nat)
    ensures OfEpoch(a + b, e) == OfEpoch(a, e) + OfEpoch(b, e)
  {
    if b == [] {
      assert a + b == a;
    } else {
      assert (a + b)[..|a + b| - 1] == a + b[..|b| - 1];
      OfEpochConcat(a, b[..|b| - 1], e);
    }
  }

  lemma {:induction false} OfEpochUniform(b: seq<Log>, e: nat, e': nat)
    requires forall i :: 0 <= i < |b| ==> b[i].epoch == e
    ensures OfEpoch(b, e') == if e == e' then b else []
  {
    if b != [] {
      OfEpochUniform(b[..|b| - 1], e, e');
      assert b == b[..|b| - 1] + [b[|b| - 1]];
    }
  }

  /** Appending a stretch of epoch `e` to logs of earlier epochs. */
  lemma Stretch(logs: seq<Log>, cursor: nat, end: nat, e: nat, e': nat)
    requires cursor <= end <= |logs| && Uniform(logs, cursor, end, e) && Earlier(logs, cursor, e)
    ensures OfEpoch(logs[..end], e') == if e' == e then logs[cursor..end] else OfEpoch(logs[..cursor], e')
  {
    assert logs[..end] == logs[..cursor] + logs[cursor..end];
    OfEpochConcat(logs[..cursor], logs[cursor..end], e');
    OfEpochUniform(logs[cursor..end], e, e');
    if e' == e {
      NoneOfEpoch(logs[..cursor], e);
    }
  }

  lemma {:induction false} NoneOfEpoch(b: seq<Log>, e: nat)
    requires forall i :: 0 <= i < |b| ==> b[i].epoch < e
    ensures OfEpoch(b, e) == []
  {
    if b != [] {
      NoneOfEpoch(b[..|b| - 1], e);
    }
  }

  /** The first and the last block of an epoch and those of its logs, in epoch order. */
  function Chosen(hashes: seq<Hash>, chosen: set<Hash>): seq<Hash> {
    if hashes == [] then []
    else
      var h := hashes[|hashes| - 1];
      Chosen(hashes[..|hashes| - 1], chosen) + if h in chosen then [h] else []
  }

  function Among(chosen: set<Hash>): Hash -> bool {
    (h: Hash) => h in chosen
  }

  /** The chosen blocks of an epoch, each once and in order. */
  lemma {:induction false} ChosenPicks(hashes: seq<Hash>, chosen: set<Hash>) returns (ps: seq<nat>)
    ensures Picked(hashes, Among(chosen), ps, Chosen(hashes, chosen))
  {
    if hashes == [] {
      ps := [];
    } else {
      var init, h := hashes[..|hashes| - 1], hashes[|hashes| - 1];
      ps := ChosenPicks(init, chosen);
      assert hashes == init + [h];
      PickedPush(init, Among(chosen), ps, Chosen(init, chosen), h);
      if h in chosen {
        ps := ps + [|init|];
      } else {
        assert Chosen(init, chosen) + [] == Chosen(init, chosen);
      }
    }
  }

  /** The blocks that the data of an epoch carries: its first and last, and those of its logs. */
  ghost predicate Carries(node: FullNode, e: nat, logs: seq<Log>, blocks: seq<Hash>) {
    var hashes := node.blocksOf(e);
    && hashes.Some? && hashes.value != []
    && blocks == Chosen(hashes.value, {hashes.value[0], hashes.value[|hashes.value| - 1]} + Blocks(logs))
  }

  /** The node answers everything that the data of an epoch with these logs needs. */
  ghost predicate Available(node: FullNode, e: nat, logs: seq<Log>) {
    var hashes := node.blocksOf(e);
    && hashes.Some? && hashes.value != []
    && node.found(hashes.value[0]) && node.found(hashes.value[|hashes.value| - 1])
    && forall i :: 0 <= i < |logs| ==> node.found(logs[i].block)
  }

  /** Epoch data for one epoch from the logs at `cursor`. */
  method QueryEpoch(node: FullNode, logs: seq<Log>, cursor: nat, e: nat) returns (data: Option<EpochData>, end: nat)
    requires cursor <= |logs|
    ensures cursor <= end <= |logs| && (Responsive(node) ==> data.Some?)
    ensures data.Some? ==> Made(node, logs[cursor..end], data.value, e) && Uniform(logs, cursor, end, e)
    ensures data.Some? && end < |logs| ==> logs[end].epoch != e
    ensures data == None ==> !Available(node, e, []) || (end < |logs| && logs[end].epoch == e && !node.found(logs[end].block))
  {
    end := cursor;
    var hashes := node.blocksOf(e);
    if hashes == None || hashes.value == [] {
      return None, end;
    }
    var first, last := hashes.value[0], hashes.value[|hashes.value| - 1];
    if !node.found(first) || !node.found(last) {
      return None, end;
    }
    var ok, receipts, cache;
    ok, end, receipts, cache := CollectLogs(node, logs, cursor, e, {first, last});
    if !ok {
      return None, end;
    }
    BlocksFound(node, logs[cursor..end], {first, last}, cache);
    var blocks := [];
    for i := 0 to |hashes.value|
      invariant blocks == Chosen(hashes.value[..i], cache)
    {
      assert hashes.value[..i + 1][..i] == hashes.value[..i];
      if hashes.value[i] in cache {
        blocks := blocks + [hashes.value[i]];
      }
    }
    assert hashes.value[..|hashes.value|] == hashes.value;
    data := Some(EpochData(e, blocks, receipts));
  }

  lemma BlocksFound(node: FullNode, logs: seq<Log>, cached: set<Hash>, blocks: set<Hash>)
    requires blocks == cached + Blocks(logs) && (forall h :: h in cached ==> node.found(h))
    requires forall h :: h in blocks ==> h in cached || node.found(h)
    ensures forall i :: 0 <= i < |logs| ==> node.found(logs[i].block)
  {
    forall i | 0 <= i < |logs| ensures node.found(logs[i].block) {
      assert logs[i] in logs && logs[i].block in Blocks(logs);
    }
  }

  ghost predicate Distributed(node: FullNode, logs: seq<Log>, res: seq<EpochData>, from: nat) {
    forall k :: 0 <= k < |res| ==> Holds(node, logs, res[k], from + k)
  }

  /** The data of epoch `e` has the receipts for its logs and its blocks. */
  ghost predicate Holds(node: FullNode, logs: seq<Log>, d: EpochData, e: nat) {
    Made(node, OfEpoch(logs, e), d, e)
  }

  /** The data of epoch `e` is made of these logs, and the node answered all it needs. */
  ghost predicate Made(node: FullNode, logs: seq<Log>, d: EpochData, e: nat) {
    d.number == e && d.receipts == Receipts(logs, e) && Carries(node, e, logs, d.blocks) && Available(node, e, logs)
  }

  lemma DistributeStep(node: FullNode, logs: seq<Log>, cursor: nat, end: nat, e: nat, res: seq<EpochData>, d: EpochData, from: nat)
    requires cursor <= end <= |logs| && from <= e && |res| == e - from
    requires Uniform(logs, cursor, end, e) && Earlier(logs, cursor, e)
    requires Distributed(node, logs[..cursor], res, from)
    requires Made(node, logs[cursor..end], d, e)
    ensures Distributed(node, logs[..end], res + [d], from)
  {
    var before, after := logs[..cursor], logs[..end];
    forall k | 0 <= k < |res| ensures Holds(node, after, res[k], from + k) {
      assert Holds(node, before, res[k], from + k);
      HoldsMore(node, logs, cursor, end, e, res[k], from + k);
    }
    HoldsMore(node, logs, cursor, end, e, d, e);
    DistributedPush(node, after, res, d, from);
  }

  lemma DistributedPush(node: FullNode, logs: seq<Log>, res: seq<EpochData>, d: EpochData, from: nat)
    requires Distributed(node, logs, res, from) && Holds(node, logs, d, from + |res|)
    ensures Distributed(node, logs, res + [d], from)
  {
    var out := res + [d];
    forall k | 0 <= k < |out| ensures Holds(node, logs, out[k], from + k) {
      if k < |res| {
        assert out[k] == res[k];
      }
    }
  }

  lemma HoldsMore(node: FullNode, logs: seq<Log>, cursor: nat, end: nat, e: nat, d: EpochData, e': nat)
    requires cursor <= end <= |logs| && Uniform(logs, cursor, end, e) && Earlier(logs, cursor, e)
    requires if e' != e then Holds(node, logs[..cursor], d, e') else Made(node, logs[cursor..end], d, e)
    ensures Holds(node, logs[..end], d, e')
  {
    Stretch(logs, cursor, end, e, e');
  }

  /** The first `cursor` logs are sorted and lie in the epochs from `from` to before `e`. */
  ghost predicate Consumed(logs: seq<Log>, cursor: nat, from: nat, e: nat) {
    && cursor <= |logs| && (forall i :: 0 <= i < cursor ==> from <= logs[i].epoch < e)
    && forall i, j :: 0 <= i < j < cursor ==> logs[i].epoch <= logs[j].epoch
  }

  /** If all logs are in order and in range, those not consumed belong to `e` or later. */
  ghost predicate Ahead(logs: seq<Log>, cursor: nat, from: nat, to: nat, e: nat) {
    Sorted(logs) && Within(logs, from, to) ==> forall i :: cursor <= i < |logs| ==> logs[i].epoch >= e
  }

  /** queryEpochData: every log ends up in the receipt of its own epoch and transaction, and in no
      other. The query succeeds if and only if the logs lie in the range in non-decreasing epoch
      order and the full node answers for every epoch and finds the blocks of its logs. */
  method QueryEpochData(node: FullNode, logs: seq<Log>, from: nat, to: nat) returns (r: Option<seq<EpochData>>)
    ensures r.Some? ==> |r.value| == (if from <= to then to - from + 1 else 0) && Distributed(node, logs, r.value, from)
    ensures r.Some? ==> Sorted(logs) && Within(logs, from, to)
    ensures r.Some? <==>
              Sorted(logs) && Within(logs, from, to) && forall e :: from <= e <= to ==> Available(node, e, OfEpoch(logs, e))
    ensures Responsive(node) ==> (r.Some? <==> Sorted(logs) && Within(logs, from, to))
  {
    var res: seq<EpochData>, cursor, e := [], 0, from;
    while e <= to
      invariant from <= e && (if from <= to then e <= to + 1 else e == from) && |res| == e - from
      invariant Consumed(logs, cursor, from, e) && Ahead(logs, cursor, from, to, e)
      invariant Distributed(node, logs[..cursor], res, from)
    {
      var data, end := QueryEpoch(node, logs, cursor, e);
      if data == None {
        Unavailable(node, logs, end, e);
        return None;
      }
      DistributeStep(node, logs, cursor, end, e, res, data.value, from);
      AheadStep(logs, cursor, end, from, to, e);
      res, cursor, e := res + [data.value], end, e + 1;
    }
    if cursor != |logs| {
      LeftOver(logs, cursor, from, to, e);
      return None;
    }
    assert logs[..cursor] == logs;
    AllAvailable(node, logs, res, from);
    r := Some(res);
  }

  lemma Unavailable(node: FullNode, logs: seq<Log>, end: nat, e: nat)
    requires !Available(node, e, []) || (end < |logs| && logs[end].epoch == e && !node.found(logs[end].block))
    ensures !Available(node, e, OfEpoch(logs, e))
  {
    if end < |logs| && logs[end].epoch == e && !node.found(logs[end].block) {
      OfEpochSelects(logs, e);
      assert logs[end] in OfEpoch(logs, e);
    }
  }

  lemma AllAvailable(node: FullNode, logs: seq<Log>, res: seq<EpochData>, from: nat)
    requires Distributed(node, logs, res, from)
    ensures forall e :: from <= e < from + |res| ==> Available(node, e, OfEpoch(logs, e))
  {
    forall e | from <= e < from + |res| ensures Available(node, e, OfEpoch(logs, e)) {
      assert Holds(node, logs, res[e - from], from + (e - from));
    }
  }

  lemma AheadStep(logs: seq<Log>, cursor: nat, end: nat, from: nat, to: nat, e: nat)
    requires cursor <= end <= |logs| && Ahead(logs, cursor, from, to, e) && (end < |logs| ==> logs[end].epoch != e)
    ensures Ahead(logs, end, from, to, e + 1)
  {
  }

  lemma LeftOver(logs: seq<Log>, cursor: nat, from: nat, to: nat, e: nat)
    requires cursor < |logs| && Ahead(logs, cursor, from, to, e) && e > to
    ensures !(Sorted(logs) && Within(logs, from, to))
  {
    var left := logs[cursor];
  }
}
