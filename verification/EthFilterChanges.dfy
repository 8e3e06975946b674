/** Parsing of polled evm space logs into lists of blocks, and merging them into the chain. */
module EthFilterChanges {
  import opened Basics
  import opened ForkTree
  import opened FilterChain
  import opened ChainGrowth
  import opened EthFilterChain

  // ---------- runs of logs with the same removed flag ----------

  /** Appends a log to the last run if that has the same removed flag, else starts a run. */
  function AddToRuns(runs: seq<seq<Log>>, x: Log): seq<seq<Log>> {
    if runs != [] && Last(runs) != [] && Last(runs)[0].removed == x.removed
    then runs[..|runs| - 1] + [Last(runs) + [x]]
    else runs + [[x]]
  }

  function Runs(logs: seq<Log>): seq<seq<Log>> {
    if logs == [] then [] else AddToRuns(Runs(logs[..|logs| - 1]), Last(logs))
  }

  ghost predicate Uniform(run: seq<Log>) {
    run != [] && forall i :: 0 <= i < |run| ==> run[i].removed == run[0].removed
  }

  ghost predicate Differ(a: seq<Log>, b: seq<Log>) {
    a != [] && b != [] && a[0].removed != b[0].removed
  }

  ghost predicate Maximal(runs: seq<seq<Log>>) {
    && (forall i :: 0 <= i < |runs| ==> Uniform(runs[i]))
    && forall i :: 0 <= i < |runs| - 1 ==> Differ(runs[i], runs[i + 1])
  }

  lemma AddFlattens(runs: seq<seq<Log>>, x: Log)
    ensures Concat(AddToRuns(runs, x)) == Concat(runs) + [x]
  {
    var after := AddToRuns(runs, x);
    if |after| == |runs| {
      assert after[..|after| - 1] == runs[..|runs| - 1];
      assert Concat(runs[..|runs| - 1]) + (Last(runs) + [x]) == Concat(runs[..|runs| - 1]) + Last(runs) + [x];
    } else {
      assert after[..|after| - 1] == runs;
    }
  }

  lemma AddKeepsMaximal(runs: seq<seq<Log>>, x: Log)
    requires Maximal(runs)
    ensures Maximal(AddToRuns(runs, x))
  {
    if runs != [] {
      assert Uniform(Last(runs));
    }
  }

  lemma {:induction false} RunsFlatten(logs: seq<Log>)
    ensures Concat(Runs(logs)) == logs
  {
    if logs != [] {
      RunsFlatten(logs[..|logs| - 1]);
      AddFlattens(Runs(logs[..|logs| - 1]), Last(logs));
      assert logs[..|logs| - 1] + [Last(logs)] == logs;
    }
  }

  lemma {:induction false} RunsMaximal(logs: seq<Log>)
    ensures Maximal(Runs(logs))
  {
    if logs != [] {
      RunsMaximal(logs[..|logs| - 1]);
      AddKeepsMaximal(Runs(logs[..|logs| - 1]), Last(logs));
    }
  }

  /** Runs cut the logs into maximal stretches with one removed flag. */
  lemma RunsAreMaximal(logs: seq<Log>)
    ensures Concat(Runs(logs)) == logs && Maximal(Runs(logs))
  {
    RunsFlatten(logs);
    RunsMaximal(logs);
  }

  // ---------- blocks of a run ----------

  /** The logs of one block. */
  function WithHash(run: seq<Log>, h: Hash): seq<Log> {
    if run == [] then []
    else if Last(run).hash == h then WithHash(run[..|run| - 1], h) + [Last(run)]
    else WithHash(run[..|run| - 1], h)
  }

  /** The block hashes of a run in order of first appearance. */
  function Hashes(run: seq<Log>): (hs: seq<Hash>)
    ensures forall i :: 0 <= i < |hs| ==> WithHash(run, hs[i]) != []
  {
    if run == [] then []
    else
      var hs := Hashes(run[..|run| - 1]);
      if Last(run).hash in hs then hs else hs + [Last(run).hash]
  }

  function HashIs(h: Hash): Log -> bool {
    (x: Log) => x.hash == h
  }

  /** The logs of one block are those at increasing positions of the run, each once. */
  lemma {:induction false} WithHashPicks(run: seq<Log>, h: Hash) returns (ps: seq<nat>)
    ensures Picked(run, HashIs(h), ps, WithHash(run, h))
  {
    if run == [] {
      ps := [];
    } else {
      var init := run[..|run| - 1];
      ps := WithHashPicks(init, h);
      assert run == init + [Last(run)];
      PickedPush(init, HashIs(h), ps, WithHash(init, h), Last(run));
      ps := if Last(run).hash == h then ps + [|init|] else ps;
    }
  }

  /** The hashes come in the order of first appearance: the first log of an earlier one is before
      every log of a later one. */
  lemma {:induction false} HashesInOrder(run: seq<Log>, i: nat, j: nat) returns (k: nat)
    requires i < j < |Hashes(run)|
    ensures k < |run| && run[k].hash == Hashes(run)[i]
    ensures forall l :: 0 <= l <= k ==> run[l].hash != Hashes(run)[j]
    decreases |run|
  {
    var init, hs := run[..|run| - 1], Hashes(run[..|run| - 1]);
    if j < |hs| {
      k := HashesInOrder(init, i, j);
    } else {
      k := FirstLog(init, hs[i]);
      NewHash(init, Last(run).hash);
    }
  }

  lemma NewHash(run: seq<Log>, h: Hash)
    requires h !in Hashes(run)
    ensures forall l :: 0 <= l < |run| ==> run[l].hash != h
  {
    HashesAreDistinct(run);
    assert forall l :: 0 <= l < |run| ==> run[l] in run;
  }

  lemma FirstLog(run: seq<Log>, h: Hash) returns (k: nat)
    requires h in Hashes(run)
    ensures k < |run| && run[k].hash == h
  {
    var i :| 0 <= i < |Hashes(run)| && Hashes(run)[i] == h;
    WithHashMembers(run, h);
    var x := WithHash(run, h)[0];
    assert x in WithHash(run, h);
    k :| 0 <= k < |run| && run[k] == x;
  }

  lemma {:induction false} WithHashMembers(run: seq<Log>, h: Hash)
    ensures forall x :: x in WithHash(run, h) <==> x in run && x.hash == h
  {
    if run != [] {
      WithHashMembers(run[..|run| - 1], h);
      assert run == run[..|run| - 1] + [Last(run)];
    }
  }

  lemma {:induction false} HashesAreDistinct(run: seq<Log>)
    ensures forall x :: x in run ==> x.hash in Hashes(run)
    ensures forall i, j :: 0 <= i < j < |Hashes(run)| ==> Hashes(run)[i] != Hashes(run)[j]
  {
    if run != [] {
      HashesAreDistinct(run[..|run| - 1]);
      assert run == run[..|run| - 1] + [Last(run)];
    }
  }

  function BlockOf(logs: seq<Log>): Body
    requires logs != []
  {
    EthBlock(logs[0].number, logs[0].hash, logs[0].removed, logs)
  }

  function Blocks(run: seq<Log>): seq<Body> {
    var hs := Hashes(run);
    seq(|hs|, i requires 0 <= i < |hs| => BlockOf(WithHash(run, hs[i])))
  }

  lemma BlockAt(run: seq<Log>, k: nat)
    requires k < |Blocks(run)|
    ensures k < |Hashes(run)| && WithHash(run, Hashes(run)[k]) != []
    ensures Blocks(run)[k] == BlockOf(WithHash(run, Hashes(run)[k])) && Blocks(run)[k].hash == Hashes(run)[k]
  {
    WithHashMembers(run, Hashes(run)[k]);
    assert WithHash(run, Hashes(run)[k])[0] in WithHash(run, Hashes(run)[k]);
  }

  /** A block has exactly the logs of the run that carry its hash, each once and in order, and the
      number and the flag of the first of them. */
  lemma BlockPicks(run: seq<Log>, i: nat) returns (ps: seq<nat>)
    requires i < |Blocks(run)|
    ensures Picked(run, HashIs(Blocks(run)[i].hash), ps, Blocks(run)[i].logs) && ps != []
    ensures Blocks(run)[i].number == run[ps[0]].number && Blocks(run)[i].reverted == run[ps[0]].removed
  {
    BlockAt(run, i);
    ps := WithHashPicks(run, Hashes(run)[i]);
  }

  /** The block has the logs of the run with its hash, each once and in their order. */
  ghost predicate Holds(run: seq<Log>, b: Body) {
    b.EthBlock? && exists ps :: Picked(run, HashIs(b.hash), ps, b.logs)
  }

  lemma BlockHolds(run: seq<Log>, i: nat, x: Log)
    requires i < |Blocks(run)| && x in run
    ensures Holds(run, Blocks(run)[i]) && (x in Blocks(run)[i].logs <==> Blocks(run)[i].hash == x.hash)
  {
    BlockAt(run, i);
    WithHashMembers(run, Hashes(run)[i]);
    var ps := BlockPicks(run, i);
  }

  /** Each log of a run is in exactly one of its blocks, the one of its hash, and each block has
      only logs of the run, each once and in their original order. */
  lemma BlocksPartition(run: seq<Log>, x: Log)
    requires x in run
    ensures exists i :: 0 <= i < |Blocks(run)| && x in Blocks(run)[i].logs
    ensures forall i :: 0 <= i < |Blocks(run)| ==>
              Holds(run, Blocks(run)[i]) && (x in Blocks(run)[i].logs <==> Blocks(run)[i].hash == x.hash)
    ensures forall i, j :: 0 <= i < j < |Blocks(run)| ==> Blocks(run)[i].hash != Blocks(run)[j].hash
  {
    var bs := Blocks(run);
    HashesAreDistinct(run);
    forall i | 0 <= i < |bs|
      ensures bs[i].hash == Hashes(run)[i] && Holds(run, bs[i]) && (x in bs[i].logs <==> bs[i].hash == x.hash)
    {
      BlockAt(run, i);
      BlockHolds(run, i, x);
    }
    var k :| 0 <= k < |Hashes(run)| && Hashes(run)[k] == x.hash;
    assert x in bs[k].logs;
  }

  /** Blocks come in the order in which the run first names them: some log of an earlier block is
      before all logs of a later one. */
  lemma BlocksInOrder(run: seq<Log>, i: nat, j: nat) returns (k: nat)
    requires i < j < |Blocks(run)|
    ensures k < |run| && run[k].hash == Blocks(run)[i].hash
    ensures forall l :: 0 <= l <= k ==> run[l].hash != Blocks(run)[j].hash
  {
    BlockAt(run, i);
    BlockAt(run, j);
    k := HashesInOrder(run, i, j);
  }

  ghost predicate Hashed(logs: seq<Log>) {
    forall x :: x in logs ==> x.hash != ""
  }

  function ListsOf(logs: seq<Log>): (lists: seq<seq<Body>>)
  {
    var runs := Runs(logs);
    seq(|runs|, i requires 0 <= i < |runs| => Blocks(runs[i]))
  }

  lemma RunMembers(logs: seq<Log>, i: nat, x: Log)
    requires i < |Runs(logs)| && x in Runs(logs)[i]
    ensures x in logs
  {
    RunsAreMaximal(logs);
    FlattenMembers(Runs(logs), i, x);
  }

  lemma {:induction false} FlattenMembers<T>(ss: seq<seq<T>>, i: nat, x: T)
    requires i < |ss| && x in ss[i]
    ensures x in Concat(ss)
  {
    if i < |ss| - 1 {
      FlattenMembers(ss[..|ss| - 1], i, x);
    }
  }

  /** Parsed lists are what merging asks for: non-empty, uniform in the removed flag, hashed. */
  lemma ListsAreParsed(logs: seq<Log>)
    requires Hashed(logs)
    ensures ParsedLists(ListsOf(logs))
  {
    var runs := Runs(logs);
    RunsAreMaximal(logs);
    forall i | 0 <= i < |runs|
      ensures Blocks(runs[i]) != [] && EthBlocks(Blocks(runs[i]), Blocks(runs[i])[0].Reorged())
    {
      var bs := Blocks(runs[i]);
      assert Uniform(runs[i]) && runs[i][0] in runs[i];
      HashesAreDistinct(runs[i]);
      forall k | 0 <= k < |bs|
        ensures bs[k].EthBlock? && bs[k].hash != "" && bs[k].reverted == runs[i][0].removed
      {
        BlockAt(runs[i], k);
        WithHashMembers(runs[i], Hashes(runs[i])[k]);
        var first := WithHash(runs[i], Hashes(runs[i])[k])[0];
        assert first in WithHash(runs[i], Hashes(runs[i])[k]);
        RunMembers(logs, i, first);
      }
    }
  }

  // ---------- parsing and merging ----------

  /** Collects the logs of one run by block hash. */
  method CollectByHash(run: seq<Log>) returns (hashes: seq<Hash>, blockLogs: map<Hash, seq<Log>>)
    ensures hashes == Hashes(run)
    ensures forall h :: h in hashes ==> h in blockLogs && blockLogs[h] == WithHash(run, h)
  {
    hashes, blockLogs := [], map[];
    for j := 0 to |run|
      invariant hashes == Hashes(run[..j])
      invariant forall h :: h in blockLogs <==> h in hashes
      invariant forall h :: h in hashes ==> blockLogs[h] == WithHash(run[..j], h)
    {
      assert run[..j + 1][..j] == run[..j] && Last(run[..j + 1]) == run[j];
      var x := run[j];
      if x.hash !in blockLogs {
        NoneBefore(run[..j], x.hash);
        hashes := hashes + [x.hash];
        blockLogs := blockLogs[x.hash := []];
      }
      blockLogs := blockLogs[x.hash := blockLogs[x.hash] + [x]];
    }
    assert run[..|run|] == run;
  }

  method BuildBlocks(hashes: seq<Hash>, blockLogs: map<Hash, seq<Log>>) returns (bs: seq<Body>)
    requires forall i :: 0 <= i < |hashes| ==> hashes[i] in blockLogs && blockLogs[hashes[i]] != []
    ensures |bs| == |hashes| && forall i :: 0 <= i < |hashes| ==> bs[i] == BlockOf(blockLogs[hashes[i]])
  {
    bs := [];
    for k := 0 to |hashes|
      invariant |bs| == k && forall i :: 0 <= i < k ==> bs[i] == BlockOf(blockLogs[hashes[i]])
    {
      bs := bs + [BlockOf(blockLogs[hashes[k]])];
    }
  }

  /** Groups the logs of one run into blocks. */
  method GroupBlocks(run: seq<Log>) returns (bs: seq<Body>)
    ensures bs == Blocks(run)
  {
    var hashes, blockLogs := CollectByHash(run);
    forall k | 0 <= k < |hashes|
      ensures hashes[k] in blockLogs && blockLogs[hashes[k]] != []
      ensures BlockOf(blockLogs[hashes[k]]) == Blocks(run)[k]
    {
      BlockAt(run, k);
    }
    bs := BuildBlocks(hashes, blockLogs);
  }

  lemma {:induction false} NoneBefore(run: seq<Log>, h: Hash)
    requires h !in Hashes(run)
    ensures WithHash(run, h) == []
  {
    if run != [] {
      NoneBefore(run[..|run| - 1], h);
    }
  }

  lemma RunsStep(logs: seq<Log>, i: nat)
    requires i < |logs|
    ensures Runs(logs[..i + 1]) == AddToRuns(Runs(logs[..i]), logs[i])
  {
    assert logs[..i + 1][..i] == logs[..i] && Last(logs[..i + 1]) == logs[i];
  }

  /** Splits the logs into runs. */
  method SplitRuns(logs: seq<Log>) returns (runs: seq<seq<Log>>)
    requires logs != []
    ensures runs == Runs(logs)
  {
    var done: seq<seq<Log>>, tmp: seq<Log> := [], [];
    for i := 0 to |logs|
      invariant i == 0 ==> done == [] && tmp == []
      invariant i > 0 ==> tmp != [] && Runs(logs[..i]) == done + [tmp]
    {
      RunsStep(logs, i);
      if i == 0 {
        assert logs[..i] == [] && Runs(logs[..i]) == [];
        assert Runs(logs[..i + 1]) == [[logs[i]]] && tmp + [logs[i]] == [logs[i]];
      }
      assert (done + [tmp])[..|done|] == done;
      if tmp == [] || tmp[0].removed == logs[i].removed {
        tmp := tmp + [logs[i]];
      } else {
        done := done + [tmp];
        tmp := [logs[i]];
      }
    }
    runs := done + [tmp];
    assert logs[..|logs|] == logs;
  }

  method ParseChanges(logs: seq<Log>) returns (lists: seq<seq<Body>>)
    ensures lists == ListsOf(logs)
  {
    lists := [];
    if logs == [] {
      return;
    }
    var runs := SplitRuns(logs);
    lists := GroupRuns(runs);
  }

  method GroupRuns(runs: seq<seq<Log>>) returns (lists: seq<seq<Body>>)
    ensures |lists| == |runs| && forall i :: 0 <= i < |runs| ==> lists[i] == Blocks(runs[i])
  {
    lists := [];
    for i := 0 to |runs|
      invariant |lists| == i && forall j :: 0 <= j < i ==> lists[j] == Blocks(runs[j])
    {
      var bs := GroupBlocks(runs[i]);
      lists := lists + [bs];
    }
  }

  /** The tree after merging a batch of logs, if that succeeds. */
  function Merged(t: Tree, logs: seq<Log>): Option<Tree> {
    MergeLists(t, ListsOf(logs))
  }

  method Merge(fc: FilterChain, logs: seq<Log>) returns (ok: bool)
    requires fc.Valid() && Stable(fc.tree) && Hashed(logs)
    modifies fc
    ensures ok <==> Merged(old(fc.tree), logs).Some?
    ensures ok ==> fc.Valid() && Stable(fc.tree) && Grows(old(fc.tree), fc.tree)
                   && Some(fc.tree) == Merged(old(fc.tree), logs)
  {
    var lists := ParseChanges(logs);
    ListsAreParsed(logs);
    ok := MergeParsed(fc, lists);
    if ok {
      MergeKeeps(old(fc.tree), lists);
    }
  }

  method MergeParsed(fc: FilterChain, lists: seq<seq<Body>>) returns (ok: bool)
    requires fc.Valid() && Stable(fc.tree) && ParsedLists(lists)
    modifies fc
    ensures ok <==> MergeLists(old(fc.tree), lists).Some?
    ensures ok ==> fc.Valid() && Some(fc.tree) == MergeLists(old(fc.tree), lists)
  {
    for i := 0 to |lists|
      invariant fc.Valid() && Stable(fc.tree)
      invariant MergeLists(fc.tree, lists[i..]) == MergeLists(old(fc.tree), lists)
    {
      assert lists[i..][0] == lists[i] && lists[i..][1..] == lists[i + 1..];
      ok := MergeOne(fc, lists[i]);
      if !ok {
        return;
      }
    }
    ok := true;
  }

  method MergeOne(fc: FilterChain, bs: seq<Body>) returns (ok: bool)
    requires fc.Valid() && Stable(fc.tree) && bs != [] && EthBlocks(bs, bs[0].Reorged())
    modifies fc
    ensures ok <==> MergeList(old(fc.tree), bs).Some?
    ensures ok ==> fc.Valid() && Stable(fc.tree) && Some(fc.tree) == MergeList(old(fc.tree), bs)
  {
    if bs[0].Reorged() {
      ok := Reorg(fc, bs);
      if ok {
        RevertKeeps(old(fc.tree), |old(fc.tree).canon|, bs);
      }
    } else {
      StableIsAlive(fc.tree);
      ok := ExtendChain(fc, bs);
      if ok {
        ExtendKeeps(old(fc.tree), bs);
      }
    }
  }
}
