/** Safety of polling over whole runs of merges: what a client was shown plus what it polls
    is the canonical chain.
 */
module EthReplay {
  import opened Basics
  import opened ForkTree
  import opened FilterChain
  import opened ChainGrowth
  import opened EthFilterChain
  import opened EthFilterChanges
  import opened FilterWorker

  /** The tree after merging batch after batch, if all merges succeed. */
  function Run(t: Tree, batches: seq<seq<Log>>): Option<Tree>
    decreases |batches|
  {
    if batches == [] then Some(t)
    else
      match Merged(t, batches[0])
      case None => None
      case Some(u) => Run(u, batches[1..])
  }

  ghost predicate AllHashed(batches: seq<seq<Log>>) {
    forall i :: 0 <= i < |batches| ==> Hashed(batches[i])
  }

  /** Every reachable tree is stable, and recorded paths only grew at the root end. */
  lemma {:induction false} RunKeeps(t: Tree, batches: seq<seq<Log>>)
    requires Stable(t) && AllHashed(batches) && Run(t, batches).Some?
    ensures Stable(Run(t, batches).value) && Grows(t, Run(t, batches).value)
    decreases |batches|
  {
    if batches == [] {
      SamePathsGrow(t, t);
    } else {
      ListsAreParsed(batches[0]);
      MergeKeeps(t, ListsOf(batches[0]));
      var u := Merged(t, batches[0]).value;
      RunKeeps(u, batches[1..]);
      GrowsTransitive(t, u, Run(u, batches[1..]).value);
    }
  }

  /** A client was given the tail of the chain when its view was `t.canon`. After any run of
      merges its view is still the end of the recorded path of that block: only blocks unseen
      at the time can have been put before it. Replaying the poll on this path gives the
      canonical chain iff the block is reorged or has kept its height. */
  lemma ReplayAfterRun(t: Tree, batches: seq<seq<Log>>)
    requires Stable(t) && t.canon != [] && Last(t.canon) in t.body
    requires AllHashed(batches) && Run(t, batches).Some?
    ensures var u, cursor := Run(t, batches).value, t.body[Last(t.canon)].Position();
            && Stable(u) && KnownPath(u, cursor.hash) && GrownView(t, u.path[cursor.hash])
            && (Replay(u.path[cursor.hash], Polled(Visits(u, u.path[cursor.hash]), cursor)) == Some(u.canon)
                <==> u.body[cursor.hash].Reorged() || u.body[cursor.hash].number == cursor.height)
  {
    var u, cursor := Run(t, batches).value, t.body[Last(t.canon)].Position();
    RunKeeps(t, batches);
    ViewAfterRun(t, u);
    PollReplaysIff(u, cursor);
  }

  lemma ViewAfterRun(t: Tree, u: Tree)
    requires WellFormed(t) && t.canon != [] && WellFormed(u) && Grows(t, u)
    ensures KnownPath(u, Last(t.canon)) && GrownView(t, u.path[Last(t.canon)])
  {
    var h := Last(t.canon);
    assert PrefixRecorded(t, t.canon, |t.canon| - 1);
    assert t.canon[..|t.canon|] == t.canon;
    assert GrownBy(t, u, h);
    Predecessor(u, h);
    KnownBodies(u, u.path[h]);
  }

  /** `path` is the view `t.canon` behind blocks that `t` had not seen. */
  ghost predicate GrownView(t: Tree, path: seq<Hash>) {
    && |t.canon| <= |path|
    && path[|path| - |t.canon|..] == t.canon
    && forall i :: 0 <= i < |path| - |t.canon| ==> path[i] !in t.path
  }

  // ---------- when the hash of a block determines its number ----------

  ghost predicate Numbered(t: Tree, numberOf: Hash -> nat) {
    forall h :: h in t.body ==> t.body[h].number == numberOf(h)
  }

  ghost predicate BodiesNumbered(bs: seq<Body>, numberOf: Hash -> nat) {
    forall i :: 0 <= i < |bs| ==> bs[i].number == numberOf(bs[i].hash)
  }

  ghost predicate LogsNumbered(logs: seq<Log>, numberOf: Hash -> nat) {
    forall x :: x in logs ==> x.number == numberOf(x.hash)
  }

  lemma {:induction false} RevertNumbered(t: Tree, keep: nat, bs: seq<Body>, numberOf: Hash -> nat)
    requires Numbered(t, numberOf) && BodiesNumbered(bs, numberOf) && keep <= |t.canon|
    ensures Revert(t, keep, bs).Some? ==> Numbered(Revert(t, keep, bs).value, numberOf)
    decreases |bs|
  {
    if bs != [] && RevertOne(t, keep, bs[0]).Some? {
      var (u, k) := RevertOne(t, keep, bs[0]).value;
      RevertNumbered(u, k, bs[1..], numberOf);
    }
  }

  lemma {:induction false} ExtendNumbered(t: Tree, bs: seq<Body>, numberOf: Hash -> nat)
    requires Numbered(t, numberOf) && BodiesNumbered(bs, numberOf)
    ensures Extend(t, bs).Some? ==> Numbered(Extend(t, bs).value, numberOf)
    decreases |bs|
  {
    if bs != [] && ExtendOne(t, bs[0]).Some? {
      ExtendNumbered(PushBack(t, bs[0]), bs[1..], numberOf);
    }
  }

  lemma {:induction false} MergeNumbered(t: Tree, lists: seq<seq<Body>>, numberOf: Hash -> nat)
    requires Numbered(t, numberOf) && forall i :: 0 <= i < |lists| ==> BodiesNumbered(lists[i], numberOf)
    ensures MergeLists(t, lists).Some? ==> Numbered(MergeLists(t, lists).value, numberOf)
    decreases |lists|
  {
    if lists != [] {
      RevertNumbered(t, |t.canon|, lists[0], numberOf);
      ExtendNumbered(t, lists[0], numberOf);
      if MergeList(t, lists[0]).Some? {
        MergeNumbered(MergeList(t, lists[0]).value, lists[1..], numberOf);
      }
    }
  }

  lemma ListsNumbered(logs: seq<Log>, numberOf: Hash -> nat)
    requires LogsNumbered(logs, numberOf)
    ensures forall i :: 0 <= i < |ListsOf(logs)| ==> BodiesNumbered(ListsOf(logs)[i], numberOf)
  {
    forall i | 0 <= i < |ListsOf(logs)| ensures BodiesNumbered(ListsOf(logs)[i], numberOf) {
      var run := Runs(logs)[i];
      forall k | 0 <= k < |Blocks(run)| ensures Blocks(run)[k].number == numberOf(Blocks(run)[k].hash) {
        BlockAt(run, k);
        WithHashMembers(run, Hashes(run)[k]);
        assert WithHash(run, Hashes(run)[k])[0] in WithHash(run, Hashes(run)[k]);
        RunMembers(logs, i, WithHash(run, Hashes(run)[k])[0]);
      }
    }
  }

  lemma {:induction false} RunNumbered(t: Tree, batches: seq<seq<Log>>, numberOf: Hash -> nat)
    requires Numbered(t, numberOf) && forall i :: 0 <= i < |batches| ==> LogsNumbered(batches[i], numberOf)
    ensures Run(t, batches).Some? ==> Numbered(Run(t, batches).value, numberOf)
    decreases |batches|
  {
    if batches != [] && Merged(t, batches[0]).Some? {
      ListsNumbered(batches[0], numberOf);
      MergeNumbered(t, ListsOf(batches[0]), numberOf);
      RunNumbered(Merged(t, batches[0]).value, batches[1..], numberOf);
    }
  }

  /** On the recorded path of its block, a client that replays its poll always arrives at the
      canonical chain, when block hashes determine block numbers. */
  lemma RecordedPathFollowsCanon(t: Tree, batches: seq<seq<Log>>, numberOf: Hash -> nat)
    requires Stable(t) && t.canon != [] && Last(t.canon) in t.body
    requires AllHashed(batches) && Run(t, batches).Some?
    requires Numbered(t, numberOf) && forall i :: 0 <= i < |batches| ==> LogsNumbered(batches[i], numberOf)
    ensures var u, cursor := Run(t, batches).value, t.body[Last(t.canon)].Position();
            && Stable(u) && KnownPath(u, cursor.hash) && GrownView(t, u.path[cursor.hash])
            && (u.body[cursor.hash].Reorged() || u.body[cursor.hash].number == cursor.height)
            && Replay(u.path[cursor.hash], Polled(Visits(u, u.path[cursor.hash]), cursor)) == Some(u.canon)
  {
    ReplayAfterRun(t, batches);
    RunNumbered(t, batches, numberOf);
  }

  // ---------- the client's own view ----------

  /** Some batch removes blocks beyond the front of a chain that starts at `root`: blocks that were
      never seen are put before it. */
  predicate RunFronts(t: Tree, batches: seq<seq<Log>>, root: Hash)
    decreases |batches|
  {
    batches != []
    && (Fronts(t, ListsOf(batches[0]), root)
        || (Merged(t, batches[0]).Some? && RunFronts(Merged(t, batches[0]).value, batches[1..], root)))
  }

  /** A path that grew at the root never comes back. */
  lemma PathGrowth(t: Tree, u: Tree, v: Tree, h: Hash)
    requires Grows(t, u) && Grows(u, v) && h in t.path
    ensures h in u.path && h in v.path
    ensures v.path[h] == t.path[h] <==> u.path[h] == t.path[h] && v.path[h] == u.path[h]
  {
    assert GrownBy(t, u, h) && GrownBy(u, v, h);
    if |v.path[h]| == |t.path[h]| {
      assert u.path[h][0..] == u.path[h] && v.path[h][0..] == v.path[h];
    }
  }

  /** Over a run a path stays as it is exactly if no batch puts blocks before it. */
  lemma {:induction false} RunPathKeptIff(t: Tree, batches: seq<seq<Log>>, v: Tree, h: Hash, root: Hash)
    requires Stable(t) && AllHashed(batches) && Run(t, batches) == Some(v)
    requires h in t.path && t.path[h] != [] && root == t.path[h][0]
    ensures h in v.path && (v.path[h] == t.path[h] <==> !RunFronts(t, batches, root))
    decreases |batches|
  {
    if batches != [] {
      var u := Merged(t, batches[0]).value;
      MergedPath(t, batches[0], u, h);
      RunKeeps(u, batches[1..]);
      PathGrowth(t, u, v, h);
      if u.path[h] == t.path[h] {
        RunPathKeptIff(u, batches[1..], v, h, root);
      }
    }
  }

  lemma MergedPath(t: Tree, logs: seq<Log>, u: Tree, h: Hash)
    requires Stable(t) && Hashed(logs) && Merged(t, logs) == Some(u) && h in t.path
    ensures Stable(u) && Grows(t, u) && h in u.path && t.path[h] != []
    ensures u.path[h] == t.path[h] <==> !Fronts(t, ListsOf(logs), t.path[h][0])
  {
    ListsAreParsed(logs);
    MergeKeeps(t, ListsOf(logs));
    MergePathKeptIff(t, ListsOf(logs), h);
  }

  /** Replaying a poll on the view, if that is the end of the recorded path. */
  lemma PollOnViewIff(u: Tree, cursor: Cursor, view: seq<Hash>, k: nat)
    requires Stable(u) && KnownPath(u, cursor.hash) && k <= |u.path[cursor.hash]| && view == u.path[cursor.hash][k..]
    requires u.body[cursor.hash].Reorged() || u.body[cursor.hash].number == cursor.height
    ensures Replay(view, Polled(Visits(u, u.path[cursor.hash]), cursor)) == Some(u.canon) <==> k == 0
  {
    var p := u.path[cursor.hash];
    Predecessor(u, cursor.hash);
    PollReportsChanges(u, cursor);
    NothingRepeated(u, cursor, p);
    ReplayOnViewIff(u, p, k);
  }

  lemma NothingRepeated(u: Tree, cursor: Cursor, p: seq<Hash>)
    requires KnownPath(u, cursor.hash) && p == u.path[cursor.hash] && cursor.hash in u.body
    requires u.body[cursor.hash].Reorged() || u.body[cursor.hash].number == cursor.height
    ensures Repeated(u, cursor) + Changes(u, p) == Changes(u, p)
  {
  }

  /** The replay theorem. A client held the canonical chain `t.canon` when it was given its cursor.
      After any run of merges, it arrives at the new canonical chain by replaying its poll on what it
      held if and only if no batch put a block that was never seen before the first block it held. */
  lemma ClientsFollowCanonIff(t: Tree, batches: seq<seq<Log>>, numberOf: Hash -> nat)
    requires Stable(t) && t.canon != [] && Last(t.canon) in t.body
    requires AllHashed(batches) && Run(t, batches).Some?
    requires Numbered(t, numberOf) && forall i :: 0 <= i < |batches| ==> LogsNumbered(batches[i], numberOf)
    ensures var u, cursor := Run(t, batches).value, t.body[Last(t.canon)].Position();
            && KnownPath(u, cursor.hash)
            && (Replay(t.canon, Polled(Visits(u, u.path[cursor.hash]), cursor)) == Some(u.canon)
                <==> !RunFronts(t, batches, t.canon[0]))
  {
    var u, cursor := Run(t, batches).value, t.body[Last(t.canon)].Position();
    RecordedPathFollowsCanon(t, batches, numberOf);
    ViewIsWholePathIff(t, batches, u);
    PollOnViewIff(u, cursor, t.canon, |u.path[cursor.hash]| - |t.canon|);
  }

  lemma ViewIsWholePathIff(t: Tree, batches: seq<seq<Log>>, u: Tree)
    requires Stable(t) && t.canon != [] && Last(t.canon) in t.body
    requires AllHashed(batches) && Run(t, batches) == Some(u)
    requires Last(t.canon) in u.path && GrownView(t, u.path[Last(t.canon)])
    ensures |u.path[Last(t.canon)]| == |t.canon| <==> !RunFronts(t, batches, t.canon[0])
  {
    var h := Last(t.canon);
    assert PrefixRecorded(t, t.canon, |t.canon| - 1) && t.canon[..|t.canon|] == t.canon;
    RunPathKeptIff(t, batches, u, h, t.canon[0]);
    assert |u.path[h]| == |t.canon| ==> u.path[h][0..] == u.path[h];
  }

  // ---------- a view that cannot be replayed ----------

  /** The chain of the one block `a`, at height 1. */
  function Single(a: Hash): Tree {
    PushBack(EMPTY, EthBlock(1, a, false, []))
  }

  /** Block `a` is removed, and then a block `b` at height 0. */
  function RemoveTwo(a: Hash, b: Hash): seq<Log> {
    [Log(1, a, true, 0), Log(0, b, true, 1)]
  }

  function RemovedBlocks(a: Hash, b: Hash): seq<Body> {
    [EthBlock(1, a, true, [Log(1, a, true, 0)]), EthBlock(0, b, true, [Log(0, b, true, 1)])]
  }

  /** `b` was put before `a`, and nothing is canonical. */
  function Uprooted(a: Hash, b: Hash): Tree {
    var bs := RemovedBlocks(a, b);
    Tree(map[a := bs[0], b := bs[1]], map[a := [b, a], b := [b]], [])
  }

  lemma SingleStable(a: Hash)
    requires a != ""
    ensures Stable(Single(a)) && Single(a).canon == [a] && a in Single(a).body
  {
    PushBackStable(EMPTY, EthBlock(1, a, false, []));
  }

  lemma RemoveTwoParses(a: Hash, b: Hash)
    requires a != b
    ensures ListsOf(RemoveTwo(a, b)) == [RemovedBlocks(a, b)]
  {
    var x, y := Log(1, a, true, 0), Log(0, b, true, 1);
    TwoLogsOneRun(x, y);
    TwoLogsTwoBlocks(x, y);
  }

  lemma TwoLogsOneRun(x: Log, y: Log)
    requires x.removed == y.removed
    ensures Runs([x, y]) == [[x, y]]
  {
    assert [x, y][..1] == [x] && [x][..0] == [];
    assert Runs([x]) == [[x]];
    assert [[x]][..0] == [] && [x] + [y] == [x, y];
  }

  lemma TwoLogsTwoBlocks(x: Log, y: Log)
    requires x.hash != y.hash
    ensures Blocks([x, y]) == [BlockOf([x]), BlockOf([y])]
  {
    assert [x, y][..1] == [x] && [x][..0] == [];
    assert Hashes([x]) == [x.hash];
    assert Hashes([x, y]) == [x.hash, y.hash];
    assert WithHash([x], x.hash) == [x] && WithHash([x], y.hash) == [];
    assert WithHash([x, y], x.hash) == [x] && WithHash([x, y], y.hash) == [y];
  }

  lemma UprootedShape(a: Hash, b: Hash)
    requires a != b
    ensures var bs := RemovedBlocks(a, b);
            Rewind(PushFront(SetBody(Single(a), a, bs[0]), bs[1]), 0) == Uprooted(a, b)
  {
    var bs := RemovedBlocks(a, b);
    var next := SetBody(Single(a), a, bs[0]);
    var last := PushFront(next, bs[1]);
    assert EMPTY.canon + [a] == [a];
    assert next.path == map[a := [a]] && next.canon == [a] && UnderFront(next, a);
    assert [b] + [a] == [b, a];
    assert last.path == map[a := [b, a], b := [b]];
    assert last.body == map[a := bs[0], b := bs[1]];
    assert last.canon[..0] == [];
  }

  lemma RemoveTwoReverts(a: Hash, b: Hash)
    requires a != b
    ensures |Single(a).canon| == 1 && Revert(Single(a), 1, RemovedBlocks(a, b)) == Some(Uprooted(a, b))
  {
    var t, bs := Single(a), RemovedBlocks(a, b);
    var next := SetBody(t, a, bs[0]);
    var last := PushFront(next, bs[1]);
    UprootedShape(a, b);
    assert RevertOne(t, 1, bs[0]) == Some((next, 0));
    assert RevertOne(next, 0, bs[1]) == Some((last, 0));
    assert bs[1..] == [bs[1]] && [bs[1]][1..] == [];
    assert Revert(last, 0, []) == Some(Rewind(last, 0));
    assert Revert(next, 0, [bs[1]]) == Some(Rewind(last, 0));
  }

  lemma RemoveTwoMerges(a: Hash, b: Hash)
    requires a != b
    ensures Merged(Single(a), RemoveTwo(a, b)) == Some(Uprooted(a, b))
  {
    RemoveTwoParses(a, b);
    RemoveTwoReverts(a, b);
    MergeOneList(Single(a), RemovedBlocks(a, b));
  }

  lemma MergeOneList(t: Tree, bs: seq<Body>)
    ensures MergeLists(t, [bs]) == MergeList(t, bs)
  {
    assert [bs][0] == bs && |[bs][1..]| == 0;
  }

  /** The client that held `a` is told to drop `a` and then `b`, which it never had. */
  lemma UnseenFrontBreaksReplay(a: Hash, b: Hash)
    requires a != "" && b != "" && a != b
    ensures Stable(Single(a)) && Single(a).canon == [a] && Hashed(RemoveTwo(a, b))
    ensures Run(Single(a), [RemoveTwo(a, b)]) == Some(Uprooted(a, b)) && RunFronts(Single(a), [RemoveTwo(a, b)], a)
    ensures var u, cursor := Uprooted(a, b), Cursor(1, a);
            && KnownPath(u, a) && Polled(Visits(u, u.path[a]), cursor) == RemovedBlocks(a, b)
            && Replay([a], RemovedBlocks(a, b)) == None
  {
    var u, bs := Uprooted(a, b), RemovedBlocks(a, b);
    SingleStable(a);
    RemoveTwoMerges(a, b);
    RemoveTwoParses(a, b);
    var batches: seq<seq<Log>> := [RemoveTwo(a, b)];
    assert batches[1..] == [];
    ListsAreParsed(RemoveTwo(a, b));
    MergeKeeps(Single(a), ListsOf(RemoveTwo(a, b)));
    PollReportsChanges(u, Cursor(1, a));
    UprootedChanges(a, b);
    assert bs[1..] == [bs[1]] && [a][..0] == [];
  }

  lemma UprootedChanges(a: Hash, b: Hash)
    requires a != b
    ensures Changes(Uprooted(a, b), [b, a]) == RemovedBlocks(a, b)
  {
    assert [b, a][0..] == [b, a];
    assert Reverse([b, a]) == [a, b];
  }

  // ---------- sessions ----------

  /** Merging keeps the session valid: every stored cursor stays nil or indexed. */
  method MergePolled(s: Session, logs: seq<Log>) returns (ok: bool)
    requires s.Valid() && Hashed(logs)
    modifies s.chain
    ensures ok <==> Merged(old(s.chain.tree), logs).Some?
    ensures ok ==> s.Valid() && Some(s.chain.tree) == Merged(old(s.chain.tree), logs)
  {
    ok := Merge(s.chain, logs);
  }
}
