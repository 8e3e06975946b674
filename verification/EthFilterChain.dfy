/** The evm space filter chain: polled logs are grouped into blocks, removed blocks revert
    the tail of the chain one by one, other blocks extend it.
 */
module EthFilterChain {
  import opened Basics
  import opened ForkTree
  import opened Links
  import opened FilterChain
  import opened ChainGrowth

  ghost predicate EthBlocks(bs: seq<Body>, reverted: bool) {
    forall i :: 0 <= i < |bs| ==> bs[i].EthBlock? && bs[i].hash != "" && bs[i].reverted == reverted
  }

  // ---------- the effect of a merge on the fork tree ----------

  /** Reverting one block while `keep` canonical blocks are still in place: the block must be
      the last of these, or, once none is left, one that was never seen, which then turns out
      to precede the whole chain. */
  function RevertOne(t: Tree, keep: nat, b: Body): Option<(Tree, nat)>
    requires keep <= |t.canon|
  {
    if keep == 0 then
      if b.hash in t.body then None else Some((PushFront(t, b), 0))
    else if t.canon[keep - 1] in t.body && t.body[t.canon[keep - 1]].Position() == b.Position() then
      Some((SetBody(t, b.hash, b), keep - 1))
    else None
  }

  function Revert(t: Tree, keep: nat, bs: seq<Body>): Option<Tree>
    requires keep <= |t.canon|
    decreases |bs|
  {
    if bs == [] then Some(Rewind(t, keep))
    else
      match RevertOne(t, keep, bs[0])
      case None => None
      case Some((t1, k)) => Revert(t1, k, bs[1..])
  }

  function MergeList(t: Tree, bs: seq<Body>): Option<Tree> {
    if bs != [] && bs[0].Reorged() then Revert(t, |t.canon|, bs) else Extend(t, bs)
  }

  function MergeLists(t: Tree, lists: seq<seq<Body>>): Option<Tree>
    decreases |lists|
  {
    if lists == [] then Some(t)
    else
      match MergeList(t, lists[0])
      case None => None
      case Some(t1) => MergeLists(t1, lists[1..])
  }

  /** Merging lists one after the other, in order. */
  lemma {:induction false} MergeListsConcat(t: Tree, a: seq<seq<Body>>, b: seq<seq<Body>>)
    ensures MergeLists(t, a + b) == match MergeLists(t, a) case None => None case Some(u) => MergeLists(u, b)
    decreases |a|
  {
    if a == [] {
      assert a + b == b;
    } else {
      assert (a + b)[1..] == a[1..] + b;
      if MergeList(t, a[0]).Some? {
        MergeListsConcat(MergeList(t, a[0]).value, a[1..], b);
      }
    }
  }

  /** A list of removed blocks shortens the canonical chain by them, any other extends it; either
      way the blocks are stored as given. */
  lemma MergeListEffect(t: Tree, bs: seq<Body>, u: Tree)
    requires WellFormed(t) && bs != [] && EthBlocks(bs, bs[0].Reorged()) && MergeList(t, bs) == Some(u)
    ensures u.canon == if !bs[0].Reorged() then t.canon + Names(bs)
                       else if |bs| <= |t.canon| then t.canon[..|t.canon| - |bs|] else []
    ensures forall i :: 0 <= i < |bs| ==> bs[i].hash in u.body && u.body[bs[i].hash] == bs[i]
    ensures MergeLists(t, [bs]) == Some(u)
  {
    var one: seq<seq<Body>> := [bs];
    assert one[1..] == [];
    if bs[0].Reorged() {
      WellFormedNamed(t, |t.canon|);
      RevertRemoves(t, |t.canon|, bs);
      RevertStores(t, |t.canon|, bs);
    } else {
      ExtendAppends(t, bs);
      ExtendStores(t, bs);
    }
  }

  // ---------- a merge keeps the tree stable, and recorded paths only grow at the root ----------

  lemma RevertOneKeeps(t: Tree, keep: nat, b: Body)
    requires WellFormed(t) && keep <= |t.canon| && Marked(t, keep) && b.hash != "" && b.Reorged()
    requires RevertOne(t, keep, b).Some?
    ensures var (u, k) := RevertOne(t, keep, b).value;
            WellFormed(u) && k <= |u.canon| && Marked(u, k) && Grows(t, u)
  {
    if keep == 0 {
      PushFrontWellFormed(t, b);
      PushFrontGrows(t, b);
      assert t.canon[..0] == PushFront(t, b).canon[..0] == [];
    } else {
      UnmarkLast(t, keep);
      MarkReverted(t, keep, b);
    }
  }

  lemma UnmarkLast(t: Tree, k: nat)
    requires WellFormed(t) && 0 < k <= |t.canon| && Marked(t, k)
    ensures forall h :: h in t.body && h != t.canon[k - 1] ==> (t.body[h].Reorged() <==> h !in t.canon[..k - 1])
  {
    assert t.canon[..k] == t.canon[..k - 1] + [t.canon[k - 1]];
  }

  lemma MarkReverted(t: Tree, k: nat, b: Body)
    requires WellFormed(t) && 0 < k <= |t.canon| && t.canon[k - 1] == b.hash && b.Reorged()
    requires forall h :: h in t.body && h != b.hash ==> (t.body[h].Reorged() <==> h !in t.canon[..k - 1])
    ensures var u := SetBody(t, b.hash, b); WellFormed(u) && Marked(u, k - 1) && Grows(t, u)
  {
    PathKnown(t, t.canon);
    PathDistinct(t, t.canon);
    SetBodyWellFormed(t, b.hash, b);
    SamePathsGrow(t, SetBody(t, b.hash, b));
  }

  /** A successful reorg takes exactly the given blocks off the chain, tip first; blocks beyond its
      front were never seen. */
  lemma {:induction false} RevertRemoves(t: Tree, keep: nat, bs: seq<Body>)
    requires keep <= |t.canon| && Revert(t, keep, bs).Some?
    requires forall h :: h in t.body ==> t.body[h].hash == h
    ensures Revert(t, keep, bs).value.canon == if |bs| <= keep then t.canon[..keep - |bs|] else []
    ensures forall i :: 0 <= i < |bs| && i < keep ==> bs[i].hash == t.canon[keep - 1 - i]
    ensures forall i :: keep <= i < |bs| ==> bs[i].hash !in t.body
    decreases |bs|
  {
    if bs != [] {
      var (next, k) := RevertOne(t, keep, bs[0]).value;
      RevertRemoves(next, k, bs[1..]);
      assert forall i :: 1 <= i < |bs| ==> bs[i] == bs[1..][i - 1];
    }
  }

  /** A successful reorg stores exactly the given blocks, with all they carry. */
  lemma {:induction false} RevertStores(t: Tree, keep: nat, bs: seq<Body>)
    requires keep <= |t.canon| && Revert(t, keep, bs).Some? && Named(t, keep)
    ensures forall i :: 0 <= i < |bs| ==>
              bs[i].hash in Revert(t, keep, bs).value.body && Revert(t, keep, bs).value.body[bs[i].hash] == bs[i]
    ensures forall h :: h in t.body && (forall i :: 0 <= i < |bs| ==> bs[i].hash != h) ==>
              h in Revert(t, keep, bs).value.body && Revert(t, keep, bs).value.body[h] == t.body[h]
    decreases |bs|
  {
    if bs != [] {
      var (next, k) := RevertOne(t, keep, bs[0]).value;
      RevertOneNamed(t, keep, bs[0]);
      RevertStores(next, k, bs[1..]);
      RevertSpares(next, k, bs[0].hash, bs[1..]);
      assert forall i :: 1 <= i < |bs| ==> bs[i] == bs[1..][i - 1];
    }
  }

  lemma RevertSpares(t: Tree, keep: nat, h: Hash, bs: seq<Body>)
    requires Named(t, keep) && Revert(t, keep, bs).Some?
    requires h in t.body && forall i :: 0 <= i < keep ==> t.canon[i] != h
    ensures forall i :: 0 <= i < |bs| ==> bs[i].hash != h
  {
    RevertRemoves(t, keep, bs);
  }

  /** Bodies carry the hash they are stored under, and the first `keep` canonical ones are known
      and different. */
  ghost predicate Named(t: Tree, keep: nat) {
    && keep <= |t.canon|
    && (forall h :: h in t.body ==> t.body[h].hash == h)
    && (forall i :: 0 <= i < keep ==> t.canon[i] in t.body)
    && (forall i, j :: 0 <= i < j < keep ==> t.canon[i] != t.canon[j])
  }

  lemma WellFormedNamed(t: Tree, keep: nat)
    requires WellFormed(t) && keep <= |t.canon|
    ensures Named(t, keep)
  {
    PathKnown(t, t.canon);
    PathDistinct(t, t.canon);
  }

  lemma RevertOneNamed(t: Tree, keep: nat, b: Body)
    requires Named(t, keep) && RevertOne(t, keep, b).Some?
    ensures var (u, k) := RevertOne(t, keep, b).value;
            Named(u, k) && b.hash in u.body && u.body[b.hash] == b && (forall i :: 0 <= i < k ==> u.canon[i] != b.hash)
  {
  }

  /** Whether the `i`-th block can be reverted after those before it: it is the block in place at
      its turn, or, beyond the front, one that was never seen. */
  ghost predicate Removable(t: Tree, keep: nat, bs: seq<Body>, i: nat)
    requires i < |bs| && Named(t, keep)
  {
    if i < keep then bs[i].Position() == t.body[t.canon[keep - 1 - i]].Position()
    else bs[i].hash !in t.body && forall j :: keep <= j < i ==> bs[j].hash != bs[i].hash
  }

  lemma RemovableRest(t: Tree, keep: nat, bs: seq<Body>, i: nat)
    requires 0 < i < |bs| && Named(t, keep) && RevertOne(t, keep, bs[0]).Some?
    ensures var (u, k) := RevertOne(t, keep, bs[0]).value;
            Named(u, k) && (Removable(t, keep, bs, i) <==> Removable(u, k, bs[1..], i - 1))
  {
    RevertOneNamed(t, keep, bs[0]);
    var rest := bs[1..];
    assert bs[i] == rest[i - 1];
    if keep == 0 && Removable(t, keep, bs, i) {
      assert forall j :: 0 <= j < i - 1 ==> rest[j] == bs[j + 1];
    }
    if keep == 0 && Removable(PushFront(t, bs[0]), 0, rest, i - 1) {
      assert forall j :: 1 <= j < i ==> bs[j] == rest[j - 1];
    }
  }

  /** A reorg succeeds if and only if each block is in place at its turn or was never seen. */
  lemma {:induction false} RevertSucceedsIff(t: Tree, keep: nat, bs: seq<Body>)
    requires Named(t, keep)
    ensures Revert(t, keep, bs).Some? <==> forall i :: 0 <= i < |bs| ==> Removable(t, keep, bs, i)
    decreases |bs|
  {
    if bs != [] {
      assert RevertOne(t, keep, bs[0]).Some? <==> Removable(t, keep, bs, 0);
      if RevertOne(t, keep, bs[0]).Some? {
        var (u, k) := RevertOne(t, keep, bs[0]).value;
        RevertOneNamed(t, keep, bs[0]);
        RevertSucceedsIff(u, k, bs[1..]);
        forall i | 0 < i < |bs| ensures Removable(t, keep, bs, i) <==> Removable(u, k, bs[1..], i - 1) {
          RemovableRest(t, keep, bs, i);
        }
        assert forall j :: 0 <= j < |bs| - 1 && Removable(t, keep, bs, j + 1) ==> Removable(u, k, bs[1..], j);
      }
    }
  }

  lemma {:induction false} RevertKeeps(t: Tree, keep: nat, bs: seq<Body>)
    requires WellFormed(t) && keep <= |t.canon| && Marked(t, keep) && EthBlocks(bs, true)
    requires Revert(t, keep, bs).Some?
    ensures Stable(Revert(t, keep, bs).value) && Grows(t, Revert(t, keep, bs).value)
    decreases |bs|
  {
    if bs == [] {
      RewindStable(t, keep);
      SamePathsGrow(t, Rewind(t, keep));
    } else {
      RevertOneKeeps(t, keep, bs[0]);
      var (u, k) := RevertOne(t, keep, bs[0]).value;
      RevertKeeps(u, k, bs[1..]);
      GrowsTransitive(t, u, Revert(u, k, bs[1..]).value);
    }
  }

  /** Every list is non-empty and its blocks are all removed or all not. */
  ghost predicate ParsedLists(lists: seq<seq<Body>>) {
    forall i :: 0 <= i < |lists| ==> lists[i] != [] && EthBlocks(lists[i], lists[i][0].Reorged())
  }

  lemma {:induction false} MergeKeeps(t: Tree, lists: seq<seq<Body>>)
    requires Stable(t) && ParsedLists(lists) && MergeLists(t, lists).Some?
    ensures Stable(MergeLists(t, lists).value) && Grows(t, MergeLists(t, lists).value)
    decreases |lists|
  {
    if lists == [] {
      SamePathsGrow(t, t);
    } else {
      if lists[0][0].Reorged() {
        RevertKeeps(t, |t.canon|, lists[0]);
      } else {
        ExtendKeeps(t, lists[0]);
      }
      var u := MergeList(t, lists[0]).value;
      MergeKeeps(u, lists[1..]);
      GrowsTransitive(t, u, MergeLists(u, lists[1..]).value);
    }
  }

  // ---------- when recorded paths change ----------

  /** The removed blocks reach beyond the front of a chain that starts at `root`, so that blocks
      which were never seen are put before it. */
  predicate Overruns(t: Tree, bs: seq<Body>, root: Hash) {
    bs != [] && bs[0].Reorged() && |bs| > |t.canon| && t.canon != [] && t.canon[0] == root
  }

  /** Some list of a merge puts blocks before a path that starts at `root`. */
  predicate Fronts(t: Tree, lists: seq<seq<Body>>, root: Hash)
    decreases |lists|
  {
    lists != []
    && (Overruns(t, lists[0], root)
        || (MergeList(t, lists[0]).Some? && Fronts(MergeList(t, lists[0]).value, lists[1..], root)))
  }

  /** A reorg changes a path exactly if it overruns the front that the path starts at. */
  lemma {:induction false} RevertPath(t: Tree, keep: nat, bs: seq<Body>, h: Hash)
    requires keep <= |t.canon| && Revert(t, keep, bs).Some?
    requires h in t.path && h in t.body && t.path[h] != [] && t.path[h][0] in t.body
    ensures var u := Revert(t, keep, bs).value;
            && h in u.path
            && (UnderFront(t, h) && |bs| > keep ==> |u.path[h]| > |t.path[h]|)
            && (!UnderFront(t, h) || |bs| <= keep ==> u.path[h] == t.path[h])
    decreases |bs|
  {
    if bs != [] {
      var (next, k) := RevertOne(t, keep, bs[0]).value;
      RevertPath(next, k, bs[1..], h);
    }
  }

  lemma {:induction false} ExtendPath(t: Tree, bs: seq<Body>, h: Hash)
    requires Extend(t, bs).Some? && h in t.path && t.body.Keys == t.path.Keys
    ensures h in Extend(t, bs).value.path && Extend(t, bs).value.path[h] == t.path[h]
    decreases |bs|
  {
    if bs != [] {
      ExtendPath(PushBack(t, bs[0]), bs[1..], h);
    }
  }

  lemma MergeListPath(t: Tree, bs: seq<Body>, h: Hash)
    requires WellFormed(t) && bs != [] && MergeList(t, bs).Some? && h in t.path
    ensures var u := MergeList(t, bs).value;
            && h in u.path && t.path[h] != []
            && (if Overruns(t, bs, t.path[h][0]) then |u.path[h]| > |t.path[h]| else u.path[h] == t.path[h])
  {
    Predecessor(t, h);
    PathKnown(t, t.path[h]);
    if bs[0].Reorged() {
      RevertPath(t, |t.canon|, bs, h);
    } else {
      ExtendPath(t, bs, h);
    }
  }

  /** Over a whole merge a path stays as it is exactly if no list puts blocks before it. */
  lemma {:induction false} MergePathKeptIff(t: Tree, lists: seq<seq<Body>>, h: Hash)
    requires Stable(t) && ParsedLists(lists) && MergeLists(t, lists).Some? && h in t.path
    ensures h in MergeLists(t, lists).value.path && t.path[h] != []
    ensures MergeLists(t, lists).value.path[h] == t.path[h] <==> !Fronts(t, lists, t.path[h][0])
    decreases |lists|
  {
    Predecessor(t, h);
    if lists != [] {
      var u := MergeList(t, lists[0]).value;
      FirstListKeeps(t, lists, u);
      MergeListPath(t, lists[0], h);
      MergePathKeptIff(u, lists[1..], h);
      MergePathGrows(u, lists[1..], MergeLists(u, lists[1..]).value, h);
    }
  }

  lemma FirstListKeeps(t: Tree, lists: seq<seq<Body>>, u: Tree)
    requires Stable(t) && ParsedLists(lists) && lists != [] && MergeList(t, lists[0]) == Some(u)
    ensures Stable(u) && ParsedLists(lists[1..])
  {
    MergeKeeps(t, [lists[0]]);
    assert MergeLists(t, [lists[0]]) == Some(u);
  }

  lemma MergePathGrows(t: Tree, lists: seq<seq<Body>>, u: Tree, h: Hash)
    requires Stable(t) && ParsedLists(lists) && MergeLists(t, lists) == Some(u) && h in t.path
    ensures h in u.path && |u.path[h]| >= |t.path[h]|
  {
    MergeKeeps(t, lists);
    assert GrownBy(t, u, h);
  }

  // ---------- the chain operations ----------

  /** One round of the reorg loop: reverts `b` at `rnode`, the last node still in place. */
  method RevertNode(fc: FilterChain, rnode: Option<NodeId>, b: Body, ghost keep: nat)
    returns (ok: bool, before: Option<NodeId>, ghost k: nat)
    requires fc.Valid() && keep <= |fc.tree.canon| && rnode == Position(fc.tree.canon, keep - 1) && b.hash != ""
    modifies fc
    ensures !ok ==> RevertOne(old(fc.tree), keep, b) == None
    ensures ok ==> fc.Valid() && RevertOne(old(fc.tree), keep, b) == Some((fc.tree, k))
                   && k <= |fc.tree.canon| && before == Position(fc.tree.canon, k - 1)
  {
    if rnode == None {
      if b.hash in fc.mem.index {
        return false, None, 0;
      }
      // the new node matches the block it was made for and has no predecessor
      fc.PushFront(b);
      return true, None, 0;
    }
    k := keep - 1;
    ok, before := RevertLast(fc, rnode.value, b, keep);
  }

  method RevertLast(fc: FilterChain, rnode: NodeId, b: Body, ghost k: nat) returns (ok: bool, before: Option<NodeId>)
    requires fc.Valid() && 0 < k <= |fc.tree.canon| && rnode == At(fc.tree.canon[k - 1])
    modifies fc
    ensures ok <==> RevertOne(old(fc.tree), k, b).Some?
    ensures ok ==> fc.Valid() && Some((fc.tree, k - 1)) == RevertOne(old(fc.tree), k, b)
                   && before == Position(fc.tree.canon, k - 2)
  {
    NameOf(fc, k - 1);
    fc.NavigateBack(fc.tree.canon, k - 1);
    RevertOneLast(fc.tree, k, b);
    before := fc.GetPrev(rnode);
    if fc.mem.body[rnode].Position() != b.Position() {
      return false, None;
    }
    fc.SetNodeBody(b);
    ok := true;
  }

  lemma RevertOneLast(t: Tree, k: nat, b: Body)
    requires 0 < k <= |t.canon| && t.canon[k - 1] in t.body && t.body[t.canon[k - 1]].hash == t.canon[k - 1]
    ensures RevertOne(t, k, b) == if t.body[t.canon[k - 1]].Position() == b.Position() then Some((SetBody(t, b.hash, b), k - 1))
                                  else None
  {
  }

  lemma NameOf(fc: FilterChain, i: nat)
    requires fc.Valid() && i < |fc.tree.canon|
    ensures fc.tree.canon[i] in fc.tree.body && fc.tree.body[fc.tree.canon[i]].hash == fc.tree.canon[i]
  {
    PathKnown(fc.tree, fc.tree.canon);
  }

  /** The reorg loop: walks back from the tail and reverts block after block. */
  method RevertAll(fc: FilterChain, reverted: seq<Body>) returns (ok: bool, rnode: Option<NodeId>, ghost keep: nat)
    requires fc.Valid() && EthBlocks(reverted, true)
    modifies fc
    ensures !ok ==> Revert(old(fc.tree), |old(fc.tree).canon|, reverted) == None
    ensures ok ==> fc.Valid() && keep <= |fc.tree.canon| && rnode == Position(fc.tree.canon, keep - 1)
                   && Revert(old(fc.tree), |old(fc.tree).canon|, reverted) == Some(Rewind(fc.tree, keep))
  {
    fc.Ends();
    rnode, keep := fc.Back(), |fc.tree.canon|;
    for i := 0 to |reverted|
      invariant fc.Valid() && keep <= |fc.tree.canon| && rnode == Position(fc.tree.canon, keep - 1)
      invariant Revert(fc.tree, keep, reverted[i..]) == Revert(old(fc.tree), |old(fc.tree).canon|, reverted)
    {
      RevertHead(fc.tree, keep, reverted, i);
      ok, rnode, keep := RevertNode(fc, rnode, reverted[i], keep);
      if !ok {
        return;
      }
    }
    ok := true;
  }

  lemma RevertHead(t: Tree, keep: nat, bs: seq<Body>, i: nat)
    requires keep <= |t.canon| && i < |bs|
    ensures Revert(t, keep, bs[i..]) == match RevertOne(t, keep, bs[i])
                                        case None => None
                                        case Some((t1, k)) => Revert(t1, k, bs[i + 1..])
  {
    assert bs[i..][0] == bs[i] && bs[i..][1..] == bs[i + 1..];
  }

  /** reorg: succeeds iff the blocks can be reverted one after the other. */
  method Reorg(fc: FilterChain, reverted: seq<Body>) returns (ok: bool)
    requires fc.Valid() && EthBlocks(reverted, true)
    modifies fc
    ensures ok <==> Revert(old(fc.tree), |old(fc.tree).canon|, reverted).Some?
    ensures ok ==> fc.Valid() && Some(fc.tree) == Revert(old(fc.tree), |old(fc.tree).canon|, reverted)
  {
    var rnode;
    ghost var keep, k;
    ok, rnode, keep := RevertAll(fc, reverted);
    if ok {
      ghost var t := fc.tree;
      ok, k := fc.Rewind(rnode);
      SameCut(t, keep, k);
    }
  }
}
