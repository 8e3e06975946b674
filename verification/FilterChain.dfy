/** The sentinel-rooted doubly linked ring of the virtual filter chain. Nodes cut off
    the ring keep their prev link, so the links also hold every fork; `tree` is the
    value the links represent and `Valid` ties them to it.
 */
module FilterChain {
  import opened Basics
  import opened ForkTree
  import opened Links

  /** One call of the traversal callback: the node's body, if any, and the fork point flag. */
  datatype Visit = Visit(body: Option<Body>, forkPoint: bool)

  function Plain(bs: seq<Body>): (vs: seq<Visit>)
    ensures |vs| == |bs| && forall i :: 0 <= i < |bs| ==> vs[i] == Visit(Some(bs[i]), false)
  {
    seq(|bs|, i requires 0 <= i < |bs| => Visit(Some(bs[i]), false))
  }

  /** The visits of the elements of `p` from index `i` on, last element first. */
  function BackVisits(t: Tree, p: seq<Hash>, i: nat): seq<Visit>
    requires i <= |p| && forall h :: h in p ==> h in t.body
  {
    Plain(Bodies(t, Reverse(p[i..])))
  }

  /** The visits of a traversal that starts at the end of path `p`: back over the reorged
      blocks, the fork point, if there is one, and forward to the canonical tail. */
  function Visits(t: Tree, p: seq<Hash>): seq<Visit>
    requires p != [] && forall h :: h in p || h in t.canon ==> h in t.body
  {
    var f := ForkPoint(t, p);
    if f < |p| then
      BackVisits(t, p, f)
      + ([Visit(if f > 0 then Some(t.body[p[f - 1]]) else None, true)] + Plain(Bodies(t, t.canon[f..])))
    else
      Plain(Bodies(t, t.canon[f - 1..]))
  }

  lemma VisitsForked(t: Tree, p: seq<Hash>, f: nat, forward: seq<Visit>)
    requires p != [] && (forall h :: h in p || h in t.canon ==> h in t.body) && f == ForkPoint(t, p) < |p|
    requires forward == [Visit(if f > 0 then Some(t.body[p[f - 1]]) else None, true)] + Plain(Bodies(t, t.canon[f..]))
    ensures Visits(t, p) == BackVisits(t, p, f) + forward
  {
  }

  lemma BackVisitsNext(t: Tree, p: seq<Hash>, i: nat, b: Body)
    requires i < |p| && (forall h :: h in p ==> h in t.body) && b == t.body[p[i]]
    ensures BackVisits(t, p, i) == BackVisits(t, p, i + 1) + [Visit(Some(b), false)]
  {
  }

  lemma ForwardNext(t: Tree, i: nat, k: nat, b: Body)
    requires i <= k < |t.canon| && (forall h :: h in t.canon ==> h in t.body) && b == t.body[t.canon[k]]
    ensures Plain(Bodies(t, t.canon[i..k + 1])) == Plain(Bodies(t, t.canon[i..k])) + [Visit(Some(b), false)]
  {
    assert t.canon[i..k + 1] == t.canon[i..k] + [t.canon[k]];
  }

  ghost predicate KnownPath(t: Tree, h: Hash) {
    h in t.path && t.path[h] != [] && forall x :: x in t.path[h] || x in t.canon ==> x in t.body
  }

  /** The genesis node is indexed, or is a reorg marker in front of which nothing stands. */
  ghost predicate GenesisFits(genesis: Option<NodeId>, m: Memory, markers: nat) {
    match genesis
    case None => m.index == map[]
    case Some(Root) => false
    case Some(At(h)) => h in m.index
    case Some(Marker(k)) =>
      Marker(k) in m.body && m.body[Marker(k)].Reorged() && m.body[Marker(k)].hash == ""
      && Marker(k) in m.prev && m.prev[Marker(k)] == Root && k < markers
  }

  lemma GenesisLinked(g: Option<NodeId>, m: Memory, markers: nat, b: Body, at: NodeId, after: NodeId)
    requires GenesisFits(g, m, markers) && !after.Marker?
    ensures GenesisFits(if g == None then Some(At(b.hash)) else g, Linked(m, b, At(b.hash), at, after), markers)
  {
  }

  class FilterChain {
    var mem: Memory                   // hash => node, and body, prev and next of each node
    var genesis: Option<NodeId>       // the first node ever inserted
    var len: int                      // canonical chain length
    var markers: nat                  // reorg markers created so far
    ghost var tree: Tree

    // ---------- representation ----------

    ghost predicate GenesisOk()
      reads this
    {
      GenesisFits(genesis, mem, markers)
    }

    ghost predicate Valid()
      reads this
    {
      && WellFormed(tree)
      && Shape(mem, tree)
      && GenesisOk()
      && len == |tree.canon|
    }

    constructor ()
      ensures Valid() && tree == EMPTY && genesis == None
    {
      mem := Memory(map[], map[], map[Root := Root], map[Root := Root]);
      genesis, len, markers, tree := None, 0, 0, EMPTY;
    }

    // ---------- navigation ----------

    predicate HasNode(n: NodeId)
      reads this
    {
      n != Root && n in mem.body && mem.body[n].hash in mem.index
    }

    function GetPrev(n: NodeId): Option<NodeId>
      reads this
    {
      if n in mem.prev && HasNode(mem.prev[n]) then Some(mem.prev[n]) else None
    }

    function GetNext(n: NodeId): Option<NodeId>
      reads this
    {
      if n in mem.next && HasNode(mem.next[n]) then Some(mem.next[n]) else None
    }

    function Front(): Option<NodeId>
      requires Root in mem.next
      reads this
    {
      if len == 0 then None else Some(mem.next[Root])
    }

    function Back(): Option<NodeId>
      requires Root in mem.prev
      reads this
    {
      if len == 0 then None else Some(mem.prev[Root])
    }

    lemma NavigateBack(p: seq<Hash>, i: nat)
      requires Valid() && IsPath(tree, p) && i < |p|
      ensures p[i] in mem.index && p[i] in tree.body && At(p[i]) in mem.body && mem.body[At(p[i])] == tree.body[p[i]]
      ensures GetPrev(At(p[i])) == Position(p, i - 1)
    {
      PathKnown(tree, p);
      assert PrefixRecorded(tree, p, i) && PrevOk(mem, tree, p[i]);
      if i > 0 {
        assert mem.index[p[i - 1]] == At(p[i - 1]);
      }
    }

    lemma NavigateForward(i: nat)
      requires Valid() && i < |tree.canon|
      ensures var h := tree.canon[i]; h in mem.index && h in tree.body && At(h) in mem.body && mem.body[At(h)] == tree.body[h]
      ensures GetNext(At(tree.canon[i])) == Position(tree.canon, i + 1)
    {
      PathKnown(tree, tree.canon);
      assert NextOk(mem, tree, i);
      if i + 1 < |tree.canon| {
        assert mem.index[tree.canon[i + 1]] == At(tree.canon[i + 1]);
      }
    }

    lemma Ends()
      requires Valid()
      ensures Front() == Position(tree.canon, 0) && Back() == Position(tree.canon, |tree.canon| - 1)
    {
      PathKnown(tree, tree.canon);
    }

    lemma TailIsLast()
      requires Valid()
      ensures mem.prev[Root] == Tail(mem, tree.canon) && mem.prev[Root] in mem.next && mem.next[mem.prev[Root]] == Root
    {
      if tree.canon != [] {
        assert NextOk(mem, tree, |tree.canon| - 1);
      }
    }

    /** Cursor of the canonical tail, or the nil cursor. */
    function SnapshotLatestCursor(): (c: Cursor)
      requires Valid()
      reads this
      ensures if tree.canon == [] then c == NIL_CURSOR
              else Last(tree.canon) in tree.body && c == tree.body[Last(tree.canon)].Position() && c.hash == Last(tree.canon)
    {
      Ends();
      PathKnown(tree, tree.canon);
      if Back().Some? then mem.body[Back().value].Position() else NIL_CURSOR
    }

    // ---------- ring updates ----------

    /** Links node `n` with body `b` behind `at`, and indexes it unless its hash is empty. */
    method Insert(n: NodeId, b: Body, at: NodeId)
      requires at in mem.next
      modifies this`genesis, this`mem, this`len
      ensures b.hash != "" ==> mem == Linked(old(mem), b, n, at, old(mem.next)[at])
      ensures b.hash == "" ==> mem == Linked(old(mem), b, n, at, old(mem.next)[at]).(index := old(mem.index))
      ensures genesis == if old(genesis) == None then Some(n) else old(genesis)
      ensures len == old(len) + 1
    {
      if genesis == None {
        genesis := Some(n);
      }
      mem := mem.(body := mem.body[n := b]);
      if b.hash != "" {
        mem := mem.(index := mem.index[b.hash := n]);
      }
      var after := mem.next[at];
      mem := mem.(prev := mem.prev[n := at], next := mem.next[n := after]);
      mem := mem.(next := mem.next[at := n], prev := mem.prev[after := n]);
      len := len + 1;
    }

    /** pushBack of a block whose hash is unseen, or whose detached node already has the
        canonical tail as its predecessor. */
    method PushBack(b: Body)
      requires Valid() && b.hash != "" && b.hash !in tree.canon
      requires b.hash in tree.path ==> tree.path[b.hash] == tree.canon + [b.hash]
      modifies this
      ensures Valid() && tree == ForkTree.PushBack(old(tree), b)
    {
      PushBackWellFormed(tree, b);
      PushBackShape(mem, tree, b, At(b.hash));
      TailIsLast();
      GenesisLinked(genesis, mem, markers, b, mem.prev[Root], Root);
      ghost var t := ForkTree.PushBack(tree, b);
      Insert(At(b.hash), b, mem.prev[Root]);
      assert Shape(mem, t);
      tree := t;
    }

    /** pushFront of a block with an unseen hash: it becomes the predecessor of the front. */
    method PushFront(b: Body)
      requires Valid() && b.hash != "" && b.hash !in tree.path
      modifies this
      ensures Valid() && tree == ForkTree.PushFront(old(tree), b)
    {
      PushFrontWellFormed(tree, b);
      PushFrontShape(mem, tree, b, At(b.hash));
      GenesisLinked(genesis, mem, markers, b, Root, mem.next[Root]);
      Insert(At(b.hash), b, Root);
      tree := ForkTree.PushFront(tree, b);
    }

    /** Replaces the body of the node indexed under the hash of `b`. */
    method SetNodeBody(b: Body)
      requires Valid() && b.hash in mem.index
      modifies this`mem, this`tree
      ensures Valid() && tree == SetBody(old(tree), b.hash, b)
    {
      SetBodyWellFormed(tree, b.hash, b);
      SetBodyShape(mem, tree, b);
      mem := mem.(body := mem.body[At(b.hash) := b]);
      tree := SetBody(tree, b.hash, b);
    }

    /** Steps from the tail back to a canonical node. */
    method StepsFromTail(node: NodeId) returns (steps: Option<nat>)
      requires Valid()
      ensures steps.Some? ==> steps.value < |tree.canon| && node == At(tree.canon[|tree.canon| - 1 - steps.value])
      ensures steps == None ==> forall i :: 0 <= i < |tree.canon| ==> node != At(tree.canon[i])
    {
      Ends();
      var n, tail := 0, Back();
      while tail.Some?
        invariant 0 <= n <= |tree.canon| && tail == Position(tree.canon, |tree.canon| - 1 - n)
        invariant forall i :: |tree.canon| - n <= i < |tree.canon| ==> node != At(tree.canon[i])
        decreases |tree.canon| - n
      {
        if tail.value == node {
          return Some(n);
        }
        NavigateBack(tree.canon, |tree.canon| - 1 - n);
        n, tail := n + 1, GetPrev(tail.value);
      }
      return None;
    }

    /** Cuts the canonical chain behind `node`, or entirely. Fails, changing nothing, iff the
        node is not canonical. */
    method Rewind(node: Option<NodeId>) returns (ok: bool, ghost keep: nat)
      requires Valid()
      modifies this`mem, this`len, this`tree
      ensures !ok <==> node.Some? && forall i :: 0 <= i < |old(tree).canon| ==> node.value != At(old(tree).canon[i])
      ensures ok ==> Valid() && keep <= |old(tree).canon| && node == Position(old(tree).canon, keep - 1)
                     && tree == ForkTree.Rewind(old(tree), keep)
      ensures !ok ==> unchanged(this)
    {
      if node == None {
        CutAfter(Root, len, 0);
        return true, 0;
      }
      var steps := StepsFromTail(node.value);
      if steps == None {
        return false, 0;
      }
      ok, keep := true, |tree.canon| - steps.value;
      CutAfter(node.value, steps.value, keep);
    }

    method CutAfter(tail: NodeId, steps: int, ghost keep: nat)
      requires Valid() && keep == len - steps <= |tree.canon|
      requires tail == if keep == 0 then Root else At(tree.canon[keep - 1])
      modifies this`mem, this`len, this`tree
      ensures Valid() && tree == ForkTree.Rewind(old(tree), keep)
    {
      CutBehind(keep);
      mem := mem.(prev := mem.prev[Root := tail], next := mem.next[tail := Root]);
      len := len - steps;
      tree := ForkTree.Rewind(tree, keep);
    }

    lemma CutBehind(keep: nat)
      requires Valid() && keep <= |tree.canon|
      ensures WellFormed(ForkTree.Rewind(tree, keep))
      ensures Shape(Cut(mem, if keep == 0 then Root else At(tree.canon[keep - 1])), ForkTree.Rewind(tree, keep))
    {
      RewindWellFormed(tree, keep);
      RewindShape(mem, tree, keep);
      PathKnown(tree, tree.canon);
    }

    // ---------- traversal ----------

    /** A walk back has come to the first `i` elements of `p`, whose last one is `node`. */
    ghost predicate Walking(p: seq<Hash>, bs: seq<Body>, i: nat, node: Option<NodeId>, visits: seq<Visit>)
      requires (forall h :: h in p ==> h in tree.body) && |bs| == |p|
      reads this
    {
      && i <= |p| && node == Position(p, i - 1) && visits == BackVisits(tree, p, i)
      && (i > 0 ==> node.value in mem.body && mem.body[node.value] == bs[i - 1])
      && (i < |p| ==> bs[i].Reorged())
    }

    lemma WalkStart(start: Hash, p: seq<Hash>, bs: seq<Body>)
      requires Valid() && start in mem.index && p == tree.path[start]
      requires (forall h :: h in p ==> h in tree.body) && bs == Bodies(tree, p)
      ensures Walking(p, bs, |p|, Some(At(start)), []) && IsPath(tree, p)
    {
      StartOfWalk(start);
    }

    lemma WalkStep(p: seq<Hash>, bs: seq<Body>, i: nat, node: NodeId, visits: seq<Visit>, next: nat)
      requires Valid() && IsPath(tree, p) && (forall h :: h in p ==> h in tree.body) && bs == Bodies(tree, p)
      requires Walking(p, bs, i, Some(node), visits) && i == next + 1 && bs[next].Reorged()
      ensures Walking(p, bs, next, GetPrev(node), visits + [Visit(Some(bs[next]), false)])
    {
      StepBack(p, bs, next);
    }

    /** Walks back from `start` over reorged nodes; stops before the first `i` elements of its path. */
    method WalkBack(start: Hash, ghost p: seq<Hash>, ghost bs: seq<Body>)
      returns (visits: seq<Visit>, node: Option<NodeId>, ghost i: nat)
      requires Valid() && start in mem.index && p == tree.path[start]
      requires (forall h :: h in p ==> h in tree.body) && bs == Bodies(tree, p)
      ensures i <= |p| && visits == BackVisits(tree, p, i) && node == Position(p, i - 1)
      ensures (i < |p| ==> bs[i].Reorged()) && (i > 0 ==> !bs[i - 1].Reorged())
    {
      WalkStart(start, p, bs);
      visits, node, i := [], Some(At(start)), |p|;
      while node.Some? && mem.body[node.value].Reorged()
        invariant Walking(p, bs, i, node, visits)
        decreases i
      {
        WalkStep(p, bs, i, node.value, visits, i - 1);
        visits := visits + [Visit(Some(mem.body[node.value]), false)];
        i, node := i - 1, GetPrev(node.value);
      }
    }

    lemma StepBack(p: seq<Hash>, bs: seq<Body>, i: nat)
      requires Valid() && IsPath(tree, p) && i < |p| && (forall h :: h in p ==> h in tree.body) && bs == Bodies(tree, p)
      ensures GetPrev(At(p[i])) == Position(p, i - 1)
      ensures i > 0 ==> At(p[i - 1]) in mem.body && mem.body[At(p[i - 1])] == bs[i - 1]
      ensures BackVisits(tree, p, i) == BackVisits(tree, p, i + 1) + [Visit(Some(bs[i]), false)]
    {
      NavigateBack(p, i);
      BackVisitsNext(tree, p, i, bs[i]);
      if i > 0 {
        NavigateBack(p, i - 1);
      }
    }

    lemma StopsAtFork(p: seq<Hash>, i: nat)
      requires Stable(tree) && IsPath(tree, p) && i <= |p|
      requires forall h :: h in p ==> h in tree.body
      requires i < |p| ==> tree.body[p[i]].Reorged()
      requires i > 0 ==> !tree.body[p[i - 1]].Reorged()
      ensures i == ForkPoint(tree, p)
    {
      if i < |p| {
        ReorgedPastFork(tree, p, i);
      }
      if i > 0 {
        ReorgedPastFork(tree, p, i - 1);
      }
    }

    lemma StartOfWalk(start: Hash)
      requires Valid() && start in mem.index
      ensures KnownPath(tree, start) && IsPath(tree, tree.path[start])
      ensures Position(tree.path[start], |tree.path[start]| - 1) == Some(At(start))
      ensures At(start) in mem.body && mem.body[At(start)] == tree.body[start] && start == Last(tree.path[start])
    {
      Predecessor(tree, start);
      KnownBodies(tree, tree.path[start]);
      assert mem.index[start] == At(start);
    }

    /** Walks forward along the canonical chain to its end. */
    method WalkForward(from: Option<NodeId>, ghost i: nat) returns (visits: seq<Visit>)
      requires Valid() && i <= |tree.canon| && from == Position(tree.canon, i)
      ensures forall h :: h in tree.canon ==> h in tree.body
      ensures visits == Plain(Bodies(tree, tree.canon[i..]))
    {
      KnownBodies(tree, tree.canon);
      visits := [];
      var node := from;
      ghost var k := i;
      while node.Some?
        invariant i <= k <= |tree.canon| && node == Position(tree.canon, k)
        invariant visits == Plain(Bodies(tree, tree.canon[i..k]))
        decreases |tree.canon| - k
      {
        NavigateForward(k);
        ForwardNext(tree, i, k, mem.body[node.value]);
        visits := visits + [Visit(Some(mem.body[node.value]), false)];
        node := GetNext(node.value);
        k := k + 1;
      }
      assert tree.canon[i..k] == tree.canon[i..];
    }

    /** Traverses the chain from a cursor, or from the genesis node for the nil cursor. The
        result is None for a cursor that no node is indexed under. */
    method Traverse(cursor: Cursor) returns (r: Option<seq<Visit>>)
      requires Valid() && Stable(tree)
      ensures genesis == None ==> r == Some([])
      ensures r == None <==> genesis.Some? && cursor != NIL_CURSOR && cursor.hash !in mem.index
      ensures cursor.hash in mem.index ==>
                KnownPath(tree, cursor.hash) && r == Some(Visits(tree, tree.path[cursor.hash]))
      ensures cursor == NIL_CURSOR && genesis.Some? && genesis.value.At? ==>
                KnownPath(tree, genesis.value.hash) && r == Some(Visits(tree, tree.path[genesis.value.hash]))
      ensures cursor == NIL_CURSOR && genesis.Some? && genesis.value.Marker? ==>
                && (forall h :: h in tree.canon ==> h in tree.body)
                && r == Some([Visit(Some(mem.body[genesis.value]), false), Visit(None, true)]
                             + Plain(Bodies(tree, tree.canon)))
    {
      if genesis == None {
        return Some([]);
      }
      if cursor != NIL_CURSOR && cursor.hash !in mem.index {
        return None;
      }
      Ends();
      var start := if cursor == NIL_CURSOR then genesis.value else mem.index[cursor.hash];
      if start.Marker? {
        // reorged, and its prev is the root
        var forward := WalkForward(Front(), 0);
        assert tree.canon[0..] == tree.canon;
        return Some([Visit(Some(mem.body[start]), false), Visit(None, true)] + forward);
      }
      StartOfWalk(start.hash);
      var visits := TraverseFrom(start.hash, tree.path[start.hash]);
      return Some(visits);
    }

    method TraverseFrom(start: Hash, ghost p: seq<Hash>) returns (visits: seq<Visit>)
      requires Valid() && Stable(tree) && start in mem.index && KnownPath(tree, start) && p == tree.path[start]
      ensures visits == Visits(tree, p)
    {
      var node;
      ghost var f;
      visits, node, f := WalkToFork(start, p);
      if node != Some(At(start)) {
        var forward := Turn(node, p, f);
        visits := visits + forward;
      } else {
        visits := WalkOn(node, p, f);
      }
    }

    /** The start is itself canonical, and the walk goes forward from it. */
    method WalkOn(node: Option<NodeId>, ghost p: seq<Hash>, ghost f: nat) returns (visits: seq<Visit>)
      requires Valid() && p != [] && (forall h :: h in p || h in tree.canon ==> h in tree.body)
      requires f == ForkPoint(tree, p) == |p| && node == Position(tree.canon, f - 1)
      ensures visits == Visits(tree, p)
    {
      visits := WalkForward(node, f - 1);
    }

    /** Walks back to the fork point, where the canonical chain goes on. */
    method WalkToFork(start: Hash, ghost p: seq<Hash>) returns (visits: seq<Visit>, node: Option<NodeId>, ghost f: nat)
      requires Valid() && Stable(tree) && start in mem.index && KnownPath(tree, start) && p == tree.path[start]
      ensures f == ForkPoint(tree, p) && visits == BackVisits(tree, p, f) && node == Position(p, f - 1)
      ensures node == Some(At(start)) <==> f == |p|
      ensures f == |p| ==> node == Position(tree.canon, f - 1)
      ensures if f == 0 then Front() == Position(tree.canon, 0)
              else At(p[f - 1]) in mem.body && mem.body[At(p[f - 1])] == tree.body[p[f - 1]]
                   && GetNext(At(p[f - 1])) == Position(tree.canon, f)
    {
      visits, node, f := WalkBack(start, p, Bodies(tree, p));
      WalkEnds(start, p, f);
    }

    /** Visits the fork point, if there is one, and the canonical blocks behind it. */
    method Turn(node: Option<NodeId>, ghost p: seq<Hash>, ghost f: nat) returns (visits: seq<Visit>)
      requires Valid() && (forall h :: h in p || h in tree.canon ==> h in tree.body)
      requires f == ForkPoint(tree, p) < |p| && node == Position(p, f - 1)
      requires if f == 0 then Front() == Position(tree.canon, 0)
               else At(p[f - 1]) in mem.body && mem.body[At(p[f - 1])] == tree.body[p[f - 1]]
                    && GetNext(At(p[f - 1])) == Position(tree.canon, f)
      ensures BackVisits(tree, p, f) + visits == Visits(tree, p)
    {
      var next := if node.Some? then GetNext(node.value) else Front();
      var forward := WalkForward(next, f);
      visits := [Visit(if node.Some? then Some(mem.body[node.value]) else None, true)] + forward;
      VisitsForked(tree, p, f, visits);
    }

    lemma WalkEnds(start: Hash, p: seq<Hash>, f: nat)
      requires Valid() && Stable(tree) && KnownPath(tree, start) && p == tree.path[start] && f <= |p|
      requires f < |p| ==> tree.body[p[f]].Reorged()
      requires f > 0 ==> !tree.body[p[f - 1]].Reorged()
      ensures f == ForkPoint(tree, p) && (Position(p, f - 1) == Some(At(start)) <==> f == |p|)
      ensures f == |p| ==> Position(tree.canon, f - 1) == Position(p, f - 1)
      ensures if f == 0 then Front() == Position(tree.canon, 0)
              else At(p[f - 1]) in mem.body && mem.body[At(p[f - 1])] == tree.body[p[f - 1]]
                   && GetNext(At(p[f - 1])) == Position(tree.canon, f)
    {
      Predecessor(tree, start);
      PathDistinct(tree, p);
      StopsAtFork(p, f);
      ForkNode(start);
      if f > 0 {
        assert p[f - 1] == p[..f][f - 1] == tree.canon[f - 1];
      }
    }

    /** The node a walk back stops at, if any, and what follows it on the canonical chain. */
    lemma ForkNode(start: Hash)
      requires Valid() && Stable(tree) && KnownPath(tree, start)
      ensures var p := tree.path[start];
              var f := ForkPoint(tree, p);
              if f == 0 then Front() == Position(tree.canon, 0)
              else At(p[f - 1]) in mem.body && mem.body[At(p[f - 1])] == tree.body[p[f - 1]]
                   && GetNext(At(p[f - 1])) == Position(tree.canon, f)
    {
      var p := tree.path[start];
      var f := ForkPoint(tree, p);
      Ends();
      if f > 0 {
        assert p[f - 1] == p[..f][f - 1] == tree.canon[f - 1];
        NavigateForward(f - 1);
      }
    }
  }
}
