/** The core space filter chain: a reorg names only the epoch number to revert to. */
module CfxFilterChain {
  import opened Basics
  import opened ForkTree
  import opened Links
  import opened FilterChain
  import opened ChainGrowth

  /** A parsed change: revert the epochs above `to`, or append an epoch. */
  datatype Change = RevertTo(to: nat) | Append(epoch: Body)

  /** A change to a target that marks: 0 stands for "not reverted". */
  ghost predicate GoodChange(c: Change) {
    match c
    case RevertTo(to) => to > 0
    case Append(e) => e.CfxEpoch? && e.hash != "" && e.revertedTo == 0
  }

  predicate CfxChange(c: Change) {
    c.Append? ==> c.epoch.CfxEpoch?
  }

  predicate CfxOnly(t: Tree) {
    (forall h :: h in t.body ==> t.body[h].CfxEpoch?) && forall h :: h in t.canon ==> h in t.body
  }

  // ---------- the effect on the fork tree ----------

  /** How many canonical epochs stay when the chain is walked back over epochs above `to`. */
  function Kept(t: Tree, to: nat, k: nat): (keep: nat)
    requires k <= |t.canon| && CfxOnly(t)
    ensures keep <= k
    ensures keep > 0 ==> t.body[t.canon[keep - 1]].number <= to
    ensures forall i :: keep <= i < k ==> t.body[t.canon[i]].number > to
  {
    if k == 0 || t.body[t.canon[k - 1]].number <= to then k else Kept(t, to, k - 1)
  }

  /** Marks the canonical epochs from index `k` on as reverted to `to`. */
  function MarkFrom(t: Tree, to: nat, k: nat): Tree
    requires CfxOnly(t)
  {
    t.(body := map h | h in t.body ::
         if k <= |t.canon| && h in t.canon[k..] then t.body[h].(revertedTo := to) else t.body[h])
  }

  function RevertAbove(t: Tree, to: nat): Tree
    requires CfxOnly(t)
  {
    var keep := Kept(t, to, |t.canon|);
    Rewind(MarkFrom(t, to, keep), keep)
  }

  function ApplyChange(t: Tree, c: Change): (r: Option<Tree>)
    requires CfxOnly(t) && CfxChange(c)
    ensures r.Some? ==> CfxOnly(r.value)
  {
    match c
    case RevertTo(to) => Some(RevertAbove(t, to))
    case Append(e) => ExtendOne(t, e)
  }

  function Run(t: Tree, cs: seq<Change>): (r: Option<Tree>)
    requires CfxOnly(t) && forall c :: c in cs ==> CfxChange(c)
    ensures r.Some? ==> CfxOnly(r.value)
    decreases |cs|
  {
    if cs == [] then Some(t)
    else
      match ApplyChange(t, cs[0])
      case None => None
      case Some(u) => Run(u, cs[1..])
  }

  /** Changes take effect one after the other, in order. */
  lemma {:induction false} RunConcat(t: Tree, a: seq<Change>, b: seq<Change>)
    requires CfxOnly(t) && (forall c :: c in a ==> CfxChange(c)) && (forall c :: c in b ==> CfxChange(c))
    ensures Run(t, a + b) == match Run(t, a) case None => None case Some(u) => Run(u, b)
    decreases |a|
  {
    if a == [] {
      assert a + b == b;
    } else {
      assert (a + b)[1..] == a[1..] + b;
      if ApplyChange(t, a[0]).Some? {
        RunConcat(ApplyChange(t, a[0]).value, a[1..], b);
      }
    }
  }

  ghost predicate Good(t: Tree) {
    Stable(t) && CfxOnly(t)
  }

  lemma MarkFromMarks(t: Tree, to: nat, keep: nat)
    requires Good(t) && to > 0 && keep <= |t.canon|
    ensures WellFormed(MarkFrom(t, to, keep)) && Marked(MarkFrom(t, to, keep), keep)
  {
    var m := MarkFrom(t, to, keep);
    assert m.body.Keys == t.body.Keys;
    AllPathsKept(t, m);
    PathKept(t, m, t.canon);
    PathDistinct(t, t.canon);
    forall h | h in t.body ensures m.body[h].Reorged() <==> h !in t.canon[..keep] {
      MarkedEpoch(t, to, keep, h);
    }
  }

  lemma MarkedEpoch(t: Tree, to: nat, keep: nat, h: Hash)
    requires Good(t) && to > 0 && keep <= |t.canon| && h in t.body
    ensures MarkFrom(t, to, keep).body[h].Reorged() <==> h !in t.canon[..keep]
  {
    PathDistinct(t, t.canon);
    assert t.canon == t.canon[..keep] + t.canon[keep..] == t.canon[..|t.canon|];
  }

  /** Reverting to `to` leaves a stable tree exactly if the epochs cut off are marked, which
      the target 0 does not do, or none is cut off. */
  lemma RevertAboveGoodIff(t: Tree, to: nat, keep: nat, u: Tree)
    requires Good(t) && keep == Kept(t, to, |t.canon|) && u == RevertAbove(t, to)
    ensures Good(u) <==> to > 0 || keep == |t.canon|
  {
    if to > 0 {
      RevertAboveGood(t, to);
    } else if keep == |t.canon| {
      NothingCut(t, to, keep, u);
    } else {
      UnmarkedEpoch(t, to, keep, u);
    }
  }

  lemma NothingCut(t: Tree, to: nat, keep: nat, u: Tree)
    requires CfxOnly(t) && keep == Kept(t, to, |t.canon|) == |t.canon| && u == RevertAbove(t, to)
    ensures u == t
  {
    assert t.canon[..keep] == t.canon;
    assert MarkFrom(t, to, keep).body == t.body;
  }

  lemma UnmarkedEpoch(t: Tree, to: nat, keep: nat, u: Tree)
    requires Good(t) && to == 0 && keep == Kept(t, to, |t.canon|) < |t.canon| && u == RevertAbove(t, to)
    ensures !Good(u)
  {
    var h := t.canon[keep];
    PathDistinct(t, t.canon);
    BodyAfterRevert(t, to, keep, h);
    assert u.canon[..|u.canon|] == u.canon == t.canon[..keep];
    assert !u.body[h].Reorged() && h !in u.canon;
  }

  /** A reorg keeps canonical epochs unmarked, whatever the target. */
  lemma RevertAboveAlive(t: Tree, to: nat)
    requires WellFormed(t) && CfxOnly(t) && Alive(t)
    ensures CfxOnly(RevertAbove(t, to)) && Alive(RevertAbove(t, to))
  {
    var keep, u := Kept(t, to, |t.canon|), RevertAbove(t, to);
    PathDistinct(t, t.canon);
    forall i | 0 <= i < |u.canon| ensures u.canon[i] in u.body && !u.body[u.canon[i]].Reorged() {
      BodyAfterRevert(t, to, keep, t.canon[i]);
    }
  }

  lemma RevertAboveGood(t: Tree, to: nat)
    requires Good(t) && to > 0
    ensures Good(RevertAbove(t, to)) && RevertAbove(t, to).path == t.path
  {
    var keep := Kept(t, to, |t.canon|);
    MarkFromMarks(t, to, keep);
    RewindStable(MarkFrom(t, to, keep), keep);
  }

  /** What a reorg does to the body of one epoch. */
  lemma BodyAfterRevert(t: Tree, to: nat, keep: nat, h: Hash)
    requires CfxOnly(t) && keep == Kept(t, to, |t.canon|) && h in t.body
    ensures var u := RevertAbove(t, to);
            h in u.body && u.body[h] == if h in t.canon[keep..] then t.body[h].(revertedTo := to) else t.body[h]
    ensures h in t.canon[keep..] ==> t.body[h].number > to
  {
  }

  lemma ApplyGood(t: Tree, c: Change)
    requires Good(t) && GoodChange(c) && ApplyChange(t, c).Some?
    ensures Good(ApplyChange(t, c).value)
    ensures forall h :: h in t.path ==> h in ApplyChange(t, c).value.path && ApplyChange(t, c).value.path[h] == t.path[h]
  {
    match c
    case RevertTo(to) => RevertAboveGood(t, to);
    case Append(e) => PushBackStable(t, e);
  }

  // ---------- the chain operations ----------

  /** A reorg marker that arrives while the chain is empty is linked and cut off at once. All it
      can leave behind is itself as the genesis node. */
  method DropMarker(fc: FilterChain, to: nat)
    requires fc.Valid() && fc.tree.canon == [] && (to > 0 || fc.genesis.Some?)
    modifies fc
    ensures fc.Valid() && fc.tree == old(fc.tree) && fc.len == 0 && fc.genesis.Some?
  {
    var m := Marker(fc.markers);
    MarkerKeepsShape(fc.mem, fc.tree, m, CfxEpoch(0, "", to, []));
    fc.markers := fc.markers + 1;
    fc.Insert(m, CfxEpoch(0, "", to, []), Root);
    fc.mem := fc.mem.(prev := fc.mem.prev[Root := Root], next := fc.mem.next[Root := Root]);
    fc.len := 0;
  }

  /** A list that starts with the target 0 is taken for new epochs, and the marker, which has no
      hash, is appended: no fork tree describes the chain any more. */
  method AppendMarker(fc: FilterChain)
    requires fc.Valid()
    modifies fc
    ensures fc.len == old(fc.len) + 1 && fc.mem.index == old(fc.mem.index)
    ensures forall t {:trigger Shape(fc.mem, t)} :: !Shape(fc.mem, t)
  {
    var m := Marker(fc.markers);
    fc.TailIsLast();
    fc.markers := fc.markers + 1;
    fc.Insert(m, CfxEpoch(0, "", 0, []), fc.mem.prev[Root]);
  }

  lemma MarkerKeepsShape(m: Memory, t: Tree, n: NodeId, b: Body)
    requires WellFormed(t) && Shape(m, t) && t.canon == [] && n.Marker?
    ensures Shape(Cut(Linked(m, b, n, Root, m.next[Root]).(index := m.index), Root), t)
  {
    var m' := Cut(Linked(m, b, n, Root, m.next[Root]).(index := m.index), Root);
    forall h | h in t.path ensures PrevOk(m', t, h) {
      assert PrevOk(m, t, h);
    }
  }

  /** Marking one more epoch, the one before index `k`. */
  lemma MarkStep(t: Tree, to: nat, k: nat)
    requires CfxOnly(t) && WellFormed(t) && 0 < k <= |t.canon|
    ensures var h := t.canon[k - 1];
            && h in MarkFrom(t, to, k).body && MarkFrom(t, to, k).body[h] == t.body[h]
            && MarkFrom(t, to, k - 1) == SetBody(MarkFrom(t, to, k), h, t.body[h].(revertedTo := to))
  {
    var h, u, v := t.canon[k - 1], MarkFrom(t, to, k - 1), MarkFrom(t, to, k);
    PathDistinct(t, t.canon);
    assert t.canon[k - 1..] == [h] + t.canon[k..];
    var w := SetBody(v, h, t.body[h].(revertedTo := to));
    assert u.body.Keys == w.body.Keys;
    assert forall x :: x in u.body ==> u.body[x] == w.body[x];
    assert u.body == w.body;
  }

  /** The epochs from index `k` on are marked, and `node` is the one before them. */
  ghost predicate Marking(fc: FilterChain, t: Tree, to: nat, k: nat, node: Option<NodeId>)
    requires CfxOnly(t)
    reads fc
  {
    && fc.Valid() && k <= |t.canon| && fc.tree == MarkFrom(t, to, k) && node == Position(t.canon, k - 1)
    && (k > 0 ==> node.value in fc.mem.body && fc.mem.body[node.value] == t.body[t.canon[k - 1]])
  }

  lemma MarkingAt(fc: FilterChain, t: Tree, to: nat, k: nat, node: Option<NodeId>)
    requires CfxOnly(t) && WellFormed(t) && fc.Valid() && k <= |t.canon| && fc.tree == MarkFrom(t, to, k)
    requires node == Position(t.canon, k - 1)
    ensures Marking(fc, t, to, k, node)
  {
    if k > 0 {
      MarkStep(t, to, k);
      fc.NavigateBack(fc.tree.canon, k - 1);
    }
  }

  /** Walks back over the epochs above `to` and marks them. */
  method MarkAbove(fc: FilterChain, to: nat) returns (rnode: Option<NodeId>, ghost k: nat)
    requires fc.Valid() && CfxOnly(fc.tree)
    modifies fc
    ensures fc.Valid() && fc.genesis == old(fc.genesis) && k == Kept(old(fc.tree), to, |old(fc.tree).canon|)
    ensures fc.tree == MarkFrom(old(fc.tree), to, k) && rnode == Position(fc.tree.canon, k - 1)
  {
    ghost var t := fc.tree;
    fc.Ends();
    rnode, k := fc.Back(), |t.canon|;
    assert MarkFrom(t, to, k).body == t.body;
    MarkingAt(fc, t, to, k, rnode);
    while rnode.Some? && fc.mem.body[rnode.value].number > to
      invariant fc.genesis == old(fc.genesis) && Marking(fc, t, to, k, rnode)
      invariant Kept(t, to, k) == Kept(t, to, |t.canon|)
      decreases k
    {
      rnode, k := MarkNode(fc, rnode.value, to, t, k);
    }
  }

  method MarkNode(fc: FilterChain, n: NodeId, to: nat, ghost t: Tree, ghost k: nat)
    returns (before: Option<NodeId>, ghost k': nat)
    requires CfxOnly(t) && WellFormed(t) && k > 0 && Marking(fc, t, to, k, Some(n))
    modifies fc
    ensures fc.genesis == old(fc.genesis)
    ensures k' == k - 1 && Marking(fc, t, to, k', before)
  {
    k' := k - 1;
    SetReverted(fc, n, to, t, k);
    BeforeMarked(fc, t, to, k', n);
    before := fc.GetPrev(n);
    MarkingAt(fc, t, to, k', before);
  }

  method SetReverted(fc: FilterChain, n: NodeId, to: nat, ghost t: Tree, ghost k: nat)
    requires CfxOnly(t) && WellFormed(t) && k > 0 && Marking(fc, t, to, k, Some(n))
    modifies fc
    ensures fc.genesis == old(fc.genesis) && fc.Valid() && fc.tree == MarkFrom(t, to, k - 1)
  {
    MarkStep(t, to, k);
    fc.NavigateBack(fc.tree.canon, k - 1);
    fc.SetNodeBody(fc.mem.body[n].(revertedTo := to));
  }

  lemma BeforeMarked(fc: FilterChain, t: Tree, to: nat, k: nat, n: NodeId)
    requires CfxOnly(t) && WellFormed(t) && fc.Valid() && fc.tree == MarkFrom(t, to, k) && k < |t.canon| && n == At(t.canon[k])
    ensures fc.GetPrev(n) == Position(t.canon, k - 1)
  {
    fc.NavigateBack(fc.tree.canon, k);
  }

  method MarkAndRewind(fc: FilterChain, to: nat) returns (ok: bool)
    requires fc.Valid() && CfxOnly(fc.tree)
    modifies fc
    ensures ok && fc.Valid() && fc.genesis == old(fc.genesis) && fc.tree == RevertAbove(old(fc.tree), to)
  {
    var rnode;
    ghost var k, keep;
    rnode, k := MarkAbove(fc, to);
    ghost var m := fc.tree;
    ok, keep := fc.Rewind(rnode);
    if ok {
      SameCut(m, k, keep);
    }
  }

  lemma GenesisIsSet(fc: FilterChain)
    requires fc.Valid() && fc.tree.canon != []
    ensures fc.genesis.Some?
  {
    fc.NavigateForward(0);
  }

  /** reorg to one epoch number. It cannot fail. */
  method ReorgTo(fc: FilterChain, to: nat) returns (ok: bool)
    requires fc.Valid() && CfxOnly(fc.tree) && Alive(fc.tree) && (to > 0 || fc.genesis.Some?)
    modifies fc
    ensures ok && fc.Valid() && CfxOnly(fc.tree) && Alive(fc.tree) && fc.genesis.Some?
    ensures fc.tree == RevertAbove(old(fc.tree), to)
  {
    RevertAboveAlive(fc.tree, to);
    fc.Ends();
    if fc.Back() == None {
      DropMarker(fc, to);
    } else {
      GenesisIsSet(fc);
    }
    ok := MarkAndRewind(fc, to);
  }

  /** A revert to 0 is not the first of a list of reverts; a new epoch has a hash. */
  ghost predicate ParsedAt(cs: seq<Change>, i: nat)
    requires i < |cs|
  {
    GoodChange(cs[i]) || (cs[i].RevertTo? && i > 0 && cs[i - 1].RevertTo?)
  }

  ghost predicate Parsed(cs: seq<Change>) {
    forall i :: 0 <= i < |cs| ==> CfxChange(cs[i]) && ParsedAt(cs, i)
  }

  lemma RunStep(t: Tree, cs: seq<Change>, i: nat)
    requires CfxOnly(t) && (forall c :: c in cs ==> CfxChange(c)) && i < |cs|
    ensures Run(t, cs[i..]) == match ApplyChange(t, cs[i]) case None => None case Some(u) => Run(u, cs[i + 1..])
  {
    assert cs[i..][0] == cs[i] && cs[i..][1..] == cs[i + 1..];
  }

  method MergeOne(fc: FilterChain, c: Change) returns (ok: bool)
    requires fc.Valid() && CfxOnly(fc.tree) && Alive(fc.tree) && CfxChange(c)
    requires if c.RevertTo? then c.to > 0 || fc.genesis.Some? else GoodChange(c)
    modifies fc
    ensures ok <==> ApplyChange(old(fc.tree), c).Some?
    ensures ok ==> fc.Valid() && CfxOnly(fc.tree) && Alive(fc.tree) && Some(fc.tree) == ApplyChange(old(fc.tree), c)
    ensures c.RevertTo? ==> fc.genesis.Some?
  {
    match c {
      case RevertTo(to) =>
        ok := ReorgTo(fc, to);
      case Append(e) =>
        ExtendSingle(fc.tree, e);
        ok := ExtendChain(fc, [e]);
    }
  }

  /** Merges one parsed change after the other. */
  method MergeChanges(fc: FilterChain, cs: seq<Change>) returns (ok: bool)
    requires fc.Valid() && CfxOnly(fc.tree) && Alive(fc.tree) && Parsed(cs)
    modifies fc
    ensures ok <==> Run(old(fc.tree), cs).Some?
    ensures ok ==> fc.Valid() && Alive(fc.tree) && Some(fc.tree) == Run(old(fc.tree), cs)
  {
    assert cs[0..] == cs;
    for i := 0 to |cs|
      invariant fc.Valid() && CfxOnly(fc.tree) && Alive(fc.tree)
      invariant i > 0 && cs[i - 1].RevertTo? ==> fc.genesis.Some?
      invariant Run(fc.tree, cs[i..]) == Run(old(fc.tree), cs)
    {
      RunStep(fc.tree, cs, i);
      assert ParsedAt(cs, i);
      ok := MergeOne(fc, cs[i]);
      if !ok {
        return;
      }
    }
    ok := true;
  }

  /** Merging changes whose targets all mark keeps the tree stable. */
  lemma {:induction false} RunGood(t: Tree, cs: seq<Change>)
    requires Good(t) && (forall i :: 0 <= i < |cs| ==> GoodChange(cs[i])) && (forall c :: c in cs ==> CfxChange(c))
    requires Run(t, cs).Some?
    ensures Good(Run(t, cs).value)
    decreases |cs|
  {
    if cs != [] {
      ApplyGood(t, cs[0]);
      RunGood(ApplyChange(t, cs[0]).value, cs[1..]);
    }
  }

  lemma ExtendSingle(t: Tree, e: Body)
    ensures Extend(t, [e]) == ExtendOne(t, e)
  {
    assert [e][1..] == [];
  }
}
