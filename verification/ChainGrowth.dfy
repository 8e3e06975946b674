/** Extending the canonical chain, which both spaces do alike. */
module ChainGrowth {
  import opened Basics
  import opened ForkTree
  import opened Links
  import opened FilterChain

  ghost predicate Unreverted(bs: seq<Body>) {
    forall i :: 0 <= i < |bs| ==> bs[i].hash != "" && !bs[i].Reorged()
  }

  /** A known block may only be appended again where it stood before. */
  function ExtendOne(t: Tree, b: Body): Option<Tree> {
    if b.hash !in t.body then Some(PushBack(t, b))
    else if !t.body[b.hash].Reorged() then None
    else if b.hash !in t.path || t.path[b.hash] != t.canon + [b.hash] then None
    else Some(PushBack(t, b))
  }

  function Extend(t: Tree, bs: seq<Body>): Option<Tree>
    decreases |bs|
  {
    if bs == [] then Some(t)
    else
      match ExtendOne(t, bs[0])
      case None => None
      case Some(t1) => Extend(t1, bs[1..])
  }

  /** A successful extension appends exactly the given blocks, in order. */
  lemma {:induction false} ExtendAppends(t: Tree, bs: seq<Body>)
    requires Extend(t, bs).Some?
    ensures |Extend(t, bs).value.canon| == |t.canon| + |bs| && t.canon <= Extend(t, bs).value.canon
    ensures forall i :: 0 <= i < |bs| ==> Extend(t, bs).value.canon[|t.canon| + i] == bs[i].hash
    decreases |bs|
  {
    if bs != [] {
      var next := PushBack(t, bs[0]);
      assert next.canon[|t.canon|] == bs[0].hash;
      ExtendAppends(next, bs[1..]);
      assert forall i :: 1 <= i < |bs| ==> bs[i] == bs[1..][i - 1];
    }
  }

  /** An unmarked body is not replaced by an extension. */
  lemma {:induction false} ExtendSpares(t: Tree, bs: seq<Body>, h: Hash)
    requires Extend(t, bs).Some? && h in t.body && !t.body[h].Reorged()
    ensures h in Extend(t, bs).value.body && Extend(t, bs).value.body[h] == t.body[h]
    decreases |bs|
  {
    if bs != [] {
      ExtendSpares(PushBack(t, bs[0]), bs[1..], h);
    }
  }

  /** A successful extension stores exactly the given blocks, with all they carry. */
  lemma {:induction false} ExtendStores(t: Tree, bs: seq<Body>)
    requires Unreverted(bs) && Extend(t, bs).Some?
    ensures forall i :: 0 <= i < |bs| ==>
              bs[i].hash in Extend(t, bs).value.body && Extend(t, bs).value.body[bs[i].hash] == bs[i]
    ensures forall h :: h in t.body && (forall i :: 0 <= i < |bs| ==> bs[i].hash != h) ==>
              h in Extend(t, bs).value.body && Extend(t, bs).value.body[h] == t.body[h]
    decreases |bs|
  {
    if bs != [] {
      var u := PushBack(t, bs[0]);
      ExtendSpares(u, bs[1..], bs[0].hash);
      ExtendStores(u, bs[1..]);
      assert forall i :: 1 <= i < |bs| ==> bs[i] == bs[1..][i - 1];
    }
  }

  /** Whether the `i`-th block can be appended after those before it: it is not on the chain by
      then, and if it was ever seen it stood exactly there. */
  ghost predicate Fits(t: Tree, bs: seq<Body>, i: nat)
    requires i < |bs|
  {
    && bs[i].hash !in t.canon && (forall j :: 0 <= j < i ==> bs[j].hash != bs[i].hash)
    && (bs[i].hash in t.path ==> t.path[bs[i].hash] == t.canon + Names(bs[..i + 1]))
  }

  function Names(bs: seq<Body>): (hs: seq<Hash>)
    ensures |hs| == |bs| && forall i :: 0 <= i < |bs| ==> hs[i] == bs[i].hash
  {
    seq(|bs|, i requires 0 <= i < |bs| => bs[i].hash)
  }

  /** One block can be appended if and only if it is not canonical and, if it was seen before, its
      place was behind the tail. */
  lemma ExtendOneIff(t: Tree, b: Body)
    requires Stable(t)
    ensures ExtendOne(t, b).Some? <==> b.hash !in t.canon && (b.hash in t.path ==> t.path[b.hash] == t.canon + [b.hash])
  {
    assert t.canon[..|t.canon|] == t.canon;
    PathKnown(t, t.canon);
  }

  lemma FitsRest(t: Tree, bs: seq<Body>, i: nat)
    requires 0 < i < |bs| && Fits(t, bs, 0)
    ensures Fits(t, bs, i) <==> Fits(PushBack(t, bs[0]), bs[1..], i - 1)
  {
    var u, rest := PushBack(t, bs[0]), bs[1..];
    assert bs[i] == rest[i - 1];
    assert forall j :: 1 <= j < i ==> bs[j] == rest[j - 1];
    assert t.canon + Names(bs[..i + 1]) == u.canon + Names(rest[..i]);
    if Fits(u, rest, i - 1) {
      assert bs[0].hash in u.canon;
    }
  }

  /** An extension succeeds if and only if each block fits at its turn. */
  lemma {:induction false} ExtendSucceedsIff(t: Tree, bs: seq<Body>)
    requires Stable(t) && Unreverted(bs)
    ensures Extend(t, bs).Some? <==> forall i :: 0 <= i < |bs| ==> Fits(t, bs, i)
    decreases |bs|
  {
    if bs != [] {
      ExtendOneIff(t, bs[0]);
      assert Names(bs[..1]) == [bs[0].hash];
      if Fits(t, bs, 0) {
        var u, rest := PushBack(t, bs[0]), bs[1..];
        PushBackFitting(t, bs[0]);
        ExtendSucceedsIff(u, rest);
        forall i | 0 < i < |bs| ensures Fits(t, bs, i) <==> Fits(u, rest, i - 1) {
          FitsRest(t, bs, i);
        }
        assert forall k :: 0 <= k < |rest| && Fits(t, bs, k + 1) ==> Fits(u, rest, k);
      }
    }
  }

  lemma PushBackFitting(t: Tree, b: Body)
    requires Stable(t) && b.hash != "" && !b.Reorged()
    requires b.hash !in t.canon && (b.hash in t.path ==> t.path[b.hash] == t.canon + [b.hash])
    ensures Stable(PushBack(t, b))
  {
    assert t.canon[..|t.canon|] == t.canon;
    PushBackStable(t, b);
  }

  lemma {:induction false} ExtendKeeps(t: Tree, bs: seq<Body>)
    requires Stable(t) && Unreverted(bs) && Extend(t, bs).Some?
    ensures Stable(Extend(t, bs).value) && Grows(t, Extend(t, bs).value)
    decreases |bs|
  {
    if bs == [] {
      SamePathsGrow(t, t);
    } else {
      var u := PushBack(t, bs[0]);
      PushBackStable(t, bs[0]);
      PushBackGrows(t, bs[0]);
      ExtendKeeps(u, bs[1..]);
      GrowsTransitive(t, u, Extend(u, bs[1..]).value);
    }
  }

  /** No canonical block is marked as reorged. */
  ghost predicate Alive(t: Tree) {
    forall i :: 0 <= i < |t.canon| ==> t.canon[i] in t.body && !t.body[t.canon[i]].Reorged()
  }

  /** extend: succeeds iff each block is new or is put back where it was cut off. */
  method ExtendChain(fc: FilterChain, extended: seq<Body>) returns (ok: bool)
    requires fc.Valid() && Alive(fc.tree) && Unreverted(extended)
    modifies fc
    ensures ok <==> Extend(old(fc.tree), extended).Some?
    ensures ok ==> fc.Valid() && Alive(fc.tree) && Some(fc.tree) == Extend(old(fc.tree), extended)
  {
    for i := 0 to |extended|
      invariant fc.Valid() && Alive(fc.tree)
      invariant Extend(fc.tree, extended[i..]) == Extend(old(fc.tree), extended)
    {
      var b := extended[i];
      assert extended[i..][0] == b && extended[i..][1..] == extended[i + 1..];
      if b.hash in fc.mem.index {
        SeenBlock(fc, b.hash);
        if !fc.mem.body[fc.mem.index[b.hash]].Reorged() {
          return false;
        }
        if fc.GetPrev(fc.mem.index[b.hash]) != fc.Back() {
          return false;
        }
      }
      PushBackAlive(fc.tree, b);
      fc.PushBack(b);
    }
    assert extended[|extended|..] == [];
    return true;
  }

  lemma StableIsAlive(t: Tree)
    requires Stable(t)
    ensures Alive(t)
  {
    PathKnown(t, t.canon);
    assert t.canon[..|t.canon|] == t.canon;
  }

  lemma PushBackAlive(t: Tree, b: Body)
    requires Alive(t) && !b.Reorged() && (b.hash in t.body ==> t.body[b.hash].Reorged())
    ensures b.hash !in t.canon && Alive(PushBack(t, b))
  {
  }

  /** A detached node hangs off the canonical tail iff its path is the canonical chain and itself. */
  lemma SeenBlock(fc: FilterChain, h: Hash)
    requires fc.Valid() && h in fc.mem.index
    ensures h in fc.tree.path && fc.mem.index[h] == At(h) && At(h) in fc.mem.body && fc.mem.body[At(h)] == fc.tree.body[h]
    ensures fc.GetPrev(At(h)) == fc.Back() <==> fc.tree.path[h] == fc.tree.canon + [h]
  {
    var t := fc.tree;
    var p := t.path[h];
    assert fc.mem.index[h] == At(h);
    Predecessor(t, h);
    fc.NavigateBack(p, |p| - 1);
    fc.Ends();
    if |p| > 1 {
      assert PrefixRecorded(t, p, |p| - 2);
      assert p == p[..|p| - 1] + [h];
    }
    if t.canon != [] {
      assert PrefixRecorded(t, t.canon, |t.canon| - 1);
      assert t.canon[..|t.canon|] == t.canon;
    }
    if p == t.canon + [h] {
      assert |p| == |t.canon| + 1;
      assert |p| > 1 ==> p[|p| - 2] == t.canon[|t.canon| - 1];
    }
  }
}
