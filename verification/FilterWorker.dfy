/** Polling of the filter chain by clients that hold cursors into it. */
module FilterWorker {
  import opened Basics
  import opened ForkTree
  import opened Links
  import opened FilterChain

  // ---------- what a poll returns ----------

  /** Whether the polling callback reports a visited node. */
  predicate Reported(v: Visit, cursor: Cursor) {
    && v.body.Some?
    && (cursor == NIL_CURSOR || (!v.forkPoint && !(v.body.value.Position() == cursor && !v.body.value.Reorged())))
  }

  function Polled(visits: seq<Visit>, cursor: Cursor): (bs: seq<Body>) {
    if visits == [] then []
    else
      Polled(visits[..|visits| - 1], cursor)
      + (if Reported(Last(visits), cursor) then [Last(visits).body.value] else [])
  }

  lemma {:induction false} PolledConcat(a: seq<Visit>, b: seq<Visit>, cursor: Cursor)
    ensures Polled(a + b, cursor) == Polled(a, cursor) + Polled(b, cursor)
  {
    if b == [] {
      assert a + b == a;
    } else {
      assert (a + b)[..|a + b| - 1] == a + b[..|b| - 1];
      PolledConcat(a, b[..|b| - 1], cursor);
    }
  }

  lemma {:induction false} PolledPlain(bs: seq<Body>, cursor: Cursor)
    requires forall i :: 0 <= i < |bs| ==> Reported(Visit(Some(bs[i]), false), cursor)
    ensures Polled(Plain(bs), cursor) == bs
  {
    if bs != [] {
      var n := |bs| - 1;
      assert Plain(bs)[..n] == Plain(bs[..n]);
      PolledPlain(bs[..n], cursor);
    }
  }

  lemma PolledSplit(back: seq<Body>, fork: Visit, fwd: seq<Body>, cursor: Cursor)
    requires cursor != NIL_CURSOR && fork.forkPoint
    requires forall i :: 0 <= i < |back| ==> back[i].Reorged()
    requires forall i :: 0 <= i < |fwd| ==> fwd[i].hash != cursor.hash
    ensures Polled(Plain(back) + ([fork] + Plain(fwd)), cursor) == back + fwd
  {
    PolledPlain(back, cursor);
    PolledConcat(Plain(back), [fork] + Plain(fwd), cursor);
    PolledForward(fork, fwd, cursor);
  }

  lemma PolledForward(fork: Visit, fwd: seq<Body>, cursor: Cursor)
    requires cursor != NIL_CURSOR && fork.forkPoint && forall i :: 0 <= i < |fwd| ==> fwd[i].hash != cursor.hash
    ensures Polled([fork] + Plain(fwd), cursor) == fwd
  {
    PolledPlain(fwd, cursor);
    PolledConcat([fork], Plain(fwd), cursor);
    assert [fork][..0] == [] && Polled([fork], cursor) == [];
  }

  lemma PolledFirst(first: Body, fwd: seq<Body>, cursor: Cursor)
    requires cursor != NIL_CURSOR && first.hash == cursor.hash && !first.Reorged()
    requires forall i :: 0 <= i < |fwd| ==> fwd[i].hash != cursor.hash
    ensures Polled(Plain([first] + fwd), cursor) == (if first.number != cursor.height then [first] else []) + fwd
  {
    assert Plain([first] + fwd) == Plain([first]) + Plain(fwd);
    PolledConcat(Plain([first]), Plain(fwd), cursor);
    PolledPlain(fwd, cursor);
    assert Plain([first])[..0] == [];
  }

  /** The block at the cursor is reported once more iff it is canonical at another height. */
  function Repeated(t: Tree, cursor: Cursor): seq<Body>
    requires cursor.hash in t.body
  {
    var b := t.body[cursor.hash];
    if !b.Reorged() && b.number != cursor.height then [b] else []
  }

  /** Canonical blocks behind the fork point of a path are not on that path. */
  lemma ForwardIsNew(t: Tree, h: Hash, f: nat)
    requires Stable(t) && KnownPath(t, h) && f == ForkPoint(t, t.path[h])
    ensures forall i :: f <= i < |t.canon| ==> t.canon[i] != h
  {
    var p := t.path[h];
    Predecessor(t, h);
    PathDistinct(t, t.canon);
    forall i | f <= i < |t.canon| ensures t.canon[i] != h {
      if t.canon[i] == p[|p| - 1] {
        CanonicalPrefix(t, p, |p| - 1);
        assert p[|p| - 1] == p[..|p|][|p| - 1] == t.canon[|p| - 1];
        CommonIsMaximal(p, t.canon, |p|);
      }
    }
  }

  /** A poll from a cursor reports the reorged blocks of its path, tip first, then the
      canonical blocks behind the fork point. */
  lemma PollReportsChanges(t: Tree, cursor: Cursor)
    requires Stable(t) && KnownPath(t, cursor.hash)
    ensures Polled(Visits(t, t.path[cursor.hash]), cursor) == Repeated(t, cursor) + Changes(t, t.path[cursor.hash])
  {
    var p := t.path[cursor.hash];
    Predecessor(t, cursor.hash);
    ReorgedPastFork(t, p, |p| - 1);
    if ForkPoint(t, p) < |p| {
      PollFromFork(t, cursor, ForkPoint(t, p));
    } else {
      PollFromCanon(t, cursor, ForkPoint(t, p));
    }
  }

  lemma PollFromFork(t: Tree, cursor: Cursor, f: nat)
    requires Stable(t) && KnownPath(t, cursor.hash)
    requires f == ForkPoint(t, t.path[cursor.hash]) < |t.path[cursor.hash]|
    ensures Polled(Visits(t, t.path[cursor.hash]), cursor) == Changes(t, t.path[cursor.hash])
  {
    var p := t.path[cursor.hash];
    Predecessor(t, cursor.hash);
    RevertedHalf(t, p, f);
    CanonicalHalf(t, f);
    ForwardIsNew(t, cursor.hash, f);
    PolledSplit(Bodies(t, Reverse(p[f..])), Visit(if f > 0 then Some(t.body[p[f - 1]]) else None, true),
                Bodies(t, t.canon[f..]), cursor);
  }

  lemma SplitBodies(t: Tree, c: seq<Hash>, f: nat)
    requires 0 < f <= |c| && forall h :: h in c ==> h in t.body
    ensures Bodies(t, c[f - 1..]) == [t.body[c[f - 1]]] + Bodies(t, c[f..])
  {
    assert c[f - 1..] == [c[f - 1]] + c[f..];
  }

  /** Polling from a canonical block. */
  lemma OnCanon(t: Tree, h: Hash, f: nat)
    requires WellFormed(t) && KnownPath(t, h) && f == ForkPoint(t, t.path[h]) == |t.path[h]|
    ensures 0 < f <= |t.canon| && t.canon[f - 1] == h
    ensures Visits(t, t.path[h]) == Plain([t.body[h]] + Bodies(t, t.canon[f..]))
    ensures Visits(t, t.path[h]) == Plain(Bodies(t, t.canon[f - 1..]))
    ensures Changes(t, t.path[h]) == Bodies(t, t.canon[f..])
  {
    var p := t.path[h];
    Predecessor(t, h);
    assert p[f - 1] == p[..f][f - 1] == t.canon[f - 1];
    SplitBodies(t, t.canon, f);
    assert Bodies(t, Reverse(p[f..])) == [];
  }

  lemma PollFromCanon(t: Tree, cursor: Cursor, f: nat)
    requires Stable(t) && KnownPath(t, cursor.hash) && !t.body[cursor.hash].Reorged()
    requires f == ForkPoint(t, t.path[cursor.hash]) == |t.path[cursor.hash]|
    ensures Polled(Visits(t, t.path[cursor.hash]), cursor) == Repeated(t, cursor) + Changes(t, t.path[cursor.hash])
  {
    OnCanon(t, cursor.hash, f);
    CanonicalHalf(t, f);
    ForwardIsNew(t, cursor.hash, f);
    PolledFirst(t.body[cursor.hash], Bodies(t, t.canon[f..]), cursor);
  }

  // ---------- replay ----------

  lemma PollReplays(t: Tree, cursor: Cursor, p: seq<Hash>)
    requires Stable(t) && KnownPath(t, cursor.hash) && p == t.path[cursor.hash]
    requires t.body[cursor.hash].Reorged() || t.body[cursor.hash].number == cursor.height
    ensures Replay(p, Polled(Visits(t, p), cursor)) == Some(t.canon)
  {
    Predecessor(t, cursor.hash);
    PollReportsChanges(t, cursor);
    ReplayReachesCanon(t, p);
    assert Repeated(t, cursor) + Changes(t, p) == Changes(t, p);
  }

  lemma PollRepeats(t: Tree, cursor: Cursor, p: seq<Hash>)
    requires Stable(t) && KnownPath(t, cursor.hash) && p == t.path[cursor.hash]
    requires !t.body[cursor.hash].Reorged() && t.body[cursor.hash].number != cursor.height
    ensures Replay(p, Polled(Visits(t, p), cursor)) != Some(t.canon)
  {
    Predecessor(t, cursor.hash);
    PollReportsChanges(t, cursor);
    ReorgedPastFork(t, p, |p| - 1);
    RepeatedReplay(t, cursor, |p|);
  }

  /** Applying a poll to the path the cursor stands for gives the canonical chain, exactly
      when the block at the cursor is reorged or still has the cursor's height. */
  lemma PollReplaysIff(t: Tree, cursor: Cursor)
    requires Stable(t) && KnownPath(t, cursor.hash)
    ensures Replay(t.path[cursor.hash], Polled(Visits(t, t.path[cursor.hash]), cursor)) == Some(t.canon)
            <==> t.body[cursor.hash].Reorged() || t.body[cursor.hash].number == cursor.height
  {
    if t.body[cursor.hash].Reorged() || t.body[cursor.hash].number == cursor.height {
      PollReplays(t, cursor, t.path[cursor.hash]);
    } else {
      PollRepeats(t, cursor, t.path[cursor.hash]);
    }
  }

  /** A block reported twice ends up twice in the client's view. */
  lemma RepeatedReplay(t: Tree, cursor: Cursor, f: nat)
    requires Stable(t) && KnownPath(t, cursor.hash) && !t.body[cursor.hash].Reorged()
    requires t.body[cursor.hash].number != cursor.height
    requires f == ForkPoint(t, t.path[cursor.hash]) == |t.path[cursor.hash]|
    ensures Replay(t.path[cursor.hash], Repeated(t, cursor) + Changes(t, t.path[cursor.hash])) != Some(t.canon)
  {
    var p := t.path[cursor.hash];
    var fwd := Bodies(t, t.canon[f..]);
    CanonicalHalf(t, f);
    assert Bodies(t, Reverse(p[f..])) == [];
    assert Repeated(t, cursor) + Changes(t, p) == [t.body[cursor.hash]] + fwd;
    ReplayAppended(p, [t.body[cursor.hash].hash] + t.canon[f..], [t.body[cursor.hash]] + fwd);
    assert |p + ([t.body[cursor.hash].hash] + t.canon[f..])| == |t.canon| + 1;
  }

  // ---------- the nil cursor ----------

  lemma {:induction false} PolledNil(visits: seq<Visit>)
    ensures |Polled(visits, NIL_CURSOR)| <= |visits|
    ensures visits != [] && visits[0].body.Some? ==>
              Polled(visits, NIL_CURSOR) != [] && Polled(visits, NIL_CURSOR)[0] == visits[0].body.value
  {
    if visits != [] {
      PolledNil(visits[..|visits| - 1]);
    }
  }

  /** A nil cursor polls from the genesis node, the first block ever inserted. That reports
      the canonical chain exactly when the genesis is its front. */
  lemma NilPollIsCanonIff(t: Tree, g: Hash)
    requires Stable(t) && KnownPath(t, g)
    ensures Polled(Visits(t, t.path[g]), NIL_CURSOR) == Bodies(t, t.canon) <==> t.canon != [] && t.canon[0] == g
  {
    var p := t.path[g];
    Predecessor(t, g);
    ReorgedPastFork(t, p, |p| - 1);
    if ForkPoint(t, p) < |p| {
      GenesisOffChain(t, g);
    } else {
      var f := ForkPoint(t, p);
      OnCanon(t, g, f);
      PolledPlain(Bodies(t, t.canon[f - 1..]), NIL_CURSOR);
      GenesisOnChain(t, g, f - 1);
    }
  }

  lemma GenesisOffChain(t: Tree, g: Hash)
    requires Stable(t) && KnownPath(t, g) && t.body[g].Reorged() && ForkPoint(t, t.path[g]) < |t.path[g]|
    ensures g !in t.canon
    ensures Polled(Visits(t, t.path[g]), NIL_CURSOR) != Bodies(t, t.canon)
  {
    Predecessor(t, g);
    RevertedHalf(t, t.path[g], ForkPoint(t, t.path[g]));
    PolledNil(Visits(t, t.path[g]));
    CanonicalHalf(t, 0);
    assert t.canon[0..] == t.canon == t.canon[..|t.canon|];
  }

  lemma GenesisOnChain(t: Tree, g: Hash, i: nat)
    requires WellFormed(t) && i < |t.canon| && t.canon[i] == g && forall h :: h in t.canon ==> h in t.body
    ensures Bodies(t, t.canon[i..]) == Bodies(t, t.canon) <==> i == 0
    ensures t.canon[0] == g <==> i == 0
  {
    PathDistinct(t, t.canon);
    assert t.canon[0..] == t.canon;
  }

  lemma PolledFromMarker(marker: Body, bs: seq<Body>)
    ensures Polled([Visit(Some(marker), false), Visit(None, true)] + Plain(bs), NIL_CURSOR) == [marker] + bs
  {
    var head := [Visit(Some(marker), false), Visit(None, true)];
    PolledConcat(head, Plain(bs), NIL_CURSOR);
    PolledPlain(bs, NIL_CURSOR);
    assert head[..1] == [Visit(Some(marker), false)] && head[..1][..0] == [];
    assert Polled(head[..1], NIL_CURSOR) == [] + [marker];
  }

  /** The polling callback, applied to all visits of a traversal. */
  method CollectReported(visits: seq<Visit>, cursor: Cursor) returns (blocks: seq<Body>)
    ensures blocks == Polled(visits, cursor)
  {
    blocks := [];
    for i := 0 to |visits|
      invariant blocks == Polled(visits[..i], cursor)
    {
      assert visits[..i + 1][..i] == visits[..i] && Last(visits[..i + 1]) == visits[i];
      if Reported(visits[i], cursor) {
        blocks := blocks + [visits[i].body.value];
      }
    }
    assert visits[..|visits|] == visits;
  }

  // ---------- sessions ----------

  type FilterId = string

  datatype PollResult = FilterNotFound | BadCursor | Changed(blocks: seq<Body>)

  /** The polling session of a filter worker: the shared chain and a cursor per client. */
  class Session {
    const chain: FilterChain
    var cursors: map<FilterId, Cursor>

    /** Every stored cursor is nil or names an indexed block. */
    ghost predicate Valid()
      reads this, chain
    {
      && chain.Valid() && Stable(chain.tree)
      && forall f :: f in cursors ==> cursors[f] == NIL_CURSOR || cursors[f].hash in chain.tree.path
    }

    constructor ()
      ensures Valid() && fresh(chain) && cursors == map[] && chain.tree == EMPTY
    {
      chain := new FilterChain();
      cursors := map[];
    }

    /** Registers a client at the canonical tail. */
    method Accept(fid: FilterId)
      requires Valid()
      modifies this`cursors
      ensures Valid() && cursors == old(cursors)[fid := chain.SnapshotLatestCursor()]
    {
      PathKnown(chain.tree, chain.tree.canon);
      cursors := cursors[fid := chain.SnapshotLatestCursor()];
    }

    method Reject(fid: FilterId) returns (found: bool)
      requires Valid()
      modifies this`cursors
      ensures Valid() && found == (fid in old(cursors)) && cursors == old(cursors) - {fid}
    {
      found := fid in cursors;
      cursors := cursors - {fid};
    }

    /** What a poll from `cursor` reports: from a block or the genesis block, the callback's selection
        of the visits; from a genesis that is a reorg marker, the marker and the canonical chain. */
    ghost predicate Reports(cursor: Cursor, blocks: seq<Body>)
      requires chain.Valid()
      reads this, chain
    {
      if cursor != NIL_CURSOR then
        && KnownPath(chain.tree, cursor.hash)
        && blocks == Polled(Visits(chain.tree, chain.tree.path[cursor.hash]), cursor)
      else
        match chain.genesis
        case None => blocks == []
        case Some(Root) => false
        case Some(At(g)) =>
          KnownPath(chain.tree, g) && blocks == Polled(Visits(chain.tree, chain.tree.path[g]), NIL_CURSOR)
        case Some(Marker(_)) =>
          && (forall h :: h in chain.tree.canon ==> h in chain.tree.body)
          && chain.genesis.value in chain.mem.body
          && blocks == [chain.mem.body[chain.genesis.value]] + Bodies(chain.tree, chain.tree.canon)
    }

    /** Traverses the chain from a cursor that is nil or indexed. */
    method Poll(cursor: Cursor) returns (blocks: Option<seq<Body>>)
      requires chain.Valid() && Stable(chain.tree) && (cursor == NIL_CURSOR || cursor.hash in chain.tree.path)
      ensures blocks.Some? && Reports(cursor, blocks.value)
    {
      var visits := chain.Traverse(cursor);
      if visits == None {
        return None;
      }
      var reported := CollectReported(visits.value, cursor);
      if cursor == NIL_CURSOR && chain.genesis.Some? && chain.genesis.value.Marker? {
        PolledFromMarker(chain.mem.body[chain.genesis.value], Bodies(chain.tree, chain.tree.canon));
      }
      blocks := Some(reported);
    }

    /** Reports the changes since the cursor of a client and moves it to the canonical tail.
        A stored cursor is never refused. */
    method FetchPollingChanges(fid: FilterId) returns (r: PollResult)
      requires Valid()
      modifies this`cursors
      ensures Valid() && r != BadCursor && (r == FilterNotFound <==> fid !in old(cursors))
      ensures r == FilterNotFound ==> cursors == old(cursors)
      ensures r.Changed? ==> cursors == old(cursors)[fid := chain.SnapshotLatestCursor()]
      ensures r.Changed? ==> Reports(old(cursors)[fid], r.blocks)
    {
      if fid !in cursors {
        return FilterNotFound;
      }
      var blocks := Poll(cursors[fid]);
      if blocks == None {
        return BadCursor;
      }
      PathKnown(chain.tree, chain.tree.canon);
      cursors := cursors[fid := chain.SnapshotLatestCursor()];
      r := Changed(blocks.value);
    }
  }
}
