/** The virtual filter blockchain as a value: every block ever seen, the recorded
    path of predecessors of each of them, and the canonical chain, which is one of
    those paths. The linked ring of FilterChain refines this value.
 */
module ForkTree {
  import opened Basics

  /** An event log, reduced to what grouping and replay look at. */
  datatype Log = Log(number: nat, hash: Hash, removed: bool, id: nat)

  /** Position handed to a client: height and hash of a block. `NIL_CURSOR` is the empty one. */
  datatype Cursor = Cursor(height: nat, hash: Hash)

  const NIL_CURSOR := Cursor(0, "")

  /** Body of a chain node: an evm space block or a core space epoch. */
  datatype Body =
    | EthBlock(number: nat, hash: Hash, reverted: bool, logs: seq<Log>)
    | CfxEpoch(number: nat, hash: Hash, revertedTo: nat, logs: seq<Log>)
  {
    function Position(): Cursor { Cursor(number, hash) }

    predicate Reorged() {
      match this
      case EthBlock(_, _, reverted, _) => reverted
      case CfxEpoch(_, _, revertedTo, _) => revertedTo > 0
    }
  }

  /** `path[h]` runs from the root of the fork to `h` itself, along the prev links. */
  datatype Tree = Tree(body: map<Hash, Body>, path: map<Hash, seq<Hash>>, canon: seq<Hash>)

  const EMPTY := Tree(map[], map[], [])

  function Last<T>(s: seq<T>): T
    requires s != []
  {
    s[|s| - 1]
  }

  /** `p` is the recorded path of its last element, and so is each of its prefixes. */
  ghost predicate IsPath(t: Tree, p: seq<Hash>) {
    forall i :: 0 <= i < |p| ==> PrefixRecorded(t, p, i)
  }

  ghost predicate PrefixRecorded(t: Tree, p: seq<Hash>, i: nat)
    requires i < |p|
  {
    p[i] in t.path && t.path[p[i]] == p[..i + 1]
  }

  /** Names a seen block; quantifiers over blocks are instantiated where this is mentioned. */
  predicate Known(t: Tree, h: Hash) { h in t.path }

  ghost predicate WellFormed(t: Tree) {
    && t.body.Keys == t.path.Keys
    && "" !in t.body
    && (forall h :: h in t.body ==> t.body[h].hash == h)
    && (forall h {:trigger Known(t, h)} ::
          Known(t, h) ==> t.path[h] != [] && Last(t.path[h]) == h && IsPath(t, t.path[h]))
    && IsPath(t, t.canon)
  }

  /** Exactly the first `keep` canonical blocks are not marked as reorged. */
  ghost predicate Marked(t: Tree, keep: nat)
    requires keep <= |t.canon|
  {
    forall h :: h in t.body ==> (t.body[h].Reorged() <==> h !in t.canon[..keep])
  }

  /** The invariant between merges: a block is canonical iff it is not reorged. */
  ghost predicate Stable(t: Tree) {
    WellFormed(t) && Marked(t, |t.canon|)
  }

  // ---------- updates ----------

  function SetBody(t: Tree, h: Hash, b: Body): Tree {
    t.(body := t.body[h := b])
  }

  /** Appends `b` behind the canonical tail. */
  function PushBack(t: Tree, b: Body): Tree {
    Tree(t.body[b.hash := b], t.path[b.hash := t.canon + [b.hash]], t.canon + [b.hash])
  }

  /** Whether the path of `x` starts at the current canonical front. */
  predicate UnderFront(t: Tree, x: Hash) {
    t.canon != [] && x in t.path && t.path[x] != [] && t.path[x][0] == t.canon[0]
  }

  /** Puts an unseen block before the canonical front, which thereby becomes its child. */
  function PushFront(t: Tree, b: Body): Tree {
    Tree(t.body[b.hash := b],
         (map x | x in t.path :: if UnderFront(t, x) then [b.hash] + t.path[x] else t.path[x])[b.hash := [b.hash]],
         [b.hash] + t.canon)
  }

  function Rewind(t: Tree, keep: nat): Tree
    requires keep <= |t.canon|
  {
    t.(canon := t.canon[..keep])
  }

  // ---------- what paths know ----------

  lemma PathKnown(t: Tree, p: seq<Hash>)
    requires IsPath(t, p)
    ensures forall i :: 0 <= i < |p| ==> p[i] in t.path
    ensures forall h :: h in p ==> h in t.path
  {
    forall i | 0 <= i < |p| ensures p[i] in t.path {
      assert PrefixRecorded(t, p, i);
    }
  }

  lemma PathDistinct(t: Tree, p: seq<Hash>)
    requires IsPath(t, p)
    ensures forall i, j :: 0 <= i < j < |p| ==> p[i] != p[j]
  {
    forall i, j | 0 <= i < j < |p| ensures p[i] != p[j] {
      assert PrefixRecorded(t, p, i) && PrefixRecorded(t, p, j);
      assert |p[..i + 1]| != |p[..j + 1]|;
    }
  }

  /** A recorded path ends in its own hash and the element before that is known. */
  lemma Predecessor(t: Tree, h: Hash)
    requires WellFormed(t) && h in t.path
    ensures var p := t.path[h];
            |p| > 0 && p[|p| - 1] == h && IsPath(t, p) && (|p| > 1 ==> p[|p| - 2] in t.path && p[|p| - 2] != h)
  {
    assert Known(t, h);
    PathKnown(t, t.path[h]);
    PathDistinct(t, t.path[h]);
  }

  lemma PathKept(t: Tree, u: Tree, p: seq<Hash>)
    requires IsPath(t, p)
    requires forall h :: h in p && h in t.path ==> h in u.path && u.path[h] == t.path[h]
    ensures IsPath(u, p)
  {
    forall i | 0 <= i < |p| ensures PrefixRecorded(u, p, i) {
      assert PrefixRecorded(t, p, i);
    }
  }

  lemma AllPathsKept(t: Tree, u: Tree)
    requires WellFormed(t) && t.path == u.path
    ensures forall h {:trigger Known(u, h)} ::
              Known(u, h) ==> u.path[h] != [] && Last(u.path[h]) == h && IsPath(u, u.path[h])
  {
    forall h | Known(u, h) ensures u.path[h] != [] && Last(u.path[h]) == h && IsPath(u, u.path[h]) {
      assert Known(t, h);
      PathKept(t, u, t.path[h]);
    }
  }

  // ---------- updates keep the tree well formed ----------

  lemma PushBackWellFormed(t: Tree, b: Body)
    requires WellFormed(t) && b.hash != "" && b.hash !in t.canon
    requires b.hash in t.path ==> t.path[b.hash] == t.canon + [b.hash]
    ensures WellFormed(PushBack(t, b))
  {
    var h, u := b.hash, PushBack(t, b);
    forall i | 0 <= i < |u.canon| ensures PrefixRecorded(u, u.canon, i) {
      if i < |t.canon| {
        assert PrefixRecorded(t, t.canon, i);
        assert u.canon[..i + 1] == t.canon[..i + 1];
      } else {
        assert u.canon[..i + 1] == u.canon;
      }
    }
    forall x | Known(u, x) ensures u.path[x] != [] && Last(u.path[x]) == x && IsPath(u, u.path[x]) {
      if x != h {
        assert Known(t, x);
        PathKnown(t, t.path[x]);
        PathKept(t, u, t.path[x]);
      }
    }
  }

  lemma PushBackStable(t: Tree, b: Body)
    requires Stable(t) && b.hash != "" && !b.Reorged()
    requires b.hash !in t.path || (t.body[b.hash].Reorged() && t.path[b.hash] == t.canon + [b.hash])
    ensures Stable(PushBack(t, b))
  {
    PathKnown(t, t.canon);
    assert t.canon[..|t.canon|] == t.canon;
    PushBackWellFormed(t, b);
    var u := PushBack(t, b);
    assert u.canon[..|u.canon|] == t.canon + [b.hash];
  }

  lemma PushFrontWellFormed(t: Tree, b: Body)
    requires WellFormed(t) && b.hash != "" && b.hash !in t.path
    ensures WellFormed(PushFront(t, b))
  {
    var h, u := b.hash, PushFront(t, b);
    assert IsPath(u, [h]) by {
      assert [h][..1] == [h];
    }
    forall x | Known(u, x) ensures u.path[x] != [] && Last(u.path[x]) == x && IsPath(u, u.path[x]) {
      if x != h {
        assert Known(t, x);
        FrontedPath(t, b, t.path[x]);
      }
    }
    if t.canon == [] {
      assert u.canon == [h];
    } else {
      FrontedPath(t, b, t.canon);
    }
  }

  lemma FrontedPath(t: Tree, b: Body, p: seq<Hash>)
    requires WellFormed(t) && b.hash !in t.path && IsPath(t, p) && p != []
    ensures IsPath(PushFront(t, b), if t.canon != [] && p[0] == t.canon[0] then [b.hash] + p else p)
  {
    var h, u := b.hash, PushFront(t, b);
    var under := t.canon != [] && p[0] == t.canon[0];
    var q := if under then [h] + p else p;
    forall i | 0 <= i < |q| ensures PrefixRecorded(u, q, i) {
      if under && i == 0 {
        assert q[..1] == [h];
      } else {
        var k := if under then i - 1 else i;
        assert PrefixRecorded(t, p, k);
        assert t.path[p[k]][0] == p[0];
        assert UnderFront(t, p[k]) == under;
        if under {
          assert q[..i + 1] == [h] + p[..k + 1];
        }
      }
    }
  }

  lemma SetBodyWellFormed(t: Tree, h: Hash, b: Body)
    requires WellFormed(t) && h in t.body && b.hash == h
    ensures WellFormed(SetBody(t, h, b))
  {
    var u := SetBody(t, h, b);
    assert u.body.Keys == t.body.Keys;
    AllPathsKept(t, u);
    PathKept(t, u, t.canon);
  }

  lemma RewindWellFormed(t: Tree, keep: nat)
    requires WellFormed(t) && keep <= |t.canon|
    ensures WellFormed(Rewind(t, keep))
  {
    var u := Rewind(t, keep);
    AllPathsKept(t, u);
    forall i | 0 <= i < keep ensures PrefixRecorded(u, u.canon, i) {
      assert PrefixRecorded(t, t.canon, i);
      assert u.canon[..i + 1] == t.canon[..i + 1];
    }
  }

  lemma RewindStable(t: Tree, keep: nat)
    requires WellFormed(t) && keep <= |t.canon| && Marked(t, keep)
    ensures Stable(Rewind(t, keep))
  {
    var u := Rewind(t, keep);
    RewindWellFormed(t, keep);
    assert u.canon[..|u.canon|] == t.canon[..keep];
  }

  // ---------- where a path leaves the canonical chain ----------

  /** Number of leading elements `p` shares with the canonical chain. */
  function ForkPoint(t: Tree, p: seq<Hash>): (f: nat)
    ensures f <= |p| && f <= |t.canon| && p[..f] == t.canon[..f]
    ensures f < |p| && f < |t.canon| ==> p[f] != t.canon[f]
  {
    Common(p, t.canon)
  }

  function Common(p: seq<Hash>, q: seq<Hash>): (f: nat)
    ensures f <= |p| && f <= |q| && p[..f] == q[..f]
    ensures f < |p| && f < |q| ==> p[f] != q[f]
  {
    if p == [] || q == [] || p[0] != q[0] then 0
    else
      var f := Common(p[1..], q[1..]);
      assert p[..f + 1] == [p[0]] + p[1..][..f];
      assert q[..f + 1] == [q[0]] + q[1..][..f];
      f + 1
  }

  /** A path element on the canonical chain has the same predecessors there. */
  lemma CanonicalPrefix(t: Tree, p: seq<Hash>, i: nat)
    requires IsPath(t, t.canon) && IsPath(t, p) && i < |p| && p[i] in t.canon
    ensures i < |t.canon| && p[..i + 1] == t.canon[..i + 1]
  {
    var j :| 0 <= j < |t.canon| && t.canon[j] == p[i];
    assert PrefixRecorded(t, p, i) && PrefixRecorded(t, t.canon, j);
    assert |p[..i + 1]| == |t.canon[..j + 1]|;
  }

  lemma CommonIsMaximal(p: seq<Hash>, q: seq<Hash>, n: nat)
    requires n <= |p| && n <= |q| && p[..n] == q[..n]
    ensures n <= Common(p, q)
  {
    var f := Common(p, q);
    assert forall i :: 0 <= i < n ==> p[i] == p[..n][i] && q[i] == q[..n][i];
  }

  /** In a stable tree the reorged elements of a path are exactly those past the fork point. */
  lemma ReorgedPastFork(t: Tree, p: seq<Hash>, i: nat)
    requires Stable(t) && IsPath(t, p) && i < |p|
    ensures p[i] in t.body
    ensures t.body[p[i]].Reorged() <==> ForkPoint(t, p) <= i
  {
    var f := ForkPoint(t, p);
    assert t.canon[..|t.canon|] == t.canon;
    assert PrefixRecorded(t, p, i);
    if i < f {
      assert p[..f][i] == p[i] && t.canon[..f][i] == t.canon[i];
    } else if p[i] in t.canon {
      CanonicalPrefix(t, p, i);
    }
  }

  // ---------- polling and replay ----------

  /** The bodies at the given hashes. */
  function Bodies(t: Tree, hs: seq<Hash>): (bs: seq<Body>)
    requires forall h :: h in hs ==> h in t.body
    ensures |bs| == |hs| && forall i :: 0 <= i < |hs| ==> bs[i] == t.body[hs[i]]
  {
    seq(|hs|, i requires 0 <= i < |hs| => t.body[hs[i]])
  }

  function Reverse<T>(s: seq<T>): (r: seq<T>)
    ensures |r| == |s| && forall i :: 0 <= i < |s| ==> r[i] == s[|s| - 1 - i]
  {
    seq(|s|, i requires 0 <= i < |s| => s[|s| - 1 - i])
  }

  /** What a poll from the node at the end of path `p` is meant to return: the reorged
      blocks tip first, then the canonical blocks behind the fork point. */
  function Changes(t: Tree, p: seq<Hash>): (bs: seq<Body>)
    requires forall h :: h in p ==> h in t.body
    requires forall h :: h in t.canon ==> h in t.body
  {
    var f := ForkPoint(t, p);
    Bodies(t, Reverse(p[f..])) + Bodies(t, t.canon[f..])
  }

  /** How a client applies changes to its view: a reorged block must be its tip and is
      dropped, any other block is appended. */
  function Replay(view: seq<Hash>, changes: seq<Body>): Option<seq<Hash>>
    decreases |changes|
  {
    if changes == [] then Some(view)
    else if changes[0].Reorged() then
      if view != [] && Last(view) == changes[0].hash then Replay(view[..|view| - 1], changes[1..]) else None
    else Replay(view + [changes[0].hash], changes[1..])
  }

  lemma {:induction false} ReplayReverted(view: seq<Hash>, tail: seq<Hash>, bs: seq<Body>, rest: seq<Body>)
    requires |bs| == |tail|
    requires forall i :: 0 <= i < |bs| ==> bs[i].Reorged() && bs[i].hash == tail[|tail| - 1 - i]
    ensures Replay(view + tail, bs + rest) == Replay(view, rest)
  {
    if tail == [] {
      assert view + tail == view && bs + rest == rest;
    } else {
      var whole := view + tail;
      assert whole[..|whole| - 1] == view + tail[..|tail| - 1];
      assert (bs + rest)[1..] == bs[1..] + rest;
      ReplayReverted(view, tail[..|tail| - 1], bs[1..], rest);
    }
  }

  lemma {:induction false} ReplayAppended(view: seq<Hash>, hs: seq<Hash>, bs: seq<Body>)
    requires |bs| == |hs|
    requires forall i :: 0 <= i < |bs| ==> !bs[i].Reorged() && bs[i].hash == hs[i]
    ensures Replay(view, bs) == Some(view + hs)
    decreases |hs|
  {
    if hs == [] {
      assert view + hs == view;
    } else {
      ReplayAppended(view + [hs[0]], hs[1..], bs[1..]);
      assert view + [hs[0]] + hs[1..] == view + hs;
    }
  }

  lemma KnownBodies(t: Tree, p: seq<Hash>)
    requires WellFormed(t) && IsPath(t, p)
    ensures forall h :: h in p || h in t.canon ==> h in t.body
  {
    PathKnown(t, p);
    PathKnown(t, t.canon);
  }

  lemma RevertedHalf(t: Tree, p: seq<Hash>, f: nat)
    requires Stable(t) && IsPath(t, p) && f == ForkPoint(t, p)
    requires forall h :: h in p ==> h in t.body
    ensures var bs := Bodies(t, Reverse(p[f..]));
            forall i :: 0 <= i < |bs| ==> bs[i].Reorged() && bs[i].hash == p[|p| - 1 - i]
  {
    var bs := Bodies(t, Reverse(p[f..]));
    forall i | 0 <= i < |bs| ensures bs[i].Reorged() && bs[i].hash == p[|p| - 1 - i] {
      ReorgedPastFork(t, p, |p| - 1 - i);
    }
  }

  lemma CanonicalHalf(t: Tree, f: nat)
    requires Stable(t) && f <= |t.canon|
    requires forall h :: h in t.canon ==> h in t.body
    ensures var bs := Bodies(t, t.canon[f..]);
            forall i :: 0 <= i < |bs| ==> !bs[i].Reorged() && bs[i].hash == t.canon[f + i]
  {
    assert t.canon[..|t.canon|] == t.canon;
    assert forall i :: 0 <= i < |t.canon| ==> t.canon[i] in t.canon;
  }

  lemma ReplaySplit(p: seq<Hash>, c: seq<Hash>, f: nat, back: seq<Body>, fwd: seq<Body>)
    requires f <= |p| && f <= |c| && p[..f] == c[..f] && |back| == |p| - f && |fwd| == |c| - f
    requires forall i :: 0 <= i < |back| ==> back[i].Reorged() && back[i].hash == p[|p| - 1 - i]
    requires forall i :: 0 <= i < |fwd| ==> !fwd[i].Reorged() && fwd[i].hash == c[f + i]
    ensures Replay(p, back + fwd) == Some(c)
  {
    assert p == p[..f] + p[f..];
    ReplayReverted(p[..f], p[f..], back, fwd);
    ReplayAppended(p[..f], c[f..], fwd);
    assert c == c[..f] + c[f..];
  }

  /** Replaying the changes on any recorded path yields exactly the canonical chain. */
  lemma ReplayReachesCanon(t: Tree, p: seq<Hash>)
    requires Stable(t) && IsPath(t, p)
    requires forall h :: h in p || h in t.canon ==> h in t.body
    ensures Replay(p, Changes(t, p)) == Some(t.canon)
  {
    var f := ForkPoint(t, p);
    RevertedHalf(t, p, f);
    CanonicalHalf(t, f);
    ReplaySplit(p, t.canon, f, Bodies(t, Reverse(p[f..])), Bodies(t, t.canon[f..]));
  }

  /** A view that misses the first `k` elements of a path is behind: what was reverted is popped
      off it, but it never gets the missing elements. */
  lemma ReplayOnSuffix(p: seq<Hash>, k: nat, c: seq<Hash>, f: nat, back: seq<Body>, fwd: seq<Body>)
    requires 0 < k <= |p| && f <= |p| && f <= |c| && |back| == |p| - f && |fwd| == |c| - f
    requires forall i :: 0 <= i < |back| ==> back[i].Reorged() && back[i].hash == p[|p| - 1 - i]
    requires forall i :: 0 <= i < |fwd| ==> !fwd[i].Reorged() && fwd[i].hash == c[f + i]
    ensures Replay(p[k..], back + fwd) != Some(c)
  {
    if f >= k {
      assert p[k..] == p[k..f] + p[f..];
      ReplayReverted(p[k..f], p[f..], back, fwd);
      ReplayAppended(p[k..f], c[f..], fwd);
    } else {
      var n := |p| - k;
      assert [] + p[k..] == p[k..];
      assert back + fwd == back[..n] + (back[n..] + fwd);
      ReplayReverted([], p[k..], back[..n], back[n..] + fwd);
      assert (back[n..] + fwd)[0] == back[n];
    }
  }

  /** Replaying the changes of a path on the end of that path yields the canonical chain exactly if
      that end is the whole path. */
  lemma ReplayOnViewIff(t: Tree, p: seq<Hash>, k: nat)
    requires Stable(t) && IsPath(t, p) && k <= |p|
    requires forall h :: h in p || h in t.canon ==> h in t.body
    ensures Replay(p[k..], Changes(t, p)) == Some(t.canon) <==> k == 0
  {
    if k == 0 {
      assert p[0..] == p;
      ReplayReachesCanon(t, p);
    } else {
      var f := ForkPoint(t, p);
      RevertedHalf(t, p, f);
      CanonicalHalf(t, f);
      ReplayOnSuffix(p, k, t.canon, f, Bodies(t, Reverse(p[f..])), Bodies(t, t.canon[f..]));
    }
  }

  // ---------- how recorded paths evolve ----------

  /** `u` knows every block of `t`, and a recorded path only ever grows at its root end, by
      blocks that `t` had not seen. */
  ghost predicate Grows(t: Tree, u: Tree) {
    forall h :: h in t.path ==> h in u.path && GrownBy(t, u, h)
  }

  ghost predicate GrownBy(t: Tree, u: Tree, h: Hash)
    requires h in t.path && h in u.path
  {
    && |t.path[h]| <= |u.path[h]|
    && var k := |u.path[h]| - |t.path[h]|;
    && u.path[h][k..] == t.path[h]
    && forall i :: 0 <= i < k ==> u.path[h][i] !in t.path
  }

  lemma GrowsTransitive(t: Tree, u: Tree, v: Tree)
    requires Grows(t, u) && Grows(u, v)
    ensures Grows(t, v)
  {
    forall h | h in t.path ensures h in v.path && GrownBy(t, v, h) {
      assert GrownBy(t, u, h) && GrownBy(u, v, h);
      var k1, k2 := |u.path[h]| - |t.path[h]|, |v.path[h]| - |u.path[h]|;
      assert v.path[h][k1 + k2..] == v.path[h][k2..][k1..];
      forall i | 0 <= i < k1 + k2 ensures v.path[h][i] !in t.path {
        if i >= k2 {
          assert v.path[h][i] == v.path[h][k2..][i - k2];
        }
      }
    }
  }

  lemma SamePathsGrow(t: Tree, u: Tree)
    requires t.path == u.path
    ensures Grows(t, u)
  {
    forall h | h in t.path ensures GrownBy(t, u, h) {
      assert u.path[h][0..] == t.path[h];
    }
  }

  lemma PushBackGrows(t: Tree, b: Body)
    requires b.hash in t.path ==> t.path[b.hash] == t.canon + [b.hash]
    ensures Grows(t, PushBack(t, b))
  {
    var u := PushBack(t, b);
    forall h | h in t.path ensures GrownBy(t, u, h) {
      assert u.path[h][0..] == t.path[h];
    }
  }

  lemma PushFrontGrows(t: Tree, b: Body)
    requires b.hash !in t.path
    ensures Grows(t, PushFront(t, b))
  {
    var u := PushFront(t, b);
    forall h | h in t.path ensures GrownBy(t, u, h) {
      if !UnderFront(t, h) {
        assert u.path[h][0..] == t.path[h];
      }
    }
  }
}
