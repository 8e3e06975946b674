/** The links of the filter chain as values: which node each hash is indexed to, and the
    body, prev and next of every node. The lemmas say what linking, cutting and rebodying
    a node does to the shape.
 */
module Links {
  import opened Basics
  import opened ForkTree

  /** Identity of a chain node: the sentinel, the node created for a hash, or a reorg
      marker, which has no hash. */
  datatype NodeId = Root | At(hash: Hash) | Marker(serial: nat)

  /** A snapshot of the ring: the index, the body of each indexed node, and all links. */
  datatype Memory = Memory(
    index: map<Hash, NodeId>,
    body: map<NodeId, Body>,
    prev: map<NodeId, NodeId>,
    next: map<NodeId, NodeId>)

  function Node(m: Memory, h: Hash): NodeId {
    if h in m.index then m.index[h] else Root
  }

  /** The node before the last element of `p`; the root stands before the first one. */
  function NodeBefore(m: Memory, p: seq<Hash>): NodeId {
    if |p| <= 1 then Root else Node(m, p[|p| - 2])
  }

  function NodeAfter(m: Memory, p: seq<Hash>, i: int): NodeId {
    if 0 <= i + 1 < |p| then Node(m, p[i + 1]) else Root
  }

  /** The node of the `i`-th element of `p`, if there is one. */
  function Position(p: seq<Hash>, i: int): Option<NodeId> {
    if 0 <= i < |p| then Some(At(p[i])) else None
  }

  function Tail(m: Memory, p: seq<Hash>): NodeId {
    if p == [] then Root else Node(m, Last(p))
  }

  /** The index leads each hash to a node of its own that carries the block of that hash. */
  ghost predicate Indexed(m: Memory, t: Tree) {
    && m.index.Keys == t.body.Keys
    && forall h {:trigger m.index[h]} ::
         h in m.index ==> m.index[h] == At(h) && m.index[h] in m.body && m.body[m.index[h]] == t.body[h]
  }

  ghost predicate PrevOk(m: Memory, t: Tree, h: Hash) {
    h in m.index && h in t.path && m.index[h] in m.prev && m.prev[m.index[h]] == NodeBefore(m, t.path[h])
  }

  ghost predicate NextOk(m: Memory, t: Tree, i: nat) {
    && i < |t.canon| && t.canon[i] in m.index
    && m.index[t.canon[i]] in m.next && m.next[m.index[t.canon[i]]] == NodeAfter(m, t.canon, i)
  }

  ghost predicate RootOk(m: Memory, t: Tree) {
    && Root in m.next && m.next[Root] == NodeAfter(m, t.canon, -1)
    && Root in m.prev && m.prev[Root] == Tail(m, t.canon)
  }

  ghost predicate Shape(m: Memory, t: Tree) {
    && Indexed(m, t)
    && RootOk(m, t)
    && (forall h {:trigger PrevOk(m, t, h)} :: h in t.path ==> PrevOk(m, t, h))
    && (forall i {:trigger NextOk(m, t, i)} :: 0 <= i < |t.canon| ==> NextOk(m, t, i))
  }

  /** Memory after node `n` with body `b` was linked between `at` and its successor `after`. */
  function Linked(m: Memory, b: Body, n: NodeId, at: NodeId, after: NodeId): Memory {
    m.(index := m.index[b.hash := n], body := m.body[n := b],
       prev := m.prev[n := at][after := n], next := m.next[n := after][at := n])
  }

  // ---------- linking a node behind the tail ----------

  lemma PushBackShape(m: Memory, t: Tree, b: Body, n: NodeId)
    requires WellFormed(t) && Shape(m, t) && n == At(b.hash) && b.hash !in t.canon
    requires b.hash in t.path ==> t.path[b.hash] == t.canon + [b.hash]
    ensures Shape(Linked(m, b, n, Tail(m, t.canon), Root), PushBack(t, b))
  {
    var m', u := Linked(m, b, n, Tail(m, t.canon), Root), PushBack(t, b);
    PathKnown(t, t.canon);
    forall h | h in u.path ensures PrevOk(m', u, h) {
      PushBackPrev(m, t, b, n, h);
    }
    forall i | 0 <= i < |u.canon| ensures NextOk(m', u, i) {
      PushBackNext(m, t, b, n, i);
    }
  }

  lemma PushBackPrev(m: Memory, t: Tree, b: Body, n: NodeId, h: Hash)
    requires WellFormed(t) && Shape(m, t) && n == At(b.hash) && b.hash !in t.canon
    requires b.hash in t.path ==> t.path[b.hash] == t.canon + [b.hash]
    requires h in PushBack(t, b).path
    ensures PrevOk(Linked(m, b, n, Tail(m, t.canon), Root), PushBack(t, b), h)
  {
    if h == b.hash {
      PushedPrev(m, t, b, n);
    } else {
      OthersPrev(m, t, b, n, h);
    }
  }

  lemma PushedPrev(m: Memory, t: Tree, b: Body, n: NodeId)
    requires IsPath(t, t.canon) && Indexed(m, t) && t.body.Keys == t.path.Keys && n == At(b.hash) && b.hash !in t.canon
    ensures PrevOk(Linked(m, b, n, Tail(m, t.canon), Root), PushBack(t, b), b.hash)
  {
    var p := t.canon + [b.hash];
    if t.canon != [] {
      assert PrefixRecorded(t, t.canon, |t.canon| - 1);
      assert p[|p| - 2] == Last(t.canon);
    }
  }

  /** Where the predecessor of a block stands is not changed by linking another one. */
  lemma OthersPrev(m: Memory, t: Tree, b: Body, n: NodeId, h: Hash)
    requires WellFormed(t) && Shape(m, t) && n == At(b.hash) && b.hash !in t.canon && h in t.path && h != b.hash
    requires b.hash in t.path ==> t.path[b.hash] == t.canon + [b.hash]
    ensures PrevOk(Linked(m, b, n, Tail(m, t.canon), Root), PushBack(t, b), h)
  {
    assert PrevOk(m, t, h);
    Predecessor(t, h);
    assert m.index[h] == At(h);
  }

  lemma PushBackNext(m: Memory, t: Tree, b: Body, n: NodeId, i: nat)
    requires WellFormed(t) && Shape(m, t) && n == At(b.hash) && b.hash !in t.canon
    requires i <= |t.canon|
    ensures NextOk(Linked(m, b, n, Tail(m, t.canon), Root), PushBack(t, b), i)
  {
    PathKnown(t, t.canon);
    PathDistinct(t, t.canon);
    if i < |t.canon| {
      assert NextOk(m, t, i);
    }
  }

  // ---------- linking an unseen node before the front ----------

  lemma PushFrontShape(m: Memory, t: Tree, b: Body, n: NodeId)
    requires WellFormed(t) && Shape(m, t) && n == At(b.hash) && b.hash !in t.path
    ensures Shape(Linked(m, b, n, Root, NodeAfter(m, t.canon, -1)), PushFront(t, b))
  {
    var m', u := Linked(m, b, n, Root, NodeAfter(m, t.canon, -1)), PushFront(t, b);
    PathKnown(t, t.canon);
    forall h | h in u.path ensures PrevOk(m', u, h) {
      PushFrontPrev(m, t, b, n, h);
    }
    forall i | 0 <= i < |u.canon| ensures NextOk(m', u, i) {
      PushFrontNext(m, t, b, n, i);
    }
  }

  lemma PushFrontNext(m: Memory, t: Tree, b: Body, n: NodeId, i: nat)
    requires WellFormed(t) && Shape(m, t) && n == At(b.hash) && b.hash !in t.path
    requires i <= |t.canon|
    ensures NextOk(Linked(m, b, n, Root, NodeAfter(m, t.canon, -1)), PushFront(t, b), i)
  {
    PathKnown(t, t.canon);
    PathDistinct(t, t.canon);
    if i > 0 {
      assert NextOk(m, t, i - 1) && PushFront(t, b).canon[i] == t.canon[i - 1];
    }
  }

  lemma PushFrontPrev(m: Memory, t: Tree, b: Body, n: NodeId, h: Hash)
    requires WellFormed(t) && Shape(m, t) && n == At(b.hash) && b.hash !in t.path
    requires h in PushFront(t, b).path
    ensures PrevOk(Linked(m, b, n, Root, NodeAfter(m, t.canon, -1)), PushFront(t, b), h)
  {
    PathKnown(t, t.canon);
    if h != b.hash {
      assert PrevOk(m, t, h);
      Predecessor(t, h);
      FrontHasNoPredecessor(t, h);
      if UnderFront(t, h) {
        UnderFrontPrev(m, t, b, n, h);
      } else {
        BesideFrontPrev(m, t, b, n, h);
      }
    }
  }

  /** A block under the front keeps its predecessor; the front gets the new node. */
  lemma UnderFrontPrev(m: Memory, t: Tree, b: Body, n: NodeId, h: Hash)
    requires Indexed(m, t) && PrevOk(m, t, h) && n == At(b.hash) && b.hash !in t.path && t.body.Keys == t.path.Keys
    requires UnderFront(t, h) && t.canon != [] && t.canon[0] in t.path && t.path[h] != []
    requires |t.path[h]| > 1 ==> t.path[h][|t.path[h]| - 2] in t.path
    requires |t.path[h]| == 1 <==> h == t.canon[0]
    ensures PrevOk(Linked(m, b, n, Root, NodeAfter(m, t.canon, -1)), PushFront(t, b), h)
  {
    var p := [b.hash] + t.path[h];
    assert p[|p| - 2] == if |t.path[h]| > 1 then t.path[h][|t.path[h]| - 2] else b.hash;
    assert m.index[h] == At(h) && m.index[t.canon[0]] == At(t.canon[0]);
  }

  lemma BesideFrontPrev(m: Memory, t: Tree, b: Body, n: NodeId, h: Hash)
    requires Indexed(m, t) && PrevOk(m, t, h) && n == At(b.hash) && b.hash !in t.path && t.body.Keys == t.path.Keys
    requires !UnderFront(t, h) && h != b.hash && (t.canon != [] ==> h != t.canon[0] && t.canon[0] in t.path)
    requires |t.path[h]| > 1 ==> t.path[h][|t.path[h]| - 2] in t.path
    ensures PrevOk(Linked(m, b, n, Root, NodeAfter(m, t.canon, -1)), PushFront(t, b), h)
  {
    assert m.index[h] == At(h);
    if t.canon != [] {
      assert m.index[t.canon[0]] == At(t.canon[0]);
    }
  }

  /** The canonical front is the only block under the front without a predecessor. */
  lemma FrontHasNoPredecessor(t: Tree, h: Hash)
    requires WellFormed(t) && h in t.path
    ensures t.canon != [] && h == t.canon[0] ==> t.path[h] == [h]
    ensures UnderFront(t, h) && |t.path[h]| == 1 ==> h == t.canon[0]
  {
    Predecessor(t, h);
    if t.canon != [] {
      assert PrefixRecorded(t, t.canon, 0);
      assert t.canon[..1] == [t.canon[0]];
    }
  }

  // ---------- cutting the ring behind its first `keep` nodes ----------

  function Cut(m: Memory, tail: NodeId): Memory {
    m.(prev := m.prev[Root := tail], next := m.next[tail := Root])
  }

  lemma RewindShape(m: Memory, t: Tree, keep: nat)
    requires WellFormed(t) && Shape(m, t) && keep <= |t.canon|
    ensures Shape(Cut(m, Tail(m, t.canon[..keep])), Rewind(t, keep))
  {
    var m', u := Cut(m, Tail(m, t.canon[..keep])), Rewind(t, keep);
    CutRoot(m, t, keep);
    forall h | h in u.path ensures PrevOk(m', u, h) {
      assert PrevOk(m, t, h);
      assert m.index[h] == At(h);
    }
    forall i | 0 <= i < |u.canon| ensures NextOk(m', u, i) {
      CutNext(m, t, keep, i);
    }
  }

  lemma CutRoot(m: Memory, t: Tree, keep: nat)
    requires WellFormed(t) && Shape(m, t) && keep <= |t.canon|
    ensures RootOk(Cut(m, Tail(m, t.canon[..keep])), Rewind(t, keep))
  {
    PathKnown(t, t.canon);
    if keep > 0 {
      assert m.index[t.canon[keep - 1]] == At(t.canon[keep - 1]);
    }
  }

  lemma CutNext(m: Memory, t: Tree, keep: nat, i: nat)
    requires WellFormed(t) && Shape(m, t) && i < keep <= |t.canon|
    ensures NextOk(Cut(m, Tail(m, t.canon[..keep])), Rewind(t, keep), i)
  {
    PathKnown(t, t.canon);
    PathDistinct(t, t.canon);
    assert NextOk(m, t, i);
    assert m.index[t.canon[i]] == At(t.canon[i]) && m.index[t.canon[keep - 1]] == At(t.canon[keep - 1]);
  }

  // ---------- replacing the body of a node ----------

  function Rebodied(m: Memory, n: NodeId, b: Body): Memory {
    m.(body := m.body[n := b])
  }

  lemma SetBodyShape(m: Memory, t: Tree, b: Body)
    requires Shape(m, t) && b.hash in m.index
    ensures Shape(Rebodied(m, m.index[b.hash], b), SetBody(t, b.hash, b))
  {
    var m', u := Rebodied(m, m.index[b.hash], b), SetBody(t, b.hash, b);
    forall h | h in u.path ensures PrevOk(m', u, h) {
      assert PrevOk(m, t, h);
    }
    forall i | 0 <= i < |u.canon| ensures NextOk(m', u, i) {
      assert NextOk(m, t, i);
    }
  }

  lemma SameCut(t: Tree, i: nat, j: nat)
    requires WellFormed(t) && i <= |t.canon| && j <= |t.canon| && Position(t.canon, i - 1) == Position(t.canon, j - 1)
    ensures i == j
  {
    PathDistinct(t, t.canon);
  }
}
