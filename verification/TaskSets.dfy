/** Ranges of epochs and how often a collection of ranges covers an epoch. */
module TaskSets {

  /** A task covers the epochs `from` to `to`, both included. */
  datatype Task = Task(from: nat, to: nat) {
    predicate Proper() { from <= to }

    predicate Has(e: nat) { from <= e <= to }

    function Size(): int { to - from + 1 }
  }

  function One(b: bool): nat { if b then 1 else 0 }

  function Cover(ts: seq<Task>, e: nat): nat {
    if ts == [] then 0 else Cover(ts[..|ts| - 1], e) + One(ts[|ts| - 1].Has(e))
  }

  ghost predicate AllProper(ts: seq<Task>) {
    forall i :: 0 <= i < |ts| ==> ts[i].Proper()
  }

  /** Sum of `2 * size - k` over all tasks. */
  function Work(ts: seq<Task>, k: nat): int {
    if ts == [] then 0 else Work(ts[..|ts| - 1], k) + 2 * ts[|ts| - 1].Size() - k
  }

  function Without<T>(s: seq<T>, i: nat): seq<T>
    requires i < |s|
  {
    s[..i] + s[i + 1..]
  }

  lemma CoverAdd(ts: seq<Task>, x: Task, e: nat)
    ensures Cover(ts + [x], e) == Cover(ts, e) + One(x.Has(e))
  {
    assert (ts + [x])[..|ts|] == ts;
  }

  lemma {:induction false} CoverConcat(a: seq<Task>, b: seq<Task>, e: nat)
    ensures Cover(a + b, e) == Cover(a, e) + Cover(b, e)
  {
    if b == [] {
      assert a + b == a;
    } else {
      assert (a + b)[..|a + b| - 1] == a + b[..|b| - 1];
      CoverConcat(a, b[..|b| - 1], e);
    }
  }

  lemma CoverRemove(ts: seq<Task>, i: nat, e: nat)
    requires i < |ts|
    ensures Cover(ts, e) == Cover(Without(ts, i), e) + One(ts[i].Has(e))
  {
    CoverConcat(ts[..i], ts[i + 1..], e);
    CoverConcat(ts[..i] + [ts[i]], ts[i + 1..], e);
    CoverAdd(ts[..i], ts[i], e);
    assert ts == ts[..i] + [ts[i]] + ts[i + 1..];
  }

  lemma WorkAdd(ts: seq<Task>, x: Task, k: nat)
    ensures Work(ts + [x], k) == Work(ts, k) + 2 * x.Size() - k
  {
    assert (ts + [x])[..|ts|] == ts;
  }

  lemma {:induction false} WorkConcat(a: seq<Task>, b: seq<Task>, k: nat)
    ensures Work(a + b, k) == Work(a, k) + Work(b, k)
  {
    if b == [] {
      assert a + b == a;
    } else {
      assert (a + b)[..|a + b| - 1] == a + b[..|b| - 1];
      WorkConcat(a, b[..|b| - 1], k);
    }
  }

  lemma WorkRemove(ts: seq<Task>, i: nat, k: nat)
    requires i < |ts|
    ensures Work(ts, k) == Work(Without(ts, i), k) + 2 * ts[i].Size() - k
  {
    WorkConcat(ts[..i], ts[i + 1..], k);
    WorkConcat(ts[..i] + [ts[i]], ts[i + 1..], k);
    WorkAdd(ts[..i], ts[i], k);
    assert ts == ts[..i] + [ts[i]] + ts[i + 1..];
  }

  lemma {:induction false} WorkNonNegative(ts: seq<Task>, k: nat)
    requires AllProper(ts) && k <= 2
    ensures Work(ts, k) >= 0
  {
    if ts != [] {
      WorkNonNegative(ts[..|ts| - 1], k);
    }
  }

  /** Splitting a task in two covers the same epochs. */
  lemma SplitCover(x: Task, mid: nat, e: nat)
    requires x.from <= mid < x.to
    ensures One(x.Has(e)) == One(Task(x.from, mid).Has(e)) + One(Task(mid + 1, x.to).Has(e))
  {
  }

  /** Index of a task with the least first epoch. */
  function MinIndex(ts: seq<Task>): (m: nat)
    requires ts != []
    ensures m < |ts| && forall i :: 0 <= i < |ts| ==> ts[m].from <= ts[i].from
  {
    if |ts| == 1 then 0
    else
      var m := MinIndex(ts[..|ts| - 1]);
      if ts[|ts| - 1].from < ts[m].from then |ts| - 1 else m
  }
}
