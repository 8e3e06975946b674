/** Call traces as a forest, and the stack machine that turns a pre-order list with child counts
    into a list of calls bracketed by their results.
 */
module TraceForest {
  import opened Basics

  datatype Kind = Call | Result

  datatype Trace = Trace(kind: Kind, txHash: string, txPosition: Option<nat>, id: nat)

  /** One element of the input; unsupported traces are absent. */
  datatype Entry = Entry(trace: Option<Trace>, result: Option<Trace>, subTraces: nat)

  // ---------- forests ----------

  /** Calls with their results and sub-calls, in order. */
  datatype Forest = Nil | Cons(call: Trace, result: Trace, children: Forest, rest: Forest)

  function Len(f: Forest): nat {
    match f
    case Nil => 0
    case Cons(_, _, _, rest) => 1 + Len(rest)
  }

  /** Every call before its sub-calls, with their number. */
  function Preorder(f: Forest): seq<Entry> {
    match f
    case Nil => []
    case Cons(call, result, children, rest) =>
      [Entry(Some(call), Some(result), Len(children))] + Preorder(children) + Preorder(rest)
  }

  /** Every call, then its sub-calls, then its result. */
  function Flatten(f: Forest): seq<Trace> {
    match f
    case Nil => []
    case Cons(call, result, children, rest) => [call] + Flatten(children) + [result] + Flatten(rest)
  }

  // ---------- the machine ----------

  /** Results held back until their remaining sub-calls are done, the innermost on top. */
  datatype Stack = Bottom | Push(result: Trace, subTraces: nat, below: Stack)

  datatype State = State(traces: seq<Trace>, stack: Stack)

  const EMPTY := State([], Bottom)

  predicate Positive(stack: Stack) {
    stack.Push? ==> stack.subTraces > 0 && Positive(stack.below)
  }

  /** One sub-call of the top frame is done. */
  function Pop(traces: seq<Trace>, stack: Stack): (r: State)
    requires Positive(stack)
    ensures Positive(r.stack)
    decreases stack
  {
    match stack
    case Bottom => State(traces, Bottom)
    case Push(result, n, below) =>
      if n > 1 then State(traces, Push(result, n - 1, below)) else Pop(traces + [result], below)
  }

  function Step(s: State, e: Entry): (r: State)
    requires Positive(s.stack)
    ensures Positive(r.stack)
  {
    if e.trace == None then s
    else if e.subTraces != 0 then
      State(s.traces + [e.trace.value], if e.result.Some? then Push(e.result.value, e.subTraces, s.stack) else s.stack)
    else
      Pop(s.traces + [e.trace.value] + if e.result.Some? then [e.result.value] else [], s.stack)
  }

  function Feed(s: State, entries: seq<Entry>): (r: State)
    requires Positive(s.stack)
    ensures Positive(r.stack)
  {
    if entries == [] then s else Step(Feed(s, entries[..|entries| - 1]), entries[|entries| - 1])
  }

  lemma {:induction false} FeedConcat(s: State, a: seq<Entry>, b: seq<Entry>)
    requires Positive(s.stack)
    ensures Feed(s, a + b) == Feed(Feed(s, a), b)
  {
    if b == [] {
      assert a + b == a;
    } else {
      assert (a + b)[..|a + b| - 1] == a + b[..|b| - 1];
      FeedConcat(s, a, b[..|b| - 1]);
    }
  }

  lemma FeedOne(s: State, e: Entry)
    requires Positive(s.stack)
    ensures Feed(s, [e]) == Step(s, e)
  {
    assert [e][..0] == [];
  }

  // ---------- feeding a forest ----------

  /** The top frame can take as many sub-calls. */
  predicate Room(stack: Stack, n: nat) {
    Positive(stack) && (stack.Push? ==> n <= stack.subTraces)
  }

  /** `n` sub-calls of the top frame are done. */
  function PopN(traces: seq<Trace>, stack: Stack, n: nat): State
    requires Room(stack, n)
  {
    if n == 0 || stack == Bottom then State(traces, stack)
    else if stack.subTraces > n then State(traces, Push(stack.result, stack.subTraces - n, stack.below))
    else Pop(traces + [stack.result], stack.below)
  }

  function Tree(call: Trace, result: Trace, children: Forest): seq<Entry> {
    [Entry(Some(call), Some(result), Len(children))] + Preorder(children)
  }

  function FlatTree(call: Trace, result: Trace, children: Forest): seq<Trace> {
    [call] + Flatten(children) + [result]
  }

  lemma Assoc(a: seq<Trace>, b: seq<Trace>, c: seq<Trace>)
    ensures a + (b + c) == a + b + c
  {
  }

  /** Feeding a forest adds its bracketed form and counts its trees off the top frame. */
  lemma {:induction false} FeedForest(s: State, f: Forest)
    requires Room(s.stack, Len(f))
    ensures Feed(s, Preorder(f)) == PopN(s.traces + Flatten(f), s.stack, Len(f))
    decreases f, 0
  {
    match f
    case Nil =>
      assert s.traces + [] == s.traces;
    case Cons(call, result, children, rest) =>
      FeedConcat(s, Tree(call, result, children), Preorder(rest));
      FeedTree(s, call, result, children);
      FeedRest(s.traces + FlatTree(call, result, children), s.stack, rest);
      Assoc(s.traces, FlatTree(call, result, children), Flatten(rest));
  }

  lemma PopBelow(traces: seq<Trace>, stack: Stack, n: nat, more: seq<Trace>)
    requires Room(stack, 1 + n) && n > 0
    ensures Pop(traces, stack).traces == traces && Room(Pop(traces, stack).stack, n)
    ensures PopN(more, Pop(traces, stack).stack, n) == PopN(more, stack, 1 + n)
  {
  }

  lemma FeedRest(traces: seq<Trace>, stack: Stack, rest: Forest)
    requires Room(stack, 1 + Len(rest))
    ensures Feed(Pop(traces, stack), Preorder(rest)) == PopN(traces + Flatten(rest), stack, 1 + Len(rest))
    decreases rest, 1
  {
    if rest == Nil {
      FeedNone(traces, stack);
    } else {
      PopBelow(traces, stack, Len(rest), traces + Flatten(rest));
      FeedForest(Pop(traces, stack), rest);
    }
  }

  lemma FeedNone(traces: seq<Trace>, stack: Stack)
    requires Room(stack, 1)
    ensures Feed(Pop(traces, stack), Preorder(Nil)) == PopN(traces + Flatten(Nil), stack, 1 + Len(Nil))
  {
    assert traces + Flatten(Nil) == traces;
    assert Preorder(Nil) == [];
  }

  lemma FeedTree(s: State, call: Trace, result: Trace, children: Forest)
    requires Positive(s.stack)
    ensures Feed(s, Tree(call, result, children)) == Pop(s.traces + FlatTree(call, result, children), s.stack)
    decreases children, 1
  {
    var e := Entry(Some(call), Some(result), Len(children));
    FeedOne(s, e);
    if children == Nil {
      assert Tree(call, result, children) == [e];
      assert s.traces + [call] + [result] == s.traces + FlatTree(call, result, children);
    } else {
      FeedConcat(s, [e], Preorder(children));
      FeedForest(Step(s, e), children);
      Assoc(s.traces, [call], Flatten(children));
      Assoc(s.traces, [call] + Flatten(children), [result]);
    }
  }

  /** Feeding the pre-order of a forest yields its bracketed form, with nothing held back. */
  lemma FlattensForest(f: Forest)
    ensures Feed(EMPTY, Preorder(f)) == State(Flatten(f), Bottom)
  {
    FeedForest(EMPTY, f);
    assert [] + Flatten(f) == Flatten(f);
  }

  // ---------- which inputs are forests ----------

  /** Nothing in the input is absent. */
  predicate Present(entries: seq<Entry>) {
    forall i :: 0 <= i < |entries| ==> entries[i].trace.Some? && entries[i].result.Some?
  }

  /** Whatever is on the stack, a frame that waits for `n` sub-calls is not closed. */
  ghost predicate Stuck(entries: seq<Entry>, n: nat) {
    forall s: State :: s.stack.Push? && Room(s.stack, n) ==> Feed(s, entries).stack.Push?
  }

  lemma FeedFirst(s: State, entries: seq<Entry>)
    requires Positive(s.stack) && entries != []
    ensures Feed(s, entries) == Feed(Step(s, entries[0]), entries[1..])
  {
    assert entries == [entries[0]] + entries[1..];
    FeedConcat(s, [entries[0]], entries[1..]);
    FeedOne(s, entries[0]);
  }

  lemma FeedTreeThen(s: State, e: Entry, children: Forest, more: seq<Entry>)
    requires Positive(s.stack) && e.trace.Some? && e.result.Some? && Len(children) == e.subTraces
    ensures Feed(s, [e] + (Preorder(children) + more))
         == Feed(Pop(s.traces + FlatTree(e.trace.value, e.result.value, children), s.stack), more)
  {
    var tree := Tree(e.trace.value, e.result.value, children);
    FeedTree(s, e.trace.value, e.result.value, children);
    TreeThen(e, children, more, tree);
    FeedConcat(s, tree, more);
  }

  lemma TreeThen(e: Entry, children: Forest, more: seq<Entry>, tree: seq<Entry>)
    requires e.trace.Some? && e.result.Some? && Len(children) == e.subTraces
    requires tree == Tree(e.trace.value, e.result.value, children)
    ensures [e] + (Preorder(children) + more) == tree + more
  {
  }

  /** A list starts with `n` trees, or else ends before they are complete. */
  lemma {:induction false} ReadTrees(entries: seq<Entry>, n: nat) returns (ok: bool, f: Forest, rest: seq<Entry>)
    requires Present(entries)
    ensures ok ==> Present(rest) && |rest| <= |entries| && Len(f) == n && entries == Preorder(f) + rest
    ensures !ok ==> n > 0 && Stuck(entries, n)
    decreases |entries|, n
  {
    if n == 0 {
      return true, Nil, entries;
    }
    if entries == [] {
      return false, Nil, [];
    }
    var e := entries[0];
    var children, siblings, more;
    ok, children, more := ReadTrees(entries[1..], e.subTraces);
    if !ok {
      StuckInside(entries, n);
      return false, Nil, [];
    }
    assert entries == [e] + (Preorder(children) + more);
    ok, siblings, rest := ReadTrees(more, n - 1);
    if !ok {
      StuckAfter(e, children, more, n);
      return false, Nil, [];
    }
    f := Cons(e.trace.value, e.result.value, children, siblings);
    EntryAssoc([e], Preorder(children), Preorder(siblings) + rest);
    EntryAssoc([e] + Preorder(children), Preorder(siblings), rest);
  }

  lemma EntryAssoc(a: seq<Entry>, b: seq<Entry>, c: seq<Entry>)
    ensures a + (b + c) == a + b + c
  {
  }

  /** The first call is not complete. */
  lemma StuckInside(entries: seq<Entry>, n: nat)
    requires Present(entries) && entries != [] && entries[0].subTraces > 0 && Stuck(entries[1..], entries[0].subTraces)
    ensures Stuck(entries, n)
  {
    forall s: State | s.stack.Push? && Room(s.stack, n) ensures Feed(s, entries).stack.Push? {
      FeedFirst(s, entries);
      assert Room(Step(s, entries[0]).stack, entries[0].subTraces);
    }
  }

  /** The first call is complete, one of the others is not. */
  lemma StuckAfter(e: Entry, children: Forest, more: seq<Entry>, n: nat)
    requires e.trace.Some? && e.result.Some? && Len(children) == e.subTraces && n > 1 && Stuck(more, n - 1)
    ensures Stuck([e] + (Preorder(children) + more), n)
  {
    forall s: State | s.stack.Push? && Room(s.stack, n)
      ensures Feed(s, [e] + (Preorder(children) + more)).stack.Push?
    {
      FeedTreeThen(s, e, children, more);
    }
  }

  /** A list that leaves nothing held back is the pre-order of a forest. */
  lemma {:induction false} ReadForest(traces: seq<Trace>, entries: seq<Entry>) returns (f: Forest)
    requires Present(entries) && Feed(State(traces, Bottom), entries).stack == Bottom
    ensures entries == Preorder(f)
    decreases |entries|
  {
    if entries == [] {
      return Nil;
    }
    var s := State(traces, Bottom);
    var e := entries[0];
    var ok, children, more := ReadTrees(entries[1..], e.subTraces);
    if !ok {
      FeedFirst(s, entries);
      assert Room(Step(s, e).stack, e.subTraces);
      assert false;
    }
    assert entries == [e] + (Preorder(children) + more);
    FeedTreeThen(s, e, children, more);
    var rest := ReadForest(traces + FlatTree(e.trace.value, e.result.value, children), more);
    f := Cons(e.trace.value, e.result.value, children, rest);
    EntryAssoc([e], Preorder(children), Preorder(rest));
  }

  /** Building succeeds exactly on the lists whose counts form a complete forest. */
  lemma CompleteIff(entries: seq<Entry>)
    requires Present(entries)
    ensures Feed(EMPTY, entries).stack == Bottom <==> exists f :: entries == Preorder(f)
  {
    if Feed(EMPTY, entries).stack == Bottom {
      var f := ReadForest([], entries);
    }
    forall f | entries == Preorder(f) ensures Feed(EMPTY, entries).stack == Bottom {
      FlattensForest(f);
    }
  }

  /** The entries of supported traces. */
  function Supported(entries: seq<Entry>): seq<Entry> {
    if entries == [] then []
    else Supported(entries[..|entries| - 1]) + if entries[|entries| - 1].trace.Some? then [entries[|entries| - 1]] else []
  }

  /** Absent traces are skipped, though the call they belong to still counts them: building succeeds
      exactly when the counts are complete without them. */
  lemma {:induction false} SkipsAbsent(s: State, entries: seq<Entry>)
    requires Positive(s.stack)
    ensures Feed(s, entries) == Feed(s, Supported(entries))
  {
    if entries != [] {
      var init, e := entries[..|entries| - 1], entries[|entries| - 1];
      SkipsAbsent(s, init);
      if e.trace.Some? {
        assert (Supported(init) + [e])[..|Supported(init)|] == Supported(init);
      } else {
        assert Supported(init) + [] == Supported(init);
      }
    }
  }

  // ---------- reading the output back ----------

  predicate Kinded(f: Forest) {
    match f
    case Nil => true
    case Cons(call, result, children, rest) => call.kind.Call? && result.kind.Result? && Kinded(children) && Kinded(rest)
  }

  /** Matches brackets: a call opens one, a result closes it. */
  function Match(traces: seq<Trace>): (r: (Forest, seq<Trace>))
    ensures |r.1| <= |traces|
    decreases |traces|
  {
    if traces == [] || traces[0].kind == Result then (Nil, traces)
    else
      var inner := Match(traces[1..]);
      if inner.1 == [] then (Nil, traces)
      else
        var rest := Match(inner.1[1..]);
        (Cons(traces[0], inner.1[0], inner.0, rest.0), rest.1)
  }

  lemma {:induction false} MatchFlatten(f: Forest, more: seq<Trace>)
    requires Kinded(f) && (more == [] || more[0].kind == Result)
    ensures Match(Flatten(f) + more) == (f, more)
    decreases f
  {
    match f
    case Nil =>
      assert Flatten(f) + more == more;
    case Cons(call, result, children, rest) =>
      MatchFlatten(rest, more);
      var after := [result] + (Flatten(rest) + more);
      MatchFlatten(children, after);
      Regroup(call, Flatten(children), result, Flatten(rest), more);
      assert after[1..] == Flatten(rest) + more;
  }

  lemma Regroup(call: Trace, inner: seq<Trace>, result: Trace, rest: seq<Trace>, more: seq<Trace>)
    ensures [call] + inner + [result] + rest + more == [call] + (inner + ([result] + (rest + more)))
    ensures ([call] + inner + [result] + rest + more)[1..] == inner + ([result] + (rest + more))
  {
  }

  /** Traces open brackets, results close them. */
  predicate Bracketed(entries: seq<Entry>) {
    forall i :: 0 <= i < |entries| ==>
                  && entries[i].trace.Some? && entries[i].trace.value.kind == Call
                  && entries[i].result.Some? && entries[i].result.value.kind == Result
  }

  lemma {:induction false} BracketedForest(f: Forest)
    requires Bracketed(Preorder(f))
    ensures Kinded(f)
  {
    match f
    case Nil =>
    case Cons(call, result, children, rest) =>
      var head := Entry(Some(call), Some(result), Len(children));
      assert Preorder(f)[0] == head;
      assert Preorder(children) == Preorder(f)[1..1 + |Preorder(children)|];
      assert Preorder(rest) == Preorder(f)[1 + |Preorder(children)|..];
      BracketedForest(children);
      BracketedForest(rest);
  }

  /** Whenever building succeeds, matching the brackets of the output recovers the input. */
  lemma OutputDeterminesInput(entries: seq<Entry>)
    requires Bracketed(entries) && Feed(EMPTY, entries).stack == Bottom
    ensures Match(Feed(EMPTY, entries).traces).1 == [] && Preorder(Match(Feed(EMPTY, entries).traces).0) == entries
  {
    var f := ReadForest([], entries);
    BracketedForest(f);
    FlattensForest(f);
    MatchFlatten(f, []);
    assert Flatten(f) + [] == Flatten(f);
  }
}
