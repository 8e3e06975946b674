/** The trace builders: one list of traces, and one list per transaction of a block. */
module TraceBuilder {
  import opened Basics
  import opened TraceForest

  class TraceBuilder {
    var traces: seq<Trace>
    var stack: Stack
    ghost var fed: seq<Entry>

    ghost predicate Valid()
      reads this
    {
      State(traces, stack) == Feed(EMPTY, fed)
    }

    constructor ()
      ensures Valid() && fed == []
    {
      traces, stack, fed := [], Bottom, [];
    }

    /** An error never occurs: no frame is ever stacked with a count of zero. */
    method Append(e: Entry) returns (ok: bool)
      requires Valid()
      modifies this
      ensures Valid() && ok && fed == old(fed) + [e]
    {
      assert (fed + [e])[..|fed|] == fed;
      fed := fed + [e];
      if e.trace == None {
        return true;
      }
      traces := traces + [e.trace.value];
      if e.subTraces != 0 {
        if e.result.Some? {
          stack := Push(e.result.value, e.subTraces, stack);
        }
        return true;
      }
      if e.result.Some? {
        traces := traces + [e.result.value];
      }
      assert e.result == None ==> traces + [] == traces;
      ok := PopTop();
    }

    method PopTop() returns (ok: bool)
      requires Positive(stack)
      modifies `traces, `stack
      ensures ok && State(traces, stack) == Pop(old(traces), old(stack))
      decreases stack
    {
      if stack == Bottom {
        return true;
      }
      if stack.subTraces == 0 {
        return false;
      }
      stack := stack.(subTraces := stack.subTraces - 1);
      if stack.subTraces > 0 {
        return true;
      }
      traces := traces + [stack.result];
      stack := stack.below;
      ok := PopTop();
    }

    /** The traces, unless a result is still held back: it succeeds exactly if the supported
        entries are the pre-order of a forest, and then gives its bracketed form. */
    method Build() returns (built: Option<seq<Trace>>)
      requires Valid()
      ensures built.Some? <==> Feed(EMPTY, fed).stack == Bottom
      ensures built.Some? ==> built.value == Feed(EMPTY, fed).traces
      ensures Present(Supported(fed)) ==> (built.Some? <==> exists f :: Supported(fed) == Preorder(f))
      ensures forall f :: Supported(fed) == Preorder(f) ==> built == Some(Flatten(f))
    {
      SkipsAbsent(EMPTY, fed);
      if Present(Supported(fed)) {
        CompleteIff(Supported(fed));
      }
      forall f | Supported(fed) == Preorder(f) ensures Feed(EMPTY, fed) == State(Flatten(f), Bottom) {
        FlattensForest(f);
      }
      if traces == [] {
        NoTraces(fed);
        return Some([]);
      }
      if stack != Bottom {
        return None;
      }
      return Some(traces);
    }
  }

  /** Without a trace nothing is held back. */
  lemma {:induction false} NoTraces(entries: seq<Entry>)
    ensures Feed(EMPTY, entries).traces == [] ==> Feed(EMPTY, entries).stack == Bottom
  {
    if entries != [] {
      NoTraces(entries[..|entries| - 1]);
      var before, e := Feed(EMPTY, entries[..|entries| - 1]), entries[|entries| - 1];
      if e.trace.Some? && e.subTraces == 0 {
        PopGrows(before.traces + [e.trace.value] + if e.result.Some? then [e.result.value] else [], before.stack);
      }
    }
  }

  lemma {:induction false} PopGrows(traces: seq<Trace>, stack: Stack)
    requires Positive(stack)
    ensures |Pop(traces, stack).traces| >= |traces|
    decreases stack
  {
    if stack.Push? && stack.subTraces <= 1 {
      PopGrows(traces + [stack.result], stack.below);
    }
  }
}
