/** Traces of a block, one list per transaction. */
module BlockTraces {
  import opened Basics
  import opened TraceForest
  import TraceBuilder

  datatype TxTrace = TxTrace(txHash: string, position: nat, traces: seq<Trace>)

  // ---------- runs of equal transaction hash ----------

  predicate Traced(entries: seq<Entry>) {
    forall i :: 0 <= i < |entries| ==> entries[i].trace.Some? && entries[i].trace.value.txHash != ""
  }

  function TxOf(e: Entry): string
    requires e.trace.Some?
  {
    e.trace.value.txHash
  }

  /** A non-empty list of entries of one transaction. */
  predicate OneTx(run: seq<Entry>) {
    run != [] && Traced(run) && forall i :: 0 <= i < |run| ==> TxOf(run[i]) == TxOf(run[0])
  }

  /** Consecutive entries of the same transaction, grouped. */
  function Runs(entries: seq<Entry>): (runs: seq<seq<Entry>>)
    requires Traced(entries)
    ensures forall i :: 0 <= i < |runs| ==> OneTx(runs[i])
  {
    if entries == [] then []
    else
      var before, e := Runs(entries[..|entries| - 1]), entries[|entries| - 1];
      var n := |before|;
      if n > 0 && TxOf(before[n - 1][0]) == TxOf(e) then before[..n - 1] + [before[n - 1] + [e]] else before + [[e]]
  }

  lemma LastRunGrows(runs: seq<seq<Entry>>, e: Entry)
    requires runs != []
    ensures var n := |runs|; Concat(runs[..n - 1] + [runs[n - 1] + [e]]) == Concat(runs) + [e]
  {
    var n := |runs|;
    ConcatAdd(runs[..n - 1], runs[n - 1] + [e]);
    assert Concat(runs[..n - 1]) + (runs[n - 1] + [e]) == Concat(runs[..n - 1]) + runs[n - 1] + [e];
  }

  lemma {:induction false} RunsConcat(entries: seq<Entry>)
    requires Traced(entries)
    ensures Concat(Runs(entries)) == entries
  {
    if entries != [] {
      var init, e := entries[..|entries| - 1], entries[|entries| - 1];
      RunsConcat(init);
      var before := Runs(init);
      var n := |before|;
      assert init + [e] == entries;
      if n > 0 && TxOf(before[n - 1][0]) == TxOf(e) {
        LastRunGrows(before, e);
      } else {
        ConcatAdd(before, [e]);
      }
    }
  }

  lemma {:induction false} RunsDiffer(entries: seq<Entry>)
    requires Traced(entries)
    ensures forall i :: 0 < i < |Runs(entries)| ==> TxOf(Runs(entries)[i - 1][0]) != TxOf(Runs(entries)[i][0])
  {
    if entries != [] {
      RunsDiffer(entries[..|entries| - 1]);
    }
  }

  /** The runs make up the list, and no two neighbours are of the same transaction. */
  lemma RunsAreMaximal(entries: seq<Entry>)
    requires Traced(entries)
    ensures Concat(Runs(entries)) == entries
    ensures forall i :: 0 < i < |Runs(entries)| ==> TxOf(Runs(entries)[i - 1][0]) != TxOf(Runs(entries)[i][0])
  {
    RunsConcat(entries);
    RunsDiffer(entries);
  }

  // ---------- sealing ----------

  function PositionOf(e: Entry): nat {
    if e.trace.Some? && e.trace.value.txPosition.Some? then e.trace.value.txPosition.value else 0
  }

  /** The traces of one transaction, if its calls are complete. */
  function Sealed(run: seq<Entry>): Option<TxTrace>
    requires OneTx(run)
  {
    var s := Feed(EMPTY, run);
    if s.stack == Bottom then Some(TxTrace(TxOf(run[0]), PositionOf(run[0]), s.traces)) else None
  }

  function SealedAll(runs: seq<seq<Entry>>): Option<seq<TxTrace>>
    requires forall i :: 0 <= i < |runs| ==> OneTx(runs[i])
  {
    if runs == [] then Some([])
    else
      var before, last := SealedAll(runs[..|runs| - 1]), Sealed(runs[|runs| - 1]);
      if before.Some? && last.Some? then Some(before.value + [last.value]) else None
  }

  /** A transaction can be sealed if and only if its traces are the pre-order of a forest of calls,
      and then has these bracketed by their results. */
  lemma SealedIff(run: seq<Entry>)
    requires OneTx(run) && Present(run)
    ensures Sealed(run).Some? <==> exists f :: run == Preorder(f)
    ensures forall f :: run == Preorder(f) ==> Sealed(run).Some? && Sealed(run).value.traces == Flatten(f)
  {
    CompleteIff(run);
    forall f | run == Preorder(f) ensures Sealed(run).Some? && Sealed(run).value.traces == Flatten(f) {
      FlattensForest(f);
    }
  }

  /** A block can be sealed if and only if each of its transactions can, and gives them in order. */
  lemma {:induction false} SealedAllIff(runs: seq<seq<Entry>>)
    requires forall i :: 0 <= i < |runs| ==> OneTx(runs[i])
    ensures SealedAll(runs).Some? <==> forall i :: 0 <= i < |runs| ==> Sealed(runs[i]).Some?
    ensures SealedAll(runs).Some? ==>
              |SealedAll(runs).value| == |runs| && forall i :: 0 <= i < |runs| ==> Some(SealedAll(runs).value[i]) == Sealed(runs[i])
  {
    if runs != [] {
      var init := runs[..|runs| - 1];
      SealedAllIff(init);
      assert forall i :: 0 <= i < |init| ==> init[i] == runs[i];
    }
  }

  /** A sealed transaction carries the hash and the position that its traces agree on. */
  lemma SealedPosition(run: seq<Entry>, tx: string, position: nat)
    requires OneTx(run) && Sealed(run).Some?
    requires forall i :: 0 <= i < |run| ==> TxOf(run[i]) == tx && run[i].trace.value.txPosition == Some(position)
    ensures Sealed(run).value.txHash == tx && Sealed(run).value.position == position
  {
    assert TxOf(run[0]) == tx;
  }

  /** All runs but the last are sealed; `run` is the last one. */
  ghost predicate Covers(fed: seq<Entry>, sealed: seq<TxTrace>, run: seq<Entry>) {
    && Traced(fed)
    && var runs := Runs(fed);
       if runs == [] then sealed == [] && run == []
       else SealedAll(runs[..|runs| - 1]) == Some(sealed) && run == runs[|runs| - 1]
  }

  /** An entry of the same transaction extends the last run. */
  lemma CoversMore(fed: seq<Entry>, sealed: seq<TxTrace>, run: seq<Entry>, e: Entry)
    requires Covers(fed, sealed, run) && e.trace.Some? && TxOf(e) != ""
    requires run != [] ==> TxOf(run[0]) == TxOf(e)
    ensures Covers(fed + [e], sealed, run + [e])
  {
    assert (fed + [e])[..|fed|] == fed;
    var before, after := Runs(fed), Runs(fed + [e]);
    if before == [] {
      assert after == [[e]];
      assert after[..0] == [];
    } else {
      assert after[..|after| - 1] == before[..|before| - 1];
    }
  }

  /** An entry of another transaction seals it and starts a new one. */
  lemma CoversNext(fed: seq<Entry>, sealed: seq<TxTrace>, run: seq<Entry>, e: Entry)
    requires Covers(fed, sealed, run) && e.trace.Some? && TxOf(e) != ""
    requires run != [] && TxOf(run[0]) != TxOf(e) && Sealed(run).Some?
    ensures Covers(fed + [e], sealed + [Sealed(run).value], [e])
  {
    assert (fed + [e])[..|fed|] == fed;
    assert Runs(fed + [e])[..|Runs(fed)|] == Runs(fed);
  }

  class TransactionTraceBuilder {
    var txHash: string
    var position: nat
    const builder: TraceBuilder.TraceBuilder

    ghost predicate Valid()
      reads this, builder
    {
      && builder.Valid()
      && (txHash == "" <==> builder.fed == [])
      && (builder.fed != [] ==> OneTx(builder.fed) && txHash == TxOf(builder.fed[0]) && position == PositionOf(builder.fed[0]))
    }

    constructor ()
      ensures Valid() && fresh(builder) && builder.fed == []
    {
      txHash, position := "", 0;
      builder := new TraceBuilder.TraceBuilder();
    }

    /** Takes the entry unless it belongs to another transaction. An absent trace is ignored. */
    method Append(e: Entry) returns (taken: bool, ok: bool)
      requires Valid() && (e.trace.Some? ==> TxOf(e) != "")
      modifies this, builder
      ensures Valid() && ok
      ensures taken <==> e.trace == None || old(builder.fed) == [] || TxOf(old(builder.fed)[0]) == TxOf(e)
      ensures builder.fed == if taken && e.trace.Some? then old(builder.fed) + [e] else old(builder.fed)
    {
      if e.trace == None {
        return true, true;
      }
      if txHash == "" {
        txHash := TxOf(e);
        position := PositionOf(e);
      } else if txHash != TxOf(e) {
        return false, true;
      }
      ok := builder.Append(e);
      taken := true;
    }

    /** `started` tells whether there is a transaction to build. */
    method Build() returns (built: Option<TxTrace>, started: bool)
      requires Valid()
      ensures started <==> builder.fed != []
      ensures started ==> built == Sealed(builder.fed)
    {
      if txHash == "" {
        return None, false;
      }
      started := true;
      var traces := builder.Build();
      if traces.Some? {
        return Some(TxTrace(txHash, position, traces.value)), true;
      }
      return None, true;
    }
  }

  /** The first entry of a transaction. */
  method TakeFirst(tx: TransactionTraceBuilder, e: Entry)
    requires tx.Valid() && tx.builder.fed == [] && e.trace.Some? && TxOf(e) != ""
    modifies tx, tx.builder
    ensures tx.Valid() && tx.builder.fed == [e]
  {
    var taken, ok := tx.Append(e);
  }

  class BlockTraceBuilder {
    var txTraces: seq<TxTrace>
    var current: TransactionTraceBuilder
    ghost var fed: seq<Entry>

    ghost predicate Valid()
      reads this, current, current.builder
    {
      current.Valid() && Covers(fed, txTraces, current.builder.fed)
    }

    constructor ()
      ensures Valid() && fresh(current) && fresh(current.builder) && fed == []
    {
      txTraces, fed := [], [];
      current := new TransactionTraceBuilder();
    }

    /** Closes the current transaction, unless its calls are incomplete. */
    method Seal() returns (ok: bool)
      requires current.Valid()
      modifies this
      ensures ok <==> old(current.builder.fed) == [] || Sealed(old(current.builder.fed)).Some?
      ensures fed == old(fed)
      ensures ok && old(current.builder.fed) != [] ==>
                && txTraces == old(txTraces) + [Sealed(old(current.builder.fed)).value]
                && fresh(current) && fresh(current.builder) && current.Valid() && current.builder.fed == []
      ensures !ok || old(current.builder.fed) == [] ==> txTraces == old(txTraces) && current == old(current)
    {
      var built, started := current.Build();
      if !started {
        return true;
      }
      if built == None {
        return false;
      }
      txTraces := txTraces + [built.value];
      current := new TransactionTraceBuilder();
      return true;
    }

    /** Fails only when a transaction ends with calls incomplete. */
    method Append(e: Entry) returns (ok: bool)
      requires Valid() && (e.trace.Some? ==> TxOf(e) != "")
      modifies this, current, current.builder
      ensures Valid()
      ensures ok <==> e.trace == None || old(current.builder.fed) == [] || TxOf(old(current.builder.fed)[0]) == TxOf(e)
                      || Sealed(old(current.builder.fed)).Some?
      ensures fed == if ok && e.trace.Some? then old(fed) + [e] else old(fed)
      ensures current == old(current) || (fresh(current) && fresh(current.builder))
    {
      if e.trace == None {
        return true;
      }
      ghost var run := current.builder.fed;
      var taken;
      taken, ok := current.Append(e);
      if taken {
        CoversMore(fed, txTraces, run, e);
        fed := fed + [e];
      } else {
        ok := StartNext(e);
      }
    }

    /** Seals the current transaction and starts the one of the entry. */
    method StartNext(e: Entry) returns (ok: bool)
      requires Valid() && e.trace.Some? && TxOf(e) != ""
      requires current.builder.fed != [] && TxOf(current.builder.fed[0]) != TxOf(e)
      modifies this
      ensures Valid() && (ok <==> Sealed(old(current.builder.fed)).Some?)
      ensures fed == if ok then old(fed) + [e] else old(fed)
      ensures current == old(current) || (fresh(current) && fresh(current.builder))
    {
      ghost var run := current.builder.fed;
      if Sealed(run).Some? {
        CoversNext(fed, txTraces, run, e);
      }
      ok := Seal();
      if ok {
        TakeFirst(current, e);
        fed := fed + [e];
      }
    }

    /** One list per run of equal transaction hash, if the calls of all of them are complete. */
    method Build() returns (built: Option<seq<TxTrace>>)
      requires Valid()
      modifies this
      ensures fed == old(fed) && Traced(fed) && built == SealedAll(Runs(fed))
    {
      var ok := Seal();
      if !ok {
        return None;
      }
      return Some(txTraces);
    }
  }
}
