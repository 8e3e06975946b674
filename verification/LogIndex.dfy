/** Runs of the partitioned log store: batches added, epochs popped, old partitions pruned. */
module LogIndex {
  import opened Basics
  import opened LogPartitions
  import opened LogSearch

  datatype Event = Prepare | Add(span: Span, rows: seq<Row>) | Pop(bn: nat) | Prune(archived: nat)

  /** The partitions; the rows that pruning dropped; and the block the next batch starts at or after. */
  datatype State = State(parts: seq<Part>, pruned: seq<Row>, next: nat)

  /** How many of the oldest partitions are dropped to leave at most `archived` besides the latest. */
  function Excess(parts: seq<Part>, archived: nat): (k: nat)
    ensures k <= |parts|
  {
    if |parts| > archived + 1 then |parts| - archived - 1 else 0
  }

  function Step(s: State, e: Event, volume: nat): State {
    match e
    case Prepare => s.(parts := Prepared(s.parts, volume))
    case Add(span, rows) =>
      if s.parts == [] then s else State(AddRows(s.parts, span, rows), s.pruned, span.max + 1)
    case Pop(bn) =>
      if Commits(s.parts, bn) then State(PopParts(s.parts, bn), Below(s.pruned, bn), if bn < s.next then bn else s.next) else s
    case Prune(archived) =>
      var k := Excess(s.parts, archived);
      State(s.parts[k..], s.pruned + AllRows(s.parts[..k]), s.next)
  }

  /** The popped rows are all in the latest partition; otherwise the transaction is rolled back. */
  predicate Commits(parts: seq<Part>, bn: nat) {
    forall i :: 0 <= i < |parts| - 1 ==> |Below(parts[i].rows, bn)| == |parts[i].rows|
  }

  /** A pop commits if and only if every row it removes is in the latest partition. */
  lemma CommitsIff(parts: seq<Part>, bn: nat)
    ensures Commits(parts, bn) <==> forall i :: 0 <= i < |parts| - 1 ==> OlderThan(parts[i].rows, bn)
  {
    forall i | 0 <= i < |parts| - 1
      ensures |Below(parts[i].rows, bn)| == |parts[i].rows| <==> OlderThan(parts[i].rows, bn)
    {
      WhereAll(parts[i].rows, Under(bn));
    }
  }

  /** What the caller and the database guarantee: a partition was prepared, a batch holds its own
      blocks, after all the ones stored, and its table numbers the rows in order. */
  ghost predicate Allowed(s: State, e: Event) {
    e.Add? ==> && GoodBatch(e.span, e.rows) && s.next <= e.span.min
               && s.parts != [] && Ascending(s.parts[|s.parts| - 1].rows + e.rows)
  }

  /** No pruned row reaches the blocks that are still covered. */
  ghost predicate PrunedBelow(pruned: seq<Row>, parts: seq<Part>) {
    forall i :: 0 <= i < |parts| && parts[i].span.Some? ==> OlderThan(pruned, parts[i].span.value.min)
  }

  ghost predicate Good(s: State) {
    && Inv(s.parts) && AllBelow(s.parts, s.next)
    && PrunedBelow(s.pruned, s.parts) && OlderThan(s.pruned, s.next)
  }

  function Logged(s: State): seq<Row> {
    s.pruned + AllRows(s.parts)
  }

  // ---------- one step ----------

  lemma PrepareStep(s: State, volume: nat)
    requires Good(s)
    ensures Good(Step(s, Prepare, volume)) && Logged(Step(s, Prepare, volume)) == Logged(s)
    ensures Step(s, Prepare, volume).parts != []
  {
    PrepareKeeps(s.parts, volume);
  }

  lemma AddAbovePruned(s: State, span: Span, rows: seq<Row>)
    requires PrunedBelow(s.pruned, s.parts) && s.parts != [] && OlderThan(s.pruned, span.min)
    ensures PrunedBelow(s.pruned, AddRows(s.parts, span, rows))
  {
    var out := AddRows(s.parts, span, rows);
    forall i | 0 <= i < |out| && out[i].span.Some? ensures OlderThan(s.pruned, out[i].span.value.min) {
      if s.parts[i].span.Some? {
        assert out[i].span.value.min == s.parts[i].span.value.min;
      }
    }
  }

  lemma Assoc(a: seq<Row>, b: seq<Row>, c: seq<Row>)
    ensures a + (b + c) == a + b + c
  {
  }

  lemma AddStep(s: State, e: Event, volume: nat)
    requires Good(s) && Allowed(s, e) && e.Add?
    ensures Good(Step(s, e, volume)) && Logged(Step(s, e, volume)) == Logged(s) + e.rows
  {
    AddKeeps(s.parts, e.span, e.rows);
    AddAppends(s.parts, e.span, e.rows);
    AddAbovePruned(s, e.span, e.rows);
    Assoc(s.pruned, AllRows(s.parts), e.rows);
  }

  lemma PopStep(s: State, e: Event, volume: nat)
    requires Good(s) && e.Pop?
    ensures Good(Step(s, e, volume))
    ensures Logged(Step(s, e, volume)) == if Commits(s.parts, e.bn) then Below(Logged(s), e.bn) else Logged(s)
  {
    if Commits(s.parts, e.bn) {
      PopKeeps(s.parts, e.bn);
      PopAbovePruned(s, e.bn);
      WhereConcat(s.pruned, AllRows(s.parts), Under(e.bn));
    }
  }

  lemma PopAbovePruned(s: State, bn: nat)
    requires Good(s)
    ensures PrunedBelow(Below(s.pruned, bn), PopParts(s.parts, bn))
    ensures OlderThan(Below(s.pruned, bn), bn) && OlderThan(Below(s.pruned, bn), s.next)
    ensures AllBelow(PopParts(s.parts, bn), s.next)
  {
    var out := PopParts(s.parts, bn);
    BelowOlder(s.pruned, bn, s.next);
    forall i | 0 <= i < |out| && out[i].span.Some?
      ensures OlderThan(Below(s.pruned, bn), out[i].span.value.min) && out[i].span.value.max < s.next
    {
      ShrunkSpan(s.parts[i], bn);
      BelowOlder(s.pruned, bn, out[i].span.value.min);
    }
  }

  lemma PruneStep(s: State, e: Event, volume: nat)
    requires Good(s) && e.Prune?
    ensures Good(Step(s, e, volume)) && Logged(Step(s, e, volume)) == Logged(s)
    ensures var n, parts := |s.parts|, Step(s, e, volume).parts;
            if n <= e.archived + 1 then Step(s, e, volume) == s
            else |parts| == e.archived + 1 && parts == s.parts[n - e.archived - 1..]
  {
    var k := Excess(s.parts, e.archived);
    DropKeeps(s.parts, k);
    DropAbovePruned(s, k);
    Assoc(s.pruned, AllRows(s.parts[..k]), AllRows(s.parts[k..]));
    if k == 0 {
      assert s.parts[0..] == s.parts && s.pruned + AllRows(s.parts[..0]) == s.pruned;
    }
  }

  lemma DropAbovePruned(s: State, k: nat)
    requires Good(s) && k <= |s.parts|
    ensures PrunedBelow(s.pruned + AllRows(s.parts[..k]), s.parts[k..])
    ensures OlderThan(s.pruned + AllRows(s.parts[..k]), s.next)
  {
    var gone, kept := s.parts[..k], s.parts[k..];
    AllRowsOlder(gone, s.next);
    forall i | 0 <= i < |kept| && kept[i].span.Some?
      ensures OlderThan(s.pruned + AllRows(gone), kept[i].span.value.min)
    {
      forall j | 0 <= j < k && gone[j].span.Some? ensures gone[j].span.value.max < kept[i].span.value.min {
        assert Before(s.parts[j], s.parts[k + i]);
      }
      AllRowsOlder(gone, kept[i].span.value.min);
      assert OlderThan(s.pruned, s.parts[k + i].span.value.min);
    }
  }

  // ---------- every run ----------

  ghost predicate RunOk(events: seq<Event>, volume: nat) {
    events == [] || (RunOk(events[..|events| - 1], volume)
                     && Allowed(Run(events[..|events| - 1], volume), events[|events| - 1]))
  }

  ghost function Run(events: seq<Event>, volume: nat): State {
    if events == [] then State([], [], 0)
    else Step(Run(events[..|events| - 1], volume), events[|events| - 1], volume)
  }

  /** The log as a plain list: batches are appended, committed pops cut it, pruning is not seen. */
  ghost function PlainLog(events: seq<Event>, volume: nat): seq<Row> {
    if events == [] then []
    else
      var before, e := PlainLog(events[..|events| - 1], volume), events[|events| - 1];
      match e
      case Prepare => before
      case Add(_, rows) => before + rows
      case Pop(bn) => if Commits(Run(events[..|events| - 1], volume).parts, bn) then Below(before, bn) else before
      case Prune(_) => before
  }

  /** In every run the index is in order and, with the pruned rows, holds exactly the plain log. */
  lemma {:induction false} EveryRun(events: seq<Event>, volume: nat)
    requires RunOk(events, volume)
    ensures Good(Run(events, volume)) && Logged(Run(events, volume)) == PlainLog(events, volume)
  {
    if events != [] {
      var before, e := Run(events[..|events| - 1], volume), events[|events| - 1];
      EveryRun(events[..|events| - 1], volume);
      match e
      case Prepare => PrepareStep(before, volume);
      case Add(_, _) => AddStep(before, e, volume);
      case Pop(_) => PopStep(before, e, volume);
      case Prune(_) => PruneStep(before, e, volume);
    }
  }

  // ---------- queries ----------

  lemma {:induction false} NothingOverlaps(parts: seq<Part>, from: nat, to: nat)
    requires forall i :: 0 <= i < |parts| ==> !Overlaps(parts[i], from, to)
    ensures Overlapping(parts, from, to) == []
  {
    if parts != [] {
      NothingOverlaps(parts[..|parts| - 1], from, to);
    }
  }

  /** For a range that starts at or after the first covered block, the partitions found hold every
      row of the log in that range, and the query equals the plain, ordered scan of the log
      exactly when no table has more than `limit + 1` of them. */
  lemma QueryServesLog(s: State, from: nat, to: nat, topics: Topics, limit: nat)
    requires Good(s) && from <= to && Covered(s.parts).Some? && Covered(s.parts).value.min <= from
    ensures SearchParts(s.parts, from, to).Found?
    ensures Sorted(Scan(Logged(s), from, to, topics))
    ensures Scan(AllRows(SearchParts(s.parts, from, to).parts), from, to, topics) == Scan(Logged(s), from, to, topics)
    ensures Query(SearchParts(s.parts, from, to).parts, from, to, topics, limit) == Scan(Logged(s), from, to, topics)
            <==> NoneTruncated(SearchParts(s.parts, from, to).parts, from, to, topics, limit)
  {
    var found := Overlapping(s.parts, from, to);
    CoveredBounds(s.parts);
    if from > Covered(s.parts).value.max {
      NothingOverlaps(s.parts, from, to);
    }
    assert SearchParts(s.parts, from, to).parts == found;
    OverlappingIsComplete(s.parts, from, to, topics);
    PrunedMissesRange(s, from, to, topics);
    QueryIsScanIff(found, from, to, topics, limit);
    AllRowsSorted(s.parts);
    WhereSorted(AllRows(s.parts), InRange(from, to, topics));
  }

  /** No pruned row is in a range that starts at or after the first covered block. */
  lemma PrunedMissesRange(s: State, from: nat, to: nat, topics: Topics)
    requires Good(s) && Covered(s.parts).Some? && Covered(s.parts).value.min <= from
    ensures Scan(Logged(s), from, to, topics) == Scan(AllRows(s.parts), from, to, topics)
  {
    CoveredBounds(s.parts);
    var first :| 0 <= first < |s.parts| && s.parts[first].span.Some? && s.parts[first].span.value.min == Covered(s.parts).value.min;
    WhereConcat(s.pruned, AllRows(s.parts), InRange(from, to, topics));
    assert OlderThan(s.pruned, from);
    NoneKept(s.pruned, InRange(from, to, topics));
    assert [] + Scan(AllRows(s.parts), from, to, topics) == Scan(AllRows(s.parts), from, to, topics);
  }

  // ---------- searches that miss pruned rows ----------

  /** The partitions found hold every row that is still stored in the range. */
  lemma FoundHoldsStored(parts: seq<Part>, from: nat, to: nat, topics: Topics)
    requires Inv(parts) && from <= to && SearchParts(parts, from, to).Found?
    ensures Scan(AllRows(SearchParts(parts, from, to).parts), from, to, topics) == Scan(AllRows(parts), from, to, topics)
  {
    CoveredBounds(parts);
    if Covered(parts) == None || from > Covered(parts).value.max {
      NothingOverlaps(parts, from, to);
    }
    OverlappingIsComplete(parts, from, to, topics);
  }

  /** A search that is not refused is complete if and only if no pruned row is in the range. */
  lemma FoundIsCompleteIff(s: State, from: nat, to: nat, topics: Topics)
    requires Inv(s.parts) && from <= to && SearchParts(s.parts, from, to).Found?
    ensures Scan(AllRows(SearchParts(s.parts, from, to).parts), from, to, topics) == Scan(Logged(s), from, to, topics)
            <==> Scan(s.pruned, from, to, topics) == []
  {
    FoundHoldsStored(s.parts, from, to, topics);
    WhereConcat(s.pruned, AllRows(s.parts), InRange(from, to, topics));
    var gone, kept := Scan(s.pruned, from, to, topics), Scan(AllRows(s.parts), from, to, topics);
    assert Scan(Logged(s), from, to, topics) == gone + kept;
    assert |gone + kept| == |gone| + |kept|;
  }

  /** Where pruning left something covered, a search that is not refused can miss rows only if
      its range starts before the first covered block and ends exactly there. */
  lemma MissesOnlyAtFirstBlock(s: State, from: nat, to: nat, topics: Topics)
    requires Good(s) && from <= to && SearchParts(s.parts, from, to).Found? && Covered(s.parts).Some?
    requires Scan(s.pruned, from, to, topics) != []
    ensures from < Covered(s.parts).value.min == to
  {
    CoveredBounds(s.parts);
    if Covered(s.parts).value.min <= from {
      PrunedMissesRange(s, from, to, topics);
      FoundHoldsStored(s.parts, from, to, topics);
      FoundIsCompleteIff(s, from, to, topics);
    }
  }

  function RowOf(bn: nat): Row {
    Row(bn, 0, 0, [])
  }

  /** A partition with the one row of block `bn`. */
  function PartOf(index: nat, bn: nat): Part {
    Part(index, 1, Some(Span(bn, bn)), [RowOf(bn)])
  }

  /** The empty partition `index` is prepared, and takes block `bn`. */
  lemma AddsBlock(events: seq<Event>, before: State, index: nat, bn: nat) returns (more: seq<Event>)
    requires RunOk(events, 1) && Run(events, 1) == before && before.next <= bn
    requires Prepared(before.parts, 1) == before.parts + [Part(index, 0, None, [])]
    ensures RunOk(more, 1) && Run(more, 1) == State(before.parts + [PartOf(index, bn)], before.pruned, bn + 1)
  {
    var ready := before.(parts := before.parts + [Part(index, 0, None, [])]);
    RunPush(events, Prepare, 1, before, ready);
    SortedOne(RowOf(bn));
    assert [] + [RowOf(bn)] == [RowOf(bn)];
    AddToEmpty(before.parts, index, Span(bn, bn), [RowOf(bn)]);
    more := events + [Prepare];
    RunPush(more, Add(Span(bn, bn), [RowOf(bn)]), 1, ready, State(before.parts + [PartOf(index, bn)], before.pruned, bn + 1));
    more := more + [Add(Span(bn, bn), [RowOf(bn)])];
  }

  /** Blocks 4 and 5 are added to a partition each, and the first one is pruned. */
  lemma PrunesFirst() returns (events: seq<Event>)
    ensures RunOk(events, 1) && Run(events, 1) == State([PartOf(1, 5)], [RowOf(4)], 6)
  {
    var p0, p1 := PartOf(0, 4), PartOf(1, 5);
    events := AddsBlock([], State([], [], 0), 0, 4);
    assert [] + [p0] == [p0];
    events := AddsBlock(events, State([p0], [], 5), 1, 5);
    DropsFirst(p0, p1, [RowOf(4)]);
    RunPush(events, Prune(0), 1, State([p0] + [p1], [], 6), State([p1], [RowOf(4)], 6));
    events := events + [Prune(0)];
  }

  lemma DropsFirst(p0: Part, p1: Part, rows: seq<Row>)
    requires p0.rows == rows
    ensures ([p0] + [p1])[..1] == [p0] && ([p0] + [p1])[1..] == [p1] && [] + AllRows([p0]) == rows
  {
    assert [p0][..0] == [];
  }

  lemma AddToEmpty(parts: seq<Part>, index: nat, span: Span, rows: seq<Row>)
    ensures AddRows(parts + [Part(index, 0, None, [])], span, rows) == parts + [Part(index, |rows|, Some(span), rows)]
  {
    var last := Part(index, 0, None, []);
    assert (parts + [last])[..|parts|] == parts && last.rows + rows == rows;
  }

  lemma SortedOne(x: Row)
    ensures Sorted([x]) && Ascending([x])
  {
    assert [x][..0] == [];
  }

  /** One more event of a run. */
  lemma RunPush(events: seq<Event>, e: Event, volume: nat, before: State, after: State)
    requires RunOk(events, volume) && Run(events, volume) == before
    requires Allowed(before, e) && Step(before, e, volume) == after
    ensures RunOk(events + [e], volume) && Run(events + [e], volume) == after
  {
    assert (events + [e])[..|events|] == events;
  }

  /** A run after which a range that ends at the first covered block is answered without the row
      pruned before it. */
  lemma FirstBlockSearchMisses() returns (events: seq<Event>)
    ensures RunOk(events, 1)
    ensures var s := Run(events, 1);
            && SearchParts(s.parts, 4, 5).Found?
            && RowOf(4) in Scan(Logged(s), 4, 5, [])
            && RowOf(4) !in Scan(AllRows(SearchParts(s.parts, 4, 5).parts), 4, 5, [])
  {
    events := PrunesFirst();
    var s, p1 := Run(events, 1), PartOf(1, 5);
    SearchFindsOne(p1, 4, 5);
    WhereIn(Logged(s), InRange(4, 5, []), RowOf(4));
    WhereIn(p1.rows, InRange(4, 5, []), RowOf(4));
  }

  lemma SearchFindsOne(p: Part, from: nat, to: nat)
    requires p.span == Some(Span(to, to)) && from <= to
    ensures SearchParts([p], from, to) == Found([p], None) && AllRows([p]) == p.rows
  {
    assert [p][..0] == [];
    assert Covered([p]) == p.span && Overlapping([p], from, to) == [p];
  }

  /** A run after which nothing is covered, and a search misses a pruned row. */
  lemma UncoveredSearchMisses() returns (events: seq<Event>)
    ensures RunOk(events, 1)
    ensures var s := Run(events, 1);
            && Covered(s.parts) == None && SearchParts(s.parts, 4, 4) == Found([], Some(Span(4, 4)))
            && RowOf(4) in Scan(Logged(s), 4, 4, [])
  {
    events := PrunesFirst();
    PopsLast(State([PartOf(1, 5)], [RowOf(4)], 6), 1, 5);
    RunPush(events, Pop(5), 1, State([PartOf(1, 5)], [RowOf(4)], 6), State([Part(1, 0, None, [])], [RowOf(4)], 5));
    events := events + [Pop(5)];
    NothingCovered(Part(1, 0, None, []));
    WhereIn(Logged(Run(events, 1)), InRange(4, 4, []), RowOf(4));
  }

  lemma NothingCovered(p: Part)
    requires p.span == None
    ensures Covered([p]) == None
  {
    assert [p][..0] == [];
  }

  lemma PopsLast(s: State, index: nat, bn: nat)
    requires s.parts == [PartOf(index, bn)] && s.next == bn + 1 && OlderThan(s.pruned, bn)
    ensures Step(s, Pop(bn), 1) == State([Part(index, 0, None, [])], s.pruned, bn)
  {
    SortedOne(RowOf(bn));
    ShrunkOk(PartOf(index, bn), bn);
    WhereAll(s.pruned, Under(bn));
    assert PopParts(s.parts, bn) == [Part(index, 0, None, [])];
  }

  // ---------- every query ----------

  /** After any run: what a query returns is what the same query over the plain log returns, exactly
      when no table is cut short. */
  lemma EveryQuery(events: seq<Event>, volume: nat, from: nat, to: nat, topics: Topics, limit: nat)
    requires RunOk(events, volume) && from <= to
    requires var covered := Covered(Run(events, volume).parts); covered.Some? && covered.value.min <= from
    ensures var found := SearchParts(Run(events, volume).parts, from, to);
            && found.Found?
            && (Query(found.parts, from, to, topics, limit) == Scan(PlainLog(events, volume), from, to, topics)
                <==> NoneTruncated(found.parts, from, to, topics, limit))
  {
    EveryRun(events, volume);
    QueryServesLog(Run(events, volume), from, to, topics, limit);
  }
}
