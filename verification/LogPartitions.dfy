/** Event logs partitioned by block number: a list of partitions, each with a block range, a row
    count and a table. The operations keep the ranges disjoint and ordered, so that a search
    by block range needs few tables and misses no row.
 */
module LogPartitions {
  import opened Basics

  datatype Row = Row(bn: nat, epoch: nat, id: nat, topics: seq<string>)

  /** For each topic position, no condition or the accepted values. */
  type Topics = seq<Option<set<string>>>

  /** Blocks `from` up to but not including `until`, and the topic conditions. */
  datatype Filter = Filter(from: nat, until: nat, topics: Topics)

  /** Four topic columns are stored, empty where a log has fewer topics. */
  predicate TopicsMatch(topics: Topics, r: Row) {
    forall i :: 0 <= i < |topics| && i < 4 && topics[i].Some? ==>
                  (if i < |r.topics| then r.topics[i] else "") in topics[i].value
  }

  predicate Keeps(f: Filter, r: Row) {
    f.from <= r.bn < f.until && TopicsMatch(f.topics, r)
  }

  /** A partition: its index, its recorded count and block range, and its table. */
  datatype Part = Part(index: nat, count: nat, span: Option<Span>, rows: seq<Row>)

  // ---------- invariant ----------

  /** All rows are of blocks `lo` to `hi`. */
  ghost predicate Within(rows: seq<Row>, lo: nat, hi: nat) {
    forall i :: 0 <= i < |rows| ==> lo <= rows[i].bn <= hi
  }

  /** All rows are of blocks before `bn`. */
  ghost predicate OlderThan(rows: seq<Row>, bn: nat) {
    forall i :: 0 <= i < |rows| ==> rows[i].bn < bn
  }

  /** In block order. */
  ghost predicate Sorted(rows: seq<Row>) {
    rows == [] || (Sorted(rows[..|rows| - 1]) && Within(rows, 0, rows[|rows| - 1].bn))
  }

  lemma SortedPush(rows: seq<Row>, x: Row)
    requires Sorted(rows) && Within(rows, 0, x.bn)
    ensures Sorted(rows + [x])
  {
    assert (rows + [x])[..|rows|] == rows;
  }

  lemma {:induction false} SortedConcat(a: seq<Row>, b: seq<Row>, m: nat, hi: nat)
    requires Sorted(a) && Sorted(b) && Within(a, 0, m) && Within(b, m, hi)
    ensures Sorted(a + b)
  {
    if b == [] {
      assert a + b == a;
    } else {
      var init, x := b[..|b| - 1], b[|b| - 1];
      assert a + b == a + init + [x];
      SortedConcat(a, init, m, hi);
      SortedPush(a + init, x);
    }
  }

  /** Ids increase, as a table numbers its rows in the order of insertion. */
  ghost predicate Ascending(rows: seq<Row>) {
    rows == [] || (Ascending(rows[..|rows| - 1]) && forall i :: 0 <= i < |rows| - 1 ==> rows[i].id < rows[|rows| - 1].id)
  }

  lemma AscendingPush(rows: seq<Row>, x: Row)
    requires Ascending(rows) && forall i :: 0 <= i < |rows| ==> rows[i].id < x.id
    ensures Ascending(rows + [x])
  {
    assert (rows + [x])[..|rows|] == rows;
  }

  lemma {:induction false} AscendingAt(rows: seq<Row>, i: nat, j: nat)
    requires Ascending(rows) && i < j < |rows|
    ensures rows[i].id < rows[j].id
  {
    if j < |rows| - 1 {
      AscendingAt(rows[..|rows| - 1], i, j);
    }
  }

  /** The count is the number of rows, and all rows lie in the range, in block order. */
  ghost predicate PartOk(p: Part) {
    && p.count == |p.rows| && Sorted(p.rows) && Ascending(p.rows)
    && match p.span
       case None => p.rows == []
       case Some(Span(min, max)) => min <= max && Within(p.rows, min, max)
  }

  ghost predicate Before(p: Part, q: Part) {
    p.span.Some? && q.span.Some? ==> p.span.value.max < q.span.value.min
  }

  ghost predicate Inv(parts: seq<Part>) {
    && (forall i :: 0 <= i < |parts| ==> parts[i].index == parts[0].index + i)
    && (forall i :: 0 <= i < |parts| ==> PartOk(parts[i]))
    && (forall i, j {:trigger Before(parts[i], parts[j])} :: 0 <= i < j < |parts| ==> Before(parts[i], parts[j]))
  }

  /** Every recorded range ends before block `bn`. */
  ghost predicate AllBelow(parts: seq<Part>, bn: nat) {
    forall i :: 0 <= i < |parts| && parts[i].span.Some? ==> parts[i].span.value.max < bn
  }

  function AllRows(parts: seq<Part>): seq<Row> {
    if parts == [] then [] else AllRows(parts[..|parts| - 1]) + parts[|parts| - 1].rows
  }

  // ---------- growing and adding ----------

  function Grow(parts: seq<Part>): seq<Part> {
    parts + [Part(if parts == [] then 0 else parts[|parts| - 1].index + 1, 0, None, [])]
  }

  /** The list with a partition to write on: the latest one, or a new one if that is full. */
  function Prepared(parts: seq<Part>, volume: nat): seq<Part> {
    if parts == [] || parts[|parts| - 1].count >= volume then Grow(parts) else parts
  }

  /** Rows of blocks `span` go to the latest partition, whose range is expanded. */
  function AddRows(parts: seq<Part>, span: Span, rows: seq<Row>): seq<Part>
    requires parts != []
  {
    var p := parts[|parts| - 1];
    parts[..|parts| - 1] + [Part(p.index, p.count + |rows|,
                                 Some(Span(if p.span.Some? then p.span.value.min else span.min, span.max)), p.rows + rows)]
  }

  /** A batch of new rows: in block order, and within the blocks of the batch. */
  ghost predicate GoodBatch(span: Span, rows: seq<Row>) {
    span.min <= span.max && Sorted(rows) && Within(rows, span.min, span.max)
  }

  /** Preparing keeps the index and all rows. There is then a partition with room, and the list is
      as before exactly if there was one; otherwise one empty partition is added. */
  lemma PrepareKeeps(parts: seq<Part>, volume: nat)
    requires Inv(parts)
    ensures Inv(Prepared(parts, volume)) && Prepared(parts, volume) != [] && AllRows(Prepared(parts, volume)) == AllRows(parts)
    ensures Prepared(parts, volume) == parts <==> parts != [] && |parts[|parts| - 1].rows| < volume
    ensures parts < Prepared(parts, volume) ==>
              |Prepared(parts, volume)| == |parts| + 1 && Prepared(parts, volume)[|parts|].span == None
    ensures parts <= Prepared(parts, volume)
    ensures forall bn :: AllBelow(parts, bn) ==> AllBelow(Prepared(parts, volume), bn)
  {
    GrowKeeps(parts);
  }

  lemma GrowKeeps(parts: seq<Part>)
    requires Inv(parts)
    ensures Inv(Grow(parts)) && AllRows(Grow(parts)) == AllRows(parts)
    ensures forall bn :: AllBelow(parts, bn) ==> AllBelow(Grow(parts), bn)
  {
    assert Grow(parts)[..|parts|] == parts;
  }

  lemma AddPartOk(p: Part, span: Span, rows: seq<Row>)
    requires PartOk(p) && GoodBatch(span, rows) && (p.span.Some? ==> p.span.value.max < span.min)
    requires Ascending(p.rows + rows)
    ensures PartOk(Part(p.index, p.count + |rows|,
                        Some(Span(if p.span.Some? then p.span.value.min else span.min, span.max)), p.rows + rows))
  {
    SortedConcat(p.rows, rows, span.min, span.max);
  }

  lemma AddOrdered(parts: seq<Part>, span: Span, rows: seq<Row>)
    requires parts != [] && AllBelow(parts, span.min) && span.min <= span.max
    requires forall i, j {:trigger Before(parts[i], parts[j])} :: 0 <= i < j < |parts| ==> Before(parts[i], parts[j])
    ensures var out := AddRows(parts, span, rows);
            forall i, j {:trigger Before(out[i], out[j])} :: 0 <= i < j < |out| ==> Before(out[i], out[j])
    ensures AllBelow(AddRows(parts, span, rows), span.max + 1)
  {
    var out := AddRows(parts, span, rows);
    forall i, j | 0 <= i < j < |out| ensures Before(out[i], out[j]) {
      assert Before(parts[i], parts[j]);
    }
  }

  /** A batch changes only the latest partition, whose range is then the least that holds its
      former blocks and those of the batch. */
  lemma AddWidens(parts: seq<Part>, span: Span, rows: seq<Row>)
    requires Inv(parts) && parts != [] && span.min <= span.max && AllBelow(parts, span.min)
    ensures var out, n := AddRows(parts, span, rows), |parts| - 1;
            && |out| == |parts| && out[..n] == parts[..n] && out[n].index == parts[n].index && out[n].rows == parts[n].rows + rows
            && out[n].span.Some? && Covers(out[n].span, span.min) && out[n].span.value.max == span.max
            && (forall b: nat :: Covers(parts[n].span, b) ==> Covers(out[n].span, b))
            && Covers(if parts[n].span.Some? then parts[n].span else Some(span), out[n].span.value.min)
  {
    assert parts[|parts| - 1].span.Some? ==> PartOk(parts[|parts| - 1]);
  }

  lemma AddKeeps(parts: seq<Part>, span: Span, rows: seq<Row>)
    requires Inv(parts) && parts != [] && GoodBatch(span, rows) && AllBelow(parts, span.min)
    requires Ascending(parts[|parts| - 1].rows + rows)
    ensures Inv(AddRows(parts, span, rows))
    ensures AllBelow(AddRows(parts, span, rows), span.max + 1)
  {
    AddPartOk(parts[|parts| - 1], span, rows);
    AddOrdered(parts, span, rows);
  }

  lemma AddAppends(parts: seq<Part>, span: Span, rows: seq<Row>)
    requires parts != []
    ensures AllRows(AddRows(parts, span, rows)) == AllRows(parts) + rows
  {
    var n := |parts| - 1;
    assert AddRows(parts, span, rows)[..n] == parts[..n];
    assert AllRows(parts[..n]) + (parts[n].rows + rows) == AllRows(parts[..n]) + parts[n].rows + rows;
  }

  // ---------- popping ----------

  /** The rows that a filter keeps, in order. */
  function Where(rows: seq<Row>, f: Filter): seq<Row> {
    if rows == [] then []
    else Where(rows[..|rows| - 1], f) + if Keeps(f, rows[|rows| - 1]) then [rows[|rows| - 1]] else []
  }

  function Under(bn: nat): Filter {
    Filter(0, bn, [])
  }

  function Below(rows: seq<Row>, bn: nat): seq<Row> {
    Where(rows, Under(bn))
  }

  /** A partition without the blocks from `bn` on. */
  function Shrunk(p: Part, bn: nat): Part {
    if p.span == None || p.span.value.max < bn then p
    else
      var rows := Below(p.rows, bn);
      Part(p.index, |rows|, if p.span.value.min >= bn then None else Some(Span(p.span.value.min, bn - 1)), rows)
  }

  function PopParts(parts: seq<Part>, bn: nat): (r: seq<Part>)
    ensures |r| == |parts| && forall i :: 0 <= i < |parts| ==> r[i] == Shrunk(parts[i], bn)
  {
    seq(|parts|, i requires 0 <= i < |parts| => Shrunk(parts[i], bn))
  }

  lemma {:induction false} WhereIn(rows: seq<Row>, f: Filter, x: Row)
    ensures x in Where(rows, f) <==> x in rows && Keeps(f, x)
  {
    if rows != [] {
      WhereIn(rows[..|rows| - 1], f, x);
      assert rows == rows[..|rows| - 1] + [rows[|rows| - 1]];
    }
  }

  lemma {:induction false} WhereAll(rows: seq<Row>, f: Filter)
    ensures |Where(rows, f)| <= |rows|
    ensures |Where(rows, f)| == |rows| <==> forall i :: 0 <= i < |rows| ==> Keeps(f, rows[i])
    ensures |Where(rows, f)| == |rows| ==> Where(rows, f) == rows
  {
    if rows != [] {
      WhereAll(rows[..|rows| - 1], f);
      assert rows == rows[..|rows| - 1] + [rows[|rows| - 1]];
    }
  }

  lemma {:induction false} WhereWithin(rows: seq<Row>, f: Filter, lo: nat, hi: nat)
    requires Within(rows, lo, hi)
    ensures Within(Where(rows, f), lo, hi)
  {
    if rows != [] {
      WhereWithin(rows[..|rows| - 1], f, lo, hi);
    }
  }

  lemma {:induction false} WhereInRange(rows: seq<Row>, f: Filter)
    ensures forall i :: 0 <= i < |Where(rows, f)| ==> f.from <= Where(rows, f)[i].bn < f.until
  {
    if rows != [] {
      WhereInRange(rows[..|rows| - 1], f);
    }
  }

  lemma {:induction false} WhereSorted(rows: seq<Row>, f: Filter)
    requires Sorted(rows)
    ensures Sorted(Where(rows, f))
  {
    if rows != [] {
      var init, x := rows[..|rows| - 1], rows[|rows| - 1];
      WhereSorted(init, f);
      WhereWithin(init, f, 0, x.bn);
      SortedPush(Where(init, f), x);
      assert Where(init, f) + [] == Where(init, f);
    }
  }

  lemma {:induction false} WhereIds(rows: seq<Row>, f: Filter, id: int)
    requires forall i :: 0 <= i < |rows| ==> rows[i].id < id
    ensures forall i :: 0 <= i < |Where(rows, f)| ==> Where(rows, f)[i].id < id
  {
    if rows != [] {
      WhereIds(rows[..|rows| - 1], f, id);
    }
  }

  lemma {:induction false} WhereAscending(rows: seq<Row>, f: Filter)
    requires Ascending(rows)
    ensures Ascending(Where(rows, f))
  {
    if rows != [] {
      var init, x := rows[..|rows| - 1], rows[|rows| - 1];
      WhereAscending(init, f);
      WhereIds(init, f, x.id);
      AscendingPush(Where(init, f), x);
      assert Where(init, f) + [] == Where(init, f);
    }
  }

  lemma {:induction false} WhereConcat(a: seq<Row>, b: seq<Row>, f: Filter)
    ensures Where(a + b, f) == Where(a, f) + Where(b, f)
  {
    if b == [] {
      assert a + b == a;
    } else {
      assert (a + b)[..|a + b| - 1] == a + b[..|b| - 1];
      WhereConcat(a, b[..|b| - 1], f);
    }
  }

  lemma {:induction false} BelowOlder(rows: seq<Row>, bn: nat, limit: nat)
    ensures OlderThan(Below(rows, bn), bn)
    ensures OlderThan(rows, limit) ==> OlderThan(Below(rows, bn), limit)
  {
    if rows != [] {
      BelowOlder(rows[..|rows| - 1], bn, limit);
    }
  }

  lemma {:induction false} NoneKept(rows: seq<Row>, f: Filter)
    requires OlderThan(rows, f.from)
    ensures Where(rows, f) == []
  {
    if rows != [] {
      NoneKept(rows[..|rows| - 1], f);
    }
  }

  /** The blocks of a popped partition are those it had before `bn`. */
  lemma ShrunkSpan(p: Part, bn: nat)
    requires p.span.Some? ==> p.span.value.min <= p.span.value.max
    ensures Shrunk(p, bn).span.Some? <==> p.span.Some? && p.span.value.min < bn
    ensures forall b: nat :: Covers(Shrunk(p, bn).span, b) <==> Covers(p.span, b) && b < bn
    ensures Shrunk(p, bn).span.Some? ==>
              && p.span.Some? && Shrunk(p, bn).span.value.max < bn
              && Shrunk(p, bn).span.value.min == p.span.value.min
              && Shrunk(p, bn).span.value.max <= p.span.value.max
  {
  }

  predicate Covers(span: Option<Span>, b: nat) {
    span.Some? && span.value.min <= b <= span.value.max
  }

  lemma ShrunkRows(p: Part, bn: nat)
    requires PartOk(p)
    ensures Shrunk(p, bn).rows == Below(p.rows, bn)
  {
    WhereAll(p.rows, Under(bn));
  }

  lemma ShrunkOk(p: Part, bn: nat)
    requires PartOk(p)
    ensures PartOk(Shrunk(p, bn))
  {
    if p.span.Some? {
      WhereSorted(p.rows, Under(bn));
      WhereAscending(p.rows, Under(bn));
      WhereWithin(p.rows, Under(bn), p.span.value.min, p.span.value.max);
      WhereInRange(p.rows, Under(bn));
    }
  }

  /** Popping removes exactly the rows from block `bn` on and keeps the invariant. */
  lemma PopKeeps(parts: seq<Part>, bn: nat)
    requires Inv(parts)
    ensures Inv(PopParts(parts, bn)) && AllBelow(PopParts(parts, bn), bn)
    ensures AllRows(PopParts(parts, bn)) == Below(AllRows(parts), bn)
  {
    var out := PopParts(parts, bn);
    forall i | 0 <= i < |parts| ensures PartOk(out[i]) {
      ShrunkOk(parts[i], bn);
    }
    forall i, j | 0 <= i < j < |parts| ensures Before(out[i], out[j]) {
      assert Before(parts[i], parts[j]);
      ShrunkSpan(parts[i], bn);
      ShrunkSpan(parts[j], bn);
    }
    forall i | 0 <= i < |out| && out[i].span.Some? ensures out[i].span.value.max < bn {
      ShrunkSpan(parts[i], bn);
    }
    PopRows(parts, bn);
  }

  lemma {:induction false} PopRows(parts: seq<Part>, bn: nat)
    requires forall i :: 0 <= i < |parts| ==> PartOk(parts[i])
    ensures AllRows(PopParts(parts, bn)) == Below(AllRows(parts), bn)
  {
    if parts != [] {
      var n := |parts| - 1;
      PopRows(parts[..n], bn);
      assert PopParts(parts, bn)[..n] == PopParts(parts[..n], bn);
      ShrunkRows(parts[n], bn);
      WhereConcat(AllRows(parts[..n]), parts[n].rows, Under(bn));
    }
  }

  // ---------- pruning ----------

  lemma DropKeeps(parts: seq<Part>, k: nat)
    requires Inv(parts) && k <= |parts|
    ensures Inv(parts[k..])
    ensures AllRows(parts) == AllRows(parts[..k]) + AllRows(parts[k..])
    ensures forall bn :: AllBelow(parts, bn) ==> AllBelow(parts[k..], bn)
  {
    AllRowsCut(parts, k);
    LaterInv(parts, k, parts[k..]);
  }

  lemma AllRowsCut(parts: seq<Part>, k: nat)
    requires k <= |parts|
    ensures AllRows(parts) == AllRows(parts[..k]) + AllRows(parts[k..])
  {
    assert parts == parts[..k] + parts[k..];
    AllRowsConcat(parts[..k], parts[k..]);
  }

  lemma LaterInv(parts: seq<Part>, k: nat, later: seq<Part>)
    requires Inv(parts) && k <= |parts| && later == parts[k..]
    ensures Inv(later)
  {
    forall i, j | 0 <= i < j < |later| ensures Before(later[i], later[j]) {
      assert Before(parts[k + i], parts[k + j]);
    }
  }

  lemma {:induction false} AllRowsConcat(a: seq<Part>, b: seq<Part>)
    ensures AllRows(a + b) == AllRows(a) + AllRows(b)
  {
    if b == [] {
      assert a + b == a;
    } else {
      assert (a + b)[..|a + b| - 1] == a + b[..|b| - 1];
      AllRowsConcat(a, b[..|b| - 1]);
    }
  }

  /** All rows together are in block order. */
  lemma {:induction false} AllRowsSorted(parts: seq<Part>)
    requires Inv(parts)
    ensures Sorted(AllRows(parts))
  {
    if parts != [] {
      var init, last := parts[..|parts| - 1], parts[|parts| - 1];
      AllRowsSorted(init);
      if last.span.Some? {
        forall i | 0 <= i < |init| && init[i].span.Some? ensures init[i].span.value.max < last.span.value.min {
          assert Before(parts[i], parts[|parts| - 1]);
        }
        AllRowsOlder(init, last.span.value.min);
        SortedConcat(AllRows(init), last.rows, last.span.value.min, last.span.value.max);
      } else {
        assert AllRows(init) + [] == AllRows(init);
      }
    }
  }

  lemma {:induction false} AllRowsOlder(parts: seq<Part>, bn: nat)
    requires (forall i :: 0 <= i < |parts| ==> PartOk(parts[i])) && AllBelow(parts, bn)
    ensures OlderThan(AllRows(parts), bn)
  {
    if parts != [] {
      AllRowsOlder(parts[..|parts| - 1], bn);
      assert parts[|parts| - 1].rows == [] || parts[|parts| - 1].span.Some?;
    }
  }
}
