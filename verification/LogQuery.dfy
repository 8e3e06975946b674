/** Reading the tables that a search found: in full or up to a limit, and with the checks that refuse
    a query that is too large and suggest a narrower block range.
 */
module LogQuery {
  import opened Basics
  import opened LogPartitions
  import opened LogSearch

  /** The block of the row over the limit decides what to suggest. */
  function Suggest(over: nat, from: nat): Option<Span> {
    if over > from then Some(Span(from, over - 1)) else None
  }

  // ---------- counting rows of narrower ranges ----------

  lemma {:induction false} NarrowScan(rows: seq<Row>, from: nat, to: nat, topics: Topics, last: nat)
    requires last <= to
    ensures Where(Scan(rows, from, to, topics), Under(last + 1)) == Scan(rows, from, last, topics)
  {
    if rows != [] {
      NarrowScan(rows[..|rows| - 1], from, to, topics, last);
      var x := rows[|rows| - 1];
      var hits := Scan(rows[..|rows| - 1], from, to, topics);
      if Keeps(InRange(from, to, topics), x) {
        assert (hits + [x])[..|hits|] == hits;
      } else {
        assert hits + [] == hits;
      }
    }
  }

  lemma {:induction false} RowsUnder(rows: seq<Row>, n: nat, over: nat)
    requires Sorted(rows) && n < |rows| && rows[n].bn == over
    ensures |Where(rows, Under(over))| <= n < |Where(rows, Under(over + 1))|
  {
    var init := rows[..|rows| - 1];
    if n == |rows| - 1 {
      WhereAll(init, Under(over));
      WhereAll(rows, Under(over + 1));
    } else {
      RowsUnder(init, n, over);
    }
  }

  /** The range that ends just before the row over the limit has at most `limit` rows; one block
      more and it has too many. Nothing can be suggested when the first block alone has too many. */
  lemma SuggestionFits(rows: seq<Row>, from: nat, to: nat, topics: Topics, limit: nat)
    requires Sorted(rows) && |Scan(rows, from, to, topics)| > limit
    ensures from <= Scan(rows, from, to, topics)[limit].bn <= to
    ensures var over := Scan(rows, from, to, topics)[limit].bn;
            && |Scan(rows, from, over, topics)| > limit
            && (over > from ==> |Scan(rows, from, over - 1, topics)| <= limit)
  {
    var hits := Scan(rows, from, to, topics);
    var over := hits[limit].bn;
    HitInRange(rows, from, to, topics, limit);
    HitsUnder(rows, from, to, topics, limit, hits, over);
    NarrowScan(rows, from, to, topics, over);
    if over > from {
      NarrowScan(rows, from, to, topics, over - 1);
    }
  }

  lemma HitInRange(rows: seq<Row>, from: nat, to: nat, topics: Topics, i: nat)
    requires i < |Scan(rows, from, to, topics)|
    ensures from <= Scan(rows, from, to, topics)[i].bn <= to
  {
    WhereInRange(rows, InRange(from, to, topics));
  }

  lemma HitsUnder(rows: seq<Row>, from: nat, to: nat, topics: Topics, limit: nat, hits: seq<Row>, over: nat)
    requires Sorted(rows) && hits == Scan(rows, from, to, topics) && limit < |hits| && over == hits[limit].bn
    ensures |Where(hits, Under(over))| <= limit < |Where(hits, Under(over + 1))|
  {
    WhereSorted(rows, InRange(from, to, topics));
    RowsUnder(hits, limit, over);
  }

  // ---------- the check of one table ----------

  /** What the check before reading a table says. */
  datatype Verdict =
    | Fits
    | QuerySetTooLarge(suggested: Option<Span>)
    | ResultSetTooLarge(suggested: Option<Span>)

  predicate HasTopics(topics: Topics) {
    exists i :: 0 <= i < |topics| && topics[i].Some?
  }

  /** The rows of a block range, whatever their topics. */
  function InBlocks(rows: seq<Row>, from: nat, to: nat): seq<Row> {
    Scan(rows, from, to, [])
  }

  function BaseId(rows: seq<Row>, from: nat, to: nat): nat {
    var hits := InBlocks(rows, from, to);
    if hits == [] then 0 else hits[0].id
  }

  /** The number of rows in a block range, estimated by the ids of the first and the last of them. */
  function QuerySize(rows: seq<Row>, from: nat, to: nat): int {
    var hits := InBlocks(rows, from, to);
    if hits == [] then 1 else hits[|hits| - 1].id - hits[0].id + 1
  }

  /** The first row with an id not below `id`. */
  function FirstFrom(rows: seq<Row>, id: nat): Option<Row> {
    if rows == [] then None
    else
      var first := FirstFrom(rows[..|rows| - 1], id);
      if first.Some? then first
      else if rows[|rows| - 1].id >= id then Some(rows[|rows| - 1]) else None
  }

  /** Suggests the blocks before that of the row `size` ids after the first one. */
  function SuggestById(rows: seq<Row>, from: nat, to: nat, size: nat): Option<Span> {
    if from >= to then None
    else
      match FirstFrom(rows, BaseId(rows, from, to) + size)
      case None => None
      case Some(x) => Suggest(x.bn, from)
  }

  /** The exact count, made only for queries with topics whose estimate is over the limit. */
  function CheckCount(rows: seq<Row>, from: nat, to: nat, topics: Topics, limit: nat): Verdict {
    var hits := Scan(rows, from, to, topics);
    if |hits| > limit then ResultSetTooLarge(Suggest(hits[limit].bn, from)) else Fits
  }

  function CheckTable(rows: seq<Row>, from: nat, to: nat, topics: Topics, limit: nat, maxSet: nat): Verdict {
    var size := QuerySize(rows, from, to);
    if size > maxSet && HasTopics(topics) then QuerySetTooLarge(SuggestById(rows, from, to, maxSet))
    else if size > limit then
      if HasTopics(topics) then CheckCount(rows, from, to, topics, limit)
      else ResultSetTooLarge(SuggestById(rows, from, to, limit))
    else Fits
  }

  // ---------- what the check is worth ----------

  lemma {:induction false} AscendingSpread(rows: seq<Row>)
    requires Ascending(rows) && rows != []
    ensures |rows| <= rows[|rows| - 1].id - rows[0].id + 1
  {
    if |rows| > 1 {
      AscendingSpread(rows[..|rows| - 1]);
    }
  }

  lemma {:induction false} TopicsNarrow(rows: seq<Row>, from: nat, to: nat, topics: Topics)
    ensures |Scan(rows, from, to, topics)| <= |InBlocks(rows, from, to)|
  {
    if rows != [] {
      TopicsNarrow(rows[..|rows| - 1], from, to, topics);
    }
  }

  /** The table numbers its rows without gaps. */
  ghost predicate Gapless(rows: seq<Row>) {
    forall i :: 0 <= i < |rows| ==> rows[i].id == rows[0].id + i
  }

  /** In block order, the rows of a block range are consecutive. */
  lemma {:induction false} InBlocksGapless(rows: seq<Row>, from: nat, to: nat)
    requires Sorted(rows) && Gapless(rows)
    ensures Gapless(InBlocks(rows, from, to))
    ensures rows != [] && InBlocks(rows, from, to) != [] && rows[|rows| - 1].bn <= to ==>
              InBlocks(rows, from, to)[|InBlocks(rows, from, to)| - 1] == rows[|rows| - 1]
  {
    if rows != [] {
      var init, x := rows[..|rows| - 1], rows[|rows| - 1];
      InBlocksGapless(init, from, to);
      var hits := InBlocks(init, from, to);
      if hits != [] {
        WhereInRange(init, InRange(from, to, []));
        WhereIn(init, InRange(from, to, []), hits[0]);
        assert hits[0] in init && from <= hits[0].bn <= x.bn;
      }
      assert hits + [] == hits;
    }
  }

  lemma {:induction false} NoTopicsScan(rows: seq<Row>, from: nat, to: nat, topics: Topics)
    requires !HasTopics(topics)
    ensures Scan(rows, from, to, topics) == InBlocks(rows, from, to)
  {
    if rows != [] {
      NoTopicsScan(rows[..|rows| - 1], from, to, topics);
    }
  }

  lemma GaplessSize(rows: seq<Row>, from: nat, to: nat)
    requires Sorted(rows) && Gapless(rows)
    ensures InBlocks(rows, from, to) != [] ==> QuerySize(rows, from, to) == |InBlocks(rows, from, to)|
    ensures InBlocks(rows, from, to) == [] ==> QuerySize(rows, from, to) == 1
  {
    InBlocksGapless(rows, from, to);
  }

  /** A table without gaps in its ids passes the check if and only if it has at most `limit` matching
      rows and, for a query with topics, at most `maxSet` rows in the block range. */
  lemma TableFitsIff(rows: seq<Row>, from: nat, to: nat, topics: Topics, limit: nat, maxSet: nat)
    requires Sorted(rows) && Gapless(rows) && limit >= 1 && maxSet >= 1
    ensures CheckTable(rows, from, to, topics, limit, maxSet) == Fits
            <==> |Scan(rows, from, to, topics)| <= limit && (HasTopics(topics) ==> |InBlocks(rows, from, to)| <= maxSet)
  {
    GaplessSize(rows, from, to);
    TopicsNarrow(rows, from, to, topics);
    if !HasTopics(topics) {
      NoTopicsScan(rows, from, to, topics);
    }
  }

  /** A table that passes the check has at most `limit` matching rows. */
  lemma FittingTable(rows: seq<Row>, from: nat, to: nat, topics: Topics, limit: nat, maxSet: nat)
    requires Ascending(rows) && CheckTable(rows, from, to, topics, limit, maxSet) == Fits
    ensures |Scan(rows, from, to, topics)| <= limit
  {
    var hits := InBlocks(rows, from, to);
    TopicsNarrow(rows, from, to, topics);
    WhereAscending(rows, InRange(from, to, []));
    if hits != [] {
      AscendingSpread(hits);
    }
  }

  lemma {:induction false} FirstFromWithin(rows: seq<Row>, id: nat, hi: nat)
    requires Within(rows, 0, hi)
    ensures FirstFrom(rows, id).Some? ==> FirstFrom(rows, id).value.bn <= hi
  {
    if rows != [] {
      FirstFromWithin(rows[..|rows| - 1], id, hi);
    }
  }

  lemma {:induction false} FirstFromAt(rows: seq<Row>, id: nat, i: nat)
    requires Sorted(rows) && i < |rows| && rows[i].id >= id
    ensures FirstFrom(rows, id).Some? && FirstFrom(rows, id).value.bn <= rows[i].bn
  {
    var init, last := rows[..|rows| - 1], rows[|rows| - 1];
    if i < |rows| - 1 {
      FirstFromAt(init, id, i);
    } else {
      FirstFromWithin(init, id, last.bn);
    }
  }

  lemma FirstFromIsFirst(rows: seq<Row>, id: nat, y: Row)
    requires Sorted(rows) && y in rows && y.id >= id
    ensures FirstFrom(rows, id).Some? && FirstFrom(rows, id).value in rows && FirstFrom(rows, id).value.bn <= y.bn
  {
    var i :| 0 <= i < |rows| && rows[i] == y;
    FirstFromAt(rows, id, i);
    FirstFromMember(rows, id);
  }

  lemma {:induction false} FirstFromMember(rows: seq<Row>, id: nat)
    ensures FirstFrom(rows, id).Some? ==> FirstFrom(rows, id).value in rows
  {
    if rows != [] {
      FirstFromMember(rows[..|rows| - 1], id);
      assert rows == rows[..|rows| - 1] + [rows[|rows| - 1]];
    }
  }

  /** A range suggested by ids ends before the queried one, at a block before one of the table's,
      and has at most `size` rows of the table. */
  lemma SuggestedByIdFits(rows: seq<Row>, from: nat, to: nat, size: nat, b: nat)
    requires Sorted(rows) && Ascending(rows) && QuerySize(rows, from, to) > size && InBlocks(rows, from, to) != []
    requires SuggestById(rows, from, to, size) == Some(Span(from, b))
    ensures from <= b < to && (exists x :: x in rows && x.bn == b + 1)
    ensures |InBlocks(rows, from, b)| <= size
  {
    var hits, base := InBlocks(rows, from, to), BaseId(rows, from, to);
    var last := hits[|hits| - 1];
    WhereIn(rows, InRange(from, to, []), last);
    FirstFromIsFirst(rows, base + size, last);
    FewBefore(rows, from, to, size, b, FirstFrom(rows, base + size).value);
  }

  lemma FewBefore(rows: seq<Row>, from: nat, to: nat, size: nat, b: nat, x: Row)
    requires Sorted(rows) && Ascending(rows) && InBlocks(rows, from, to) != [] && b < to
    requires FirstFrom(rows, BaseId(rows, from, to) + size) == Some(x) && x.bn == b + 1
    ensures |InBlocks(rows, from, b)| <= size
  {
    var few, base := InBlocks(rows, from, b), BaseId(rows, from, to);
    if few != [] {
      var y, z := few[0], few[|few| - 1];
      WhereAscending(rows, InRange(from, b, []));
      AscendingSpread(few);
      WhereIn(rows, InRange(from, b, []), y);
      WhereIn(rows, InRange(from, b, []), z);
      BaseIsLeast(rows, from, to, y);
      if z.id >= base + size {
        FirstFromIsFirst(rows, base + size, z);
      }
    }
  }

  lemma BaseIsLeast(rows: seq<Row>, from: nat, to: nat, y: Row)
    requires Ascending(rows) && y in rows && from <= y.bn <= to
    ensures BaseId(rows, from, to) <= y.id
  {
    var hits := InBlocks(rows, from, to);
    WhereIn(rows, InRange(from, to, []), y);
    WhereAscending(rows, InRange(from, to, []));
    var i :| 0 <= i < |hits| && hits[i] == y;
    if i > 0 {
      AscendingAt(hits, 0, i);
    }
  }

  /** The verdict suggests a range. */
  predicate Suggests(v: Verdict, span: Span) {
    !v.Fits? && v.suggested == Some(span)
  }

  /** Whatever the check suggests starts where the query does, ends earlier, at a block before one of
      the table's; and a table refused for its result set has at most `limit` rows there. */
  lemma TableSuggestion(rows: seq<Row>, from: nat, to: nat, topics: Topics, limit: nat, maxSet: nat, span: Span)
    requires Sorted(rows) && Ascending(rows) && limit >= 1 && maxSet >= 1
    requires Suggests(CheckTable(rows, from, to, topics, limit, maxSet), span)
    ensures span.min == from <= span.max < to && exists x :: x in rows && x.bn == span.max + 1
    ensures CheckTable(rows, from, to, topics, limit, maxSet).ResultSetTooLarge? ==> |Scan(rows, from, span.max, topics)| <= limit
    ensures CheckTable(rows, from, to, topics, limit, maxSet).QuerySetTooLarge? ==> |InBlocks(rows, from, span.max)| <= maxSet
  {
    var size, b := QuerySize(rows, from, to), span.max;
    if size > maxSet && HasTopics(topics) {
      SuggestedByIdFits(rows, from, to, maxSet, b);
    } else if HasTopics(topics) {
      var hits := Scan(rows, from, to, topics);
      SuggestionFits(rows, from, to, topics, limit);
      WhereIn(rows, InRange(from, to, topics), hits[limit]);
    } else {
      SuggestedByIdFits(rows, from, to, limit, b);
      TopicsNarrow(rows, from, b, topics);
    }
  }

  // ---------- a table's suggestion among all tables ----------

  lemma {:induction false} OverlappingBelow(parts: seq<Part>, from: nat, to: nat, bn: nat)
    requires AllBelow(parts, bn)
    ensures AllBelow(Overlapping(parts, from, to), bn)
  {
    if parts != [] {
      OverlappingBelow(parts[..|parts| - 1], from, to, bn);
    }
  }

  /** Tables with ranges, one behind the other. */
  ghost predicate Ordered(found: seq<Part>) {
    && (forall i :: 0 <= i < |found| ==> PartOk(found[i]) && found[i].span.Some?)
    && forall i, j {:trigger Before(found[i], found[j])} :: 0 <= i < j < |found| ==> Before(found[i], found[j])
  }

  lemma OrderedPush(found: seq<Part>, last: Part)
    requires Ordered(found) && PartOk(last) && last.span.Some? && AllBelow(found, last.span.value.min)
    ensures Ordered(found + [last])
  {
    var out := found + [last];
    forall i, j | 0 <= i < j < |out| ensures Before(out[i], out[j]) {
      assert j < |found| ==> Before(found[i], found[j]);
    }
  }

  /** The partitions found are in order. */
  lemma {:induction false} OverlappingOrdered(parts: seq<Part>, from: nat, to: nat)
    requires Inv(parts)
    ensures Ordered(Overlapping(parts, from, to))
  {
    if parts != [] {
      var init, last := parts[..|parts| - 1], parts[|parts| - 1];
      var before := Overlapping(init, from, to);
      DropLastInv(parts);
      OverlappingOrdered(init, from, to);
      if Overlaps(last, from, to) {
        forall i | 0 <= i < |init| && init[i].span.Some? ensures init[i].span.value.max < last.span.value.min {
          assert Before(parts[i], parts[|parts| - 1]);
        }
        OverlappingBelow(init, from, to, last.span.value.min);
        OrderedPush(before, last);
      } else {
        assert before + [] == before;
      }
    }
  }

  lemma DropLastInv(parts: seq<Part>)
    requires Inv(parts) && parts != []
    ensures Inv(parts[..|parts| - 1])
  {
    var init := parts[..|parts| - 1];
    forall i, j | 0 <= i < j < |init| ensures Before(init[i], init[j]) {
      assert Before(parts[i], parts[j]);
    }
  }

  lemma {:induction false} NoneKeptAbove(rows: seq<Row>, f: Filter)
    requires forall i :: 0 <= i < |rows| ==> rows[i].bn >= f.until
    ensures Where(rows, f) == []
  {
    if rows != [] {
      NoneKeptAbove(rows[..|rows| - 1], f);
    }
  }

  /** The tables behind table `k` have rows of later blocks only. */
  lemma {:induction false} LaterRows(tables: seq<Part>, bn: nat)
    requires forall i :: 0 <= i < |tables| ==> PartOk(tables[i]) && tables[i].span.Some? && tables[i].span.value.min >= bn
    ensures forall i :: 0 <= i < |AllRows(tables)| ==> AllRows(tables)[i].bn >= bn
  {
    if tables != [] {
      LaterRows(tables[..|tables| - 1], bn);
    }
  }

  /** A narrower range that ends behind all rows has the same rows. */
  lemma SameRows(rows: seq<Row>, from: nat, to: nat, topics: Topics, b: nat)
    requires OlderThan(rows, b + 1) && b <= to
    ensures Scan(rows, from, b, topics) == Scan(rows, from, to, topics)
  {
    var hits := Scan(rows, from, to, topics);
    NarrowScan(rows, from, to, topics, b);
    WhereOlder(rows, InRange(from, to, topics), b + 1);
    WhereAll(hits, Under(b + 1));
  }

  lemma {:induction false} WhereOlder(rows: seq<Row>, f: Filter, bn: nat)
    requires OlderThan(rows, bn)
    ensures OlderThan(Where(rows, f), bn)
  {
    if rows != [] {
      WhereOlder(rows[..|rows| - 1], f, bn);
    }
  }

  lemma CutTables(found: seq<Part>, k: nat)
    requires k < |found|
    ensures found == found[..k] + ([found[k]] + found[k + 1..])
  {
    assert found == found[..k] + found[k..];
    assert found[k..] == [found[k]] + found[k + 1..];
  }

  lemma AllRowsOfOne(p: Part)
    ensures AllRows([p]) == p.rows
  {
    assert [p][..0] == [];
  }

  lemma AllRowsAround(a: seq<Part>, p: Part, c: seq<Part>, all: seq<Part>)
    requires all == a + ([p] + c)
    ensures AllRows(all) == AllRows(a) + (p.rows + AllRows(c))
  {
    AllRowsConcat(a, [p] + c);
    AllRowsConcat([p], c);
    AllRowsOfOne(p);
  }

  lemma ScanSplit(found: seq<Part>, k: nat, from: nat, to: nat, topics: Topics)
    requires k < |found|
    ensures Scan(AllRows(found), from, to, topics)
         == Scan(AllRows(found[..k]), from, to, topics)
            + (Scan(found[k].rows, from, to, topics) + Scan(AllRows(found[k + 1..]), from, to, topics))
  {
    CutTables(found, k);
    AllRowsAround(found[..k], found[k], found[k + 1..], found);
    WhereConcat(AllRows(found[..k]), found[k].rows + AllRows(found[k + 1..]), InRange(from, to, topics));
    WhereConcat(found[k].rows, AllRows(found[k + 1..]), InRange(from, to, topics));
  }

  /** Up to a block before one of table `k`, the rows are all those of the tables before it and its
      own up to that block. */
  lemma RowsUpTo(found: seq<Part>, k: nat, from: nat, to: nat, topics: Topics, b: nat)
    requires k < |found| && b < to && found[k].span.Some? && found[k].span.value.min <= b + 1 <= found[k].span.value.max
    requires Ordered(found)
    ensures Scan(AllRows(found), from, b, topics)
         == Scan(AllRows(found[..k]), from, to, topics) + Scan(found[k].rows, from, b, topics)
  {
    var earlier, later := found[..k], found[k + 1..];
    forall i | 0 <= i < k ensures earlier[i].span.value.max < b + 1 {
      assert Before(found[i], found[k]);
    }
    AllRowsOlder(earlier, b + 1);
    SameRows(AllRows(earlier), from, to, topics, b);
    forall i | 0 <= i < |later| ensures later[i].span.value.min >= b + 1 {
      assert Before(found[k], found[k + 1 + i]);
    }
    LaterRows(later, b + 1);
    NoneKeptAbove(AllRows(later), InRange(from, b, topics));
    ScanSplit(found, k, from, b, topics);
    assert Scan(found[k].rows, from, b, topics) + [] == Scan(found[k].rows, from, b, topics);
  }

  /** The check of a table does not see the tables before it. The range it suggests has at most
      `limit` rows if and only if the rows of the earlier tables and the rows of this table before the
      exceeding block are together at most `limit`. */
  lemma TableSuggestionFitsIff(parts: seq<Part>, found: seq<Part>, k: nat, from: nat, to: nat, topics: Topics,
                               limit: nat, maxSet: nat, span: Span)
    requires Inv(parts) && found == Overlapping(parts, from, to) && k < |found| && limit >= 1 && maxSet >= 1
    requires Suggests(CheckTable(found[k].rows, from, to, topics, limit, maxSet), span)
    ensures span.min == from <= span.max < to
    ensures |Scan(AllRows(parts), from, span.max, topics)| <= limit
            <==> |Scan(AllRows(found[..k]), from, to, topics)| + |Scan(found[k].rows, from, span.max, topics)| <= limit
  {
    OverlappingOrdered(parts, from, to);
    TableSuggestion(found[k].rows, from, to, topics, limit, maxSet, span);
    OverlappingUpTo(parts, found, from, to, topics, span.max);
    HasBlock(found[k], span.max + 1);
    RowsUpTo(found, k, from, to, topics, span.max);
  }

  lemma OverlappingUpTo(parts: seq<Part>, found: seq<Part>, from: nat, to: nat, topics: Topics, b: nat)
    requires Inv(parts) && found == Overlapping(parts, from, to) && b <= to
    ensures Scan(AllRows(parts), from, b, topics) == Scan(AllRows(found), from, b, topics)
  {
    OverlappingIsComplete(parts, from, to, topics);
    NarrowScan(AllRows(parts), from, to, topics, b);
    NarrowScan(AllRows(found), from, to, topics, b);
  }

  lemma HasBlock(p: Part, bn: nat)
    requires PartOk(p) && exists x :: x in p.rows && x.bn == bn
    ensures p.span.Some? && p.span.value.min <= bn <= p.span.value.max
  {
    var x :| x in p.rows && x.bn == bn;
  }

  /** A row that every query here matches. */
  function TaggedRow(bn: nat, id: nat): Row {
    Row(bn, 0, id, ["t"])
  }

  /** One row in block 1, and a second table with a row each in blocks 2 and 3. */
  function TwoTables(): seq<Part> {
    [Part(0, 1, Some(Span(1, 1)), [TaggedRow(1, 0)]), Part(1, 2, Some(Span(2, 3)), [TaggedRow(2, 0), TaggedRow(3, 1)])]
  }

  lemma OneRowOk(x: Row)
    ensures Sorted([x]) && Ascending([x])
  {
    var rows: seq<Row> := [x];
    assert rows[..0] == [];
  }

  lemma TwoRowsOk(x: Row, y: Row)
    requires x.bn <= y.bn && x.id < y.id
    ensures Sorted([x, y]) && Ascending([x, y])
  {
    var rows := [x, y];
    OneRowOk(x);
    assert rows[..1] == [x];
  }

  lemma TwoPartsOk(p: Part, q: Part, from: nat, to: nat)
    requires PartOk(p) && PartOk(q) && q.index == p.index + 1 && Before(p, q)
    requires Overlaps(p, from, to) && Overlaps(q, from, to)
    ensures Inv([p, q]) && Overlapping([p, q], from, to) == [p, q] && AllRows([p, q]) == p.rows + q.rows
  {
    TwoOverlap(p, q, from, to);
    AllRowsOfOne(p);
    AllRowsConcat([p], [q]);
    AllRowsOfOne(q);
    assert [p] + [q] == [p, q];
  }

  lemma TwoOverlap(p: Part, q: Part, from: nat, to: nat)
    requires Overlaps(p, from, to) && Overlaps(q, from, to)
    ensures Overlapping([p, q], from, to) == [p, q]
  {
    var parts, one: seq<Part> := [p, q], [p];
    assert parts[..1] == one && one[..0] == [];
    assert Overlapping(one, from, to) == [] + [p];
  }

  lemma TwoTablesOk()
    ensures Inv(TwoTables()) && Overlapping(TwoTables(), 1, 3) == TwoTables()
    ensures AllRows(TwoTables()) == [TaggedRow(1, 0)] + [TaggedRow(2, 0), TaggedRow(3, 1)]
  {
    OneRowOk(TaggedRow(1, 0));
    TwoRowsOk(TaggedRow(2, 0), TaggedRow(3, 1));
    TwoPartsOk(TwoTables()[0], TwoTables()[1], 1, 3);
  }

  lemma {:induction false} AllMatch(rows: seq<Row>, from: nat, to: nat, topics: Topics)
    requires Within(rows, from, to) && (topics == [] || topics == [Some({"t"})])
    requires forall i :: 0 <= i < |rows| ==> rows[i].topics == ["t"]
    ensures Scan(rows, from, to, topics) == rows
  {
    WhereAll(rows, InRange(from, to, topics));
  }

  /** With a limit of one, the check of the second table suggests blocks 1 to 2, which have two rows:
      by ids without topics, and by the exact count with topics. */
  lemma TableSuggestionTooLarge(topics: Topics, maxSet: nat)
    requires (topics == [] || topics == [Some({"t"})]) && maxSet >= 2
    ensures Inv(TwoTables()) && Overlapping(TwoTables(), 1, 3) == TwoTables()
    ensures CheckTable(TwoTables()[0].rows, 1, 3, topics, 1, maxSet) == Fits
    ensures CheckTable(TwoTables()[1].rows, 1, 3, topics, 1, maxSet) == ResultSetTooLarge(Some(Span(1, 2)))
    ensures |Scan(AllRows(TwoTables()), 1, 2, topics)| == 2
  {
    TwoTablesOk();
    CheckFirst(TwoTables()[0].rows, topics, maxSet);
    CheckSecond(TwoTables()[1].rows, topics, maxSet);
    TwoTablesCount(topics);
  }

  lemma TwoTablesCount(topics: Topics)
    requires topics == [] || topics == [Some({"t"})]
    ensures |Scan(AllRows(TwoTables()), 1, 2, topics)| == 2
  {
    TwoTablesOk();
    CountTwo(AllRows(TwoTables()), [TaggedRow(1, 0), TaggedRow(2, 0)], TaggedRow(3, 1), topics);
  }

  lemma CountTwo(rows: seq<Row>, two: seq<Row>, x: Row, topics: Topics)
    requires rows == two + [x] && |two| == 2 && x.bn == 3 && Within(two, 1, 2)
    requires (topics == [] || topics == [Some({"t"})]) && forall i :: 0 <= i < |two| ==> two[i].topics == ["t"]
    ensures |Scan(rows, 1, 2, topics)| == 2
  {
    WhereConcat(two, [x], InRange(1, 2, topics));
    AllMatch(two, 1, 2, topics);
    NoneKeptAbove([x], InRange(1, 2, topics));
  }

  lemma CheckFirst(rows: seq<Row>, topics: Topics, maxSet: nat)
    requires |rows| == 1 && Within(rows, 1, 3) && rows[0].topics == ["t"] && maxSet >= 2
    ensures CheckTable(rows, 1, 3, topics, 1, maxSet) == Fits
  {
    AllMatch(rows, 1, 3, []);
  }

  lemma CheckSecond(rows: seq<Row>, topics: Topics, maxSet: nat)
    requires rows == [TaggedRow(2, 0), TaggedRow(3, 1)] && (topics == [] || topics == [Some({"t"})]) && maxSet >= 2
    ensures CheckTable(rows, 1, 3, topics, 1, maxSet) == ResultSetTooLarge(Some(Span(1, 2)))
  {
    AllMatch(rows, 1, 3, []);
    if topics == [] {
      FirstFromOne(rows);
      assert !HasTopics(topics);
    } else {
      AllMatch(rows, 1, 3, topics);
      assert topics[0].Some?;
    }
  }

  lemma FirstFromOne(rows: seq<Row>)
    requires rows == [TaggedRow(2, 0), TaggedRow(3, 1)]
    ensures FirstFrom(rows, 1) == Some(TaggedRow(3, 1))
  {
    var one: seq<Row> := [TaggedRow(2, 0)];
    assert rows[..1] == one && one[..0] == [];
    assert FirstFrom(one, 1) == None;
  }

  // ---------- reading the tables ----------

  /** What a log query yields. */
  datatype Outcome =
    | AlreadyPruned
    | TableRefused(verdict: Verdict)
    | TooLarge(suggested: Option<Span>)
    | Logs(rows: seq<Row>)

  /** The first `k` tables pass their check. */
  ghost predicate AllFit(found: seq<Part>, k: nat, from: nat, to: nat, topics: Topics, limit: nat, maxSet: nat) {
    forall i :: 0 <= i < k && i < |found| ==> CheckTable(found[i].rows, from, to, topics, limit, maxSet) == Fits
  }

  /** The answer of a bounded query. All rows, if every table passes its check and they are at most
      `limit`; or else the verdict of the first table that does not pass, if the rows before it are at
      most `limit`; or else a suggestion from the row over the limit. */
  ghost predicate Answers(found: seq<Part>, from: nat, to: nat, topics: Topics, limit: nat, maxSet: nat, r: Outcome, k: nat) {
    && k <= |found| && AllFit(found, k, from, to, topics, limit, maxSet)
    && match r
       case AlreadyPruned => false
       case Logs(rows) =>
         k == |found| && |rows| <= limit && rows == Scan(AllRows(found), from, to, topics)
       case TableRefused(verdict) =>
         && k < |found| && |Scan(AllRows(found[..k]), from, to, topics)| <= limit
         && verdict == CheckTable(found[k].rows, from, to, topics, limit, maxSet) != Fits
       case TooLarge(suggested) =>
         && k > 0 && |Scan(AllRows(found[..k - 1]), from, to, topics)| <= limit < |Scan(AllRows(found[..k]), from, to, topics)|
         && |Scan(AllRows(found), from, to, topics)| > limit
         && suggested == Suggest(Scan(AllRows(found), from, to, topics)[limit].bn, from)
  }

  /** When no table is refused, a bounded query answers in full exactly if the rows are at most
      `limit`, and with a suggestion otherwise. */
  lemma AnswersExactly(found: seq<Part>, from: nat, to: nat, topics: Topics, limit: nat, maxSet: nat, r: Outcome, k: nat)
    requires Answers(found, from, to, topics, limit, maxSet, r, k)
    requires AllFit(found, |found|, from, to, topics, limit, maxSet)
    ensures r.Logs? <==> |Scan(AllRows(found), from, to, topics)| <= limit
    ensures r.TooLarge? <==> |Scan(AllRows(found), from, to, topics)| > limit
  {
  }

  /** The answer is determined. */
  lemma AnswersUnique(found: seq<Part>, from: nat, to: nat, topics: Topics, limit: nat, maxSet: nat,
                      r: Outcome, k: nat, r': Outcome, k': nat)
    requires Answers(found, from, to, topics, limit, maxSet, r, k) && Answers(found, from, to, topics, limit, maxSet, r', k')
    ensures r == r'
  {
    if k <= k' {
      ScanPrefix(found[..k'], k, from, to, topics);
      assert found[..k'][..k] == found[..k];
    } else {
      ScanPrefix(found[..k], k', from, to, topics);
      assert found[..k][..k'] == found[..k'];
    }
  }

  lemma ScanNext(found: seq<Part>, k: nat, from: nat, to: nat, topics: Topics)
    requires k < |found|
    ensures Scan(AllRows(found[..k + 1]), from, to, topics)
         == Scan(AllRows(found[..k]), from, to, topics) + Scan(found[k].rows, from, to, topics)
  {
    assert found[..k + 1][..k] == found[..k];
    WhereConcat(AllRows(found[..k]), found[k].rows, InRange(from, to, topics));
  }

  /** The rows of the first tables are the first rows of all of them. */
  lemma ScanPrefix(found: seq<Part>, k: nat, from: nat, to: nat, topics: Topics)
    requires k <= |found|
    ensures Scan(AllRows(found[..k]), from, to, topics) <= Scan(AllRows(found), from, to, topics)
  {
    AllRowsCut(found, k);
    WhereConcat(AllRows(found[..k]), AllRows(found[k..]), InRange(from, to, topics));
  }

  /** Reads without checks: every table up to `limit + 1` rows. */
  method ReadUnbounded(found: seq<Part>, from: nat, to: nat, topics: Topics, limit: nat) returns (rows: seq<Row>)
    ensures rows == Query(found, from, to, topics, limit)
  {
    rows := [];
    for k := 0 to |found|
      invariant rows == Query(found[..k], from, to, topics, limit)
    {
      assert found[..k + 1][..k] == found[..k];
      rows := rows + Take(Scan(found[k].rows, from, to, topics), limit + 1);
    }
    assert found[..|found|] == found;
  }

  /** Reads with checks: each table before it is read, and the number of rows after each. The answer
      is complete, or names the table that was refused, or the row over the limit. */
  method ReadBounded(found: seq<Part>, from: nat, to: nat, topics: Topics, limit: nat, maxSet: nat)
    returns (r: Outcome, ghost k: nat)
    requires forall i :: 0 <= i < |found| ==> PartOk(found[i])
    ensures Answers(found, from, to, topics, limit, maxSet, r, k)
  {
    var result: seq<Row> := [];
    k := 0;
    for i := 0 to |found|
      invariant k == i && AllFit(found, k, from, to, topics, limit, maxSet)
      invariant result == Scan(AllRows(found[..i]), from, to, topics) && |result| <= limit
    {
      var verdict := CheckTable(found[i].rows, from, to, topics, limit, maxSet);
      if verdict != Fits {
        return TableRefused(verdict), i;
      }
      FittingTable(found[i].rows, from, to, topics, limit, maxSet);
      ScanNext(found, i, from, to, topics);
      result := result + Take(Scan(found[i].rows, from, to, topics), limit + 1);
      k := i + 1;
      if |result| > limit {
        ScanPrefix(found, i + 1, from, to, topics);
        return TooLarge(Suggest(result[limit].bn, from)), k;
      }
    }
    assert found[..|found|] == found;
    r := Logs(result);
  }

  /** A suggested range keeps the start, ends earlier, and is the longest such range with at most
      `limit` rows; there is none exactly when the first block alone has more. */
  ghost predicate WellSuggested(rows: seq<Row>, from: nat, to: nat, topics: Topics, limit: nat, suggested: Option<Span>) {
    match suggested
    case Some(Span(min, max)) =>
      && min == from <= max < to
      && |Scan(rows, from, max, topics)| <= limit < |Scan(rows, from, max + 1, topics)|
    case None => |Scan(rows, from, from, topics)| > limit
  }

  /** The suggestion made after reading is well made. */
  lemma ReadSuggestion(parts: seq<Part>, from: nat, to: nat, topics: Topics, limit: nat)
    requires Inv(parts) && |Scan(AllRows(parts), from, to, topics)| > limit
    ensures WellSuggested(AllRows(parts), from, to, topics, limit, Suggest(Scan(AllRows(parts), from, to, topics)[limit].bn, from))
  {
    AllRowsSorted(parts);
    ScanSuggestion(AllRows(parts), from, to, topics, limit);
  }

  lemma ScanSuggestion(rows: seq<Row>, from: nat, to: nat, topics: Topics, limit: nat)
    requires Sorted(rows) && |Scan(rows, from, to, topics)| > limit
    ensures WellSuggested(rows, from, to, topics, limit, Suggest(Scan(rows, from, to, topics)[limit].bn, from))
  {
    SuggestionFits(rows, from, to, topics, limit);
  }

  lemma {:induction false} GaplessFirst(rows: seq<Row>, i: nat)
    requires Gapless(rows) && i < |rows|
    ensures FirstFrom(rows, rows[i].id) == Some(rows[i])
  {
    var init := rows[..|rows| - 1];
    if i < |init| {
      GaplessFirst(init, i);
    } else {
      NoneFrom(init, rows[i].id);
    }
  }

  lemma {:induction false} NoneFrom(rows: seq<Row>, id: nat)
    requires forall i :: 0 <= i < |rows| ==> rows[i].id < id
    ensures FirstFrom(rows, id) == None
  {
    if rows != [] {
      NoneFrom(rows[..|rows| - 1], id);
    }
  }

  /** Without gaps, the suggestion by id is that of the row over the limit. */
  lemma SuggestsByRank(rows: seq<Row>, from: nat, to: nat, size: nat)
    requires Sorted(rows) && Gapless(rows) && from <= to && size < |InBlocks(rows, from, to)|
    ensures SuggestById(rows, from, to, size) == Suggest(InBlocks(rows, from, to)[size].bn, from)
  {
    var hits := InBlocks(rows, from, to);
    InBlocksGapless(rows, from, to);
    assert hits[size].id == hits[0].id + size;
    HitInRange(rows, from, to, [], size);
    WhereIn(rows, InRange(from, to, []), hits[size]);
    var i :| 0 <= i < |rows| && rows[i] == hits[size];
    GaplessFirst(rows, i);
  }

  /** A table without gaps in its ids is refused with the longest range that fits it, or without a
      range exactly if its first block has too many rows. */
  lemma TableSuggestsLongest(rows: seq<Row>, from: nat, to: nat, topics: Topics, limit: nat, maxSet: nat)
    requires Sorted(rows) && Gapless(rows) && from <= to && limit >= 1 && maxSet >= 1
    ensures var v := CheckTable(rows, from, to, topics, limit, maxSet);
            && (v.ResultSetTooLarge? ==> WellSuggested(rows, from, to, topics, limit, v.suggested))
            && (v.QuerySetTooLarge? ==> WellSuggested(rows, from, to, [], maxSet, v.suggested))
  {
    var v := CheckTable(rows, from, to, topics, limit, maxSet);
    GaplessSize(rows, from, to);
    if v.QuerySetTooLarge? {
      SuggestsByRank(rows, from, to, maxSet);
      ScanSuggestion(rows, from, to, [], maxSet);
    } else if v.ResultSetTooLarge? {
      if HasTopics(topics) {
        ScanSuggestion(rows, from, to, topics, limit);
      } else {
        NoTopicsSuggestion(rows, from, to, topics, limit);
      }
    }
  }

  lemma NoTopicsSuggestion(rows: seq<Row>, from: nat, to: nat, topics: Topics, limit: nat)
    requires Sorted(rows) && Gapless(rows) && from <= to && !HasTopics(topics) && limit < |InBlocks(rows, from, to)|
    ensures WellSuggested(rows, from, to, topics, limit, SuggestById(rows, from, to, limit))
  {
    NoTopicsScan(rows, from, to, topics);
    SuggestsByRank(rows, from, to, limit);
    ScanSuggestion(rows, from, to, topics, limit);
  }

  lemma FoundOk(parts: seq<Part>, from: nat, to: nat)
    requires Inv(parts) && SearchParts(parts, from, to).Found?
    ensures forall i :: 0 <= i < |SearchParts(parts, from, to).parts| ==> PartOk(SearchParts(parts, from, to).parts[i])
  {
    OverlappingOrdered(parts, from, to);
  }
}
