/** Searching the partitions by block range, and querying the partitions found. */
module LogSearch {
  import opened Basics
  import opened LogPartitions

  /** What a search yields: the data was pruned, or the partitions to read and the part of the
      range that no partition covers. */
  datatype Search = Pruned | Found(parts: seq<Part>, uncovered: Option<Span>)

  // ---------- covered blocks ----------

  /** Lowest and highest block of all recorded ranges. */
  function Covered(parts: seq<Part>): Option<Span> {
    if parts == [] then None
    else
      var rest, span := Covered(parts[..|parts| - 1]), parts[|parts| - 1].span;
      if rest == None then span
      else if span == None then rest
      else Some(Span(if span.value.min < rest.value.min then span.value.min else rest.value.min,
                     if span.value.max > rest.value.max then span.value.max else rest.value.max))
  }

  /** Every range lies inside the covered one, whose ends are the start of a range and the end of one. */
  lemma {:induction false} CoveredBounds(parts: seq<Part>)
    ensures Covered(parts) == None <==> forall i :: 0 <= i < |parts| ==> parts[i].span == None
    ensures Covered(parts).Some? ==>
              && (forall i :: 0 <= i < |parts| && parts[i].span.Some? ==>
                                Covered(parts).value.min <= parts[i].span.value.min && parts[i].span.value.max <= Covered(parts).value.max)
              && (exists i :: 0 <= i < |parts| && parts[i].span.Some? && parts[i].span.value.min == Covered(parts).value.min)
              && (exists i :: 0 <= i < |parts| && parts[i].span.Some? && parts[i].span.value.max == Covered(parts).value.max)
  {
    if parts != [] {
      var init := parts[..|parts| - 1];
      CoveredBounds(init);
      assert forall i :: 0 <= i < |init| ==> init[i] == parts[i];
      assert parts[|parts| - 1].span.Some? ==> 0 <= |parts| - 1 < |parts|;
    }
  }

  // ---------- partitions that overlap a range ----------

  predicate Overlaps(p: Part, from: nat, to: nat) {
    p.span.Some? && p.span.value.min <= to && p.span.value.max >= from
  }

  function Overlapping(parts: seq<Part>, from: nat, to: nat): seq<Part> {
    if parts == [] then []
    else Overlapping(parts[..|parts| - 1], from, to)
         + if Overlaps(parts[|parts| - 1], from, to) then [parts[|parts| - 1]] else []
  }

  function OverlapsRange(from: nat, to: nat): Part -> bool {
    (p: Part) => Overlaps(p, from, to)
  }

  /** The partitions that overlap a range, each once and in order of index. */
  lemma {:induction false} OverlappingPicks(parts: seq<Part>, from: nat, to: nat) returns (ps: seq<nat>)
    ensures Picked(parts, OverlapsRange(from, to), ps, Overlapping(parts, from, to))
  {
    if parts == [] {
      ps := [];
    } else {
      var init, p := parts[..|parts| - 1], parts[|parts| - 1];
      ps := OverlappingPicks(init, from, to);
      assert parts == init + [p];
      PickedPush(init, OverlapsRange(from, to), ps, Overlapping(init, from, to), p);
      if Overlaps(p, from, to) {
        ps := ps + [|init|];
      } else {
        assert Overlapping(init, from, to) + [] == Overlapping(init, from, to);
      }
    }
  }

  /** The uncovered part reported is exactly the part of the range behind the covered blocks, unless
      the range starts at the last covered block and goes on: then none is reported. */
  lemma UncoveredIsRestIff(parts: seq<Part>, from: nat, to: nat)
    requires from <= to && Covered(parts).Some? && SearchParts(parts, from, to).Found?
    ensures (forall b: nat :: Covers(SearchParts(parts, from, to).uncovered, b) <==> from <= b <= to && b > Covered(parts).value.max)
            <==> !(from == Covered(parts).value.max < to)
  {
    var uncovered, max := SearchParts(parts, from, to).uncovered, Covered(parts).value.max;
    if from == max < to {
      assert !Covers(uncovered, to);
    }
  }

  function SearchParts(parts: seq<Part>, from: nat, to: nat): Search {
    var covered := Covered(parts);
    if covered == None then Found([], Some(Span(from, to)))
    else if to < covered.value.min then Pruned
    else if from > covered.value.max then Found([], Some(Span(from, to)))
    else if from < covered.value.min && to > covered.value.min then Pruned
    else Found(Overlapping(parts, from, to),
               if to > covered.value.max && from < covered.value.max then Some(Span(covered.value.max + 1, to)) else None)
  }

  /** A search is refused if and only if something is covered and the range starts before the first
      covered block, without ending exactly there. */
  lemma PrunedIff(parts: seq<Part>, from: nat, to: nat)
    requires from <= to && forall i :: 0 <= i < |parts| ==> PartOk(parts[i])
    ensures SearchParts(parts, from, to).Pruned? <==>
              Covered(parts).Some? && from < Covered(parts).value.min && to != Covered(parts).value.min
  {
    CoveredBounds(parts);
  }

  // ---------- the plain scan ----------

  function InRange(from: nat, to: nat, topics: Topics): Filter {
    Filter(from, to + 1, topics)
  }

  /** The rows of a query over a plain, unpartitioned list of rows. */
  function Scan(rows: seq<Row>, from: nat, to: nat, topics: Topics): seq<Row> {
    Where(rows, InRange(from, to, topics))
  }

  function Take(rows: seq<Row>, n: nat): seq<Row> {
    if |rows| <= n then rows else rows[..n]
  }

  /** Each table is read up to `limit + 1` rows. */
  function Query(parts: seq<Part>, from: nat, to: nat, topics: Topics, limit: nat): seq<Row> {
    if parts == [] then []
    else Query(parts[..|parts| - 1], from, to, topics, limit)
         + Take(Scan(parts[|parts| - 1].rows, from, to, topics), limit + 1)
  }

  ghost predicate NoneTruncated(parts: seq<Part>, from: nat, to: nat, topics: Topics, limit: nat) {
    forall i :: 0 <= i < |parts| ==> |Scan(parts[i].rows, from, to, topics)| <= limit + 1
  }

  lemma NoRowOutside(p: Part, from: nat, to: nat, topics: Topics)
    requires PartOk(p) && !Overlaps(p, from, to)
    ensures Scan(p.rows, from, to, topics) == []
  {
    var hits := Scan(p.rows, from, to, topics);
    if hits != [] {
      WhereIn(p.rows, InRange(from, to, topics), hits[0]);
    }
  }

  /** The overlapping partitions hold every row of the range. */
  lemma {:induction false} OverlappingIsComplete(parts: seq<Part>, from: nat, to: nat, topics: Topics)
    requires forall i :: 0 <= i < |parts| ==> PartOk(parts[i])
    ensures Scan(AllRows(Overlapping(parts, from, to)), from, to, topics) == Scan(AllRows(parts), from, to, topics)
  {
    if parts != [] {
      var init, last := parts[..|parts| - 1], parts[|parts| - 1];
      var found := Overlapping(init, from, to);
      OverlappingIsComplete(init, from, to, topics);
      WhereConcat(AllRows(init), last.rows, InRange(from, to, topics));
      if Overlaps(last, from, to) {
        assert (found + [last])[..|found|] == found;
        WhereConcat(AllRows(found), last.rows, InRange(from, to, topics));
      } else {
        NoRowOutside(last, from, to, topics);
        assert found + [] == found;
      }
    }
  }

  /** A query over tables is the scan of all their rows exactly when no table is cut short. */
  lemma {:induction false} QueryIsScanIff(parts: seq<Part>, from: nat, to: nat, topics: Topics, limit: nat)
    ensures |Query(parts, from, to, topics, limit)| <= |Scan(AllRows(parts), from, to, topics)|
    ensures Query(parts, from, to, topics, limit) == Scan(AllRows(parts), from, to, topics)
            <==> NoneTruncated(parts, from, to, topics, limit)
    ensures |Query(parts, from, to, topics, limit)| == |Scan(AllRows(parts), from, to, topics)|
            ==> Query(parts, from, to, topics, limit) == Scan(AllRows(parts), from, to, topics)
  {
    if parts != [] {
      var init, last := parts[..|parts| - 1], parts[|parts| - 1];
      QueryIsScanIff(init, from, to, topics, limit);
      WhereConcat(AllRows(init), last.rows, InRange(from, to, topics));
      TakeJoins(Query(init, from, to, topics, limit), Scan(AllRows(init), from, to, topics),
                Scan(last.rows, from, to, topics), limit + 1);
      NoneTruncatedLast(parts, from, to, topics, limit);
    }
  }

  lemma NoneTruncatedLast(parts: seq<Part>, from: nat, to: nat, topics: Topics, limit: nat)
    requires parts != []
    ensures NoneTruncated(parts, from, to, topics, limit)
            <==> NoneTruncated(parts[..|parts| - 1], from, to, topics, limit)
                 && |Scan(parts[|parts| - 1].rows, from, to, topics)| <= limit + 1
  {
    assert parts == parts[..|parts| - 1] + [parts[|parts| - 1]];
  }

  lemma TakeJoins(found: seq<Row>, all: seq<Row>, more: seq<Row>, n: nat)
    requires |found| <= |all| && (|found| == |all| ==> found == all)
    ensures |found + Take(more, n)| <= |all + more|
    ensures |found + Take(more, n)| == |all + more| <==> found == all && |more| <= n
    ensures found + Take(more, n) == all + more <==> found == all && |more| <= n
  {
  }
}
