/** The log store over partition rows and tables. */
module LogStore {
  import opened Basics
  import opened LogPartitions
  import opened LogSearch
  import opened LogIndex
  import opened LogQuery

  // ---------- popping, partition by partition ----------

  /** The range of a partition without the blocks from `bn` on. */
  function ShrinkSpan(span: Span, bn: nat): Option<Span> {
    if bn == 0 || span.min >= bn then None else Some(Span(span.min, bn - 1))
  }

  predicate Reaches(p: Part, bn: nat) {
    p.span.Some? && p.span.value.max >= bn
  }

  function Ranged(p: Part, bn: nat): Part {
    if Reaches(p, bn) then p.(span := ShrinkSpan(p.span.value, bn)) else p
  }

  /** The partitions from position `start` on that reach block `bn`, the latest first. */
  ghost predicate Latest(shrunk: seq<nat>, parts: seq<Part>, start: nat, bn: nat) {
    && (forall k :: 0 <= k < |shrunk| ==> start <= shrunk[k] < |parts|)
    && (forall i :: start <= i < |parts| ==> (i in shrunk <==> Reaches(parts[i], bn)))
    && (forall k, l :: 0 <= k < l < |shrunk| ==> shrunk[l] < shrunk[k])
  }

  /** The partitions from position `start` on have their range shrunk. */
  ghost predicate RangedFrom(work: seq<Part>, parts: seq<Part>, start: nat, bn: nat) {
    && |work| == |parts|
    && forall j :: 0 <= j < |parts| ==> work[j] == if j < start then parts[j] else Ranged(parts[j], bn)
  }

  lemma LatestMore(shrunk: seq<nat>, parts: seq<Part>, i: nat, bn: nat)
    requires Latest(shrunk, parts, i + 1, bn) && i < |parts| && Reaches(parts[i], bn)
    ensures Latest(shrunk + [i], parts, i, bn)
  {
    var out := shrunk + [i];
    assert out[|shrunk|] == i;
    forall j | i < j < |parts| ensures j in out <==> Reaches(parts[j], bn) {
      assert j in out <==> j in shrunk;
    }
  }

  /** If the partition before position `i` does not reach `bn`, no earlier one does. */
  lemma NoneBefore(work: seq<Part>, shrunk: seq<nat>, parts: seq<Part>, i: nat, bn: nat)
    requires Inv(parts) && 0 < i <= |parts| && parts[i - 1].span.Some? && !Reaches(parts[i - 1], bn)
    requires RangedFrom(work, parts, i, bn) && Latest(shrunk, parts, i, bn)
    ensures RangedFrom(work, parts, 0, bn) && Latest(shrunk, parts, 0, bn)
  {
    forall j | 0 <= j < i ensures !Reaches(parts[j], bn) {
      assert j < i - 1 ==> Before(parts[j], parts[i - 1]);
    }
  }

  /** The first `done` partitions are popped, without losing rows unless it is the latest; the
      others have their range shrunk. */
  ghost predicate Partly(parts: seq<Part>, work: seq<Part>, done: nat, bn: nat) {
    && |work| == |parts|
    && (forall i :: 0 <= i < |parts| ==> work[i] == if i < done then Shrunk(parts[i], bn) else Ranged(parts[i], bn))
    && forall i :: 0 <= i < done && i < |parts| - 1 && Reaches(parts[i], bn) ==> |Below(parts[i].rows, bn)| == |parts[i].rows|
  }

  lemma PartlyStep(parts: seq<Part>, work: seq<Part>, done: nat, i: nat, bn: nat)
    requires Partly(parts, work, done, bn) && done <= i < |parts| && PartOk(parts[i]) && Reaches(parts[i], bn)
    requires forall j :: done <= j < i ==> !Reaches(parts[j], bn)
    requires i < |parts| - 1 ==> |Below(parts[i].rows, bn)| == |parts[i].rows|
    ensures work[i].count - |work[i].rows| + |Below(work[i].rows, bn)| >= 0
    ensures var kept := Below(work[i].rows, bn);
            Partly(parts, work[i := work[i].(rows := kept, count := work[i].count - (|work[i].rows| - |kept|))], i + 1, bn)
  {
    assert work[i].rows == parts[i].rows && work[i].count == |parts[i].rows|;
    forall j | 0 <= j < i ensures work[j] == Shrunk(parts[j], bn) {
      assert j < done || !Reaches(parts[j], bn);
    }
  }

  /** The positions below `done` are those from index `k` on. */
  ghost predicate Split(shrunk: seq<nat>, k: nat, done: nat) {
    forall l :: 0 <= l < |shrunk| ==> (shrunk[l] < done <==> k <= l)
  }

  lemma SplitNext(shrunk: seq<nat>, parts: seq<Part>, k: nat, done: nat, bn: nat)
    requires Latest(shrunk, parts, 0, bn) && k < |shrunk| && Split(shrunk, k + 1, done)
    ensures done <= shrunk[k] < |parts| && Reaches(parts[shrunk[k]], bn) && Split(shrunk, k, shrunk[k] + 1)
    ensures forall j :: done <= j < shrunk[k] ==> !Reaches(parts[j], bn)
  {
  }

  lemma AllPopped(parts: seq<Part>, work: seq<Part>, shrunk: seq<nat>, done: nat, bn: nat)
    requires Inv(parts) && Latest(shrunk, parts, 0, bn) && Split(shrunk, 0, done) && Partly(parts, work, done, bn)
    requires done <= |parts|
    ensures Commits(parts, bn) && forall i :: 0 <= i < |parts| ==> work[i] == Shrunk(parts[i], bn)
  {
    forall i | 0 <= i < |parts| && !Reaches(parts[i], bn)
      ensures |Below(parts[i].rows, bn)| == |parts[i].rows|
    {
      WhereAll(parts[i].rows, Under(bn));
    }
  }

  class LogStore {
    var parts: seq<Part>
    ghost var pruned: seq<Row>
    ghost var next: nat
    const volume: nat

    ghost function View(): State
      reads this
    {
      State(parts, pruned, next)
    }

    constructor (volume: nat)
      ensures View() == State([], [], 0) && Good(View()) && this.volume == volume
    {
      parts, pruned, next := [], [], 0;
      this.volume := volume;
    }

    method PreparePartition()
      requires Good(View())
      modifies this
      ensures Good(View()) && View() == Step(old(View()), Prepare, volume)
      ensures parts != [] && Logged(View()) == old(Logged(View()))
    {
      PrepareStep(View(), volume);
      if parts == [] || parts[|parts| - 1].count >= volume {
        parts := parts + [Part(if parts == [] then 0 else parts[|parts| - 1].index + 1, 0, None, [])];
      }
    }

    method Add(span: Span, rows: seq<Row>)
      requires Good(View()) && Allowed(View(), Event.Add(span, rows))
      modifies this
      ensures Good(View()) && View() == Step(old(View()), Event.Add(span, rows), volume)
      ensures Logged(View()) == old(Logged(View())) + rows
    {
      ghost var was := View();
      var n := |parts| - 1;
      var last := parts[n];
      last := last.(span := Some(Span(if last.span.Some? then last.span.value.min else span.min, span.max)));
      if |rows| > 0 {
        last := last.(rows := last.rows + rows, count := last.count + |rows|);
      }
      assert last.rows == parts[n].rows + rows;
      parts := parts[..n] + [last];
      next := span.max + 1;
      assert View() == Step(was, Event.Add(span, rows), volume);
      AddStep(was, Event.Add(span, rows), volume);
    }

    /** Shrinks ranges from the latest partition back to the first one that ends before `bn`; the
        partitions shrunk are the last ones of those with a range. */
    method ShrinkBnRange(bn: nat) returns (work: seq<Part>, shrunk: seq<nat>)
      requires Inv(parts)
      ensures |work| == |parts| && forall i :: 0 <= i < |parts| ==> work[i] == Ranged(parts[i], bn)
      ensures Latest(shrunk, parts, 0, bn)
    {
      work, shrunk := parts, [];
      var i := |parts|;
      while i > 0
        invariant 0 <= i <= |parts| && RangedFrom(work, parts, i, bn) && Latest(shrunk, parts, i, bn)
      {
        var part := parts[i - 1];
        if part.span.Some? {
          if bn > 0 && part.span.value.max < bn {
            NoneBefore(work, shrunk, parts, i, bn);
            break;
          }
          LatestMore(shrunk, parts, i - 1, bn);
          work := work[i - 1 := part.(span := ShrinkSpan(part.span.value, bn))];
          shrunk := shrunk + [i - 1];
        }
        i := i - 1;
      }
    }

    /** Removes the rows of the epoch whose first block is `bn` and of later ones. The transaction is
        rolled back when the epoch has no block mapping, and when rows would leave a partition
        that is not the latest. */
    method Popn(mapping: Option<nat>) returns (ok: bool)
      requires Good(View())
      modifies this
      ensures Good(View())
      ensures ok <==> mapping.Some? && Commits(old(parts), mapping.value)
      ensures View() == if ok then Step(old(View()), Pop(mapping.value), volume) else old(View())
      ensures ok ==> Logged(View()) == Below(old(Logged(View())), mapping.value) && AllBelow(parts, mapping.value)
    {
      if mapping == None {
        return false;
      }
      var bn := mapping.value;
      PopStep(View(), Pop(bn), volume);
      PopKeeps(parts, bn);
      var work, shrunk := ShrinkBnRange(bn);
      ok, work := DeleteRows(bn, work, shrunk);
      if ok {
        assert work == PopParts(parts, bn);
        parts := work;
        pruned := Below(pruned, bn);
        next := if bn < next then bn else next;
      }
    }

    method DeleteRows(bn: nat, ranged: seq<Part>, shrunk: seq<nat>) returns (ok: bool, work: seq<Part>)
      requires Inv(parts) && Latest(shrunk, parts, 0, bn)
      requires |ranged| == |parts| && forall i :: 0 <= i < |parts| ==> ranged[i] == Ranged(parts[i], bn)
      ensures ok <==> Commits(parts, bn)
      ensures ok ==> |work| == |parts| && forall i :: 0 <= i < |parts| ==> work[i] == Shrunk(parts[i], bn)
    {
      work := ranged;
      var k := |shrunk|;
      ghost var done: nat := 0;
      while k > 0
        invariant 0 <= k <= |shrunk| && done <= |parts| && Split(shrunk, k, done)
        invariant Partly(parts, work, done, bn)
      {
        k := k - 1;
        SplitNext(shrunk, parts, k, done, bn);
        ok, work := DeleteFrom(work, shrunk[k], bn, done);
        if !ok {
          return;
        }
        done := shrunk[k] + 1;
      }
      ok := true;
      AllPopped(parts, work, shrunk, done, bn);
    }

    /** Deletes from one partition, which must be the latest if it loses rows. */
    method DeleteFrom(work: seq<Part>, i: nat, bn: nat, ghost done: nat) returns (ok: bool, next: seq<Part>)
      requires Inv(parts) && Partly(parts, work, done, bn) && done <= i < |parts| && Reaches(parts[i], bn)
      requires forall j :: done <= j < i ==> !Reaches(parts[j], bn)
      ensures if ok then Partly(parts, next, i + 1, bn) else !Commits(parts, bn)
    {
      WhereAll(parts[i].rows, Under(bn));
      var kept := Below(work[i].rows, bn);
      var deleted := |work[i].rows| - |kept|;
      if deleted > 0 && i != |parts| - 1 {
        return false, work;
      }
      PartlyStep(parts, work, done, i, bn);
      return true, work[i := work[i].(rows := kept, count := work[i].count - deleted)];
    }

    /** Drops the oldest partitions, at most `archived` staying besides the latest. */
    method PruneArchivePartitions(archived: nat)
      requires Good(View())
      modifies `parts, `pruned
      ensures Good(View()) && View() == Step(old(View()), Prune(archived), volume)
      ensures Logged(View()) == old(Logged(View()))
      ensures |parts| == if |old(parts)| > archived + 1 then archived + 1 else |old(parts)|
      ensures parts == old(parts)[|old(parts)| - |parts|..]
    {
      ghost var was := View();
      var n := |parts|;
      var i := 0;
      while i < n && n - 1 - i > archived
        invariant 0 <= i <= Excess(was.parts, archived)
        invariant parts == was.parts[i..] && pruned == was.pruned
      {
        parts := parts[1..];
        i := i + 1;
      }
      pruned := pruned + AllRows(was.parts[..i]);
      assert i == Excess(was.parts, archived);
      assert View() == Step(was, Prune(archived), volume);
      PruneStep(was, Prune(archived), volume);
    }

    /** Refuses ranges that were pruned. Otherwise an unbounded query reads every table up to
        `limit + 1` rows. A bounded one checks each table against `limit` and `maxSet` before
        reading it: what it returns is complete, and a range suggested after reading is the longest
        that fits. A range suggested by the check of one table may not fit. */
    method GetLogs(from: nat, to: nat, topics: Topics, limit: nat, maxSet: nat, bounded: bool)
      returns (r: Outcome, ghost k: nat)
      requires Inv(parts)
      ensures r.AlreadyPruned? <==> SearchParts(parts, from, to).Pruned?
      ensures !r.AlreadyPruned? && !bounded ==> r == Logs(Query(SearchParts(parts, from, to).parts, from, to, topics, limit))
      ensures !r.AlreadyPruned? && bounded ==> Answers(SearchParts(parts, from, to).parts, from, to, topics, limit, maxSet, r, k)
      ensures r.TooLarge? ==> WellSuggested(AllRows(parts), from, to, topics, limit, r.suggested)
      ensures bounded && r.TableRefused? && limit >= 1 && maxSet >= 1 && !r.verdict.Fits? && r.verdict.suggested.Some? ==>
                var found, b := SearchParts(parts, from, to).parts, r.verdict.suggested.value.max;
                && k < |found|
                && (|Scan(AllRows(parts), from, b, topics)| <= limit
                    <==> |Scan(AllRows(found[..k]), from, to, topics)| + |Scan(found[k].rows, from, b, topics)| <= limit)
    {
      var search := SearchParts(parts, from, to);
      if search.Pruned? {
        return AlreadyPruned, 0;
      }
      k := 0;
      if !bounded {
        var rows := ReadUnbounded(search.parts, from, to, topics, limit);
        return Logs(rows), 0;
      }
      FoundOk(parts, from, to);
      r, k := ReadBounded(search.parts, from, to, topics, limit, maxSet);
      if r.TooLarge? {
        OverlappingIsComplete(parts, from, to, topics);
        ReadSuggestion(parts, from, to, topics, limit);
      } else if r.TableRefused? && limit >= 1 && maxSet >= 1 && !r.verdict.Fits? && r.verdict.suggested.Some? {
        TableSuggestionFitsIff(parts, search.parts, k, from, to, topics, limit, maxSet, r.verdict.suggested.value);
      }
    }
  }
}
