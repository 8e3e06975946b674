/** Logs of a virtual filter: a batch that names a block again replaces the rows stored for it, by
    marking the old ones deleted wherever they are. */
module VirtualFilterLogs {
  import opened Basics

  datatype FilterLog = FilterLog(bn: nat, hash: string, id: nat, deleted: bool)

  datatype FilterPart = FilterPart(index: nat, count: nat, span: Option<Span>, rows: seq<FilterLog>)

  // ---------- rows of a block ----------

  /** Rows of block `hash` that are not marked deleted. */
  function Live(rows: seq<FilterLog>, hash: string): seq<FilterLog> {
    if rows == [] then []
    else
      var r := rows[|rows| - 1];
      Live(rows[..|rows| - 1], hash) + if r.hash == hash && !r.deleted then [r] else []
  }

  function LiveOf(hash: string): FilterLog -> bool {
    (r: FilterLog) => r.hash == hash && !r.deleted
  }

  /** The live rows of a block are the undeleted rows with its hash, each once and in order. */
  lemma {:induction false} LivePicks(rows: seq<FilterLog>, hash: string) returns (ps: seq<nat>)
    ensures Picked(rows, LiveOf(hash), ps, Live(rows, hash))
  {
    if rows == [] {
      ps := [];
    } else {
      var init, r := rows[..|rows| - 1], rows[|rows| - 1];
      ps := LivePicks(init, hash);
      assert rows == init + [r];
      PickedPush(init, LiveOf(hash), ps, Live(init, hash), r);
      if r.hash == hash && !r.deleted {
        ps := ps + [|init|];
      } else {
        assert Live(init, hash) + [] == Live(init, hash);
      }
    }
  }

  /** Live rows of a block in all partitions. */
  function AllLive(parts: seq<FilterPart>, hash: string): seq<FilterLog> {
    if parts == [] then []
    else AllLive(parts[..|parts| - 1], hash) + Live(parts[|parts| - 1].rows, hash)
  }

  /** The blocks that a batch names. */
  function Hashes(logs: seq<FilterLog>): set<string> {
    if logs == [] then {} else Hashes(logs[..|logs| - 1]) + {logs[|logs| - 1].hash}
  }

  lemma {:induction false} HashesAreNamed(logs: seq<FilterLog>, hash: string)
    ensures hash in Hashes(logs) <==> exists i :: 0 <= i < |logs| && logs[i].hash == hash
  {
    if logs != [] {
      var init := logs[..|logs| - 1];
      HashesAreNamed(init, hash);
      assert forall i :: 0 <= i < |init| ==> init[i] == logs[i];
    }
  }

  /** The rows of the last batch that names the block. */
  function LastNamed(batches: seq<seq<FilterLog>>, hash: string): seq<FilterLog> {
    if batches == [] then []
    else if hash in Hashes(batches[|batches| - 1]) then Live(batches[|batches| - 1], hash)
    else LastNamed(batches[..|batches| - 1], hash)
  }

  // ---------- appending a batch ----------

  /** The block numbers of a batch. */
  function Extent(logs: seq<FilterLog>): Span
    requires logs != []
  {
    var bn := logs[|logs| - 1].bn;
    if |logs| == 1 then Span(bn, bn)
    else
      var rest := Extent(logs[..|logs| - 1]);
      Span(if bn < rest.min then bn else rest.min, if bn > rest.max then bn else rest.max)
  }

  predicate Replaced(r: FilterLog, extent: Span, hashes: set<string>) {
    extent.min <= r.bn <= extent.max && r.hash in hashes
  }

  function SoftDelete(rows: seq<FilterLog>, extent: Span, hashes: set<string>): seq<FilterLog> {
    if rows == [] then []
    else
      var r := rows[|rows| - 1];
      SoftDelete(rows[..|rows| - 1], extent, hashes) + [if Replaced(r, extent, hashes) then r.(deleted := true) else r]
  }

  predicate Meets(p: FilterPart, extent: Span) {
    p.span.Some? && p.span.value.min <= extent.max && p.span.value.max >= extent.min
  }

  function MarkPart(p: FilterPart, extent: Span, hashes: set<string>): FilterPart {
    if Meets(p, extent) then p.(rows := SoftDelete(p.rows, extent, hashes)) else p
  }

  function MarkAll(parts: seq<FilterPart>, extent: Span, hashes: set<string>): (r: seq<FilterPart>)
    ensures |r| == |parts|
  {
    if parts == [] then []
    else MarkAll(parts[..|parts| - 1], extent, hashes) + [MarkPart(parts[|parts| - 1], extent, hashes)]
  }

  function Widen(span: Option<Span>, extent: Span): Span {
    if span == None then extent
    else Span(if extent.min < span.value.min then extent.min else span.value.min,
              if extent.max > span.value.max then extent.max else span.value.max)
  }

  /** A partition is widened no more than needed: a range holds the new one if and only if it holds
      the former one and that of the batch. */
  lemma WidenIsLeast(span: Option<Span>, extent: Span, r: Span)
    ensures r.min <= Widen(span, extent).min && Widen(span, extent).max <= r.max
            <==> && r.min <= extent.min && extent.max <= r.max
                 && (span.Some? ==> r.min <= span.value.min && span.value.max <= r.max)
  {
  }

  function Insert(p: FilterPart, logs: seq<FilterLog>, extent: Span): FilterPart {
    FilterPart(p.index, p.count + |logs|, Some(Widen(p.span, extent)), p.rows + logs)
  }

  function Appended(parts: seq<FilterPart>, logs: seq<FilterLog>): seq<FilterPart>
    requires parts != [] && logs != []
  {
    var marked := MarkAll(parts, Extent(logs), Hashes(logs));
    marked[..|parts| - 1] + [Insert(marked[|parts| - 1], logs, Extent(logs))]
  }

  // ---------- invariant ----------

  /** The hash of a block determines its number. */
  ghost predicate Numbered(rows: seq<FilterLog>, numberOf: map<string, nat>) {
    forall i :: 0 <= i < |rows| ==> rows[i].hash in numberOf && rows[i].bn == numberOf[rows[i].hash]
  }

  ghost predicate PartOk(p: FilterPart, numberOf: map<string, nat>) {
    && Numbered(p.rows, numberOf) && p.count == |p.rows|
    && match p.span
       case None => p.rows == []
       case Some(Span(min, max)) => forall i :: 0 <= i < |p.rows| ==> min <= p.rows[i].bn <= max
  }

  ghost predicate Inv(parts: seq<FilterPart>, numberOf: map<string, nat>) {
    forall i :: 0 <= i < |parts| ==> PartOk(parts[i], numberOf)
  }

  ghost predicate GoodBatch(logs: seq<FilterLog>, numberOf: map<string, nat>) {
    Numbered(logs, numberOf) && forall i :: 0 <= i < |logs| ==> !logs[i].deleted
  }

  // ---------- proofs ----------

  lemma {:induction false} SoftDeleteRows(rows: seq<FilterLog>, extent: Span, hashes: set<string>)
    ensures |SoftDelete(rows, extent, hashes)| == |rows|
    ensures forall i :: 0 <= i < |rows| ==> SoftDelete(rows, extent, hashes)[i].bn == rows[i].bn
                                            && SoftDelete(rows, extent, hashes)[i].hash == rows[i].hash
  {
    if rows != [] {
      SoftDeleteRows(rows[..|rows| - 1], extent, hashes);
    }
  }

  /** A named block loses its live rows, if its number is in range; another keeps them. */
  lemma {:induction false} SoftDeleteLive(rows: seq<FilterLog>, extent: Span, hashes: set<string>, numberOf: map<string, nat>, hash: string)
    requires Numbered(rows, numberOf)
    requires hash in hashes && hash in numberOf ==> extent.min <= numberOf[hash] <= extent.max
    ensures Live(SoftDelete(rows, extent, hashes), hash) == if hash in hashes then [] else Live(rows, hash)
  {
    if rows != [] {
      var init := rows[..|rows| - 1];
      SoftDeleteLive(init, extent, hashes, numberOf, hash);
      assert SoftDelete(rows, extent, hashes)[..|rows| - 1] == SoftDelete(init, extent, hashes) by {
        SoftDeleteRows(init, extent, hashes);
      }
      SoftDeleteRows(rows, extent, hashes);
    }
  }

  /** A partition that the batch's blocks miss has no row of a named block. */
  lemma {:induction false} NoLive(rows: seq<FilterLog>, hash: string)
    requires forall i :: 0 <= i < |rows| ==> rows[i].hash != hash
    ensures Live(rows, hash) == []
  {
    if rows != [] {
      NoLive(rows[..|rows| - 1], hash);
    }
  }

  lemma MarkPartOk(p: FilterPart, extent: Span, hashes: set<string>, numberOf: map<string, nat>)
    requires PartOk(p, numberOf)
    ensures PartOk(MarkPart(p, extent, hashes), numberOf)
  {
    SoftDeleteRows(p.rows, extent, hashes);
  }

  lemma MarkPartLive(p: FilterPart, extent: Span, hashes: set<string>, numberOf: map<string, nat>, hash: string)
    requires PartOk(p, numberOf)
    requires hash in hashes && hash in numberOf ==> extent.min <= numberOf[hash] <= extent.max
    ensures Live(MarkPart(p, extent, hashes).rows, hash) == if hash in hashes then [] else Live(p.rows, hash)
  {
    if Meets(p, extent) {
      SoftDeleteLive(p.rows, extent, hashes, numberOf, hash);
    } else if hash in hashes {
      NoLive(p.rows, hash);
    }
  }

  lemma {:induction false} MarkAllAt(parts: seq<FilterPart>, extent: Span, hashes: set<string>)
    ensures forall i :: 0 <= i < |parts| ==> MarkAll(parts, extent, hashes)[i] == MarkPart(parts[i], extent, hashes)
  {
    if parts != [] {
      MarkAllAt(parts[..|parts| - 1], extent, hashes);
    }
  }

  lemma MarkAllKeeps(parts: seq<FilterPart>, extent: Span, hashes: set<string>, numberOf: map<string, nat>)
    requires Inv(parts, numberOf)
    ensures Inv(MarkAll(parts, extent, hashes), numberOf)
  {
    MarkAllAt(parts, extent, hashes);
    forall i | 0 <= i < |parts| ensures PartOk(MarkPart(parts[i], extent, hashes), numberOf) {
      MarkPartOk(parts[i], extent, hashes, numberOf);
    }
  }

  lemma {:induction false} MarkAllLive(parts: seq<FilterPart>, extent: Span, hashes: set<string>, numberOf: map<string, nat>, hash: string)
    requires Inv(parts, numberOf)
    requires hash in hashes && hash in numberOf ==> extent.min <= numberOf[hash] <= extent.max
    ensures AllLive(MarkAll(parts, extent, hashes), hash) == if hash in hashes then [] else AllLive(parts, hash)
  {
    if parts != [] {
      var init, last := parts[..|parts| - 1], parts[|parts| - 1];
      MarkAllLive(init, extent, hashes, numberOf, hash);
      MarkPartLive(last, extent, hashes, numberOf, hash);
      assert MarkAll(parts, extent, hashes)[..|init|] == MarkAll(init, extent, hashes);
    }
  }

  lemma {:induction false} LiveConcat(a: seq<FilterLog>, b: seq<FilterLog>, hash: string)
    ensures Live(a + b, hash) == Live(a, hash) + Live(b, hash)
  {
    if b == [] {
      assert a + b == a;
    } else {
      assert (a + b)[..|a + b| - 1] == a + b[..|b| - 1];
      LiveConcat(a, b[..|b| - 1], hash);
    }
  }

  lemma {:induction false} NamedInExtent(logs: seq<FilterLog>, numberOf: map<string, nat>, hash: string)
    requires logs != [] && Numbered(logs, numberOf) && hash in Hashes(logs)
    ensures hash in numberOf && Extent(logs).min <= numberOf[hash] <= Extent(logs).max
  {
    if |logs| > 1 && hash in Hashes(logs[..|logs| - 1]) {
      NamedInExtent(logs[..|logs| - 1], numberOf, hash);
    }
  }

  lemma {:induction false} InExtent(logs: seq<FilterLog>)
    requires logs != []
    ensures Extent(logs).min <= Extent(logs).max
    ensures forall i :: 0 <= i < |logs| ==> Extent(logs).min <= logs[i].bn <= Extent(logs).max
    ensures exists i :: 0 <= i < |logs| && logs[i].bn == Extent(logs).min
    ensures exists i :: 0 <= i < |logs| && logs[i].bn == Extent(logs).max
  {
    var init := logs[..|logs| - 1];
    assert 0 <= |logs| - 1 < |logs|;
    if init != [] {
      InExtent(init);
      assert forall i :: 0 <= i < |init| ==> init[i] == logs[i];
    }
  }

  lemma {:induction false} NotNamed(logs: seq<FilterLog>, hash: string)
    requires hash !in Hashes(logs)
    ensures Live(logs, hash) == []
  {
    if logs != [] {
      NotNamed(logs[..|logs| - 1], hash);
    }
  }

  lemma InsertKeeps(p: FilterPart, logs: seq<FilterLog>, numberOf: map<string, nat>)
    requires PartOk(p, numberOf) && GoodBatch(logs, numberOf) && logs != []
    ensures PartOk(Insert(p, logs, Extent(logs)), numberOf)
  {
    InExtent(logs);
  }

  lemma AppendKeeps(parts: seq<FilterPart>, logs: seq<FilterLog>, numberOf: map<string, nat>)
    requires Inv(parts, numberOf) && parts != [] && GoodBatch(logs, numberOf) && logs != []
    ensures Inv(Appended(parts, logs), numberOf)
  {
    MarkAllKeeps(parts, Extent(logs), Hashes(logs), numberOf);
    InsertKeeps(MarkAll(parts, Extent(logs), Hashes(logs))[|parts| - 1], logs, numberOf);
  }

  /** One batch: the live rows of a block it names are the batch's own, those of others stay. */
  lemma AppendLive(parts: seq<FilterPart>, logs: seq<FilterLog>, numberOf: map<string, nat>, hash: string)
    requires Inv(parts, numberOf) && parts != [] && GoodBatch(logs, numberOf) && logs != []
    ensures AllLive(Appended(parts, logs), hash) == if hash in Hashes(logs) then Live(logs, hash) else AllLive(parts, hash)
  {
    var n := |parts| - 1;
    var marked := MarkAll(parts, Extent(logs), Hashes(logs));
    if hash in Hashes(logs) {
      NamedInExtent(logs, numberOf, hash);
    } else {
      NotNamed(logs, hash);
    }
    MarkAllLive(parts, Extent(logs), Hashes(logs), numberOf, hash);
    LiveConcat(marked[n].rows, logs, hash);
    assert Appended(parts, logs)[..n] == marked[..n];
  }

  // ---------- runs ----------

  /** A batch appended, or an empty partition prepared. */
  datatype Event = Batch(logs: seq<FilterLog>) | Grow

  function Fresh(parts: seq<FilterPart>): FilterPart {
    FilterPart(if parts == [] then 0 else parts[|parts| - 1].index + 1, 0, None, [])
  }

  function Run(events: seq<Event>): seq<FilterPart> {
    if events == [] then []
    else
      var before := Run(events[..|events| - 1]);
      match events[|events| - 1]
      case Grow => before + [Fresh(before)]
      case Batch(logs) => if logs == [] || before == [] then before else Appended(before, logs)
  }

  /** The batches of a run that found a partition to go to. */
  function Batches(events: seq<Event>): seq<seq<FilterLog>> {
    if events == [] then []
    else
      var before := Batches(events[..|events| - 1]);
      match events[|events| - 1]
      case Grow => before
      case Batch(logs) => if logs == [] || Run(events[..|events| - 1]) == [] then before else before + [logs]
  }

  ghost predicate AllGood(events: seq<Event>, numberOf: map<string, nat>) {
    forall i :: 0 <= i < |events| && events[i].Batch? ==> GoodBatch(events[i].logs, numberOf)
  }

  /** After every run the live rows of a block, over all partitions, are exactly those of the last
      batch that named it. */
  lemma {:induction false} LiveIsLastNamed(events: seq<Event>, numberOf: map<string, nat>, hash: string)
    requires AllGood(events, numberOf)
    ensures Inv(Run(events), numberOf)
    ensures AllLive(Run(events), hash) == LastNamed(Batches(events), hash)
  {
    if events != [] {
      var init, e := events[..|events| - 1], events[|events| - 1];
      LiveIsLastNamed(init, numberOf, hash);
      var before := Run(init);
      match e
      case Grow =>
        GrowKeeps(before, numberOf, hash);
      case Batch(logs) =>
        if logs != [] && before != [] {
          AppendKeeps(before, logs, numberOf);
          AppendLive(before, logs, numberOf, hash);
          LastNamedAdd(Batches(init), logs, hash);
        }
    }
  }

  lemma GrowKeeps(parts: seq<FilterPart>, numberOf: map<string, nat>, hash: string)
    requires Inv(parts, numberOf)
    ensures Inv(parts + [Fresh(parts)], numberOf) && AllLive(parts + [Fresh(parts)], hash) == AllLive(parts, hash)
  {
    assert (parts + [Fresh(parts)])[..|parts|] == parts;
  }

  lemma LastNamedAdd(batches: seq<seq<FilterLog>>, logs: seq<FilterLog>, hash: string)
    ensures LastNamed(batches + [logs], hash) == if hash in Hashes(logs) then Live(logs, hash) else LastNamed(batches, hash)
  {
    assert (batches + [logs])[..|batches|] == batches;
  }

  /** The latest partition has the highest index. */
  lemma {:induction false} LatestIndex(events: seq<Event>)
    ensures Run(events) != [] ==> Run(events)[|Run(events)| - 1].index == |Run(events)| - 1
  {
    if events != [] {
      var before := Run(events[..|events| - 1]);
      LatestIndex(events[..|events| - 1]);
      match events[|events| - 1]
      case Grow =>
      case Batch(logs) =>
        if logs != [] && before != [] {
          MarkAllAt(before, Extent(logs), Hashes(logs));
        }
    }
  }

  lemma GrowRun(events: seq<Event>, numberOf: map<string, nat>)
    requires AllGood(events, numberOf)
    ensures AllGood(events + [Grow], numberOf) && Run(events + [Grow]) == Run(events) + [Fresh(Run(events))]
  {
    assert (events + [Grow])[..|events|] == events;
  }

  /** The run that ends with one more batch. */
  lemma AppendRun(events: seq<Event>, logs: seq<FilterLog>, numberOf: map<string, nat>)
    requires AllGood(events, numberOf) && GoodBatch(logs, numberOf) && logs != [] && Run(events) != []
    ensures AllGood(events + [Batch(logs)], numberOf)
    ensures Run(events + [Batch(logs)]) == Appended(Run(events), logs)
    ensures forall h :: AllLive(Appended(Run(events), logs), h) == if h in Hashes(logs) then Live(logs, h) else AllLive(Run(events), h)
  {
    assert (events + [Batch(logs)])[..|events|] == events;
    forall h ensures AllLive(Appended(Run(events), logs), h) == if h in Hashes(logs) then Live(logs, h) else AllLive(Run(events), h) {
      LiveIsLastNamed(events, numberOf, h);
      AppendLive(Run(events), logs, numberOf, h);
    }
  }

  // ---------- the store ----------

  class VirtualFilterLogStore {
    var parts: seq<FilterPart>
    ghost var events: seq<Event>

    ghost predicate Valid(numberOf: map<string, nat>)
      reads this
    {
      parts == Run(events) && AllGood(events, numberOf)
    }

    constructor (ghost numberOf: map<string, nat>)
      ensures parts == [] && events == [] && Valid(numberOf)
    {
      parts, events := [], [];
    }

    /** The partition to write on: the latest one, or a new one if there is none or it is full. */
    method PreparePartition(volume: nat, ghost numberOf: map<string, nat>) returns (index: nat, created: bool)
      requires Valid(numberOf)
      modifies this
      ensures Valid(numberOf) && |parts| > 0 && index == |parts| - 1
      ensures created <==> old(parts) == [] || old(parts[|parts| - 1].count) >= volume
      ensures events == if created then old(events) + [Grow] else old(events)
    {
      created := parts == [] || parts[|parts| - 1].count >= volume;
      if created {
        GrowRun(events, numberOf);
        parts := parts + [FilterPart(if parts == [] then 0 else parts[|parts| - 1].index + 1, 0, None, [])];
        events := events + [Grow];
      }
      LatestIndex(events);
      index := parts[|parts| - 1].index;
    }

    /** Rolled back unless `index` is still the latest partition. */
    method Append(logs: seq<FilterLog>, index: nat, ghost numberOf: map<string, nat>) returns (ok: bool)
      requires Valid(numberOf) && GoodBatch(logs, numberOf) && index < |parts|
      modifies this
      ensures Valid(numberOf)
      ensures ok <==> logs == [] || index == |old(parts)| - 1
      ensures events == if ok && logs != [] then old(events) + [Batch(logs)] else old(events)
      ensures !ok ==> parts == old(parts)
      ensures forall h :: AllLive(parts, h) == if ok && h in Hashes(logs) then Live(logs, h) else old(AllLive(parts, h))
    {
      if logs == [] {
        return true;
      }
      var extent, hashes := Scan(logs);
      var work := MarkOverlapping(extent, hashes);
      work := work[index := Insert(work[index], logs, extent)];
      LatestIndex(events);
      if index != parts[|parts| - 1].index {
        return false;
      }
      ok := true;
      assert work == Appended(parts, logs);
      AppendRun(events, logs, numberOf);
      parts := work;
      events := events + [Batch(logs)];
    }

    /** Marks rows in every partition that the batch's blocks meet, the latest first. */
    method MarkOverlapping(extent: Span, hashes: set<string>) returns (work: seq<FilterPart>)
      ensures work == MarkAll(parts, extent, hashes)
    {
      work := parts;
      var i := |parts|;
      while i > 0
        invariant 0 <= i <= |parts| == |work|
        invariant forall j :: 0 <= j < |parts| ==> work[j] == if j < i then parts[j] else MarkPart(parts[j], extent, hashes)
      {
        i := i - 1;
        if Meets(parts[i], extent) {
          work := work[i := parts[i].(rows := SoftDelete(parts[i].rows, extent, hashes))];
        }
      }
      MarkAllAt(parts, extent, hashes);
    }
  }

  /** One pass over the batch: its lowest and highest block and its block hashes. */
  method Scan(logs: seq<FilterLog>) returns (extent: Span, hashes: set<string>)
    requires logs != []
    ensures extent == Extent(logs) && hashes == Hashes(logs)
  {
    extent, hashes := Span(logs[0].bn, logs[0].bn), {logs[0].hash};
    assert logs[..1][0] == logs[0];
    var i := 1;
    while i < |logs|
      invariant 1 <= i <= |logs|
      invariant extent == Extent(logs[..i])
      invariant hashes == Hashes(logs[..i])
    {
      var bn := logs[i].bn;
      assert logs[..i + 1][..i] == logs[..i];
      extent := Span(if bn < extent.min then bn else extent.min, if bn > extent.max then bn else extent.max);
      hashes := hashes + {logs[i].hash};
      i := i + 1;
    }
    assert logs[..i] == logs;
  }
}
