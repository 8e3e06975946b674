/** Writing a stream of fetched epochs in batches, as the boost syncer and the standard catch-up
    syncer do.
 */
module Persister {
  import opened Basics
  import opened TaskSets
  import opened Scheduler

  /** What wakes the persister: an epoch on the channel, or the timer that forces a write. */
  datatype Event = Arrival | Timer

  datatype Outcome = Done | Cancelled | WrongEpoch | PushFailed

  datatype Limits = Limits(maxRows: nat, minBatchRows: nat)

  /** Consecutive epochs from `start` on. */
  ghost predicate InOrder(chan: seq<EpochData>, start: nat) {
    forall i :: 0 <= i < |chan| ==> chan[i].number == start + i
  }

  /** The epochs collected since the last write, with their row counts. */
  datatype PersistState = PersistState(epochs: seq<EpochData>, totalRows: nat, insertRows: nat) {
    function Update(d: EpochData): PersistState {
      PersistState(epochs + [d], totalRows + d.totalRows, insertRows + d.insertRows)
    }

    predicate Due(limits: Limits) {
      totalRows >= limits.maxRows || insertRows >= limits.minBatchRows
    }
  }

  const RESET := PersistState([], 0, 0)

  /** Number of epochs from `start` to `end`. */
  function Wanted(start: nat, end: nat): nat {
    if start <= end then end - start + 1 else 0
  }

  /** How often the channel is read during the first `n` events. */
  function Arrivals(events: seq<Event>, n: nat): nat
    requires n <= |events|
  {
    if n == 0 then 0 else Arrivals(events, n - 1) + if events[n - 1] == Arrival then 1 else 0
  }

  // ---------- batches ----------

  function TotalRows(b: seq<EpochData>): nat {
    if b == [] then 0 else TotalRows(b[..|b| - 1]) + b[|b| - 1].totalRows
  }

  function InsertRows(b: seq<EpochData>): nat {
    if b == [] then 0 else InsertRows(b[..|b| - 1]) + b[|b| - 1].insertRows
  }

  /** Enough rows to write. */
  ghost predicate Full(b: seq<EpochData>, limits: Limits) {
    TotalRows(b) >= limits.maxRows || InsertRows(b) >= limits.minBatchRows
  }

  /** The epochs held never had enough rows to write. */
  ghost predicate Waiting(held: seq<EpochData>, limits: Limits) {
    held == [] || (!Full(held, limits) && Waiting(held[..|held| - 1], limits))
  }

  /** A batch is not empty, and no write was due before its last epoch came. */
  ghost predicate Batch(b: seq<EpochData>, limits: Limits) {
    b != [] && Waiting(b[..|b| - 1], limits)
  }

  ghost predicate Batches(bs: seq<seq<EpochData>>, limits: Limits) {
    forall i :: 0 <= i < |bs| ==> Batch(bs[i], limits)
  }

  ghost predicate AllFull(bs: seq<seq<EpochData>>, limits: Limits) {
    forall i :: 0 <= i < |bs| ==> Full(bs[i], limits)
  }

  /** The row counts are those of the epochs held, and no write is due. */
  ghost predicate Collecting(st: PersistState, limits: Limits) {
    st.totalRows == TotalRows(st.epochs) && st.insertRows == InsertRows(st.epochs) && Waiting(st.epochs, limits)
  }

  lemma UpdateCounts(st: PersistState, d: EpochData, limits: Limits)
    requires Collecting(st, limits)
    ensures Batch(st.Update(d).epochs, limits)
    ensures st.Update(d).Due(limits) <==> Full(st.Update(d).epochs, limits)
    ensures !st.Update(d).Due(limits) ==> Collecting(st.Update(d), limits)
  {
    assert (st.epochs + [d])[..|st.epochs|] == st.epochs;
  }

  /** The first `n` epochs of the channel are in the batches written and those still held. */
  ghost predicate Accounted(bs: seq<seq<EpochData>>, held: seq<EpochData>, chan: seq<EpochData>, n: nat) {
    n <= |chan| && Concat(bs) + held == chan[..n]
  }

  lemma Arrives(bs: seq<seq<EpochData>>, held: seq<EpochData>, chan: seq<EpochData>, n: nat)
    requires Accounted(bs, held, chan, n) && n < |chan|
    ensures Accounted(bs, held + [chan[n]], chan, n + 1)
  {
    assert chan[..n + 1] == chan[..n] + [chan[n]];
    assert Concat(bs) + (held + [chan[n]]) == Concat(bs) + held + [chan[n]];
  }

  lemma Writes(bs: seq<seq<EpochData>>, held: seq<EpochData>, chan: seq<EpochData>, n: nat)
    requires Accounted(bs, held, chan, n)
    ensures Accounted(bs + [held], [], chan, n)
  {
    ConcatAdd(bs, held);
  }

  lemma WrittenIsPrefix(bs: seq<seq<EpochData>>, held: seq<EpochData>, chan: seq<EpochData>, n: nat)
    requires Accounted(bs, held, chan, n)
    ensures Concat(bs) <= chan[..n] <= chan && (held == [] ==> Concat(bs) == chan[..n])
  {
    assert Concat(bs) == (Concat(bs) + held)[..|Concat(bs)|];
  }

  /** After `n` epochs: `st` is held and `bs` is written. */
  ghost predicate Progress(bs: seq<seq<EpochData>>, st: PersistState, chan: seq<EpochData>, n: nat, limits: Limits) {
    Accounted(bs, st.epochs, chan, n) && Batches(bs, limits) && Collecting(st, limits)
  }

  lemma ProgressUpdate(bs: seq<seq<EpochData>>, st: PersistState, chan: seq<EpochData>, n: nat, limits: Limits)
    requires Progress(bs, st, chan, n, limits) && n < |chan|
    ensures var u := st.Update(chan[n]);
            if u.Due(limits) then
              Progress(bs + [u.epochs], RESET, chan, n + 1, limits) && Full(u.epochs, limits)
            else
              Progress(bs, u, chan, n + 1, limits)
  {
    var u := st.Update(chan[n]);
    UpdateCounts(st, chan[n], limits);
    Arrives(bs, st.epochs, chan, n);
    Writes(bs, u.epochs, chan, n + 1);
  }

  lemma ProgressWrite(bs: seq<seq<EpochData>>, st: PersistState, chan: seq<EpochData>, n: nat, limits: Limits)
    requires Progress(bs, st, chan, n, limits)
    ensures st.epochs != [] ==> Progress(bs + [st.epochs], RESET, chan, n, limits)
    ensures st.epochs == [] ==> Progress(bs, RESET, chan, n, limits)
  {
    if st.epochs != [] {
      Writes(bs, st.epochs, chan, n);
    }
  }

  lemma ProgressPrefix(bs: seq<seq<EpochData>>, st: PersistState, chan: seq<EpochData>, n: nat, limits: Limits)
    requires Progress(bs, st, chan, n, limits)
    ensures Batches(bs, limits) && n <= |chan|
    ensures Concat(bs) <= chan[..n] && Concat(bs) <= chan
    ensures st == RESET ==> Concat(bs) == chan[..n]
  {
    WrittenIsPrefix(bs, st.epochs, chan, n);
  }

  /** persist: writes what is held, if anything; `fails` says whether the database refuses. */
  method Persist(bs: seq<seq<EpochData>>, st: PersistState, fails: bool, ghost chan: seq<EpochData>, ghost n: nat,
                 ghost limits: Limits)
    returns (ok: bool, written: seq<seq<EpochData>>)
    requires Progress(bs, st, chan, n, limits)
    ensures ok == (st.epochs == [] || !fails)
    ensures written == if ok && st.epochs != [] then bs + [st.epochs] else bs
    ensures Progress(written, if ok then RESET else st, chan, n, limits)
  {
    ProgressWrite(bs, st, chan, n, limits);
    if st.epochs == [] {
      return true, bs;
    }
    if fails {
      return false, bs;
    }
    return true, bs + [st.epochs];
  }

  lemma HeldIsWaiting(bs: seq<seq<EpochData>>, st: PersistState, chan: seq<EpochData>, n: nat, limits: Limits)
    requires Progress(bs, st, chan, n, limits)
    ensures |Concat(bs)| <= n <= |chan| && Waiting(chan[|Concat(bs)|..n], limits)
  {
    assert chan[|Concat(bs)|..n] == st.epochs by {
      assert chan[..n][|Concat(bs)|..] == st.epochs;
    }
  }

  /** Collects one more epoch and writes if that is due. */
  method Collect(bs: seq<seq<EpochData>>, st: PersistState, d: EpochData, fails: bool, limits: Limits,
                 ghost chan: seq<EpochData>, ghost n: nat)
    returns (ok: bool, written: seq<seq<EpochData>>, next: PersistState)
    requires Progress(bs, st, chan, n, limits) && n < |chan| && d == chan[n]
    ensures ok ==> Progress(written, next, chan, n + 1, limits)
    ensures !ok ==> fails && written == bs
    ensures AllFull(bs, limits) ==> AllFull(written, limits)
    ensures |Concat(written)| >= |Concat(bs)|
  {
    ProgressUpdate(bs, st, chan, n, limits);
    ConcatAdd(bs, st.Update(d).epochs);
    written, next := bs, st.Update(d);
    if !next.Due(limits) {
      return true, written, next;
    }
    if fails {
      return false, written, next;
    }
    return true, written + [next.epochs], RESET;
  }

  // ---------- boost ----------

  /** So far every epoch read had the number expected. */
  ghost predicate Reading(bs: seq<seq<EpochData>>, st: PersistState, chan: seq<EpochData>, n: nat, start: nat,
                          limits: Limits) {
    Progress(bs, st, chan, n, limits) && forall i :: 0 <= i < n ==> chan[i].number == start + i
  }

  lemma ReadingPrefix(bs: seq<seq<EpochData>>, st: PersistState, chan: seq<EpochData>, n: nat, start: nat,
                      limits: Limits)
    requires Reading(bs, st, chan, n, start, limits)
    ensures Concat(bs) <= chan && InOrder(Concat(bs), start) && Batches(bs, limits)
    ensures st == RESET ==> n <= |chan| && Concat(bs) == chan[..n]
  {
    ProgressPrefix(bs, st, chan, n, limits);
  }

  /** One event: an epoch from the channel, or a forced write. */
  method HandleEvent(e: Event, bs: seq<seq<EpochData>>, st: PersistState, chan: seq<EpochData>, n: nat, start: nat,
                     fails: bool, limits: Limits)
    returns (stop: Option<Outcome>, written: seq<seq<EpochData>>, next: PersistState)
    requires Reading(bs, st, chan, n, start, limits)
    ensures stop == None ==> Reading(written, next, chan, if e == Arrival then n + 1 else n, start, limits)
    ensures stop.Some? ==> written == bs
    ensures |Concat(written)| >= |Concat(bs)| && (stop == None && e == Timer ==> |Concat(written)| == n)
    ensures match stop
            case None => true
            case Some(r) =>
              || (r == Cancelled && e == Arrival && n >= |chan|)
              || (r == WrongEpoch && n < |chan| && chan[n].number != start + n)
              || (r == PushFailed && fails)
  {
    var ok;
    if e == Arrival {
      if n >= |chan| {
        return Some(Cancelled), bs, st;
      }
      if chan[n].number != start + n {
        return Some(WrongEpoch), bs, st;
      }
      ok, written, next := Collect(bs, st, chan[n], fails, limits, chan, n);
    } else {
      ok, written := Persist(bs, st, fails, chan, n, limits);
      next := RESET;
      ConcatAdd(bs, st.epochs);
      ProgressPrefix(written, if ok then RESET else st, chan, n, limits);
    }
    stop := if ok then None else Some(PushFailed);
  }

  /** Why reading stopped after `n` epochs. */
  ghost predicate Stopped(r: Outcome, n: nat, start: nat, chan: seq<EpochData>, events: seq<Event>,
                          pushFails: nat -> bool) {
    match r
    case Done => false
    case Cancelled => |chan| <= n || Arrivals(events, |events|) <= n
    case WrongEpoch => n < |chan| && chan[n].number != start + n
    case PushFailed => exists i :: pushFails(i)
  }

  /** At each expiry of the timer among the first `i` events, everything read until then was written. */
  ghost predicate Forced(bs: seq<seq<EpochData>>, events: seq<Event>, i: nat) {
    i <= |events| && forall j :: 0 <= j < i && events[j] == Timer ==> |Concat(bs)| >= Arrivals(events, j)
  }

  /** The loop: reads `wanted` epochs, or stops before. */
  method ReadEvents(wanted: nat, start: nat, chan: seq<EpochData>, events: seq<Event>, pushFails: nat -> bool,
                    limits: Limits)
    returns (stop: Option<Outcome>, n: nat, batches: seq<seq<EpochData>>, state: PersistState, i: nat)
    ensures Reading(batches, state, chan, n, start, limits)
    ensures if stop == None then n == wanted else n < wanted && Stopped(stop.value, n, start, chan, events, pushFails)
    ensures Forced(batches, events, i) && Arrivals(events, i) == n
    ensures stop == Some(Cancelled) ==> i == |events| || n == |chan|
  {
    stop, n, batches, state, i := None, 0, [], RESET, 0;
    while n < wanted && stop == None
      invariant n <= wanted && Reading(batches, state, chan, n, start, limits)
      invariant i <= |events| && Arrivals(events, i) == n && Forced(batches, events, i)
      invariant stop == Some(Cancelled) ==> i == |events| || n == |chan|
      invariant stop.Some? ==> n < wanted && Stopped(stop.value, n, start, chan, events, pushFails)
      decreases stop == None, |events| - i
    {
      if i >= |events| {
        stop := Some(Cancelled);
      } else {
        var next;
        stop, batches, next := HandleEvent(events[i], batches, state, chan, n, start, pushFails(i), limits);
        if stop == None {
          n := if events[i] == Arrival then n + 1 else n;
          i, state := i + 1, next;
        }
      }
    }
  }

  /** fetchAndPersistResults on a channel that delivers `chan`, under any sequence of events and
      any pattern of failing writes. The batches hold consecutive epochs and concatenate to what
      was read, on completion to the full range; no batch was due before its last epoch, and
      after `seen` events every expiry of the timer has forced a write. What is read but not
      written on cancellation is not due. It completes unless the channel or the events end
      early, an epoch of the range is out of order, or a write fails. */
  method FetchAndPersist(start: nat, end: nat, chan: seq<EpochData>, events: seq<Event>,
                         pushFails: nat -> bool, limits: Limits)
    returns (r: Outcome, batches: seq<seq<EpochData>>, ghost seen: nat)
    ensures Concat(batches) <= chan && InOrder(Concat(batches), start)
    ensures Batches(batches, limits) && Forced(batches, events, seen)
    ensures r == Done ==> Arrivals(events, seen) == Wanted(start, end)
    ensures r == Cancelled ==>
              var n := Arrivals(events, seen);
              && (seen == |events| || n == |chan|)
              && |Concat(batches)| <= n <= |chan| && Waiting(chan[|Concat(batches)|..n], limits)
    ensures r == Done ==> Wanted(start, end) <= |chan| && Concat(batches) == chan[..Wanted(start, end)]
    ensures r == Cancelled ==> |chan| < Wanted(start, end) || Arrivals(events, |events|) < Wanted(start, end)
    ensures r == WrongEpoch ==>
              exists k :: 0 <= k < |chan| && k < Wanted(start, end) && chan[k].number != start + k
    ensures r == PushFailed ==> exists i :: pushFails(i)
  {
    var stop, n, state, i;
    stop, n, batches, state, i := ReadEvents(Wanted(start, end), start, chan, events, pushFails, limits);
    seen := i;
    HeldIsWaiting(batches, state, chan, n, limits);
    if stop == None {
      var ok;
      ConcatAdd(batches, state.epochs);
      ok, batches := Persist(batches, state, pushFails(i), chan, n, limits);
      stop := Some(if ok then Done else PushFailed);
      state := if ok then RESET else state;
    }
    ReadingPrefix(batches, state, chan, n, start, limits);
    r := stop.value;
  }

  /** The persister behind any run of the scheduler: it never meets an unexpected epoch, what it
      has written is a prefix of the range in order, each epoch as a worker delivered it, and
      once the scheduler has emitted the whole range and no write fails it completes, with
      batches that concatenate to exactly the range. */
  method PersistRun(range: Task, workers: nat, xs: seq<Action>, events: seq<Event>,
                    pushFails: nat -> bool, limits: Limits)
    returns (r: Outcome, batches: seq<seq<EpochData>>)
    requires range.Proper() && workers >= 1
    requires AllEnabled(range, workers, Initial(range), Account(0, 0, false), xs)
    ensures r != WrongEpoch
    ensures InOrder(Concat(batches), range.from) && |Concat(batches)| <= range.Size()
    ensures Batches(batches, limits)
    ensures AllDelivered(xs, Concat(batches))
    ensures r == Done ==> |Concat(batches)| == range.Size()
    ensures var (s, _) := Run(range, workers, Initial(range), Account(0, 0, false), xs);
            && Concat(batches) <= s.emitted
            && (|s.emitted| == range.Size() && Arrivals(events, |events|) >= range.Size() && (forall i :: !pushFails(i)) ==>
                  r == Done && Concat(batches) == s.emitted)
  {
    var (s, _) := Run(range, workers, Initial(range), Account(0, 0, false), xs);
    EveryRun(range, workers, xs);
    ghost var seen;
    r, batches, seen := FetchAndPersist(range.from, range.to, s.emitted, events, pushFails, limits);
    assert s.emitted[..|s.emitted|] == s.emitted;
  }

  // ---------- standard catch-up ----------

  /** fetchResult on the epochs received from the workers in turn, until the context is cancelled:
      every batch but the last was written because it was full, none was due before its last
      epoch, and the batches concatenate to what was received, on completion to the first
      `Wanted` epochs. It completes unless it is cancelled early or a write fails. */
  method FetchResult(start: nat, end: nat, received: seq<EpochData>, pushFails: nat -> bool, limits: Limits)
    returns (r: Outcome, batches: seq<seq<EpochData>>)
    ensures r != WrongEpoch && Concat(batches) <= received
    ensures Batches(batches, limits)
    ensures forall i :: 0 <= i < |batches| - 1 ==> Full(batches[i], limits)
    ensures r == Done ==> Wanted(start, end) <= |received| && Concat(batches) == received[..Wanted(start, end)]
    ensures r == Cancelled ==> |received| < Wanted(start, end)
    ensures r == PushFailed ==> exists i :: pushFails(i)
  {
    var eno, state := start, RESET;
    batches := [];
    while eno <= end
      invariant start <= eno && eno - start <= Wanted(start, end)
      invariant Progress(batches, state, received, eno - start, limits)
      invariant AllFull(batches, limits)
    {
      ProgressPrefix(batches, state, received, eno - start, limits);
      if eno - start >= |received| {
        return Cancelled, batches;
      }
      var ok;
      ok, batches, state := Collect(batches, state, received[eno - start], pushFails(eno), limits, received, eno - start);
      if !ok {
        return PushFailed, batches;
      }
      eno := eno + 1;
    }
    var ok;
    ok, batches := Persist(batches, state, pushFails(eno), received, eno - start, limits);
    ProgressPrefix(batches, if ok then RESET else state, received, eno - start, limits);
    r := if ok then Done else PushFailed;
  }
}
