/** The boost catch-up coordinator: a scheduler that hands ranges of epochs to workers, splits
    the ranges that fail, and emits the fetched epochs in order. Every method is one step of a
    goroutine; any interleaving of them is a run.
 */
module Scheduler {
  import opened TaskSets

  datatype EpochData = EpochData(number: nat, totalRows: nat, insertRows: nat)

  /** Outcome of a task: the epoch data, or an error. */
  datatype Result = Result(task: Task, ok: bool, data: seq<EpochData>)

  function Tasks(rs: seq<Result>): (ts: seq<Task>)
    ensures |ts| == |rs| && forall i :: 0 <= i < |rs| ==> ts[i] == rs[i].task
  {
    seq(|rs|, i requires 0 <= i < |rs| => rs[i].task)
  }

  /** Executions still needed for failed tasks, beyond the failed ones themselves. */
  function FailedWork(rs: seq<Result>): int {
    if rs == [] then 0
    else FailedWork(rs[..|rs| - 1]) + if rs[|rs| - 1].ok then 0 else 2 * rs[|rs| - 1].task.Size() - 2
  }

  lemma {:induction false} FailedWorkConcat(a: seq<Result>, b: seq<Result>)
    ensures FailedWork(a + b) == FailedWork(a) + FailedWork(b)
  {
    if b == [] {
      assert a + b == a;
    } else {
      assert (a + b)[..|a + b| - 1] == a + b[..|b| - 1];
      FailedWorkConcat(a, b[..|b| - 1]);
    }
  }

  lemma FailedWorkAdd(rs: seq<Result>, r: Result)
    ensures FailedWork(rs + [r]) == FailedWork(rs) + if r.ok then 0 else 2 * r.task.Size() - 2
  {
    assert (rs + [r])[..|rs|] == rs;
  }

  lemma CutAt<T>(s: seq<T>, i: nat)
    requires i < |s|
    ensures s == s[..i + 1] + s[i + 1..] && s[..i + 1] == s[..i] + [s[i]]
  {
  }

  lemma FailedWorkRemove(rs: seq<Result>, i: nat)
    requires i < |rs|
    ensures FailedWork(rs) == FailedWork(Without(rs, i)) + if rs[i].ok then 0 else 2 * rs[i].task.Size() - 2
  {
    FailedWorkConcat(rs[..i], rs[i + 1..]);
    FailedWorkConcat(rs[..i + 1], rs[i + 1..]);
    FailedWorkAdd(rs[..i], rs[i]);
    CutAt(rs, i);
  }

  /** A successful result holds exactly the epochs of its task, in order. */
  ghost predicate Faithful(r: Result) {
    && r.task.Proper()
    && (r.ok ==> |r.data| == r.task.Size() && forall i :: 0 <= i < |r.data| ==> r.data[i].number == r.task.from + i)
  }

  ghost predicate AllFaithful(rs: seq<Result>) {
    forall i :: 0 <= i < |rs| ==> Faithful(rs[i])
  }

  ghost predicate Splittable(ts: seq<Task>) {
    forall i :: 0 <= i < |ts| ==> ts[i].Size() >= 2
  }

  ghost predicate FailedSplittable(rs: seq<Result>) {
    forall i :: 0 <= i < |rs| && !rs[i].ok ==> rs[i].task.Size() >= 2
  }

  /** What the dispatch loop is doing: waiting, taking results, or about to assign new tasks. */
  datatype Phase = Unseeded | Idle | Taking | Processing

  /** Everything the goroutines of the coordinator share. */
  datatype State = State(
    pending: seq<Task>,             // pendingTaskQueue
    inFlight: seq<Task>,            // taken by a worker
    results: seq<Result>,           // taskResultQueue
    batch: seq<Result>,             // taken by the dispatch loop
    recall: seq<Task>,              // recallTaskPq
    nextAssign: nat,
    nextWrite: nat,
    store: map<nat, EpochData>,     // epochDataStore
    emitted: seq<EpochData>,        // everything sent on epochResultChan
    phase: Phase)

  /** Bookkeeping of the proof: finished executions, tasks cut from the unassigned range, and
      whether a task of a single epoch ever failed. */
  datatype Account = Account(executions: nat, cuts: nat, singleFailed: bool)

  // ---------- invariants ----------

  /** Number of places in which epoch `e` is found. */
  function Places(range: Task, s: State, e: nat): nat {
    Cover(s.pending, e) + Cover(s.inFlight, e) + Cover(Tasks(s.results), e) + Cover(Tasks(s.batch), e)
    + Cover(s.recall, e) + One(e in s.store) + One(range.from <= e < s.nextWrite)
  }

  /** Every epoch assigned so far is in exactly one place, every other epoch in none. */
  ghost predicate Conserved(range: Task, s: State) {
    forall e: nat {:trigger Places(range, s, e)} :: Places(range, s, e) == One(range.from <= e < s.nextAssign)
  }

  ghost predicate Proper(range: Task, s: State) {
    && AllProper(s.pending) && AllProper(s.inFlight) && AllProper(s.recall)
    && AllFaithful(s.results) && AllFaithful(s.batch)
    && range.from <= s.nextAssign <= range.to + 1
  }

  /** Epochs are emitted in order. */
  ghost predicate Emitted(range: Task, s: State) {
    && range.from <= s.nextWrite && |s.emitted| == s.nextWrite - range.from
    && (forall i :: 0 <= i < |s.emitted| ==> s.emitted[i].number == range.from + i)
    && (forall e :: e in s.store ==> s.store[e].number == e)
  }

  /** With nothing queued or running, an idle dispatcher has assigned everything. */
  ghost predicate Live(range: Task, s: State) {
    && (s.batch != [] ==> s.phase == Taking || s.phase == Processing)
    && (s.phase == Idle && s.pending == [] && s.inFlight == [] && s.results == [] ==>
          s.recall == [] && s.nextAssign > range.to)
  }

  /** Unless a single-epoch task failed, executions so far plus those still to come do not exceed
      twice the assigned epochs. */
  ghost predicate Bounded(range: Task, s: State, a: Account) {
    && (s.nextAssign > range.from ==> a.cuts >= 1)
    && (!a.singleFailed ==>
          && a.executions + Work(s.pending, 1) + Work(s.inFlight, 1) + FailedWork(s.results) + FailedWork(s.batch)
             + Work(s.recall, 2) + a.cuts <= 2 * (s.nextAssign - range.from)
          && Splittable(s.recall) && FailedSplittable(s.results) && FailedSplittable(s.batch))
  }

  ghost predicate Inv(range: Task, s: State, a: Account) {
    && Conserved(range, s) && Proper(range, s) && Emitted(range, s) && Live(range, s) && Bounded(range, s, a)
    && s.nextWrite !in s.store
  }

  function Initial(range: Task): State {
    State([], [], [], [], [], range.from, range.from, map[], [], Unseeded)
  }

  // ---------- steps of the workers and of the result queue ----------

  /** A worker takes the oldest pending task. */
  function TakeTask(s: State): State
    requires s.pending != []
  {
    s.(pending := s.pending[1..], inFlight := s.inFlight + [s.pending[0]])
  }

  /** A worker finishes any of the running tasks, successfully or not. */
  function FinishTask(s: State, i: nat, r: Result): State
    requires i < |s.inFlight|
  {
    s.(inFlight := Without(s.inFlight, i), results := s.results + [r])
  }

  function FinishAccount(a: Account, r: Result): Account {
    a.(executions := a.executions + 1, singleFailed := a.singleFailed || (!r.ok && r.task.Size() == 1))
  }

  /** The dispatch loop takes a result off the queue. */
  function TakeResult(s: State): State
    requires s.results != []
  {
    s.(results := s.results[1..], batch := s.batch + [s.results[0]], phase := Taking)
  }

  /** Workers take tasks in the order in which they were queued. */
  lemma {:induction false} TakesInOrder(s: State, k: nat)
    requires k <= |s.pending|
    ensures var u := TakeTasks(s, k); u.inFlight == s.inFlight + s.pending[..k] && u.pending == s.pending[k..]
    decreases k
  {
    if k > 0 {
      TakesInOrder(TakeTask(s), k - 1);
      assert s.pending[..k] == [s.pending[0]] + s.pending[1..][..k - 1];
    }
  }

  function TakeTasks(s: State, k: nat): State
    requires k <= |s.pending|
    decreases k
  {
    if k == 0 then s else TakeTasks(TakeTask(s), k - 1)
  }

  /** The dispatch loop takes results in the order in which they came. */
  lemma {:induction false} ReceivesInOrder(s: State, k: nat)
    requires k <= |s.results|
    ensures var u := TakeResults(s, k); u.batch == s.batch + s.results[..k] && u.results == s.results[k..]
    decreases k
  {
    if k > 0 {
      ReceivesInOrder(TakeResult(s), k - 1);
      assert s.results[..k] == [s.results[0]] + s.results[1..][..k - 1];
    }
  }

  function TakeResults(s: State, k: nat): State
    requires k <= |s.results|
    decreases k
  {
    if k == 0 then s else TakeResults(TakeResult(s), k - 1)
  }

  lemma TakeTaskConserves(range: Task, s: State)
    requires Conserved(range, s) && s.pending != []
    ensures Conserved(range, TakeTask(s))
  {
    var u := TakeTask(s);
    assert Without(s.pending, 0) == s.pending[1..];
    forall e: nat ensures Places(range, u, e) == One(range.from <= e < u.nextAssign) {
      assert Places(range, s, e) == One(range.from <= e < s.nextAssign);
      CoverRemove(s.pending, 0, e);
      CoverAdd(s.inFlight, s.pending[0], e);
    }
  }

  lemma TakeTaskKeeps(range: Task, s: State, a: Account)
    requires Inv(range, s, a) && s.pending != []
    ensures Inv(range, TakeTask(s), a)
  {
    TakeTaskConserves(range, s);
    assert Without(s.pending, 0) == s.pending[1..];
    WorkRemove(s.pending, 0, 1);
    WorkAdd(s.inFlight, s.pending[0], 1);
  }

  lemma FinishTaskKeeps(range: Task, s: State, a: Account, i: nat, r: Result)
    requires Inv(range, s, a) && i < |s.inFlight| && r.task == s.inFlight[i] && Faithful(r)
    ensures Inv(range, FinishTask(s, i, r), FinishAccount(a, r))
  {
    var u := FinishTask(s, i, r);
    WorkRemove(s.inFlight, i, 1);
    FailedWorkAdd(s.results, r);
    assert Tasks(u.results) == Tasks(s.results) + [r.task];
    forall e: nat ensures Places(range, u, e) == One(range.from <= e < u.nextAssign) {
      assert Places(range, s, e) == One(range.from <= e < s.nextAssign);
      CoverRemove(s.inFlight, i, e);
      CoverAdd(Tasks(s.results), r.task, e);
    }
  }

  lemma TakeResultKeeps(range: Task, s: State, a: Account)
    requires Inv(range, s, a) && s.results != [] && (s.phase == Idle || s.phase == Taking)
    ensures Inv(range, TakeResult(s), a)
  {
    TakeResultConserves(range, s);
    TakeResultBounded(range, s, a);
  }

  lemma TakeResultBounded(range: Task, s: State, a: Account)
    requires Bounded(range, s, a) && s.results != []
    ensures Bounded(range, TakeResult(s), a)
  {
    FailedWorkTakes(s.results, s.batch);
  }

  lemma FailedWorkTakes(results: seq<Result>, batch: seq<Result>)
    requires results != []
    ensures FailedWork(results[1..]) + FailedWork(batch + [results[0]]) == FailedWork(results) + FailedWork(batch)
  {
    WithoutFirst(results);
    FailedWorkRemove(results, 0);
    FailedWorkAdd(batch, results[0]);
  }

  lemma WithoutFirst<T>(s: seq<T>)
    requires s != []
    ensures Without(s, 0) == s[1..]
  {
  }

  lemma TakeResultConserves(range: Task, s: State)
    requires Conserved(range, s) && s.results != []
    ensures Conserved(range, TakeResult(s))
  {
    var u, r := TakeResult(s), s.results[0];
    assert Tasks(u.results) == Without(Tasks(s.results), 0) && Tasks(u.batch) == Tasks(s.batch) + [r.task];
    forall e: nat ensures Places(range, u, e) == One(range.from <= e < u.nextAssign) {
      assert Places(range, s, e) == One(range.from <= e < s.nextAssign);
      CoverRemove(Tasks(s.results), 0, e);
      CoverAdd(Tasks(s.batch), r.task, e);
    }
  }

  // ---------- processing a result ----------

  /** A failed task goes to the recall queue. */
  function Recalled(s: State, m: nat): State
    requires m < |s.batch|
  {
    s.(batch := Without(s.batch, m), recall := s.recall + [s.batch[m].task], phase := Processing)
  }

  function Put(store: map<nat, EpochData>, data: seq<EpochData>): map<nat, EpochData> {
    if data == [] then store
    else Put(store, data[..|data| - 1])[data[|data| - 1].number := data[|data| - 1]]
  }

  /** The epochs of a successful task are cached. */
  function Stored(s: State, m: nat): State
    requires m < |s.batch|
  {
    s.(batch := Without(s.batch, m), store := Put(s.store, s.batch[m].data), phase := Processing)
  }

  /** The next epoch in order leaves the cache. */
  function Flushed(s: State): State
    requires s.nextWrite in s.store
  {
    s.(emitted := s.emitted + [s.store[s.nextWrite]], store := s.store - {s.nextWrite}, nextWrite := s.nextWrite + 1)
  }

  lemma {:induction false} PutRange(store: map<nat, EpochData>, data: seq<EpochData>, from: nat)
    requires forall i :: 0 <= i < |data| ==> data[i].number == from + i
    requires forall e :: e in store ==> store[e].number == e
    ensures forall e: nat :: e in Put(store, data) <==> e in store || from <= e < from + |data|
    ensures forall e :: e in Put(store, data) ==> Put(store, data)[e].number == e
  {
    if data != [] {
      PutRange(store, data[..|data| - 1], from);
    }
  }

  lemma BatchWithout(s: State, m: nat, e: nat)
    requires m < |s.batch|
    ensures Cover(Tasks(s.batch), e) == Cover(Tasks(Without(s.batch, m)), e) + One(s.batch[m].task.Has(e))
  {
    assert Tasks(Without(s.batch, m)) == Without(Tasks(s.batch), m);
    CoverRemove(Tasks(s.batch), m, e);
  }

  lemma RecalledKeeps(range: Task, s: State, a: Account, m: nat)
    requires Inv(range, s, a) && m < |s.batch| && !s.batch[m].ok
    ensures Inv(range, Recalled(s, m), a)
  {
    RecalledConserves(range, s, m);
    RecalledBounded(range, s, a, m);
  }

  lemma RecalledConserves(range: Task, s: State, m: nat)
    requires Conserved(range, s) && m < |s.batch|
    ensures Conserved(range, Recalled(s, m))
  {
    var u, x := Recalled(s, m), s.batch[m].task;
    forall e: nat ensures Places(range, u, e) == One(range.from <= e < u.nextAssign) {
      assert Places(range, s, e) == One(range.from <= e < s.nextAssign);
      BatchWithout(s, m, e);
      CoverAdd(s.recall, x, e);
    }
  }

  lemma RecalledBounded(range: Task, s: State, a: Account, m: nat)
    requires Bounded(range, s, a) && m < |s.batch| && !s.batch[m].ok
    ensures Bounded(range, Recalled(s, m), a)
  {
    FailedWorkRemove(s.batch, m);
    WorkAdd(s.recall, s.batch[m].task, 2);
  }

  /** The invariant while the cache is being flushed. */
  ghost predicate Flushing(range: Task, s: State, a: Account) {
    Conserved(range, s) && Proper(range, s) && Emitted(range, s) && Live(range, s) && Bounded(range, s, a)
  }

  lemma StoredKeeps(range: Task, s: State, a: Account, m: nat)
    requires Inv(range, s, a) && m < |s.batch| && s.batch[m].ok
    ensures Flushing(range, Stored(s, m), a)
  {
    StoredConserves(range, s, m);
    FailedWorkRemove(s.batch, m);
  }

  lemma StoredConserves(range: Task, s: State, m: nat)
    requires Conserved(range, s) && Emitted(range, s) && m < |s.batch| && s.batch[m].ok && Faithful(s.batch[m])
    ensures Conserved(range, Stored(s, m)) && Emitted(range, Stored(s, m))
  {
    var u, r := Stored(s, m), s.batch[m];
    PutRange(s.store, r.data, r.task.from);
    forall e: nat ensures Places(range, u, e) == One(range.from <= e < u.nextAssign) {
      assert Places(range, s, e) == One(range.from <= e < s.nextAssign);
      BatchWithout(s, m, e);
    }
  }

  lemma FlushedKeeps(range: Task, s: State, a: Account)
    requires Flushing(range, s, a) && s.nextWrite in s.store
    ensures Flushing(range, Flushed(s), a)
  {
    var u := Flushed(s);
    forall e: nat ensures Places(range, u, e) == One(range.from <= e < u.nextAssign) {
      assert Places(range, s, e) == One(range.from <= e < s.nextAssign);
    }
  }

  // ---------- assigning tasks ----------

  /** A recalled task is halved if it has more than one epoch. */
  function Split(s: State, m: nat): State
    requires m < |s.recall|
  {
    var x := s.recall[m];
    var mid := (x.from + x.to) / 2;
    s.(recall := Without(s.recall, m),
       pending := s.pending + [Task(x.from, mid)] + (if mid + 1 <= x.to then [Task(mid + 1, x.to)] else []))
  }

  /** The next task is cut from the unassigned range. */
  function CutNext(range: Task, s: State, size: nat): State
    requires size >= 1 && s.nextAssign <= range.to
  {
    var end := if s.nextAssign + size - 1 < range.to then s.nextAssign + size - 1 else range.to;
    s.(pending := s.pending + [Task(s.nextAssign, end)], nextAssign := end + 1)
  }

  lemma SplitConserves(range: Task, s: State, m: nat)
    requires Conserved(range, s) && m < |s.recall| && s.recall[m].Proper()
    ensures Conserved(range, Split(s, m))
  {
    var u := Split(s, m);
    forall e: nat ensures Places(range, u, e) == One(range.from <= e < u.nextAssign) {
      assert Places(range, s, e) == One(range.from <= e < s.nextAssign);
      SplitPlaces(range, s, m, e);
    }
  }

  lemma SplitPlaces(range: Task, s: State, m: nat, e: nat)
    requires m < |s.recall| && s.recall[m].Proper()
    ensures Places(range, Split(s, m), e) == Places(range, s, e)
  {
    var x := s.recall[m];
    CoverRemove(s.recall, m, e);
    HalvesCover(s.pending, x, (x.from + x.to) / 2, e);
  }

  lemma HalvesCover(pending: seq<Task>, x: Task, mid: nat, e: nat)
    requires x.Proper() && mid == (x.from + x.to) / 2
    ensures Cover(pending + [Task(x.from, mid)] + (if mid + 1 <= x.to then [Task(mid + 1, x.to)] else []), e)
         == Cover(pending, e) + One(x.Has(e))
  {
    var left := pending + [Task(x.from, mid)];
    CoverAdd(pending, Task(x.from, mid), e);
    if mid + 1 <= x.to {
      CoverAdd(left, Task(mid + 1, x.to), e);
      SplitCover(x, mid, e);
    } else {
      assert left + [] == left;
    }
  }

  lemma SplitKeeps(range: Task, s: State, a: Account, m: nat)
    requires Flushing(range, s, a) && s.phase != Idle && m < |s.recall|
    ensures Flushing(range, Split(s, m), a)
  {
    SplitConserves(range, s, m);
    SplitBounded(range, s, a, m);
  }

  lemma SplitBounded(range: Task, s: State, a: Account, m: nat)
    requires Bounded(range, s, a) && m < |s.recall| && s.recall[m].Proper()
    ensures Bounded(range, Split(s, m), a)
  {
    var x := s.recall[m];
    WorkRemove(s.recall, m, 2);
    HalvesWork(s.pending, x, (x.from + x.to) / 2);
  }

  lemma HalvesWork(pending: seq<Task>, x: Task, mid: nat)
    requires x.Proper() && mid == (x.from + x.to) / 2
    ensures x.Size() >= 2 ==>
              Work(pending + [Task(x.from, mid)] + (if mid + 1 <= x.to then [Task(mid + 1, x.to)] else []), 1)
              == Work(pending, 1) + 2 * x.Size() - 2
  {
    if x.Size() >= 2 {
      WorkAdd(pending, Task(x.from, mid), 1);
      WorkAdd(pending + [Task(x.from, mid)], Task(mid + 1, x.to), 1);
    }
  }

  /** A task of one epoch is queued again as it is, a longer one as two neighbouring parts whose
      sizes differ by at most one. */
  lemma SplitHalves(s: State, m: nat)
    requires m < |s.recall| && s.recall[m].Proper()
    ensures var u, x, n := Split(s, m), s.recall[m], |s.pending|;
            && u.recall == Without(s.recall, m) && s.pending <= u.pending
            && if x.Size() == 1 then u.pending[n..] == [x]
               else
                 && |u.pending| == n + 2 && u.pending[n].Proper() && u.pending[n + 1].Proper()
                 && u.pending[n].from == x.from && u.pending[n].to + 1 == u.pending[n + 1].from && u.pending[n + 1].to == x.to
                 && 0 <= u.pending[n].Size() - u.pending[n + 1].Size() <= 1
  {
  }

  /** A new task starts where assignment stopped and has the wanted size, or what is left. */
  lemma CutNextSize(range: Task, s: State, size: nat)
    requires size >= 1 && s.nextAssign <= range.to
    ensures var u, n := CutNext(range, s, size), |s.pending|;
            && |u.pending| == n + 1 && u.pending[..n] == s.pending && u.nextAssign == u.pending[n].to + 1
            && u.pending[n].Proper() && u.pending[n].from == s.nextAssign && u.nextAssign <= range.to + 1
            && u.pending[n].Size() <= size && (u.pending[n].Size() < size ==> u.nextAssign == range.to + 1)
  {
  }

  lemma CutNextKeeps(range: Task, s: State, a: Account, size: nat)
    requires Flushing(range, s, a) && s.phase != Idle && size >= 1 && s.nextAssign <= range.to
    ensures Flushing(range, CutNext(range, s, size), a.(cuts := a.cuts + 1))
  {
    var u := CutNext(range, s, size);
    var x := Task(s.nextAssign, u.nextAssign - 1);
    WorkAdd(s.pending, x, 1);
    forall e: nat ensures Places(range, u, e) == One(range.from <= e < u.nextAssign) {
      assert Places(range, s, e) == One(range.from <= e < s.nextAssign);
      CoverAdd(s.pending, x, e);
    }
  }

  // ---------- the steps as a whole ----------

  function FlushAll(s: State): (u: State)
    ensures u.nextWrite !in u.store
    decreases |s.store|
  {
    if s.nextWrite in s.store then FlushAll(Flushed(s)) else s
  }

  /** The dispatch loop processes a result of its batch. */
  function Process(s: State, m: nat): State
    requires m < |s.batch|
  {
    if s.batch[m].ok then FlushAll(Stored(s, m)) else Recalled(s, m)
  }

  /** assignTasks: fills the pending queue up to one task per worker, recalled tasks first. */
  function Assign(range: Task, workers: nat, s: State, a: Account, size: nat, n: nat): (State, Account)
    requires size >= 1
    decreases if n < workers then workers - n else 0
  {
    if n >= workers then (s, a)
    else if s.recall != [] then
      var u := Split(s, MinIndex(s.recall));
      Assign(range, workers, u, a, size, n + |u.pending| - |s.pending|)
    else if s.nextAssign > range.to then (s, a)
    else Assign(range, workers, CutNext(range, s, size), a.(cuts := a.cuts + 1), size, n + 1)
  }

  lemma {:induction false} FlushAllKeeps(range: Task, s: State, a: Account)
    requires Flushing(range, s, a)
    ensures Inv(range, FlushAll(s), a) && FlushAll(s).phase == s.phase && FlushAll(s).batch == s.batch
    decreases |s.store|
  {
    if s.nextWrite in s.store {
      FlushedKeeps(range, s, a);
      FlushAllKeeps(range, Flushed(s), a);
    }
  }

  lemma ProcessKeeps(range: Task, s: State, a: Account, m: nat)
    requires Inv(range, s, a) && m < |s.batch|
    ensures Inv(range, Process(s, m), a) && Process(s, m).phase == Processing
  {
    if s.batch[m].ok {
      StoredKeeps(range, s, a, m);
      FlushAllKeeps(range, Stored(s, m), a);
    } else {
      RecalledKeeps(range, s, a, m);
    }
  }

  /** `u` is `s` after assigning, with the queue full or nothing left to assign. */
  ghost predicate Assigned(range: Task, workers: nat, s: State, a: Account, u: State, b: Account) {
    && Flushing(range, u, b)
    && u == s.(pending := u.pending, recall := u.recall, nextAssign := u.nextAssign)
    && (|u.pending| >= workers || (u.recall == [] && u.nextAssign > range.to))
    && b == a.(cuts := b.cuts)
  }

  lemma {:induction false} AssignKeeps(range: Task, workers: nat, s: State, a: Account, size: nat, n: nat, u: State, b: Account)
    requires Flushing(range, s, a) && s.phase != Idle && size >= 1 && n == |s.pending|
    requires (u, b) == Assign(range, workers, s, a, size, n)
    ensures Assigned(range, workers, s, a, u, b)
    decreases if n < workers then workers - n else 0
  {
    if n >= workers {
    } else if s.recall != [] {
      var next := Split(s, MinIndex(s.recall));
      SplitKeeps(range, s, a, MinIndex(s.recall));
      AssignKeeps(range, workers, next, a, size, |next.pending|, u, b);
    } else if s.nextAssign <= range.to {
      CutNextKeeps(range, s, a, size);
      AssignKeeps(range, workers, CutNext(range, s, size), a.(cuts := a.cuts + 1), size, n + 1, u, b);
    }
  }

  /** The tasks that are left were there, and none that is gone starts later than one that is left. */
  ghost predicate EarliestTaken(tasks: seq<Task>, left: seq<Task>) {
    && |left| <= |tasks| && (forall t :: t in left ==> t in tasks)
    && (forall x, t :: x in tasks && x !in left && t in left ==> x.from <= t.from)
  }

  lemma MinTaken(tasks: seq<Task>, left: seq<Task>)
    requires tasks != [] && EarliestTaken(Without(tasks, MinIndex(tasks)), left)
    ensures EarliestTaken(tasks, left)
  {
    WithoutMembers(tasks, MinIndex(tasks));
  }

  /** From `s` to `u` the earliest recalled tasks were taken, new ones were cut only after all of them,
      and queueing stopped as soon as there was a task per worker. */
  ghost predicate QueuedInOrder(workers: nat, s: State, u: State) {
    && (u.recall != [] ==> u.nextAssign == s.nextAssign)
    && EarliestTaken(s.recall, u.recall)
    && s.pending <= u.pending && (|s.pending| < |u.pending| ==> |u.pending| <= workers + 1)
  }

  lemma SplitInOrder(workers: nat, s: State, u: State)
    requires s.recall != [] && |s.pending| < workers && QueuedInOrder(workers, Split(s, MinIndex(s.recall)), u)
    ensures QueuedInOrder(workers, s, u)
  {
    MinTaken(s.recall, u.recall);
  }

  lemma CutInOrder(range: Task, workers: nat, s: State, size: nat, u: State)
    requires s.recall == [] && |s.pending| < workers && size >= 1 && s.nextAssign <= range.to
    requires QueuedInOrder(workers, CutNext(range, s, size), u)
    ensures QueuedInOrder(workers, s, u)
  {
  }

  /** Assignment takes recalled tasks before new ones, and the earliest recalled ones first; it
      stops as soon as there is a task per worker. */
  lemma {:induction false} AssignOrder(range: Task, workers: nat, s: State, a: Account, size: nat, n: nat, u: State, b: Account)
    requires size >= 1 && n == |s.pending| && (u, b) == Assign(range, workers, s, a, size, n)
    ensures QueuedInOrder(workers, s, u)
    decreases if n < workers then workers - n else 0
  {
    if n < workers {
      if s.recall != [] {
        var next := Split(s, MinIndex(s.recall));
        AssignOrder(range, workers, next, a, size, |next.pending|, u, b);
        SplitInOrder(workers, s, u);
      } else if s.nextAssign <= range.to {
        AssignOrder(range, workers, CutNext(range, s, size), a.(cuts := a.cuts + 1), size, n + 1, u, b);
        CutInOrder(range, workers, s, size, u);
      }
    }
  }

  lemma WithoutMembers(ts: seq<Task>, m: nat)
    requires m < |ts|
    ensures forall t :: t in Without(ts, m) ==> t in ts
    ensures forall t :: t in ts && t != ts[m] ==> t in Without(ts, m)
  {
    CutAt(ts, m);
  }

  // ---------- runs ----------

  /** What any of the goroutines may do next. */
  datatype Action =
    | Take                          // a worker takes a task
    | Finish(i: nat, r: Result)     // a worker finishes a task
    | Receive                       // the dispatch loop takes a result
    | Handle(m: nat)                // the dispatch loop processes a result
    | AssignMore(size: nat)         // the seed call, or the end of a dispatch round

  ghost predicate Enabled(s: State, x: Action) {
    match x
    case Take => s.pending != []
    case Finish(i, r) => i < |s.inFlight| && r.task == s.inFlight[i] && Faithful(r)
    case Receive => s.results != [] && (s.phase == Idle || s.phase == Taking)
    case Handle(m) => m < |s.batch|
    case AssignMore(size) => size >= 1 && s.batch == [] && (s.phase == Unseeded || s.phase == Processing)
  }

  function Next(range: Task, workers: nat, s: State, a: Account, x: Action): (State, Account) {
    match x
    case Take => (if s.pending != [] then TakeTask(s) else s, a)
    case Finish(i, r) => if i < |s.inFlight| then (FinishTask(s, i, r), FinishAccount(a, r)) else (s, a)
    case Receive => (if s.results != [] then TakeResult(s) else s, a)
    case Handle(m) => (if m < |s.batch| then Process(s, m) else s, a)
    case AssignMore(size) =>
      if size >= 1 then
        var (u, b) := Assign(range, workers, s, a, size, |s.pending|);
        (u.(phase := Idle), b)
      else (s, a)
  }

  lemma NextKeeps(range: Task, workers: nat, s: State, a: Account, x: Action)
    requires Inv(range, s, a) && workers >= 1 && Enabled(s, x)
    ensures var (u, b) := Next(range, workers, s, a, x); Inv(range, u, b)
  {
    match x
    case Take => TakeTaskKeeps(range, s, a);
    case Finish(i, r) => FinishTaskKeeps(range, s, a, i, r);
    case Receive => TakeResultKeeps(range, s, a);
    case Handle(m) => ProcessKeeps(range, s, a, m);
    case AssignMore(size) => AssignMoreKeeps(range, workers, s, a, size);
  }

  lemma AssignMoreKeeps(range: Task, workers: nat, s: State, a: Account, size: nat)
    requires Inv(range, s, a) && workers >= 1 && Enabled(s, AssignMore(size))
    ensures var (u, b) := Next(range, workers, s, a, AssignMore(size)); Inv(range, u, b)
  {
    var (u, b) := Assign(range, workers, s, a, size, |s.pending|);
    AssignKeeps(range, workers, s, a, size, |s.pending|, u, b);
    var v := u.(phase := Idle);
    forall e: nat ensures Places(range, v, e) == One(range.from <= e < v.nextAssign) {
      assert Places(range, u, e) == One(range.from <= e < u.nextAssign);
    }
  }

  ghost predicate AllEnabled(range: Task, workers: nat, s: State, a: Account, xs: seq<Action>)
    decreases |xs|
  {
    xs != [] ==>
      Enabled(s, xs[0]) &&
      var (u, b) := Next(range, workers, s, a, xs[0]);
      AllEnabled(range, workers, u, b, xs[1..])
  }

  function Run(range: Task, workers: nat, s: State, a: Account, xs: seq<Action>): (State, Account)
    decreases |xs|
  {
    if xs == [] then (s, a)
    else
      var (u, b) := Next(range, workers, s, a, xs[0]);
      Run(range, workers, u, b, xs[1..])
  }

  lemma {:induction false} RunKeeps(range: Task, workers: nat, s: State, a: Account, xs: seq<Action>)
    requires Inv(range, s, a) && workers >= 1 && AllEnabled(range, workers, s, a, xs)
    ensures var (u, b) := Run(range, workers, s, a, xs); Inv(range, u, b)
    decreases |xs|
  {
    if xs != [] {
      NextKeeps(range, workers, s, a, xs[0]);
      var (u, b) := Next(range, workers, s, a, xs[0]);
      RunKeeps(range, workers, u, b, xs[1..]);
    }
  }

  /** Executions that ended during a run. */
  function Finishes(xs: seq<Action>): nat
    decreases |xs|
  {
    if xs == [] then 0 else (if xs[0].Finish? then 1 else 0) + Finishes(xs[1..])
  }

  ghost predicate FailsSingle(x: Action) {
    x.Finish? && !x.r.ok && x.r.task.Size() == 1
  }

  /** The account says how many executions ended and whether one of a single epoch failed. */
  lemma {:induction false} RunAccount(range: Task, workers: nat, s: State, a: Account, xs: seq<Action>)
    requires AllEnabled(range, workers, s, a, xs)
    ensures var (_, b) := Run(range, workers, s, a, xs);
            && b.executions == a.executions + Finishes(xs)
            && (b.singleFailed <==> a.singleFailed || exists i :: 0 <= i < |xs| && FailsSingle(xs[i]))
    decreases |xs|
  {
    if xs != [] {
      var (u, b) := Next(range, workers, s, a, xs[0]);
      if xs[0].AssignMore? {
        AssignAccount(range, workers, s, a, xs[0].size, |s.pending|);
      }
      RunAccount(range, workers, u, b, xs[1..]);
      assert forall i :: 1 <= i < |xs| ==> xs[i] == xs[1..][i - 1];
      if i :| 0 <= i < |xs[1..]| && FailsSingle(xs[1..][i]) {
        assert FailsSingle(xs[i + 1]);
      }
    }
  }

  lemma {:induction false} AssignAccount(range: Task, workers: nat, s: State, a: Account, size: nat, n: nat)
    requires size >= 1
    ensures var (_, b) := Assign(range, workers, s, a, size, n);
            b.executions == a.executions && b.singleFailed == a.singleFailed
    decreases if n < workers then workers - n else 0
  {
    if n < workers {
      if s.recall != [] {
        var u := Split(s, MinIndex(s.recall));
        AssignAccount(range, workers, u, a, size, n + |u.pending| - |s.pending|);
      } else if s.nextAssign <= range.to {
        AssignAccount(range, workers, CutNext(range, s, size), a.(cuts := a.cuts + 1), size, n + 1);
      }
    }
  }

  // ---------- what was fetched is what is emitted ----------

  /** A worker finished a task successfully with this datum. */
  ghost predicate Delivered(xs: seq<Action>, d: EpochData) {
    exists i :: 0 <= i < |xs| && Brings(xs[i], d)
  }

  ghost predicate Brings(x: Action, d: EpochData) {
    x.Finish? && x.r.ok && d in x.r.data
  }

  ghost predicate AllDelivered(xs: seq<Action>, ds: seq<EpochData>) {
    forall i :: 0 <= i < |ds| ==> Delivered(xs, ds[i])
  }

  ghost predicate ResultsDelivered(xs: seq<Action>, rs: seq<Result>) {
    forall i :: 0 <= i < |rs| && rs[i].ok ==> AllDelivered(xs, rs[i].data)
  }

  /** Everything queued, cached or emitted was delivered by a worker. */
  ghost predicate Genuine(xs: seq<Action>, s: State) {
    && ResultsDelivered(xs, s.results) && ResultsDelivered(xs, s.batch)
    && (forall e :: e in s.store ==> Delivered(xs, s.store[e])) && AllDelivered(xs, s.emitted)
  }

  lemma DeliveredMore(xs: seq<Action>, x: Action, d: EpochData)
    requires Delivered(xs, d)
    ensures Delivered(xs + [x], d)
  {
    var i :| 0 <= i < |xs| && Brings(xs[i], d);
    assert (xs + [x])[i] == xs[i];
  }

  lemma GenuineMore(xs: seq<Action>, x: Action, s: State)
    requires Genuine(xs, s)
    ensures Genuine(xs + [x], s)
  {
    var ys := xs + [x];
    forall rs: seq<Result> | ResultsDelivered(xs, rs) ensures ResultsDelivered(ys, rs) {
      forall i, k | 0 <= i < |rs| && rs[i].ok && 0 <= k < |rs[i].data| ensures Delivered(ys, rs[i].data[k]) {
        DeliveredMore(xs, x, rs[i].data[k]);
      }
    }
    forall e | e in s.store ensures Delivered(ys, s.store[e]) {
      DeliveredMore(xs, x, s.store[e]);
    }
    forall i | 0 <= i < |s.emitted| ensures Delivered(ys, s.emitted[i]) {
      DeliveredMore(xs, x, s.emitted[i]);
    }
  }

  lemma FinishGenuine(xs: seq<Action>, s: State, i: nat, r: Result)
    requires Genuine(xs, s) && i < |s.inFlight|
    ensures Genuine(xs + [Finish(i, r)], FinishTask(s, i, r))
  {
    var x := Finish(i, r);
    GenuineMore(xs, x, s);
    if r.ok {
      forall k | 0 <= k < |r.data| ensures Delivered(xs + [x], r.data[k]) {
        assert Brings((xs + [x])[|xs|], r.data[k]);
      }
    }
  }

  lemma {:induction false} PutGenuine(xs: seq<Action>, store: map<nat, EpochData>, data: seq<EpochData>)
    requires (forall e :: e in store ==> Delivered(xs, store[e])) && AllDelivered(xs, data)
    ensures forall e :: e in Put(store, data) ==> Delivered(xs, Put(store, data)[e])
  {
    if data != [] {
      PutGenuine(xs, store, data[..|data| - 1]);
    }
  }

  lemma {:induction false} FlushGenuine(xs: seq<Action>, s: State)
    requires Genuine(xs, s)
    ensures Genuine(xs, FlushAll(s))
    decreases |s.store|
  {
    if s.nextWrite in s.store {
      FlushGenuine(xs, Flushed(s));
    }
  }

  lemma ProcessGenuine(xs: seq<Action>, s: State, m: nat)
    requires Genuine(xs, s) && m < |s.batch|
    ensures Genuine(xs, Process(s, m))
  {
    if s.batch[m].ok {
      PutGenuine(xs, s.store, s.batch[m].data);
      FlushGenuine(xs, Stored(s, m));
    }
  }

  lemma {:induction false} AssignSpares(range: Task, workers: nat, s: State, a: Account, size: nat, n: nat)
    requires size >= 1
    ensures var (u, _) := Assign(range, workers, s, a, size, n);
            u == s.(pending := u.pending, recall := u.recall, nextAssign := u.nextAssign)
    decreases if n < workers then workers - n else 0
  {
    if n < workers {
      if s.recall != [] {
        var u := Split(s, MinIndex(s.recall));
        AssignSpares(range, workers, u, a, size, n + |u.pending| - |s.pending|);
      } else if s.nextAssign <= range.to {
        AssignSpares(range, workers, CutNext(range, s, size), a.(cuts := a.cuts + 1), size, n + 1);
      }
    }
  }

  lemma NextGenuine(range: Task, workers: nat, s: State, a: Account, xs: seq<Action>, x: Action)
    requires Genuine(xs, s)
    ensures Genuine(xs + [x], Next(range, workers, s, a, x).0)
  {
    GenuineMore(xs, x, s);
    match x
    case Take =>
    case Finish(i, r) =>
      if i < |s.inFlight| {
        FinishGenuine(xs, s, i, r);
      }
    case Receive =>
    case Handle(m) =>
      if m < |s.batch| {
        ProcessGenuine(xs + [x], s, m);
      }
    case AssignMore(size) =>
      if size >= 1 {
        AssignSpares(range, workers, s, a, size, |s.pending|);
      }
  }

  lemma {:induction false} RunGenuine(range: Task, workers: nat, s: State, a: Account, done: seq<Action>, xs: seq<Action>)
    requires Genuine(done, s)
    ensures Genuine(done + xs, Run(range, workers, s, a, xs).0)
    decreases |xs|
  {
    if xs == [] {
      assert done + xs == done;
    } else {
      NextGenuine(range, workers, s, a, done, xs[0]);
      var (u, b) := Next(range, workers, s, a, xs[0]);
      RunGenuine(range, workers, u, b, done + [xs[0]], xs[1..]);
      assert done + [xs[0]] + xs[1..] == done + xs;
    }
  }

  // ---------- the main results ----------

  /** In every reachable state of every interleaving: each epoch assigned so far is in exactly
      one place and no other epoch is anywhere; the emitted epochs are from, from + 1, and so
      on, each as a worker delivered it; an idle dispatcher that has not emitted everything
      still has a task pending, running or finished; and if no single-epoch task failed, fewer
      than two executions per epoch took place. */
  lemma EveryRun(range: Task, workers: nat, xs: seq<Action>)
    requires range.Proper() && workers >= 1
    requires AllEnabled(range, workers, Initial(range), Account(0, 0, false), xs)
    ensures var (s, a) := Run(range, workers, Initial(range), Account(0, 0, false), xs);
            && (forall e: nat :: Places(range, s, e) == One(range.from <= e < s.nextAssign))
            && (forall i :: 0 <= i < |s.emitted| ==> s.emitted[i].number == range.from + i)
            && AllDelivered(xs, s.emitted)
            && |s.emitted| <= range.Size()
            && (s.phase == Idle && |s.emitted| < range.Size() ==> s.pending != [] || s.inFlight != [] || s.results != [])
            && ((forall i :: 0 <= i < |xs| ==> !FailsSingle(xs[i])) ==> Finishes(xs) < 2 * range.Size())
  {
    assert Inv(range, Initial(range), Account(0, 0, false));
    RunKeeps(range, workers, Initial(range), Account(0, 0, false), xs);
    var (s, a) := Run(range, workers, Initial(range), Account(0, 0, false), xs);
    EmittedAtMost(range, s, a);
    RunAccount(range, workers, Initial(range), Account(0, 0, false), xs);
    RunGenuine(range, workers, Initial(range), Account(0, 0, false), [], xs);
    assert [] + xs == xs;
    if s.phase == Idle && |s.emitted| < range.Size() {
      NeverStalls(range, s, a);
    }
    if !a.singleFailed {
      FewExecutions(range, s, a);
    }
  }

  lemma EmittedAtMost(range: Task, s: State, a: Account)
    requires Inv(range, s, a) && range.Proper()
    ensures |s.emitted| <= range.Size()
  {
    assert Places(range, s, s.nextAssign) == One(range.from <= s.nextAssign < s.nextAssign);
  }

  lemma NeverStalls(range: Task, s: State, a: Account)
    requires Inv(range, s, a) && s.phase == Idle && |s.emitted| < range.Size()
    ensures s.pending != [] || s.inFlight != [] || s.results != []
  {
    assert Places(range, s, s.nextWrite) == One(range.from <= s.nextWrite < s.nextAssign);
  }

  lemma FewExecutions(range: Task, s: State, a: Account)
    requires Inv(range, s, a) && range.Proper() && !a.singleFailed
    ensures a.executions < 2 * range.Size()
  {
    WorkNonNegative(s.pending, 1);
    WorkNonNegative(s.inFlight, 1);
    WorkNonNegative(s.recall, 2);
    FailedWorkNonNegative(s.results);
    FailedWorkNonNegative(s.batch);
  }

  lemma {:induction false} FailedWorkNonNegative(rs: seq<Result>)
    requires AllFaithful(rs)
    ensures FailedWork(rs) >= 0
  {
    if rs != [] {
      FailedWorkNonNegative(rs[..|rs| - 1]);
    }
  }
}
