/** The loops of the coordinator, each proved to be the step of the scheduler it implements. */
module Coordinator {
  import opened Basics
  import opened TaskSets
  import opened Scheduler

  /** Bounds and ratios for estimating task sizes. */
  datatype Config = Config(
    defaultSize: nat, minSize: nat, maxSize: nat, increment: real, decrement: real)
  {
    ghost predicate Sane() {
      defaultSize >= 1 && minSize >= 1 && maxSize >= 1
    }
  }

  class Coordinator {
    const range: Task
    const workers: nat
    const config: Config
    var s: State
    ghost var a: Account

    ghost predicate Valid()
      reads this
    {
      workers >= 1 && config.Sane() && Inv(range, s, a)
    }

    constructor (r: Task, w: nat, c: Config)
      requires r.Proper() && w >= 1 && c.Sane()
      ensures Valid() && range == r && workers == w && config == c && s == Initial(r) && a == Account(0, 0, false)
    {
      range, workers, config, s, a := r, w, c, Initial(r), Account(0, 0, false);
    }

    /** Caches epoch data and emits all epochs that are now contiguous. */
    method CollectEpochData(data: seq<EpochData>)
      modifies this`s
      ensures s == FlushAll(old(s).(store := Put(old(s).store, data)))
    {
      for i := 0 to |data|
        invariant s == old(s).(store := Put(old(s).store, data[..i]))
      {
        assert data[..i + 1][..i] == data[..i];
        s := s.(store := s.store[data[i].number := data[i]]);
      }
      assert data[..|data|] == data;
      while s.nextWrite in s.store
        invariant FlushAll(s) == FlushAll(old(s).(store := Put(old(s).store, data)))
        decreases |s.store|
      {
        var e := s.nextWrite;
        s := s.(emitted := s.emitted + [s.store[e]], store := s.store - {e}, nextWrite := e + 1);
      }
    }

    /** Processes one result of the batch: recall it if it failed, else collect its data. */
    method HandleResult(m: nat)
      requires Valid() && m < |s.batch|
      modifies this`s
      ensures Valid() && s == Process(old(s), m)
    {
      ProcessKeeps(range, s, a, m);
      var r := s.batch[m];
      s := s.(batch := Without(s.batch, m), phase := Processing);
      if !r.ok {
        s := s.(recall := s.recall + [r.task]);
      } else {
        CollectEpochData(r.data);
      }
    }

    /** Schedules tasks until there is one per worker, splitting recalled tasks first. */
    method AssignTasks(size: nat)
      requires Valid() && Enabled(s, AssignMore(size))
      modifies this
      ensures Valid() && (s, a) == Next(range, workers, old(s), old(a), AssignMore(size))
    {
      AssignMoreKeeps(range, workers, s, a, size);
      var n, done := |s.pending|, false;
      while !done && n < workers
        invariant n == |s.pending|
        invariant Assign(range, workers, s, a, size, n) == Assign(range, workers, old(s), old(a), size, |old(s).pending|)
        invariant done ==> Assign(range, workers, s, a, size, n) == (s, a)
        decreases !done, workers - n
      {
        n, done := AssignOne(size, n);
      }
      s := s.(phase := Idle);
    }

    /** One round of the assignment loop; `done` if the full range has already been assigned. */
    method AssignOne(size: nat, n: nat) returns (n': nat, done: bool)
      requires size >= 1 && n == |s.pending| < workers
      modifies this
      ensures n' == |s.pending| && (!done ==> n' > n)
      ensures Assign(range, workers, s, a, size, n') == Assign(range, workers, old(s), old(a), size, n)
      ensures done ==> Assign(range, workers, s, a, size, n') == (s, a)
    {
      n', done := n + 1, false;
      if s.recall != [] {
        var m := MinIndex(s.recall);
        var x := s.recall[m];
        var mid := (x.from + x.to) / 2;
        s := s.(recall := Without(s.recall, m), pending := s.pending + [Task(x.from, mid)]);
        if mid + 1 <= x.to {
          n' := n' + 1;
          s := s.(pending := s.pending + [Task(mid + 1, x.to)]);
        }
        assert s == Split(old(s), m);
      } else if s.nextAssign > range.to {
        n', done := n, true;
      } else {
        var end := if s.nextAssign + size - 1 < range.to then s.nextAssign + size - 1 else range.to;
        s := s.(pending := s.pending + [Task(s.nextAssign, end)], nextAssign := end + 1);
        a := a.(cuts := a.cuts + 1);
      }
    }
  }

  // ---------- task size estimation ----------

  function Weight(k: nat): (w: real)
    ensures w > 0.0
  {
    if k == 0 then 1.0 else Weight(k - 1) / 2.0
  }

  function Estimate(c: Config, r: Result): real {
    r.task.Size() as real * if r.ok then 1.0 + c.increment else 1.0 - c.decrement
  }

  function Clamp(c: Config, n: int): int {
    var lower := if n < c.minSize then c.minSize else n;
    if lower < c.maxSize then lower else c.maxSize
  }

  /** Clamping keeps a size within the bounds, and one that is within them as it is. */
  lemma ClampWithin(c: Config, n: int)
    requires c.minSize <= c.maxSize
    ensures c.minSize <= Clamp(c, n) <= c.maxSize && (c.minSize <= n <= c.maxSize ==> Clamp(c, n) == n)
    ensures (n < c.minSize ==> Clamp(c, n) == c.minSize) && (n > c.maxSize ==> Clamp(c, n) == c.maxSize)
  {
  }

  /** A success suggests no smaller size, a failure no larger one. */
  lemma EstimateSides(c: Config, r: Result)
    requires c.increment >= 0.0 && c.decrement >= 0.0 && r.task.Proper()
    ensures r.ok ==> Estimate(c, r) >= r.task.Size() as real
    ensures !r.ok ==> Estimate(c, r) <= r.task.Size() as real
    ensures c.increment > 0.0 && r.ok ==> Estimate(c, r) > r.task.Size() as real
    ensures c.decrement > 0.0 && !r.ok ==> Estimate(c, r) < r.task.Size() as real
  {
    Stretch(r.task.Size() as real, c.increment);
    Stretch(r.task.Size() as real, c.decrement);
  }

  lemma Stretch(size: real, share: real)
    requires size > 0.0 && share >= 0.0
    ensures size * (1.0 + share) >= size >= size * (1.0 - share)
    ensures share > 0.0 ==> size * (1.0 + share) > size > size * (1.0 - share)
  {
    assert size * (1.0 + share) == size + size * share;
    assert size * (1.0 - share) == size - size * share;
  }

  /** Sum of the suggested sizes, the last one in full and each earlier one with half the weight. */
  function Decayed(c: Config, results: seq<Result>): real {
    if results == [] then 0.0
    else Decayed(c, results[..|results| - 1]) / 2.0 + Estimate(c, results[|results| - 1])
  }

  /** Sum of these weights for `n` results. */
  function Weights(n: nat): real {
    if n == 0 then 0.0 else Weights(n - 1) / 2.0 + 1.0
  }

  lemma DecayNext(c: Config, results: seq<Result>, i: nat)
    requires i < |results|
    ensures Decayed(c, results[..i + 1]) == Decayed(c, results[..i]) / 2.0 + Estimate(c, results[i])
  {
    assert results[..i + 1][..i] == results[..i];
  }

  ghost predicate Scaled(sum: real, x: real, scale: real) {
    sum == x * scale
  }

  /** A sum scaled by half of `w`, with `y` added at scale `w`. */
  lemma Rescale(sum: real, x: real, y: real, w: real, next: real)
    requires Scaled(sum, x, w / 2.0) && next == x / 2.0 + y
    ensures Scaled(sum + y * w, next, w)
  {
    assert x / 2.0 * w == x * (w / 2.0);
    assert next * w == x / 2.0 * w + y * w;
  }

  lemma FullScale(sum: real, x: real)
    requires Scaled(sum, x, 1.0)
    ensures sum == x
  {
  }

  /** The loop over the results, the last of which has weight 1. */
  method SumDecayed(c: Config, results: seq<Result>) returns (total: real, weight: real)
    ensures total == Decayed(c, results) && weight == Weights(|results|)
  {
    total, weight := 0.0, 0.0;
    for i := 0 to |results|
      invariant Scaled(total, Decayed(c, results[..i]), Weight(|results| - i))
      invariant Scaled(weight, Weights(i), Weight(|results| - i))
    {
      var w := Weight(|results| - 1 - i);
      var est := Estimate(c, results[i]);
      DecayNext(c, results, i);
      Rescale(total, Decayed(c, results[..i]), est, w, Decayed(c, results[..i + 1]));
      Rescale(weight, Weights(i), 1.0, w, Weights(i + 1));
      total, weight := total + est * w, weight + w;
    }
    assert results[..|results|] == results;
    FullScale(total, Decayed(c, results));
    FullScale(weight, Weights(|results|));
  }

  lemma {:induction false} WeightsPositive(n: nat)
    ensures Weights(n) >= 0.0 && (n > 0 ==> Weights(n) >= 1.0)
  {
    if n > 0 {
      WeightsPositive(n - 1);
    }
  }

  lemma {:induction false} DecayedBounds(c: Config, results: seq<Result>, lo: real, hi: real)
    requires forall i :: 0 <= i < |results| ==> lo <= Estimate(c, results[i]) <= hi
    ensures lo * Weights(|results|) <= Decayed(c, results) <= hi * Weights(|results|)
  {
    if results != [] {
      var init := results[..|results| - 1];
      DecayedBounds(c, init, lo, hi);
      MeanStep(lo, hi, Decayed(c, init), Weights(|init|), Estimate(c, results[|results| - 1]));
    }
  }

  /** The next task size: a weighted mean of the sizes the recent results suggest, each result
      counting half as much as the next, rounded up and clamped. It lies between the clamped
      extremes of these suggestions, and is never 0. */
  method EstimateTaskSize(c: Config, results: seq<Result>, ghost lo: real, ghost hi: real) returns (size: nat)
    requires c.Sane()
    requires forall i :: 0 <= i < |results| ==> lo <= Estimate(c, results[i]) <= hi
    ensures size >= 1
    ensures results == [] ==> size == c.defaultSize
    ensures results != [] ==> Weights(|results|) > 0.0 && size == Clamp(c, Ceil(Decayed(c, results) / Weights(|results|)))
    ensures results != [] ==> Clamp(c, Ceil(lo)) <= size <= Clamp(c, Ceil(hi))
  {
    if results == [] {
      return c.defaultSize;
    }
    var total, weight := SumDecayed(c, results);
    WeightsPositive(|results|);
    DecayedBounds(c, results, lo, hi);
    MeanBounds(lo, hi, total, weight);
    size := Clamp(c, Ceil(total / weight));
  }

  lemma MeanStep(lo: real, hi: real, total: real, weight: real, est: real)
    requires lo * weight <= total <= hi * weight && lo <= est <= hi
    ensures lo * (weight / 2.0 + 1.0) <= total / 2.0 + est <= hi * (weight / 2.0 + 1.0)
  {
    assert lo * (weight / 2.0 + 1.0) == lo * weight / 2.0 + lo;
    assert hi * (weight / 2.0 + 1.0) == hi * weight / 2.0 + hi;
  }

  lemma MeanBounds(lo: real, hi: real, total: real, weight: real)
    requires lo * weight <= total <= hi * weight && weight > 0.0
    ensures lo <= total / weight <= hi
    ensures Ceil(lo) <= Ceil(total / weight) <= Ceil(hi)
  {
    assert total / weight * weight == total;
  }
}
