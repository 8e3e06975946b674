/** Priority fees of blocks: percentiles, averages and ranges. */
module PriorityFees {
  import opened Basics

  /** Smallest and largest value. */
  datatype Range = Range(lo: int, hi: int)

  datatype BlockFee = BlockFee(number: nat, hash: string, baseFee: Option<int>, tips: seq<int>)

  // ---------- ordered tips ----------

  ghost predicate Sorted(tips: seq<int>) {
    forall i, j :: 0 <= i <= j < |tips| ==> tips[i] <= tips[j]
  }

  function InsertTip(tips: seq<int>, tip: int): seq<int> {
    if tips == [] || tips[|tips| - 1] <= tip then tips + [tip]
    else InsertTip(tips[..|tips| - 1], tip) + [tips[|tips| - 1]]
  }

  /** Ascending order. */
  function SortTips(tips: seq<int>): seq<int> {
    if tips == [] then [] else InsertTip(SortTips(tips[..|tips| - 1]), tips[|tips| - 1])
  }

  lemma {:induction false} InsertTipSorted(tips: seq<int>, tip: int)
    requires Sorted(tips)
    ensures Sorted(InsertTip(tips, tip)) && InsertTip(tips, tip) != []
    ensures forall i :: 0 <= i < |InsertTip(tips, tip)| ==> InsertTip(tips, tip)[i] <= tip || InsertTip(tips, tip)[i] <= tips[|tips| - 1]
  {
    if tips != [] && tips[|tips| - 1] > tip {
      InsertTipSorted(tips[..|tips| - 1], tip);
    }
  }

  lemma {:induction false} InsertTipKeeps(tips: seq<int>, tip: int)
    ensures multiset(InsertTip(tips, tip)) == multiset(tips) + multiset{tip}
  {
    if tips != [] && tips[|tips| - 1] > tip {
      InsertTipKeeps(tips[..|tips| - 1], tip);
      assert tips == tips[..|tips| - 1] + [tips[|tips| - 1]];
    }
  }

  /** Sorting orders the tips and keeps them all. */
  lemma {:induction false} SortTipsOk(tips: seq<int>)
    ensures Sorted(SortTips(tips)) && multiset(SortTips(tips)) == multiset(tips)
  {
    if tips != [] {
      var init, tip := tips[..|tips| - 1], tips[|tips| - 1];
      SortTipsOk(init);
      InsertTipSorted(SortTips(init), tip);
      InsertTipKeeps(SortTips(init), tip);
      assert tips == init + [tip];
    }
  }

  // ---------- percentile ----------

  function Share(p: real, n: nat): real {
    p * n as real / 100.0
  }

  lemma ShareMonotone(p: real, q: real, n: nat)
    requires n > 0 && 0.0 <= p <= q
    ensures 0.0 <= Share(p, n) <= Share(q, n) && (p > 0.0 ==> Share(p, n) > 0.0)
  {
  }

  lemma CeilMonotone(x: real, y: real)
    requires x <= y
    ensures Ceil(x) <= Ceil(y) && (x > 0.0 ==> Ceil(x) >= 1)
  {
  }

  /** Nearest rank of a percentile among `n` tips. */
  function RankOf(p: real, n: nat): (i: nat)
    requires n > 0 && 0.0 <= p <= 100.0
    ensures i < n
  {
    if p == 0.0 then 0
    else
      ShareMonotone(p, p, n);
      CeilMonotone(Share(p, n), Share(p, n));
      if Ceil(Share(p, n)) - 1 >= n then n - 1 else Ceil(Share(p, n)) - 1
  }

  /** No tip for a block without transactions or a percentile out of range. */
  function Percentile(tips: seq<int>, p: real): Option<int> {
    if tips == [] || p < 0.0 || p > 100.0 then None else Some(tips[RankOf(p, |tips|)])
  }

  /** How many tips are at most `v`. */
  function AtMost(tips: seq<int>, v: int): nat {
    if tips == [] then 0 else AtMost(tips[..|tips| - 1], v) + if tips[|tips| - 1] <= v then 1 else 0
  }

  /** How many tips are smaller than `v`. */
  function Smaller(tips: seq<int>, v: int): nat {
    if tips == [] then 0 else Smaller(tips[..|tips| - 1], v) + if tips[|tips| - 1] < v then 1 else 0
  }

  /** The tip of rank `i` has `i + 1` tips that are no larger, and no more than `i` smaller ones. */
  lemma {:induction false} CountsAtRank(tips: seq<int>, i: nat, v: int)
    requires Sorted(tips) && i < |tips| && tips[i] == v
    ensures AtMost(tips, v) > i && Smaller(tips, v) <= i
  {
    var init := tips[..|tips| - 1];
    if i < |init| {
      CountsAtRank(init, i, v);
    } else {
      CountsUpTo(init, v);
    }
  }

  lemma {:induction false} CountsUpTo(tips: seq<int>, v: int)
    requires forall i :: 0 <= i < |tips| ==> tips[i] <= v
    ensures AtMost(tips, v) == |tips| && Smaller(tips, v) <= |tips|
  {
    if tips != [] {
      CountsUpTo(tips[..|tips| - 1], v);
    }
  }

  lemma {:induction false} SmallerThanLarger(tips: seq<int>, v: int, w: int)
    requires v < w
    ensures AtMost(tips, v) <= Smaller(tips, w)
  {
    if tips != [] {
      SmallerThanLarger(tips[..|tips| - 1], v, w);
    }
  }

  /** `v` is the nearest-rank percentile: at least that share of the tips is no larger, and less
      than that share is smaller. */
  ghost predicate NearestRank(tips: seq<int>, p: real, v: int) {
    AtMost(tips, v) as real >= Share(p, |tips|) > Smaller(tips, v) as real
  }

  lemma RankIsCeil(p: real, n: nat)
    requires n > 0 && 0.0 < p <= 100.0
    ensures RankOf(p, n) as real < Share(p, n) <= RankOf(p, n) as real + 1.0
  {
    ShareMonotone(p, 100.0, n);
    assert Share(100.0, n) == n as real;
  }

  /** A percentile above 0 is the nearest-rank one, which is unique; percentile 0 is the smallest
      tip and percentile 100 the largest. */
  lemma PercentileIsNearestRank(tips: seq<int>, p: real)
    requires Sorted(tips) && tips != [] && 0.0 <= p <= 100.0
    ensures Percentile(tips, p).Some?
    ensures p == 0.0 ==> Percentile(tips, p).value == tips[0]
    ensures p == 100.0 ==> Percentile(tips, p).value == tips[|tips| - 1]
    ensures p > 0.0 ==> NearestRank(tips, p, Percentile(tips, p).value)
    ensures p > 0.0 ==> forall v :: NearestRank(tips, p, v) ==> v == Percentile(tips, p).value
  {
    if p > 0.0 {
      var i := RankOf(p, |tips|);
      RankIsCeil(p, |tips|);
      CountsAtRank(tips, i, tips[i]);
      forall v | NearestRank(tips, p, v) ensures v == tips[i] {
        NearestRankUnique(tips, p, v, tips[i]);
      }
      FullShare(p, |tips|);
    }
  }

  lemma FullShare(p: real, n: nat)
    requires n > 0 && 0.0 < p <= 100.0
    ensures p == 100.0 ==> RankOf(p, n) == n - 1
  {
    RankIsCeil(p, n);
    assert p == 100.0 ==> Share(p, n) == n as real;
  }

  lemma NearestRankUnique(tips: seq<int>, p: real, v: int, w: int)
    requires NearestRank(tips, p, v) && NearestRank(tips, p, w)
    ensures v == w
  {
    if v < w {
      SmallerThanLarger(tips, v, w);
    } else if w < v {
      SmallerThanLarger(tips, w, v);
    }
  }

  lemma RankMonotone(p: real, q: real, n: nat)
    requires n > 0 && 0.0 <= p <= q <= 100.0
    ensures RankOf(p, n) <= RankOf(q, n)
  {
    ShareMonotone(p, q, n);
    CeilMonotone(Share(p, n), Share(q, n));
  }

  /** A percentile is a tip, and a higher percentile is no smaller. */
  lemma PercentileMonotone(tips: seq<int>, p: real, q: real)
    requires Sorted(tips) && tips != [] && 0.0 <= p <= q <= 100.0
    ensures Percentile(tips, p).Some? && Percentile(tips, q).Some?
    ensures tips[0] <= Percentile(tips, p).value <= Percentile(tips, q).value <= tips[|tips| - 1]
  {
    RankMonotone(p, q, |tips|);
  }

  // ---------- ranges ----------

  function TipRange(tips: seq<int>): Option<Range> {
    if tips == [] then None else Some(Range(tips[0], tips[|tips| - 1]))
  }

  /** The smallest range that holds both. */
  function Join(a: Option<Range>, b: Option<Range>): Option<Range> {
    if a == None then b
    else if b == None then a
    else Some(Range(if b.value.lo < a.value.lo then b.value.lo else a.value.lo,
                    if b.value.hi > a.value.hi then b.value.hi else a.value.hi))
  }

  predicate Inside(a: Option<Range>, b: Option<Range>) {
    a.Some? ==> b.Some? && b.value.lo <= a.value.lo && a.value.hi <= b.value.hi
  }

  /** Range of all tips in a list of blocks. */
  function LatestRange(chain: seq<BlockFee>): Option<Range> {
    if chain == [] then None else Join(LatestRange(chain[..|chain| - 1]), TipRange(chain[|chain| - 1].tips))
  }

  ghost predicate Ordered(chain: seq<BlockFee>) {
    forall i :: 0 <= i < |chain| ==> Sorted(chain[i].tips)
  }

  /** The range holds every tip and its ends are tips. */
  lemma {:induction false} LatestRangeIsExact(chain: seq<BlockFee>)
    requires Ordered(chain)
    ensures LatestRange(chain) == None <==> forall i :: 0 <= i < |chain| ==> chain[i].tips == []
    ensures LatestRange(chain).Some? ==>
              && (forall i :: 0 <= i < |chain| ==> forall k :: 0 <= k < |chain[i].tips| ==>
                                                     LatestRange(chain).value.lo <= chain[i].tips[k] <= LatestRange(chain).value.hi)
              && (exists i :: 0 <= i < |chain| && LatestRange(chain).value.lo in chain[i].tips)
              && (exists i :: 0 <= i < |chain| && LatestRange(chain).value.hi in chain[i].tips)
  {
    if chain != [] {
      var init, last := chain[..|chain| - 1], chain[|chain| - 1];
      LatestRangeIsExact(init);
      assert forall i :: 0 <= i < |init| ==> init[i] == chain[i];
      assert last.tips != [] ==> last.tips[0] in chain[|chain| - 1].tips && last.tips[|last.tips| - 1] in chain[|chain| - 1].tips;
    }
  }

  // ---------- averages ----------

  /** Sum of a percentile over the blocks that have one. */
  function Total(chain: seq<BlockFee>, p: real): int {
    if chain == [] then 0
    else
      var v := Percentile(chain[|chain| - 1].tips, p);
      Total(chain[..|chain| - 1], p) + if v.Some? then v.value else 0
  }

  function Size(chain: seq<BlockFee>, p: real): nat {
    if chain == [] then 0
    else Size(chain[..|chain| - 1], p) + if Percentile(chain[|chain| - 1].tips, p).Some? then 1 else 0
  }

  function Average(chain: seq<BlockFee>, p: real): Option<int> {
    if Size(chain, p) == 0 then None else Some(Total(chain, p) / Size(chain, p))
  }

  lemma {:induction false} SumsConcat(a: seq<BlockFee>, b: seq<BlockFee>, p: real)
    ensures Total(a + b, p) == Total(a, p) + Total(b, p) && Size(a + b, p) == Size(a, p) + Size(b, p)
  {
    if b == [] {
      assert a + b == a;
    } else {
      assert (a + b)[..|a + b| - 1] == a + b[..|b| - 1];
      SumsConcat(a, b[..|b| - 1], p);
    }
  }

  /** The average is the mean, rounded down, over the blocks that have the percentile: each of them
      adds its percentile and counts once, the others do neither. */
  lemma AverageIsMean(chain: seq<BlockFee>, p: real)
    ensures Average(chain, p).Some? <==> Size(chain, p) > 0
    ensures Average(chain, p).Some? ==>
              var avg, n := Average(chain, p).value, Size(chain, p);
              n * avg <= Total(chain, p) < n * avg + n
    ensures forall k :: 0 <= k < |chain| ==>
              var v := Percentile(chain[k].tips, p);
              && Total(chain, p) == Total(chain[..k], p) + Total(chain[k + 1..], p) + (if v.Some? then v.value else 0)
              && Size(chain, p) == Size(chain[..k], p) + Size(chain[k + 1..], p) + if v.Some? then 1 else 0
  {
    if Size(chain, p) > 0 {
      var sum, n := Total(chain, p), Size(chain, p);
      assert sum == n * (sum / n) + sum % n;
    }
    forall k | 0 <= k < |chain|
      ensures var v := Percentile(chain[k].tips, p);
              && Total(chain, p) == Total(chain[..k], p) + Total(chain[k + 1..], p) + (if v.Some? then v.value else 0)
              && Size(chain, p) == Size(chain[..k], p) + Size(chain[k + 1..], p) + if v.Some? then 1 else 0
    {
      SumsAround(chain, k, p);
    }
  }

  lemma SumsAround(chain: seq<BlockFee>, k: nat, p: real)
    requires k < |chain|
    ensures var v := Percentile(chain[k].tips, p);
            && Total(chain, p) == Total(chain[..k], p) + Total(chain[k + 1..], p) + (if v.Some? then v.value else 0)
            && Size(chain, p) == Size(chain[..k], p) + Size(chain[k + 1..], p) + if v.Some? then 1 else 0
  {
    var one: seq<BlockFee> := [chain[k]];
    assert one[..0] == [];
    assert chain == chain[..k] + one + chain[k + 1..];
    SumsConcat(chain[..k], one, p);
    SumsConcat(chain[..k] + one, chain[k + 1..], p);
  }

  lemma {:induction false} TotalMonotone(chain: seq<BlockFee>, p: real, q: real)
    requires Ordered(chain) && 0.0 <= p <= q <= 100.0
    ensures Size(chain, p) == Size(chain, q) && Total(chain, p) <= Total(chain, q)
  {
    if chain != [] {
      TotalMonotone(chain[..|chain| - 1], p, q);
      var tips := chain[|chain| - 1].tips;
      if tips != [] {
        PercentileMonotone(tips, p, q);
      }
    }
  }

  lemma {:induction false} TotalBounds(chain: seq<BlockFee>, p: real, lo: int, hi: int)
    requires Ordered(chain) && 0.0 <= p <= 100.0
    requires Inside(LatestRange(chain), Some(Range(lo, hi)))
    ensures Size(chain, p) * lo <= Total(chain, p) <= Size(chain, p) * hi
    ensures Size(chain, p) == 0 <==> LatestRange(chain) == None
  {
    if chain != [] {
      var init, tips := chain[..|chain| - 1], chain[|chain| - 1].tips;
      TotalBounds(init, p, lo, hi);
      if tips != [] {
        PercentileMonotone(tips, p, p);
        OneMore(Size(init, p), Total(init, p), Percentile(tips, p).value, lo, hi);
      }
    }
  }

  lemma OneMore(n: nat, total: int, v: int, lo: int, hi: int)
    requires n * lo <= total <= n * hi && lo <= v <= hi
    ensures (n + 1) * lo <= total + v <= (n + 1) * hi
  {
    assert (n + 1) * lo == n * lo + lo && (n + 1) * hi == n * hi + hi;
  }

  lemma DivBounds(sum: int, n: nat, lo: int, hi: int)
    requires n > 0 && n * lo <= sum <= n * hi
    ensures lo <= sum / n <= hi
  {
    var d, r := sum / n, sum % n;
    assert sum == n * d + r;
    Factor(n, lo, d, r);
    Factor(n, d, hi, 0);
  }

  /** A multiple that exceeds another by less than `n` has a factor no smaller. */
  lemma Factor(n: nat, a: int, b: int, r: int)
    requires 0 <= r < n && n * a <= n * b + r
    ensures a <= b
  {
    assert n * a == n * b + n * (a - b);
    if a > b {
      MulAtLeast(n, a - b);
    }
  }

  lemma MulAtLeast(n: nat, k: nat)
    requires k > 0
    ensures n * k >= n
  {
    if k > 1 {
      assert n * k == n * (k - 1) + n;
    }
  }

  lemma DivMonotone(a: int, b: int, n: nat)
    requires n > 0 && a <= b
    ensures a / n <= b / n
  {
    var c, d := a / n, b / n;
    assert a == n * c + a % n && b == n * d + b % n;
    Factor(n, c, d, b % n);
  }

  /** There is an average exactly when there is a tip; it grows with the percentile and lies between
      the smallest and the largest tip. */
  lemma AverageMonotone(chain: seq<BlockFee>, p: real, q: real)
    requires Ordered(chain) && 0.0 <= p <= q <= 100.0
    ensures (Average(chain, p).Some? <==> LatestRange(chain).Some?) && (Average(chain, q).Some? <==> LatestRange(chain).Some?)
    ensures LatestRange(chain).Some? ==>
              LatestRange(chain).value.lo <= Average(chain, p).value <= Average(chain, q).value <= LatestRange(chain).value.hi
  {
    TotalMonotone(chain, p, q);
    var r := LatestRange(chain);
    if r.Some? {
      TotalBounds(chain, p, r.value.lo, r.value.hi);
      TotalBounds(chain, q, r.value.lo, r.value.hi);
      DivBounds(Total(chain, p), Size(chain, p), r.value.lo, r.value.hi);
      DivBounds(Total(chain, q), Size(chain, q), r.value.lo, r.value.hi);
      DivMonotone(Total(chain, p), Total(chain, q), Size(chain, p));
    } else {
      TotalBounds(chain, p, 0, 0);
      TotalBounds(chain, q, 0, 0);
    }
  }
}
