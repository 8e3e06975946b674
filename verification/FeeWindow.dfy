/** Sliding window of the latest blocks' priority fees. */
module FeeWindow {
  import opened Basics
  import opened PriorityFees

  // ---------- the chain of blocks ----------

  ghost predicate ByNumber(chain: seq<BlockFee>) {
    forall i, j :: 0 <= i < j < |chain| ==> chain[i].number <= chain[j].number
  }

  ghost predicate Distinct(chain: seq<BlockFee>) {
    forall i, j :: 0 <= i < j < |chain| ==> chain[i].hash != chain[j].hash
  }

  /** Position of a block, or the length of the chain if it is not there. */
  function IndexOf(chain: seq<BlockFee>, hash: string): (k: nat)
    ensures k <= |chain| && (k < |chain| ==> chain[k].hash == hash)
    ensures k == |chain| ==> forall i :: 0 <= i < |chain| ==> chain[i].hash != hash
  {
    if chain == [] then 0
    else if chain[|chain| - 1].hash == hash then |chain| - 1
    else
      var k := IndexOf(chain[..|chain| - 1], hash);
      if k == |chain| - 1 then |chain| else k
  }

  predicate Has(chain: seq<BlockFee>, hash: string) {
    IndexOf(chain, hash) < |chain|
  }

  function BaseRange(fee: Option<int>): Option<Range> {
    if fee == None then None else Some(Range(fee.value, fee.value))
  }

  /** The tips of every block in the chain lie in `range` and its base fee in `base`. */
  ghost predicate Covers(range: Option<Range>, base: Option<Range>, chain: seq<BlockFee>) {
    forall i :: 0 <= i < |chain| ==> CoversBlock(range, base, chain[i])
  }

  ghost predicate CoversBlock(range: Option<Range>, base: Option<Range>, b: BlockFee) {
    Inside(TipRange(b.tips), range) && Inside(BaseRange(b.baseFee), base)
  }

  /** The map leads from the hash of every block in the chain to it, and holds nothing else. */
  ghost predicate Indexed(chain: seq<BlockFee>, index: map<string, BlockFee>) {
    && (forall i :: 0 <= i < |chain| ==> chain[i].hash in index && index[chain[i].hash] == chain[i])
    && (forall h :: h in index ==> Has(chain, h))
  }

  /** In order of number, without repetition, tips sorted, at most `capacity` blocks. */
  ghost predicate ChainOk(chain: seq<BlockFee>, capacity: nat) {
    ByNumber(chain) && Distinct(chain) && Ordered(chain) && |chain| <= capacity
  }

  /** Place after the last block with a smaller number. */
  function Place(chain: seq<BlockFee>, number: nat): (k: nat)
    ensures k <= |chain| && (k > 0 ==> chain[k - 1].number < number)
    ensures forall i :: k <= i < |chain| ==> chain[i].number >= number
  {
    if chain == [] then 0
    else if chain[|chain| - 1].number < number then |chain|
    else Place(chain[..|chain| - 1], number)
  }

  function Inserted(chain: seq<BlockFee>, b: BlockFee): seq<BlockFee> {
    var k := Place(chain, b.number);
    chain[..k] + [b] + chain[k..]
  }

  /** The latest `capacity` blocks. */
  function Trim(chain: seq<BlockFee>, capacity: nat): seq<BlockFee> {
    if |chain| > capacity then chain[|chain| - capacity..] else chain
  }

  function Pushed(chain: seq<BlockFee>, capacity: nat, b: BlockFee): seq<BlockFee> {
    if Has(chain, b.hash) then chain else Trim(Inserted(chain, b), capacity)
  }

  function Without(chain: seq<BlockFee>, hash: string): seq<BlockFee> {
    var k := IndexOf(chain, hash);
    if k < |chain| then chain[..k] + chain[k + 1..] else chain
  }

  // ---------- what the operations keep ----------

  lemma InsertAt<T>(s: seq<T>, k: nat, x: T, i: nat)
    requires k <= |s| && i <= |s|
    ensures (s[..k] + [x] + s[k..])[i] == if i < k then s[i] else if i == k then x else s[i - 1]
  {
  }

  lemma RemoveAt<T>(s: seq<T>, k: nat, i: nat)
    requires k < |s| && i < |s| - 1
    ensures (s[..k] + s[k + 1..])[i] == if i < k then s[i] else s[i + 1]
  {
  }

  lemma InsertByNumber(chain: seq<BlockFee>, k: nat, b: BlockFee)
    requires ByNumber(chain) && k <= |chain| && (k > 0 ==> chain[k - 1].number < b.number)
    requires forall i :: k <= i < |chain| ==> chain[i].number >= b.number
    ensures ByNumber(chain[..k] + [b] + chain[k..])
  {
    var out := chain[..k] + [b] + chain[k..];
    forall i, j | 0 <= i < j < |out| ensures out[i].number <= out[j].number {
      InsertAt(chain, k, b, i);
      InsertAt(chain, k, b, j);
    }
  }

  lemma InsertDistinct(chain: seq<BlockFee>, k: nat, b: BlockFee)
    requires Distinct(chain) && k <= |chain| && forall i :: 0 <= i < |chain| ==> chain[i].hash != b.hash
    ensures Distinct(chain[..k] + [b] + chain[k..])
  {
    var out := chain[..k] + [b] + chain[k..];
    forall i, j | 0 <= i < j < |out| ensures out[i].hash != out[j].hash {
      InsertAt(chain, k, b, i);
      InsertAt(chain, k, b, j);
    }
  }

  lemma InsertedOk(chain: seq<BlockFee>, b: BlockFee)
    requires ByNumber(chain) && Distinct(chain) && Ordered(chain) && !Has(chain, b.hash) && Sorted(b.tips)
    ensures ByNumber(Inserted(chain, b)) && Distinct(Inserted(chain, b)) && Ordered(Inserted(chain, b))
  {
    InsertByNumber(chain, Place(chain, b.number), b);
    InsertDistinct(chain, Place(chain, b.number), b);
  }

  lemma PushedOk(chain: seq<BlockFee>, capacity: nat, b: BlockFee)
    requires ChainOk(chain, capacity) && Sorted(b.tips)
    ensures ChainOk(Pushed(chain, capacity, b), capacity)
  {
    if !Has(chain, b.hash) {
      InsertedOk(chain, b);
    }
  }

  /** A push of a new block keeps the latest blocks of the old ones and the new one together, in
      order of number: all of them, unless they exceed the capacity. */
  lemma PushedKeepsLatest(chain: seq<BlockFee>, capacity: nat, b: BlockFee) returns (all: seq<BlockFee>)
    requires ByNumber(chain) && !Has(chain, b.hash)
    ensures ByNumber(all) && multiset(all) == multiset(chain) + multiset{b}
    ensures |all| <= capacity ==> Pushed(chain, capacity, b) == all
    ensures |all| > capacity ==> |Pushed(chain, capacity, b)| == capacity && Pushed(chain, capacity, b) == all[|all| - capacity..]
  {
    var k := Place(chain, b.number);
    all := Inserted(chain, b);
    InsertByNumber(chain, k, b);
    InsertContents(chain, k, b);
  }

  lemma InsertContents(chain: seq<BlockFee>, k: nat, b: BlockFee)
    requires k <= |chain|
    ensures multiset(chain[..k] + [b] + chain[k..]) == multiset(chain) + multiset{b}
  {
    assert chain == chain[..k] + chain[k..];
  }

  function HashIsNot(hash: string): BlockFee -> bool {
    (b: BlockFee) => b.hash != hash
  }

  /** A removal keeps exactly the other blocks, in order. */
  lemma WithoutPicks(chain: seq<BlockFee>, hash: string) returns (ps: seq<nat>)
    requires Distinct(chain)
    ensures Picked(chain, HashIsNot(hash), ps, Without(chain, hash))
  {
    var k, out := IndexOf(chain, hash), Without(chain, hash);
    ps := seq(|out|, i requires 0 <= i < |out| => if i < k then i else i + 1);
    forall i | 0 <= i < |ps| ensures ps[i] < |chain| && chain[ps[i]].hash != hash && out[i] == chain[ps[i]] {
      if k < |chain| {
        RemoveAt(chain, k, i);
      }
    }
    forall p | 0 <= p < |chain| && chain[p].hash != hash ensures p in ps {
      assert ps[if p < k then p else p - 1] == p;
    }
  }

  lemma RemovedOk(chain: seq<BlockFee>, k: nat)
    requires ByNumber(chain) && Distinct(chain) && k < |chain|
    ensures ByNumber(chain[..k] + chain[k + 1..]) && Distinct(chain[..k] + chain[k + 1..])
    ensures !Has(chain[..k] + chain[k + 1..], chain[k].hash)
  {
    var out := chain[..k] + chain[k + 1..];
    forall i | 0 <= i < |out| ensures out[i].hash != chain[k].hash {
      RemoveAt(chain, k, i);
    }
    forall i, j | 0 <= i < j < |out| ensures out[i].number <= out[j].number && out[i].hash != out[j].hash {
      RemoveAt(chain, k, i);
      RemoveAt(chain, k, j);
    }
  }

  lemma WithoutOk(chain: seq<BlockFee>, capacity: nat, hash: string)
    requires ChainOk(chain, capacity)
    ensures ChainOk(Without(chain, hash), capacity) && !Has(Without(chain, hash), hash)
  {
    if Has(chain, hash) {
      RemovedOk(chain, IndexOf(chain, hash));
    }
  }

  lemma HasAt(chain: seq<BlockFee>, i: nat)
    requires i < |chain|
    ensures Has(chain, chain[i].hash)
  {
  }

  lemma IndexedInsert(chain: seq<BlockFee>, index: map<string, BlockFee>, k: nat, b: BlockFee)
    requires Indexed(chain, index) && k <= |chain| && !Has(chain, b.hash)
    ensures Indexed(chain[..k] + [b] + chain[k..], index[b.hash := b])
  {
    var out, index' := chain[..k] + [b] + chain[k..], index[b.hash := b];
    forall i | 0 <= i < |out| ensures out[i].hash in index' && index'[out[i].hash] == out[i] {
      InsertAt(chain, k, b, i);
    }
    forall h | h in index' ensures Has(out, h) {
      if h == b.hash {
        HasAt(out, k);
      } else {
        var i := IndexOf(chain, h);
        InsertAt(chain, k, b, if i < k then i else i + 1);
        HasAt(out, if i < k then i else i + 1);
      }
    }
  }

  lemma StillHas(chain: seq<BlockFee>, k: nat, h: string)
    requires k < |chain| && Has(chain, h) && h != chain[k].hash
    ensures Has(chain[..k] + chain[k + 1..], h)
  {
    var i := IndexOf(chain, h);
    RemoveAt(chain, k, if i < k then i else i - 1);
    HasAt(chain[..k] + chain[k + 1..], if i < k then i else i - 1);
  }

  lemma IndexedRemove(chain: seq<BlockFee>, index: map<string, BlockFee>, k: nat)
    requires Indexed(chain, index) && Distinct(chain) && k < |chain|
    ensures Indexed(chain[..k] + chain[k + 1..], index - {chain[k].hash})
  {
    var out, index' := chain[..k] + chain[k + 1..], index - {chain[k].hash};
    forall i | 0 <= i < |out| ensures out[i].hash in index' && index'[out[i].hash] == out[i] {
      RemoveAt(chain, k, i);
    }
    forall h | h in index' ensures Has(out, h) {
      StillHas(chain, k, h);
    }
  }

  lemma IndexedWithout(chain: seq<BlockFee>, index: map<string, BlockFee>, hash: string)
    requires Indexed(chain, index) && Distinct(chain)
    ensures if hash in index then Indexed(Without(chain, hash), index - {hash}) else Without(chain, hash) == chain
  {
    if hash in index {
      IndexedRemove(chain, index, IndexOf(chain, hash));
    }
  }

  lemma DropFirst<T>(s: seq<T>)
    requires s != []
    ensures s[..0] + s[1..] == s[1..]
  {
  }

  lemma DistinctTail(chain: seq<BlockFee>)
    requires Distinct(chain) && chain != []
    ensures Distinct(chain[1..])
  {
  }

  lemma IndexedTail(chain: seq<BlockFee>, index: map<string, BlockFee>)
    requires Indexed(chain, index) && Distinct(chain) && chain != []
    ensures Indexed(chain[1..], index - {chain[0].hash})
  {
    IndexedRemove(chain, index, 0);
    DropFirst(chain);
  }

  lemma TrimTail(chain: seq<BlockFee>, n: nat)
    requires 0 < n <= |chain|
    ensures Trim(chain, n)[1..] == Trim(chain, n - 1)
  {
  }

  lemma CoversTrim(range: Option<Range>, base: Option<Range>, chain: seq<BlockFee>, capacity: nat)
    requires Covers(range, base, chain)
    ensures Covers(range, base, Trim(chain, capacity))
  {
  }

  lemma CoversWithout(range: Option<Range>, base: Option<Range>, chain: seq<BlockFee>, hash: string)
    requires Covers(range, base, chain)
    ensures Covers(range, base, Without(chain, hash))
  {
  }

  lemma CoversInserted(range: Option<Range>, base: Option<Range>, chain: seq<BlockFee>, b: BlockFee)
    requires Covers(range, base, chain)
    ensures Covers(Join(range, TipRange(b.tips)), Join(base, BaseRange(b.baseFee)), Inserted(chain, b))
  {
    forall i | 0 <= i < |Inserted(chain, b)|
      ensures CoversBlock(Join(range, TipRange(b.tips)), Join(base, BaseRange(b.baseFee)), Inserted(chain, b)[i])
    {
      InsertAt(chain, Place(chain, b.number), b, i);
      JoinCovers(range, base, b, Inserted(chain, b)[i]);
    }
  }

  lemma JoinCovers(range: Option<Range>, base: Option<Range>, b: BlockFee, x: BlockFee)
    requires x == b || CoversBlock(range, base, x)
    ensures CoversBlock(Join(range, TipRange(b.tips)), Join(base, BaseRange(b.baseFee)), x)
  {
  }

  ghost predicate InRange(x: int, range: Option<Range>) {
    range.Some? && range.value.lo <= x <= range.value.hi
  }

  /** A block widens the historical ranges no more than needed: a range holds the new one if and only
      if it holds the former one and all tips, or the base fee, of the block. */
  lemma HistoryIsLeast(range: Option<Range>, base: Option<Range>, b: BlockFee, r: Option<Range>)
    requires Sorted(b.tips)
    ensures Inside(Join(range, TipRange(b.tips)), r)
            <==> Inside(range, r) && forall i :: 0 <= i < |b.tips| ==> InRange(b.tips[i], r)
    ensures Inside(Join(base, BaseRange(b.baseFee)), r)
            <==> Inside(base, r) && (b.baseFee.Some? ==> InRange(b.baseFee.value, r))
  {
    if b.tips != [] && InRange(b.tips[0], r) && InRange(b.tips[|b.tips| - 1], r) {
      assert forall i :: 0 <= i < |b.tips| ==> b.tips[0] <= b.tips[i] <= b.tips[|b.tips| - 1];
    }
  }

  /** The tips of a chain lie in any range that covers its blocks. */
  lemma {:induction false} CoversLatest(range: Option<Range>, base: Option<Range>, chain: seq<BlockFee>)
    requires Covers(range, base, chain)
    ensures Inside(LatestRange(chain), range)
  {
    if chain != [] {
      CoversLatest(range, base, chain[..|chain| - 1]);
    }
  }

  ghost predicate WindowOk(chain: seq<BlockFee>, index: map<string, BlockFee>, range: Option<Range>, base: Option<Range>,
                           capacity: nat)
  {
    ChainOk(chain, capacity) && Indexed(chain, index) && Covers(range, base, chain)
  }

  lemma WindowWithout(chain: seq<BlockFee>, index: map<string, BlockFee>, range: Option<Range>, base: Option<Range>,
                      capacity: nat, hash: string)
    requires WindowOk(chain, index, range, base, capacity)
    ensures if hash in index then WindowOk(Without(chain, hash), index - {hash}, range, base, capacity)
            else Without(chain, hash) == chain
  {
    WithoutOk(chain, capacity, hash);
    CoversWithout(range, base, chain, hash);
    IndexedWithout(chain, index, hash);
  }

  class PriorityFeeWindow {
    var feeChain: seq<BlockFee>
    var hashToFee: map<string, BlockFee>
    var baseFees: Option<Range>
    var priorityFees: Option<Range>
    const capacity: nat

    ghost predicate Valid()
      reads this
    {
      WindowOk(feeChain, hashToFee, priorityFees, baseFees, capacity)
    }

    constructor (capacity: nat)
      ensures Valid() && feeChain == [] && this.capacity == capacity
    {
      feeChain, hashToFee, baseFees, priorityFees := [], map[], None, None;
      this.capacity := capacity;
    }

    method Remove(hash: string)
      requires Valid()
      modifies `feeChain, `hashToFee
      ensures Valid() && feeChain == Without(old(feeChain), hash)
    {
      WindowWithout(feeChain, hashToFee, priorityFees, baseFees, capacity, hash);
      if hash in hashToFee {
        feeChain, hashToFee := Without(feeChain, hash), hashToFee - {hash};
      }
    }

    /** Adds a block unless it is there, in order of number, and drops the oldest over capacity. */
    method Push(b: BlockFee)
      requires Valid() && Sorted(b.tips)
      modifies this
      ensures Valid() && feeChain == Pushed(old(feeChain), capacity, b)
      ensures priorityFees == if Has(old(feeChain), b.hash) then old(priorityFees) else Join(old(priorityFees), TipRange(b.tips))
      ensures baseFees == if Has(old(feeChain), b.hash) then old(baseFees) else Join(old(baseFees), BaseRange(b.baseFee))
      ensures Inside(old(priorityFees), priorityFees) && Inside(old(baseFees), baseFees)
    {
      if b.hash in hashToFee {
        return;
      }
      PushedOk(feeChain, capacity, b);
      CoversInserted(priorityFees, baseFees, feeChain, b);
      CoversTrim(Join(priorityFees, TipRange(b.tips)), Join(baseFees, BaseRange(b.baseFee)), Inserted(feeChain, b),
                 capacity);
      InsertedOk(feeChain, b);
      InsertBlock(b);
      baseFees := WidenBase(baseFees, b.baseFee);
      priorityFees := Widen(priorityFees, b.tips);
      Prune();
    }

    method InsertBlock(b: BlockFee)
      requires ByNumber(feeChain) && Indexed(feeChain, hashToFee) && !Has(feeChain, b.hash)
      modifies `feeChain, `hashToFee
      ensures feeChain == Inserted(old(feeChain), b) && Indexed(feeChain, hashToFee)
    {
      var k := FindPlace(b.number);
      IndexedInsert(feeChain, hashToFee, k, b);
      feeChain := feeChain[..k] + [b] + feeChain[k..];
      hashToFee := hashToFee[b.hash := b];
    }

    /** Walks back from the latest block. */
    method FindPlace(number: nat) returns (k: nat)
      requires ByNumber(feeChain)
      ensures k == Place(feeChain, number)
    {
      k := |feeChain|;
      while k > 0 && feeChain[k - 1].number >= number
        invariant k <= |feeChain|
        invariant forall i :: k <= i < |feeChain| ==> feeChain[i].number >= number
      {
        k := k - 1;
      }
    }

    method Prune()
      requires Distinct(feeChain) && Indexed(feeChain, hashToFee)
      modifies `feeChain, `hashToFee
      ensures feeChain == Trim(old(feeChain), capacity) && Indexed(feeChain, hashToFee)
    {
      ghost var was := feeChain;
      while |feeChain| > capacity
        invariant |feeChain| <= |was| && feeChain == Trim(was, |feeChain|)
        invariant if |was| > capacity then |feeChain| >= capacity else feeChain == was
        invariant Distinct(feeChain) && Indexed(feeChain, hashToFee)
      {
        IndexedTail(feeChain, hashToFee);
        DistinctTail(feeChain);
        TrimTail(was, |feeChain|);
        hashToFee := hashToFee - {feeChain[0].hash};
        feeChain := feeChain[1..];
      }
    }

    method CalculateAvgPriorityFee(p: real) returns (fee: Option<int>)
      ensures fee == Average(feeChain, p)
    {
      var total, size := 0, 0;
      var i := 0;
      while i < |feeChain|
        invariant 0 <= i <= |feeChain|
        invariant total == Total(feeChain[..i], p) && size == Size(feeChain[..i], p)
      {
        assert feeChain[..i + 1][..i] == feeChain[..i];
        var v := Percentile(feeChain[i].tips, p);
        if v.Some? {
          total := total + v.value;
          size := size + 1;
        }
        i := i + 1;
      }
      assert feeChain[..i] == feeChain;
      fee := if size != 0 then Some(total / size) else None;
    }

    /** One average per percentile, or none at all. For percentiles in order the averages are in
        order, within the range of the tips in the window, which is within the historical range. */
    method CalculateAvgPriorityFees(percentiles: seq<real>) returns (fees: Option<seq<int>>)
      requires Valid()
      ensures fees.Some? ==> |fees.value| == |percentiles|
                             && forall k :: 0 <= k < |percentiles| ==> Average(feeChain, percentiles[k]) == Some(fees.value[k])
      ensures fees == None <==> percentiles == [] || exists k :: 0 <= k < |percentiles| && Average(feeChain, percentiles[k]) == None
      ensures Inside(LatestRange(feeChain), priorityFees)
      ensures Ascending(percentiles) ==>
                && (fees.Some? <==> percentiles != [] && LatestRange(feeChain).Some?)
                && (fees.Some? ==>
                      && (forall k, l :: 0 <= k < l < |percentiles| ==> fees.value[k] <= fees.value[l])
                      && (forall k :: 0 <= k < |percentiles| ==>
                                        LatestRange(feeChain).Some?
                                        && LatestRange(feeChain).value.lo <= fees.value[k] <= LatestRange(feeChain).value.hi))
    {
      CoversLatest(priorityFees, baseFees, feeChain);
      if percentiles == [] {
        return None;
      }
      var res: seq<int> := [];
      for i := 0 to |percentiles|
        invariant |res| == i
        invariant forall k :: 0 <= k < i ==> Average(feeChain, percentiles[k]) == Some(res[k])
      {
        var fee := CalculateAvgPriorityFee(percentiles[i]);
        if fee == None {
          if Ascending(percentiles) {
            AverageMonotone(feeChain, percentiles[i], percentiles[i]);
          }
          return None;
        }
        res := res + [fee.value];
      }
      fees := Some(res);
      if Ascending(percentiles) {
        AverageMonotone(feeChain, percentiles[0], percentiles[0]);
        forall k, l | 0 <= k <= l < |percentiles|
          ensures LatestRange(feeChain).Some?
          ensures LatestRange(feeChain).value.lo <= res[k] <= res[l] <= LatestRange(feeChain).value.hi
        {
          AverageMonotone(feeChain, percentiles[k], percentiles[l]);
        }
      }
    }

    method CalculateLatestPriorityFeeRange() returns (range: Option<Range>)
      requires Valid()
      ensures range == LatestRange(feeChain) && Inside(range, priorityFees)
    {
      CoversLatest(priorityFees, baseFees, feeChain);
      range := RangeOf(feeChain);
    }
  }

  lemma LatestRangeNext(chain: seq<BlockFee>, i: nat)
    requires i < |chain|
    ensures LatestRange(chain[..i + 1]) == Join(LatestRange(chain[..i]), TipRange(chain[i].tips))
  {
    assert chain[..i + 1][..i] == chain[..i];
  }

  method RangeOf(chain: seq<BlockFee>) returns (range: Option<Range>)
    ensures range == LatestRange(chain)
  {
    range := None;
    for i := 0 to |chain|
      invariant range == LatestRange(chain[..i])
    {
      LatestRangeNext(chain, i);
      range := Widen(range, chain[i].tips);
    }
    assert chain[..|chain|] == chain;
  }

  method WidenBase(range: Option<Range>, fee: Option<int>) returns (wider: Option<Range>)
    ensures wider == Join(range, BaseRange(fee)) && Inside(range, wider) && Inside(BaseRange(fee), wider)
  {
    wider := range;
    if fee.Some? {
      if wider == None {
        return Some(Range(fee.value, fee.value));
      }
      if fee.value < wider.value.lo {
        wider := Some(Range(fee.value, wider.value.hi));
      }
      if fee.value > wider.value.hi {
        wider := Some(Range(wider.value.lo, fee.value));
      }
    }
  }

  method Widen(range: Option<Range>, tips: seq<int>) returns (wider: Option<Range>)
    ensures wider == Join(range, TipRange(tips)) && Inside(range, wider) && (Sorted(tips) ==> Inside(TipRange(tips), wider))
  {
    wider := range;
    if tips != [] {
      if wider == None {
        return Some(Range(tips[0], tips[|tips| - 1]));
      }
      if tips[0] < wider.value.lo {
        wider := Some(Range(tips[0], wider.value.hi));
      }
      if tips[|tips| - 1] > wider.value.hi {
        wider := Some(Range(wider.value.lo, tips[|tips| - 1]));
      }
    }
  }

  ghost predicate Ascending(percentiles: seq<real>) {
    && (forall k :: 0 <= k < |percentiles| ==> 0.0 <= percentiles[k] <= 100.0)
    && forall k, l :: 0 <= k < l < |percentiles| ==> percentiles[k] <= percentiles[l]
  }
}
