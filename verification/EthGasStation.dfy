/** Synchronization of the fee window with a node's chain, block by block, with one block taken
    back at a time when the chain is found to have been reorganized.
 */
module EthGasStation {
  import opened Basics
  import opened PriorityFees
  import opened FeeWindow

  const ZERO_HASH: string := ""

  /** At most this many block hashes are kept. */
  const MAX_HASHES := 100

  datatype Block = Block(number: nat, hash: string, parent: string, gasLimit: nat, baseFee: Option<int>, tips: seq<int>)

  /** What a node answers: its latest block number, then the block asked for. */
  datatype Answer = NoNumber | NoBlock(latest: nat) | Answer(latest: nat, block: Block)

  /** `live` are all blocks accepted and not taken back, in order. */
  datatype State = State(fromBlock: nat, hashes: seq<string>, chain: seq<BlockFee>, live: seq<Block>)

  // ---------- one round ----------

  function FeeOf(b: Block): BlockFee {
    BlockFee(b.number, b.hash, b.baseFee, SortTips(b.tips))
  }

  function LastHash(hashes: seq<string>): string {
    if hashes == [] then ZERO_HASH else hashes[|hashes| - 1]
  }

  function Keep<T>(s: seq<T>): seq<T> {
    if |s| > MAX_HASHES then s[|s| - MAX_HASHES..] else s
  }

  /** The block does not continue the list. */
  predicate Reorged(hashes: seq<string>, b: Block) {
    LastHash(hashes) != ZERO_HASH && LastHash(hashes) != b.parent
  }

  ghost predicate AnswersUp(s: State, a: Answer) {
    a.Answer? && s.fromBlock <= a.latest
  }

  ghost function TakeBack(s: State): State
    requires s.hashes != [] && s.live != [] && s.fromBlock > 0
  {
    State(s.fromBlock - 1, s.hashes[..|s.hashes| - 1], Without(s.chain, LastHash(s.hashes)), s.live[..|s.live| - 1])
  }

  ghost function Accept(s: State, b: Block, capacity: nat): State {
    State(s.fromBlock + 1, Keep(s.hashes + [b.hash]),
          if b.gasLimit == 0 then s.chain else Pushed(s.chain, capacity, FeeOf(b)), s.live + [b])
  }

  ghost function Round(s: State, a: Answer, capacity: nat): State {
    if !AnswersUp(s, a) then s
    else if Reorged(s.hashes, a.block) then
      if s.hashes != [] && s.live != [] && s.fromBlock > 0 then TakeBack(s) else s
    else Accept(s, a.block, capacity)
  }

  // ---------- invariant ----------

  /** The block `d` places from the end, with its number. */
  ghost predicate NumberedAt(live: seq<Block>, fromBlock: nat, d: nat) {
    1 <= d <= |live| && d <= fromBlock && live[|live| - d].number == fromBlock - d
  }

  /** Its predecessor is its parent. */
  ghost predicate LinkedAt(live: seq<Block>, d: nat) {
    1 <= d < |live| && live[|live| - d].parent == live[|live| - d - 1].hash
  }

  /** The live blocks have the numbers up to `fromBlock` - 1 and different hashes. */
  ghost predicate Numbered(live: seq<Block>, fromBlock: nat) {
    && |live| <= fromBlock
    && (forall d: nat :: 1 <= d <= |live| ==> NumberedAt(live, fromBlock, d))
    && (forall i, j :: 0 <= i < j < |live| ==> live[i].hash != live[j].hash)
  }

  /** The same block is `d` places from the end of the list and of the live blocks. */
  ghost predicate ListedAt(hashes: seq<string>, live: seq<Block>, d: nat) {
    1 <= d <= |hashes| <= |live| && hashes[|hashes| - d] == live[|live| - d].hash != ZERO_HASH
  }

  /** The list holds the hashes of the last live blocks, each the parent of the next. */
  ghost predicate Listed(hashes: seq<string>, live: seq<Block>) {
    && |hashes| <= MAX_HASHES && |hashes| <= |live|
    && (forall d: nat :: 1 <= d <= |hashes| ==> ListedAt(hashes, live, d))
    && (forall d: nat :: 1 <= d < |hashes| ==> LinkedAt(live, d))
  }

  /** The live blocks that go into the window. */
  ghost function Fees(live: seq<Block>): seq<BlockFee> {
    if live == [] then []
    else if live[|live| - 1].gasLimit == 0 then Fees(live[..|live| - 1])
    else Fees(live[..|live| - 1]) + [FeeOf(live[|live| - 1])]
  }

  ghost predicate EndsWith(s: seq<BlockFee>, tail: seq<BlockFee>) {
    |tail| <= |s| && s[|s| - |tail|..] == tail
  }

  /** The window holds the last live blocks with a gas limit, at most `capacity`. */
  ghost predicate Inv(s: State, capacity: nat) {
    Numbered(s.live, s.fromBlock) && Listed(s.hashes, s.live) && EndsWith(Fees(s.live), s.chain) && |s.chain| <= capacity
  }

  /** A node answers with the block it is asked for, blocks have hashes, and different blocks
      have different hashes. */
  ghost predicate Honest(s: State, a: Answer) {
    AnswersUp(s, a) ==>
      && a.block.number == s.fromBlock && a.block.hash != ZERO_HASH
      && forall i :: 0 <= i < |s.live| ==> (s.live[i].hash == a.block.hash ==> s.live[i] == a.block)
  }

  // ---------- what a round keeps ----------

  lemma FreshHash(live: seq<Block>, fromBlock: nat, b: Block)
    requires Numbered(live, fromBlock) && b.number == fromBlock
    requires forall i :: 0 <= i < |live| ==> (live[i].hash == b.hash ==> live[i] == b)
    ensures forall i :: 0 <= i < |live| ==> live[i].hash != b.hash
  {
    forall i | 0 <= i < |live| ensures live[i].hash != b.hash {
      assert NumberedAt(live, fromBlock, |live| - i);
    }
  }

  lemma NumberedPush(live: seq<Block>, fromBlock: nat, b: Block)
    requires Numbered(live, fromBlock) && b.number == fromBlock
    requires forall i :: 0 <= i < |live| ==> live[i].hash != b.hash
    ensures Numbered(live + [b], fromBlock + 1)
  {
    var out, next := live + [b], fromBlock + 1;
    forall d: nat | 1 <= d <= |out| ensures NumberedAt(out, next, d) {
      assert d > 1 ==> NumberedAt(live, fromBlock, d - 1);
    }
  }

  lemma NumberedPop(live: seq<Block>, fromBlock: nat)
    requires Numbered(live, fromBlock) && live != []
    ensures fromBlock > 0 && Numbered(live[..|live| - 1], fromBlock - 1)
  {
    var out, next := live[..|live| - 1], fromBlock - 1;
    forall d: nat | 1 <= d <= |out| ensures NumberedAt(out, next, d) {
      assert NumberedAt(live, fromBlock, d + 1);
    }
  }

  lemma LinkedPush(live: seq<Block>, b: Block, d: nat)
    requires if d > 1 then LinkedAt(live, d - 1) else d == 1 && live != [] && b.parent == live[|live| - 1].hash
    ensures LinkedAt(live + [b], d)
  {
  }

  lemma LinkedPop(live: seq<Block>, d: nat)
    requires LinkedAt(live, d + 1) && d >= 1
    ensures LinkedAt(live[..|live| - 1], d)
  {
  }

  lemma ListedPush(hashes: seq<string>, live: seq<Block>, b: Block)
    requires Listed(hashes, live) && !Reorged(hashes, b) && b.hash != ZERO_HASH
    ensures Listed(Keep(hashes + [b.hash]), live + [b])
  {
    var out, next := Keep(hashes + [b.hash]), live + [b];
    assert hashes != [] ==> ListedAt(hashes, live, 1);
    forall d: nat | 1 <= d <= |out| ensures ListedAt(out, next, d) {
      assert d > 1 ==> ListedAt(hashes, live, d - 1);
    }
    forall d: nat | 1 <= d < |out| ensures LinkedAt(next, d) {
      LinkedPush(live, b, d);
    }
  }

  lemma ListedPop(hashes: seq<string>, live: seq<Block>)
    requires Listed(hashes, live) && hashes != []
    ensures Listed(hashes[..|hashes| - 1], live[..|live| - 1])
  {
    var out, next := hashes[..|hashes| - 1], live[..|live| - 1];
    forall d: nat | 1 <= d <= |out| ensures ListedAt(out, next, d) {
      assert ListedAt(hashes, live, d + 1);
    }
    forall d: nat | 1 <= d < |out| ensures LinkedAt(next, d) {
      LinkedPop(live, d);
    }
  }

  /** A block of the window is a live one with a gas limit. */
  lemma {:induction false} FeesAreLive(live: seq<Block>, k: nat) returns (i: nat)
    requires k < |Fees(live)|
    ensures i < |live| && live[i].gasLimit > 0 && Fees(live)[k] == FeeOf(live[i])
    decreases |live|
  {
    var init := live[..|live| - 1];
    if live[|live| - 1].gasLimit == 0 || k < |Fees(init)| {
      i := FeesAreLive(init, k);
    } else {
      i := |live| - 1;
    }
  }

  lemma FeesPush(live: seq<Block>, b: Block)
    ensures Fees(live + [b]) == if b.gasLimit == 0 then Fees(live) else Fees(live) + [FeeOf(b)]
  {
    assert (live + [b])[..|live|] == live;
  }

  /** A block newer than those of the chain goes to its end. */
  lemma PushedAtEnd(chain: seq<BlockFee>, capacity: nat, b: BlockFee)
    requires forall j :: 0 <= j < |chain| ==> chain[j].hash != b.hash && chain[j].number < b.number
    ensures Pushed(chain, capacity, b) == Trim(chain + [b], capacity)
  {
    assert chain[..|chain|] + [b] + chain[|chain|..] == chain + [b];
  }

  /** Every block of the window is older than the next one, and another block. */
  lemma WindowBefore(s: State, capacity: nat, hash: string, k: nat)
    requires Inv(s, capacity) && k < |s.chain|
    requires forall i :: 0 <= i < |s.live| ==> s.live[i].hash != hash
    ensures s.chain[k].hash != hash && s.chain[k].number < s.fromBlock
  {
    var i := FeesAreLive(s.live, |Fees(s.live)| - |s.chain| + k);
    assert NumberedAt(s.live, s.fromBlock, |s.live| - i);
  }

  lemma AcceptWindow(s: State, b: Block, capacity: nat)
    requires Inv(s, capacity) && b.number == s.fromBlock
    requires forall i :: 0 <= i < |s.live| ==> s.live[i].hash != b.hash
    ensures Accept(s, b, capacity).chain == if b.gasLimit == 0 then s.chain else Trim(s.chain + [FeeOf(b)], capacity)
  {
    forall k | 0 <= k < |s.chain| ensures s.chain[k].hash != b.hash && s.chain[k].number < b.number {
      WindowBefore(s, capacity, b.hash, k);
    }
    PushedAtEnd(s.chain, capacity, FeeOf(b));
  }

  lemma EndsWithPush(fees: seq<BlockFee>, chain: seq<BlockFee>, f: BlockFee, capacity: nat)
    requires EndsWith(fees, chain)
    ensures EndsWith(fees + [f], Trim(chain + [f], capacity))
  {
    assert (fees + [f])[|fees| - |chain|..] == chain + [f];
  }

  lemma AcceptEnds(s: State, b: Block, capacity: nat)
    requires Inv(s, capacity) && b.number == s.fromBlock
    requires forall i :: 0 <= i < |s.live| ==> s.live[i].hash != b.hash
    ensures EndsWith(Fees(s.live + [b]), Accept(s, b, capacity).chain) && |Accept(s, b, capacity).chain| <= capacity
  {
    AcceptWindow(s, b, capacity);
    FeesPush(s.live, b);
    EndsWithPush(Fees(s.live), s.chain, FeeOf(b), capacity);
  }

  lemma AcceptKeeps(s: State, b: Block, capacity: nat)
    requires Inv(s, capacity) && b.number == s.fromBlock && b.hash != ZERO_HASH && !Reorged(s.hashes, b)
    requires forall i :: 0 <= i < |s.live| ==> s.live[i].hash != b.hash
    ensures Inv(Accept(s, b, capacity), capacity)
  {
    NumberedPush(s.live, s.fromBlock, b);
    ListedPush(s.hashes, s.live, b);
    AcceptEnds(s, b, capacity);
  }

  lemma LastIsFound(chain: seq<BlockFee>, hash: string)
    requires chain != [] && chain[|chain| - 1].hash == hash
    ensures Without(chain, hash) == chain[..|chain| - 1]
  {
  }

  /** The window loses the block that is taken back, if it was there, and nothing else. */
  lemma TakeBackWindow(s: State, capacity: nat)
    requires Inv(s, capacity) && s.hashes != []
    ensures s.live != [] && s.fromBlock > 0
    ensures var last := s.live[|s.live| - 1];
            TakeBack(s).chain == if last.gasLimit == 0 || s.chain == [] then s.chain else s.chain[..|s.chain| - 1]
  {
    assert ListedAt(s.hashes, s.live, 1);
    var last, n := s.live[|s.live| - 1], |s.chain|;
    if last.gasLimit > 0 && n > 0 {
      assert s.chain[n - 1] == Fees(s.live)[|Fees(s.live)| - 1] == FeeOf(last);
      LastIsFound(s.chain, last.hash);
    } else {
      forall k | 0 <= k < n ensures s.chain[k].hash != last.hash {
        var i := FeesAreLive(s.live, |Fees(s.live)| - n + k);
      }
    }
  }

  lemma TakeBackEnds(s: State, capacity: nat)
    requires Inv(s, capacity) && s.hashes != [] && s.live != [] && s.fromBlock > 0
    ensures EndsWith(Fees(s.live[..|s.live| - 1]), TakeBack(s).chain) && |TakeBack(s).chain| <= capacity
  {
    TakeBackWindow(s, capacity);
    EndsWithPop(s.live, s.chain);
  }

  lemma {:induction false} EndsWithPop(live: seq<Block>, chain: seq<BlockFee>)
    requires live != [] && EndsWith(Fees(live), chain)
    ensures EndsWith(Fees(live[..|live| - 1]),
                     if live[|live| - 1].gasLimit == 0 || chain == [] then chain else chain[..|chain| - 1])
  {
    var fees, rest := Fees(live), Fees(live[..|live| - 1]);
    if live[|live| - 1].gasLimit > 0 {
      assert rest == fees[..|fees| - 1];
    }
  }

  lemma TakeBackKeeps(s: State, capacity: nat)
    requires Inv(s, capacity) && s.hashes != []
    ensures s.live != [] && s.fromBlock > 0 && Inv(TakeBack(s), capacity)
  {
    NumberedPop(s.live, s.fromBlock);
    ListedPop(s.hashes, s.live);
    TakeBackEnds(s, capacity);
  }

  /** A round keeps the invariant, whatever the gas limits and the capacity. */
  lemma RoundKeeps(s: State, a: Answer, capacity: nat)
    requires Inv(s, capacity) && Honest(s, a)
    ensures Inv(Round(s, a, capacity), capacity)
  {
    if AnswersUp(s, a) {
      if Reorged(s.hashes, a.block) {
        TakeBackKeeps(s, capacity);
      } else {
        FreshHash(s.live, s.fromBlock, a.block);
        AcceptKeeps(s, a.block, capacity);
      }
    }
  }

  // ---------- every run ----------

  ghost function Run(start: nat, answers: seq<Answer>, capacity: nat): State {
    if answers == [] then State(start, [], [], [])
    else Round(Run(start, answers[..|answers| - 1], capacity), answers[|answers| - 1], capacity)
  }

  ghost predicate AllHonest(start: nat, answers: seq<Answer>, capacity: nat) {
    answers == [] || (AllHonest(start, answers[..|answers| - 1], capacity)
                      && Honest(Run(start, answers[..|answers| - 1], capacity), answers[|answers| - 1]))
  }

  /** In every reachable state the hash list is that of the last live blocks, each the parent of
      the next, and the window holds the last live blocks with a gas limit: no block that was
      taken back is left in it. */
  lemma {:induction false} EveryRun(start: nat, answers: seq<Answer>, capacity: nat)
    requires AllHonest(start, answers, capacity)
    ensures Inv(Run(start, answers, capacity), capacity)
  {
    if answers != [] {
      EveryRun(start, answers[..|answers| - 1], capacity);
      RoundKeeps(Run(start, answers[..|answers| - 1], capacity), answers[|answers| - 1], capacity);
    }
  }

  /** Every block of the window shows a live one: its number, hash and base fee, and all its tips in
      ascending order. */
  lemma WindowShowsLive(start: nat, answers: seq<Answer>, capacity: nat, k: nat) returns (i: nat)
    requires AllHonest(start, answers, capacity) && k < |Run(start, answers, capacity).chain|
    ensures var s := Run(start, answers, capacity);
            && i < |s.live| && s.live[i].gasLimit > 0
            && s.chain[k].number == s.live[i].number && s.chain[k].hash == s.live[i].hash
            && s.chain[k].baseFee == s.live[i].baseFee
            && Sorted(s.chain[k].tips) && multiset(s.chain[k].tips) == multiset(s.live[i].tips)
  {
    EveryRun(start, answers, capacity);
    var s := Run(start, answers, capacity);
    i := FeesAreLive(s.live, |Fees(s.live)| - |s.chain| + k);
    SortTipsOk(s.live[i].tips);
  }

  // ---------- blocks of the window that are no longer on the chain ----------

  /** Every live block newer than the oldest of the window has its predecessor as parent: the
      window's blocks are on one chain that ends in the last block. */
  ghost predicate Connected(s: State) {
    s.chain != [] ==> forall d: nat :: 1 <= d < |s.live| && s.chain[0].number + d < s.fromBlock ==> LinkedAt(s.live, d)
  }

  /** The list is used up but the window is not, and the next block is not a child of the last
      one: with no hash left to compare, it is accepted. */
  ghost predicate Strands(s: State, a: Answer, capacity: nat) {
    && AnswersUp(s, a) && s.hashes == [] && s.chain != [] && s.live != []
    && a.block.parent != s.live[|s.live| - 1].hash
    && (a.block.gasLimit == 0 || capacity >= 2)
  }

  lemma {:induction false} FeesAscend(live: seq<Block>, fromBlock: nat, k: nat, l: nat)
    requires Numbered(live, fromBlock) && k < l < |Fees(live)|
    ensures Fees(live)[k].number < Fees(live)[l].number
    decreases |live|
  {
    var init := live[..|live| - 1];
    NumberedPop(live, fromBlock);
    if l < |Fees(init)| {
      FeesAscend(init, fromBlock - 1, k, l);
    } else {
      var i := FeesAreLive(init, k);
      assert NumberedAt(init, fromBlock - 1, |init| - i);
      assert NumberedAt(live, fromBlock, 1);
    }
  }

  lemma WindowAscends(s: State, capacity: nat, k: nat)
    requires Inv(s, capacity) && k < |s.chain|
    ensures s.chain[0].number <= s.chain[k].number
  {
    var n := |Fees(s.live)| - |s.chain|;
    if k > 0 {
      FeesAscend(s.live, s.fromBlock, n, n + k);
    }
  }

  lemma OldestKept(chain: seq<BlockFee>, f: BlockFee, capacity: nat)
    requires chain != [] && 2 <= capacity && |chain| <= capacity
    ensures Trim(chain + [f], capacity)[0] == chain[if |chain| < capacity then 0 else |chain| + 1 - capacity]
  {
  }

  lemma OldestReplaced(chain: seq<BlockFee>, f: BlockFee, capacity: nat)
    requires |chain| <= capacity && (chain == [] || capacity < 2)
    ensures var out := Trim(chain + [f], capacity); out == [] || out[0] == f
  {
  }

  /** After a block is accepted, the oldest block of the window is the new block, or an old one
      not older than the oldest before. */
  lemma OldestAfter(s: State, b: Block, capacity: nat)
    requires Inv(s, capacity) && b.number == s.fromBlock
    requires forall i :: 0 <= i < |s.live| ==> s.live[i].hash != b.hash
    ensures var out := Accept(s, b, capacity).chain;
            out != [] ==>
              if s.chain != [] && (b.gasLimit == 0 || capacity >= 2) then s.chain[0].number <= out[0].number < s.fromBlock
              else out[0].number == s.fromBlock
  {
    AcceptWindow(s, b, capacity);
    if s.chain != [] && (b.gasLimit == 0 || capacity >= 2) {
      var k := if b.gasLimit == 0 || |s.chain| < capacity then 0 else |s.chain| + 1 - capacity;
      if b.gasLimit > 0 {
        OldestKept(s.chain, FeeOf(b), capacity);
      }
      WindowAscends(s, capacity, k);
      WindowBefore(s, capacity, b.hash, k);
    } else if b.gasLimit > 0 {
      OldestReplaced(s.chain, FeeOf(b), capacity);
    }
  }

  lemma TakeBackConnected(s: State, capacity: nat)
    requires Inv(s, capacity) && Connected(s) && s.hashes != [] && s.live != [] && s.fromBlock > 0
    ensures Connected(TakeBack(s))
  {
    TakeBackWindow(s, capacity);
    var out := TakeBack(s);
    if out.chain != [] {
      forall d: nat | 1 <= d < |out.live| && out.chain[0].number + d < out.fromBlock ensures LinkedAt(out.live, d) {
        LinkedPop(s.live, d);
      }
    }
  }

  /** A block accepted on its parent, or into a window of its own, keeps the window connected. */
  lemma AcceptConnected(s: State, b: Block, capacity: nat)
    requires Inv(s, capacity) && Connected(s) && b.number == s.fromBlock
    requires forall i :: 0 <= i < |s.live| ==> s.live[i].hash != b.hash
    requires s.chain == [] || (b.gasLimit > 0 && capacity < 2) || (s.live != [] && b.parent == s.live[|s.live| - 1].hash)
    ensures Connected(Accept(s, b, capacity))
  {
    OldestAfter(s, b, capacity);
    var out := Accept(s, b, capacity);
    if out.chain != [] {
      forall d: nat | 1 <= d < |out.live| && out.chain[0].number + d < out.fromBlock ensures LinkedAt(out.live, d) {
        LinkedPush(s.live, b, d);
      }
    }
  }

  lemma AcceptStrands(s: State, a: Answer, capacity: nat)
    requires Inv(s, capacity) && Strands(s, a, capacity) && a.block.number == s.fromBlock
    requires forall i :: 0 <= i < |s.live| ==> s.live[i].hash != a.block.hash
    ensures !Connected(Accept(s, a.block, capacity))
  {
    OldestAfter(s, a.block, capacity);
    AcceptWindow(s, a.block, capacity);
    NotLinked(s.live, a.block);
  }

  lemma NotLinked(live: seq<Block>, b: Block)
    requires live != [] && b.parent != live[|live| - 1].hash
    ensures !LinkedAt(live + [b], 1)
  {
  }

  /** A round leaves the window's blocks on one chain exactly if it does not accept a stranger on
      a list that is used up before the window. */
  lemma RoundConnectedIff(s: State, a: Answer, capacity: nat)
    requires Inv(s, capacity) && Honest(s, a) && Connected(s)
    ensures Connected(Round(s, a, capacity)) <==> !Strands(s, a, capacity)
  {
    if AnswersUp(s, a) {
      if Reorged(s.hashes, a.block) {
        assert ListedAt(s.hashes, s.live, 1);
        NumberedPop(s.live, s.fromBlock);
        TakeBackConnected(s, capacity);
      } else {
        FreshHash(s.live, s.fromBlock, a.block);
        assert s.hashes != [] ==> ListedAt(s.hashes, s.live, 1);
        if Strands(s, a, capacity) {
          AcceptStrands(s, a, capacity);
        } else {
          AcceptConnected(s, a.block, capacity);
        }
      }
    }
  }

  // ---------- when the window is the end of the list ----------

  /** The same block is `d` places from the end of the window and of the list. */
  ghost predicate Aligned(chain: seq<BlockFee>, hashes: seq<string>, fromBlock: nat, d: nat) {
    && 1 <= d <= |chain| && d <= |hashes| && d <= fromBlock
    && chain[|chain| - d].hash == hashes[|hashes| - d]
    && chain[|chain| - d].number == fromBlock - d
  }

  /** The blocks of the window are the last ones of the list. */
  ghost predicate IsSuffix(s: State) {
    |s.chain| <= |s.hashes| && forall d: nat :: 1 <= d <= |s.chain| ==> Aligned(s.chain, s.hashes, s.fromBlock, d)
  }

  lemma AlignedInit(chain: seq<BlockFee>, hashes: seq<string>, fromBlock: nat, d: nat)
    requires Aligned(chain, hashes, fromBlock, d + 1) && d > 0
    ensures Aligned(chain[..|chain| - 1], hashes[..|hashes| - 1], fromBlock - 1, d)
  {
  }

  lemma AlignedPush(chain: seq<BlockFee>, hashes: seq<string>, fromBlock: nat, b: BlockFee, d: nat)
    requires 1 <= d && b.number == fromBlock && (d > 1 ==> Aligned(chain, hashes, fromBlock, d - 1))
    ensures Aligned(chain + [b], hashes + [b.hash], fromBlock + 1, d)
  {
  }

  lemma TrimFromEnd(chain: seq<BlockFee>, capacity: nat, d: nat)
    requires 1 <= d <= |chain| && d <= capacity
    ensures var out := Trim(chain, capacity); d <= |out| && out[|out| - d] == chain[|chain| - d]
  {
  }

  lemma KeepFromEnd(hashes: seq<string>, d: nat)
    requires 1 <= d <= |hashes| && d <= MAX_HASHES
    ensures var out := Keep(hashes); d <= |out| && out[|out| - d] == hashes[|hashes| - d]
  {
  }

  lemma AlignedTrim(chain: seq<BlockFee>, hashes: seq<string>, fromBlock: nat, capacity: nat, d: nat)
    requires Aligned(chain, hashes, fromBlock, d) && d <= capacity && d <= MAX_HASHES
    ensures Aligned(Trim(chain, capacity), Keep(hashes), fromBlock, d)
  {
    TrimFromEnd(chain, capacity, d);
    KeepFromEnd(hashes, d);
  }

  lemma AlignedAccept(chain: seq<BlockFee>, hashes: seq<string>, fromBlock: nat, b: BlockFee, capacity: nat, d: nat)
    requires 1 <= d <= capacity && d <= MAX_HASHES && d <= |chain| + 1 && b.number == fromBlock
    requires d > 1 ==> Aligned(chain, hashes, fromBlock, d - 1)
    ensures Aligned(Trim(chain + [b], capacity), Keep(hashes + [b.hash]), fromBlock + 1, d)
  {
    AlignedPush(chain, hashes, fromBlock, b, d);
    AlignedTrim(chain + [b], hashes + [b.hash], fromBlock + 1, capacity, d);
  }

  lemma TakeBackSuffix(s: State)
    requires IsSuffix(s) && s.hashes != [] && s.live != [] && s.fromBlock > 0
    ensures IsSuffix(TakeBack(s))
  {
    var out := TakeBack(s);
    if s.chain != [] {
      assert Aligned(s.chain, s.hashes, s.fromBlock, 1);
      LastIsFound(s.chain, LastHash(s.hashes));
      forall d: nat | 1 <= d <= |out.chain| ensures Aligned(out.chain, out.hashes, out.fromBlock, d) {
        AlignedInit(s.chain, s.hashes, s.fromBlock, d);
      }
    }
  }

  lemma SuffixGrows(s: State, b: BlockFee, capacity: nat, out: State)
    requires IsSuffix(s) && b.number == s.fromBlock && |s.chain| <= capacity
    requires capacity <= MAX_HASHES || |s.chain| < MAX_HASHES
    requires out.chain == Trim(s.chain + [b], capacity) && out.hashes == Keep(s.hashes + [b.hash])
    requires out.fromBlock == s.fromBlock + 1
    ensures IsSuffix(out)
  {
    GrownSizes(s.chain, s.hashes, b, capacity);
    forall d: nat | 1 <= d <= |out.chain| ensures Aligned(out.chain, out.hashes, out.fromBlock, d) {
      assert d > 1 ==> Aligned(s.chain, s.hashes, s.fromBlock, d - 1);
      AlignedAccept(s.chain, s.hashes, s.fromBlock, b, capacity, d);
    }
  }

  lemma GrownSizes(chain: seq<BlockFee>, hashes: seq<string>, b: BlockFee, capacity: nat)
    requires |chain| <= |hashes| && |chain| <= capacity && (capacity <= MAX_HASHES || |chain| < MAX_HASHES)
    ensures var n := |Trim(chain + [b], capacity)|;
            n <= capacity && n <= MAX_HASHES && n <= |chain| + 1 && n <= |Keep(hashes + [b.hash])|
  {
  }

  lemma SuffixLost(s: State, out: State)
    requires IsSuffix(s) && s.chain != [] && out.chain == s.chain && out.fromBlock == s.fromBlock + 1
    ensures !IsSuffix(out)
  {
    assert Aligned(s.chain, s.hashes, s.fromBlock, 1);
    assert !Aligned(out.chain, out.hashes, out.fromBlock, 1);
  }

  /** Accepting a block keeps the window the end of the list exactly if the block goes into the
      window, or the window is empty, and the window does not outgrow the list. */
  lemma AcceptSuffixIff(s: State, b: Block, capacity: nat)
    requires Inv(s, capacity) && IsSuffix(s) && b.number == s.fromBlock
    requires forall i :: 0 <= i < |s.live| ==> s.live[i].hash != b.hash
    ensures IsSuffix(Accept(s, b, capacity)) <==>
              if b.gasLimit == 0 then s.chain == [] else capacity <= MAX_HASHES || |s.chain| < MAX_HASHES
  {
    AcceptWindow(s, b, capacity);
    var out := Accept(s, b, capacity);
    if b.gasLimit == 0 {
      if s.chain != [] {
        SuffixLost(s, out);
      }
    } else if capacity <= MAX_HASHES || |s.chain| < MAX_HASHES {
      SuffixGrows(s, FeeOf(b), capacity, out);
    }
  }

  /** With a window of at most 100 blocks and no zero gas limits, the window is always the end of
      the list, and its blocks are on one chain. */
  lemma {:induction false} ShortWindow(start: nat, answers: seq<Answer>, capacity: nat)
    requires AllHonest(start, answers, capacity) && capacity <= MAX_HASHES
    requires forall i :: 0 <= i < |answers| ==> (answers[i].Answer? ==> answers[i].block.gasLimit > 0)
    ensures IsSuffix(Run(start, answers, capacity)) && Connected(Run(start, answers, capacity))
  {
    if answers != [] {
      var s, a := Run(start, answers[..|answers| - 1], capacity), answers[|answers| - 1];
      ShortWindow(start, answers[..|answers| - 1], capacity);
      EveryRun(start, answers[..|answers| - 1], capacity);
      RoundConnectedIff(s, a, capacity);
      RoundSuffix(s, a, capacity);
    }
  }

  lemma RoundSuffix(s: State, a: Answer, capacity: nat)
    requires Inv(s, capacity) && IsSuffix(s) && Honest(s, a) && capacity <= MAX_HASHES
    requires a.Answer? ==> a.block.gasLimit > 0
    ensures IsSuffix(Round(s, a, capacity))
  {
    if AnswersUp(s, a) {
      if Reorged(s.hashes, a.block) {
        NumberedPop(s.live, s.fromBlock);
        TakeBackSuffix(s);
      } else {
        FreshHash(s.live, s.fromBlock, a.block);
        AcceptSuffixIff(s, a.block, capacity);
      }
    }
  }

  // ---------- the handler ----------

  class GasStation {
    var fromBlock: nat
    var blockHashList: seq<string>
    const window: PriorityFeeWindow
    ghost var live: seq<Block>

    ghost function View(): State
      reads this, window
    {
      State(fromBlock, blockHashList, window.feeChain, live)
    }

    ghost predicate Valid()
      reads this, window
    {
      window.Valid() && Inv(View(), window.capacity)
    }

    constructor (fromBlock: nat, capacity: nat)
      ensures Valid() && fresh(window) && View() == State(fromBlock, [], [], []) && window.capacity == capacity
    {
      this.fromBlock := fromBlock;
      blockHashList, live := [], [];
      window := new PriorityFeeWindow(capacity);
    }

    /** One round with the answers of a node; `complete` when it has no newer block. */
    method TrySync(a: Answer) returns (complete: bool, ok: bool)
      requires Valid() && Honest(View(), a)
      modifies this, window
      ensures Valid() && View() == Round(old(View()), a, window.capacity)
      ensures complete <==> !a.NoNumber? && old(fromBlock) > a.latest
      ensures ok <==> complete || a.Answer?
    {
      if a.NoNumber? {
        return false, false;
      }
      if fromBlock > a.latest {
        return true, true;
      }
      if a.NoBlock? {
        return false, false;
      }
      var prev := LastHash(blockHashList);
      if prev != ZERO_HASH && prev != a.block.parent {
        TakeBackKeeps(View(), window.capacity);
        GoBack();
        return false, true;
      }
      FreshHash(live, fromBlock, a.block);
      AcceptKeeps(View(), a.block, window.capacity);
      GoOn(a.block);
      return false, true;
    }

    /** Takes one block back. */
    method GoBack()
      requires window.Valid() && blockHashList != [] && live != [] && fromBlock > 0
      modifies this, window
      ensures window.Valid() && View() == TakeBack(old(View()))
    {
      HandleReorg();
      fromBlock := fromBlock - 1;
    }

    /** Goes one block further. */
    method GoOn(b: Block)
      requires window.Valid() && |blockHashList| <= MAX_HASHES
      modifies this, window
      ensures window.Valid() && View() == Accept(old(View()), b, window.capacity)
    {
      HandleBlock(b);
      PushHash(b);
      fromBlock := fromBlock + 1;
    }

    method HandleReorg()
      requires window.Valid() && blockHashList != [] && live != []
      modifies `blockHashList, `live, window
      ensures window.Valid() && window.feeChain == Without(old(window.feeChain), LastHash(old(blockHashList)))
      ensures blockHashList == old(blockHashList)[..|old(blockHashList)| - 1] && live == old(live)[..|old(live)| - 1]
    {
      var hash := blockHashList[|blockHashList| - 1];
      blockHashList := blockHashList[..|blockHashList| - 1];
      live := live[..|live| - 1];
      window.Remove(hash);
    }

    method HandleBlock(b: Block)
      requires window.Valid()
      modifies window
      ensures window.Valid()
      ensures window.feeChain == if b.gasLimit == 0 then old(window.feeChain) else Pushed(old(window.feeChain), window.capacity, FeeOf(b))
    {
      if b.gasLimit == 0 {
        return;
      }
      SortTipsOk(b.tips);
      window.Push(FeeOf(b));
    }

    method PushHash(b: Block)
      requires |blockHashList| <= MAX_HASHES
      modifies `blockHashList, `live
      ensures blockHashList == Keep(old(blockHashList) + [b.hash]) && live == old(live) + [b]
    {
      blockHashList := blockHashList + [b.hash];
      live := live + [b];
      while |blockHashList| > MAX_HASHES
        invariant blockHashList == old(blockHashList) + [b.hash] || blockHashList == Keep(old(blockHashList) + [b.hash])
        invariant live == old(live) + [b]
      {
        blockHashList := blockHashList[1..];
      }
    }
  }
}
