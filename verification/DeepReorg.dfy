/** A reorganization deeper than the list of hashes leaves a block in the fee window that is not
    on the chain any more. The node first serves a main branch and then, from block 0 on, a fork.
 */
module DeepReorg {
  import opened Basics
  import opened PriorityFees
  import opened FeeWindow
  import opened EthGasStation

  ghost function Mark(branch: char, i: nat): string {
    seq(i + 1, _ => branch)
  }

  ghost function On(branch: char, start: nat, i: nat, gas: nat): Block {
    Block(start + i, Mark(branch, i), if i == 0 then ZERO_HASH else Mark(branch, i - 1), gas, None, [])
  }

  /** The main branch; only its first block needs a gas limit. */
  ghost function Main(start: nat, i: nat, gas: nat): Block {
    On('m', start, i, if i == 0 then 1 else gas)
  }

  ghost function Fork(start: nat, i: nat): Block {
    On('f', start, i, 1)
  }

  ghost function Mains(start: nat, k: nat, gas: nat): seq<Block> {
    seq(k, i requires 0 <= i < k => Main(start, i, gas))
  }

  /** Their fees: of the first block only, if the others have no gas limit. */
  ghost function MainFees(start: nat, k: nat, gas: nat): seq<BlockFee> {
    seq(if gas == 0 && k > 1 then 1 else k, i requires 0 <= i => FeeOf(Main(start, i, gas)))
  }

  ghost function Marks(k: nat): seq<string> {
    seq(k, i requires 0 <= i < k => Mark('m', i))
  }

  /** The first `k` blocks of the main branch are live, all but the first are listed. */
  ghost function Reached(start: nat, k: nat, gas: nat): State
    requires k >= 1
  {
    State(start + k, Marks(k)[1..], MainFees(start, k, gas), Mains(start, k, gas))
  }

  ghost function Climbed(start: nat, k: nat, gas: nat): State {
    State(start + k, Keep(Marks(k)), MainFees(start, k, gas), Mains(start, k, gas))
  }

  lemma MarksDiffer(b: char, i: nat, c: char, j: nat)
    requires b != c || i != j
    ensures Mark(b, i) != Mark(c, j)
  {
    assert i == j ==> Mark(b, i)[0] == b && Mark(c, j)[0] == c;
  }

  lemma MainsPush(start: nat, k: nat, gas: nat)
    ensures Mains(start, k + 1, gas) == Mains(start, k, gas) + [Main(start, k, gas)]
    ensures Marks(k + 1) == Marks(k) + [Mark('m', k)]
  {
  }

  lemma MainFeesPush(start: nat, k: nat, gas: nat)
    ensures var f := MainFees(start, k, gas);
            MainFees(start, k + 1, gas) == if k > 0 && gas == 0 then f else f + [FeeOf(Main(start, k, gas))]
  {
  }

  /** Honest answers after which the state is `s`. */
  ghost predicate Leads(start: nat, answers: seq<Answer>, capacity: nat, s: State) {
    AllHonest(start, answers, capacity) && Run(start, answers, capacity) == s
  }

  lemma LeadsKeeps(start: nat, answers: seq<Answer>, capacity: nat, s: State)
    requires Leads(start, answers, capacity, s)
    ensures Inv(s, capacity)
  {
    EveryRun(start, answers, capacity);
  }

  lemma OneMore(start: nat, before: seq<Answer>, s: State, a: Answer, next: State, capacity: nat)
    returns (answers: seq<Answer>)
    requires Leads(start, before, capacity, s)
    requires Honest(s, a) && Round(s, a, capacity) == next
    ensures Leads(start, answers, capacity, next)
  {
    answers := before + [a];
    assert answers[..|before|] == before;
  }

  /** The window takes what the main branch needs. */
  ghost predicate Roomy(gas: nat, capacity: nat) {
    capacity > MAX_HASHES || (gas == 0 && capacity >= 2)
  }

  // ---------- up the main branch ----------

  lemma FreshMain(start: nat, k: nat, gas: nat)
    ensures forall i :: 0 <= i < k ==> Mains(start, k, gas)[i].hash != Main(start, k, gas).hash
  {
    forall i | 0 <= i < k ensures Mains(start, k, gas)[i].hash != Main(start, k, gas).hash {
      MarksDiffer('m', i, 'm', k);
    }
  }

  lemma HonestMain(start: nat, k: nat, gas: nat, latest: nat)
    ensures Honest(Climbed(start, k, gas), Answer(latest, Main(start, k, gas)))
  {
    FreshMain(start, k, gas);
  }

  /** A block goes to the end of a window that has room for it. */
  lemma WindowGrows(s: State, b: Block, capacity: nat)
    requires Inv(s, capacity) && b.number == s.fromBlock && (b.gasLimit == 0 || |s.chain| < capacity)
    requires forall i :: 0 <= i < |s.live| ==> s.live[i].hash != b.hash
    ensures Accept(s, b, capacity).chain == if b.gasLimit == 0 then s.chain else s.chain + [FeeOf(b)]
  {
    AcceptWindow(s, b, capacity);
  }

  lemma RoomForNext(start: nat, k: nat, gas: nat, capacity: nat)
    requires k <= MAX_HASHES && Roomy(gas, capacity)
    ensures Main(start, k, gas).gasLimit == 0 || |MainFees(start, k, gas)| < capacity
  {
  }

  lemma ClimbFees(start: nat, k: nat, gas: nat, capacity: nat)
    requires k <= MAX_HASHES && Roomy(gas, capacity) && Inv(Climbed(start, k, gas), capacity)
    ensures Accept(Climbed(start, k, gas), Main(start, k, gas), capacity).chain == MainFees(start, k + 1, gas)
  {
    FreshMain(start, k, gas);
    RoomForNext(start, k, gas, capacity);
    WindowGrows(Climbed(start, k, gas), Main(start, k, gas), capacity);
    MainFeesPush(start, k, gas);
  }

  lemma ClimbHashes(start: nat, k: nat, gas: nat)
    requires k <= MAX_HASHES
    ensures !Reorged(Keep(Marks(k)), Main(start, k, gas))
    ensures Keep(Keep(Marks(k)) + [Mark('m', k)]) == Keep(Marks(k + 1))
  {
    MainsPush(start, k, gas);
    assert Keep(Marks(k)) == Marks(k);
    assert k > 0 ==> LastHash(Marks(k)) == Main(start, k, gas).parent;
  }

  lemma ClimbStep(start: nat, k: nat, gas: nat, capacity: nat, latest: nat)
    requires k <= MAX_HASHES && Roomy(gas, capacity) && latest >= start + k && Inv(Climbed(start, k, gas), capacity)
    ensures Round(Climbed(start, k, gas), Answer(latest, Main(start, k, gas)), capacity) == Climbed(start, k + 1, gas)
  {
    ClimbFees(start, k, gas, capacity);
    ClimbHashes(start, k, gas);
    MainsPush(start, k, gas);
  }

  lemma ClimbOne(start: nat, before: seq<Answer>, k: nat, gas: nat, capacity: nat, latest: nat)
    returns (answers: seq<Answer>)
    requires k <= MAX_HASHES && Roomy(gas, capacity) && latest >= start + k
    requires Leads(start, before, capacity, Climbed(start, k, gas))
    ensures Leads(start, answers, capacity, Climbed(start, k + 1, gas))
  {
    LeadsKeeps(start, before, capacity, Climbed(start, k, gas));
    HonestMain(start, k, gas, latest);
    ClimbStep(start, k, gas, capacity, latest);
    answers := OneMore(start, before, Climbed(start, k, gas), Answer(latest, Main(start, k, gas)),
                       Climbed(start, k + 1, gas), capacity);
  }

  lemma {:induction false} Climb(start: nat, k: nat, gas: nat, capacity: nat, latest: nat) returns (answers: seq<Answer>)
    requires k <= MAX_HASHES + 1 && Roomy(gas, capacity) && latest >= start + k
    ensures Leads(start, answers, capacity, Climbed(start, k, gas))
  {
    if k == 0 {
      answers := [];
    } else {
      var before := Climb(start, k - 1, gas, capacity, latest);
      answers := ClimbOne(start, before, k - 1, gas, capacity, latest);
    }
  }

  // ---------- back down ----------

  lemma HonestFork(start: nat, k: nat, gas: nat, latest: nat)
    requires k >= 1
    ensures Honest(Reached(start, k, gas), Answer(latest, Fork(start, k)))
  {
    forall i | 0 <= i < k ensures Mains(start, k, gas)[i].hash != Fork(start, k).hash {
      MarksDiffer('m', i, 'f', k);
    }
  }

  lemma DropFees(start: nat, k: nat, gas: nat, capacity: nat)
    requires k >= 2 && Inv(Reached(start, k, gas), capacity)
    ensures TakeBack(Reached(start, k, gas)).chain == MainFees(start, k - 1, gas)
  {
    TakeBackWindow(Reached(start, k, gas), capacity);
    MainFeesPush(start, k - 1, gas);
  }

  lemma DropHashes(start: nat, k: nat, gas: nat)
    requires k >= 2
    ensures Reorged(Reached(start, k, gas).hashes, Fork(start, k))
    ensures Reached(start, k, gas).hashes[..k - 2] == Marks(k - 1)[1..]
    ensures Reached(start, k, gas).live[..k - 1] == Mains(start, k - 1, gas)
  {
    MarksDiffer('m', k - 1, 'f', k - 1);
  }

  lemma DropStep(start: nat, k: nat, gas: nat, capacity: nat, latest: nat)
    requires k >= 2 && latest >= start + k && Inv(Reached(start, k, gas), capacity)
    ensures Round(Reached(start, k, gas), Answer(latest, Fork(start, k)), capacity) == Reached(start, k - 1, gas)
  {
    DropFees(start, k, gas, capacity);
    DropHashes(start, k, gas);
  }

  lemma DropOne(start: nat, before: seq<Answer>, k: nat, next: nat, gas: nat, capacity: nat, latest: nat)
    returns (answers: seq<Answer>)
    requires k >= 2 && next == k - 1 && latest >= start + k
    requires Leads(start, before, capacity, Reached(start, k, gas))
    ensures Leads(start, answers, capacity, Reached(start, next, gas))
  {
    LeadsKeeps(start, before, capacity, Reached(start, k, gas));
    HonestFork(start, k, gas, latest);
    DropStep(start, k, gas, capacity, latest);
    answers := OneMore(start, before, Reached(start, k, gas), Answer(latest, Fork(start, k)),
                       Reached(start, next, gas), capacity);
  }

  lemma ReachedTop(start: nat, k: nat, gas: nat, capacity: nat, latest: nat) returns (answers: seq<Answer>)
    requires k == MAX_HASHES + 1 && Roomy(gas, capacity) && latest >= start + k
    ensures Leads(start, answers, capacity, Reached(start, k, gas))
  {
    answers := Climb(start, k, gas, capacity, latest);
    assert Keep(Marks(k)) == Marks(k)[1..];
  }

  lemma {:induction false} Drop(start: nat, k: nat, gas: nat, capacity: nat, latest: nat) returns (answers: seq<Answer>)
    requires 1 <= k <= MAX_HASHES + 1 && Roomy(gas, capacity) && latest > start + MAX_HASHES
    ensures Leads(start, answers, capacity, Reached(start, k, gas))
    decreases MAX_HASHES + 1 - k
  {
    if k == MAX_HASHES + 1 {
      answers := ReachedTop(start, k, gas, capacity, latest);
    } else {
      var before := Drop(start, k + 1, gas, capacity, latest);
      answers := DropOne(start, before, k + 1, k, gas, capacity, latest);
    }
  }

  lemma ReachedFirst(start: nat, gas: nat)
    ensures var s := Reached(start, 1, gas);
            s.hashes == [] && s.live == [Main(start, 0, gas)] && s.chain == [FeeOf(Main(start, 0, gas))]
  {
  }

  /** The list is used up, so a block of another branch is accepted on top of `m`. */
  lemma ForkOnEmptyList(s: State, m: Block, a: Answer, capacity: nat)
    requires Inv(s, capacity) && capacity >= 2 && s.hashes == [] && s.live == [m] && s.chain == [FeeOf(m)]
    requires AnswersUp(s, a) && a.block.number == s.fromBlock && a.block.gasLimit > 0
    requires a.block.hash != m.hash && a.block.parent != m.hash
    ensures Round(s, a, capacity) == Accept(s, a.block, capacity)
    ensures Accept(s, a.block, capacity).chain == [FeeOf(m), FeeOf(a.block)]
    ensures !Connected(Accept(s, a.block, capacity))
  {
    WindowGrows(s, a.block, capacity);
    AcceptStrands(s, a, capacity);
  }

  /** With a window above 100 blocks, or with zero gas limits, there is a run of honest answers
      after which the window holds a block of the main branch below a block of the fork that
      replaced it. */
  lemma StaleBlockStays(start: nat, gas: nat, capacity: nat) returns (answers: seq<Answer>, s: State)
    requires Roomy(gas, capacity)
    ensures AllHonest(start, answers, capacity) && Run(start, answers, capacity) == s
    ensures s.chain == [FeeOf(Main(start, 0, gas)), FeeOf(Fork(start, 1))] && !Connected(s)
    ensures Fork(start, 1).parent == Fork(start, 0).hash != Main(start, 0, gas).hash
  {
    var latest := start + MAX_HASHES + 1;
    var before := Drop(start, 1, gas, capacity, latest);
    MarksDiffer('m', 0, 'f', 0);
    answers, s := ForkAfterDrop(start, gas, capacity, before, latest);
  }

  lemma ForkAfterDrop(start: nat, gas: nat, capacity: nat, before: seq<Answer>, latest: nat)
    returns (answers: seq<Answer>, next: State)
    requires capacity >= 2 && latest > start && Leads(start, before, capacity, Reached(start, 1, gas))
    ensures Leads(start, answers, capacity, next)
    ensures next.chain == [FeeOf(Main(start, 0, gas)), FeeOf(Fork(start, 1))] && !Connected(next)
  {
    var s, a := Reached(start, 1, gas), Answer(latest, Fork(start, 1));
    LeadsKeeps(start, before, capacity, s);
    HonestFork(start, 1, gas, latest);
    ReachedFirst(start, gas);
    MarksDiffer('m', 0, 'f', 0);
    MarksDiffer('m', 0, 'f', 1);
    ForkOnEmptyList(s, Main(start, 0, gas), a, capacity);
    next := Accept(s, a.block, capacity);
    answers := OneMore(start, before, s, a, next, capacity);
  }
}
