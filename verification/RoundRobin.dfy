/** Standard catch-up: worker `w` of `n` fetches every n-th epoch into a channel of its own and
    the collector reads the channels in turn and writes what it collected in batches. Any
    interleaving of the steps is a run.
 */
module RoundRobin {
  import opened Basics
  import opened Persister
  import S = Scheduler

  type EpochData = S.EpochData

  datatype State = State(
    next: seq<nat>,              // per worker, the epoch it fetches next
    chans: seq<seq<EpochData>>,  // per worker, the epochs in its result channel
    turn: nat,                   // the worker the collector reads next
    collected: seq<EpochData>)

  datatype Params = Params(workers: nat, start: nat, end: nat, capacity: nat)

  datatype Action =
    | Send(w: nat, d: EpochData)  // a worker delivers the epoch it fetched
    | Retry(w: nat)               // a fetch fails and will be tried again
    | Collect                     // the collector receives from the worker whose turn it is

  function Initial(p: Params): State {
    State(seq(p.workers, w requires 0 <= w < p.workers => p.start + w), seq(p.workers, _ => []), 0, [])
  }

  predicate Enabled(p: Params, s: State, x: Action) {
    |s.next| == |s.chans| == p.workers && s.turn < p.workers &&
    match x
    case Send(w, d) => w < p.workers && s.next[w] <= p.end && |s.chans[w]| < p.capacity && d.number == s.next[w]
    case Retry(w) => w < p.workers && s.next[w] <= p.end
    case Collect => p.start + |s.collected| <= p.end && s.chans[s.turn] != []
  }

  function Next(p: Params, s: State, x: Action): State
    requires Enabled(p, s, x)
  {
    match x
    case Send(w, d) =>
      s.(chans := s.chans[w := s.chans[w] + [d]], next := s.next[w := s.next[w] + p.workers])
    case Retry(_) => s
    case Collect =>
      s.(collected := s.collected + [s.chans[s.turn][0]],
         chans := s.chans[s.turn := s.chans[s.turn][1..]],
         turn := if s.turn + 1 < p.workers then s.turn + 1 else 0)
  }

  // ---------- invariant ----------

  /** `c` counts up from `first` in steps of `step`, and would go on with `after`. */
  ghost predicate Stepped(c: seq<EpochData>, first: nat, step: nat, after: nat) {
    if c == [] then after == first else c[0].number == first && Stepped(c[1..], first + step, step, after)
  }

  lemma {:induction false} SteppedAppend(c: seq<EpochData>, d: EpochData, first: nat, step: nat)
    requires Stepped(c, first, step, d.number)
    ensures Stepped(c + [d], first, step, d.number + step)
  {
    if c == [] {
      assert c + [d] == [d];
      assert [d][1..] == [];
    } else {
      assert (c + [d])[1..] == c[1..] + [d];
      SteppedAppend(c[1..], d, first + step, step);
    }
  }

  /** The epoch the collector will get next from worker `w`. Workers before the current turn have
      already delivered in this round, which began with epoch `base`. */
  function Expected(p: Params, s: State, base: nat, w: nat): nat {
    base + w + if w < s.turn then p.workers else 0
  }

  ghost predicate Inv(p: Params, s: State, base: nat) {
    && p.workers >= 1 && |s.next| == |s.chans| == p.workers && s.turn < p.workers
    && base + s.turn == p.start + |s.collected|
    && (forall w {:trigger s.chans[w]} :: 0 <= w < p.workers ==>
          Stepped(s.chans[w], Expected(p, s, base, w), p.workers, s.next[w]))
    && InOrder(s.collected, p.start)
    && |s.collected| <= Wanted(p.start, p.end)
  }

  /** Start of the current round after a step. */
  function Base(p: Params, s: State, base: nat, x: Action): nat {
    if x == Collect && s.turn + 1 >= p.workers then base + p.workers else base
  }

  lemma NextKeeps(p: Params, s: State, base: nat, x: Action)
    requires Inv(p, s, base) && Enabled(p, s, x)
    ensures Inv(p, Next(p, s, x), Base(p, s, base, x))
  {
    match x
    case Send(w, d) => SteppedAppend(s.chans[w], d, Expected(p, s, base, w), p.workers);
    case Retry(w) =>
    case Collect => CollectKeeps(p, s, base);
  }

  lemma CollectKeeps(p: Params, s: State, base: nat)
    requires Inv(p, s, base) && Enabled(p, s, Collect)
    ensures Inv(p, Next(p, s, Collect), Base(p, s, base, Collect))
  {
    var u, b := Next(p, s, Collect), Base(p, s, base, Collect);
    assert Stepped(s.chans[s.turn], Expected(p, s, base, s.turn), p.workers, s.next[s.turn]);
    forall w | 0 <= w < p.workers
      ensures Stepped(u.chans[w], Expected(p, u, b, w), p.workers, u.next[w])
    {
      assert Stepped(s.chans[w], Expected(p, s, base, w), p.workers, s.next[w]);
    }
  }

  // ---------- runs ----------

  predicate AllEnabled(p: Params, s: State, xs: seq<Action>)
    decreases |xs|
  {
    xs != [] ==> Enabled(p, s, xs[0]) && AllEnabled(p, Next(p, s, xs[0]), xs[1..])
  }

  function Run(p: Params, s: State, xs: seq<Action>): State
    requires AllEnabled(p, s, xs)
    decreases |xs|
  {
    if xs == [] then s else Run(p, Next(p, s, xs[0]), xs[1..])
  }

  lemma {:induction false} RunKeeps(p: Params, s: State, base: nat, xs: seq<Action>)
    requires Inv(p, s, base) && AllEnabled(p, s, xs)
    ensures exists b: nat :: Inv(p, Run(p, s, xs), b)
    decreases |xs|
  {
    if xs == [] {
      assert Inv(p, Run(p, s, xs), base);
    } else {
      NextKeeps(p, s, base, xs[0]);
      assert Run(p, s, xs) == Run(p, Next(p, s, xs[0]), xs[1..]);
      RunKeeps(p, Next(p, s, xs[0]), Base(p, s, base, xs[0]), xs[1..]);
    }
  }

  // ---------- what was fetched is what is collected ----------

  ghost predicate Brings(x: Action, d: EpochData) {
    x.Send? && x.d == d
  }

  ghost predicate Delivered(xs: seq<Action>, d: EpochData) {
    exists i :: 0 <= i < |xs| && Brings(xs[i], d)
  }

  /** All of these epochs were sent by workers. */
  ghost predicate Sent(xs: seq<Action>, ds: seq<EpochData>) {
    forall k :: 0 <= k < |ds| ==> Delivered(xs, ds[k])
  }

  ghost predicate Genuine(xs: seq<Action>, s: State) {
    Sent(xs, s.collected) && forall w :: 0 <= w < |s.chans| ==> Sent(xs, s.chans[w])
  }

  lemma SentMore(xs: seq<Action>, x: Action, ds: seq<EpochData>)
    requires Sent(xs, ds)
    ensures Sent(xs + [x], ds)
  {
    var ys := xs + [x];
    forall k | 0 <= k < |ds| ensures Delivered(ys, ds[k]) {
      var i :| 0 <= i < |xs| && Brings(xs[i], ds[k]);
      assert ys[i] == xs[i];
    }
  }

  lemma SendSent(xs: seq<Action>, w: nat, d: EpochData, ds: seq<EpochData>)
    requires Sent(xs, ds)
    ensures Sent(xs + [Send(w, d)], ds + [d])
  {
    SentMore(xs, Send(w, d), ds);
    assert Brings((xs + [Send(w, d)])[|xs|], d);
  }

  lemma NextGenuine(p: Params, s: State, xs: seq<Action>, x: Action)
    requires Genuine(xs, s) && Enabled(p, s, x)
    ensures Genuine(xs + [x], Next(p, s, x))
  {
    var u, ys := Next(p, s, x), xs + [x];
    SentMore(xs, x, s.collected);
    forall w | 0 <= w < |u.chans| ensures Sent(ys, u.chans[w]) {
      SentMore(xs, x, s.chans[w]);
      if x.Send? && w == x.w {
        SendSent(xs, w, x.d, s.chans[w]);
      }
    }
    if x == Collect {
      SentMore(xs, x, s.chans[s.turn]);
    }
  }

  lemma {:induction false} RunGenuine(p: Params, s: State, done: seq<Action>, xs: seq<Action>)
    requires Genuine(done, s) && AllEnabled(p, s, xs)
    ensures Genuine(done + xs, Run(p, s, xs))
    decreases |xs|
  {
    if xs == [] {
      assert done + xs == done;
    } else {
      NextGenuine(p, s, done, xs[0]);
      RunGenuine(p, Next(p, s, xs[0]), done + [xs[0]], xs[1..]);
      assert done + [xs[0]] + xs[1..] == done + xs;
    }
  }

  /** For every interleaving of the workers, their retries and the collector: the k-th epoch
      collected is start + k, as a worker sent it, never one past the end; and as long as epochs
      are missing, the channel whose turn it is holds the next one, or its worker is about to
      fetch exactly that. */
  lemma EveryRun(p: Params, xs: seq<Action>)
    requires p.workers >= 1 && AllEnabled(p, Initial(p), xs)
    ensures var s := Run(p, Initial(p), xs);
            && InOrder(s.collected, p.start) && Sent(xs, s.collected)
            && |s.collected| <= Wanted(p.start, p.end)
            && |s.chans| == |s.next| == p.workers && s.turn < p.workers
            && (|s.collected| < Wanted(p.start, p.end) ==>
                  if s.chans[s.turn] != [] then s.chans[s.turn][0].number == p.start + |s.collected|
                  else s.next[s.turn] == p.start + |s.collected|)
  {
    assert Inv(p, Initial(p), p.start);
    RunKeeps(p, Initial(p), p.start, xs);
    RunGenuine(p, Initial(p), [], xs);
    assert [] + xs == xs;
    var s := Run(p, Initial(p), xs);
    var b: nat :| Inv(p, s, b);
    assert Stepped(s.chans[s.turn], Expected(p, s, b, s.turn), p.workers, s.next[s.turn]);
  }

  /** The collector's writes in any run: the batches are consecutive stretches of epochs that
      concatenate to start, start + 1, and so on, each as a worker sent it; once every epoch has
      been collected and no write fails it completes, and on completion the batches hold exactly
      start to end. */
  method PersistRun(p: Params, xs: seq<Action>, pushFails: nat -> bool, limits: Limits)
    returns (r: Outcome, batches: seq<seq<EpochData>>)
    requires p.workers >= 1 && AllEnabled(p, Initial(p), xs)
    ensures InOrder(Concat(batches), p.start) && |Concat(batches)| <= Wanted(p.start, p.end) && Sent(xs, Concat(batches))
    ensures Batches(batches, limits) && forall i :: 0 <= i < |batches| - 1 ==> Full(batches[i], limits)
    ensures r == Done ==> |Concat(batches)| == Wanted(p.start, p.end)
    ensures var s := Run(p, Initial(p), xs);
            && Concat(batches) <= s.collected
            && (|s.collected| == Wanted(p.start, p.end) && (forall i :: !pushFails(i)) ==>
                  r == Done && Concat(batches) == s.collected)
  {
    var s := Run(p, Initial(p), xs);
    EveryRun(p, xs);
    r, batches := FetchResult(p.start, p.end, s.collected, pushFails, limits);
    assert s.collected[..|s.collected|] == s.collected;
  }
}
