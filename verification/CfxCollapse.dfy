/** One revert marker instead of a list of reverted epochs: when it suffices, and why it does
    over whole runs.
 */
module CfxCollapse {
  import opened Basics
  import opened ForkTree
  import opened FilterChain
  import opened FilterWorker
  import opened CfxFilterChain

  // ---------- collapsing a poll ----------

  /** What a client is told: the epoch to revert to, if any, and the epochs that follow. */
  datatype Collapsed = Collapsed(revertTo: Option<nat>, epochs: seq<Body>)

  function LeadingReorged(bs: seq<Body>): (n: nat)
    ensures n <= |bs|
    ensures forall i :: 0 <= i < n ==> bs[i].Reorged()
    ensures n < |bs| ==> !bs[n].Reorged()
  {
    if bs == [] || !bs[0].Reorged() then 0 else 1 + LeadingReorged(bs[1..])
  }

  function Collapse(bs: seq<Body>): Collapsed
    requires forall b :: b in bs ==> b.CfxEpoch?
  {
    var n := LeadingReorged(bs);
    Collapsed(if n > 0 then Some(bs[n - 1].revertedTo) else None, bs[n..])
  }

  lemma LeadingIs(bs: seq<Body>, n: nat)
    requires n <= |bs| && (n < |bs| ==> !bs[n].Reorged()) && forall i :: 0 <= i < n ==> bs[i].Reorged()
    ensures LeadingReorged(bs) == n
  {
  }

  /** The collapse loop of a poll. */
  method CollapseEpochs(bs: seq<Body>) returns (c: Collapsed)
    requires forall b :: b in bs ==> b.CfxEpoch?
    ensures c == Collapse(bs)
  {
    var idx := 0;
    while idx < |bs| && bs[idx].Reorged()
      invariant 0 <= idx <= |bs| && forall i :: 0 <= i < idx ==> bs[i].Reorged()
    {
      idx := idx + 1;
    }
    LeadingIs(bs, idx);
    c := Collapsed(if idx > 0 then Some(bs[idx - 1].revertedTo) else None, bs[idx..]);
  }

  // ---------- applying it ----------

  function Positions(bs: seq<Body>): (cs: seq<Cursor>)
    ensures |cs| == |bs| && forall i :: 0 <= i < |bs| ==> cs[i] == bs[i].Position()
  {
    seq(|bs|, i requires 0 <= i < |bs| => bs[i].Position())
  }

  function DropAbove(view: seq<Cursor>, to: nat): seq<Cursor> {
    if view == [] then []
    else if Last(view).height > to then DropAbove(view[..|view| - 1], to)
    else DropAbove(view[..|view| - 1], to) + [Last(view)]
  }

  /** How a client applies a collapsed poll to its view: drop every epoch above the marker,
      append the rest. */
  function Apply(view: seq<Cursor>, c: Collapsed): seq<Cursor> {
    (if c.revertTo.Some? then DropAbove(view, c.revertTo.value) else view) + Positions(c.epochs)
  }

  lemma {:induction false} DropsSuffix(view: seq<Cursor>, to: nat, n: nat)
    requires n <= |view|
    requires forall i :: 0 <= i < n ==> view[i].height <= to
    requires forall i :: n <= i < |view| ==> view[i].height > to
    ensures DropAbove(view, to) == view[..n]
  {
    if view != [] {
      var init := view[..|view| - 1];
      if n == |view| {
        DropsSuffix(init, to, n - 1);
        WholeView(view, init);
      } else {
        DropsSuffix(init, to, n);
        assert init[..n] == view[..n];
      }
    }
  }

  lemma WholeView(view: seq<Cursor>, init: seq<Cursor>)
    requires view != [] && init == view[..|view| - 1]
    ensures init[..|view| - 1] == init && init + [Last(view)] == view == view[..|view|]
  {
  }

  lemma {:induction false} DropsMore(view: seq<Cursor>, to: nat, n: nat)
    requires 0 < n <= |view|
    requires forall i :: n - 1 <= i < |view| ==> view[i].height > to
    ensures |DropAbove(view, to)| < n
  {
    if n == |view| {
      DropLength(view[..|view| - 1], to);
    } else {
      DropsMore(view[..|view| - 1], to, n);
    }
  }

  lemma {:induction false} DropLength(view: seq<Cursor>, to: nat)
    ensures |DropAbove(view, to)| <= |view|
  {
    if view != [] {
      DropLength(view[..|view| - 1], to);
    }
  }

  // ---------- when one marker suffices ----------

  ghost predicate Ascending(bs: seq<Body>) {
    forall i, j :: 0 <= i < j < |bs| ==> bs[i].number <= bs[j].number
  }

  /** Reverted epochs lie above the epoch they were reverted to. */
  ghost predicate Above(t: Tree) {
    forall h :: h in t.body && t.body[h].CfxEpoch? && t.body[h].Reorged() ==> t.body[h].number > t.body[h].revertedTo
  }

  /** The fork point of `p`, if `p` leaves the canonical chain, is not above the epoch number
      that the first epoch past it was reverted to. */
  ghost predicate ForkPointKept(t: Tree, p: seq<Hash>)
    requires CfxOnly(t) && forall h :: h in p ==> h in t.body
  {
    var f := ForkPoint(t, p);
    0 < f < |p| ==> t.body[p[f - 1]].number <= t.body[p[f]].revertedTo
  }

  lemma CfxBodies(t: Tree, p: seq<Hash>)
    requires Good(t) && forall h :: h in p ==> h in t.body
    ensures forall b :: b in Changes(t, p) ==> b.CfxEpoch?
  {
  }

  /** The collapse of the changes of a path: the marker of the epoch right past the fork. */
  lemma CollapseOf(t: Tree, p: seq<Hash>, f: nat)
    requires Good(t) && IsPath(t, p) && (forall h :: h in p ==> h in t.body) && f == ForkPoint(t, p)
    ensures forall b :: b in Changes(t, p) ==> b.CfxEpoch?
    ensures Collapse(Changes(t, p)) == Collapsed(if f < |p| then Some(t.body[p[f]].revertedTo) else None,
                                                 Bodies(t, t.canon[f..]))
  {
    CfxBodies(t, p);
    RevertedHalf(t, p, f);
    CanonicalHalf(t, f);
    LeadingIs(Changes(t, p), |p| - f);
  }

  /** Dropping what is above the single marker and appending the rest gives the canonical
      chain, exactly when the fork point is not above the marker. */
  lemma CollapseSufficesIff(t: Tree, p: seq<Hash>)
    requires Good(t) && Above(t) && IsPath(t, p) && (forall h :: h in p ==> h in t.body) && Ascending(Bodies(t, p))
    ensures forall b :: b in Changes(t, p) ==> b.CfxEpoch?
    ensures Apply(Positions(Bodies(t, p)), Collapse(Changes(t, p))) == Positions(Bodies(t, t.canon))
            <==> ForkPointKept(t, p)
  {
    var f := ForkPoint(t, p);
    ApplyOf(t, p, f);
    SplitView(t, p, f);
    if f < |p| {
      CutViewIff(t, p, f);
    }
  }

  /** What applying the collapsed changes of a path to the path itself gives. */
  lemma ApplyOf(t: Tree, p: seq<Hash>, f: nat)
    requires Good(t) && IsPath(t, p) && (forall h :: h in p ==> h in t.body) && f == ForkPoint(t, p)
    ensures forall b :: b in Changes(t, p) ==> b.CfxEpoch?
    ensures var view, rest := Positions(Bodies(t, p)), Positions(Bodies(t, t.canon[f..]));
            var kept := if f < |p| then DropAbove(view, t.body[p[f]].revertedTo) else view[..f];
            Apply(view, Collapse(Changes(t, p))) == kept + rest
  {
    CollapseOf(t, p, f);
    if f == |p| {
      var view := Positions(Bodies(t, p));
      assert view[..f] == view;
    }
  }

  lemma CutViewIff(t: Tree, p: seq<Hash>, f: nat)
    requires Good(t) && Above(t) && IsPath(t, p) && (forall h :: h in p ==> h in t.body) && Ascending(Bodies(t, p))
    requires f == ForkPoint(t, p) < |p|
    ensures var view, rest := Positions(Bodies(t, p)), Positions(Bodies(t, t.canon[f..]));
            DropAbove(view, t.body[p[f]].revertedTo) + rest == view[..f] + rest <==> ForkPointKept(t, p)
  {
    ReorgedPastFork(t, p, f);
    MarkerSufficesIff(Positions(Bodies(t, p)), Positions(Bodies(t, t.canon[f..])), t.body[p[f]].revertedTo, f);
  }

  lemma MarkerSufficesIff(view: seq<Cursor>, rest: seq<Cursor>, to: nat, f: nat)
    requires f < |view| && view[f].height > to
    requires forall i, j :: 0 <= i < j < |view| ==> view[i].height <= view[j].height
    ensures DropAbove(view, to) + rest == view[..f] + rest <==> f == 0 || view[f - 1].height <= to
  {
    if f == 0 || view[f - 1].height <= to {
      DropsSuffix(view, to, f);
    } else {
      DropsMore(view, to, f);
      assert |DropAbove(view, to) + rest| < |view[..f] + rest|;
    }
  }

  lemma SplitView(t: Tree, p: seq<Hash>, f: nat)
    requires (forall h :: h in p || h in t.canon ==> h in t.body) && f == ForkPoint(t, p)
    ensures Positions(Bodies(t, p))[..f] + Positions(Bodies(t, t.canon[f..])) == Positions(Bodies(t, t.canon))
  {
    assert forall i :: 0 <= i < f ==> p[i] == p[..f][i] == t.canon[..f][i] == t.canon[i];
  }

  // ---------- over whole runs ----------

  /** An epoch is not below its predecessor. */
  ghost predicate Ascends(t: Tree, h: Hash) {
    h in t.path && h in t.body &&
    var p := t.path[h];
    |p| > 1 ==> p[|p| - 2] in t.body && t.body[p[|p| - 2]].number <= t.body[h].number
  }

  ghost predicate Ordered(t: Tree) {
    Good(t) && Above(t) && forall h {:trigger Ascends(t, h)} :: h in t.path ==> Ascends(t, h)
  }

  /** An epoch that was cut off a predecessor that is still canonical was reverted to that
      predecessor's number or later. */
  ghost predicate CutOk(t: Tree, h: Hash) {
    h in t.path && h in t.body && t.body[h].CfxEpoch? &&
    var p := t.path[h];
    |p| > 1 ==>
      && p[|p| - 2] in t.body
      && (t.body[h].Reorged() && !t.body[p[|p| - 2]].Reorged() ==> t.body[p[|p| - 2]].number <= t.body[h].revertedTo)
  }

  ghost predicate Inv(t: Tree) {
    Ordered(t) && forall h {:trigger CutOk(t, h)} :: h in t.path ==> CutOk(t, h)
  }

  /** An appended epoch is not below the canonical tail, and one that was seen before still has
      its number. */
  ghost predicate Admissible(t: Tree, c: Change) {
    GoodChange(c) && match c
    case RevertTo(_) => true
    case Append(e) => && (t.canon != [] && Last(t.canon) in t.body ==> t.body[Last(t.canon)].number <= e.number)
                      && (e.hash in t.body ==> e.Position() == t.body[e.hash].Position())
  }

  /** An appended epoch was never seen before. */
  ghost predicate Fresh(t: Tree, c: Change) {
    c.Append? ==> c.epoch.hash !in t.body
  }

  /** Known epochs keep their number and their path. */
  ghost predicate Keeps(t: Tree, u: Tree) {
    && (forall h :: h in t.path ==> h in u.path && u.path[h] == t.path[h])
    && forall h :: h in t.body ==> h in u.body && u.body[h].Position() == t.body[h].Position()
  }

  lemma RevertAboveKeeps(t: Tree, to: nat)
    requires Good(t) && Above(t) && to > 0
    ensures Good(RevertAbove(t, to)) && Above(RevertAbove(t, to)) && Keeps(t, RevertAbove(t, to))
  {
    var u, keep := RevertAbove(t, to), Kept(t, to, |t.canon|);
    RevertAboveGood(t, to);
    forall h | h in t.body
      ensures h in u.body && u.body[h].Position() == t.body[h].Position()
      ensures u.body[h].Reorged() ==> u.body[h].number > u.body[h].revertedTo
    {
      BodyAfterRevert(t, to, keep, h);
    }
    assert u.body.Keys == t.body.Keys;
  }

  /** Order depends on numbers and paths only. */
  lemma AscendsKept(t: Tree, u: Tree, h: Hash)
    requires CfxOnly(t) && CfxOnly(u) && Keeps(t, u) && Ascends(t, h)
    ensures Ascends(u, h)
  {
  }

  lemma RevertAboveOrdered(t: Tree, to: nat)
    requires Ordered(t) && to > 0
    ensures Ordered(RevertAbove(t, to)) && Keeps(t, RevertAbove(t, to))
  {
    var u := RevertAbove(t, to);
    RevertAboveKeeps(t, to);
    RevertAboveGood(t, to);
    forall h | h in u.path ensures Ascends(u, h) {
      AscendsKept(t, u, h);
    }
  }

  lemma AppendKeeps(t: Tree, e: Body)
    requires Good(t) && Above(t) && Admissible(t, Append(e)) && ApplyChange(t, Append(e)).Some?
    ensures ApplyChange(t, Append(e)) == Some(PushBack(t, e))
    ensures Good(PushBack(t, e)) && Above(PushBack(t, e)) && Keeps(t, PushBack(t, e))
  {
    ApplyGood(t, Append(e));
  }

  lemma TailAscends(t: Tree, e: Body)
    requires Good(t) && Admissible(t, Append(e)) && ApplyChange(t, Append(e)).Some?
    ensures Ascends(PushBack(t, e), e.hash)
  {
    PathKnown(t, t.canon);
    if t.canon != [] {
      PathDistinct(t, t.canon);
      var p := t.canon + [e.hash];
      assert p[|p| - 2] == Last(t.canon);
    }
  }

  lemma AppendOrdered(t: Tree, e: Body)
    requires Ordered(t) && Admissible(t, Append(e)) && ApplyChange(t, Append(e)).Some?
    ensures Ordered(PushBack(t, e)) && Keeps(t, PushBack(t, e))
  {
    var u := PushBack(t, e);
    AppendKeeps(t, e);
    forall h | h in u.path ensures Ascends(u, h) {
      if h == e.hash {
        TailAscends(t, e);
      } else {
        AscendsKept(t, u, h);
      }
    }
  }

  /** Every appended epoch is admissible at its time. */
  ghost predicate AllAdmissible(t: Tree, cs: seq<Change>)
    requires CfxOnly(t) && forall c :: c in cs ==> CfxChange(c)
    decreases |cs|
  {
    cs != [] ==>
      Admissible(t, cs[0]) &&
      match ApplyChange(t, cs[0])
      case None => true
      case Some(u) => AllAdmissible(u, cs[1..])
  }

  lemma StepOrdered(t: Tree, c: Change, u: Tree)
    requires Ordered(t) && Admissible(t, c) && CfxChange(c) && ApplyChange(t, c) == Some(u)
    ensures Ordered(u) && Keeps(t, u)
  {
    match c {
      case RevertTo(to) => RevertAboveOrdered(t, to);
      case Append(e) => AppendKeeps(t, e); AppendOrdered(t, e);
    }
  }

  lemma {:induction false} RunOrdered(t: Tree, cs: seq<Change>)
    requires Ordered(t) && (forall c :: c in cs ==> CfxChange(c)) && AllAdmissible(t, cs) && Run(t, cs).Some?
    ensures Ordered(Run(t, cs).value) && Keeps(t, Run(t, cs).value)
    decreases |cs|
  {
    if cs != [] {
      var u := ApplyChange(t, cs[0]).value;
      StepOrdered(t, cs[0], u);
      RunOrdered(u, cs[1..]);
    }
  }

  // ---------- runs without reappended epochs ----------

  lemma CutAfterRevert(t: Tree, to: nat, keep: nat, h: Hash)
    requires Inv(t) && to > 0 && keep == Kept(t, to, |t.canon|) && h in t.path
    ensures CutOk(RevertAbove(t, to), h)
  {
    var p := t.path[h];
    assert CutOk(t, h);
    BodyAfterRevert(t, to, keep, h);
    if |p| > 1 {
      var y := p[|p| - 2];
      BodyAfterRevert(t, to, keep, y);
      if h in t.canon[keep..] {
        ParentOnCanon(t, h, keep);
      }
    }
  }

  /** The predecessor of a canonical epoch past `keep` is also past it, or is the one at `keep`. */
  lemma ParentOnCanon(t: Tree, h: Hash, keep: nat)
    requires WellFormed(t) && keep <= |t.canon| && h in t.canon[keep..] && h in t.path && |t.path[h]| > 1
    ensures var y := t.path[h][|t.path[h]| - 2];
            y in t.canon[keep..] || (keep > 0 && y == t.canon[keep - 1])
  {
    var j :| keep <= j < |t.canon| && t.canon[j] == h;
    assert PrefixRecorded(t, t.canon, j);
    assert t.path[h] == t.canon[..j + 1];
    if j > keep {
      assert t.canon[keep..][j - 1 - keep] == t.canon[j - 1];
    }
  }

  lemma RevertAboveInv(t: Tree, to: nat)
    requires Inv(t) && to > 0
    ensures Inv(RevertAbove(t, to)) && Keeps(t, RevertAbove(t, to))
  {
    var u := RevertAbove(t, to);
    RevertAboveOrdered(t, to);
    RevertAboveGood(t, to);
    forall h | h in u.path ensures CutOk(u, h) {
      CutAfterRevert(t, to, Kept(t, to, |t.canon|), h);
    }
  }

  lemma CutAfterAppend(t: Tree, e: Body, h: Hash)
    requires Good(t) && e.CfxEpoch? && e.hash !in t.body && !e.Reorged() && h in PushBack(t, e).path
    requires h in t.path ==> CutOk(t, h)
    ensures CutOk(PushBack(t, e), h)
  {
    PathKnown(t, t.canon);
    if h == e.hash {
      if t.canon != [] {
        assert (t.canon + [h])[|t.canon| - 1] == Last(t.canon);
      }
    } else {
      Predecessor(t, h);
    }
  }

  lemma AppendInv(t: Tree, e: Body)
    requires Inv(t) && Admissible(t, Append(e)) && e.hash !in t.body
    ensures Inv(PushBack(t, e)) && Keeps(t, PushBack(t, e))
  {
    var u := PushBack(t, e);
    AppendOrdered(t, e);
    forall h | h in u.path ensures CutOk(u, h) {
      CutAfterAppend(t, e, h);
    }
  }

  /** Every appended epoch is new and not below the tail of its time. */
  ghost predicate Progressing(t: Tree, cs: seq<Change>)
    requires CfxOnly(t) && forall c :: c in cs ==> CfxChange(c)
    decreases |cs|
  {
    cs != [] ==>
      Admissible(t, cs[0]) && Fresh(t, cs[0]) &&
      match ApplyChange(t, cs[0])
      case None => true
      case Some(u) => Progressing(u, cs[1..])
  }

  lemma {:induction false} RunInv(t: Tree, cs: seq<Change>)
    requires Inv(t) && (forall c :: c in cs ==> CfxChange(c)) && Progressing(t, cs) && Run(t, cs).Some?
    ensures Inv(Run(t, cs).value) && AllAdmissible(t, cs)
    decreases |cs|
  {
    if cs != [] {
      match cs[0] {
        case RevertTo(to) => RevertAboveInv(t, to);
        case Append(e) => AppendInv(t, e);
      }
      RunInv(ApplyChange(t, cs[0]).value, cs[1..]);
    }
  }

  // ---------- the invariant gives what the collapse needs ----------

  lemma {:induction false} PathAscends(t: Tree, p: seq<Hash>, i: nat, j: nat)
    requires Ordered(t) && IsPath(t, p) && i <= j < |p| && forall h :: h in p ==> h in t.body
    ensures t.body[p[i]].number <= t.body[p[j]].number
  {
    if i < j {
      PathAscends(t, p, i, j - 1);
      assert PrefixRecorded(t, p, j) && Ascends(t, p[j]);
    }
  }

  lemma OrderedAscends(t: Tree, p: seq<Hash>)
    requires Ordered(t) && IsPath(t, p) && forall h :: h in p ==> h in t.body
    ensures Ascending(Bodies(t, p))
  {
    forall i, j | 0 <= i < j < |p| ensures t.body[p[i]].number <= t.body[p[j]].number {
      PathAscends(t, p, i, j);
    }
  }

  lemma InvSuffices(t: Tree, p: seq<Hash>)
    requires Inv(t) && IsPath(t, p) && forall h :: h in p ==> h in t.body
    ensures ForkPointKept(t, p)
  {
    var f := ForkPoint(t, p);
    if 0 < f < |p| {
      assert PrefixRecorded(t, p, f) && CutOk(t, p[f]);
      ReorgedPastFork(t, p, f);
      ReorgedPastFork(t, p, f - 1);
    }
  }

  lemma PollUnrepeated(t: Tree, u: Tree, h: Hash, p: seq<Hash>)
    requires Stable(t) && CfxOnly(t) && Stable(u) && Keeps(t, u) && h in t.path && p == t.path[h]
    ensures KnownPath(u, h) && u.path[h] == p && IsPath(u, p) && (forall x :: x in p ==> x in t.body && x in u.body)
    ensures Polled(Visits(u, p), t.body[h].Position()) == Changes(u, p)
  {
    PathStays(t, u, h, p);
    PollReportsChanges(u, t.body[h].Position());
    assert Repeated(u, t.body[h].Position()) == [];
  }

  lemma PathStays(t: Tree, u: Tree, h: Hash, p: seq<Hash>)
    requires Stable(t) && Stable(u) && Keeps(t, u) && h in t.path && p == t.path[h]
    ensures KnownPath(u, h) && u.path[h] == p && IsPath(u, p) && (forall x :: x in p ==> x in t.body && x in u.body)
    ensures h in t.body && u.body[h].Position() == t.body[h].Position() && t.body[h].Position().hash == h
  {
    Predecessor(t, h);
    PathKnown(t, p);
    Predecessor(u, h);
    KnownBodies(u, p);
  }

  lemma SameView(t: Tree, u: Tree, p: seq<Hash>)
    requires Keeps(t, u) && forall x :: x in p ==> x in t.body && x in u.body
    ensures Positions(Bodies(u, p)) == Positions(Bodies(t, p))
  {
  }

  /** A client got the tail of the chain when its view was the canonical chain of `t`. After any
      run of reorgs and new or reappended epochs, its view with the collapsed poll applied is the
      canonical chain exactly if the fork point is not above the marker. */
  lemma RunCollapseIff(t: Tree, cs: seq<Change>)
    requires Ordered(t) && t.canon != []
    requires (forall c :: c in cs ==> CfxChange(c)) && AllAdmissible(t, cs) && Run(t, cs).Some?
    ensures var u, cursor := Run(t, cs).value, t.body[Last(t.canon)].Position();
            && KnownPath(u, cursor.hash) && (forall h :: h in t.canon ==> h in u.body)
            && Polled(Visits(u, u.path[cursor.hash]), cursor) == Changes(u, t.canon)
            && (forall b :: b in Changes(u, t.canon) ==> b.CfxEpoch?)
            && (Apply(Positions(Bodies(t, t.canon)), Collapse(Changes(u, t.canon))) == Positions(Bodies(u, u.canon))
                <==> ForkPointKept(u, t.canon))
  {
    RunOrdered(t, cs);
    CollapseAfter(t, Run(t, cs).value);
  }

  lemma CollapseAfter(t: Tree, u: Tree)
    requires Good(t) && t.canon != [] && Ordered(u) && Keeps(t, u)
    ensures var cursor := t.body[Last(t.canon)].Position();
            && KnownPath(u, cursor.hash) && IsPath(u, t.canon) && (forall h :: h in t.canon ==> h in u.body)
            && Polled(Visits(u, u.path[cursor.hash]), cursor) == Changes(u, t.canon)
            && (forall b :: b in Changes(u, t.canon) ==> b.CfxEpoch?)
            && (Apply(Positions(Bodies(t, t.canon)), Collapse(Changes(u, t.canon))) == Positions(Bodies(u, u.canon))
                <==> ForkPointKept(u, t.canon))
  {
    TailPath(t);
    PollUnrepeated(t, u, Last(t.canon), t.canon);
    OrderedAscends(u, t.canon);
    CollapseSufficesIff(u, t.canon);
    SameView(t, u, t.canon);
  }

  /** If no cut off epoch is appended again, however many reorgs the run contains, the view with
      the collapsed poll applied is always the canonical chain. */
  lemma OneMarkerSuffices(t: Tree, cs: seq<Change>)
    requires Inv(t) && t.canon != []
    requires (forall c :: c in cs ==> CfxChange(c)) && Progressing(t, cs) && Run(t, cs).Some?
    ensures var u, cursor := Run(t, cs).value, t.body[Last(t.canon)].Position();
            && KnownPath(u, cursor.hash) && (forall h :: h in t.canon ==> h in u.body)
            && Polled(Visits(u, u.path[cursor.hash]), cursor) == Changes(u, t.canon)
            && (forall b :: b in Changes(u, t.canon) ==> b.CfxEpoch?)
            && Apply(Positions(Bodies(t, t.canon)), Collapse(Changes(u, t.canon))) == Positions(Bodies(u, u.canon))
  {
    RunInv(t, cs);
    RunOrdered(t, cs);
    CollapseAfter(t, Run(t, cs).value);
    InvSuffices(Run(t, cs).value, t.canon);
  }

  lemma TailPath(t: Tree)
    requires WellFormed(t) && t.canon != []
    ensures Last(t.canon) in t.path && t.path[Last(t.canon)] == t.canon
    ensures t.body[Last(t.canon)].hash == Last(t.canon)
  {
    assert PrefixRecorded(t, t.canon, |t.canon| - 1) && t.canon[..|t.canon|] == t.canon;
  }

  // ---------- appending a cut off epoch again ----------

  /** The last two epochs are reverted, and the first of them is appended again as `e`. */
  ghost predicate Reappends(t: Tree, to: nat, e: Body) {
    && Inv(t) && to > 0 && |t.canon| >= 2 && Kept(t, to, |t.canon|) == |t.canon| - 2
    && e == t.body[t.canon[|t.canon| - 2]]
  }

  lemma RevertsTwo(t: Tree, to: nat, s: Tree)
    requires Good(t) && to > 0 && |t.canon| >= 2 && Kept(t, to, |t.canon|) == |t.canon| - 2 && s == RevertAbove(t, to)
    ensures Good(s) && s.path == t.path && s.canon == t.canon[..|t.canon| - 2]
  {
    RevertAboveGood(t, to);
  }

  lemma ReappendedPlace(t: Tree, k: nat)
    requires IsPath(t, t.canon) && k < |t.canon|
    ensures t.canon[k] in t.path && t.path[t.canon[k]] == t.canon[..k] + [t.canon[k]] && t.canon[k] in t.canon[k..]
  {
    assert PrefixRecorded(t, t.canon, k);
    assert t.canon[..k + 1] == t.canon[..k] + [t.canon[k]];
    assert t.canon[k..][0] == t.canon[k];
  }

  lemma ReappendAccepted(t: Tree, to: nat, e: Body, s: Tree, k: nat)
    requires Good(t) && to > 0 && 2 <= |t.canon| == k + 2 && Kept(t, to, |t.canon|) == k && s == RevertAbove(t, to)
    requires CfxOnly(s) && s.path == t.path && s.canon == t.canon[..k]
    requires e.CfxEpoch? && e.hash == t.canon[k] && t.canon[k] in t.body
    ensures ApplyChange(s, Append(e)) == Some(PushBack(s, e))
  {
    ReappendedPlace(t, k);
    BodyAfterRevert(t, to, k, t.canon[k]);
  }

  lemma ReappendedShape(t: Tree, s: Tree, e: Body, n: nat)
    requires WellFormed(t) && Good(s) && s.path == t.path && 2 <= n == |t.canon| && s.canon == t.canon[..n - 2]
    requires GoodChange(Append(e)) && e.hash == t.canon[n - 2] && ApplyChange(s, Append(e)) == Some(PushBack(s, e))
    ensures var u := PushBack(s, e); Good(u) && IsPath(u, t.canon) && u.canon == t.canon[..n - 1]
  {
    ApplyGood(s, Append(e));
    ReappendedCanon(t, s, e, n);
    PathKept(t, PushBack(s, e), t.canon);
  }

  lemma ReappendedCanon(t: Tree, s: Tree, e: Body, n: nat)
    requires WellFormed(t) && s.path == t.path && 2 <= n == |t.canon| && s.canon == t.canon[..n - 2] && e.hash == t.canon[n - 2]
    ensures PushBack(s, e).canon == t.canon[..n - 1] && PushBack(s, e).path == t.path
  {
    assert PrefixRecorded(t, t.canon, n - 2);
    assert t.canon[..n - 1] == t.canon[..n - 2] + [t.canon[n - 2]];
    assert PushBack(s, e).path == t.path[e.hash := t.canon[..n - 1]];
  }

  lemma ReappendedBodies(t: Tree, s: Tree, e: Body)
    requires Above(s) && Keeps(t, s) && s.path == t.path && !e.Reorged()
    requires e.hash in t.body && e.Position() == t.body[e.hash].Position()
    requires e.hash in s.path && s.path[e.hash] == s.canon + [e.hash]
    ensures Above(PushBack(s, e)) && Keeps(t, PushBack(s, e))
  {
  }

  lemma PrefixForksAtEnd(u: Tree, p: seq<Hash>)
    requires p != [] && u.canon == p[..|p| - 1]
    ensures ForkPoint(u, p) == |p| - 1
  {
    CommonIsMaximal(p, u.canon, |p| - 1);
  }

  lemma CanonicalUnreverted(t: Tree, i: nat)
    requires Good(t) && i < |t.canon|
    ensures t.canon[i] in t.body && !t.body[t.canon[i]].Reorged() && t.body[t.canon[i]].hash == t.canon[i] != ""
  {
    assert t.canon[..|t.canon|] == t.canon && t.canon[i] in t.canon;
  }

  lemma ReappendedTree(t: Tree, to: nat, e: Body, s: Tree, n: nat)
    requires Reappends(t, to, e) && s == RevertAbove(t, to) && n == |t.canon|
    ensures var u := PushBack(s, e); Good(u) && IsPath(u, t.canon) && u.canon == t.canon[..n - 1]
  {
    CanonicalUnreverted(t, n - 2);
    RevertsTwo(t, to, s);
    ReappendAccepted(t, to, e, s, n - 2);
    ReappendedShape(t, s, e, n);
  }

  lemma ReappendedEpochs(t: Tree, to: nat, e: Body, s: Tree, n: nat)
    requires Reappends(t, to, e) && s == RevertAbove(t, to) && n == |t.canon|
    ensures var u := PushBack(s, e);
            && Above(u) && Keeps(t, u)
            && t.canon[n - 1] in u.body && u.body[t.canon[n - 1]].CfxEpoch? && u.body[t.canon[n - 1]].revertedTo == to
  {
    CanonicalUnreverted(t, n - 2);
    RevertsTwo(t, to, s);
    LastReverted(t, to, s);
    ReappendedPlace(t, n - 2);
    ReappendedBodies(t, s, e);
  }

  /** A client that stood at the last epoch is told to revert to `to`, which makes it drop the
      reappended epoch as well. */
  lemma ReappendedEpochIsLost(t: Tree, to: nat, e: Body)
    requires Reappends(t, to, e)
    ensures var u := PushBack(RevertAbove(t, to), e);
            && (forall h :: h in t.canon ==> h in u.body) && (forall h :: h in u.canon ==> h in u.body)
            && (forall b :: b in Changes(u, t.canon) ==> b.CfxEpoch?)
            && Apply(Positions(Bodies(t, t.canon)), Collapse(Changes(u, t.canon))) != Positions(Bodies(u, u.canon))
  {
    var s, n := RevertAbove(t, to), |t.canon|;
    ReappendedTree(t, to, e, s, n);
    ReappendedEpochs(t, to, e, s, n);
    LosesReappended(t, PushBack(s, e), to, n);
  }

  lemma LastReverted(t: Tree, to: nat, s: Tree)
    requires Ordered(t) && to > 0 && |t.canon| >= 2 && Kept(t, to, |t.canon|) == |t.canon| - 2 && s == RevertAbove(t, to)
    ensures var z := t.canon[|t.canon| - 1];
            && Above(s) && Keeps(t, s) && z != t.canon[|t.canon| - 2]
            && z in s.body && s.body[z].CfxEpoch? && s.body[z].revertedTo == to
  {
    var n := |t.canon|;
    PathDistinct(t, t.canon);
    RevertAboveKeeps(t, to);
    assert t.canon[n - 2..][1] == t.canon[n - 1];
    BodyAfterRevert(t, to, n - 2, t.canon[n - 1]);
  }

  lemma LosesReappended(t: Tree, u: Tree, to: nat, n: nat)
    requires Inv(t) && Good(u) && Above(u) && Keeps(t, u) && IsPath(u, t.canon)
    requires 2 <= n == |t.canon| && u.canon == t.canon[..n - 1]
    requires t.body[t.canon[n - 2]].number > to && u.body[t.canon[n - 1]].revertedTo == to
    ensures (forall h :: h in t.canon ==> h in u.body) && (forall b :: b in Changes(u, t.canon) ==> b.CfxEpoch?)
    ensures Apply(Positions(Bodies(t, t.canon)), Collapse(Changes(u, t.canon))) != Positions(Bodies(u, u.canon))
  {
    ForkAboveMarker(t, u, to, n);
    SameView(t, u, t.canon);
    AscendingKept(t, u);
    CollapseSufficesIff(u, t.canon);
  }

  lemma ForkAboveMarker(t: Tree, u: Tree, to: nat, n: nat)
    requires CfxOnly(t) && CfxOnly(u) && Keeps(t, u) && 2 <= n == |t.canon| && u.canon == t.canon[..n - 1]
    requires t.body[t.canon[n - 2]].number > to && u.body[t.canon[n - 1]].revertedTo == to
    ensures (forall h :: h in t.canon ==> h in u.body) && !ForkPointKept(u, t.canon)
  {
    PrefixForksAtEnd(u, t.canon);
  }

  lemma AscendingKept(t: Tree, u: Tree)
    requires Inv(t) && Keeps(t, u) && forall h :: h in t.canon ==> h in u.body
    ensures Ascending(Bodies(u, t.canon))
  {
    OrderedAscends(t, t.canon);
    forall i | 0 <= i < |t.canon| ensures Bodies(u, t.canon)[i].number == Bodies(t, t.canon)[i].number {
      assert t.canon[i] in t.body;
    }
  }
}
