/** Optional values, hashes, ranges, and small functions that several components use. */
module Basics {
  datatype Option<+T> = None | Some(value: T)

  type Hash = string

  /** Block numbers `min` to `max`. */
  datatype Span = Span(min: nat, max: nat)

  function Concat<T>(ss: seq<seq<T>>): seq<T> {
    if ss == [] then [] else Concat(ss[..|ss| - 1]) + ss[|ss| - 1]
  }

  lemma ConcatAdd<T>(ss: seq<seq<T>>, s: seq<T>)
    ensures Concat(ss + [s]) == Concat(ss) + s
  {
    assert (ss + [s])[..|ss|] == ss;
  }

  /** `out` are the elements of `all` that `keep` accepts, each once and in their order: those at
      the increasing positions `ps`. */
  ghost predicate Picked<T>(all: seq<T>, keep: T -> bool, ps: seq<nat>, out: seq<T>) {
    && |out| == |ps|
    && (forall i :: 0 <= i < |ps| ==> ps[i] < |all| && keep(all[ps[i]]) && out[i] == all[ps[i]])
    && (forall i, j :: 0 <= i < j < |ps| ==> ps[i] < ps[j])
    && (forall p :: 0 <= p < |all| && keep(all[p]) ==> p in ps)
  }

  lemma PickedPush<T>(all: seq<T>, keep: T -> bool, ps: seq<nat>, out: seq<T>, x: T)
    requires Picked(all, keep, ps, out)
    ensures keep(x) ==> Picked(all + [x], keep, ps + [|all|], out + [x])
    ensures !keep(x) ==> Picked(all + [x], keep, ps, out)
  {
    var next := all + [x];
    assert forall p :: 0 <= p < |all| ==> next[p] == all[p];
    if keep(x) {
      var qs := ps + [|all|];
      assert qs[|ps|] == |all|;
      forall p | 0 <= p < |next| && keep(next[p]) ensures p in qs {
        assert p < |all| ==> p in ps;
      }
    }
  }

  function Ceil(x: real): int {
    -((-x).Floor)
  }
}
