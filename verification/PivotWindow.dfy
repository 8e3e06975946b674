/** The window that caches the pivot hashes of the latest epochs. Epoch numbers are 64-bit
    unsigned integers, and the largest one stands for "unset".
 */
module PivotWindow {
  import opened Basics

  const EPOCH_NIL: nat := 0xFFFF_FFFF_FFFF_FFFF
  const TWO_TO_32: nat := 0x1_0000_0000

  /** Decrement with 64-bit wrap-around. */
  function Dec(n: nat): nat {
    if n == 0 then EPOCH_NIL else n - 1
  }

  class Window {
    const capacity: nat
    var hashes: map<nat, Hash>
    var from: nat
    var to: nat

    predicate IsSet()
      reads this
    {
      from != EPOCH_NIL && to != EPOCH_NIL
    }

    /** Number of cached epochs as a 32-bit integer. */
    function Size(): nat
      reads this
    {
      if !IsSet() || from > to then 0 else (to - from + 1) % TWO_TO_32
    }

    /** Unset and empty, or caching exactly the epochs `from` to `to`, within the capacity. */
    ghost predicate Valid()
      reads this
    {
      && capacity < TWO_TO_32
      && if hashes == map[] then from == to == EPOCH_NIL
         else
           && from <= to < EPOCH_NIL
           && (forall e: nat :: e in hashes <==> from <= e <= to)
           && (to - from + 1 <= capacity || from == to)
    }

    constructor (c: nat)
      requires c < TWO_TO_32
      ensures Valid() && hashes == map[] && capacity == c
    {
      capacity := c;
      hashes, from, to := map[], EPOCH_NIL, EPOCH_NIL;
    }

    method Reset()
      requires capacity < TWO_TO_32
      modifies this
      ensures Valid() && hashes == map[]
    {
      hashes, from, to := map[], EPOCH_NIL, EPOCH_NIL;
    }

    /** First epoch that is kept when `epoch` is pushed. */
    ghost function KeptFrom(epoch: nat): int
      reads this
    {
      if hashes == map[] then epoch
      else if to - from + 1 < capacity then from
      else if capacity == 0 then epoch
      else epoch + 1 - capacity
    }

    /** Drops the oldest epochs until one more fits, or none is left. */
    method Expire()
      requires Valid() && (hashes != map[] ==> to + 1 < EPOCH_NIL)
      modifies `hashes, `from
      ensures old(hashes) == map[] ==> hashes == map[] && from == old(from)
      ensures old(hashes) != map[] ==> from == old(KeptFrom(to + 1)) <= to + 1
      ensures forall e: nat :: e in hashes <==> e in old(hashes) && from <= e
      ensures forall e :: e in hashes ==> hashes[e] == old(hashes)[e]
    {
      while Size() != 0 && Size() >= capacity
        invariant IsSet() <==> old(hashes) != map[]
        invariant if IsSet() then old(from) <= from <= to + 1 else hashes == map[] && from == old(from)
        invariant IsSet() ==> to - from + 1 <= capacity || from == to || from == to + 1
        invariant IsSet() ==> from <= old(KeptFrom(to + 1)) || from == old(from)
        invariant forall e: nat :: e in hashes <==> e in old(hashes) && from <= e
        invariant forall e :: e in hashes ==> hashes[e] == old(hashes)[e]
        decreases Size()
      {
        hashes := hashes - {from};
        from := from + 1;
      }
    }

    /** Caches the pivot of the next epoch, dropping the oldest ones beyond the capacity. Refuses,
        changing nothing, an epoch that does not continue the window. */
    method Push(epoch: nat, hash: Hash, parent: Hash) returns (ok: bool)
      requires Valid() && epoch < EPOCH_NIL
      modifies this
      ensures Valid()
      ensures ok <==> old(hashes) == map[] || (epoch == old(to) + 1 && parent == old(hashes)[old(to)])
      ensures !ok ==> hashes == old(hashes) && from == old(from) && to == old(to)
      ensures ok ==> to == epoch && from == old(KeptFrom(epoch))
      ensures ok ==> forall e: nat :: e in hashes <==> e == epoch || (e in old(hashes) && from <= e)
      ensures ok ==> hashes[epoch] == hash && forall e :: e in hashes && e != epoch ==> hashes[e] == old(hashes)[e]
    {
      if Size() > 0 {
        if to + 1 != epoch {
          return false;
        }
        if to !in hashes || parent != hashes[to] {
          return false;
        }
      }
      Expire();
      hashes := hashes[epoch := hash];
      if !IsSet() {
        from, to := epoch, epoch;
      } else if to < epoch {
        to := epoch;
      }
      assert epoch in hashes;
      ok := true;
    }

    /** Forgets the epochs from `until` on. */
    method Popn(until: nat)
      requires Valid()
      modifies this
      ensures Valid()
      ensures forall e: nat :: e in hashes <==> e in old(hashes) && e < until
      ensures forall e :: e in hashes ==> hashes[e] == old(hashes)[e]
      ensures hashes != map[] ==> from == old(from) && to == if old(to) < until then old(to) else until - 1
    {
      if Size() == 0 || to < until {
        return;
      }
      while to >= until
        invariant from == old(from) && IsSet() && from <= to <= old(to) && until <= to + 1
        invariant forall e: nat :: e in hashes <==> from <= e <= to
        invariant forall e :: e in hashes ==> hashes[e] == old(hashes)[e]
      {
        hashes := hashes - {to};
        to := Dec(to);
        if Size() == 0 {
          hashes, from, to := map[], EPOCH_NIL, EPOCH_NIL;
          return;
        }
      }
      assert from in hashes;
    }
  }
}
