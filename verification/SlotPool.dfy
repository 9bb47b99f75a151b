/** Occupancy of a static array of TX slots. */
module SlotPools {
  import opened Words

  /** The lowest free index at or above `from`. */
  function FirstFree(used: seq<bool>, from: nat): (slot: Option<nat>)
    requires from <= |used|
    ensures slot.None? <==> forall k :: from <= k < |used| ==> used[k]
    ensures slot.Some? ==> from <= slot.value < |used| && !used[slot.value] && forall k :: from <= k < slot.value ==> used[k]
    decreases |used| - from
  {
    if from == |used| then None
    else if !used[from] then Some(from)
    else FirstFree(used, from + 1)
  }

  function CountUsed(used: seq<bool>): nat {
    if used == [] then 0 else CountUsed(used[..|used| - 1]) + if used[|used| - 1] then 1 else 0
  }

  class SlotPool {
    const used: array<bool>

    constructor (capacity: nat)
      ensures fresh(used) && used.Length == capacity
      ensures used[..] == seq(capacity, _ => false)
    {
      used := new bool[capacity](_ => false);
    }

    /** Claims the lowest free slot; `None` when the pool is exhausted. */
    method Acquire() returns (slot: Option<nat>)
      modifies used
      ensures slot == old(FirstFree(used[..], 0))
      ensures used[..] == if slot.Some? then old(used[..])[slot.value := true] else old(used[..])
    {
      var i := 0;
      while i < used.Length
        invariant 0 <= i <= used.Length
        invariant used[..] == old(used[..])
        invariant forall k :: 0 <= k < i ==> used[k]
      {
        if !used[i] {
          assert used[..][i] == used[i] && forall k :: 0 <= k < i ==> used[..][k];
          used[i] := true;
          return Some(i);
        }
        i := i + 1;
      }
      assert forall k :: 0 <= k < used.Length ==> used[..][k];
      slot := None;
    }

    method Release(index: nat)
      requires index < used.Length
      modifies used
      ensures used[..] == old(used[..])[index := false]
    {
      used[index] := false;
    }

    method InUse() returns (count: nat)
      ensures count == CountUsed(used[..])
    {
      count := 0;
      var i := 0;
      while i < used.Length
        invariant 0 <= i <= used.Length
        invariant count == CountUsed(used[..i])
      {
        assert used[..i + 1][..i] == used[..i];
        if used[i] {
          count := count + 1;
        }
        i := i + 1;
      }
      assert used[..i] == used[..];
    }
  }
}
