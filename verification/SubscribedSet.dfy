/** The sorted array of subscribed (identifier, frame type) keys that the receive interrupt searches. */
module SubscribedSets {
  import opened Words

  /** The identifier moved up one bit, the frame type below it. */
  function KeyOf(id: u32, extended: bool): u32 {
    (id * 2) % WRAP + if extended then 1 else 0
  }

  lemma KeyIdentifies(a: u32, x: bool, b: u32, y: bool)
    requires a < 0x8000_0000 && b < 0x8000_0000
    ensures KeyOf(a, x) == KeyOf(b, y) <==> a == b && x == y
  {
  }

  ghost predicate Ascending(s: seq<u32>) {
    forall i, j :: 0 <= i < j < |s| ==> s[i] < s[j]
  }

  ghost function Elements(s: seq<u32>): set<u32> { set x | x in s }

  lemma SplicedElements(s: seq<u32>, at: nat, key: u32)
    requires at <= |s|
    ensures Elements(s[..at] + [key] + s[at..]) == Elements(s) + {key}
  {
    assert s == s[..at] + s[at..];
  }

  lemma {:induction false} AscendingCount(s: seq<u32>)
    requires Ascending(s)
    ensures |Elements(s)| == |s|
  {
    if s != [] {
      var n := |s| - 1;
      AscendingCount(s[..n]);
      assert s == s[..n] + [s[n]];
      assert Elements(s) == Elements(s[..n]) + {s[n]};
    }
  }

  lemma SplicedAscending(s: seq<u32>, at: nat, key: u32)
    requires at <= |s| && Ascending(s)
    requires forall i :: 0 <= i < at ==> s[i] < key
    requires forall i :: at <= i < |s| ==> key < s[i]
    ensures Ascending(s[..at] + [key] + s[at..])
  {
  }

  class SubscribedSet {
    const keys: array<u32>
    var count: nat

    ghost predicate Valid()
      reads this, keys
    {
      count <= keys.Length && Ascending(keys[..count])
    }

    ghost function Members(): (s: set<u32>)
      reads this, keys
      requires count <= keys.Length
    {
      Elements(keys[..count])
    }

    constructor (capacity: nat)
      ensures Valid() && fresh(keys) && keys.Length == capacity && count == 0 && Members() == {}
    {
      keys := new u32[capacity](_ => 0);
      count := 0;
    }

    /** The first position whose key is not below `key`. */
    method LowerBound(key: u32) returns (lo: nat)
      requires Valid()
      ensures lo <= count
      ensures forall i :: 0 <= i < lo ==> keys[i] < key
      ensures forall i :: lo <= i < count ==> key <= keys[i]
    {
      lo := 0;
      var hi := count;
      while lo < hi
        invariant 0 <= lo <= hi <= count
        invariant forall i :: 0 <= i < lo ==> keys[i] < key
        invariant forall i :: hi <= i < count ==> key <= keys[i]
      {
        var mid := (lo + hi) / 2;
        assert forall i, j :: 0 <= i < j < count ==> keys[..count][i] < keys[..count][j];
        if keys[mid] < key {
          lo := mid + 1;
        } else {
          hi := mid;
        }
      }
    }

    method Insert(id: u32, extended: bool) returns (ok: bool)
      requires Valid()
      modifies this, keys
      ensures Valid()
      ensures !ok <==> KeyOf(id, extended) !in old(Members()) && old(count) == keys.Length
      ensures Members() == if ok then old(Members()) + {KeyOf(id, extended)} else old(Members())
    {
      var key := KeyOf(id, extended);
      var lo := LowerBound(key);
      if lo < count && keys[lo] == key {
        return true;
      }
      assert key !in Members();
      if count >= keys.Length {
        return false;
      }
      ghost var was := keys[..count];
      SplicedAscending(was, lo, key);
      SplicedElements(was, lo, key);
      hide Ascending, Elements;
      OpenGap(lo);
      ghost var moved := keys[lo + 1..count + 1];
      assert moved == was[lo..] && keys[..lo] == was[..lo];
      keys[lo] := key;
      count := count + 1;
      assert keys[..count] == keys[..lo] + [keys[lo]] + keys[lo + 1..count];
      assert keys[lo + 1..count] == moved && keys[..lo] == was[..lo];
      ok := true;
    }

    /** Moves everything from `lo` on up by one. */
    method OpenGap(lo: nat)
      requires lo <= count < keys.Length
      modifies keys
      ensures keys[..lo] == old(keys[..lo]) && keys[lo + 1..count + 1] == old(keys[lo..count])
    {
      ghost var was := keys[..];
      var i := count;
      while i > lo
        invariant lo <= i <= count
        invariant keys[..i + 1] == was[..i + 1] && keys[i + 1..count + 1] == was[i..count]
      {
        assert keys[..i + 1][i - 1] == was[i - 1] && was[i - 1..count] == [was[i - 1]] + was[i..count];
        keys[i] := keys[i - 1];
        assert keys[i..count + 1] == [keys[i]] + keys[i + 1..count + 1];
        i := i - 1;
      }
    }

    method Contains(id: u32, extended: bool) returns (found: bool)
      requires Valid()
      ensures found <==> KeyOf(id, extended) in Members()
    {
      var key := KeyOf(id, extended);
      var lo, hi := 0, count;
      while lo < hi
        invariant 0 <= lo <= hi <= count
        invariant forall i :: 0 <= i < lo ==> keys[i] < key
        invariant forall i :: hi <= i < count ==> key < keys[i]
      {
        var mid := (lo + hi) / 2;
        var probe := keys[mid];
        assert forall i, j :: 0 <= i < j < count ==> keys[..count][i] < keys[..count][j];
        if probe < key {
          lo := mid + 1;
        } else if probe > key {
          hi := mid;
        } else {
          return true;
        }
      }
      found := false;
    }
  }
}
