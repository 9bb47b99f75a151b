/** The FIFO that mirrors a CAN driver's transmit queue: a circular buffer of hand-offs whose
    completion also finds the older entries a bus-off orphaned. */
module OutstandingTrackers {
  import opened Words
  import opened Arithmetic

  /** Position of the oldest occurrence of `x`, or the length when there is none. */
  function Depth<T(==)>(s: seq<T>, x: T): (d: nat)
    ensures d <= |s|
    ensures d < |s| ==> s[d] == x
    ensures forall k :: 0 <= k < d ==> s[k] != x
  {
    if s == [] || s[0] == x then 0 else 1 + Depth(s[1..], x)
  }

  /** Completing `done` removes it and everything older; an untracked item removes nothing. */
  function Completed<T(==)>(s: seq<T>, done: T): seq<T> {
    var d := Depth(s, done);
    if d == |s| then s else s[d + 1..]
  }

  function Orphans<T(==)>(s: seq<T>, done: T): seq<T> {
    var d := Depth(s, done);
    if d == |s| then [] else s[..d]
  }

  function Advance(head: nat, n: nat): (next: nat)
    requires head < n
    ensures next == if head + 1 < n then head + 1 else 0
  {
    Wrap(head + 1, n);
    (head + 1) % n
  }

  lemma DepthIs<T>(s: seq<T>, x: T, d: nat)
    requires d <= |s| && (forall k :: 0 <= k < d ==> s[k] != x) && (d < |s| ==> s[d] == x)
    ensures Depth(s, x) == d
  {
  }

  /** The entries of a circular buffer, oldest first. */
  function Ring<T>(items: seq<T>, head: nat, count: nat): (s: seq<T>)
    requires head < |items| && count <= |items|
    ensures |s| == count
    ensures forall i :: 0 <= i < count ==> s[i] == items[if head + i < |items| then head + i else head + i - |items|]
  {
    if head + count <= |items| then items[head..head + count]
    else items[head..] + items[..head + count - |items|]
  }

  lemma RingTail<T>(items: seq<T>, head: nat, count: nat)
    requires head < |items| && 0 < count <= |items|
    ensures Ring(items, Advance(head, |items|), count - 1) == Ring(items, head, count)[1..]
    ensures Ring(items, head, count)[0] == items[head]
  {
    hide Advance, Ring;
    var s, t := Ring(items, head, count), Ring(items, Advance(head, |items|), count - 1);
    assert forall i :: 0 <= i < count - 1 ==> t[i] == s[i + 1];
  }

  lemma PopStep<T>(s: seq<T>, i: nat)
    requires i < |s|
    ensures s[i..][0] == s[i] && s[i..][1..] == s[i + 1..] && s[..i] + [s[i]] == s[..i + 1]
  {
  }

  class OutstandingTracker<T(==)> {
    const items: array<T>
    var head: nat
    var count: nat

    ghost predicate Valid()
      reads this
    {
      head < items.Length && count <= items.Length
    }

    ghost function Contents(): (s: seq<T>)
      reads this, items
      requires Valid()
    {
      Ring(items[..], head, count)
    }

    constructor (capacity: nat, filler: T)
      requires capacity > 0
      ensures Valid() && fresh(items) && items.Length == capacity && Contents() == []
    {
      items := new T[capacity](_ => filler);
      head, count := 0, 0;
    }

    method Push(item: T) returns (ok: bool)
      requires Valid()
      modifies this, items
      ensures Valid()
      ensures ok == (|old(Contents())| < items.Length)
      ensures Contents() == if ok then old(Contents()) + [item] else old(Contents())
    {
      if count >= items.Length {
        return false;
      }
      ghost var before := Contents();
      Wrap(head + count, items.Length);
      items[(head + count) % items.Length] := item;
      count := count + 1;
      assert Contents()[..count - 1] == before;
      ok := true;
    }

    /** Pops `done`; `reclaimed` lists the older entries in the order they are handed to the caller. */
    method Complete(done: T) returns (reclaimed: seq<T>)
      requires Valid()
      modifies this
      ensures Valid()
      ensures Contents() == Completed(old(Contents()), done)
      ensures reclaimed == Orphans(old(Contents()), done)
    {
      hide Advance, Ring;
      ghost var before := Contents();
      var depth := Find(done);
      if depth == count {
        return [];
      }
      reclaimed := PopOldest(depth);
      RingTail(items[..], head, count - depth);
      assert before[depth..][1..] == before[depth + 1..];
      head := Advance(head, items.Length);
      count := count - (depth + 1);
    }

    method Find(done: T) returns (depth: nat)
      requires Valid()
      ensures depth == Depth(Contents(), done)
    {
      depth := 0;
      while depth < count && items[(head + depth) % items.Length] != done
        invariant depth <= count
        invariant forall k :: 0 <= k < depth ==> Contents()[k] != done
      {
        Wrap(head + depth, items.Length);
        depth := depth + 1;
      }
      if depth < count {
        Wrap(head + depth, items.Length);
      }
      DepthIs(Contents(), done, depth);
    }

    /** Moves the head past the `depth` oldest entries; the caller still has to lower the count. */
    method PopOldest(depth: nat) returns (reclaimed: seq<T>)
      requires Valid() && depth <= count
      modifies `head
      ensures Valid() && Ring(items[..], head, count - depth) == old(Contents())[depth..]
      ensures reclaimed == old(Contents())[..depth]
    {
      reclaimed := [];
      ghost var before, all, n := Contents(), items[..], count;
      hide Advance, Ring;
      var i := 0;
      while i < depth
        invariant 0 <= i <= depth
        invariant head < items.Length && Ring(all, head, n - i) == before[i..]
        invariant reclaimed == before[..i]
      {
        RingTail(all, head, n - i);
        PopStep(before, i);
        reclaimed := reclaimed + [items[head]];
        head := Advance(head, items.Length);
        i := i + 1;
      }
    }

    method ReclaimHead() returns (item: Option<T>)
      requires Valid()
      modifies this
      ensures Valid()
      ensures old(Contents()) == [] ==> item == None && Contents() == []
      ensures old(Contents()) != [] ==> item == Some(old(Contents())[0]) && Contents() == old(Contents())[1..]
    {
      if count == 0 {
        return None;
      }
      item := Some(items[head]);
      RingTail(items[..], head, count);
      head := Advance(head, items.Length);
      count := count - 1;
    }

    method Size() returns (n: nat)
      requires Valid()
      ensures n == |Contents()|
    {
      n := count;
    }
  }
}
