/** The bounded FIFO between the receive interrupt and the loop: one producer, one consumer, two
    free-running 32-bit counters. Loads, stores and every piece of a record's copy are single steps of
    either side, in any interleaving. */
module ObserveRing {
  import opened Words
  import Arithmetic

  type Record = seq<byte>

  datatype Producer = Resting | Filling(value: Record, done: nat)
  datatype Consumer = Waiting | Copying(copy: Record)

  /** `offered` and `verdicts` list every push in order and whether it was taken; `popped` every pop. */
  datatype Ring = Ring(
    size: nat, width: nat, entries: seq<Record>, head: u32, tail: u32, producer: Producer, consumer: Consumer,
    accepted: seq<Record>, rejected: nat, popped: seq<Record>)

  datatype Event = BeginPush(value: Record) | StorePiece | StoreTail | BeginPop | CopyPiece | StoreHead

  function Slot(r: Ring, counter: u32): (s: nat)
    requires r.size > 0
    ensures s < r.size
  {
    counter % r.size
  }

  predicate Shaped(r: Ring) {
    r.size >= 2 && |r.entries| == r.size && forall s :: 0 <= s < r.size ==> |r.entries[s]| == r.width
  }

  ghost predicate Enabled(r: Ring, e: Event) {
    match e
    case BeginPush(value) => r.producer.Resting? && |value| == r.width
    case StorePiece => r.producer.Filling? && r.producer.done < r.width == |r.producer.value|
    case StoreTail => r.producer.Filling? && r.producer.done == r.width
    case BeginPop => r.consumer.Waiting?
    case CopyPiece => r.consumer.Copying? && |r.consumer.copy| < r.width
    case StoreHead => r.consumer.Copying? && |r.consumer.copy| == r.width
  }

  function After(r: Ring, e: Event): Ring
    requires Shaped(r) && Enabled(r, e)
  {
    match e
    case BeginPush(value) =>
      if Elapsed(r.tail, r.head) >= r.size then r.(rejected := r.rejected + 1)
      else r.(producer := Filling(value, 0))
    case StorePiece =>
      var s, k := Slot(r, r.tail), r.producer.done;
      r.(entries := r.entries[s := r.entries[s][k := r.producer.value[k]]], producer := Filling(r.producer.value, k + 1))
    case StoreTail =>
      r.(tail := (r.tail + 1) % WRAP, accepted := r.accepted + [r.producer.value], producer := Resting)
    case BeginPop => if r.head == r.tail then r else r.(consumer := Copying([]))
    case CopyPiece =>
      var c := r.consumer.copy;
      r.(consumer := Copying(c + [r.entries[Slot(r, r.head)][|c|]]))
    case StoreHead =>
      r.(head := (r.head + 1) % WRAP, popped := r.popped + [r.consumer.copy], consumer := Waiting)
  }

  // ----- the invariant -----

  /** The counters name the right slots: the size divides 2^32, or they have not wrapped yet. */
  ghost predicate Sound(r: Ring) {
    r.size > 0 && (WRAP % r.size == 0 || |r.accepted| < WRAP)
  }

  ghost predicate Inv(r: Ring) {
    var h, t := |r.popped|, |r.accepted|;
    && Shaped(r) && r.size <= 0x1_0000 && r.head == h % WRAP && r.tail == t % WRAP
    && h <= t <= h + r.size && r.popped == r.accepted[..h]
    && (forall i :: h <= i < t ==> |r.accepted[i]| == r.width && r.entries[i % r.size] == r.accepted[i])
    && (r.producer.Filling? ==>
          t < h + r.size && |r.producer.value| == r.width && r.producer.done <= r.width &&
          r.entries[t % r.size][..r.producer.done] == r.producer.value[..r.producer.done])
    && (r.consumer.Copying? ==>
          h < t && |r.consumer.copy| <= r.width && r.consumer.copy == r.accepted[h][..|r.consumer.copy|])
  }

  lemma Occupancy(h: nat, t: nat, n: nat)
    requires h <= t <= h + n && n <= 0x1_0000
    ensures Elapsed(t % WRAP, h % WRAP) == t - h
    ensures h % WRAP == t % WRAP <==> h == t
  {
  }

  lemma CounterSlot(counter: nat, n: nat)
    requires n > 0 && (WRAP % n == 0 || counter < WRAP)
    ensures counter % WRAP % n == counter % n
  {
    if WRAP % n == 0 {
      var k := WRAP / n;
      assert k * n == WRAP;
      Arithmetic.ResidueOfResidue(counter, k, n);
    }
  }

  lemma BeginPushInv(r: Ring, value: Record)
    requires Inv(r) && Enabled(r, BeginPush(value))
    ensures Inv(After(r, BeginPush(value)))
    ensures After(r, BeginPush(value)).producer.Filling? <==> |r.accepted| < |r.popped| + r.size
  {
    Occupancy(|r.popped|, |r.accepted|, r.size);
    hide Elapsed;
  }

  lemma StorePieceInv(r: Ring)
    requires Inv(r) && Sound(r) && Enabled(r, StorePiece)
    ensures Inv(After(r, StorePiece))
  {
    var q := After(r, StorePiece);
    var h, t, k := |r.popped|, |r.accepted|, r.producer.done;
    CounterSlot(t, r.size);
    var s := t % r.size;
    assert q.entries == r.entries[s := r.entries[s][k := r.producer.value[k]]];
    assert q.entries[s][..k + 1] == r.entries[s][..k] + [r.producer.value[k]];
    assert r.producer.value[..k + 1] == r.producer.value[..k] + [r.producer.value[k]];
    forall i | h <= i < t ensures q.entries[i % r.size] == r.accepted[i] {
      Arithmetic.SameResidue(i, t, r.size);
    }
    hide Slot;
  }

  lemma StoreTailInv(r: Ring)
    requires Inv(r) && Enabled(r, StoreTail)
    ensures Inv(After(r, StoreTail))
  {
    var q := After(r, StoreTail);
    var t := |r.accepted|;
    assert r.entries[t % r.size][..r.width] == r.entries[t % r.size] && r.producer.value[..r.width] == r.producer.value;
    Next(t);
  }

  lemma Next(c: nat)
    ensures (c % WRAP + 1) % WRAP == (c + 1) % WRAP
  {
  }

  lemma BeginPopInv(r: Ring)
    requires Inv(r) && Enabled(r, BeginPop)
    ensures Inv(After(r, BeginPop))
    ensures After(r, BeginPop).consumer.Copying? <==> |r.popped| < |r.accepted|
  {
    Occupancy(|r.popped|, |r.accepted|, r.size);
  }

  lemma CopyPieceInv(r: Ring)
    requires Inv(r) && Sound(r) && Enabled(r, CopyPiece)
    ensures Inv(After(r, CopyPiece))
  {
    var h, c := |r.popped|, r.consumer.copy;
    CounterSlot(h, r.size);
    assert r.accepted[h][..|c| + 1] == r.accepted[h][..|c|] + [r.accepted[h][|c|]];
  }

  lemma StoreHeadInv(r: Ring)
    requires Inv(r) && Enabled(r, StoreHead)
    ensures Inv(After(r, StoreHead))
  {
    var h := |r.popped|;
    assert r.accepted[h][..r.width] == r.accepted[h];
    assert r.accepted[..h + 1] == r.accepted[..h] + [r.accepted[h]];
    Next(h);
  }

  lemma StepInv(r: Ring, e: Event)
    requires Inv(r) && Sound(r) && Enabled(r, e)
    ensures Inv(After(r, e))
  {
    hide Inv, After;
    match e
    case BeginPush(value) => BeginPushInv(r, value);
    case StorePiece => StorePieceInv(r);
    case StoreTail => StoreTailInv(r);
    case BeginPop => BeginPopInv(r);
    case CopyPiece => CopyPieceInv(r);
    case StoreHead => StoreHeadInv(r);
  }

  // ----- whole runs -----

  ghost predicate Initial(r: Ring) {
    && Shaped(r) && r.size <= 0x1_0000 && r.head == 0 && r.tail == 0 && r.producer.Resting? && r.consumer.Waiting?
    && r.accepted == [] && r.popped == [] && r.rejected == 0
  }

  ghost predicate Reaches(r: Ring, es: seq<Event>, q: Ring)
    decreases |es|
  {
    if es == [] then q == r
    else Shaped(r) && Enabled(r, es[0]) && Reaches(After(r, es[0]), es[1..], q)
  }

  /** In every run of this ring size, what was popped is what was accepted, in order. */
  ghost predicate AlwaysFifo(size: nat) {
    forall r, es, q :: Initial(r) && r.size == size && Reaches(r, es, q) ==> q.popped <= q.accepted
  }

  lemma {:induction false} AcceptedGrows(r: Ring, es: seq<Event>, q: Ring)
    requires Reaches(r, es, q)
    ensures |r.accepted| <= |q.accepted| && r.size == q.size
    decreases |es|
  {
    if es != [] { AcceptedGrows(After(r, es[0]), es[1..], q); }
  }

  /** While the counters are sound the ring is a FIFO: popped records followed by the ring's contents
      are the accepted pushes in order. */
  lemma {:induction false} RunInv(r: Ring, es: seq<Event>, q: Ring)
    requires Inv(r) && Reaches(r, es, q) && Sound(q)
    ensures Inv(q)
    decreases |es|
  {
    if es != [] {
      hide Inv, After, Enabled;
      AcceptedGrows(r, es, q);
      StepInv(r, es[0]);
      RunInv(After(r, es[0]), es[1..], q);
    }
  }

  lemma PoppedThenQueued(r: Ring, es: seq<Event>, q: Ring)
    requires Initial(r) && Reaches(r, es, q) && Sound(q)
    ensures |q.popped| <= |q.accepted| <= |q.popped| + q.size
    ensures forall i :: 0 <= i < |q.popped| ==> q.popped[i] == q.accepted[i]
    ensures |q.entries| == q.size
    ensures forall i :: |q.popped| <= i < |q.accepted| ==> q.entries[i % q.size] == q.accepted[i]
  {
    RunInv(r, es, q);
  }

  // ----- the sizes for which it is a FIFO for ever -----

  ghost predicate Quiet(r: Ring) {
    Inv(r) && r.width == 1 && r.producer.Resting? && r.consumer.Waiting?
  }

  lemma {:induction false} ReachesJoin(r: Ring, a: seq<Event>, q: Ring, b: seq<Event>, p: Ring)
    requires Reaches(r, a, q) && Reaches(q, b, p)
    ensures Reaches(r, a + b, p)
    decreases |a|
  {
    hide Shaped, Enabled, After;
    if a == [] {
      assert a + b == b;
    } else {
      assert (a + b)[0] == a[0] && (a + b)[1..] == a[1..] + b;
      ReachesJoin(After(r, a[0]), a[1..], q, b, p);
    }
  }

  lemma Three(r: Ring, a: Event, b: Event, c: Event)
    requires Shaped(r) && Enabled(r, a) && Shaped(After(r, a)) && Enabled(After(r, a), b)
    requires Shaped(After(After(r, a), b)) && Enabled(After(After(r, a), b), c)
    ensures Reaches(r, [a, b, c], After(After(After(r, a), b), c))
  {
    hide Shaped, Enabled, After;
    var x, y := After(r, a), After(After(r, a), b);
    var z := After(y, c);
    assert [a, b, c][1..] == [b, c] && [b, c][1..] == [c] && [c][1..] == [];
    assert Reaches(z, [], z);
    assert Reaches(y, [c], z);
    assert Reaches(x, [b, c], z);
  }

  lemma PushRun(r: Ring, v: Record) returns (q: Ring)
    requires Quiet(r) && Sound(r) && |v| == 1 && |r.accepted| < |r.popped| + r.size
    ensures Reaches(r, [BeginPush(v), StorePiece, StoreTail], q) && Quiet(q)
    ensures q.accepted == r.accepted + [v] && q.popped == r.popped && q.size == r.size
  {
    BeginPushInv(r, v);
    var a := After(r, BeginPush(v));
    StorePieceInv(a);
    var b := After(a, StorePiece);
    StoreTailInv(b);
    q := After(b, StoreTail);
    Three(r, BeginPush(v), StorePiece, StoreTail);
  }

  lemma PopRun(r: Ring) returns (q: Ring)
    requires Quiet(r) && Sound(r) && |r.popped| < |r.accepted|
    ensures Reaches(r, [BeginPop, CopyPiece, StoreHead], q) && Quiet(q)
    ensures q.accepted == r.accepted && |q.popped| == |r.popped| + 1 && q.size == r.size
  {
    BeginPopInv(r);
    var a := After(r, BeginPop);
    CopyPieceInv(a);
    var b := After(a, CopyPiece);
    StoreHeadInv(b);
    q := After(b, StoreHead);
    Three(r, BeginPop, CopyPiece, StoreHead);
  }

  /** `n` records pushed and popped one at a time. */
  lemma {:induction false} PairRuns(r: Ring, v: Record, n: nat) returns (es: seq<Event>, q: Ring)
    requires Quiet(r) && |v| == 1 && |r.popped| == |r.accepted| && |r.accepted| + n < WRAP
    ensures Reaches(r, es, q) && Quiet(q) && q.size == r.size
    ensures |q.popped| == |q.accepted| == |r.accepted| + n
    decreases n
  {
    hide Reaches, Inv;
    es, q := [], r;
    if n == 0 {
      assert Reaches(r, [], r) by { Nothing(r); }
    } else {
      assert r.size >= 2 by { SizeOf(r); }
      var a := PushRun(r, v);
      var b := PopRun(a);
      var rest;
      rest, q := PairRuns(b, v, n - 1);
      ReachesJoin(a, [BeginPop, CopyPiece, StoreHead], b, rest, q);
      ReachesJoin(r, [BeginPush(v), StorePiece, StoreTail], a, [BeginPop, CopyPiece, StoreHead] + rest, q);
      es := [BeginPush(v), StorePiece, StoreTail] + ([BeginPop, CopyPiece, StoreHead] + rest);
    }
  }

  /** `n` records pushed and none popped. */
  lemma {:induction false} FillRuns(r: Ring, v: Record, n: nat) returns (es: seq<Event>, q: Ring)
    requires Quiet(r) && |v| == 1 && |r.accepted| + n <= |r.popped| + r.size && |r.accepted| + n <= WRAP
    ensures Reaches(r, es, q) && Quiet(q) && q.size == r.size && q.popped == r.popped
    ensures |q.accepted| == |r.accepted| + n
    ensures forall i :: |r.accepted| <= i < |q.accepted| ==> q.accepted[i] == v
    decreases n
  {
    hide Reaches, Inv;
    es, q := [], r;
    if n == 0 {
      assert Reaches(r, [], r) by { Nothing(r); }
    } else {
      assert r.size >= 2 by { SizeOf(r); }
      var a := PushRun(r, v);
      var rest;
      rest, q := FillRuns(a, v, n - 1);
      AcceptedKept(a, rest, q);
      ReachesJoin(r, [BeginPush(v), StorePiece, StoreTail], a, rest, q);
      es := [BeginPush(v), StorePiece, StoreTail] + rest;
    }
  }

  lemma {:induction false} AcceptedKept(r: Ring, es: seq<Event>, q: Ring)
    requires Reaches(r, es, q)
    ensures r.accepted <= q.accepted
    decreases |es|
  {
    if es != [] { AcceptedKept(After(r, es[0]), es[1..], q); }
  }

  lemma Nothing(r: Ring)
    ensures Reaches(r, [], r)
  {
  }

  lemma SizeOf(r: Ring)
    requires Inv(r)
    ensures r.size >= 2
  {
  }

  /** At the wrap a size that does not divide 2^32 jumps back to slot 0 early, onto an unread record. */
  lemma WrapCollides(n: nat)
    requires 2 <= n <= 0x1_0000 && WRAP % n != 0
    ensures var m := (WRAP - 1) % n; m + 1 < n && (WRAP - (m + 1)) % n == 0
  {
    var m, q := (WRAP - 1) % n, (WRAP - 1) / n;
    assert WRAP - 1 == q * n + m;
    Arithmetic.ResidueOfSum(q, 0, n);
    if m + 1 == n {
      assert WRAP == (q + 1) * n + 0;
      Arithmetic.ResidueOfSum(q + 1, 0, n);
    }
  }

  lemma CountersAtWrap(r: Ring)
    requires Inv(r) && |r.accepted| == WRAP && |r.popped| < WRAP < |r.popped| + r.size
    ensures r.tail == 0 && r.head == |r.popped| && Elapsed(r.tail, r.head) < r.size
  {
    Occupancy(|r.popped|, |r.accepted|, r.size);
    hide Elapsed;
  }

  lemma OverwritePush(r: Ring, v: Record) returns (c: Ring)
    requires Shaped(r) && r.width == 1 && r.producer.Resting? && r.consumer.Waiting? && |v| == 1
    requires r.tail == 0 && Elapsed(r.tail, r.head) < r.size
    ensures Reaches(r, [BeginPush(v), StorePiece, StoreTail], c)
    ensures Shaped(c) && c.width == 1 && c.producer.Resting? && c.consumer.Waiting?
    ensures c.entries[0] == v && c.tail == 1 && c.head == r.head && c.size == r.size
    ensures c.popped == r.popped && c.accepted == r.accepted + [v]
  {
    hide Elapsed;
    var a := After(r, BeginPush(v));
    assert Slot(a, a.tail) == 0;
    var b := After(a, StorePiece);
    assert b.entries[0] == v by { assert b.entries[0][0] == v[0]; }
    c := After(b, StoreTail);
    Three(r, BeginPush(v), StorePiece, StoreTail);
  }

  lemma OverwritePop(c: Ring, v: Record) returns (q: Ring)
    requires Shaped(c) && c.width == 1 && c.producer.Resting? && c.consumer.Waiting?
    requires c.entries[0] == v && c.tail != c.head && c.head % c.size == 0
    ensures Reaches(c, [BeginPop, CopyPiece, StoreHead], q)
    ensures q.popped == c.popped + [v] && q.accepted == c.accepted
  {
    var d := After(c, BeginPop);
    var e := After(d, CopyPiece);
    assert e.consumer == Copying(v) by { assert [] + [v[0]] == v; }
    q := After(e, StoreHead);
    Three(c, BeginPop, CopyPiece, StoreHead);
  }

  /** One more push after the wrap lands on the oldest unread record, and the next pop returns it. */
  lemma OverwriteRun(r: Ring, v: Record) returns (q: Ring)
    requires Quiet(r) && |v| == 1 && |r.accepted| == WRAP && 1 < |r.popped| < WRAP < |r.popped| + r.size
    requires |r.popped| % r.size == 0 && r.accepted[|r.popped|] != v
    ensures Reaches(r, [BeginPush(v), StorePiece, StoreTail] + [BeginPop, CopyPiece, StoreHead], q)
    ensures !(q.popped <= q.accepted)
  {
    assert Shaped(r);
    hide Inv, Reaches, Shaped, Elapsed;
    CountersAtWrap(r);
    var c := OverwritePush(r, v);
    q := OverwritePop(c, v);
    ReachesJoin(r, [BeginPush(v), StorePiece, StoreTail], c, [BeginPop, CopyPiece, StoreHead], q);
    var h := |r.popped|;
    assert q.popped[h] == v && q.accepted[h] == r.accepted[h];
  }

  /** A run of just over 2^32 records in which a pop returns the wrong one. */
  lemma BrokenRun(size: nat) returns (r: Ring, es: seq<Event>, q: Ring)
    requires 2 <= size <= 0x1_0000 && WRAP % size != 0
    ensures Initial(r) && r.size == size && Reaches(r, es, q) && !(q.popped <= q.accepted)
  {
    r := Ring(size, 1, seq(size, _ => [0]), 0, 0, Resting, Waiting, [], 0, []);
    assert Quiet(r) && Initial(r);
    var m := (WRAP - 1) % size;
    WrapCollides(size);
    hide Inv, Reaches, Initial;
    var es1, a := PairRuns(r, [0], WRAP - (m + 1));
    var es2, b := FillRuns(a, [0], m + 1);
    var c := OverwriteRun(b, [1]);
    ReachesJoin(a, es2, b, [BeginPush([1]), StorePiece, StoreTail] + [BeginPop, CopyPiece, StoreHead], c);
    es := es1 + (es2 + ([BeginPush([1]), StorePiece, StoreTail] + [BeginPop, CopyPiece, StoreHead]));
    ReachesJoin(r, es1, a, es2 + ([BeginPush([1]), StorePiece, StoreTail] + [BeginPop, CopyPiece, StoreHead]), c);
    q := c;
  }

  /** The ring keeps its order for ever exactly when its size divides 2^32. Any other size, such as the
      48 of the user guide's example, returns a wrong record once 2^32 records have gone through. */
  lemma FifoForeverIff(size: nat)
    requires 2 <= size <= 0x1_0000
    ensures AlwaysFifo(size) <==> WRAP % size == 0
  {
    hide Initial, Reaches;
    if WRAP % size == 0 {
      forall r, es, q | Initial(r) && r.size == size && Reaches(r, es, q) ensures q.popped <= q.accepted {
        assert r.size == q.size by { AcceptedGrows(r, es, q); }
        PoppedThenQueued(r, es, q);
      }
    } else {
      var r, es, q := BrokenRun(size);
    }
  }

  lemma GuideSizeBreaks()
    ensures !AlwaysFifo(48) && AlwaysFifo(32)
  {
    FifoForeverIff(48);
    FifoForeverIff(32);
  }

  // ----- the class -----

  lemma ReachesStep(r: Ring, es: seq<Event>, q: Ring, e: Event)
    requires Reaches(r, es, q) && Shaped(q) && Enabled(q, e)
    ensures Reaches(r, es + [e], After(q, e))
  {
    assert Reaches(q, [e], After(q, e)) by {
      assert [e][1..] == [];
    }
    hide Shaped, Enabled, After;
    ReachesJoin(r, es, q, [e], After(q, e));
  }

  /** The ring in its array. A call without interruption is one run of the steps above, returned as `es`;
      what interruptions may come between its steps is what the runs range over. */
  class ObserveRing {
    const entries: array<Record>
    const width: nat
    var head: u32
    var tail: u32
    ghost var producer: Producer
    ghost var consumer: Consumer
    ghost var accepted: seq<Record>
    ghost var rejected: nat
    ghost var popped: seq<Record>

    ghost function State(): Ring
      reads this, entries
    {
      Ring(entries.Length, width, entries[..], head, tail, producer, consumer, accepted, rejected, popped)
    }

    ghost predicate Valid()
      reads this, entries
    {
      Shaped(State()) && producer.Resting? && consumer.Waiting?
    }

    constructor (size: nat, blank: Record)
      requires 2 <= size <= 0x1_0000
      ensures Valid() && fresh(entries) && entries.Length == size && width == |blank|
      ensures Initial(State())
    {
      entries := new Record[size](_ => blank);
      width := |blank|;
      head, tail, producer, consumer := 0, 0, Resting, Waiting;
      accepted, rejected, popped := [], 0, [];
    }

    method Push(value: Record) returns (ok: bool, ghost es: seq<Event>)
      requires Valid() && |value| == width
      modifies this, entries
      ensures Valid() && Reaches(old(State()), es, State())
      ensures ok <==> Elapsed(old(tail), old(head)) < entries.Length
      ensures accepted == old(accepted) + (if ok then [value] else []) && popped == old(popped)
      ensures rejected == old(rejected) + if ok then 0 else 1
      ensures !ok ==> entries[..] == old(entries[..]) && head == old(head) && tail == old(tail)
    {
      hide Elapsed, Reaches;
      ghost var r := State();
      Nothing(r);
      ReachesStep(r, [], r, BeginPush(value));
      es := [] + [BeginPush(value)];
      if Elapsed(tail, head) >= entries.Length {
        rejected := rejected + 1;
        return false, es;
      }
      producer := Filling(value, 0);
      var s, k := tail % entries.Length, 0;
      while k < width
        invariant 0 <= k <= width && producer == Filling(value, k)
        invariant Shaped(State()) && Reaches(r, es, State())
        invariant State() == r.(entries := entries[..], producer := producer)
      {
        ReachesStep(r, es, State(), StorePiece);
        es := es + [StorePiece];
        entries[s] := entries[s][k := value[k]];
        producer := Filling(value, k + 1);
        k := k + 1;
      }
      ReachesStep(r, es, State(), StoreTail);
      es := es + [StoreTail];
      tail := (tail + 1) % WRAP;
      accepted, producer := accepted + [value], Resting;
      ok := true;
    }

    method Pop() returns (got: Option<Record>, ghost es: seq<Event>)
      requires Valid()
      modifies this
      ensures Valid() && Reaches(old(State()), es, State())
      ensures got == if old(head) == old(tail) then None else Some(entries[old(head) % entries.Length])
      ensures popped == (if got.Some? then old(popped) + [got.value] else old(popped)) && accepted == old(accepted)
    {
      hide Reaches;
      ghost var r := State();
      Nothing(r);
      ReachesStep(r, [], r, BeginPop);
      es := [] + [BeginPop];
      if head == tail {
        return None, es;
      }
      var s, copy: Record, k := head % entries.Length, [], 0;
      consumer := Copying([]);
      while k < width
        invariant 0 <= k <= width && consumer == Copying(copy) && |copy| == k
        invariant copy == entries[s][..k]
        invariant Reaches(r, es, State()) && State() == r.(consumer := consumer)
      {
        ReachesStep(r, es, State(), CopyPiece);
        es := es + [CopyPiece];
        copy := copy + [entries[s][k]];
        consumer := Copying(copy);
        k := k + 1;
      }
      ReachesStep(r, es, State(), StoreHead);
      es := es + [StoreHead];
      head := (head + 1) % WRAP;
      popped, consumer := popped + [copy], Waiting;
      assert entries[s][..k] == entries[s];
      got := Some(copy);
    }
  }
}
