/** The keep-newest snapshot ring: an interrupt writes entries under a sequence stamp, the loop copies
    the newest one piece by piece and checks the stamp on both sides of the copy. Every load, store
    and piece of a copy is one step, and the two sides interleave freely. */
module SnapshotRing {
  import opened Words
  import Arithmetic

  type Snapshot = seq<byte>

  datatype Producer = Resting | Writing(value: Snapshot, done: nat) | Sealed

  datatype Consumer =
    | Waiting
    | Attempting(attempt: nat)
    | HasHead(attempt: nat, seen: u32)
    | Copying(attempt: nat, seen: u32, before: u32, copy: Snapshot)

  /** The ring, both program counters, and the history: every push begun and every snapshot returned
      with its ticket. */
  datatype Ring = Ring(
    size: nat, width: nat, stamps: seq<u32>, cells: seq<Snapshot>, head: u32, lastSeen: u32, missed: u32,
    producer: Producer, consumer: Consumer,
    pushes: seq<Snapshot>, tickets: seq<nat>, returned: seq<Snapshot>)

  datatype Event = BeginPush(value: Snapshot) | StorePiece | StoreStamp | StoreHead
                 | BeginRead | LoadHead | LoadBefore | CopyPiece | LoadAfter

  const ATTEMPTS := 3

  function OddStamp(ticket: nat): u32 { (ticket * 2 + 1) % WRAP }

  function EvenStamp(ticket: nat): u32 { (ticket * 2 + 2) % WRAP }

  function Slot(r: Ring, ticket: nat): (s: nat)
    requires r.size > 0
    ensures s < r.size
  {
    ticket % r.size
  }

  predicate Shaped(r: Ring) {
    && r.size >= 2 && |r.stamps| == r.size && |r.cells| == r.size && (r.producer.Writing? ==> |r.producer.value| == r.width)
    && forall s :: 0 <= s < r.size ==> |r.cells[s]| == r.width
  }

  /** Fewer than 2^31 pushes: no stamp is ever reused. */
  ghost predicate Enabled(r: Ring, e: Event) {
    match e
    case BeginPush(value) => r.producer.Resting? && |value| == r.width && |r.pushes| + 1 < 0x8000_0000
    case StorePiece => r.producer.Writing? && r.producer.done < r.width
    case StoreStamp => r.producer.Writing? && r.producer.done == r.width
    case StoreHead => r.producer.Sealed?
    case BeginRead => r.consumer.Waiting?
    case LoadHead => r.consumer.Attempting?
    case LoadBefore => r.consumer.HasHead? && r.consumer.seen > 0
    case CopyPiece => r.consumer.Copying? && r.consumer.seen > 0 && |r.consumer.copy| < r.width
    case LoadAfter => r.consumer.Copying? && r.consumer.seen > 0 && |r.consumer.copy| == r.width
  }

  function Retry(attempt: nat): Consumer {
    if attempt + 1 < ATTEMPTS then Attempting(attempt + 1) else Waiting
  }

  function After(r: Ring, e: Event): Ring
    requires Shaped(r) && Enabled(r, e)
  {
    var writing := Slot(r, r.head);
    match e
    case BeginPush(value) =>
      r.(stamps := r.stamps[writing := OddStamp(r.head)], producer := Writing(value, 0), pushes := r.pushes + [value])
    case StorePiece =>
      var k := r.producer.done;
      r.(cells := r.cells[writing := r.cells[writing][k := r.producer.value[k]]],
         producer := Writing(r.producer.value, k + 1))
    case StoreStamp => r.(stamps := r.stamps[writing := EvenStamp(r.head)], producer := Sealed)
    case StoreHead => r.(head := (r.head + 1) % WRAP, producer := Resting)
    case BeginRead => r.(consumer := Attempting(0))
    case LoadHead =>
      r.(consumer := if r.head == 0 || r.head == r.lastSeen then Waiting else HasHead(r.consumer.attempt, r.head))
    case LoadBefore =>
      var c := r.consumer;
      r.(consumer := Copying(c.attempt, c.seen, r.stamps[Slot(r, c.seen - 1)], []))
    case CopyPiece =>
      var c := r.consumer;
      r.(consumer := c.(copy := c.copy + [r.cells[Slot(r, c.seen - 1)][|c.copy|]]))
    case LoadAfter =>
      var c := r.consumer;
      var after := r.stamps[Slot(r, c.seen - 1)];
      if c.before == after == EvenStamp(c.seen - 1) then
        r.(consumer := Waiting, missed := (r.missed + Elapsed(c.seen, r.lastSeen) - 1) % WRAP, lastSeen := c.seen,
           tickets := r.tickets + [c.seen - 1], returned := r.returned + [c.copy])
      else r.(consumer := Retry(c.attempt))
  }

  // ----- the invariant -----

  /** The newest ticket below `count` that belongs to slot `s`. */
  ghost function Newest(count: nat, size: nat, s: nat): (t: Option<nat>)
    requires size > 0
    ensures t.Some? ==> t.value < count && t.value % size == s
    ensures forall k :: (if t.Some? then t.value < k else 0 <= k) && k < count ==> k % size != s
  {
    if count == 0 then None
    else if (count - 1) % size == s then Some(count - 1)
    else Newest(count - 1, size, s)
  }

  ghost predicate ProducerInv(r: Ring)
    requires Shaped(r)
  {
    match r.producer
    case Resting => |r.pushes| == r.head
    case Writing(value, done) =>
      |r.pushes| == r.head + 1 && r.pushes[r.head] == value && |value| == r.width && done <= r.width &&
      r.cells[Slot(r, r.head)][..done] == value[..done]
    case Sealed => |r.pushes| == r.head + 1
  }

  /** A stamp names the newest push to its slot; a complete one vouches for the whole entry. */
  ghost predicate SlotInv(r: Ring, s: nat)
    requires Shaped(r) && s < r.size
  {
    match Newest(|r.pushes|, r.size, s)
    case None => r.stamps[s] == 0
    case Some(t) =>
      if t == r.head && r.producer.Writing? then r.stamps[s] == 2 * t + 1
      else r.stamps[s] == 2 * t + 2 && r.cells[s] == r.pushes[t]
  }

  ghost predicate ConsumerInv(r: Ring)
    requires Shaped(r)
  {
    var c := r.consumer;
    && (c.HasHead? || c.Copying? ==> r.lastSeen < c.seen <= r.head)
    && (c.Copying? ==> CopyInv(r, c.seen - 1, c.before, c.copy))
  }

  /** As long as the stamp stays what the copy started from, the copy is a piece of that push. */
  ghost predicate CopyInv(r: Ring, ticket: nat, before: u32, copy: Snapshot)
    requires Shaped(r)
  {
    var stamp := r.stamps[Slot(r, ticket)];
    && ticket < |r.pushes| && |copy| <= r.width == |r.pushes[ticket]| && 2 * ticket + 2 <= before <= stamp
    && (stamp == before == 2 * ticket + 2 ==> copy == r.pushes[ticket][..|copy|])
  }

  ghost predicate HistoryInv(r: Ring) {
    && |r.returned| == |r.tickets| && r.missed + |r.returned| == r.lastSeen <= r.head
    && r.head <= |r.pushes|
    && (forall k :: 0 <= k < |r.tickets| ==> r.tickets[k] < r.lastSeen && r.returned[k] == r.pushes[r.tickets[k]])
    && (forall j, k :: 0 <= j < k < |r.tickets| ==> r.tickets[j] < r.tickets[k])
  }

  ghost predicate Inv(r: Ring) {
    && Shaped(r) && |r.pushes| < 0x8000_0000
    && (forall t :: 0 <= t < |r.pushes| ==> |r.pushes[t]| == r.width)
    && ProducerInv(r) && (forall s :: 0 <= s < r.size ==> SlotInv(r, s))
    && ConsumerInv(r) && HistoryInv(r)
  }

  lemma Stamps(t: nat)
    requires t < 0x7fff_ffff
    ensures OddStamp(t) == 2 * t + 1 && EvenStamp(t) == 2 * t + 2
  {
  }

  /** Of the pushes begun, the newest one to a published ticket's slot is that ticket or a later lap. */
  lemma NewestAtLeast(count: nat, size: nat, t: nat)
    requires size > 0 && t < count
    ensures var u := Newest(count, size, t % size);
      u.Some? && u.value >= t && u.value < count && (u.value != t ==> u.value >= t + size)
  {
    var u := Newest(count, size, t % size);
    if u.Some? && t < u.value < t + size {
      Arithmetic.SameResidue(t, u.value, size);
    }
  }

  // ----- every step keeps the invariant -----

  lemma BeginPushSlots(r: Ring, value: Snapshot)
    requires Inv(r) && Enabled(r, BeginPush(value))
    ensures var q := After(r, BeginPush(value)); forall s :: 0 <= s < q.size ==> SlotInv(q, s)
  {
    var q := After(r, BeginPush(value));
    Stamps(r.head);
    forall s | 0 <= s < q.size ensures SlotInv(q, s) {
      assert SlotInv(r, s);
      assert Newest(|q.pushes|, q.size, s) == if r.head % q.size == s then Some(r.head) else Newest(|r.pushes|, r.size, s);
    }
  }

  lemma BeginPushInv(r: Ring, value: Snapshot)
    requires Inv(r) && Enabled(r, BeginPush(value))
    ensures Inv(After(r, BeginPush(value)))
  {
    var q := After(r, BeginPush(value));
    Stamps(r.head);
    if r.consumer.Copying? {
      var c := r.consumer;
      NewestAtLeast(|r.pushes|, r.size, c.seen - 1);
      assert SlotInv(r, Slot(r, c.seen - 1));
      assert CopyInv(q, c.seen - 1, c.before, c.copy);
    }
    BeginPushSlots(r, value);
    hide SlotInv, CopyInv, Newest;
  }

  lemma StorePieceInv(r: Ring)
    requires Inv(r) && Enabled(r, StorePiece)
    ensures Inv(After(r, StorePiece))
  {
    var q := After(r, StorePiece);
    var w, k := Slot(r, r.head), r.producer.done;
    assert q.cells[w][..k + 1] == r.cells[w][..k] + [r.producer.value[k]];
    assert r.producer.value[..k + 1] == r.producer.value[..k] + [r.producer.value[k]];
    NewestAtLeast(|r.pushes|, r.size, r.head);
    forall s | 0 <= s < q.size ensures SlotInv(q, s) {
      assert SlotInv(r, s);
    }
  }

  lemma StoreStampInv(r: Ring)
    requires Inv(r) && Enabled(r, StoreStamp)
    ensures Inv(After(r, StoreStamp))
  {
    var q := After(r, StoreStamp);
    var w := Slot(r, r.head);
    Stamps(r.head);
    NewestAtLeast(|r.pushes|, r.size, r.head);
    assert r.cells[w] == r.producer.value by {
      assert r.cells[w][..r.width] == r.cells[w] && r.producer.value[..r.width] == r.producer.value;
    }
    assert SlotInv(r, w);
    forall s | 0 <= s < q.size ensures SlotInv(q, s) {
      assert SlotInv(r, s);
    }
  }

  lemma StoreHeadInv(r: Ring)
    requires Inv(r) && Enabled(r, StoreHead)
    ensures Inv(After(r, StoreHead))
  {
    var q := After(r, StoreHead);
    forall s | 0 <= s < q.size ensures SlotInv(q, s) {
      assert SlotInv(r, s);
    }
  }

  lemma CopyPieceInv(r: Ring)
    requires Inv(r) && Enabled(r, CopyPiece)
    ensures Inv(After(r, CopyPiece))
  {
    var q, c := After(r, CopyPiece), r.consumer;
    var t, s := c.seen - 1, Slot(r, c.seen - 1);
    assert SlotInv(r, s);
    NewestAtLeast(|r.pushes|, r.size, t);
    assert r.pushes[t][..|c.copy| + 1] == r.pushes[t][..|c.copy|] + [r.pushes[t][|c.copy|]];
    forall s | 0 <= s < q.size ensures SlotInv(q, s) {
      assert SlotInv(r, s);
    }
  }

  lemma LoadInv(r: Ring, e: Event)
    requires Inv(r) && Enabled(r, e) && (e.BeginRead? || e.LoadHead? || e.LoadBefore?)
    ensures Inv(After(r, e))
  {
    if e.LoadBefore? {
      NewestAtLeast(|r.pushes|, r.size, r.consumer.seen - 1);
      assert SlotInv(r, Slot(r, r.consumer.seen - 1));
    }
    var q := After(r, e);
    forall s | 0 <= s < q.size ensures SlotInv(q, s) {
      assert SlotInv(r, s);
    }
  }

  ghost predicate Validates(r: Ring)
    requires Shaped(r) && Enabled(r, LoadAfter)
  {
    r.consumer.before == r.stamps[Slot(r, r.consumer.seen - 1)] == EvenStamp(r.consumer.seen - 1)
  }

  /** The copy of an attempt that passes both stamp checks is the whole snapshot pushed under the ticket. */
  lemma ValidatedIsWhole(r: Ring)
    requires Inv(r) && Enabled(r, LoadAfter) && Validates(r)
    ensures r.consumer.copy == r.pushes[r.consumer.seen - 1]
  {
    var c := r.consumer;
    Stamps(c.seen - 1);
    assert r.pushes[c.seen - 1][..r.width] == r.pushes[c.seen - 1];
  }

  lemma ValidatedHistory(r: Ring, q: Ring)
    requires HistoryInv(r) && q.pushes == r.pushes && q.head == r.head && r.consumer.Copying?
    requires var c := r.consumer;
      r.lastSeen < c.seen <= r.head && c.copy == r.pushes[c.seen - 1] && q.lastSeen == c.seen
      && q.missed == (r.missed + Elapsed(c.seen, r.lastSeen) - 1) % WRAP
      && q.tickets == r.tickets + [c.seen - 1] && q.returned == r.returned + [c.copy]
    ensures HistoryInv(q)
  {
  }

  lemma LoadAfterInv(r: Ring)
    requires Inv(r) && Enabled(r, LoadAfter)
    ensures Inv(After(r, LoadAfter))
  {
    var q, c := After(r, LoadAfter), r.consumer;
    assert forall s :: 0 <= s < q.size ==> SlotInv(q, s) by {
      forall s | 0 <= s < q.size ensures SlotInv(q, s) {
        assert SlotInv(r, s);
      }
    }
    hide SlotInv, Newest;
    if Validates(r) {
      ValidatedIsWhole(r);
      ValidatedHistory(r, q);
    }
    hide HistoryInv, EvenStamp, CopyInv, Slot;
  }

  lemma StepInv(r: Ring, e: Event)
    requires Inv(r) && Enabled(r, e)
    ensures Inv(After(r, e))
  {
    hide Inv, After;
    match e
    case BeginPush(value) => BeginPushInv(r, value);
    case StorePiece => StorePieceInv(r);
    case StoreStamp => StoreStampInv(r);
    case StoreHead => StoreHeadInv(r);
    case CopyPiece => CopyPieceInv(r);
    case LoadAfter => LoadAfterInv(r);
    case _ => LoadInv(r, e);
  }

  // ----- whole runs -----

  ghost predicate Initial(r: Ring) {
    && Shaped(r) && (forall s :: 0 <= s < r.size ==> r.stamps[s] == 0)
    && r.head == 0 && r.lastSeen == 0 && r.missed == 0 && r.producer.Resting? && r.consumer.Waiting?
    && r.pushes == [] && r.tickets == [] && r.returned == []
  }

  ghost predicate Reaches(r: Ring, es: seq<Event>, q: Ring)
    decreases |es|
  {
    if es == [] then q == r
    else Shaped(r) && Enabled(r, es[0]) && Reaches(After(r, es[0]), es[1..], q)
  }

  lemma {:induction false} RunInv(r: Ring, es: seq<Event>, q: Ring)
    requires Inv(r) && Reaches(r, es, q)
    ensures Inv(q)
    decreases |es|
  {
    if es != [] {
      hide Inv;
      StepInv(r, es[0]);
      RunInv(After(r, es[0]), es[1..], q);
    }
  }

  /** However the two sides interleave, only whole pushed snapshots come back, their tickets strictly
      increase, and every published push up to the last one seen was either returned or missed. */
  lemma OnlyWholeSnapshots(r: Ring, es: seq<Event>, q: Ring)
    requires Initial(r) && Reaches(r, es, q)
    ensures |q.tickets| == |q.returned| && q.head <= |q.pushes|
    ensures forall k :: 0 <= k < |q.tickets| ==>
      q.tickets[k] < q.lastSeen <= |q.pushes| && q.returned[k] == q.pushes[q.tickets[k]]
    ensures forall j, k :: 0 <= j < k < |q.tickets| ==> q.tickets[j] < q.tickets[k]
    ensures q.missed + |q.returned| == q.lastSeen
  {
    RunInv(r, es, q);
    hide SlotInv;
  }

  /** A failed attempt means the producer went all the way round the ring since the head was read. */
  lemma FailureMeansLapped(r: Ring)
    requires Inv(r) && Enabled(r, LoadAfter) && !Validates(r)
    ensures |r.pushes| >= r.consumer.seen + r.size
  {
    var c := r.consumer;
    var t := c.seen - 1;
    Stamps(t);
    NewestAtLeast(|r.pushes|, r.size, t);
    assert SlotInv(r, Slot(r, t));
  }

  // ----- a read that gives up -----

  /** Which attempt the consumer is in. */
  function AttemptOf(c: Consumer): nat { if c.Waiting? then 0 else c.attempt }

  /** Attempts of the run whose copy does not pass the stamp checks. */
  ghost function FailedIn(r: Ring, es: seq<Event>): nat
    decreases |es|
  {
    if es == [] || !Shaped(r) || !Enabled(r, es[0]) then 0
    else (if es[0].LoadAfter? && !Validates(r) then 1 else 0) + FailedIn(After(r, es[0]), es[1..])
  }

  /** Some attempt of the run finds no push that is newer than the one returned last. */
  ghost predicate NothingNewIn(r: Ring, es: seq<Event>)
    decreases |es|
  {
    es != [] && Shaped(r) && Enabled(r, es[0]) &&
    ((es[0].LoadHead? && (r.head == 0 || r.head == r.lastSeen)) || NothingNewIn(After(r, es[0]), es[1..]))
  }

  lemma AttemptStep(r: Ring, e: Event)
    requires Shaped(r) && Enabled(r, e) && !r.consumer.Waiting? && AttemptOf(r.consumer) < ATTEMPTS
    ensures var q := After(r, e); var failed := if e.LoadAfter? && !Validates(r) then 1 else 0;
      && |q.returned| == |r.returned| + (if e.LoadAfter? && Validates(r) then 1 else 0)
      && (!(e.LoadAfter? && Validates(r)) && !(e.LoadHead? && (r.head == 0 || r.head == r.lastSeen)) ==>
            if q.consumer.Waiting? then AttemptOf(r.consumer) + failed == ATTEMPTS
            else AttemptOf(q.consumer) == AttemptOf(r.consumer) + failed < ATTEMPTS)
  {
    hide Shaped;
  }

  lemma {:induction false} RestingStays(r: Ring, es: seq<Event>, q: Ring)
    requires Reaches(r, es, q) && r.consumer.Waiting? && BeginRead !in es
    ensures q.consumer.Waiting? && q.returned == r.returned && FailedIn(r, es) == 0
    decreases |es|
  {
    if es != [] {
      assert es[0] in es;
      RestingStep(r, es[0]);
      hide Shaped, After;
      RestingStays(After(r, es[0]), es[1..], q);
    }
  }

  lemma RestingStep(r: Ring, e: Event)
    requires Shaped(r) && Enabled(r, e) && r.consumer.Waiting? && e != BeginRead
    ensures After(r, e).consumer.Waiting? && After(r, e).returned == r.returned && !e.LoadAfter?
  {
  }

  lemma {:induction false} ReturnedGrows(r: Ring, es: seq<Event>, q: Ring)
    requires Reaches(r, es, q)
    ensures |q.returned| >= |r.returned|
    decreases |es|
  {
    if es != [] { ReturnedGrows(After(r, es[0]), es[1..], q); }
  }

  /** A read under way that ends without a snapshot has either found nothing new or failed in every one of its
      attempts; and, before it ends, it is in the attempt after those that failed. */
  lemma {:induction false} GivesUpOnlyAfterAll(r: Ring, es: seq<Event>, q: Ring)
    requires Reaches(r, es, q) && !r.consumer.Waiting? && AttemptOf(r.consumer) < ATTEMPTS && BeginRead !in es
    requires |q.returned| == |r.returned| && !NothingNewIn(r, es)
    ensures AttemptOf(r.consumer) + FailedIn(r, es) == if q.consumer.Waiting? then ATTEMPTS else AttemptOf(q.consumer)
    decreases |es|
  {
    if es != [] {
      AttemptStep(r, es[0]);
      assert es[0] in es;
      var r1 := After(r, es[0]);
      ReturnedGrows(r1, es[1..], q);
      hide Shaped, After;
      if r1.consumer.Waiting? { RestingStays(r1, es[1..], q); } else { GivesUpOnlyAfterAll(r1, es[1..], q); }
    }
  }

  // ----- the class -----

  lemma {:induction false} ReachesJoin(r: Ring, a: seq<Event>, q: Ring, b: seq<Event>, p: Ring)
    requires Reaches(r, a, q) && Reaches(q, b, p)
    ensures Reaches(r, a + b, p)
    decreases |a|
  {
    hide Inv, After;
    if a == [] {
      assert a + b == b;
    } else {
      assert (a + b)[0] == a[0] && (a + b)[1..] == a[1..] + b;
      ReachesJoin(After(r, a[0]), a[1..], q, b, p);
    }
  }

  lemma ReachesNothing(r: Ring)
    ensures Reaches(r, [], r)
  {
  }

  lemma ReachesStep(r: Ring, es: seq<Event>, q: Ring, e: Event)
    requires Reaches(r, es, q) && Inv(q) && Enabled(q, e)
    ensures Reaches(r, es + [e], After(q, e)) && Inv(After(q, e))
  {
    StepInv(q, e);
    assert Reaches(q, [e], After(q, e)) by {
      hide Inv, Enabled, After;
      assert [e][1..] == [];
    }
    ReachesJoin(r, es, q, [e], After(q, e));
  }

  lemma InvShape(r: Ring)
    requires Inv(r)
    ensures Shaped(r) && |r.pushes| < 0x8000_0000 && r.head <= |r.pushes|
    ensures r.producer.Resting? ==> r.head == |r.pushes|
    ensures r.producer.Writing? ==> |r.producer.value| == r.width
    ensures forall t :: 0 <= t < |r.pushes| ==> |r.pushes[t]| == r.width
  {
    hide SlotInv, ConsumerInv;
  }

  /** What is left of a write, without interruption. */
  lemma {:induction false} FillRun(r: Ring) returns (es: seq<Event>, q: Ring)
    requires Inv(r) && r.producer.Writing?
    ensures Reaches(r, es, q) && Inv(q)
    ensures Slot(r, r.head) < |r.cells| && |r.producer.value| == r.width
    ensures q == r.(producer := Writing(r.producer.value, r.width), cells := r.cells[Slot(r, r.head) := r.producer.value])
    decreases r.width - r.producer.done
  {
    var w, k, value := Slot(r, r.head), r.producer.done, r.producer.value;
    ReachesNothing(r);
    if k == r.width {
      assert r.cells[w] == value by { assert r.cells[w][..k] == r.cells[w] && value[..k] == value; }
      assert r.cells[w := value] == r.cells;
      es, q := [], r;
    } else {
      var q1 := After(r, StorePiece);
      ReachesStep(r, [], r, StorePiece);
      hide Inv, Reaches, After;
      es, q := FillRun(q1);
      ReachesJoin(r, [] + [StorePiece], q1, es, q);
      es := [] + [StorePiece] + es;
    }
  }

  /** What is left of a copy, without interruption. */
  lemma {:induction false} CopyRun(r: Ring) returns (es: seq<Event>, q: Ring)
    requires Inv(r) && r.consumer.Copying? && r.consumer.seen > 0
    requires Slot(r, r.consumer.seen - 1) < |r.cells| && r.consumer.copy <= r.cells[Slot(r, r.consumer.seen - 1)]
    ensures Reaches(r, es, q) && Inv(q)
    ensures q == r.(consumer := r.consumer.(copy := r.cells[Slot(r, r.consumer.seen - 1)])) && |q.consumer.copy| == r.width
    decreases r.width - |r.consumer.copy|
  {
    InvShape(r);
    var c, cell := r.consumer, r.cells[Slot(r, r.consumer.seen - 1)];
    ReachesNothing(r);
    if |c.copy| == r.width {
      es, q := [], r;
    } else {
      assert |c.copy| < r.width;
      var q1 := After(r, CopyPiece);
      ReachesStep(r, [], r, CopyPiece);
      assert q1.consumer.copy == cell[..|c.copy| + 1];
      hide Inv, Reaches, After;
      es, q := CopyRun(q1);
      ReachesJoin(r, [] + [CopyPiece], q1, es, q);
      es := [] + [CopyPiece] + es;
    }
  }

  /** A push as one uninterrupted run. */
  lemma PushRun(r: Ring, value: Snapshot) returns (es: seq<Event>, q: Ring)
    requires Inv(r) && r.producer.Resting? && |value| == r.width && |r.pushes| + 1 < 0x8000_0000
    ensures Reaches(r, es, q) && Inv(q) && Slot(r, r.head) < |r.stamps| == |r.cells|
    ensures q == r.(stamps := r.stamps[Slot(r, r.head) := EvenStamp(r.head)], cells := r.cells[Slot(r, r.head) := value],
                    head := (r.head + 1) % WRAP, pushes := r.pushes + [value])
  {
    InvShape(r);
    ReachesNothing(r);
    var a := After(r, BeginPush(value));
    ReachesStep(r, [], r, BeginPush(value));
    hide Inv, Reaches, OddStamp, EvenStamp;
    var fill, b := FillRun(a);
    ReachesJoin(r, [] + [BeginPush(value)], a, fill, b);
    es := [] + [BeginPush(value)] + fill;
    InvShape(b);
    ReachesStep(r, es, b, StoreStamp);
    var c := After(b, StoreStamp);
    ReachesStep(r, es + [StoreStamp], c, StoreHead);
    es, q := es + [StoreStamp] + [StoreHead], After(c, StoreHead);
  }

  /** A read as one uninterrupted run: the first attempt gets the newest snapshot, if it is a new one. */
  lemma ReadRun(r: Ring) returns (es: seq<Event>, q: Ring)
    requires Inv(r) && r.producer.Resting? && r.consumer.Waiting?
    ensures Reaches(r, es, q) && Inv(q) && r.lastSeen <= r.head == |r.pushes|
    ensures r.head == r.lastSeen ==> q == r
    ensures r.head != r.lastSeen ==> Shaped(r) && q == Accepted(r)
  {
    InvShape(r);
    LastSeenAtMost(r);
    ReachesNothing(r);
    ReachesStep(r, [], r, BeginRead);
    var a := r.(consumer := Attempting(0));
    ReachesStep(r, [] + [BeginRead], a, LoadHead);
    es := [] + [BeginRead] + [LoadHead];
    if r.head == 0 || r.head == r.lastSeen {
      q := r;
    } else {
      var b := r.(consumer := HasHead(0, r.head));
      hide Inv, Reaches;
      var rest;
      rest, q := AttemptRun(r, b);
      ReachesJoin(r, es, b, rest, q);
      es := es + rest;
    }
  }

  /** The ring after its newest snapshot was returned. */
  function Accepted(r: Ring): Ring
    requires Shaped(r) && 0 < r.head == |r.pushes|
  {
    r.(missed := (r.missed + Elapsed(r.head, r.lastSeen) - 1) % WRAP, lastSeen := r.head,
       tickets := r.tickets + [r.head - 1], returned := r.returned + [r.pushes[r.head - 1]])
  }

  lemma AttemptRun(r: Ring, b: Ring) returns (es: seq<Event>, q: Ring)
    requires Inv(b) && b == r.(consumer := HasHead(0, r.head)) && r.consumer.Waiting? && r.producer.Resting? && r.head > 0
    ensures Shaped(r) && r.head == |r.pushes| && Reaches(b, es, q) && Inv(q) && q == Accepted(r)
  {
    InvShape(b);
    ReachesNothing(b);
    ReachesStep(b, [], b, LoadBefore);
    var c := After(b, LoadBefore);
    hide Inv, Reaches, EvenStamp, Elapsed;
    var copy, d := CopyRun(c);
    ReachesJoin(b, [] + [LoadBefore], c, copy, d);
    UndisturbedValidates(d);
    ReachesStep(b, [] + [LoadBefore] + copy, d, LoadAfter);
    es, q := [] + [LoadBefore] + copy + [LoadAfter], After(d, LoadAfter);
  }

  /** With nothing in between, an attempt reads the newest push whole. */
  lemma UndisturbedValidates(r: Ring)
    requires Inv(r) && Enabled(r, LoadAfter) && r.producer.Resting? && r.consumer.seen == r.head
    ensures Validates(r) && r.consumer.copy == r.pushes[r.head - 1]
  {
    InvShape(r);
    if !Validates(r) { FailureMeansLapped(r); }
    ValidatedIsWhole(r);
  }

  /** The ring in its arrays. A call without interruption does what one run of the steps above does; what
      interruptions may come between the steps is what the runs range over. */
  class SnapshotRing {
    const stamps: array<u32>
    const cells: array<Snapshot>
    const width: nat
    var head: u32
    var lastSeen: u32
    var missed: u32
    ghost var pushes: seq<Snapshot>
    ghost var tickets: seq<nat>
    ghost var returned: seq<Snapshot>

    ghost function State(): Ring
      reads this, stamps, cells
    {
      Ring(stamps.Length, width, stamps[..], cells[..], head, lastSeen, missed, Resting, Waiting, pushes, tickets, returned)
    }

    ghost predicate Valid()
      reads this, stamps, cells
    {
      Inv(State())
    }

    constructor (size: nat, blank: Snapshot)
      requires size >= 2
      ensures Valid() && Initial(State()) && fresh(stamps) && fresh(cells) && stamps.Length == size && width == |blank|
    {
      stamps, cells := new u32[size](_ => 0), new Snapshot[size](_ => blank);
      width := |blank|;
      head, lastSeen, missed := 0, 0, 0;
      pushes, tickets, returned := [], [], [];
    }

    method Push(value: Snapshot)
      requires Valid() && |value| == width && |pushes| + 1 < 0x8000_0000
      modifies this, stamps, cells
      ensures Valid() && exists es :: Reaches(old(State()), es, State())
      ensures pushes == old(pushes) + [value] && lastSeen == old(lastSeen) && missed == old(missed) && returned == old(returned)
    {
      ghost var es, q := PushRun(State(), value);
      hide Inv, Reaches, EvenStamp, OddStamp;
      var s := head % stamps.Length;
      stamps[s] := OddStamp(head);
      cells[s] := value;
      stamps[s] := EvenStamp(head);
      head := (head + 1) % WRAP;
      pushes := pushes + [value];
      assert State() == q;
    }

    /** One attempt: the newest entry copied out between two looks at its stamp. */
    method Attempt() returns (got: Option<Snapshot>)
      requires Valid() && head > 0
      modifies `missed, `lastSeen, `tickets, `returned
      ensures old(Shaped(State()) && head == |pushes|) && State() == old(Accepted(State()))
      ensures got == Some(pushes[head - 1])
    {
      NewestIsWhole(State());
      hide Inv, EvenStamp, Elapsed;
      var s := (head - 1) % stamps.Length;
      var before := stamps[s];
      var copy := cells[s];
      var after := stamps[s];
      got := None;
      if before == after == EvenStamp(head - 1) {
        missed := (missed + Elapsed(head, lastSeen) - 1) % WRAP;
        lastSeen := head;
        tickets, returned := tickets + [head - 1], returned + [copy];
        got := Some(copy);
      }
    }

    /** The newest snapshot not seen before; uninterrupted, the first of the attempts succeeds. */
    method ReadLatest() returns (got: Option<Snapshot>)
      requires Valid()
      modifies this
      ensures Valid() && exists es :: Reaches(old(State()), es, State())
      ensures pushes == old(pushes) && lastSeen == |pushes|
      ensures got == if pushes == [] || old(lastSeen) == |pushes| then None else Some(pushes[|pushes| - 1])
      ensures returned == if got.Some? then old(returned) + [got.value] else old(returned)
    {
      ghost var r := State();
      ghost var es, q := ReadRun(r);
      hide Inv, Reaches, Elapsed;
      got := None;
      var attempt, over := 0, false;
      while attempt < ATTEMPTS && !over
        invariant 0 <= attempt <= ATTEMPTS
        invariant !over ==> attempt == 0 && got == None && State() == r
        invariant over ==> State() == q && got == if r.head == r.lastSeen then None else Some(r.pushes[r.head - 1])
      {
        if head == 0 || head == lastSeen {
          over := true;
        } else {
          got := Attempt();
          over := got.Some?;
        }
        attempt := attempt + 1;
      }
    }
  }

  /** Between pushes the newest entry is complete. */
  lemma NewestIsWhole(r: Ring)
    requires Inv(r) && r.producer.Resting? && r.head > 0
    ensures Shaped(r) && r.head == |r.pushes|
    ensures r.cells[Slot(r, r.head - 1)] == r.pushes[r.head - 1] && r.stamps[Slot(r, r.head - 1)] == EvenStamp(r.head - 1)
  {
    Stamps(r.head - 1);
    assert SlotInv(r, Slot(r, r.head - 1));
    NewestAtLeast(|r.pushes|, r.size, r.head - 1);
  }

  lemma LastSeenAtMost(r: Ring)
    requires Inv(r)
    ensures r.lastSeen <= r.head
  {
    hide SlotInv;
  }
}
