/** The observation plane end to end: the interrupt's filter and push, the loop's pop and dispatch, in any
    interleaving of their single steps over the ring's wrapping counters. */
module ObservationRuns {
  import opened Words
  import opened SubscribedSets
  import opened Observation
  import R = ObserveRing

  const PAYLOAD := 8
  const RECORD_BYTES := 16

  /** A frame as the driver hands it over. */
  predicate IsFrame(r: Record) { r.dlc < 0x100 && |r.data| == PAYLOAD && r.id < 0x8000_0000 }

  // ----- the record in memory -----

  function IdBytes(id: u32): (b: seq<byte>)
    ensures |b| == 4
  {
    [id % 0x100, id / 0x100 % 0x100, id / 0x100 / 0x100 % 0x100, id / 0x100 / 0x100 / 0x100]
  }

  function Joined(a: int, b: int, c: int, d: int): int { a + 0x100 * (b + 0x100 * (c + 0x100 * d)) }

  function Flag(b: bool): byte { if b then 1 else 0 }

  function Bytes(r: Record): (b: seq<byte>)
    requires IsFrame(r)
    ensures |b| == RECORD_BYTES
  {
    IdBytes(r.id) + r.data + [r.dlc, Flag(r.extended), Flag(r.rtr), 0]
  }

  function FromBytes(b: seq<byte>): Record
    requires |b| == RECORD_BYTES
  {
    Record(Joined(b[0], b[1], b[2], b[3]) % WRAP, b[13] != 0, b[14] != 0, b[12], b[4..12])
  }

  lemma BytesRoundTrip(r: Record)
    requires IsFrame(r)
    ensures FromBytes(Bytes(r)) == r
  {
    hide IdBytes, Joined;
    var b, id := Bytes(r), IdBytes(r.id);
    IdRoundTrip(r.id);
    assert b[4..12] == r.data;
    assert forall i :: 0 <= i < 4 ==> b[i] == id[i];
  }

  lemma IdRoundTrip(id: u32)
    ensures var b := IdBytes(id); Joined(b[0], b[1], b[2], b[3]) % WRAP == id
  {
    var x, y := id / 0x100, id / 0x100 / 0x100;
    Digit(id);
    Digit(x);
    Digit(y);
  }

  lemma Digit(n: nat)
    ensures n == n % 0x100 + 0x100 * (n / 0x100)
  {
  }

  // ----- runs -----

  /** The ring, and the history: the frames that arrived, those the filter let through as they were
      recorded, whether each of these found room, and the subscribers' calls. */
  datatype Plane = Plane(ring: R.Ring, arrived: seq<Record>, offered: seq<Record>, room: seq<bool>, calls: seq<Call>)

  datatype Event = Arrive(r: Record) | StorePiece | StoreTail | BeginPop | CopyPiece | Dispatch

  predicate Wanted(subs: seq<Subscriber>, keys: set<u32>, r: Record) {
    AnyAll(subs) || KeyOf(r.id, r.extended) in keys
  }

  function Step(e: Event): R.Event
    requires e.Arrive? ==> IsFrame(e.r)
  {
    match e
    case Arrive(r) => R.BeginPush(Bytes(Captured(r)))
    case StorePiece => R.StorePiece
    case StoreTail => R.StoreTail
    case BeginPop => R.BeginPop
    case CopyPiece => R.CopyPiece
    case Dispatch => R.StoreHead
  }

  ghost predicate Enabled(p: Plane, e: Event) {
    R.Shaped(p.ring) && p.ring.width == RECORD_BYTES && (e.Arrive? ==> IsFrame(e.r)) && R.Enabled(p.ring, Step(e))
  }

  /** An unwanted frame touches nothing; a record is dispatched as soon as it is popped. */
  function After(p: Plane, subs: seq<Subscriber>, keys: set<u32>, e: Event): Plane
    requires Enabled(p, e)
  {
    if e.Arrive? && !Wanted(subs, keys, e.r) then p.(arrived := p.arrived + [e.r])
    else
      var ring := R.After(p.ring, Step(e));
      match e
      case Arrive(r) =>
        p.(ring := ring, arrived := p.arrived + [r], offered := p.offered + [Captured(r)],
           room := p.room + [ring.producer.Filling?])
      case Dispatch => p.(ring := ring, calls := p.calls + Calls(subs, FromBytes(p.ring.consumer.copy), 0))
      case _ => p.(ring := ring)
  }

  ghost predicate Reaches(p: Plane, subs: seq<Subscriber>, keys: set<u32>, es: seq<Event>, q: Plane)
    decreases |es|
  {
    if es == [] then q == p
    else Enabled(p, es[0]) && Reaches(After(p, subs, keys, es[0]), subs, keys, es[1..], q)
  }

  /** The recorded frames that found room, in order. */
  function Taken(offered: seq<Record>, room: seq<bool>): seq<Record>
    requires |offered| == |room|
  {
    if offered == [] then []
    else
      var n := |offered| - 1;
      Taken(offered[..n], room[..n]) + if room[n] then [offered[n]] else []
  }

  /** The arrived frames that the filter lets through, as they are recorded. */
  function Filtered(arrived: seq<Record>, subs: seq<Subscriber>, keys: set<u32>): seq<Record> {
    if arrived == [] then []
    else
      var n := |arrived| - 1;
      Filtered(arrived[..n], subs, keys) + if Wanted(subs, keys, arrived[n]) then [Captured(arrived[n])] else []
  }

  function AllBytes(records: seq<Record>): seq<seq<byte>>
    requires forall i :: 0 <= i < |records| ==> IsFrame(records[i])
  {
    seq(|records|, i requires 0 <= i < |records| => Bytes(records[i]))
  }

  /** The taken records whose last byte is stored: all but the one being written. */
  function Complete(p: Plane): seq<Record>
    requires |p.offered| == |p.room|
  {
    var taken := Taken(p.offered, p.room);
    if p.ring.producer.Filling? && taken != [] then taken[..|taken| - 1] else taken
  }

  ghost predicate AllFrames(records: seq<Record>) { forall i :: 0 <= i < |records| ==> IsFrame(records[i]) }

  function Last(s: seq<Record>): Record
    requires s != []
  {
    s[|s| - 1]
  }

  /** The ring holds the records taken, byte for byte. */
  ghost predicate RingInv(p: Plane) {
    && R.Inv(p.ring) && p.ring.width == RECORD_BYTES && |p.offered| == |p.room|
    && var taken := Taken(p.offered, p.room);
    && AllFrames(taken) && |taken| + p.ring.rejected == |p.offered| && p.ring.accepted == AllBytes(Complete(p))
    && (p.ring.producer.Filling? ==> taken != [] && p.ring.producer.value == Bytes(Last(taken)))
  }

  ghost predicate Inv(p: Plane, subs: seq<Subscriber>, keys: set<u32>) {
    && RingInv(p) && p.offered == Filtered(p.arrived, subs, keys)
    && |p.ring.popped| <= |Complete(p)| && p.calls == AllCalls(subs, Complete(p)[..|p.ring.popped|])
  }

  lemma TakenOne(offered: seq<Record>, room: seq<bool>, r: Record, fits: bool)
    requires |offered| == |room|
    ensures Taken(offered + [r], room + [fits]) == Taken(offered, room) + if fits then [r] else []
  {
    assert (offered + [r])[..|offered|] == offered && (room + [fits])[..|room|] == room;
  }

  lemma FilteredOne(arrived: seq<Record>, subs: seq<Subscriber>, keys: set<u32>, r: Record)
    ensures Filtered(arrived + [r], subs, keys) == Filtered(arrived, subs, keys) + if Wanted(subs, keys, r) then [Captured(r)] else []
  {
    assert (arrived + [r])[..|arrived|] == arrived;
  }

  lemma ArriveInv(p: Plane, subs: seq<Subscriber>, keys: set<u32>, r: Record)
    requires Inv(p, subs, keys) && Enabled(p, Arrive(r))
    ensures Inv(After(p, subs, keys, Arrive(r)), subs, keys)
  {
    var q := After(p, subs, keys, Arrive(r));
    FilteredOne(p.arrived, subs, keys, r);
    if Wanted(subs, keys, r) {
      OfferInv(p, q, Captured(r));
      hide RingInv, R.After, Complete;
    }
    hide Filtered, AllCalls, Bytes, Wanted;
  }

  lemma OfferInv(p: Plane, q: Plane, c: Record)
    requires RingInv(p) && IsFrame(c) && R.Shaped(p.ring) && R.Enabled(p.ring, R.BeginPush(Bytes(c)))
    requires q.ring == R.After(p.ring, R.BeginPush(Bytes(c)))
    requires q.offered == p.offered + [c] && q.room == p.room + [q.ring.producer.Filling?]
    ensures RingInv(q) && Complete(q) == Complete(p) && q.ring.popped == p.ring.popped
  {
    R.BeginPushInv(p.ring, Bytes(c));
    TakenOne(p.offered, p.room, c, q.ring.producer.Filling?);
    hide Taken, R.Inv, Bytes;
  }

  lemma StoreTailInv(p: Plane, subs: seq<Subscriber>, keys: set<u32>)
    requires Inv(p, subs, keys) && Enabled(p, StoreTail)
    ensures Inv(After(p, subs, keys, StoreTail), subs, keys)
  {
    var q := After(p, subs, keys, StoreTail);
    R.StoreTailInv(p.ring);
    hide Filtered, AllCalls, Bytes, Taken, R.Inv;
    assert Complete(q) == Complete(p) + [Last(Complete(q))];
    assert Complete(q)[..|p.ring.popped|] == Complete(p)[..|p.ring.popped|];
  }

  lemma DispatchInv(p: Plane, subs: seq<Subscriber>, keys: set<u32>)
    requires Inv(p, subs, keys) && Enabled(p, Dispatch)
    ensures Inv(After(p, subs, keys, Dispatch), subs, keys)
  {
    var q, h := After(p, subs, keys, Dispatch), |p.ring.popped|;
    R.StoreHeadInv(p.ring);
    assert p.ring.accepted[h][..RECORD_BYTES] == p.ring.accepted[h];
    assert p.ring.consumer.copy == p.ring.accepted[h] == Bytes(Complete(p)[h]);
    BytesRoundTrip(Complete(p)[h]);
    hide Filtered, Bytes, FromBytes, Taken, R.Inv, Calls;
    var done := Complete(p)[..h + 1];
    assert done[..h] == Complete(p)[..h] && done[h] == Complete(p)[h];
  }

  /** The producer's and the consumer's pieces leave the history alone. */
  lemma PieceInv(p: Plane, subs: seq<Subscriber>, keys: set<u32>, e: Event)
    requires Inv(p, subs, keys) && R.Sound(p.ring) && Enabled(p, e) && (e.StorePiece? || e.BeginPop? || e.CopyPiece?)
    ensures Inv(After(p, subs, keys, e), subs, keys)
  {
    var q := After(p, subs, keys, e);
    R.StepInv(p.ring, Step(e));
    hide Filtered, AllCalls, Bytes, Taken, R.Inv;
    assert Complete(q) == Complete(p);
  }

  lemma StepInv(p: Plane, subs: seq<Subscriber>, keys: set<u32>, e: Event)
    requires Inv(p, subs, keys) && R.Sound(p.ring) && Enabled(p, e)
    ensures Inv(After(p, subs, keys, e), subs, keys)
  {
    match e
    case Arrive(r) => ArriveInv(p, subs, keys, r);
    case StoreTail => StoreTailInv(p, subs, keys);
    case Dispatch => DispatchInv(p, subs, keys);
    case _ => PieceInv(p, subs, keys, e);
  }

  lemma SizeKept(p: Plane, subs: seq<Subscriber>, keys: set<u32>, e: Event)
    requires Enabled(p, e)
    ensures var q := After(p, subs, keys, e); q.ring.size == p.ring.size && |p.ring.accepted| <= |q.ring.accepted|
  {
  }

  lemma {:induction false} Grows(p: Plane, subs: seq<Subscriber>, keys: set<u32>, es: seq<Event>, q: Plane)
    requires Reaches(p, subs, keys, es, q)
    ensures q.ring.size == p.ring.size && |p.ring.accepted| <= |q.ring.accepted|
    decreases |es|
  {
    if es != [] {
      SizeKept(p, subs, keys, es[0]);
      hide After, Enabled;
      Grows(After(p, subs, keys, es[0]), subs, keys, es[1..], q);
    }
  }

  lemma {:induction false} RunInv(p: Plane, subs: seq<Subscriber>, keys: set<u32>, es: seq<Event>, q: Plane)
    requires Inv(p, subs, keys) && Reaches(p, subs, keys, es, q) && R.Sound(q.ring)
    ensures Inv(q, subs, keys)
    decreases |es|
  {
    if es != [] {
      Grows(p, subs, keys, es, q);
      StepInv(p, subs, keys, es[0]);
      hide Inv, After, Enabled;
      RunInv(After(p, subs, keys, es[0]), subs, keys, es[1..], q);
    }
  }

  ghost predicate Initial(p: Plane) {
    R.Initial(p.ring) && p.ring.width == RECORD_BYTES && p.arrived == [] && p.offered == [] && p.room == [] && p.calls == []
  }

  /** While the ring's counters are sound, over every interleaving and for every key set that setup may end
      with: exactly the arrived frames that the filter lets through are offered, each is taken or counted
      as overflow, and every subscriber has been called, in order, for exactly its matching records among
      those taken and dispatched so far. What the filter lets through some subscriber matches; what some
      subscriber matches it lets through exactly unless the frame's key was dropped as one too many. */
  lemma EndToEnd(p: Plane, subs: seq<Subscriber>, keys: set<u32>, es: seq<Event>, q: Plane)
    requires Initial(p) && SmallIds(subs) && keys <= Keys(subs) && Reaches(p, subs, keys, es, q) && R.Sound(q.ring)
    ensures q.offered == Filtered(q.arrived, subs, keys) && |q.room| == |q.offered|
    ensures forall r :: IsFrame(r) ==>
      (Wanted(subs, keys, r) <==>
        (exists i :: 0 <= i < |subs| && subs[i].Matches(r)) && (AnyAll(subs) || KeyOf(r.id, r.extended) !in Keys(subs) - keys))
    ensures |Taken(q.offered, q.room)| + q.ring.rejected == |q.offered|
    ensures |q.ring.popped| <= |Complete(q)| <= |q.ring.popped| + q.ring.size
    ensures forall i :: 0 <= i < |subs| ==>
      Received(q.calls, i) == Matching(subs[i], Complete(q)[..|q.ring.popped|])
  {
    assert Complete(p) == [] && Inv(p, subs, keys);
    RunInv(p, subs, keys, es, q);
    assert |Complete(q)| == |q.ring.accepted|;
    forall r | IsFrame(r)
      ensures Wanted(subs, keys, r) <==>
        (exists i :: 0 <= i < |subs| && subs[i].Matches(r)) && (AnyAll(subs) || KeyOf(r.id, r.extended) !in Keys(subs) - keys) {
      WantedIffMatched(subs, r);
      hide Keys;
    }
    hide Keys, Taken, Filtered, Wanted, Reaches;
    forall i | 0 <= i < |subs| ensures Received(q.calls, i) == Matching(subs[i], Complete(q)[..|q.ring.popped|]) {
      EachSubscriberGetsItsOwn(subs, Complete(q)[..|q.ring.popped|], i);
    }
  }
}
