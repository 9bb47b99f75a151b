/** The observation plane of one port: the interrupt's membership filter, the FIFO (whose interleavings
    are the subject of the ObserveRing module) and the loop's bounded, registration-ordered dispatch. */
module Observation {
  import opened Words
  import opened SubscribedSets

  datatype Record = Record(id: u32, extended: bool, rtr: bool, dlc: nat, data: seq<byte>)

  datatype Subscriber = Subscriber(id: u32, extended: bool, all: bool)
  {
    predicate Matches(r: Record) { all || (id == r.id && extended == r.extended) }
  }

  datatype Call = Call(subscriber: nat, record: Record)

  /** The payload as recorded: bytes at or beyond the length read as zero. */
  function Captured(r: Record): (c: Record)
    ensures |c.data| == |r.data| && forall i :: 0 <= i < |r.data| ==> c.data[i] == if i < r.dlc then r.data[i] else 0
  {
    r.(data := seq(|r.data|, i requires 0 <= i < |r.data| => if i < r.dlc then r.data[i] else 0))
  }

  /** The calls one record causes, from subscriber `i` on. */
  function Calls(subs: seq<Subscriber>, r: Record, i: nat): seq<Call>
    requires i <= |subs|
    decreases |subs| - i
  {
    if i == |subs| then []
    else (if subs[i].Matches(r) then [Call(i, r)] else []) + Calls(subs, r, i + 1)
  }

  function AllCalls(subs: seq<Subscriber>, records: seq<Record>): seq<Call> {
    if records == [] then [] else AllCalls(subs, records[..|records| - 1]) + Calls(subs, records[|records| - 1], 0)
  }

  function Received(calls: seq<Call>, i: nat): seq<Record> {
    if calls == [] then []
    else (if calls[0].subscriber == i then [calls[0].record] else []) + Received(calls[1..], i)
  }

  function Matching(s: Subscriber, records: seq<Record>): seq<Record> {
    if records == [] then []
    else
      var last := records[|records| - 1];
      Matching(s, records[..|records| - 1]) + if s.Matches(last) then [last] else []
  }

  lemma {:induction false} ReceivedSplit(a: seq<Call>, b: seq<Call>, i: nat)
    ensures Received(a + b, i) == Received(a, i) + Received(b, i)
  {
    if a == [] {
      assert a + b == b;
    } else {
      var first := if a[0].subscriber == i then [a[0].record] else [];
      assert (a + b)[0] == a[0] && (a + b)[1..] == a[1..] + b;
      assert Received(a + b, i) == first + Received(a[1..] + b, i);
      assert Received(a, i) == first + Received(a[1..], i);
      hide Received;
      ReceivedSplit(a[1..], b, i);
      assert first + (Received(a[1..], i) + Received(b, i)) == (first + Received(a[1..], i)) + Received(b, i);
    }
  }

  lemma {:induction false} CallsReach(subs: seq<Subscriber>, r: Record, from: nat, i: nat)
    requires from <= |subs| && i < |subs|
    ensures Received(Calls(subs, r, from), i) == if from <= i && subs[i].Matches(r) then [r] else []
    decreases |subs| - from
  {
    if from < |subs| {
      CallsReach(subs, r, from + 1, i);
      var first := if subs[from].Matches(r) then [Call(from, r)] else [];
      assert Calls(subs, r, from) == first + Calls(subs, r, from + 1);
      FirstReaches(first, from, r, i);
      hide Received, Calls, Subscriber.Matches;
      ReceivedSplit(first, Calls(subs, r, from + 1), i);
    }
  }

  lemma FirstReaches(first: seq<Call>, from: nat, r: Record, i: nat)
    requires first == [] || first == [Call(from, r)]
    ensures Received(first, i) == if first != [] && from == i then [r] else []
  {
    if first != [] {
      assert first[1..] == [];
      assert Received(first[1..], i) == [];
    }
  }

  /** Each subscriber is called for exactly its matching records, once each and in order. */
  lemma {:induction false} EachSubscriberGetsItsOwn(subs: seq<Subscriber>, records: seq<Record>, i: nat)
    requires i < |subs|
    ensures Received(AllCalls(subs, records), i) == Matching(subs[i], records)
  {
    if records != [] {
      var n := |records| - 1;
      EachSubscriberGetsItsOwn(subs, records[..n], i);
      ReceivedSplit(AllCalls(subs, records[..n]), Calls(subs, records[n], 0), i);
      CallsReach(subs, records[n], 0, i);
    }
  }

  /** Calls for one record come in registration order. */
  lemma {:induction false} InRegistrationOrder(subs: seq<Subscriber>, r: Record, from: nat)
    requires from <= |subs|
    ensures forall k :: 0 <= k < |Calls(subs, r, from)| ==> from <= Calls(subs, r, from)[k].subscriber < |subs|
    ensures forall j, k :: 0 <= j < k < |Calls(subs, r, from)| ==>
      Calls(subs, r, from)[j].subscriber < Calls(subs, r, from)[k].subscriber
    decreases |subs| - from
  {
    if from < |subs| { InRegistrationOrder(subs, r, from + 1); }
  }

  // ----- the plane as a value -----

  datatype Plane = Plane(
    capacity: nat, queue: seq<Record>, observed: nat, overflow: nat,
    accepted: seq<Record>, popped: seq<Record>, calls: seq<Call>)

  function Observed(p: Plane, wanted: bool, r: Record): Plane {
    if !wanted then p
    else if |p.queue| < p.capacity then
      p.(queue := p.queue + [Captured(r)], accepted := p.accepted + [Captured(r)], observed := p.observed + 1)
    else p.(overflow := p.overflow + 1)
  }

  function Drained(p: Plane, subs: seq<Subscriber>, limit: nat): Plane
    decreases limit
  {
    if limit == 0 || p.queue == [] then p
    else
      var r := p.queue[0];
      Drained(p.(queue := p.queue[1..], popped := p.popped + [r], calls := p.calls + Calls(subs, r, 0)), subs, limit - 1)
  }

  ghost predicate Inv(p: Plane, subs: seq<Subscriber>) {
    && p.popped + p.queue == p.accepted && |p.queue| <= p.capacity
    && p.observed == |p.accepted| && p.calls == AllCalls(subs, p.popped)
  }

  lemma ObservedInv(p: Plane, subs: seq<Subscriber>, wanted: bool, r: Record)
    requires Inv(p, subs)
    ensures var q := Observed(p, wanted, r);
      Inv(q, subs) && q.observed + q.overflow == p.observed + p.overflow + if wanted then 1 else 0
  {
    assert p.popped + (p.queue + [Captured(r)]) == (p.popped + p.queue) + [Captured(r)];
  }

  lemma {:induction false} DrainedInv(p: Plane, subs: seq<Subscriber>, limit: nat)
    requires Inv(p, subs)
    ensures var q := Drained(p, subs, limit);
      Inv(q, subs) && q.accepted == p.accepted && q.observed == p.observed && q.overflow == p.overflow
      && |q.popped| == |p.popped| + Min(limit, |p.queue|)
    decreases limit
  {
    if limit != 0 && p.queue != [] {
      var r := p.queue[0];
      var p1 := p.(queue := p.queue[1..], popped := p.popped + [r], calls := p.calls + Calls(subs, r, 0));
      assert p1.popped + p1.queue == p.popped + p.queue;
      assert p1.popped[..|p.popped|] == p.popped;
      DrainedInv(p1, subs, limit - 1);
    }
  }

  datatype Event = Frame(r: Record) | Pass(limit: nat)

  function Run(p: Plane, subs: seq<Subscriber>, wanted: Record -> bool, es: seq<Event>): Plane {
    if es == [] then p
    else
      var q := Run(p, subs, wanted, es[..|es| - 1]);
      match es[|es| - 1]
      case Frame(r) => Observed(q, wanted(r), r)
      case Pass(limit) => Drained(q, subs, limit)
  }

  function WantedIn(wanted: Record -> bool, es: seq<Event>): nat {
    if es == [] then 0
    else
      var last := es[|es| - 1];
      WantedIn(wanted, es[..|es| - 1]) + if last.Frame? && wanted(last.r) then 1 else 0
  }

  lemma {:induction false} RunInv(p: Plane, subs: seq<Subscriber>, wanted: Record -> bool, es: seq<Event>)
    requires Inv(p, subs)
    ensures var q := Run(p, subs, wanted, es);
      Inv(q, subs) && q.observed + q.overflow == p.observed + p.overflow + WantedIn(wanted, es)
  {
    if es != [] {
      var n := |es| - 1;
      RunInv(p, subs, wanted, es[..n]);
      var q := Run(p, subs, wanted, es[..n]);
      match es[n]
      case Frame(r) => ObservedInv(q, subs, wanted(r), r);
      case Pass(limit) => DrainedInv(q, subs, limit);
    }
  }

  /** Over any run: popped then queued records are the accepted ones in order, every wanted frame is
      either accepted or counted as overflow, and each subscriber has been called, in order, for
      exactly the popped records it matches. */
  lemma ObservationPlane(capacity: nat, subs: seq<Subscriber>, wanted: Record -> bool, es: seq<Event>)
    ensures var q := Run(Plane(capacity, [], 0, 0, [], [], []), subs, wanted, es);
      && q.popped + q.queue == q.accepted
      && |q.accepted| + q.overflow == WantedIn(wanted, es)
      && forall i :: 0 <= i < |subs| ==> Received(q.calls, i) == Matching(subs[i], q.popped)
  {
    var p := Plane(capacity, [], 0, 0, [], [], []);
    assert Inv(p, subs);
    RunInv(p, subs, wanted, es);
    var q := Run(p, subs, wanted, es);
    forall i | 0 <= i < |subs| ensures Received(q.calls, i) == Matching(subs[i], q.popped) {
      EachSubscriberGetsItsOwn(subs, q.popped, i);
    }
  }

  // ----- the port's methods -----

  /** The keys of the subscribers that name one frame. */
  ghost function Keys(subs: seq<Subscriber>): set<u32> {
    set s | s in subs && !s.all :: KeyOf(s.id, s.extended)
  }

  ghost predicate SmallIds(subs: seq<Subscriber>) {
    forall i :: 0 <= i < |subs| ==> subs[i].id < 0x8000_0000
  }

  predicate AnyAll(subs: seq<Subscriber>) {
    exists i :: 0 <= i < |subs| && subs[i].all
  }

  /** A key in the set, or the see-everything flag, is the same as some subscriber matching the frame. */
  lemma WantedIffMatched(subs: seq<Subscriber>, r: Record)
    requires SmallIds(subs) && r.id < 0x8000_0000
    ensures AnyAll(subs) || KeyOf(r.id, r.extended) in Keys(subs) <==> exists i :: 0 <= i < |subs| && subs[i].Matches(r)
  {
    if KeyOf(r.id, r.extended) in Keys(subs) {
      var s :| s in subs && !s.all && KeyOf(s.id, s.extended) == KeyOf(r.id, r.extended);
      KeyIdentifies(s.id, s.extended, r.id, r.extended);
      var i :| 0 <= i < |subs| && subs[i] == s;
      assert subs[i].Matches(r);
    }
    if AnyAll(subs) {
      var i :| 0 <= i < |subs| && subs[i].all;
      assert subs[i].Matches(r);
    }
  }

  class ObservingPort {
    const subscribed: SubscribedSet
    const subscribers: seq<Subscriber>
    const observeAll: bool
    const capacity: nat
    var queue: seq<Record>
    var observed: nat
    var overflow: nat
    ghost var accepted: seq<Record>
    ghost var popped: seq<Record>
    ghost var calls: seq<Call>

    ghost function Contents(): Plane
      reads this
    {
      Plane(capacity, queue, observed, overflow, accepted, popped, calls)
    }

    ghost predicate Valid()
      reads this, subscribed, subscribed.keys
    {
      subscribed.Valid()
    }

    /** Set up once from the subscribers registered before; `dropped` counts keys beyond the capacity. */
    constructor (subs: seq<Subscriber>, capacity: nat, empty: SubscribedSet)
      requires empty.Valid() && empty.Members() == {}
      modifies empty, empty.keys
      ensures Valid() && subscribers == subs && subscribed == empty
      ensures Contents() == Plane(capacity, [], 0, 0, [], [], [])
      ensures observeAll <==> AnyAll(subs)
      ensures subscribed.Members() <= Keys(subs)
      ensures |Keys(subs)| <= empty.keys.Length ==> subscribed.Members() == Keys(subs)
    {
      subscribers, subscribed, this.capacity := subs, empty, capacity;
      observeAll := AnyAll(subs);
      queue, observed, overflow := [], 0, 0;
      accepted, popped, calls := [], [], [];
      new;
      FillSet(empty, subs);
    }

    /** In the receive interrupt, for every frame the port retrieves. */
    method ObserveFrame(r: Record)
      requires Valid()
      modifies this
      ensures Valid()
      ensures Contents() == Observed(old(Contents()), observeAll || KeyOf(r.id, r.extended) in subscribed.Members(), r)
    {
      if !observeAll {
        var wanted := subscribed.Contains(r.id, r.extended);
        if !wanted {
          return;
        }
      }
      var record := Captured(r);
      if |queue| < capacity {
        queue := queue + [record];
        accepted := accepted + [record];
        observed := observed + 1;
      } else {
        overflow := overflow + 1;
      }
    }

    /** In the loop: at most `limit` records, each dispatched before the next is taken. */
    method DrainObservations(limit: nat)
      requires Valid()
      modifies this
      ensures Valid()
      ensures Contents() == Drained(old(Contents()), subscribers, limit)
    {
      var drained := 0;
      while drained < limit && queue != []
        invariant 0 <= drained <= limit && Valid()
        invariant Drained(Contents(), subscribers, limit - drained) == Drained(old(Contents()), subscribers, limit)
      {
        var r := queue[0];
        queue := queue[1..];
        popped := popped + [r];
        var made := Dispatch(r);
        calls := calls + made;
        drained := drained + 1;
      }
    }

    method Dispatch(r: Record) returns (made: seq<Call>)
      ensures made == Calls(subscribers, r, 0)
    {
      made := [];
      var i := 0;
      while i < |subscribers|
        invariant 0 <= i <= |subscribers|
        invariant made + Calls(subscribers, r, i) == Calls(subscribers, r, 0)
      {
        if subscribers[i].Matches(r) {
          made := made + [Call(i, r)];
        }
        i := i + 1;
      }
      assert made + [] == made;
    }
  }

  method FillSet(keys: SubscribedSet, subs: seq<Subscriber>)
    requires keys.Valid() && keys.Members() == {}
    modifies keys, keys.keys
    ensures keys.Valid() && keys.Members() <= Keys(subs)
    ensures |Keys(subs)| <= keys.keys.Length ==> keys.Members() == Keys(subs)
  {
    var i := 0;
    while i < |subs|
      invariant 0 <= i <= |subs| && keys.Valid()
      invariant keys.Members() <= Keys(subs[..i])
      invariant keys.Members() == Keys(subs[..i]) || keys.keys.Length < |Keys(subs)|
    {
      KeysStep(subs, i);
      if !subs[i].all {
        AscendingCount(keys.keys[..keys.count]);
        hide Elements, Ascending, KeyOf, Keys;
        ghost var was, key := keys.Members(), KeyOf(subs[i].id, subs[i].extended);
        assert |was| == keys.count;
        var ok := keys.Insert(subs[i].id, subs[i].extended);
        if !ok {
          Outgrown(was, key, Keys(subs));
        }
      }
      i := i + 1;
    }
    assert subs[..i] == subs;
  }

  lemma Outgrown(s: set<u32>, x: u32, t: set<u32>)
    requires s <= t && x in t && x !in s
    ensures |s| < |t|
  {
    assert s <= t - {x};
    Subset(s, t - {x});
  }

  lemma {:induction false} Subset(s: set<u32>, t: set<u32>)
    requires s <= t
    ensures |s| <= |t|
    decreases s
  {
    if s != {} {
      var x :| x in s;
      Subset(s - {x}, t - {x});
    }
  }

  lemma KeysStep(subs: seq<Subscriber>, i: nat)
    requires i < |subs|
    ensures Keys(subs[..i + 1]) == Keys(subs[..i]) + if subs[i].all then {} else {KeyOf(subs[i].id, subs[i].extended)}
    ensures Keys(subs[..i + 1]) <= Keys(subs)
  {
    assert subs[..i + 1] == subs[..i] + [subs[i]];
  }
}
