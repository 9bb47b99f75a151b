/** The master's schedule: which header is due, scanned from where the last one was found. */
module LinSchedule {
  import opened Words
  import opened Arithmetic

  /** A zero interval marks a free entry; an entry never sent is due at once. */
  datatype Item = Item(id: bv8, interval: u32, lastSent: u32, sentOnce: bool)

  predicate Due(item: Item, now: u32) {
    item.interval != 0 && (!item.sentOnce || Elapsed(now, item.lastSent) >= item.interval)
  }

  /** Places from `start` on, cyclically. */
  function Place(start: nat, k: nat, n: nat): (i: nat)
    requires start < n && k < n
    ensures i < n && i == if start + k < n then start + k else start + k - n
  {
    Wrap(start + k, n);
    (start + k) % n
  }

  function Next(i: nat, n: nat): (j: nat)
    requires i < n
    ensures j == if i + 1 < n then i + 1 else 0
  {
    Wrap(i + 1, n);
    (i + 1) % n
  }

  /** How many places the scan passes before a due entry; `|items|` when none is due. */
  function Scan(items: seq<Item>, now: u32, start: nat, k: nat): (d: nat)
    requires start < |items| && k <= |items|
    ensures k <= d <= |items|
    ensures d < |items| ==> Due(items[Place(start, d, |items|)], now)
    ensures forall j :: k <= j < d ==> !Due(items[Place(start, j, |items|)], now)
    decreases |items| - k
  {
    if k == |items| || Due(items[Place(start, k, |items|)], now) then k else Scan(items, now, start, k + 1)
  }

  datatype Schedule = Schedule(items: seq<Item>, next: nat)

  /** One call: the entry sent, if any, is stamped and the scan will resume after it. */
  function MasterSend(s: Schedule, now: u32, busIdle: bool): (Schedule, Option<nat>)
    requires s.next < |s.items|
  {
    var n := |s.items|;
    var d := Scan(s.items, now, s.next, 0);
    if d == n || !busIdle then (s, None)
    else
      var i := Place(s.next, d, n);
      (Schedule(s.items[i := s.items[i].(lastSent := now, sentOnce := true)], Next(i, n)), Some(i))
  }

  /** How far the scan still is from entry `i`. */
  function Distance(s: Schedule, i: nat): nat
    requires s.next < |s.items| && i < |s.items|
  {
    if s.next <= i then i - s.next else i + |s.items| - s.next
  }

  /** A due entry is either sent now or comes nearer: nothing in front of it can be sent twice first. */
  lemma DueComesNearer(s: Schedule, now: u32, i: nat)
    requires s.next < |s.items| && i < |s.items| && Due(s.items[i], now)
    ensures var (t, sent) := MasterSend(s, now, true);
      && sent.Some? && t.next < |t.items| == |s.items|
      && (sent.value == i || (t.items[i] == s.items[i] && Distance(t, i) < Distance(s, i)))
  {
    var n, d := |s.items|, Scan(s.items, now, s.next, 0);
    hide Place, Next, Due;
    assert Place(s.next, Distance(s, i), n) == i;
    assert d <= Distance(s, i);
    hide Scan;
  }

  /** One call: what the clock reads, and whether the bus is idle. */
  datatype Tick = Tick(now: u32, idle: bool)

  /** Entry `i` is sent in one of the calls. */
  predicate SentIn(s: Schedule, ticks: seq<Tick>, i: nat)
    requires s.next < |s.items|
    decreases |ticks|
  {
    ticks != [] &&
    (MasterSend(s, ticks[0].now, ticks[0].idle).1 == Some(i) || SentIn(MasterSend(s, ticks[0].now, ticks[0].idle).0, ticks[1..], i))
  }

  function IdleTicks(ticks: seq<Tick>): nat
    decreases |ticks|
  {
    if ticks == [] then 0 else (if ticks[0].idle then 1 else 0) + IdleTicks(ticks[1..])
  }

  /** A busy bus costs an entry nothing but time: nothing is sent, and what was due stays due. */
  lemma BusyBusWaits(s: Schedule, now: u32)
    requires s.next < |s.items|
    ensures MasterSend(s, now, false) == (s, None)
  {
  }

  /** No entry starves: one that is due at every call is sent once the bus has been idle for as many of them as
      there are entries up to it, however short the other intervals are. */
  lemma {:induction false} NoStarvation(s: Schedule, ticks: seq<Tick>, i: nat)
    requires s.next < |s.items| && i < |s.items| && IdleTicks(ticks) > Distance(s, i)
    requires forall k :: 0 <= k < |ticks| ==> Due(s.items[i], ticks[k].now)
    ensures SentIn(s, ticks, i)
    decreases |ticks|
  {
    assert forall k :: 0 <= k < |ticks[1..]| ==> ticks[1..][k] == ticks[k + 1];
    if ticks[0].idle {
      DueComesNearer(s, ticks[0].now, i);
      var (t, sent) := MasterSend(s, ticks[0].now, true);
      hide MasterSend, Due;
      if sent != Some(i) { NoStarvation(t, ticks[1..], i); }
    } else {
      BusyBusWaits(s, ticks[0].now);
      hide MasterSend, Due;
      NoStarvation(s, ticks[1..], i);
    }
  }

  /** Nothing that is not due is sent, and what is sent is not due again before its interval has gone by. */
  lemma SentOnlyWhenDue(s: Schedule, now: u32, idle: bool, later: u32)
    requires s.next < |s.items|
    ensures var (t, sent) := MasterSend(s, now, idle);
      && (sent.Some? <==> idle && exists i :: 0 <= i < |s.items| && Due(s.items[i], now))
      && (sent.Some? ==>
            && sent.value < |s.items| == |t.items| && Due(s.items[sent.value], now)
            && (Due(t.items[sent.value], later) <==> Elapsed(later, now) >= s.items[sent.value].interval))
      && forall j :: 0 <= j < |s.items| && sent != Some(j) ==> t.items[j] == s.items[j]
  {
    var n, d := |s.items|, Scan(s.items, now, s.next, 0);
    forall i | 0 <= i < n && Due(s.items[i], now) ensures d < n {
      assert Place(s.next, Distance(s, i), n) == i;
    }
    hide Scan, Elapsed;
  }

  // ----- entering an identifier -----

  /** First used entry for `id`, and first free entry, from `k` on. */
  function UsedFor(items: seq<Item>, id: bv8, k: nat): (i: nat)
    requires k <= |items|
    ensures k <= i <= |items| && (i < |items| ==> items[i].interval != 0 && items[i].id == id)
    ensures forall j :: k <= j < i ==> items[j].interval == 0 || items[j].id != id
    decreases |items| - k
  {
    if k == |items| || (items[k].interval != 0 && items[k].id == id) then k else UsedFor(items, id, k + 1)
  }

  function FreeItem(items: seq<Item>, k: nat): (i: nat)
    requires k <= |items|
    ensures k <= i <= |items| && (i < |items| ==> items[i].interval == 0)
    ensures forall j :: k <= j < i ==> items[j].interval != 0
    decreases |items| - k
  {
    if k == |items| || items[k].interval == 0 then k else FreeItem(items, k + 1)
  }

  /** A known identifier's entry is overwritten, with a zero interval freed; a new one takes a free entry. */
  function Entered(items: seq<Item>, id: bv8, interval: u32): (seq<Item>, bool) {
    var u, f := UsedFor(items, id, 0), FreeItem(items, 0);
    if u < |items| then (items[u := Item(id, interval, 0, false)], true)
    else if f < |items| then (items[f := Item(id, interval, 0, false)], true)
    else (items, false)
  }

  /** No identifier is scheduled twice. */
  ghost predicate OncePerId(items: seq<Item>) {
    forall i, j :: 0 <= i < j < |items| && items[i].interval != 0 && items[j].interval != 0 ==> items[i].id != items[j].id
  }

  /** Overwriting the one entry that may hold `id`. */
  lemma PutEntry(items: seq<Item>, k: nat, id: bv8, interval: u32, now: u32)
    requires OncePerId(items) && k < |items| && (items[k].interval == 0 || items[k].id == id)
    requires forall j :: 0 <= j < |items| && j != k && items[j].interval != 0 ==> items[j].id != id
    ensures var after := items[k := Item(id, interval, 0, false)];
      && OncePerId(after) && Holds(after, id, interval, now)
      && forall j :: 0 <= j < |items| && items[j].interval != 0 && items[j].id != id ==> after[j] == items[j]
  {
    hide Elapsed;
    var after := items[k := Item(id, interval, 0, false)];
    assert after[k].id == id && (interval != 0 ==> Due(after[k], now));
  }

  /** `id` is scheduled and due, or, with a zero interval, not scheduled. */
  ghost predicate Holds(items: seq<Item>, id: bv8, interval: u32, now: u32) {
    if interval != 0 then exists i :: 0 <= i < |items| && items[i].id == id && items[i].interval == interval && Due(items[i], now)
    else forall i :: 0 <= i < |items| ==> items[i].interval == 0 || items[i].id != id
  }

  /** An entered identifier is scheduled exactly once, due at the very next call, and every other entry stays
      as it was; it is refused only when it is new and the schedule is full. */
  lemma EnteredOnce(items: seq<Item>, id: bv8, interval: u32, now: u32)
    requires OncePerId(items)
    ensures var (after, ok) := Entered(items, id, interval);
      && OncePerId(after) && |after| == |items| && (if ok then Holds(after, id, interval, now) else after == items)
      && (!ok <==> forall i :: 0 <= i < |items| ==> items[i].interval != 0 && items[i].id != id)
      && (forall i :: 0 <= i < |items| && items[i].interval != 0 && items[i].id != id ==> after[i] == items[i])
  {
    var u, f := UsedFor(items, id, 0), FreeItem(items, 0);
    if u < |items| {
      PutEntry(items, u, id, interval, now);
    } else if f < |items| {
      PutEntry(items, f, id, interval, now);
    }
    hide Holds, Due;
  }

  class MasterSchedule {
    const items: array<Item>
    var next: nat

    ghost predicate Valid()
      reads this
    {
      next < items.Length
    }

    ghost function State(): Schedule
      reads this, items
    {
      Schedule(items[..], next)
    }

    constructor (items: array<Item>)
      requires items.Length > 0
      ensures Valid() && this.items == items && next == 0
    {
      this.items, next := items, 0;
    }

    method SendNext(now: u32, busIdle: bool) returns (sent: Option<nat>)
      requires Valid()
      modifies this, items
      ensures Valid() && (State(), sent) == MasterSend(old(State()), now, busIdle)
    {
      var n, k := items.Length, 0;
      while k < n && !Due(items[Place(next, k, n)], now)
        invariant 0 <= k <= n
        invariant Scan(items[..], now, next, 0) == Scan(items[..], now, next, k)
      {
        k := k + 1;
      }
      if k == n || !busIdle {
        return None;
      }
      var i := Place(next, k, n);
      items[i] := items[i].(lastSent := now, sentOnce := true);
      next := Next(i, n);
      sent := Some(i);
    }

    method EnterId(id: bv8, interval: u32) returns (ok: bool)
      requires Valid()
      modifies items
      ensures Valid() && (items[..], ok) == Entered(old(items[..]), id, interval) && next == old(next)
    {
      var u := 0;
      while u < items.Length && !(items[u].interval != 0 && items[u].id == id)
        invariant 0 <= u <= items.Length && UsedFor(items[..], id, 0) == UsedFor(items[..], id, u)
      {
        u := u + 1;
      }
      if u == items.Length {
        u := 0;
        while u < items.Length && items[u].interval != 0
          invariant 0 <= u <= items.Length && FreeItem(items[..], 0) == FreeItem(items[..], u)
        {
          u := u + 1;
        }
        if u == items.Length {
          return false;
        }
      }
      items[u] := Item(id, interval, 0, false);
      ok := true;
    }
  }
}
