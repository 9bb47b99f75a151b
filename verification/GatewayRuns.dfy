/** Every run of one gateway port: the receive, transmit-done and state-change interrupts, the loop's two
    critical sections, an injection caught between its steps, and the CAN driver as an environment that
    keeps the contract stated beside the tracker. The driver refers to slots, so it transmits whatever
    a slot holds at completion time. */
module GatewayRuns {
  import opened Words
  import opened SlotPools
  import opened OutstandingTrackers
  import opened PatchRules
  import opened GatewayPort

  /** Where an injection stands between claiming its slot and letting go of it. */
  datatype Hand = Idle | Holding(i: nat, f: CanFrame) | Refused(i: nat)
  {
    function Slot(): Option<SlotId> { if this.Idle? then None else Some(Inject(i)) }
  }

  /** Where a loop pass stands; `seen` is the state it read at its start. */
  datatype Pass = NotRunning | Edged(seen: BusState) | Reclaimed(seen: BusState)

  datatype Fate = Sent | Failed | Halted

  /** The port, the driver (`fifo`, head mounted on hardware; `recovering` once recovery was requested)
      and the history: what was handed to the driver, what became of it, what the bus saw, how many
      frames the source port received, which slots were halted and not yet freed, and whether the loop
      already reclaimed a head since the last bus-off. */
  datatype World = World(
    port: Port, hand: Hand, pass: Pass, fifo: seq<SlotId>, recovering: bool,
    offered: seq<CanFrame>, fates: seq<Fate>, wire: seq<CanFrame>, received: nat,
    orphans: seq<SlotId>, claimed: bool)

  datatype Event =
    | Rx(enabled: bool, received: Option<CanFrame>, table: Table, accepts: bool)
    | TxDone(success: bool)
    | BusChange(state: BusState)
    | LoopEdge | LoopReclaim | LoopRecover(attempt: bool)
    | Claim(f: CanFrame) | HandOff(accepts: bool) | GiveBack

  ghost predicate Enabled(w: World, e: Event) {
    match e
    case Rx(_, _, table, _) => TableOk(table)
    case TxDone(_) => w.fifo != [] && w.port.state != BusOff
    case BusChange(state) => state != w.port.state && (w.port.state == BusOff ==> w.recovering)
    case LoopEdge => w.pass.NotRunning?
    case LoopReclaim => w.pass.Edged?
    case LoopRecover(_) => w.pass.Reclaimed?
    case Claim(_) => w.hand.Idle?
    case HandOff(_) => w.hand.Holding?
    case GiveBack => w.hand.Refused?
  }

  /** The receive attempt found no frame in the driver, the one case that counts nothing. */
  predicate CameUpEmpty(p: Port, enabled: bool, received: Option<CanFrame>) {
    enabled && p.state != BusOff && FirstFree(p.forwardUsed, 0).Some? && received.None?
  }

  /** What the rules say leaves for a received frame. */
  function Outgoing(received: Option<CanFrame>, table: Table): (out: seq<CanFrame>)
    requires TableOk(table)
    ensures |out| <= 1
  {
    if received.None? then []
    else match ProcessFrame(table, received.value) case None => [] case Some(g) => [Normalized(g)]
  }

  /** What the driver took over in a step from `p` to `q`. */
  function Taken(p: Port, q: Port): seq<SlotId> {
    if |p.outstanding| < |q.outstanding| then q.outstanding[|p.outstanding|..] else []
  }

  function AfterRx(w: World, enabled: bool, received: Option<CanFrame>, table: Table, accepts: bool): World
    requires Shaped(w.port) && TableOk(table)
  {
    var q := RxHandled(w.port, enabled, received, table, accepts);
    var taken := Taken(w.port, q);
    w.(port := q, fifo := w.fifo + taken,
       offered := w.offered + if taken == [] then [] else Outgoing(received, table),
       received := if CameUpEmpty(w.port, enabled, received) then w.received else w.received + 1)
  }

  function AfterTxDone(w: World, success: bool): World
    requires Shaped(w.port) && w.fifo != [] && Exists(w.port, w.fifo[0])
  {
    w.(port := TxDoneHandled(w.port, w.fifo[0], success), fifo := w.fifo[1..],
       fates := w.fates + [if success then Sent else Failed],
       wire := w.wire + if success then [SlotFrame(w.port, w.fifo[0])] else [],
       orphans := [])
  }

  /** Entering bus-off halts the mounted frame: the driver never completes it. */
  function AfterBusChange(w: World, state: BusState): World {
    var w1 := w.(port := StateChanged(w.port, state), recovering := false);
    if state != BusOff then w1
    else if w.fifo == [] then w1.(claimed := false)
    else w1.(claimed := false, fifo := w.fifo[1..], fates := w.fates + [Halted], orphans := w.orphans + [w.fifo[0]])
  }

  function AfterReclaim(w: World): World
    requires Shaped(w.port) && w.pass.Edged?
  {
    var q := HeadReclaimed(w.port, w.pass.seen);
    var popped := |q.outstanding| < |w.port.outstanding|;
    w.(port := q, pass := Reclaimed(w.pass.seen), claimed := w.claimed || popped,
       orphans := if popped && w.orphans != [] then w.orphans[1..] else w.orphans)
  }

  function AfterHandOff(w: World, accepts: bool): World
    requires w.hand.Holding?
  {
    var (q, accepted) := InjectHandedOff(w.port, w.hand.i, accepts);
    if accepted then w.(port := q, hand := Idle, fifo := w.fifo + Taken(w.port, q), offered := w.offered + [w.hand.f])
    else w.(port := q, hand := Refused(w.hand.i))
  }

  /** Every slot named exists; nothing is said of who owns it. */
  ghost predicate Formed(w: World) {
    Shaped(w.port) && AllExist(w.port, w.fifo) && (w.hand.Slot().Some? ==> Exists(w.port, w.hand.Slot().value))
  }

  function After(w: World, e: Event): World
    requires Formed(w) && Enabled(w, e)
  {
    match e
    case Rx(enabled, received, table, accepts) => AfterRx(w, enabled, received, table, accepts)
    case TxDone(success) => AfterTxDone(w, success)
    case BusChange(state) => AfterBusChange(w, state)
    case LoopEdge => w.(port := EdgeHandled(w.port), pass := Edged(w.port.state))
    case LoopReclaim => AfterReclaim(w)
    case LoopRecover(attempt) =>
      w.(pass := NotRunning, recovering := w.recovering || (attempt && w.pass.seen == BusOff && w.port.state == BusOff))
    case Claim(f) =>
      var (q, slot) := InjectClaimed(w.port, f);
      w.(port := q, hand := if slot.Some? then Holding(slot.value, f) else Idle)
    case HandOff(accepts) => AfterHandOff(w, accepts)
    case GiveBack => w.(port := Released(w.port, Inject(w.hand.i)), hand := Idle)
  }

  // ----- the invariant -----

  ghost predicate Distinct(s: seq<SlotId>) {
    forall i, j :: 0 <= i < j < |s| ==> s[i] != s[j]
  }

  /** A slot is occupied exactly when the tracker or the injection in progress owns it. */
  ghost predicate Owns(p: Port, held: Option<SlotId>) {
    && Shaped(p) && Distinct(p.outstanding)
    && (held.Some? ==> Exists(p, held.value) && held.value !in p.outstanding)
    && forall s :: Exists(p, s) ==> (IsUsed(p, s) <==> s in p.outstanding || held == Some(s))
  }

  /** The tracker is the orphans followed by the driver's queue. */
  ghost predicate Mirrors(w: World) {
    w.port.outstanding == w.orphans + w.fifo && |w.port.outstanding| <= w.port.depth
  }

  /** Every slot the driver refers to still holds the frame that was handed over in it. */
  ghost predicate Holds(p: Port, fifo: seq<SlotId>, frames: seq<CanFrame>) {
    Shaped(p) && AllExist(p, fifo) && |fifo| == |frames| && forall k :: 0 <= k < |fifo| ==> SlotFrame(p, fifo[k]) == frames[k]
  }

  ghost predicate MemoryInv(w: World) {
    && |w.fates| <= |w.offered|
    && Holds(w.port, w.fifo, w.offered[|w.fates|..])
    && (w.hand.Holding? ==> w.hand.i < |w.port.injectSlots| && w.port.injectSlots[w.hand.i] == w.hand.f)
  }

  /** The frames whose completion succeeded. */
  function Survivors(frames: seq<CanFrame>, fates: seq<Fate>): seq<CanFrame>
    requires |fates| <= |frames|
    decreases |fates|
  {
    if fates == [] then []
    else
      var n := |fates| - 1;
      Survivors(frames, fates[..n]) + if fates[n].Sent? then [frames[n]] else []
  }

  function CountSent(fates: seq<Fate>): (n: nat)
    ensures n <= |fates|
  {
    if fates == [] then 0 else CountSent(fates[..|fates| - 1]) + if fates[|fates| - 1].Sent? then 1 else 0
  }

  ghost predicate HistoryInv(w: World) {
    && |w.fates| <= |w.offered|
    && w.wire == Survivors(w.offered, w.fates)
    && w.port.counters.forwarded + w.port.counters.injected == |w.offered|
    && w.port.counters.txFail + CountSent(w.fates) + |w.orphans| == |w.fates|
    && w.port.counters.RouteTotal() == w.received
  }

  /** Why reclaiming the tracker's head never touches a frame the driver still owns. */
  ghost predicate ReclaimInv(w: World) {
    && (w.port.state == BusOff && !w.claimed ==> w.orphans != [] || w.fifo == [])
    && (w.port.state == BusOff && w.port.lastLoopState != BusOff ==> !w.claimed)
    && (w.pass.NotRunning? || w.pass.Reclaimed? ==> w.port.headReclaimed)
    && (w.pass.Edged? && !w.port.headReclaimed ==>
          w.pass.seen == BusOff && w.port.lastLoopState == BusOff && (w.port.state == BusOff ==> !w.claimed))
    && (w.pass.Edged? ==> w.port.lastLoopState == w.pass.seen)
  }

  ghost predicate Inv(w: World) {
    Owns(w.port, w.hand.Slot()) && Mirrors(w) && MemoryInv(w) && HistoryInv(w) && ReclaimInv(w)
  }

  lemma InvFormed(w: World)
    requires Inv(w)
    ensures Formed(w)
  {
  }

  lemma TrackedExists(w: World)
    requires Owns(w.port, w.hand.Slot()) && Mirrors(w)
    ensures AllExist(w.port, w.orphans) && AllExist(w.port, w.fifo)
    ensures w.hand.Slot().Some? ==> Exists(w.port, w.hand.Slot().value)
  {
    var p := w.port;
    forall k | 0 <= k < |w.orphans| ensures Exists(p, w.orphans[k]) { assert p.outstanding[k] == w.orphans[k]; }
    forall k | 0 <= k < |w.fifo| ensures Exists(p, w.fifo[k]) { assert p.outstanding[|w.orphans| + k] == w.fifo[k]; }
  }

  // ----- single steps of the port -----

  /** No occupied slot loses or changes its frame. */
  ghost predicate KeepsFrames(p: Port, q: Port) {
    Shaped(p) && Shaped(q) &&
    forall s :: Exists(p, s) && IsUsed(p, s) ==> Exists(q, s) && SlotFrame(q, s) == SlotFrame(p, s)
  }

  lemma PushOwns(p: Port, q: Port, s: SlotId, held: Option<SlotId>)
    requires Owns(p, held) && Exists(p, s) && Shaped(q)
    requires q.outstanding == p.outstanding + [s]
    requires forall x :: Exists(q, x) <==> Exists(p, x)
    requires forall x :: Exists(p, x) && x != s ==> (IsUsed(q, x) <==> IsUsed(p, x))
    requires IsUsed(q, s) && s !in p.outstanding
    ensures Owns(q, if held == Some(s) then None else held)
  {
  }

  ghost predicate Unaccepted(p: Port, q: Port) {
    q.outstanding == p.outstanding && q.counters.forwarded == p.counters.forwarded
  }

  /** The driver took slot `s`, which holds the only frame in `out`. */
  ghost predicate Accepted(p: Port, q: Port, s: SlotId, out: seq<CanFrame>) {
    && |p.outstanding| < p.depth && q.outstanding == p.outstanding + [s]
    && q.counters.forwarded == p.counters.forwarded + 1
    && Shaped(q) && Exists(q, s) && out == [SlotFrame(q, s)]
  }

  lemma RoutedOwns(p: Port, i: nat, f: CanFrame, table: Table, accepts: bool, held: Option<SlotId>)
    requires Owns(p, held) && i < |p.forwardUsed| && !p.forwardUsed[i] && TableOk(table)
    requires held.Some? ==> held.value.Inject?
    ensures var q := Routed(p, i, f, table, accepts); var c, d := p.counters, q.counters;
      && Owns(q, held) && KeepsFrames(p, q)
      && (Unaccepted(p, q) || Accepted(p, q, Forward(i), Outgoing(Some(f), table)))
      && d.RouteTotal() == c.RouteTotal() + 1
  {
    hide ProcessFrame;
    assert !IsUsed(p, Forward(i));
    var q := Routed(p, i, f, table, accepts);
    assert AllExist(q, q.outstanding);
    if |p.outstanding| < |q.outstanding| {
      PushOwns(p, q, Forward(i), held);
    }
  }

  lemma RxOwns(p: Port, enabled: bool, received: Option<CanFrame>, table: Table, accepts: bool, held: Option<SlotId>)
    requires Owns(p, held) && TableOk(table) && (held.Some? ==> held.value.Inject?)
    ensures var q := RxHandled(p, enabled, received, table, accepts); var c, d := p.counters, q.counters;
      var taken := Taken(p, q);
      && Owns(q, held) && KeepsFrames(p, q) && q.outstanding == p.outstanding + taken
      && (if taken == [] then Unaccepted(p, q)
          else |taken| == 1 && p.state != BusOff && Accepted(p, q, taken[0], Outgoing(received, table)))
      && d.RouteTotal() == c.RouteTotal() + (if CameUpEmpty(p, enabled, received) then 0 else 1)
  {
    hide Routed, Outgoing;
    var slot, q := FirstFree(p.forwardUsed, 0), RxHandled(p, enabled, received, table, accepts);
    if enabled && p.state != BusOff && slot.Some? && received.Some? {
      RoutedOwns(p, slot.value, received.value, table, accepts, held);
      hide Owns, KeepsFrames, RxHandled;
      assert Taken(p, q) == [] || Taken(p, q) == [Forward(slot.value)];
    } else {
      SameOwners(p, q, held);
      hide Owns;
      assert Taken(p, q) == [];
      assert q.outstanding + [] == q.outstanding;
    }
  }

  lemma RxFrame(p: Port, enabled: bool, received: Option<CanFrame>, table: Table, accepts: bool)
    requires |p.forwardSlots| == |p.forwardUsed| && TableOk(table)
    ensures var q := RxHandled(p, enabled, received, table, accepts);
      q.injectSlots == p.injectSlots && q.depth == p.depth && q.state == p.state && q.lastLoopState == p.lastLoopState &&
      q.headReclaimed == p.headReclaimed && q.counters.injected == p.counters.injected && q.counters.txFail == p.counters.txFail
  {
  }

  lemma HoldsStill(p: Port, q: Port, fifo: seq<SlotId>, frames: seq<CanFrame>)
    requires KeepsFrames(p, q) && Holds(p, fifo, frames)
    requires forall k :: 0 <= k < |fifo| ==> IsUsed(p, fifo[k])
    ensures Holds(q, fifo, frames)
  {
  }

  lemma InFifoIsUsed(w: World)
    requires Owns(w.port, w.hand.Slot()) && Mirrors(w)
    ensures AllExist(w.port, w.fifo) && forall k :: 0 <= k < |w.fifo| ==> IsUsed(w.port, w.fifo[k])
  {
    TrackedExists(w);
    forall k | 0 <= k < |w.fifo| ensures IsUsed(w.port, w.fifo[k]) {
      assert w.port.outstanding[|w.orphans| + k] == w.fifo[k];
    }
  }

  lemma HoldsMore(p: Port, fifo: seq<SlotId>, frames: seq<CanFrame>, s: SlotId, f: CanFrame)
    requires Holds(p, fifo, frames) && Exists(p, s) && SlotFrame(p, s) == f
    ensures Holds(p, fifo + [s], frames + [f])
  {
  }

  lemma SurvivorsPrefix(frames: seq<CanFrame>, more: seq<CanFrame>, fates: seq<Fate>)
    requires |fates| <= |frames|
    ensures Survivors(frames + more, fates) == Survivors(frames, fates)
    decreases |fates|
  {
    if fates != [] { SurvivorsPrefix(frames, more, fates[..|fates| - 1]); }
  }

  lemma RxInv(w: World, enabled: bool, received: Option<CanFrame>, table: Table, accepts: bool)
    requires Inv(w) && TableOk(table)
    ensures Inv(AfterRx(w, enabled, received, table, accepts))
  {
    assert Shaped(w.port);
    hide RxHandled, Owns, KeepsFrames, Outgoing, Holds;
    var p, q := w.port, RxHandled(w.port, enabled, received, table, accepts);
    var v := AfterRx(w, enabled, received, table, accepts);
    RxOwns(p, enabled, received, table, accepts, w.hand.Slot());
    RxFrame(p, enabled, received, table, accepts);
    InFifoIsUsed(w);
    var taken := Taken(p, q);
    HoldsStill(p, q, w.fifo, w.offered[|w.fates|..]);
    if taken != [] {
      SurvivorsPrefix(w.offered, Outgoing(received, table), w.fates);
      HoldsMore(q, w.fifo, w.offered[|w.fates|..], taken[0], Outgoing(received, table)[0]);
      assert v.offered[|v.fates|..] == w.offered[|w.fates|..] + Outgoing(received, table);
      assert taken == [taken[0]];
    } else {
      assert w.fifo + [] == w.fifo && w.offered + [] == w.offered;
    }
    assert Mirrors(v) by { assert w.orphans + (w.fifo + taken) == (w.orphans + w.fifo) + taken; }
    assert MemoryInv(v);
    assert HistoryInv(v);
    assert ReclaimInv(v);
  }

  lemma {:induction false} OrphansFreed(p: Port, orphans: seq<SlotId>)
    requires AllExist(p, orphans)
    ensures forall s :: Exists(p, s) ==>
      Exists(OrphansReclaimed(p, orphans), s) && (IsUsed(OrphansReclaimed(p, orphans), s) <==> IsUsed(p, s) && s !in orphans)
    decreases |orphans|
  {
    if orphans != [] {
      var q := OrphanReclaimed(p, orphans[0]);
      OrphansFreed(q, orphans[1..]);
      assert OrphansReclaimed(p, orphans) == OrphansReclaimed(q, orphans[1..]);
      assert orphans == [orphans[0]] + orphans[1..];
      forall s | Exists(p, s) ensures IsUsed(q, s) <==> IsUsed(p, s) && s != orphans[0] {}
    }
  }

  /** A completion finds the driver's head behind the orphans, frees those and then itself. */
  lemma CompletionFinds(s: seq<SlotId>, orphans: seq<SlotId>, fifo: seq<SlotId>)
    requires s == orphans + fifo && fifo != [] && Distinct(s)
    ensures Completed(s, fifo[0]) == fifo[1..] && Orphans(s, fifo[0]) == orphans
  {
    assert s[|orphans|] == fifo[0];
    DepthIs(s, fifo[0], |orphans|);
  }

  /** From `p` to `q` the orphans and the driver's head leave the tracker and their slots fall free. */
  ghost predicate Drained(p: Port, q: Port, orphans: seq<SlotId>, fifo: seq<SlotId>, success: bool)
    requires fifo != []
  {
    && q == p.(outstanding := fifo[1..], forwardUsed := q.forwardUsed, injectUsed := q.injectUsed,
               counters := p.counters.(txFail := p.counters.txFail + |orphans| + if success then 0 else 1))
    && |q.forwardUsed| == |p.forwardUsed| && |q.injectUsed| == |p.injectUsed|
    && forall s :: Exists(p, s) ==> (IsUsed(q, s) <==> IsUsed(p, s) && s !in orphans && s != fifo[0])
  }

  lemma TxDoneIs(p: Port, orphans: seq<SlotId>, fifo: seq<SlotId>, success: bool)
    requires Shaped(p) && Distinct(p.outstanding) && p.outstanding == orphans + fifo && fifo != []
    requires AllExist(p, orphans) && AllExist(p, fifo)
    ensures Drained(p, TxDoneHandled(p, fifo[0], success), orphans, fifo, success)
  {
    hide Completed, Orphans, OrphansReclaimed;
    CompletionFinds(p.outstanding, orphans, fifo);
    var p1 := (if success then p else FailCounted(p)).(outstanding := fifo[1..]);
    OrphansFreed(p1, orphans);
    var p2 := OrphansReclaimed(p1, orphans);
    assert TxDoneHandled(p, fifo[0], success) == Released(p2, fifo[0]);
    forall s | Exists(p, s) ensures IsUsed(Released(p2, fifo[0]), s) <==> IsUsed(p, s) && s !in orphans && s != fifo[0] {
      assert Exists(p1, s) && (IsUsed(p1, s) <==> IsUsed(p, s));
    }
  }

  lemma TailMembers(s: seq<SlotId>, orphans: seq<SlotId>, fifo: seq<SlotId>)
    requires s == orphans + fifo && fifo != [] && Distinct(s)
    ensures Distinct(fifo[1..])
    ensures forall x :: x in fifo[1..] <==> x in s && x !in orphans && x != fifo[0]
  {
    var n := |orphans|;
    assert s[n] == fifo[0] && s[n + 1..] == fifo[1..] && s[..n] == orphans;
    forall x | x in fifo[1..] ensures x in s && x !in orphans && x != fifo[0] {
      var k :| n + 1 <= k < |s| && s[k] == x;
    }
    forall x | x in s && x !in orphans && x != fifo[0] ensures x in fifo[1..] {
      assert forall k :: 0 <= k < n ==> s[k] == orphans[k];
      var k :| 0 <= k < |s| && s[k] == x;
    }
  }

  lemma TxDoneOwns(p: Port, q: Port, orphans: seq<SlotId>, fifo: seq<SlotId>, held: Option<SlotId>)
    requires Owns(p, held) && p.outstanding == orphans + fifo && fifo != []
    requires exists success :: Drained(p, q, orphans, fifo, success)
    ensures Owns(q, held)
  {
    TailMembers(p.outstanding, orphans, fifo);
    assert orphans <= p.outstanding && fifo[0] == p.outstanding[|orphans|];
    assert Shaped(q) by { TailExists(p, q, orphans, fifo); }
    if held.Some? { assert held.value !in q.outstanding; }
    hide Shaped, Distinct;
  }

  lemma TailExists(p: Port, q: Port, orphans: seq<SlotId>, fifo: seq<SlotId>)
    requires AllExist(p, orphans + fifo) && fifo != []
    requires |q.forwardUsed| == |p.forwardUsed| && |q.injectUsed| == |p.injectUsed|
    ensures AllExist(q, fifo[1..])
  {
    forall k | 0 <= k < |fifo[1..]| ensures Exists(q, fifo[1..][k]) {
      assert (orphans + fifo)[|orphans| + 1 + k] == fifo[1..][k];
    }
  }

  lemma SameOwners(p: Port, q: Port, held: Option<SlotId>)
    requires Owns(p, held)
    requires q.forwardUsed == p.forwardUsed && q.injectUsed == p.injectUsed && q.outstanding == p.outstanding
    requires q.forwardSlots == p.forwardSlots && q.injectSlots == p.injectSlots && q.depth == p.depth
    ensures Owns(q, held)
  {
    assert AllExist(q, q.outstanding);
  }

  lemma SameSlotsHold(p: Port, q: Port, fifo: seq<SlotId>, frames: seq<CanFrame>)
    requires Holds(p, fifo, frames) && Shaped(q)
    requires |q.forwardUsed| == |p.forwardUsed| && |q.injectUsed| == |p.injectUsed|
    requires q.forwardSlots == p.forwardSlots && q.injectSlots == p.injectSlots
    ensures Holds(q, fifo, frames)
    ensures fifo != [] ==> Holds(q, fifo[1..], frames[1..])
  {
  }

  lemma FateStep(frames: seq<CanFrame>, fates: seq<Fate>, fate: Fate)
    requires |fates| < |frames|
    ensures Survivors(frames, fates + [fate]) == Survivors(frames, fates) + if fate.Sent? then [frames[|fates|]] else []
    ensures CountSent(fates + [fate]) == CountSent(fates) + if fate.Sent? then 1 else 0
  {
    assert (fates + [fate])[..|fates|] == fates;
  }

  lemma TxDoneHistory(w: World, v: World, success: bool)
    requires HistoryInv(w) && Mirrors(w) && MemoryInv(w) && w.fifo != [] && AllExist(w.port, w.fifo)
    requires Drained(w.port, v.port, w.orphans, w.fifo, success)
    requires v == AfterTxDone(w, success)
    ensures HistoryInv(v) && Mirrors(v)
  {
    FateStep(w.offered, w.fates, if success then Sent else Failed);
    assert SlotFrame(w.port, w.fifo[0]) == w.offered[|w.fates|..][0];
    assert [] + w.fifo[1..] == w.fifo[1..];
    hide Survivors, CountSent, SlotFrame, TxDoneHandled, Holds;
  }

  lemma TxDoneMemory(w: World, v: World, success: bool)
    requires MemoryInv(w) && w.fifo != [] && AllExist(w.port, w.fifo) && Shaped(v.port)
    requires Drained(w.port, v.port, w.orphans, w.fifo, success)
    requires v == AfterTxDone(w, success)
    ensures MemoryInv(v)
  {
    hide Holds, SlotFrame, TxDoneHandled;
    SameSlotsHold(w.port, v.port, w.fifo, w.offered[|w.fates|..]);
    assert w.offered[|v.fates|..] == w.offered[|w.fates|..][1..];
  }

  lemma TxDoneInv(w: World, success: bool)
    requires Inv(w) && Enabled(w, TxDone(success))
    ensures AllExist(w.port, w.fifo) && Inv(AfterTxDone(w, success))
  {
    TrackedExists(w);
    TxDoneIs(w.port, w.orphans, w.fifo, success);
    hide TxDoneHandled, HistoryInv, MemoryInv;
    var v := AfterTxDone(w, success);
    TxDoneOwns(w.port, v.port, w.orphans, w.fifo, w.hand.Slot());
    TxDoneHistory(w, v, success);
    TxDoneMemory(w, v, success);
    hide Owns, Mirrors;
  }

  lemma HaltMoves(w: World, v: World)
    requires Mirrors(w) && MemoryInv(w) && HistoryInv(w) && w.fifo != []
    requires v == w.(port := v.port, recovering := false, claimed := false, fifo := w.fifo[1..],
                     fates := w.fates + [Halted], orphans := w.orphans + [w.fifo[0]])
    requires v.port == w.port.(state := v.port.state) && Shaped(v.port)
    ensures Mirrors(v) && MemoryInv(v) && HistoryInv(v)
  {
    hide Shaped;
    SameSlotsHold(w.port, v.port, w.fifo, w.offered[|w.fates|..]);
    FateStep(w.offered, w.fates, Halted);
    hide Holds, Survivors, CountSent;
    assert w.offered[|v.fates|..] == w.offered[|w.fates|..][1..];
    assert v.orphans + v.fifo == w.orphans + w.fifo;
  }

  lemma BusChangeInv(w: World, state: BusState)
    requires Inv(w) && Enabled(w, BusChange(state))
    ensures Inv(AfterBusChange(w, state))
  {
    var v := AfterBusChange(w, state);
    SameOwners(w.port, v.port, w.hand.Slot());
    assert Shaped(v.port);
    hide Owns;
    if state == BusOff && w.fifo != [] {
      HaltMoves(w, v);
      hide Mirrors, MemoryInv, HistoryInv;
    } else {
      hide Shaped, Survivors, CountSent;
      SameSlotsHold(w.port, v.port, w.fifo, w.offered[|w.fates|..]);
      hide Holds;
    }
  }

  /** From `p` to `q` the oldest tracked slot is freed and counted as failed. */
  ghost predicate HeadFreed(p: Port, q: Port)
    requires p.outstanding != []
  {
    && q == p.(outstanding := p.outstanding[1..], forwardUsed := q.forwardUsed, injectUsed := q.injectUsed,
               headReclaimed := true, counters := p.counters.(txFail := p.counters.txFail + 1))
    && |q.forwardUsed| == |p.forwardUsed| && |q.injectUsed| == |p.injectUsed|
    && forall s :: Exists(p, s) ==> (IsUsed(q, s) <==> IsUsed(p, s) && s != p.outstanding[0])
  }

  lemma HeadReclaimedIs(p: Port, seen: BusState)
    requires Shaped(p)
    ensures var q := HeadReclaimed(p, seen);
      if seen == BusOff && !p.headReclaimed && p.state == BusOff && p.outstanding != [] then HeadFreed(p, q)
      else q == p.(headReclaimed := p.headReclaimed || seen == BusOff)
  {
  }

  lemma HeadFreedOwns(p: Port, q: Port, held: Option<SlotId>)
    requires Owns(p, held) && p.outstanding != [] && HeadFreed(p, q)
    ensures Owns(q, held)
  {
    var s := p.outstanding;
    TailMembers(s, [], s);
    assert s == [] + s;
    TailExists(p, q, [], s);
    hide Distinct, IsUsed;
  }

  lemma ReclaimedInv(w: World)
    requires Inv(w) && w.pass.Edged?
    ensures Inv(AfterReclaim(w))
  {
    var p, v := w.port, AfterReclaim(w);
    HeadReclaimedIs(p, w.pass.seen);
    var popped := |v.port.outstanding| < |p.outstanding|;
    if popped {
      HeadFreedOwns(p, v.port, w.hand.Slot());
      assert w.orphans != [];
      assert (w.orphans + w.fifo)[1..] == w.orphans[1..] + w.fifo;
    } else {
      SameOwners(p, v.port, w.hand.Slot());
    }
    assert Shaped(v.port);
    hide HeadReclaimed, Owns, Shaped, Survivors, CountSent;
    SameSlotsHold(p, v.port, w.fifo, w.offered[|w.fates|..]);
    hide Holds;
  }

  lemma EdgeInv(w: World)
    requires Inv(w) && w.pass.NotRunning?
    ensures Inv(After(w, LoopEdge))
  {
    var v := After(w, LoopEdge);
    SameOwners(w.port, v.port, w.hand.Slot());
    assert Shaped(v.port);
    hide Owns, Shaped, Survivors, CountSent;
    SameSlotsHold(w.port, v.port, w.fifo, w.offered[|w.fates|..]);
    hide Holds;
  }

  lemma RecoverInv(w: World, attempt: bool)
    requires Inv(w) && w.pass.Reclaimed?
    ensures Inv(After(w, LoopRecover(attempt)))
  {
    hide Owns, Shaped, Holds, Survivors, CountSent;
  }

  // ----- injection -----

  lemma ClaimOwns(p: Port, q: Port, i: nat, f: CanFrame)
    requires Owns(p, None) && i < |p.injectUsed| && !p.injectUsed[i]
    requires q == p.(injectUsed := p.injectUsed[i := true], injectSlots := p.injectSlots[i := f])
    ensures Owns(q, Some(Inject(i))) && KeepsFrames(p, q)
  {
    assert !IsUsed(p, Inject(i));
    assert AllExist(q, q.outstanding);
  }

  lemma ClaimInv(w: World, f: CanFrame)
    requires Inv(w) && w.hand.Idle?
    ensures Inv(After(w, Claim(f)))
  {
    var (q, slot) := InjectClaimed(w.port, f);
    var v := After(w, Claim(f));
    InFifoIsUsed(w);
    if slot.Some? {
      ClaimOwns(w.port, q, slot.value, f);
      hide Owns;
      HoldsStill(w.port, q, w.fifo, w.offered[|w.fates|..]);
    }
    hide Owns, Shaped, Holds, Survivors, CountSent;
  }

  lemma GiveBackOwns(p: Port, q: Port, i: nat)
    requires Owns(p, Some(Inject(i))) && q == p.(injectUsed := p.injectUsed[i := false])
    ensures Owns(q, None)
  {
    assert AllExist(q, q.outstanding);
  }

  lemma GiveBackInv(w: World)
    requires Inv(w) && w.hand.Refused?
    ensures Inv(After(w, GiveBack))
  {
    var v := After(w, GiveBack);
    GiveBackOwns(w.port, v.port, w.hand.i);
    assert Shaped(v.port);
    hide Owns, Shaped, Survivors, CountSent;
    SameSlotsHold(w.port, v.port, w.fifo, w.offered[|w.fates|..]);
    hide Holds;
  }

  lemma HandOffOwns(p: Port, q: Port, i: nat)
    requires Owns(p, Some(Inject(i)))
    requires q == p.(outstanding := p.outstanding + [Inject(i)], counters := q.counters)
    ensures Owns(q, None)
  {
    assert IsUsed(p, Inject(i));
    assert AllExist(q, q.outstanding);
    PushOwns(p, q, Inject(i), Some(Inject(i)));
  }

  lemma HandOffMoves(w: World, v: World, i: nat, f: CanFrame)
    requires Mirrors(w) && MemoryInv(w) && HistoryInv(w) && |w.port.outstanding| < w.port.depth
    requires i < |w.port.injectSlots| && w.port.injectSlots[i] == f && Shaped(w.port) && Shaped(v.port)
    requires v == w.(port := v.port, hand := Idle, fifo := w.fifo + [Inject(i)], offered := w.offered + [f])
    requires v.port == w.port.(outstanding := w.port.outstanding + [Inject(i)],
                               counters := w.port.counters.(injected := w.port.counters.injected + 1))
    ensures Mirrors(v) && MemoryInv(v) && HistoryInv(v)
  {
    SameSlotsHold(w.port, v.port, w.fifo, w.offered[|w.fates|..]);
    HoldsMore(v.port, w.fifo, w.offered[|w.fates|..], Inject(i), f);
    hide Holds, Shaped;
    SurvivorsPrefix(w.offered, [f], w.fates);
    hide Survivors, CountSent;
    assert v.offered[|v.fates|..] == w.offered[|w.fates|..] + [f];
    assert w.orphans + (w.fifo + [Inject(i)]) == (w.orphans + w.fifo) + [Inject(i)];
  }

  lemma HandOffInv(w: World, accepts: bool)
    requires Inv(w) && w.hand.Holding?
    ensures Inv(AfterHandOff(w, accepts))
  {
    var v := AfterHandOff(w, accepts);
    var (q, accepted) := InjectHandedOff(w.port, w.hand.i, accepts);
    if accepted {
      assert Taken(w.port, q) == [Inject(w.hand.i)];
      HandOffOwns(w.port, q, w.hand.i);
      HandOffMoves(w, v, w.hand.i, w.hand.f);
      hide Owns, Mirrors, MemoryInv, HistoryInv;
    } else {
      hide Owns, Shaped, Holds, Survivors, CountSent;
    }
  }

  lemma StepInv(w: World, e: Event)
    requires Inv(w) && Enabled(w, e)
    ensures Inv(After(w, e))
  {
    hide Inv;
    match e
    case Rx(enabled, received, table, accepts) => RxInv(w, enabled, received, table, accepts);
    case TxDone(success) => TxDoneInv(w, success);
    case BusChange(state) => BusChangeInv(w, state);
    case LoopEdge => EdgeInv(w);
    case LoopReclaim => ReclaimedInv(w);
    case LoopRecover(attempt) => RecoverInv(w, attempt);
    case Claim(f) => ClaimInv(w, f);
    case HandOff(accepts) => HandOffInv(w, accepts);
    case GiveBack => GiveBackInv(w);
  }

  // ----- whole runs -----

  ghost predicate Initial(w: World) {
    && Shaped(w.port) && w.port.outstanding == []
    && (forall i :: 0 <= i < |w.port.forwardUsed| ==> !w.port.forwardUsed[i])
    && (forall i :: 0 <= i < |w.port.injectUsed| ==> !w.port.injectUsed[i])
    && w.port.state == ErrorActive && w.port.lastLoopState == ErrorActive && w.port.headReclaimed
    && w.port.counters == Counters(0, 0, 0, 0, 0, 0, 0, 0)
    && w.hand == Idle && w.pass == NotRunning && w.fifo == [] && !w.recovering && w.orphans == [] && !w.claimed
    && w.offered == [] && w.fates == [] && w.wire == [] && w.received == 0
  }

  /** `es` is a legal run from `w` to `v`. */
  ghost predicate Reaches(w: World, es: seq<Event>, v: World)
    decreases |es|
  {
    if es == [] then v == w
    else Formed(w) && Enabled(w, es[0]) && Reaches(After(w, es[0]), es[1..], v)
  }

  lemma {:induction false} RunInv(w: World, es: seq<Event>, v: World)
    requires Inv(w) && Reaches(w, es, v)
    ensures Inv(v)
    decreases |es|
  {
    if es != [] {
      hide Inv;
      StepInv(w, es[0]);
      RunInv(After(w, es[0]), es[1..], v);
    }
  }

  lemma InitialInv(w: World)
    requires Initial(w)
    ensures Inv(w)
  {
  }

  lemma Owned(v: World)
    requires Inv(v)
    ensures v.port.outstanding == v.orphans + v.fifo && Distinct(v.port.outstanding)
    ensures |v.port.outstanding| <= v.port.depth
    ensures forall s :: Exists(v.port, s) ==>
      (IsUsed(v.port, s) <==> s in v.port.outstanding || v.hand.Slot() == Some(s))
    ensures v.hand.Slot().Some? ==> v.hand.Slot().value !in v.port.outstanding
    ensures |v.fates| <= |v.offered| && Holds(v.port, v.fifo, v.offered[|v.fates|..])
  {
    hide HistoryInv, ReclaimInv, Distinct, Holds;
  }

  /** Slot ownership in every run: the tracker is the orphans followed by the driver's queue without a
      duplicate and never beyond the depth, a slot is occupied exactly when it is tracked or held by
      the injection in progress, and what the driver still refers to holds what was handed over. */
  lemma SlotOwnership(w: World, es: seq<Event>, v: World)
    requires Initial(w) && Reaches(w, es, v)
    ensures v.port.outstanding == v.orphans + v.fifo && Distinct(v.port.outstanding)
    ensures |v.port.outstanding| <= v.port.depth
    ensures forall s :: Exists(v.port, s) ==>
      (IsUsed(v.port, s) <==> s in v.port.outstanding || v.hand.Slot() == Some(s))
    ensures v.hand.Slot().Some? ==> v.hand.Slot().value !in v.port.outstanding
    ensures |v.fates| <= |v.offered| && Holds(v.port, v.fifo, v.offered[|v.fates|..])
  {
    hide *;
    InitialInv(w);
    RunInv(w, es, v);
    Owned(v);
  }

  lemma {:induction false} SurvivorsCount(frames: seq<CanFrame>, fates: seq<Fate>)
    requires |fates| <= |frames|
    ensures |Survivors(frames, fates)| == CountSent(fates)
    decreases |fates|
  {
    if fates != [] { SurvivorsCount(frames, fates[..|fates| - 1]); }
  }

  lemma Balanced(v: World)
    requires Inv(v)
    ensures |v.fates| <= |v.offered| && v.wire == Survivors(v.offered, v.fates)
    ensures |v.offered| == |v.fates| + |v.fifo|
    ensures v.port.counters.forwarded + v.port.counters.injected
         == |v.wire| + v.port.counters.txFail + |v.port.outstanding|
    ensures v.port.counters.RouteTotal() == v.received
  {
    SurvivorsCount(v.offered, v.fates);
    hide Survivors, CountSent, Owns, ReclaimInv;
  }

  /** The bus sees exactly the frames handed over whose completion succeeded, in order and unaltered;
      hand-offs, completions and tracked entries balance; every received frame is counted once. */
  lemma Conservation(w: World, es: seq<Event>, v: World)
    requires Initial(w) && Reaches(w, es, v)
    ensures |v.fates| <= |v.offered| && v.wire == Survivors(v.offered, v.fates)
    ensures |v.offered| == |v.fates| + |v.fifo|
    ensures v.port.counters.forwarded + v.port.counters.injected
         == |v.wire| + v.port.counters.txFail + |v.port.outstanding|
    ensures v.port.counters.RouteTotal() == v.received
  {
    InitialInv(w);
    RunInv(w, es, v);
    hide Inv, Initial, Reaches;
    Balanced(v);
  }

  /** Every completion finds its slot in the tracker, behind exactly the orphans: the branch that
      drops an untracked completion is never taken. */
  lemma CompletionIsTracked(w: World)
    requires Inv(w) && w.fifo != []
    ensures Depth(w.port.outstanding, w.fifo[0]) == |w.orphans| < |w.port.outstanding|
  {
    assert w.port.outstanding[|w.orphans|] == w.fifo[0];
    DepthIs(w.port.outstanding, w.fifo[0], |w.orphans|);
  }

  /** Whether a willing driver gets the frame: the orphans count against the queue. */
  lemma HandOffSucceedsIff(w: World)
    requires Inv(w) && w.hand.Holding?
    ensures |AfterHandOff(w, true).offered| == |w.offered| + 1 <==>
      w.port.state != BusOff && |w.orphans| + |w.fifo| < w.port.depth
  {
  }

  lemma ShapedOfInv(w: World)
    requires Inv(w)
    ensures Shaped(w.port)
  {
  }

  lemma ReachesNothing(w: World)
    ensures Reaches(w, [], w)
  {
  }

  lemma {:induction false} ReachesJoin(u: World, a: seq<Event>, v: World, b: seq<Event>, w: World)
    requires Reaches(u, a, v) && Reaches(v, b, w)
    ensures Reaches(u, a + b, w)
    decreases |a|
  {
    hide Inv, Enabled, After;
    if a == [] {
      assert a + b == b;
    } else {
      assert (a + b)[0] == a[0] && (a + b)[1..] == a[1..] + b;
      ReachesJoin(After(u, a[0]), a[1..], v, b, w);
    }
  }

  lemma ReachesStep(u: World, a: seq<Event>, v: World, e: Event)
    requires Reaches(u, a, v) && Inv(v) && Enabled(v, e)
    ensures Reaches(u, a + [e], After(v, e)) && Inv(After(v, e))
  {
    StepInv(v, e);
    assert Reaches(v, [e], After(v, e)) by {
      hide Inv, Enabled, After;
      assert [e][1..] == [];
    }
    ReachesJoin(u, a, v, [e], After(v, e));
  }
}
