/** Everything that leaves through one CAN port: the slots of the route into it, its own inject
    slots, the mirror of the driver's queue and the loop's bus-off handling. First the state as a
    value with one function per atomic step, then the class whose methods compute those functions. */
module GatewayPort {
  import opened Words
  import opened SlotPools
  import opened OutstandingTrackers
  import opened PatchRules

  datatype SlotId = Forward(index: nat) | Inject(index: nat)

  datatype BusState = ErrorActive | ErrorWarning | ErrorPassive | BusOff

  datatype Counters = Counters(
    forwarded: nat, filtered: nat, txFull: nat, busOff: nat, disabled: nat,
    injected: nat, txFail: nat, recoveries: nat)
  {
    /** Every frame a route ever accounted for. */
    function RouteTotal(): nat { forwarded + filtered + txFull + busOff + disabled }
  }

  datatype Port = Port(
    forwardUsed: seq<bool>, injectUsed: seq<bool>,
    forwardSlots: seq<CanFrame>, injectSlots: seq<CanFrame>,
    outstanding: seq<SlotId>, depth: nat,
    state: BusState, lastLoopState: BusState, headReclaimed: bool, counters: Counters)

  ghost predicate Exists(p: Port, s: SlotId) {
    match s
    case Forward(i) => i < |p.forwardUsed|
    case Inject(i) => i < |p.injectUsed|
  }

  ghost predicate AllExist(p: Port, slots: seq<SlotId>) {
    forall k :: 0 <= k < |slots| ==> Exists(p, slots[k])
  }

  /** Sizes fit together, and every tracked slot exists. The slot pools are sized above the queue
      depth, so the tracker can hold whatever may be in flight. */
  ghost predicate Shaped(p: Port) {
    && |p.forwardSlots| == |p.forwardUsed| && |p.injectSlots| == |p.injectUsed|
    && p.depth <= |p.forwardUsed| + |p.injectUsed|
    && AllExist(p, p.outstanding)
  }

  predicate IsUsed(p: Port, s: SlotId)
    requires Exists(p, s)
  {
    match s
    case Forward(i) => p.forwardUsed[i]
    case Inject(i) => p.injectUsed[i]
  }

  function SlotFrame(p: Port, s: SlotId): CanFrame
    requires Shaped(p) && Exists(p, s)
  {
    match s
    case Forward(i) => p.forwardSlots[i]
    case Inject(i) => p.injectSlots[i]
  }

  function Released(p: Port, s: SlotId): Port
    requires Exists(p, s)
  {
    match s
    case Forward(i) => p.(forwardUsed := p.forwardUsed[i := false])
    case Inject(i) => p.(injectUsed := p.injectUsed[i := false])
  }

  function FailCounted(p: Port): Port {
    p.(counters := p.counters.(txFail := p.counters.txFail + 1))
  }

  /** A frame the driver halted at bus-off and will never complete. */
  function OrphanReclaimed(p: Port, s: SlotId): Port
    requires Exists(p, s)
  {
    FailCounted(Released(p, s))
  }

  function OrphansReclaimed(p: Port, orphans: seq<SlotId>): (q: Port)
    requires AllExist(p, orphans)
    ensures |q.forwardUsed| == |p.forwardUsed| && |q.injectUsed| == |p.injectUsed|
    ensures q == p.(forwardUsed := q.forwardUsed, injectUsed := q.injectUsed, counters := q.counters)
    ensures q.counters == p.counters.(txFail := p.counters.txFail + |orphans|)
    decreases |orphans|
  {
    if orphans == [] then p
    else OrphansReclaimed(OrphanReclaimed(p, orphans[0]), orphans[1..])
  }

  // ----- the receive interrupt of the route's source port -----

  /** A data frame with a DLC above eight carries eight bytes and is retransmitted as such. */
  function Normalized(f: CanFrame): CanFrame {
    if f.rtr then f else f.(dlc := Limit(f.dlc))
  }

  function TxFullCounted(p: Port): Port {
    p.(counters := p.counters.(txFull := p.counters.txFull + 1))
  }

  /** Slot `i` has just been claimed and holds the received frame. */
  function Routed(p: Port, i: nat, f: CanFrame, table: Table, accepts: bool): Port
    requires i < |p.forwardSlots| == |p.forwardUsed| && TableOk(table)
  {
    match ProcessFrame(table, f)
    case None => p.(forwardSlots := p.forwardSlots[i := f], counters := p.counters.(filtered := p.counters.filtered + 1))
    case Some(g) =>
      var p1 := p.(forwardSlots := p.forwardSlots[i := Normalized(g)]);
      if |p.outstanding| < p.depth && accepts then
        p1.(forwardUsed := p.forwardUsed[i := true], outstanding := p.outstanding + [Forward(i)],
            counters := p.counters.(forwarded := p.counters.forwarded + 1))
      else
        TxFullCounted(p1)
  }

  /** `received` is `None` when the driver has no frame after all; `accepts` is the driver's answer. */
  function RxHandled(p: Port, enabled: bool, received: Option<CanFrame>, table: Table, accepts: bool): Port
    requires |p.forwardSlots| == |p.forwardUsed| && TableOk(table)
  {
    if !enabled then p.(counters := p.counters.(disabled := p.counters.disabled + 1))
    else if p.state == BusOff then p.(counters := p.counters.(busOff := p.counters.busOff + 1))
    else
      match FirstFree(p.forwardUsed, 0)
      case None => TxFullCounted(p)
      case Some(i) => if received.None? then p else Routed(p, i, received.value, table, accepts)
  }

  // ----- the port's own interrupts -----

  function TxDoneHandled(p: Port, done: SlotId, success: bool): Port
    requires Shaped(p) && Exists(p, done)
  {
    var p1 := (if success then p else FailCounted(p)).(outstanding := Completed(p.outstanding, done));
    var p2 := OrphansReclaimed(p1, Orphans(p.outstanding, done));
    if |p1.outstanding| != |p.outstanding| then Released(p2, done) else p2
  }

  function StateChanged(p: Port, state: BusState): Port {
    p.(state := state)
  }

  // ----- the loop -----

  /** The loop reads the state once and handles the edge. */
  function EdgeHandled(p: Port): Port {
    if p.state == p.lastLoopState then p
    else
      var p1 := p.(lastLoopState := p.state);
      if p.state == BusOff then p1.(headReclaimed := false)
      else if p.lastLoopState == BusOff && p.state == ErrorActive then
        p1.(counters := p.counters.(recoveries := p.counters.recoveries + 1))
      else p1
  }

  /** The critical section that frees the halted head once per bus-off; `seen` is the state the pass
      read at its start. */
  function HeadReclaimed(p: Port, seen: BusState): Port
    requires Shaped(p)
  {
    if seen != BusOff || p.headReclaimed then p
    else
      var p1 := p.(headReclaimed := true);
      if p.state == BusOff && p.outstanding != [] then
        OrphanReclaimed(p1, p.outstanding[0]).(outstanding := p.outstanding[1..])
      else p1
  }

  // ----- injection from the loop -----

  function InjectClaimed(p: Port, f: CanFrame): (Port, Option<nat>)
    requires |p.injectSlots| == |p.injectUsed|
  {
    if p.state == BusOff then (p, None)
    else
      match FirstFree(p.injectUsed, 0)
      case None => (p, None)
      case Some(i) =>
        (p.(injectUsed := p.injectUsed[i := true], injectSlots := p.injectSlots[i := f]), Some(i))
  }

  function InjectHandedOff(p: Port, i: nat, accepts: bool): (Port, bool) {
    if p.state != BusOff && |p.outstanding| < p.depth && accepts then
      (p.(outstanding := p.outstanding + [Inject(i)],
          counters := p.counters.(injected := p.counters.injected + 1)), true)
    else (p, false)
  }

  // ----- the class -----

  class GatewayPort {
    const forwardPool: SlotPool
    const injectPool: SlotPool
    const forwardSlots: array<CanFrame>
    const injectSlots: array<CanFrame>
    const outstanding: OutstandingTracker<SlotId>
    const depth: nat
    var state: BusState
    var lastLoopState: BusState
    var headReclaimed: bool
    var counters: Counters

    ghost const Repr: set<object>

    ghost predicate Valid()
      reads this, Repr
    {
      && Repr == {this, forwardPool.used, injectPool.used, forwardSlots, injectSlots, outstanding, outstanding.items}
      && forwardPool.used != injectPool.used
      && forwardSlots != injectSlots
      && outstanding.items.Length == forwardPool.used.Length + injectPool.used.Length
      && outstanding.Valid() && Shaped(State())
    }

    ghost function State(): Port
      reads this, forwardPool.used, injectPool.used, forwardSlots, injectSlots, outstanding, outstanding.items
      requires outstanding.Valid()
    {
      Port(forwardPool.used[..], injectPool.used[..], forwardSlots[..], injectSlots[..], outstanding.Contents(), depth,
           state, lastLoopState, headReclaimed, counters)
    }

    constructor (txSlots: nat, injectSlotCount: nat, depth: nat, blank: CanFrame)
      requires 0 < txSlots + injectSlotCount && depth <= txSlots + injectSlotCount
      ensures Valid() && fresh(Repr)
      ensures State() == Port(seq(txSlots, _ => false), seq(injectSlotCount, _ => false),
                              seq(txSlots, _ => blank), seq(injectSlotCount, _ => blank), [], depth,
                              ErrorActive, ErrorActive, true, Counters(0, 0, 0, 0, 0, 0, 0, 0))
    {
      var forwards := new SlotPool(txSlots);
      var injects := new SlotPool(injectSlotCount);
      var tracker := new OutstandingTracker<SlotId>(txSlots + injectSlotCount, Forward(0));
      var slots, ownSlots := new CanFrame[txSlots](_ => blank), new CanFrame[injectSlotCount](_ => blank);
      forwardPool, injectPool, outstanding, forwardSlots, injectSlots := forwards, injects, tracker, slots, ownSlots;
      this.depth := depth;
      state, lastLoopState, headReclaimed := ErrorActive, ErrorActive, true;
      counters := Counters(0, 0, 0, 0, 0, 0, 0, 0);
      Repr := {this, forwards.used, injects.used, slots, ownSlots, tracker, tracker.items};
    }

    method ReleaseSlot(s: SlotId)
      requires Valid() && Exists(State(), s)
      modifies forwardPool.used, injectPool.used
      ensures Valid() && State() == Released(old(State()), s)
    {
      match s
      case Forward(i) => forwardPool.Release(i);
      case Inject(i) => injectPool.Release(i);
    }

    method ReclaimOrphan(s: SlotId)
      requires Valid() && Exists(State(), s)
      modifies `counters, forwardPool.used, injectPool.used
      ensures Valid() && State() == OrphanReclaimed(old(State()), s)
    {
      ReleaseSlot(s);
      counters := counters.(txFail := counters.txFail + 1);
    }

    method HandleRx(enabled: bool, received: Option<CanFrame>, table: Table, accepts: bool)
      requires Valid() && TableOk(table)
      modifies Repr
      ensures Valid() && State() == RxHandled(old(State()), enabled, received, table, accepts)
    {
      if !enabled {
        counters := counters.(disabled := counters.disabled + 1);
        return;
      }
      if state == BusOff {
        counters := counters.(busOff := counters.busOff + 1);
        return;
      }
      hide Ring, Routed, Shaped, ProcessFrame;
      ghost var was := forwardPool.used[..];
      var slot := forwardPool.Acquire();
      if slot.None? {
        counters := counters.(txFull := counters.txFull + 1);
        return;
      }
      if received.None? {
        forwardPool.Release(slot.value);
        assert was[slot.value := true][slot.value := false] == was;
        return;
      }
      assert was[slot.value := true][slot.value := false] == was;
      RouteFrame(slot.value, received.value, table, accepts);
    }

    /** The rest of the receive interrupt, with slot `i` claimed for it. */
    method RouteFrame(i: nat, f: CanFrame, table: Table, accepts: bool)
      requires Valid() && TableOk(table) && i < forwardPool.used.Length && forwardPool.used[i]
      modifies Repr
      ensures Valid()
      ensures State() == Routed(old(State().(forwardUsed := forwardPool.used[..][i := false])), i, f, table, accepts)
    {
      hide ProcessFrame, Ring, Normalized;
      ghost var before := State().(forwardUsed := forwardPool.used[..][i := false]);
      assert forwardPool.used[..] == before.forwardUsed[i := true];
      var action := ProcessFrame(table, f);
      if action.None? {
        forwardSlots[i] := f;
        forwardPool.Release(i);
        counters := counters.(filtered := counters.filtered + 1);
        return;
      }
      forwardSlots[i] := Normalized(action.value);
      assert State() == before.(forwardUsed := before.forwardUsed[i := true], forwardSlots := before.forwardSlots[i := Normalized(action.value)]);
      hide Shaped, Normalized;
      HandOver(i, accepts);
      assert before.forwardUsed[i := true][i := false] == before.forwardUsed;
    }

    /** The filled slot `i` goes to the driver, or back to the pool when the queue is full or the driver refuses. */
    method HandOver(i: nat, accepts: bool)
      requires Valid() && i < forwardPool.used.Length
      modifies Repr
      ensures Valid()
      ensures var p := old(State());
        State() == if |p.outstanding| < p.depth && accepts then
            p.(outstanding := p.outstanding + [Forward(i)], counters := p.counters.(forwarded := p.counters.forwarded + 1))
          else TxFullCounted(p.(forwardUsed := p.forwardUsed[i := false]))
    {
      hide Ring;
      var size := outstanding.Size();
      if size < depth && accepts {
        var pushed := outstanding.Push(Forward(i));
        counters := counters.(forwarded := counters.forwarded + 1);
      } else {
        forwardPool.Release(i);
        counters := counters.(txFull := counters.txFull + 1);
      }
    }

    method HandleTxDone(done: SlotId, success: bool)
      requires Valid() && Exists(State(), done)
      modifies Repr
      ensures Valid() && State() == TxDoneHandled(old(State()), done, success)
    {
      hide Ring, Completed, Orphans, OrphansReclaimed;
      if !success {
        counters := counters.(txFail := counters.txFail + 1);
      }
      var tracked := PopCompleted(done);
      if tracked {
        ReleaseSlot(done);
      }
    }

    /** Removes `done` from the tracker and reclaims what is older; `tracked` is the occupancy delta. */
    method PopCompleted(done: SlotId) returns (tracked: bool)
      requires Valid() && Exists(State(), done)
      modifies Repr
      ensures Valid()
      ensures State() == OrphansReclaimed(old(State()).(outstanding := Completed(old(State()).outstanding, done)),
                                          Orphans(old(State()).outstanding, done))
      ensures tracked <==> |State().outstanding| != |old(State()).outstanding|
    {
      hide Ring, OrphansReclaimed;
      var before := outstanding.Size();
      var orphans := outstanding.Complete(done);
      ReclaimOrphans(orphans);
      var after := outstanding.Size();
      tracked := after != before;
    }

    /** The tracker's reclaim callback, once per orphan. */
    method ReclaimOrphans(orphans: seq<SlotId>)
      requires Valid() && AllExist(State(), orphans)
      modifies `counters, forwardPool.used, injectPool.used
      ensures Valid() && State() == OrphansReclaimed(old(State()), orphans)
    {
      hide Ring, OrphanReclaimed;
      ghost var goal := OrphansReclaimed(State(), orphans);
      var k := 0;
      while k < |orphans|
        invariant 0 <= k <= |orphans|
        invariant Valid() && AllExist(State(), orphans[k..])
        invariant OrphansReclaimed(State(), orphans[k..]) == goal
      {
        assert orphans[k..][0] == orphans[k] && orphans[k..][1..] == orphans[k + 1..];
        ReclaimOrphan(orphans[k]);
        k := k + 1;
      }
    }

    method HandleStateChange(newState: BusState)
      requires Valid()
      modifies `state
      ensures Valid() && State() == StateChanged(old(State()), newState)
    {
      state := newState;
    }

    method LoopEdge() returns (seen: BusState)
      requires Valid()
      modifies this
      ensures Valid() && State() == EdgeHandled(old(State())) && seen == old(state)
    {
      seen := state;
      if seen != lastLoopState {
        var wasBusOff := lastLoopState == BusOff;
        lastLoopState := seen;
        if seen == BusOff {
          headReclaimed := false;
        } else if wasBusOff && seen == ErrorActive {
          counters := counters.(recoveries := counters.recoveries + 1);
        }
      }
    }

    method LoopReclaim(seen: BusState)
      requires Valid()
      modifies Repr
      ensures Valid() && State() == HeadReclaimed(old(State()), seen)
    {
      hide Ring;
      if seen == BusOff && !headReclaimed {
        if state == BusOff {
          var orphan := outstanding.ReclaimHead();
          if orphan.Some? {
            ReclaimOrphan(orphan.value);
          }
        }
        headReclaimed := true;
      }
    }

    method InjectClaim(f: CanFrame) returns (slot: Option<nat>)
      requires Valid()
      modifies injectPool.used, injectSlots
      ensures Valid() && (State(), slot) == InjectClaimed(old(State()), f)
    {
      if state == BusOff {
        return None;
      }
      slot := injectPool.Acquire();
      if slot.Some? {
        injectSlots[slot.value] := f;
      }
    }

    /** The critical section: bus-off check, occupancy gate, transmit and push are one step. */
    method InjectHandOff(i: nat, accepts: bool) returns (accepted: bool)
      requires Valid() && i < injectPool.used.Length
      modifies Repr
      ensures Valid() && (State(), accepted) == InjectHandedOff(old(State()), i, accepts)
    {
      hide Ring;
      accepted := false;
      var size := outstanding.Size();
      if state != BusOff && size < depth {
        accepted := accepts;
        if accepted {
          var pushed := outstanding.Push(Inject(i));
          counters := counters.(injected := counters.injected + 1);
        }
      }
    }

    /** `inject` with no interrupt in between. */
    method InjectFrame(f: CanFrame, accepts: bool) returns (accepted: bool)
      requires Valid()
      modifies Repr
      ensures Valid()
      ensures accepted <==> old(state != BusOff && FirstFree(injectPool.used[..], 0).Some? &&
                                |outstanding.Contents()| < depth) && accepts
      ensures accepted ==> |outstanding.Contents()| == old(|outstanding.Contents()|) + 1 &&
                           old(outstanding.Contents()) <= outstanding.Contents()
      ensures !accepted ==> State().outstanding == old(State().outstanding) && State().injectUsed == old(State().injectUsed)
    {
      hide Ring;
      var slot := InjectClaim(f);
      if slot.None? {
        return false;
      }
      accepted := InjectHandOff(slot.value, accepts);
      if !accepted {
        ReleaseSlot(Inject(slot.value));
      }
    }
  }
}
