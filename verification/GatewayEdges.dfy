/** What the loop and an injection see of the bus state, over runs: the state is the one reported last, a recovery
    is counted once per way back from bus-off, and an injection goes through exactly when it can. */
module GatewayEdges {
  import opened Words
  import opened PatchRules
  import opened GatewayPort
  import opened GatewayRuns

  /** The state reported last. */
  function Reported(state: BusState, es: seq<Event>): BusState
    decreases |es|
  {
    if es == [] then state
    else Reported(if es[0].BusChange? then es[0].state else state, es[1..])
  }

  /** How often a loop pass reads error-active where the pass before read bus-off. */
  function WaysBack(state: BusState, last: BusState, es: seq<Event>): nat
    decreases |es|
  {
    if es == [] then 0
    else
      match es[0]
      case BusChange(s) => WaysBack(s, last, es[1..])
      case LoopEdge => (if last == BusOff && state == ErrorActive then 1 else 0) + WaysBack(state, state, es[1..])
      case _ => WaysBack(state, last, es[1..])
  }

  lemma StepEdges(w: World, e: Event)
    requires Formed(w) && Enabled(w, e)
    ensures var p, q := w.port, After(w, e).port;
      && q.state == (if e.BusChange? then e.state else p.state)
      && q.lastLoopState == (if e.LoopEdge? then p.state else p.lastLoopState)
      && q.counters.recoveries == p.counters.recoveries + (if e.LoopEdge? && p.lastLoopState == BusOff && p.state == ErrorActive then 1 else 0)
  {
    match e
    case Rx(enabled, received, table, accepts) => RxEdges(w.port, enabled, received, table, accepts); hide RxHandled;
    case TxDone(success) => hide Released;
    case _ =>
  }

  lemma RxEdges(p: Port, enabled: bool, received: Option<CanFrame>, table: Table, accepts: bool)
    requires |p.forwardSlots| == |p.forwardUsed| && TableOk(table)
    ensures var q := RxHandled(p, enabled, received, table, accepts);
      q.state == p.state && q.lastLoopState == p.lastLoopState && q.counters.recoveries == p.counters.recoveries
  {
    hide ProcessFrame, Normalized;
  }

  /** In every run the port's state is the one reported last, and its recoveries are the ways back from bus-off
      that loop passes have seen. */
  lemma {:induction false} RecoveriesAreCounted(w: World, es: seq<Event>, v: World)
    requires Reaches(w, es, v)
    ensures v.port.state == Reported(w.port.state, es)
    ensures v.port.counters.recoveries == w.port.counters.recoveries + WaysBack(w.port.state, w.port.lastLoopState, es)
    decreases |es|
  {
    if es != [] {
      StepEdges(w, es[0]);
      hide After, Formed, Enabled;
      RecoveriesAreCounted(After(w, es[0]), es[1..], v);
    }
  }

  // ----- an injection -----

  /** An uninterrupted injection with a willing driver: it goes through exactly when the bus is alive, an own slot is
      free and the queue, orphans included, has room; otherwise the port is left as it was, but for the
      contents of a free slot. */
  lemma InjectedIff(w: World, f: CanFrame)
    requires Inv(w) && w.hand.Idle?
    ensures var p := w.port; var v := After(w, Claim(f));
      if p.state == BusOff || forall i :: 0 <= i < |p.injectUsed| ==> p.injectUsed[i] then v == w
      else
        && v.hand.Holding? && v.hand.f == f && v.hand.i < |p.injectUsed| && !p.injectUsed[v.hand.i]
        && var q := After(v, HandOff(true));
           if |w.orphans| + |w.fifo| < p.depth then q.offered == w.offered + [f] && q.hand.Idle?
           else
             q.hand == Refused(v.hand.i) && var back := After(q, GiveBack);
             back == w.(port := p.(injectSlots := p.injectSlots[v.hand.i := f]))
  {
  }
}
