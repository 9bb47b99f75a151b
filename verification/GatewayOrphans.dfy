/** What becomes of frames halted at bus-off: with a loop that catches every bus-off nothing is lost,
    and without one a port can fill up with orphans that no later step frees. */
module GatewayOrphans {
  import opened SlotPools
  import opened PatchRules
  import opened GatewayPort
  import opened GatewayRuns

  /** The loop has caught every bus-off so far: at most the frame just halted is an orphan. */
  ghost predicate Attentive(w: World) {
    w.orphans == [] || (w.port.state == BusOff && !w.claimed && |w.orphans| == 1)
  }

  /** The port leaves bus-off only once the loop has freed the halted frame, or with nothing tracked. */
  ghost predicate LoopKeepsUp(w: World, e: Event) {
    e.BusChange? && w.port.state == BusOff ==> w.claimed || w.port.outstanding == []
  }

  ghost predicate AttentiveRun(w: World, es: seq<Event>, v: World)
    decreases |es|
  {
    if es == [] then v == w
    else Formed(w) && Enabled(w, es[0]) && LoopKeepsUp(w, es[0]) && AttentiveRun(After(w, es[0]), es[1..], v)
  }

  lemma AttentiveStep(w: World, e: Event)
    requires Inv(w) && Enabled(w, e) && Attentive(w) && LoopKeepsUp(w, e)
    ensures Attentive(After(w, e))
  {
    hide HistoryInv, MemoryInv, Owns, RxHandled, TxDoneHandled;
    if e.LoopReclaim? {
      assert Shaped(w.port) by { ShapedOfInv(w); }
      HeadReclaimedIs(w.port, w.pass.seen);
    } else if e.Rx? {
      assert Shaped(w.port) by { ShapedOfInv(w); }
      RxFrame(w.port, e.enabled, e.received, e.table, e.accepts);
    }
    hide HeadReclaimed, Shaped;
  }

  /** While the loop keeps up with the bus-offs, the tracker of a live port is the driver's queue, so a
      hand-off is refused only when that queue itself is full. */
  lemma {:induction false} NoOrphansWhileLoopKeepsUp(w: World, es: seq<Event>, v: World)
    requires Inv(w) && Attentive(w) && AttentiveRun(w, es, v)
    ensures Inv(v) && Attentive(v)
    ensures v.port.state != BusOff ==> v.port.outstanding == v.fifo
    decreases |es|
  {
    if es != [] {
      hide Inv, Attentive;
      StepInv(w, es[0]);
      AttentiveStep(w, es[0]);
      NoOrphansWhileLoopKeepsUp(After(w, es[0]), es[1..], v);
    } else {
      assert v.orphans == [] ==> [] + v.fifo == v.fifo;
    }
  }

  /** Leaving bus-off leaves an orphan behind exactly when the loop has not kept up. */
  lemma ExitIsCleanIff(w: World, state: BusState)
    requires Inv(w) && Attentive(w) && Enabled(w, BusChange(state)) && w.port.state == BusOff
    ensures After(w, BusChange(state)).orphans == [] <==> LoopKeepsUp(w, BusChange(state))
  {
    hide HistoryInv, MemoryInv, Owns;
  }

  /** A live port whose whole queue depth is taken by orphans. */
  ghost predicate Mute(w: World) {
    |w.orphans| == w.port.depth && w.port.state != BusOff
  }

  lemma MuteStep(w: World, e: Event)
    requires Inv(w) && Mute(w) && Enabled(w, e) && e != BusChange(BusOff)
    ensures Mute(After(w, e)) && After(w, e).offered == w.offered
  {
    ShapedOfInv(w);
    if e.Rx? {
      RxOwns(w.port, e.enabled, e.received, e.table, e.accepts, w.hand.Slot());
      RxFrame(w.port, e.enabled, e.received, e.table, e.accepts);
    } else if e.LoopReclaim? {
      HeadReclaimedIs(w.port, w.pass.seen);
    }
    hide HistoryInv, MemoryInv, Owns, RxHandled, TxDoneHandled, HeadReclaimed, Shaped;
  }

  ghost predicate NoBusOff(es: seq<Event>) {
    forall k :: 0 <= k < |es| ==> es[k] != BusChange(BusOff)
  }

  /** Once mute, a port stays mute: without a frame on hardware no completion can free an orphan, and
      without a new bus-off the loop reclaims nothing. No frame is ever handed over again. */
  lemma {:induction false} MuteForever(w: World, es: seq<Event>, v: World)
    requires Inv(w) && Mute(w) && Reaches(w, es, v) && NoBusOff(es)
    ensures Mute(v) && v.offered == w.offered
    decreases |es|
  {
    if es != [] {
      hide Inv, Mute;
      StepInv(w, es[0]);
      MuteStep(w, es[0]);
      assert forall k :: 0 <= k < |es[1..]| ==> es[1..][k] == es[k + 1];
      MuteForever(After(w, es[0]), es[1..], v);
    }
  }

  /** A recovered port whose recovery the loop has not seen yet; its last seen state is still bus-off. */
  ghost predicate RecoveredUnseen(w: World) {
    w.port.state == ErrorActive && w.port.lastLoopState == BusOff && w.pass.NotRunning?
  }

  /** One bus-off between two loop passes, the pass that requests its recovery, and the recovery. */
  function Cycle(): seq<Event> {
    [BusChange(BusOff), LoopEdge, LoopReclaim, LoopRecover(true), BusChange(ErrorActive)]
  }

  lemma CyclePrefixes()
    ensures [BusChange(BusOff)] + [LoopEdge] == [BusChange(BusOff), LoopEdge]
    ensures [BusChange(BusOff), LoopEdge] + [LoopReclaim] == [BusChange(BusOff), LoopEdge, LoopReclaim]
    ensures [BusChange(BusOff), LoopEdge, LoopReclaim] + [LoopRecover(true)] == Cycle()[..4]
    ensures Cycle()[..4] + [BusChange(ErrorActive)] == Cycle()
  {
  }

  /** A bus-off strikes with a frame mounted and the next loop pass reads it. */
  lemma Strike(w: World) returns (b: World)
    requires Inv(w) && w.port.state == ErrorActive && w.pass.NotRunning? && w.fifo != []
    ensures Reaches(w, [BusChange(BusOff), LoopEdge], b) && Inv(b)
    ensures b == w.(fifo := w.fifo[1..], orphans := w.orphans + [w.fifo[0]], fates := w.fates + [Halted], claimed := false,
                    recovering := false, pass := Edged(BusOff), port := EdgeHandled(StateChanged(w.port, BusOff)))
  {
    ReachesNothing(w);
    hide Inv, Reaches, EdgeHandled;
    assert [] + [BusChange(BusOff)] == [BusChange(BusOff)];
    var a := AfterBusChange(w, BusOff);
    ReachesStep(w, [], w, BusChange(BusOff));
    ReachesStep(w, [BusChange(BusOff)], a, LoopEdge);
    InvFormed(a);
    b := After(a, LoopEdge);
    CyclePrefixes();
  }

  /** Once the loop has been through the bus-off, it requests recovery and the port comes back. */
  lemma Recovery(w: World, c: World) returns (v: World)
    requires Reaches(w, [BusChange(BusOff), LoopEdge, LoopReclaim], c) && Inv(c)
    requires c.port.state == BusOff && c.pass == Reclaimed(BusOff)
    ensures Reaches(w, Cycle(), v) && Inv(v)
    ensures v == c.(pass := NotRunning, recovering := false, port := StateChanged(c.port, ErrorActive))
  {
    hide Inv, Reaches, Cycle;
    CyclePrefixes();
    InvFormed(c);
    ReachesStep(w, [BusChange(BusOff), LoopEdge, LoopReclaim], c, LoopRecover(true));
    var d := After(c, LoopRecover(true));
    ReachesStep(w, Cycle()[..4], d, BusChange(ErrorActive));
    v := After(d, BusChange(ErrorActive));
  }

  /** The loop saw the same state on both passes, so no edge re-armed the reclaim: the halted frame stays. */
  lemma CycleAddsOrphan(w: World) returns (v: World)
    requires Inv(w) && RecoveredUnseen(w) && w.fifo != []
    ensures Reaches(w, Cycle(), v) && Inv(v) && RecoveredUnseen(v)
    ensures v.orphans == w.orphans + [w.fifo[0]] && v.fifo == w.fifo[1..] && v.port.depth == w.port.depth
  {
    assert w.port.headReclaimed;
    hide Inv, Reaches, Cycle;
    CyclePrefixes();
    var b := Strike(w);
    ReachesStep(w, [BusChange(BusOff), LoopEdge], b, LoopReclaim);
    var c := After(b, LoopReclaim);
    assert c == b.(pass := Reclaimed(BusOff));
    v := Recovery(w, c);
  }

  /** However many frames are queued, that many bus-offs between loop passes leave every one an orphan. */
  lemma {:induction false} CyclesOrphanEverything(w: World) returns (es: seq<Event>, v: World)
    requires Inv(w) && RecoveredUnseen(w)
    ensures Reaches(w, es, v) && Inv(v) && v.port.state != BusOff
    ensures v.fifo == [] && v.orphans == w.orphans + w.fifo && v.port.depth == w.port.depth
    decreases |w.fifo|
  {
    hide Inv, Reaches;
    if w.fifo == [] {
      es, v := [], w;
      assert Reaches(w, [], w) by { ReachesNothing(w); }
    } else {
      var u := CycleAddsOrphan(w);
      es, v := CyclesOrphanEverything(u);
      ReachesJoin(w, Cycle(), u, es, v);
      es := Cycle() + es;
      assert w.orphans + w.fifo == w.orphans + [w.fifo[0]] + w.fifo[1..];
    }
  }

  /** From a full queue whose recovery the loop has not seen there is a legal run to a mute port,
      although the loop runs a full pass during every bus-off. */
  lemma FullQueueCanGoMute(w: World) returns (es: seq<Event>, v: World)
    requires Inv(w) && RecoveredUnseen(w) && |w.port.outstanding| == w.port.depth
    ensures Reaches(w, es, v) && Inv(v) && Mute(v)
  {
    assert Mirrors(w);
    es, v := CyclesOrphanEverything(w);
  }

  lemma InjectRun(w: World, f: CanFrame) returns (v: World)
    requires Inv(w) && w.hand.Idle? && w.port.state != BusOff && |w.port.outstanding| < w.port.depth
    requires FirstFree(w.port.injectUsed, 0).Some?
    ensures Reaches(w, [Claim(f), HandOff(true)], v) && Inv(v)
    ensures v.hand.Idle? && v.pass == w.pass && v.orphans == w.orphans && |v.fifo| == |w.fifo| + 1
    ensures v.port == w.port.(injectUsed := v.port.injectUsed, injectSlots := v.port.injectSlots,
                              outstanding := v.port.outstanding, counters := v.port.counters)
    ensures |v.port.injectUsed| == |w.port.injectUsed|
  {
    ShapedOfInv(w);
    assert Reaches(w, [], w);
    var a := After(w, Claim(f));
    ReachesStep(w, [], w, Claim(f));
    assert a.hand.Holding? && a.port.outstanding == w.port.outstanding && a.fifo == w.fifo;
    hide Reaches, Inv, Owns, Mirrors, MemoryInv, HistoryInv, ReclaimInv;
    ReachesStep(w, [Claim(f)], a, HandOff(true));
    v := After(a, HandOff(true));
    assert [] + [Claim(f)] == [Claim(f)] && [Claim(f)] + [HandOff(true)] == [Claim(f), HandOff(true)];
  }

  lemma CaughtReclaim(b: World) returns (c: World)
    requires Inv(b) && b.port.state == BusOff && b.port.lastLoopState == BusOff && b.pass == Edged(BusOff)
    requires !b.port.headReclaimed && |b.orphans| == 1
    ensures Enabled(b, LoopReclaim) && c == After(b, LoopReclaim)
    ensures c.orphans == [] && c.port.state == BusOff && c.port.lastLoopState == BusOff && c.pass == Reclaimed(BusOff)
    ensures c.fifo == b.fifo && c.hand == b.hand && c.port.depth == b.port.depth
    ensures |c.port.injectUsed| == |b.port.injectUsed|
  {
    ShapedOfInv(b);
    assert b.port.outstanding == b.orphans + b.fifo;
    hide Inv;
    HeadReclaimedIs(b.port, BusOff);
    hide HeadReclaimed, Shaped;
    c := AfterReclaim(b);
  }

  /** A bus-off the loop does catch: the halted frame is freed and recovery requested. */
  lemma CaughtCycle(w: World) returns (v: World)
    requires Inv(w) && w.port.state == ErrorActive && w.port.lastLoopState == ErrorActive && w.pass.NotRunning?
    requires w.fifo != [] && w.orphans == [] && w.hand.Idle?
    ensures Reaches(w, Cycle(), v) && Inv(v) && RecoveredUnseen(v)
    ensures v.orphans == [] && v.fifo == w.fifo[1..] && v.hand.Idle? && v.port.depth == w.port.depth
    ensures |v.port.injectUsed| == |w.port.injectUsed|
  {
    hide Inv, Reaches, Cycle;
    CyclePrefixes();
    var b := Strike(w);
    var c := CaughtReclaim(b);
    ReachesStep(w, [BusChange(BusOff), LoopEdge], b, LoopReclaim);
    v := Recovery(w, c);
  }

  lemma StartsEmpty(w: World)
    requires Initial(w) && |w.port.injectUsed| > 0
    ensures Inv(w) && w.hand.Idle? && w.pass.NotRunning? && w.fifo == [] && w.orphans == [] && w.port.outstanding == []
    ensures w.port.state == ErrorActive && w.port.lastLoopState == ErrorActive && FirstFree(w.port.injectUsed, 0).Some?
  {
    hide Inv, Shaped, FirstFree;
    InitialInv(w);
    NothingUsedIsFree(w.port.injectUsed);
  }

  lemma NothingUsedIsFree(used: seq<bool>)
    requires |used| > 0 && forall i :: 0 <= i < |used| ==> !used[i]
    ensures FirstFree(used, 0).Some?
  {
    assert !used[0];
  }

  /** The smallest instance, from power-up: one bus-off the loop catches, then one it does not, and the
      port never transmits again. */
  lemma MuteIsReachable(w: World, f: CanFrame) returns (es: seq<Event>, v: World)
    requires Initial(w) && w.port.depth == 1 && |w.port.injectUsed| == 1
    ensures Reaches(w, es, v) && Inv(v) && Mute(v)
  {
    hide Initial, Reaches, Inv;
    StartsEmpty(w);
    var a := InjectRun(w, f);
    var b := CaughtCycle(a);
    FreeWhenUntracked(b);
    var rest;
    rest, v := MuteFromRecovered(b, f);
    ReachesJoin(a, Cycle(), b, rest, v);
    ReachesJoin(w, [Claim(f), HandOff(true)], a, Cycle() + rest, v);
    es := [Claim(f), HandOff(true)] + (Cycle() + rest);
  }

  lemma MuteFromRecovered(b: World, f: CanFrame) returns (es: seq<Event>, v: World)
    requires Inv(b) && RecoveredUnseen(b) && b.hand.Idle? && b.port.outstanding == [] && b.port.depth == 1
    requires FirstFree(b.port.injectUsed, 0).Some?
    ensures Reaches(b, es, v) && Inv(v) && Mute(v)
  {
    hide Reaches;
    assert Mirrors(b);
    var c := InjectRun(b, f);
    assert Mirrors(c);
    hide Inv;
    es, v := FullQueueCanGoMute(c);
    ReachesJoin(b, [Claim(f), HandOff(true)], c, es, v);
    es := [Claim(f), HandOff(true)] + es;
  }

  lemma FreeWhenUntracked(w: World)
    requires Inv(w) && w.fifo == [] && w.orphans == [] && w.hand.Idle? && |w.port.injectUsed| > 0
    ensures w.port.outstanding == [] && FirstFree(w.port.injectUsed, 0).Some?
  {
    assert Exists(w.port, Inject(0)) && !IsUsed(w.port, Inject(0));
  }
}
