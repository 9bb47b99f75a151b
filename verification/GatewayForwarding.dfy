/** What goes out on the other bus, said of the received frame and the rule table alone: which frames are
    handed over, and what may differ between the frame received and the one transmitted. */
module GatewayForwarding {
  import opened Words
  import opened SlotPools
  import opened PatchRules
  import opened GatewayPort
  import opened GatewayRuns

  /** Frame type, masked identifier and, where the rule asks, remote flag. */
  ghost predicate Hits(r: Rule, f: CanFrame) {
    r.extended == f.extended && f.id & r.matchMask == r.matchId && (!r.checkRtr || r.rtrValue == f.rtr)
  }

  /** The first rule that hits the frame, or one past the last. */
  ghost predicate FirstHit(t: Table, f: CanFrame, i: nat) {
    i <= |t.rules| && (i < |t.rules| ==> Hits(t.rules[i], f)) && forall k :: 0 <= k < i ==> !Hits(t.rules[k], f)
  }

  ghost predicate Dropped(t: Table, f: CanFrame, i: nat) {
    if i < |t.rules| then t.rules[i].drop else t.defaultDrop
  }

  /** Bytes of a data frame that its length covers. */
  ghost predicate Covered(f: CanFrame, k: nat) { !f.rtr && k < f.dlc }

  /** The CRC byte of a protection that the frame is long enough for. */
  ghost predicate Repaired(e: E2e, f: CanFrame, k: nat) {
    e.index == Some(k) && Covered(f, k) && Covered(f, e.last) && e.last < 8 && e.first <= e.last
  }

  /** Frame `g` is what may leave for the received `f` when rule `i` is the first to hit: the remote flag and the
      length are those received, a data frame's length at most eight; without a patch nothing else
      differs; with one the identifier and type are the patch's if it replaces them, and a byte is the received
      one under the masks, or untouched beyond the length. Of the byte of a CRC under repair the
      PatchRules module speaks. */
  ghost predicate CarriedAs(t: Table, f: CanFrame, i: nat, g: CanFrame)
    requires TableOk(t)
  {
    && g.rtr == f.rtr && g.dlc == (if !f.rtr && f.dlc > 8 then 8 else f.dlc)
    && if i < |t.rules| && t.rules[i].hasPatch then
         var p, e := t.patches[i], t.rules[i].e2e;
         && g.id == (if p.replaceId then p.newId else f.id)
         && g.extended == (if p.replaceId then p.newExtended else f.extended)
         && forall k :: 0 <= k < 8 ==>
              if !Covered(f, k) then g.data[k] == f.data[k]
              else Repaired(e, f, k) || g.data[k] == (f.data[k] & p.andMask[k]) | p.orValue[k]
       else
         g.id == f.id && g.extended == f.extended && g.data == f.data
  }

  /** There is room for the frame: the gateway is on, the other port alive, a slot free and the queue not
      full, and the driver takes it. */
  ghost predicate Room(p: Port, enabled: bool, accepts: bool) {
    enabled && p.state != BusOff && (exists i :: 0 <= i < |p.forwardUsed| && !p.forwardUsed[i])
    && |p.outstanding| < p.depth && accepts
  }

  lemma HitIsMatch(r: Rule, f: CanFrame)
    ensures Hits(r, f) <==> r.Matches(f)
  {
  }

  lemma FirstHitIs(t: Table, f: CanFrame, i: nat)
    ensures FirstHit(t, f, i) <==> i == MatchRule(t.rules, f)
  {
    forall k | 0 <= k < |t.rules| ensures Hits(t.rules[k], f) <==> t.rules[k].Matches(f) { HitIsMatch(t.rules[k], f); }
    hide Rule.Matches, Hits, MatchRule;
    var m := MatchRule(t.rules, f);
    assert FirstHit(t, f, m);
  }

  lemma PatchedAs(t: Table, f: CanFrame, i: nat)
    requires TableOk(t) && i < |t.rules| && t.rules[i].hasPatch
    ensures CarriedAs(t, f, i, Normalized(RulePatched(t.rules[i], t.patches[i], f)))
  {
    var g := RulePatched(t.rules[i], t.patches[i], f);
    PatchedHead(t.rules[i], t.patches[i], f);
    hide RulePatched, Repaired;
    forall k | 0 <= k < 8
      ensures if !Covered(f, k) then g.data[k] == f.data[k]
              else Repaired(t.rules[i].e2e, f, k) || g.data[k] == (f.data[k] & t.patches[i].andMask[k]) | t.patches[i].orValue[k] {
      PatchedByte(t.rules[i], t.patches[i], f, k);
    }
    hide Covered;
  }

  lemma PatchedHead(r: Rule, p: PatchData, f: CanFrame)
    ensures var g := RulePatched(r, p, f);
      && g.rtr == f.rtr && g.dlc == f.dlc && g.id == (if p.replaceId then p.newId else f.id)
      && g.extended == (if p.replaceId then p.newExtended else f.extended)
  {
    hide FixCrc, Patched;
  }

  lemma PatchedByte(r: Rule, p: PatchData, f: CanFrame, k: nat)
    requires k < 8
    ensures var g := RulePatched(r, p, f);
      if !Covered(f, k) then g.data[k] == f.data[k]
      else Repaired(r.e2e, f, k) || g.data[k] == (f.data[k] & p.andMask[k]) | p.orValue[k]
  {
    hide FixCrc, ApplyPatch, Covered, Repaired;
    AppliedByte(p, f, k);
    FixedByte(r.e2e, f, ApplyPatch(p, f).data, k);
    RemoteCovers(f, k);
  }

  lemma RemoteCovers(f: CanFrame, k: nat)
    ensures f.rtr ==> !Covered(f, k)
  {
  }

  lemma AppliedByte(p: PatchData, f: CanFrame, k: nat)
    requires k < 8
    ensures ApplyPatch(p, f).data[k] == if Covered(f, k) then (f.data[k] & p.andMask[k]) | p.orValue[k] else f.data[k]
  {
  }

  lemma FixedByte(e: E2e, f: CanFrame, mid: Payload, k: nat)
    requires k < 8
    ensures !f.rtr ==> Repaired(e, f, k) || FixCrc(e, f.data, mid, Limit(f.dlc))[k] == mid[k]
    ensures !f.rtr && !Covered(f, k) ==> FixCrc(e, f.data, mid, Limit(f.dlc))[k] == mid[k]
  {
    hide Crc, Xor;
  }

  /** What the rules say leaves, in these terms. */
  lemma OutgoingIs(t: Table, f: CanFrame, i: nat)
    requires TableOk(t) && FirstHit(t, f, i)
    ensures Outgoing(Some(f), t) == [] <==> Dropped(t, f, i)
    ensures Outgoing(Some(f), t) != [] ==> CarriedAs(t, f, i, Outgoing(Some(f), t)[0])
  {
    FirstHitIs(t, f, i);
    if i < |t.rules| && t.rules[i].hasPatch { PatchedAs(t, f, i); }
    hide FirstHit, RulePatched, Hits;
  }

  lemma FreeIff(used: seq<bool>)
    ensures FirstFree(used, 0).Some? <==> exists i :: 0 <= i < |used| && !used[i]
  {
  }

  /** The counters after a receive interrupt: exactly one has gone up, for the first of these reasons that
      applies, or none when the driver had no frame after all. */
  ghost predicate CountedAs(p: Port, enabled: bool, received: Option<CanFrame>, table: Table, accepts: bool, i: nat, c: Counters) {
    var was := p.counters;
    if !enabled then c == was.(disabled := was.disabled + 1)
    else if p.state == BusOff then c == was.(busOff := was.busOff + 1)
    else if forall k :: 0 <= k < |p.forwardUsed| ==> p.forwardUsed[k] then c == was.(txFull := was.txFull + 1)
    else if received.None? then c == was
    else if Dropped(table, received.value, i) then c == was.(filtered := was.filtered + 1)
    else if |p.outstanding| < p.depth && accepts then c == was.(forwarded := was.forwarded + 1)
    else c == was.(txFull := was.txFull + 1)
  }

  /** A receive interrupt hands a frame over exactly when one was received, its first rule does not drop it and
      there is room; what it hands over is what may leave for the frame received; and the counters say which
      it was. */
  lemma ReceivedIsCarried(w: World, enabled: bool, received: Option<CanFrame>, table: Table, accepts: bool, i: nat)
    requires Inv(w) && TableOk(table) && (received.Some? ==> FirstHit(table, received.value, i))
    ensures var v := AfterRx(w, enabled, received, table, accepts);
      && (if received.Some? && !Dropped(table, received.value, i) && Room(w.port, enabled, accepts) then
            exists g :: v.offered == w.offered + [g] && CarriedAs(table, received.value, i, g)
          else v.offered == w.offered)
      && CountedAs(w.port, enabled, received, table, accepts, i, v.port.counters)
  {
    FreeIff(w.port.forwardUsed);
    if received.Some? {
      OutgoingIs(table, received.value, i);
      RoutedAs(w.port, received.value, table);
    }
    hide CarriedAs, Dropped, FirstHit, ProcessFrame, Normalized;
    var p, q := w.port, RxHandled(w.port, enabled, received, table, accepts);
    assert Taken(p, q) == [] <==> |q.outstanding| <= |p.outstanding|;
  }

  lemma RoutedAs(p: Port, f: CanFrame, table: Table)
    requires TableOk(table)
    ensures ProcessFrame(table, f).Some? <==> Outgoing(Some(f), table) != []
    ensures |Outgoing(Some(f), table)| <= 1
  {
  }

  // ----- over runs -----

  /** The frame was injected, or is what may leave for a frame received. */
  ghost predicate Explained(past: seq<Event>, g: CanFrame) {
    exists j :: 0 <= j < |past| && Explains(past[j], g)
  }

  ghost predicate Explains(e: Event, g: CanFrame) {
    match e
    case Claim(f) => f == g
    case Rx(_, received, table, _) =>
      TableOk(table) && received.Some? &&
      exists i :: FirstHit(table, received.value, i) && !Dropped(table, received.value, i) && CarriedAs(table, received.value, i, g)
    case _ => false
  }

  ghost predicate AllExplained(past: seq<Event>, frames: seq<CanFrame>) {
    forall k :: 0 <= k < |frames| ==> Explained(past, frames[k])
  }

  lemma StillExplained(past: seq<Event>, e: Event, frames: seq<CanFrame>)
    requires AllExplained(past, frames)
    ensures AllExplained(past + [e], frames)
  {
    hide Explains;
    forall k | 0 <= k < |frames| ensures Explained(past + [e], frames[k]) {
      assert Explained(past, frames[k]);
      var j :| 0 <= j < |past| && Explains(past[j], frames[k]);
      assert (past + [e])[j] == past[j];
    }
  }

  lemma NowExplained(past: seq<Event>, e: Event, g: CanFrame)
    requires Explains(e, g)
    ensures Explained(past + [e], g)
  {
    hide Explains;
    assert (past + [e])[|past|] == e;
  }

  /** One step hands over at most one frame, and says where it comes from. */
  lemma StepExplains(w: World, e: Event, past: seq<Event>)
    requires Inv(w) && Enabled(w, e) && AllExplained(past, w.offered)
    requires w.hand.Holding? ==> Claim(w.hand.f) in past
    ensures var v := After(w, e);
      AllExplained(past + [e], v.offered) && (v.hand.Holding? ==> Claim(v.hand.f) in past + [e])
  {
    StillExplained(past, e, w.offered);
    match e
    case Rx(enabled, received, table, accepts) => RxExplains(w, e, past);
    case HandOff(accepts) =>
      var j :| 0 <= j < |past| && past[j] == Claim(w.hand.f);
      assert (past + [e])[j] == Claim(w.hand.f);
      hide AllExplained, Inv;
      HandOffExplains(w, past + [e], accepts, j);
    case _ => hide AllExplained, TxDoneHandled, StateChanged, EdgeHandled, HeadReclaimed;
  }

  lemma HandOffExplains(w: World, past: seq<Event>, accepts: bool, j: nat)
    requires w.hand.Holding? && AllExplained(past, w.offered) && j < |past| && past[j] == Claim(w.hand.f)
    ensures AllExplained(past, AfterHandOff(w, accepts).offered)
  {
    assert Explains(past[j], w.hand.f);
    hide Explains;
    assert Explained(past, w.hand.f);
    hide Explained;
  }

  lemma RxExplains(w: World, e: Event, past: seq<Event>)
    requires Inv(w) && Enabled(w, e) && e.Rx? && AllExplained(past + [e], w.offered)
    ensures AllExplained(past + [e], AfterRx(w, e.enabled, e.received, e.table, e.accepts).offered)
  {
    var v := AfterRx(w, e.enabled, e.received, e.table, e.accepts);
    var i := if e.received.Some? then MatchRule(e.table.rules, e.received.value) else 0;
    if e.received.Some? { FirstHitIs(e.table, e.received.value, i); }
    ReceivedIsCarried(w, e.enabled, e.received, e.table, e.accepts, i);
    hide Inv, AfterRx, FirstHit, Dropped, CarriedAs, MatchRule, CountedAs;
    if v.offered != w.offered {
      var g :| v.offered == w.offered + [g] && CarriedAs(e.table, e.received.value, i, g);
      assert Explains(e, g);
      NowExplained(past, e, g);
      hide Explained, Explains;
    }
  }

  lemma {:induction false} RunExplains(w: World, past: seq<Event>, es: seq<Event>, v: World)
    requires Inv(w) && Reaches(w, es, v) && AllExplained(past, w.offered)
    requires w.hand.Holding? ==> Claim(w.hand.f) in past
    ensures AllExplained(past + es, v.offered)
    decreases |es|
  {
    if es == [] {
      assert past + es == past;
    } else {
      StepInv(w, es[0]);
      StepExplains(w, es[0], past);
      hide Inv, After, AllExplained;
      RunExplains(After(w, es[0]), past + [es[0]], es[1..], v);
      assert past + [es[0]] + es[1..] == past + es;
    }
  }

  /** Every frame ever handed to the driver, and so every frame on the bus, is one that was injected or what
      may leave, by the rules in force at the time, for a frame received. */
  lemma EveryFrameIsExplained(w: World, es: seq<Event>, v: World)
    requires Initial(w) && Reaches(w, es, v)
    ensures forall k :: 0 <= k < |v.offered| ==> Explained(es, v.offered[k])
  {
    hide *;
    NothingYet(w);
    RunExplains(w, [], es, v);
    assert [] + es == es;
    OneByOne(es, v.offered);
  }

  lemma NothingYet(w: World)
    requires Initial(w)
    ensures Inv(w) && AllExplained([], w.offered) && w.hand.Idle?
  {
    InitialInv(w);
  }

  lemma OneByOne(past: seq<Event>, frames: seq<CanFrame>)
    requires AllExplained(past, frames)
    ensures forall k :: 0 <= k < |frames| ==> Explained(past, frames[k])
  {
  }
}
