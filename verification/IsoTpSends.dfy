/** What `send` promises its caller: an accepted message starts a transfer, every transfer ends with exactly one
    outcome, and a loop pass sends as many frames as it may. */
module IsoTpSends {
  import opened Words
  import opened IsoTpCodec
  import opened IsoTpTransfer
  import opened IsoTpNode
  import opened IsoTpTimeouts
  import L = IsoTpLink
  import C = IsoTpClock
  import IsoTpProgress

  // ----- a message that is accepted -----

  /** A node at rest that has received nothing and sent nothing since it was last looked at. Its send machine
      may be left by any transfer before, an aborted one included. */
  ghost predicate AtRest(n: Node, capacity: nat) {
    && NodeValid(n, capacity) && n.tx.phase == Idle && !n.rx.receiving && n.pendingFc.None?
    && n.outbox == [] && n.delivered == [] && n.errors == []
  }

  /** Right after `send` at time `t`. */
  function Sent(c: L.Setup, k: C.Clocks, s: Node, r: Node, t: nat): C.Timed {
    C.Timed(L.Sys(s.(tx := TxBegin(s.tx, c.capacity, c.msg, k.Sender(t)).0), r, 0, 0, 0, 0), t, t, t)
  }

  /** Between two nodes at rest, `send` accepts the message and can be brought to its delivery. */
  lemma SendIsDelivered(c: L.Setup, k: C.Clocks, s: Node, r: Node, t: nat) returns (steps: seq<(nat, L.Step)>, z: C.Timed)
    requires IsoTpProgress.Live(c) && AtRest(s, c.capacity) && AtRest(r, c.capacity)
    ensures TxBegin(s.tx, c.capacity, c.msg, k.Sender(t)).1 && C.Reaches(c, k, Sent(c, k, s, r, t), steps, z)
    ensures z.y.r.delivered == [c.msg] && z.y.s.errors == [] && z.y.r.errors == []
    ensures z.y.s.tx.phase == Idle && z.y.s.completed == s.completed + 1
  {
    var x := Sent(c, k, s, r, t);
    SendStarts(c, k, s, r, t);
    assert C.Reaches(c, k, x, [], x);
    hide C.Reaches, C.OnTime, L.Init;
    steps, z := C.NeverStuck(c, k, x, [], x);
    assert c.Ok();
    hide IsoTpProgress.Live, AtRest;
    CompletedAtTheEnd(c, k, x, steps, z);
  }

  lemma SendStarts(c: L.Setup, k: C.Clocks, s: Node, r: Node, t: nat)
    requires IsoTpProgress.Live(c) && AtRest(s, c.capacity) && AtRest(r, c.capacity)
    ensures TxBegin(s.tx, c.capacity, c.msg, k.Sender(t)).1
    ensures L.Init(c, Sent(c, k, s, r, t).y) && C.OnTime(c, k, Sent(c, k, s, r, t))
  {
  }

  // ----- every transfer ends once -----

  /** Messages sent, and transfers that failed. */
  function Outcomes(n: Node): nat {
    n.completed + Count(n.errors, TimeoutFc) + Count(n.errors, TxStalled) + Count(n.errors, OverflowRemote)
  }

  function Ended(n: Node, v: Node): nat { if n.tx.phase != Idle && v.tx.phase == Idle then 1 else 0 }

  /** A refusal is the peer's. */
  ghost predicate Sane(n: Node) { n.tx.phase == Failed ==> n.tx.error == OverflowRemote }

  lemma Reported(n: Node, v: Node, e: Error)
    requires v.errors == n.errors + [e] && v.completed == n.completed
    ensures Outcomes(v) == Outcomes(n) + if e in {TimeoutFc, TxStalled, OverflowRemote} then 1 else 0
  {
    CountMore(n.errors, e, TimeoutFc);
    CountMore(n.errors, e, TxStalled);
    CountMore(n.errors, e, OverflowRemote);
    hide Count;
  }

  lemma OnceEnds(cfg: Config, n: Node, now: u32, accept: bool)
    requires TxValid(n.tx) && Sane(n)
    ensures var (v, more) := TxOnce(cfg, n, now, accept);
      && Sane(v) && Outcomes(v) == Outcomes(n) + Ended(n, v) && (n.tx.phase == Idle ==> v.tx.phase == Idle)
      && v.completed == n.completed + (if n.tx.phase == Done then 1 else 0)
  {
    var v := TxOnce(cfg, n, now, accept).0;
    hide Count, FirstFrame, SingleFrame, ConsecutiveFrame, Outcomes, ConsecutiveTake, NextSequence, Elapsed;
    assert Sane(v) && (n.tx.phase == Idle ==> v.tx.phase == Idle) && v.completed == n.completed + (if n.tx.phase == Done then 1 else 0);
    assert if Ended(n, v) == 0 || n.tx.phase == Done then v.errors == n.errors
      else v.errors == n.errors + [v.tx.error] && v.tx.error in {TimeoutFc, TxStalled, OverflowRemote};
    hide TxOnce;
    if v.errors == n.errors { SameOutcomes(n, v); } else { Reported(n, v, v.tx.error); }
  }

  lemma SameOutcomes(n: Node, v: Node)
    requires v.errors == n.errors
    ensures Outcomes(v) - Outcomes(n) == v.completed - n.completed
  {
  }

  lemma {:induction false} BurstOutcome(cfg: Config, n: Node, now: u32, accepts: seq<bool>)
    requires TxValid(n.tx) && Sane(n)
    ensures var v := TxBurst(cfg, n, now, accepts);
      Sane(v) && Outcomes(v) == Outcomes(n) + Ended(n, v) && (n.tx.phase == Idle ==> v.tx.phase == Idle)
    decreases |accepts|
  {
    if accepts != [] {
      OnceEnds(cfg, n, now, accepts[0]);
      TxOnceKeepsValid(cfg, n, now, accepts[0]);
      hide TxOnce, Outcomes, Sane;
      BurstOutcome(cfg, TxOnce(cfg, n, now, accepts[0]).0, now, accepts[1..]);
    }
  }

  lemma StepOutcome(c: Setup, n: Node, x: Timed)
    requires Legal(c, n, x) && Sane(n)
    ensures var v := Step(c, n, x);
      Sane(v) && Outcomes(v) == Outcomes(n) + Ended(n, v) && (n.tx.phase == Idle ==> v.tx.phase == Idle)
  {
    match x.event
    case Hear(f, accept) => HeardOutcome(c.cfg, c.capacity, n, f, c.Now(x.at), accept); hide Routed, Outcomes;
    case Poll(acceptFc, accepts) =>
      var now := c.Now(x.at);
      BeforeBurst(c.cfg, n, now, acceptFc);
      var m := RxPolled(c.cfg, RetriedFc(n, acceptFc), now);
      assert m.completed == n.completed;
      hide RxPolled, RetriedFc, TxBurst, Outcomes;
      if m.errors == n.errors { SameOutcomes(n, m); } else { Reported(n, m, TimeoutCf); }
      BurstOutcome(c.cfg, m, now, accepts);
  }

  lemma HeardOutcome(cfg: Config, capacity: nat, n: Node, f: Frame, now: u32, accept: bool)
    requires NodeValid(n, capacity) && Sane(n)
    ensures var v := Routed(cfg, capacity, n, f, now, accept);
      Sane(v) && Outcomes(v) == Outcomes(n) && (v.tx.phase == Idle <==> n.tx.phase == Idle)
  {
    var v := Routed(cfg, capacity, n, f, now, accept);
    hide DecodePci, FlowControlFrame, Outcomes;
    assert v.errors == n.errors || v.errors == n.errors + [WrongSequence];
    hide Routed, RxOnFrame;
    if v.errors == n.errors { SameOutcomes(n, v); } else { Reported(n, v, WrongSequence); }
  }

  /** In every run without a `send` of its own: the transfer under way, if it comes to its end, is told as sent or
      as failed exactly once, and nothing is told that did not end. */
  lemma {:induction false} EndsOnce(c: Setup, n: Node, t: nat, span: nat, xs: seq<Timed>, v: Node)
    requires Reaches(c, n, t, span, xs, v) && Sane(n)
    ensures Sane(v) && Outcomes(v) == Outcomes(n) + Ended(n, v) && (n.tx.phase == Idle ==> v.tx.phase == Idle)
    decreases |xs|
  {
    if xs != [] {
      StepOutcome(c, n, xs[0]);
      hide Step, Legal, Outcomes, Sane;
      EndsOnce(c, Step(c, n, xs[0]), xs[0].at, span, xs[1..], v);
    }
  }

  // ----- a linked transfer is told as sent -----

  lemma {:induction false} BurstCompletes(c: L.Setup, y: L.Sys, now: u32, accepts: seq<bool>)
    requires c.Ok() && L.Inv(c, y) && L.TxTimely(c, y.s.tx, now)
    ensures TxValid(y.s.tx) && var v := TxBurst(c.tx, y.s, now, accepts);
      v.completed == y.s.completed + Ended(y.s, v) && (y.s.tx.phase == Idle ==> v.tx.phase == Idle)
    decreases |accepts|
  {
    if accepts != [] {
      L.SendOnceInv(c, y, now, accepts[0]);
      OnceCompletes(c.tx, y.s, now, accepts[0]);
      hide TxOnce, L.Inv, L.TxTimely;
      var (s1, more) := TxOnce(c.tx, y.s, now, accepts[0]);
      if more { BurstCompletes(c, y.(s := s1), now, accepts[1..]); }
      assert s1.errors == y.s.errors by { InvErrors(c, y); InvErrors(c, y.(s := s1)); }
    }
  }

  lemma InvErrors(c: L.Setup, y: L.Sys)
    requires c.Ok() && L.Inv(c, y)
    ensures y.s.errors == []
  {
  }

  lemma OnceCompletes(cfg: Config, n: Node, now: u32, accept: bool)
    requires TxValid(n.tx)
    ensures var v := TxOnce(cfg, n, now, accept).0;
      v.errors == n.errors ==> v.completed == n.completed + Ended(n, v) && (n.tx.phase == Idle ==> v.tx.phase == Idle)
  {
    hide FirstFrame, SingleFrame, ConsecutiveFrame, ConsecutiveTake, NextSequence, Elapsed;
  }

  lemma NextCompletes(c: L.Setup, y: L.Sys, step: L.Step)
    requires c.Ok() && L.Inv(c, y) && L.Enabled(c, y, step) && L.SysValid(c, y)
    ensures var q := L.Next(c, y, step);
      q.s.completed == y.s.completed + Ended(y.s, q.s) && (y.s.tx.phase == Idle ==> q.s.tx.phase == Idle)
  {
    match step
    case ToReceiver(now, accept) => hide Routed;
    case ToSender(now, accept) => hide DecodePci, RxOnFrame, L.Inv;
    case SenderLoop(now, acceptFc, accepts) =>
      assert RxPolled(c.tx, RetriedFc(y.s, acceptFc), now) == y.s;
      BurstCompletes(c, y, now, accepts);
      hide TxBurst, L.Inv;
    case ReceiverLoop(now, acceptFc, accepts) => hide Looped, L.Inv;
  }

  lemma {:induction false} CompletedRun(c: L.Setup, k: C.Clocks, x: C.Timed, steps: seq<(nat, L.Step)>, z: C.Timed)
    requires c.Ok() && L.Inv(c, x.y) && C.Reaches(c, k, x, steps, z)
    ensures L.Inv(c, z.y) && z.y.s.completed == x.y.s.completed + Ended(x.y.s, z.y.s)
    ensures x.y.s.tx.phase == Idle ==> z.y.s.tx.phase == Idle
    decreases |steps|
  {
    if steps != [] {
      var (t, step) := steps[0];
      L.StepInv(c, x.y, step);
      NextCompletes(c, x.y, step);
      hide L.Inv, L.Next, L.Enabled;
      CompletedRun(c, k, C.Then(c, k, x, t, step), steps[1..], z);
    }
  }

  lemma CompletedAtTheEnd(c: L.Setup, k: C.Clocks, x: C.Timed, steps: seq<(nat, L.Step)>, z: C.Timed)
    requires c.Ok() && L.Init(c, x.y) && C.Reaches(c, k, x, steps, z) && L.TransferDone(z.y)
    ensures z.y.s.completed == x.y.s.completed + 1 && z.y.s.tx.phase == Idle && z.y.s.errors == [] && z.y.r.errors == []
  {
    L.InitInv(c, x.y);
    hide C.Reaches;
    CompletedRun(c, k, x, steps, z);
  }

  // ----- a loop pass -----

  /** Consecutive frames that may go at once: no separation time, and no block that ends among them. */
  lemma {:induction false} LoopSendsAll(cfg: Config, n: Node, now: u32, accepts: seq<bool>)
    requires TxValid(n.tx) && n.tx.phase == SendCf && n.tx.stMin == 0 && n.tx.pending == NonePending && cfg.stallMs > 0
    requires forall i :: 0 <= i < |accepts| ==> accepts[i]
    requires n.tx.blockRemaining == 0 || n.tx.blockRemaining > |accepts|
    requires |n.tx.msg| - n.tx.sent > |accepts| * cfg.ConsecutiveCapacity()
    ensures var v := TxBurst(cfg, n, now, accepts);
      |v.outbox| == |n.outbox| + |accepts| && v.tx.phase == SendCf && v.tx.sent == n.tx.sent + |accepts| * cfg.ConsecutiveCapacity()
    decreases |accepts|
  {
    if accepts != [] {
      TxOnceKeepsValid(cfg, n, now, accepts[0]);
      OneGoes(cfg, n, now, |accepts|);
      var v := TxOnce(cfg, n, now, true).0;
      assert |accepts| * cfg.ConsecutiveCapacity() == (|accepts| - 1) * cfg.ConsecutiveCapacity() + cfg.ConsecutiveCapacity();
      hide TxOnce;
      LoopSendsAll(cfg, v, now, accepts[1..]);
    }
  }

  lemma OneGoes(cfg: Config, n: Node, now: u32, left: nat)
    requires TxValid(n.tx) && n.tx.phase == SendCf && n.tx.stMin == 0 && n.tx.pending == NonePending && cfg.stallMs > 0
    requires (n.tx.blockRemaining == 0 || n.tx.blockRemaining > left > 0) && |n.tx.msg| - n.tx.sent > cfg.ConsecutiveCapacity()
    ensures var (v, more) := TxOnce(cfg, n, now, true);
      && more && |v.outbox| == |n.outbox| + 1 && v.tx.phase == SendCf && v.tx.stMin == 0 && v.tx.pending == NonePending
      && v.tx.msg == n.tx.msg && v.tx.sent == n.tx.sent + cfg.ConsecutiveCapacity()
      && (v.tx.blockRemaining == 0 || v.tx.blockRemaining > left - 1) && (n.tx.blockRemaining == 0 ==> v.tx.blockRemaining == 0)
  {
    hide FirstFrame, SingleFrame, ConsecutiveFrame, NextSequence;
  }

  /** One pass of the loop sends eight of them when the CAN layer takes all. */
  lemma LoopSendsEight(cfg: Config, n: Node, now: u32, acceptFc: bool, accepts: seq<bool>)
    requires TxValid(n.tx) && n.tx.phase == SendCf && n.tx.stMin == 0 && n.tx.pending == NonePending && cfg.stallMs > 0
    requires |accepts| == TX_FRAMES_PER_LOOP && forall i :: 0 <= i < |accepts| ==> accepts[i]
    requires n.tx.blockRemaining == 0 || n.tx.blockRemaining > 8
    requires |n.tx.msg| - n.tx.sent > 8 * cfg.ConsecutiveCapacity() && n.pendingFc.None?
    ensures |Looped(cfg, n, now, acceptFc, accepts).outbox| == |n.outbox| + 8
  {
    hide TxBurst;
    LoopSendsAll(cfg, RxPolled(cfg, RetriedFc(n, acceptFc), now), now, accepts);
  }

  // ----- frames that are of no use -----

  /** Frames that do not decode, and consecutive frames of no message, are counted, and change nothing else. */
  lemma IgnoredAreCounted(c: Setup, n: Node, t: nat, f: Frame, accept: bool)
    requires Legal(c, n, Timed(t, Hear(f, accept)))
    ensures var v, info := Step(c, n, Timed(t, Hear(f, accept))), DecodePci(c.cfg, f);
      if info.Invalid? || (info.Consecutive? && !n.rx.receiving) then
        v == n.(rx := n.rx.(ignored := (n.rx.ignored + 1) % WRAP))
      else v.rx.ignored == n.rx.ignored
  {
    hide DecodePci;
  }
}
