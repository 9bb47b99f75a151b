/** What becomes of a transfer whose peer falls silent or refuses it: every timer fires exactly once and not
    before it is due, and the node is ready for the next message. Times are real; the clock that the node
    reads wraps. */
module IsoTpTimeouts {
  import opened Words
  import opened IsoTpCodec
  import opened IsoTpTransfer
  import opened IsoTpNode

  /** A loop pass, or a frame that arrives. */
  datatype Event = Poll(acceptFc: bool, accepts: seq<bool>) | Hear(f: Frame, accept: bool)

  datatype Timed = Timed(at: nat, event: Event)

  /** One node: its configuration, buffer and what its clock reads at time zero. */
  datatype Setup = Setup(cfg: Config, capacity: nat, offset: u32)
  {
    function Now(t: nat): u32 { (t + offset) % WRAP }
  }

  ghost predicate Legal(c: Setup, n: Node, x: Timed) {
    NodeValid(n, c.capacity) && (x.event.Poll? ==> |x.event.accepts| == TX_FRAMES_PER_LOOP)
  }

  function Step(c: Setup, n: Node, x: Timed): Node
    requires Legal(c, n, x)
  {
    match x.event
    case Poll(acceptFc, accepts) => Looped(c.cfg, n, c.Now(x.at), acceptFc, accepts)
    case Hear(f, accept) => Routed(c.cfg, c.capacity, n, f, c.Now(x.at), accept)
  }

  /** A run in which time does not go backwards, from time `t` on and within the span of the clock. */
  ghost predicate Reaches(c: Setup, n: Node, t: nat, span: nat, xs: seq<Timed>, v: Node)
    decreases |xs|
  {
    if xs == [] then v == n
    else
      t <= xs[0].at < span && Legal(c, n, xs[0]) && Reaches(c, Step(c, n, xs[0]), xs[0].at, span, xs[1..], v)
  }

  function Count(errors: seq<Error>, e: Error): nat {
    if errors == [] then 0 else Count(errors[..|errors| - 1], e) + if errors[|errors| - 1] == e then 1 else 0
  }

  lemma CountMore(errors: seq<Error>, last: Error, e: Error)
    ensures Count(errors + [last], e) == Count(errors, e) + if last == e then 1 else 0
  {
    assert (errors + [last])[..|errors|] == errors;
  }

  lemma Reading(now: int, start: int, offset: int)
    requires start <= now < start + WRAP
    ensures Elapsed((now + offset) % WRAP, (start + offset) % WRAP) == now - start
  {
  }

  // ----- the sender waits for flow control -----

  /** No flow control frame. */
  predicate Quiet(c: Setup, x: Timed) { x.event.Hear? ==> !DecodePci(c.cfg, x.event.f).FlowControl? }

  ghost predicate AllQuiet(c: Setup, xs: seq<Timed>) { forall i :: 0 <= i < |xs| ==> Quiet(c, xs[i]) }

  /** The loop looks at this time or later. */
  ghost predicate PolledFrom(xs: seq<Timed>, due: nat) { exists i :: 0 <= i < |xs| && xs[i].event.Poll? && xs[i].at >= due }

  lemma PolledStep(xs: seq<Timed>, due: nat)
    requires xs != []
    ensures PolledFrom(xs, due) <==> (xs[0].event.Poll? && xs[0].at >= due) || PolledFrom(xs[1..], due)
  {
    if PolledFrom(xs, due) {
      var i :| 0 <= i < |xs| && xs[i].event.Poll? && xs[i].at >= due;
      if i > 0 { assert xs[1..][i - 1] == xs[i]; }
    }
    if PolledFrom(xs[1..], due) {
      var i :| 0 <= i < |xs[1..]| && xs[1..][i].event.Poll? && xs[1..][i].at >= due;
      assert xs[i + 1] == xs[1..][i];
    }
  }

  /** An idle sender does nothing of its own accord and can be given the next message. */
  ghost predicate Ready(n: Node) {
    n.tx.phase == Idle &&
    forall capacity: nat, data, now :: 1 <= |data| <= capacity ==> TxBegin(n.tx, capacity, data, now).1
  }

  /** What a loop pass does before it polls the sender. */
  lemma BeforeBurst(cfg: Config, n: Node, now: u32, acceptFc: bool)
    ensures var m := RxPolled(cfg, RetriedFc(n, acceptFc), now);
      && m.tx == n.tx && m.delivered == n.delivered && m.completed == n.completed
      && (if n.rx.receiving && Elapsed(now, n.rx.timerStart) >= cfg.nCrMs then
            m.errors == n.errors + [TimeoutCf] && !m.rx.receiving
          else m.errors == n.errors && m.rx == n.rx)
  {
  }

  /** A sender with nothing to send ends the burst at its first poll. */
  lemma BurstEnds(cfg: Config, n: Node, now: u32, accepts: seq<bool>)
    requires TxValid(n.tx) && accepts != [] && !TxOnce(cfg, n, now, accepts[0]).1
    ensures TxBurst(cfg, n, now, accepts) == TxOnce(cfg, n, now, accepts[0]).0
  {
    hide TxOnce;
  }

  /** A poll of a sender that waits for flow control. */
  lemma WaitingPoll(cfg: Config, n: Node, now: u32, accept: bool)
    requires TxValid(n.tx) && n.tx.phase == WaitFc
    ensures var (v, more) := TxOnce(cfg, n, now, accept);
      && !more && v.rx == n.rx && v.outbox == n.outbox && v.delivered == n.delivered
      && if Elapsed(now, n.tx.timerStart) >= cfg.nBsMs then v.tx.phase == Idle && v.errors == n.errors + [TimeoutFc]
         else v == n
  {
  }

  /** Frames that are no flow control frames do not concern the sender. */
  lemma HeardQuietly(cfg: Config, capacity: nat, n: Node, f: Frame, now: u32, accept: bool)
    requires NodeValid(n, capacity) && !DecodePci(cfg, f).FlowControl?
    ensures var v := Routed(cfg, capacity, n, f, now, accept);
      v.tx == n.tx && forall e :: e in {TimeoutFc, TxStalled, OverflowRemote} ==> Count(v.errors, e) == Count(n.errors, e)
  {
    var step := RxOnFrame(cfg, capacity, n.rx, f, now);
    forall e | e in {TimeoutFc, TxStalled, OverflowRemote}
      ensures Count(n.errors + [step.state.error], e) == Count(n.errors, e) + if step.state.error == e then 1 else 0 {
      CountMore(n.errors, step.state.error, e);
    }
    hide DecodePci, Count, FlowControlFrame;
  }

  lemma ReadyWhenIdle(n: Node)
    requires n.tx.phase == Idle
    ensures Ready(n)
  {
  }

  lemma WaitingStep(c: Setup, n: Node, since: nat, x: Timed)
    requires Legal(c, n, x) && n.tx.phase == WaitFc && n.tx.timerStart == c.Now(since) && since <= x.at < since + WRAP
    requires Quiet(c, x)
    ensures var v := Step(c, n, x);
      if x.event.Poll? && x.at >= since + c.cfg.nBsMs then
        v.tx.phase == Idle && Count(v.errors, TimeoutFc) == Count(n.errors, TimeoutFc) + 1
      else v.tx == n.tx && Count(v.errors, TimeoutFc) == Count(n.errors, TimeoutFc)
  {
    match x.event
    case Hear(f, accept) => HeardQuietly(c.cfg, c.capacity, n, f, c.Now(x.at), accept); hide Routed, DecodePci, Count;
    case Poll(acceptFc, accepts) =>
      var now := c.Now(x.at);
      Reading(x.at, since, c.offset);
      BeforeBurst(c.cfg, n, now, acceptFc);
      var m := RxPolled(c.cfg, RetriedFc(n, acceptFc), now);
      CountMore(n.errors, TimeoutCf, TimeoutFc);
      CountMore(m.errors, TimeoutFc, TimeoutFc);
      WaitingPoll(c.cfg, m, now, accepts[0]);
      hide TxOnce, RxPolled, RetriedFc, Count, TxBurst;
      BurstEnds(c.cfg, m, now, accepts);
  }

  lemma IdleStep(c: Setup, n: Node, x: Timed)
    requires Legal(c, n, x) && n.tx.phase == Idle
    ensures var v := Step(c, n, x);
      v.tx == n.tx && forall e :: e in {TimeoutFc, TxStalled, OverflowRemote} ==> Count(v.errors, e) == Count(n.errors, e)
  {
    match x.event
    case Hear(f, accept) =>
      if !DecodePci(c.cfg, f).FlowControl? { HeardQuietly(c.cfg, c.capacity, n, f, c.Now(x.at), accept); }
      hide DecodePci, Count;
    case Poll(acceptFc, accepts) =>
      var now := c.Now(x.at);
      BeforeBurst(c.cfg, n, now, acceptFc);
      var m := RxPolled(c.cfg, RetriedFc(n, acceptFc), now);
      CountMore(n.errors, TimeoutCf, TimeoutFc);
      CountMore(n.errors, TimeoutCf, TxStalled);
      CountMore(n.errors, TimeoutCf, OverflowRemote);
      assert TxOnce(c.cfg, m, now, accepts[0]) == (m, false);
      hide TxOnce, RxPolled, RetriedFc, Count, TxBurst;
      BurstEnds(c.cfg, m, now, accepts);
  }

  lemma {:induction false} IdleRun(c: Setup, n: Node, t: nat, span: nat, xs: seq<Timed>, v: Node)
    requires Reaches(c, n, t, span, xs, v) && n.tx.phase == Idle
    ensures v.tx == n.tx && forall e :: e in {TimeoutFc, TxStalled, OverflowRemote} ==> Count(v.errors, e) == Count(n.errors, e)
    decreases |xs|
  {
    if xs != [] {
      IdleStep(c, n, xs[0]);
      hide Step, Legal, Count;
      IdleRun(c, Step(c, n, xs[0]), xs[0].at, span, xs[1..], v);
    }
  }

  /** A sender that waits for flow control and hears none: nothing happens before N_Bs has gone by; the first
      loop pass from then on reports one timeout, and the sender is ready for the next message. */
  lemma {:induction false} UnansweredTimesOut(c: Setup, n: Node, since: nat, t: nat, xs: seq<Timed>, v: Node)
    requires n.tx.phase == WaitFc && n.tx.timerStart == c.Now(since) && since <= t
    requires Reaches(c, n, t, since + WRAP, xs, v) && AllQuiet(c, xs)
    ensures if PolledFrom(xs, since + c.cfg.nBsMs) then
        Ready(v) && Count(v.errors, TimeoutFc) == Count(n.errors, TimeoutFc) + 1
      else v.tx == n.tx && Count(v.errors, TimeoutFc) == Count(n.errors, TimeoutFc)
    decreases |xs|
  {
    if xs != [] {
      var due := since + c.cfg.nBsMs;
      assert Quiet(c, xs[0]);
      WaitingStep(c, n, since, xs[0]);
      PolledStep(xs, due);
      assert AllQuiet(c, xs[1..]);
      hide Step, Legal, Count, Quiet, AllQuiet, PolledFrom, Ready;
      var m := Step(c, n, xs[0]);
      if xs[0].event.Poll? && xs[0].at >= due {
        IdleRun(c, m, xs[0].at, since + WRAP, xs[1..], v);
        ReadyWhenIdle(v);
      } else {
        UnansweredTimesOut(c, m, since, xs[0].at, xs[1..], v);
      }
    }
  }

  /** The step keeps what the machines need. */
  lemma StepIsValid(c: Setup, n: Node, x: Timed)
    requires Legal(c, n, x)
    ensures NodeValid(Step(c, n, x), c.capacity)
  {
    match x.event
    case Hear(f, accept) => HeardIsValid(c.cfg, c.capacity, n, f, c.Now(x.at), accept); hide Routed;
    case Poll(acceptFc, accepts) =>
      hide TxBurst;
      var m := RxPolled(c.cfg, RetriedFc(n, acceptFc), c.Now(x.at));
      BurstIsValid(c.cfg, m, c.Now(x.at), accepts, c.capacity);
  }

  lemma HeardIsValid(cfg: Config, capacity: nat, n: Node, f: Frame, now: u32, accept: bool)
    requires NodeValid(n, capacity)
    ensures NodeValid(Routed(cfg, capacity, n, f, now, accept), capacity)
  {
    hide FlowControlFrame;
    var info := DecodePci(cfg, f);
    if info.First? { assert |info.payload| <= info.length; }
    hide DecodePci;
  }

  lemma {:induction false} BurstIsValid(cfg: Config, n: Node, now: u32, accepts: seq<bool>, capacity: nat)
    requires NodeValid(n, capacity)
    ensures NodeValid(TxBurst(cfg, n, now, accepts), capacity)
    decreases |accepts|
  {
    if accepts != [] {
      TxOnceKeepsValid(cfg, n, now, accepts[0]);
      assert TxOnce(cfg, n, now, accepts[0]).0.rx == n.rx by { hide TxPoll, TxConfirm; }
      hide TxOnce;
      BurstIsValid(cfg, TxOnce(cfg, n, now, accepts[0]).0, now, accepts[1..], capacity);
    }
  }

  /** The start: a message too long for a single frame, whose first frame the CAN layer takes. */
  lemma FirstFrameGoes(c: Setup, n: Node, data: seq<byte>, begun: u32, t: nat, accepts: seq<bool>)
    requires NodeValid(n, c.capacity) && n.tx.phase == Idle && n.tx.pending == NonePending
    requires c.cfg.SingleCapacity() < |data| <= MAX_MESSAGE_SIZE && |accepts| == TX_FRAMES_PER_LOOP && accepts[0] && c.cfg.nBsMs > 0
    ensures var tx := TxBegin(n.tx, MAX_MESSAGE_SIZE, data, begun).0; var m := n.(tx := tx);
      && NodeValid(m, c.capacity)
      && var v := Step(c, m, Timed(t, Poll(false, accepts)));
         && v.tx.phase == WaitFc && v.tx.timerStart == c.Now(t) && v.tx.msg == data
         && v.outbox == n.outbox + [FirstFrame(c.cfg, data)] && Count(v.errors, TimeoutFc) == Count(n.errors, TimeoutFc)
  {
    var now := c.Now(t);
    var m := n.(tx := TxBegin(n.tx, MAX_MESSAGE_SIZE, data, begun).0);
    BeforeBurst(c.cfg, m, now, false);
    var m1 := RxPolled(c.cfg, RetriedFc(m, false), now);
    CountMore(n.errors, TimeoutCf, TimeoutFc);
    var (m2, more) := TxOnce(c.cfg, m1, now, true);
    assert more && m2.tx.phase == WaitFc && m2.tx.timerStart == now && TxValid(m2.tx) && m2.outbox == n.outbox + [FirstFrame(c.cfg, data)] by {
      hide FirstFrame, SingleFrame, ConsecutiveFrame, Count;
    }
    WaitingPoll(c.cfg, m2, now, accepts[1]);
    hide TxOnce, Count, FirstFrame;
    BurstEnds(c.cfg, m2, now, accepts[1..]);
  }

  /** A message to a peer that never answers: its first frame goes out at `t0`; not a moment before N_Bs after
      that, and at the first loop pass from then on, the sender reports one timeout and is ready again. */
  lemma SilentPeer(c: Setup, n: Node, data: seq<byte>, begun: u32, t0: nat, accepts: seq<bool>, xs: seq<Timed>, v: Node)
    requires NodeValid(n, c.capacity) && n.tx.phase == Idle && n.tx.pending == NonePending
    requires c.cfg.SingleCapacity() < |data| <= MAX_MESSAGE_SIZE && |accepts| == TX_FRAMES_PER_LOOP && accepts[0] && c.cfg.nBsMs > 0
    requires var m := n.(tx := TxBegin(n.tx, MAX_MESSAGE_SIZE, data, begun).0);
      Legal(c, m, Timed(t0, Poll(false, accepts))) &&
      Reaches(c, Step(c, m, Timed(t0, Poll(false, accepts))), t0, t0 + WRAP, xs, v)
    requires AllQuiet(c, xs)
    ensures if PolledFrom(xs, t0 + c.cfg.nBsMs) then
        Ready(v) && Count(v.errors, TimeoutFc) == Count(n.errors, TimeoutFc) + 1
      else v.tx.phase == WaitFc && Count(v.errors, TimeoutFc) == Count(n.errors, TimeoutFc)
  {
    FirstFrameGoes(c, n, data, begun, t0, accepts);
    var m := n.(tx := TxBegin(n.tx, MAX_MESSAGE_SIZE, data, begun).0);
    hide Step, Count, Ready, PolledFrom, AllQuiet, Reaches, Legal, TxBegin;
    UnansweredTimesOut(c, Step(c, m, Timed(t0, Poll(false, accepts))), t0, t0, xs, v);
  }

  // ----- flow control that does not grant -----

  predicate Says(c: Setup, f: Frame, status: FlowStatus) {
    DecodePci(c.cfg, f).FlowControl? && DecodePci(c.cfg, f).status == status
  }

  /** A request to wait starts N_Bs afresh and changes nothing else. */
  lemma WaitRestarts(c: Setup, n: Node, t: nat, f: Frame, accept: bool)
    requires Legal(c, n, Timed(t, Hear(f, accept))) && n.tx.phase == WaitFc && Says(c, f, Wait)
    ensures Step(c, n, Timed(t, Hear(f, accept))) == n.(tx := n.tx.(timerStart := c.Now(t)))
  {
    hide DecodePci;
  }

  /** Flow control that nobody waits for is ignored. */
  lemma UnaskedIgnored(c: Setup, n: Node, t: nat, f: Frame, accept: bool)
    requires Legal(c, n, Timed(t, Hear(f, accept))) && n.tx.phase != WaitFc && DecodePci(c.cfg, f).FlowControl?
    ensures Step(c, n, Timed(t, Hear(f, accept))) == n
  {
    hide DecodePci;
  }

  lemma RefusedStep(c: Setup, n: Node, x: Timed)
    requires Legal(c, n, x) && n.tx.phase == Failed && n.tx.error == OverflowRemote
    ensures var v := Step(c, n, x);
      if x.event.Poll? then v.tx.phase == Idle && Count(v.errors, OverflowRemote) == Count(n.errors, OverflowRemote) + 1
      else v.tx == n.tx && Count(v.errors, OverflowRemote) == Count(n.errors, OverflowRemote)
  {
    match x.event
    case Hear(f, accept) =>
      if !DecodePci(c.cfg, f).FlowControl? { HeardQuietly(c.cfg, c.capacity, n, f, c.Now(x.at), accept); }
      hide DecodePci, Count;
    case Poll(acceptFc, accepts) =>
      var now := c.Now(x.at);
      BeforeBurst(c.cfg, n, now, acceptFc);
      var m := RxPolled(c.cfg, RetriedFc(n, acceptFc), now);
      CountMore(n.errors, TimeoutCf, OverflowRemote);
      CountMore(m.errors, OverflowRemote, OverflowRemote);
      var (v, more) := TxOnce(c.cfg, m, now, accepts[0]);
      assert !more && v.tx.phase == Idle && v.errors == m.errors + [OverflowRemote];
      hide TxOnce, RxPolled, RetriedFc, Count, TxBurst;
      BurstEnds(c.cfg, m, now, accepts);
  }

  lemma {:induction false} RefusedRun(c: Setup, n: Node, t: nat, span: nat, xs: seq<Timed>, v: Node)
    requires Reaches(c, n, t, span, xs, v) && n.tx.phase == Failed && n.tx.error == OverflowRemote
    ensures if PolledFrom(xs, 0) then
        Ready(v) && Count(v.errors, OverflowRemote) == Count(n.errors, OverflowRemote) + 1
      else v.tx == n.tx && Count(v.errors, OverflowRemote) == Count(n.errors, OverflowRemote)
    decreases |xs|
  {
    if xs != [] {
      RefusedStep(c, n, xs[0]);
      PolledStep(xs, 0);
      hide Step, Legal, Count, PolledFrom, Ready;
      var m := Step(c, n, xs[0]);
      if xs[0].event.Poll? {
        IdleRun(c, m, xs[0].at, span, xs[1..], v);
        ReadyWhenIdle(v);
      } else {
        RefusedRun(c, m, xs[0].at, span, xs[1..], v);
      }
    }
  }

  /** A peer that has no room: the next loop pass, and no other, reports it, and the sender is ready again. */
  lemma OverflowEnds(c: Setup, n: Node, t: nat, f: Frame, accept: bool, span: nat, xs: seq<Timed>, v: Node)
    requires Legal(c, n, Timed(t, Hear(f, accept))) && n.tx.phase == WaitFc && Says(c, f, BufferOverflow)
    requires Reaches(c, Step(c, n, Timed(t, Hear(f, accept))), t, span, xs, v)
    ensures if PolledFrom(xs, 0) then
        Ready(v) && Count(v.errors, OverflowRemote) == Count(n.errors, OverflowRemote) + 1
      else v.tx.phase != SendCf && v.tx.phase != WaitFc && Count(v.errors, OverflowRemote) == Count(n.errors, OverflowRemote)
  {
    var m := Step(c, n, Timed(t, Hear(f, accept)));
    assert m.tx.phase == Failed && m.tx.error == OverflowRemote && m.errors == n.errors by { hide DecodePci; }
    hide Step, Legal, Count, PolledFrom, Ready, Reaches, Says;
    RefusedRun(c, m, t, span, xs, v);
  }

  // ----- the receiver waits for a consecutive frame -----

  /** The errors that only a reception reports. */
  predicate OfReception(e: Error) { e == TimeoutCf || e == WrongSequence }

  /** No message begins. */
  predicate NoBeginning(c: Setup, x: Timed) {
    x.event.Hear? ==> !DecodePci(c.cfg, x.event.f).First? && !DecodePci(c.cfg, x.event.f).Single?
  }

  /** Nothing that concerns the receiver: flow control, or no frame of the protocol at all. */
  predicate NotForReceiver(c: Setup, x: Timed) {
    x.event.Hear? ==> DecodePci(c.cfg, x.event.f).FlowControl? || DecodePci(c.cfg, x.event.f).Invalid?
  }

  ghost predicate NoneForReceiver(c: Setup, xs: seq<Timed>) { forall i :: 0 <= i < |xs| ==> NotForReceiver(c, xs[i]) }

  ghost predicate NoneBegins(c: Setup, xs: seq<Timed>) { forall i :: 0 <= i < |xs| ==> NoBeginning(c, xs[i]) }

  /** The reception goes on as it was. */
  ghost predicate Receiving(n: Node, v: Node) { v.rx == n.rx.(ignored := v.rx.ignored) && v.delivered == n.delivered }

  /** Nothing was delivered, and no more errors of a reception reported than these. */
  ghost predicate Silent(n: Node, v: Node, timeouts: nat, sequences: nat) {
    && v.delivered == n.delivered && !OfReception(v.tx.error)
    && Count(v.errors, TimeoutCf) == Count(n.errors, TimeoutCf) + timeouts
    && Count(v.errors, WrongSequence) == Count(n.errors, WrongSequence) + sequences
  }

  lemma OneMore(n: Node, v: Node, e: Error)
    requires v.delivered == n.delivered && !OfReception(v.tx.error) && v.errors == n.errors + [e]
    ensures Silent(n, v, if e == TimeoutCf then 1 else 0, if e == WrongSequence then 1 else 0)
  {
    CountMore(n.errors, e, TimeoutCf);
    CountMore(n.errors, e, WrongSequence);
    hide Count;
  }

  lemma OnceSpares(cfg: Config, n: Node, now: u32, accept: bool)
    requires TxValid(n.tx) && !OfReception(n.tx.error)
    ensures var v := TxOnce(cfg, n, now, accept).0; v.rx == n.rx && Silent(n, v, 0, 0)
  {
    var v := TxOnce(cfg, n, now, accept).0;
    hide FirstFrame, SingleFrame, ConsecutiveFrame, Count, Silent;
    assert v.rx == n.rx && v.delivered == n.delivered && !OfReception(v.tx.error) && (v.errors == n.errors || v.errors == n.errors + [v.tx.error]);
    hide TxOnce;
    if v.errors == n.errors { assert Silent(n, v, 0, 0) by { SameErrors(n, v); } } else { OneMore(n, v, v.tx.error); }
  }

  lemma SameErrors(n: Node, v: Node)
    requires v.delivered == n.delivered && !OfReception(v.tx.error) && v.errors == n.errors
    ensures Silent(n, v, 0, 0)
  {
  }

  lemma {:induction false} BurstSpares(cfg: Config, n: Node, now: u32, accepts: seq<bool>)
    requires TxValid(n.tx) && !OfReception(n.tx.error)
    ensures var v := TxBurst(cfg, n, now, accepts); v.rx == n.rx && Silent(n, v, 0, 0)
    decreases |accepts|
  {
    if accepts == [] {
      SameErrors(n, n);
    } else {
      var v := TxOnce(cfg, n, now, accepts[0]).0;
      TxOnceKeepsValid(cfg, n, now, accepts[0]);
      OnceSpares(cfg, n, now, accepts[0]);
      hide TxOnce, Count;
      assert !OfReception(v.tx.error);
      BurstSpares(cfg, v, now, accepts[1..]);
    }
  }

  lemma ReceivingStep(c: Setup, n: Node, since: nat, x: Timed)
    requires Legal(c, n, x) && n.rx.receiving && n.rx.timerStart == c.Now(since) && since <= x.at < since + WRAP
    requires NotForReceiver(c, x) && !OfReception(n.tx.error)
    ensures var v := Step(c, n, x); var due := x.event.Poll? && x.at >= since + c.cfg.nCrMs;
      (if due then !v.rx.receiving else Receiving(n, v)) && Silent(n, v, if due then 1 else 0, 0)
  {
    match x.event
    case Hear(f, accept) => hide DecodePci, Count;
    case Poll(acceptFc, accepts) =>
      hide TxBurst, Count;
      Reading(x.at, since, c.offset);
      PollSpares(c, n, x.at, acceptFc, accepts);
  }

  /** A loop pass does to the reception what its timer says. */
  lemma PollSpares(c: Setup, n: Node, at: nat, acceptFc: bool, accepts: seq<bool>)
    requires TxValid(n.tx) && !OfReception(n.tx.error)
    ensures var v := Looped(c.cfg, n, c.Now(at), acceptFc, accepts);
      if n.rx.receiving && Elapsed(c.Now(at), n.rx.timerStart) >= c.cfg.nCrMs then !v.rx.receiving && Silent(n, v, 1, 0)
      else v.rx == n.rx && Silent(n, v, 0, 0)
  {
    var now := c.Now(at);
    BeforeBurst(c.cfg, n, now, acceptFc);
    var m := RxPolled(c.cfg, RetriedFc(n, acceptFc), now);
    hide RxPolled, RetriedFc, Count, TxBurst, Elapsed;
    BurstSpares(c.cfg, m, now, accepts);
    if m.errors == n.errors { SameErrors(n, m); } else { OneMore(n, m, TimeoutCf); }
  }

  lemma DeafStep(c: Setup, n: Node, x: Timed)
    requires Legal(c, n, x) && !n.rx.receiving && NoBeginning(c, x) && !OfReception(n.tx.error)
    ensures var v := Step(c, n, x); !v.rx.receiving && Silent(n, v, 0, 0)
  {
    match x.event
    case Hear(f, accept) => hide DecodePci, Count;
    case Poll(acceptFc, accepts) => hide TxBurst, Count; PollSpares(c, n, x.at, acceptFc, accepts);
  }

  lemma {:induction false} DeafRun(c: Setup, n: Node, t: nat, span: nat, xs: seq<Timed>, v: Node)
    requires Reaches(c, n, t, span, xs, v) && !n.rx.receiving && NoneBegins(c, xs) && !OfReception(n.tx.error)
    ensures !v.rx.receiving && Silent(n, v, 0, 0)
    decreases |xs|
  {
    if xs != [] {
      assert NoBeginning(c, xs[0]) && NoneBegins(c, xs[1..]);
      DeafStep(c, n, xs[0]);
      hide Step, Legal, Count, NoBeginning, NoneBegins;
      DeafRun(c, Step(c, n, xs[0]), xs[0].at, span, xs[1..], v);
    }
  }

  /** A receiver whose sender falls silent: the reception stands until N_Cr has gone by; the first loop pass from
      then on reports one timeout and drops it. */
  lemma {:induction false} UnfinishedTimesOut(c: Setup, n: Node, since: nat, t: nat, xs: seq<Timed>, v: Node)
    requires n.rx.receiving && n.rx.timerStart == c.Now(since) && since <= t && !OfReception(n.tx.error)
    requires Reaches(c, n, t, since + WRAP, xs, v) && NoneForReceiver(c, xs)
    ensures if PolledFrom(xs, since + c.cfg.nCrMs) then !v.rx.receiving && Silent(n, v, 1, 0)
      else Receiving(n, v) && Silent(n, v, 0, 0)
    decreases |xs|
  {
    if xs != [] {
      var due := since + c.cfg.nCrMs;
      assert NotForReceiver(c, xs[0]) && NoneForReceiver(c, xs[1..]) && NoneBegins(c, xs[1..]);
      ReceivingStep(c, n, since, xs[0]);
      PolledStep(xs, due);
      hide Step, Legal, Count, NotForReceiver, NoneForReceiver, NoneBegins, PolledFrom;
      var m := Step(c, n, xs[0]);
      if xs[0].event.Poll? && xs[0].at >= due {
        DeafRun(c, m, xs[0].at, since + WRAP, xs[1..], v);
      } else {
        UnfinishedTimesOut(c, m, since, xs[0].at, xs[1..], v);
      }
    } else {
      SameErrors(n, v);
    }
  }

  /** A consecutive frame out of turn ends the reception: it is reported once, and nothing is delivered until
      another message begins. */
  lemma WrongSequenceEnds(c: Setup, n: Node, t: nat, f: Frame, accept: bool, span: nat, xs: seq<Timed>, v: Node)
    requires Legal(c, n, Timed(t, Hear(f, accept))) && n.rx.receiving && !OfReception(n.tx.error)
    requires DecodePci(c.cfg, f).Consecutive? && DecodePci(c.cfg, f).sequence != (n.rx.sequence + 1) % 16
    requires Reaches(c, Step(c, n, Timed(t, Hear(f, accept))), t, span, xs, v) && NoneBegins(c, xs)
    ensures !v.rx.receiving && Silent(n, v, 0, 1)
  {
    var m := Step(c, n, Timed(t, Hear(f, accept)));
    assert m == n.(rx := n.rx.(receiving := false, error := WrongSequence), errors := n.errors + [WrongSequence]) by { hide DecodePci; }
    OneMore(n, m, WrongSequence);
    hide Step, Legal, Count, NoneBegins, Reaches, DecodePci;
    DeafRun(c, m, t, span, xs, v);
  }

  /** A message longer than the buffer: the peer is told so, a reception under way is given up, and nothing is
      delivered until another message begins. */
  lemma TooLongIsRefused(c: Setup, n: Node, t: nat, f: Frame, accept: bool, span: nat, xs: seq<Timed>, v: Node)
    requires Legal(c, n, Timed(t, Hear(f, accept))) && !OfReception(n.tx.error)
    requires DecodePci(c.cfg, f).First? && DecodePci(c.cfg, f).length > c.capacity
    requires Reaches(c, Step(c, n, Timed(t, Hear(f, accept))), t, span, xs, v) && NoneBegins(c, xs)
    ensures !v.rx.receiving && Silent(n, v, 0, 0)
    ensures var m := Step(c, n, Timed(t, Hear(f, accept)));
      exists told :: Says(c, told, BufferOverflow) &&
        if accept then m.outbox == n.outbox + [told] && m.pendingFc == n.pendingFc else m.outbox == n.outbox && m.pendingFc == Some(told)
  {
    var m := Step(c, n, Timed(t, Hear(f, accept)));
    var told := FlowControlFrame(c.cfg, BufferOverflow, 0, 0);
    FlowControlRoundTrip(c.cfg, c.cfg, BufferOverflow, 0, 0);
    hide DecodePci, FlowControlFrame;
    assert m == n.(rx := n.rx.(receiving := false, error := OverflowLocal), outbox := m.outbox, pendingFc := m.pendingFc);
    assert Says(c, told, BufferOverflow);
    SameErrors(n, m);
    assert if accept then m.outbox == n.outbox + [told] && m.pendingFc == n.pendingFc else m.outbox == n.outbox && m.pendingFc == Some(told);
    hide Step, Legal, Count, NoneBegins, Reaches, Says;
    DeafRun(c, m, t, span, xs, v);
  }

  // ----- a CAN layer that refuses -----

  /** The frame on offer since instant `since`, which the spacing of consecutive frames does not hold back within
      the run; instant `last` is when the one before was sent, as the clock has it. */
  ghost predicate Offering(c: Setup, tx: TxState, since: nat, last: int, span: nat) {
    && tx.stallStart == c.Now(since) && span <= since + WRAP
    && match tx.pending
       case NonePending => false
       case PendSingle => tx.phase == SendFirst && |tx.msg| <= c.cfg.SingleCapacity()
       case PendFirst => tx.phase == SendFirst && |tx.msg| > c.cfg.SingleCapacity()
       case PendConsecutive =>
         && tx.phase == SendCf && tx.sent < |tx.msg|
         && tx.pendingSequence == NextSequence(tx.sequence) && tx.pendingTake == ConsecutiveTake(c.cfg, tx.msg[tx.sent..])
         && (tx.stMin == 0 || (tx.lastCf == (last + c.offset) % WRAP && last + tx.stMin <= since && span <= last + WRAP))
  }

  ghost predicate Refused(x: Timed) { x.event.Poll? ==> forall i :: 0 <= i < |x.event.accepts| ==> !x.event.accepts[i] }

  ghost predicate AllRefused(xs: seq<Timed>) { forall i :: 0 <= i < |xs| ==> Refused(xs[i]) }

  lemma OfferedPoll(c: Setup, n: Node, at: nat, since: nat, last: int, span: nat)
    requires TxValid(n.tx) && Offering(c, n.tx, since, last, span) && since <= at < span
    ensures var (v, more) := TxOnce(c.cfg, n, c.Now(at), false);
      && !more && v.outbox == n.outbox
      && if at >= since + c.cfg.stallMs then v.tx.phase == Idle && v.errors == n.errors + [TxStalled] else v == n
  {
    Reading(at, since, c.offset);
    if n.tx.pending == PendConsecutive && n.tx.stMin != 0 { Reading(at, last, c.offset); }
    hide FirstFrame, SingleFrame, ConsecutiveFrame, ConsecutiveTake, NextSequence, Elapsed;
  }

  lemma OfferingStep(c: Setup, n: Node, x: Timed, since: nat, last: int, span: nat)
    requires Legal(c, n, x) && Offering(c, n.tx, since, last, span) && since <= x.at < span && Refused(x)
    ensures var v := Step(c, n, x);
      if x.event.Poll? && x.at >= since + c.cfg.stallMs then
        v.tx.phase == Idle && Count(v.errors, TxStalled) == Count(n.errors, TxStalled) + 1
      else v.tx == n.tx && Count(v.errors, TxStalled) == Count(n.errors, TxStalled)
  {
    match x.event
    case Hear(f, accept) =>
      if DecodePci(c.cfg, f).FlowControl? {
        UnaskedIgnored(c, n, x.at, f, accept);
      } else {
        HeardQuietly(c.cfg, c.capacity, n, f, c.Now(x.at), accept);
      }
      hide Routed, DecodePci, Count, Offering;
    case Poll(acceptFc, accepts) =>
      var now := c.Now(x.at);
      BeforeBurst(c.cfg, n, now, acceptFc);
      var m := RxPolled(c.cfg, RetriedFc(n, acceptFc), now);
      CountMore(n.errors, TimeoutCf, TxStalled);
      CountMore(m.errors, TxStalled, TxStalled);
      hide TxOnce, RxPolled, RetriedFc, Count, TxBurst, Offering;
      assert !accepts[0];
      OfferedPoll(c, m, x.at, since, last, span);
      BurstEnds(c.cfg, m, now, accepts);
  }

  /** A frame that the CAN layer goes on refusing: nothing happens before the stall time has gone by since it was
      first offered; the first loop pass from then on reports it once, and the sender is ready again. */
  lemma {:induction false} RefusedTimesOut(c: Setup, n: Node, since: nat, last: int, t: nat, span: nat, xs: seq<Timed>, v: Node)
    requires Offering(c, n.tx, since, last, span) && since <= t
    requires Reaches(c, n, t, span, xs, v) && AllRefused(xs)
    ensures if PolledFrom(xs, since + c.cfg.stallMs) then
        Ready(v) && Count(v.errors, TxStalled) == Count(n.errors, TxStalled) + 1
      else v.tx == n.tx && Count(v.errors, TxStalled) == Count(n.errors, TxStalled)
    decreases |xs|
  {
    if xs != [] {
      var due := since + c.cfg.stallMs;
      assert Refused(xs[0]) && AllRefused(xs[1..]);
      OfferingStep(c, n, xs[0], since, last, span);
      PolledStep(xs, due);
      hide Step, Legal, Count, Refused, AllRefused, PolledFrom, Ready, Offering;
      var m := Step(c, n, xs[0]);
      if xs[0].event.Poll? && xs[0].at >= due {
        IdleRun(c, m, xs[0].at, span, xs[1..], v);
        ReadyWhenIdle(v);
      } else {
        RefusedTimesOut(c, m, since, last, xs[0].at, span, xs[1..], v);
      }
    }
  }

  /** A message whose first frame the CAN layer refuses at `t0`, and from then on. */
  lemma RefusedFromTheStart(c: Setup, n: Node, data: seq<byte>, begun: u32, t0: nat, accepts: seq<bool>, xs: seq<Timed>, v: Node)
    requires NodeValid(n, c.capacity) && n.tx.phase == Idle && n.tx.pending == NonePending
    requires 1 <= |data| <= MAX_MESSAGE_SIZE && |accepts| == TX_FRAMES_PER_LOOP && !accepts[0]
    requires var m := n.(tx := TxBegin(n.tx, MAX_MESSAGE_SIZE, data, begun).0);
      Legal(c, m, Timed(t0, Poll(false, accepts))) &&
      Reaches(c, Step(c, m, Timed(t0, Poll(false, accepts))), t0, t0 + WRAP, xs, v)
    requires AllRefused(xs)
    ensures if PolledFrom(xs, t0 + c.cfg.stallMs) then
        Ready(v) && Count(v.errors, TxStalled) == Count(n.errors, TxStalled) + 1
      else v.tx.phase == SendFirst && Count(v.errors, TxStalled) == Count(n.errors, TxStalled)
  {
    FirstOffer(c, n, data, begun, t0, accepts);
    var m := n.(tx := TxBegin(n.tx, MAX_MESSAGE_SIZE, data, begun).0);
    hide Step, Count, Ready, PolledFrom, AllRefused, Reaches, Legal, TxBegin;
    var q := Step(c, m, Timed(t0, Poll(false, accepts)));
    assert q.tx.phase == SendFirst by { hide Offering; }
    RefusedTimesOut(c, q, t0, 0, t0, t0 + WRAP, xs, v);
  }

  lemma FirstOffer(c: Setup, n: Node, data: seq<byte>, begun: u32, t0: nat, accepts: seq<bool>)
    requires NodeValid(n, c.capacity) && n.tx.phase == Idle && n.tx.pending == NonePending
    requires 1 <= |data| <= MAX_MESSAGE_SIZE && |accepts| == TX_FRAMES_PER_LOOP && !accepts[0]
    ensures NodeValid(n.(tx := TxBegin(n.tx, MAX_MESSAGE_SIZE, data, begun).0), c.capacity)
    ensures var v := Step(c, n.(tx := TxBegin(n.tx, MAX_MESSAGE_SIZE, data, begun).0), Timed(t0, Poll(false, accepts)));
      && v.tx.phase == SendFirst && Offering(c, v.tx, t0, 0, t0 + WRAP)
      && Count(v.errors, TxStalled) == Count(n.errors, TxStalled)
  {
    var now := c.Now(t0);
    var m := n.(tx := TxBegin(n.tx, MAX_MESSAGE_SIZE, data, begun).0);
    BeforeBurst(c.cfg, m, now, false);
    var m1 := RxPolled(c.cfg, RetriedFc(m, false), now);
    CountMore(n.errors, TimeoutCf, TxStalled);
    var (m2, more) := TxOnce(c.cfg, m1, now, false);
    assert !more && m2.errors == m1.errors && m2.tx.phase == SendFirst && Offering(c, m2.tx, t0, 0, t0 + WRAP) by {
      hide FirstFrame, SingleFrame, ConsecutiveFrame, Count;
    }
    hide TxOnce, Count, TxBurst, Offering;
    BurstEnds(c.cfg, m1, now, accepts);
  }

  /** A transfer that is given up: the sender is ready at once, and none of its timers ever fires. */
  lemma AbortedIsReady(c: Setup, n: Node, t: nat, span: nat, xs: seq<Timed>, v: Node)
    requires Reaches(c, n.(tx := TxAbort(n.tx)), t, span, xs, v)
    ensures Ready(v) && v.tx.msg == n.tx.msg && (n.tx.phase != Idle ==> v.tx.error == Aborted)
    ensures forall e :: e in {TimeoutFc, TxStalled, OverflowRemote} ==> Count(v.errors, e) == Count(n.errors, e)
  {
    hide Step, Legal, Count;
    IdleRun(c, n.(tx := TxAbort(n.tx)), t, span, xs, v);
    ReadyWhenIdle(v);
  }

  /** The frame that a message is offered as first. */
  function FirstKind(cfg: Config, data: seq<byte>): Pending {
    if |data| <= cfg.SingleCapacity() then PendSingle else PendFirst
  }

  /** The first poll of a message offers its first frame or, if an aborted transfer has left an offer of the same
      kind pending and the stall time has gone by since `send`, fails although nothing was refused. */
  lemma FirstPollStallsIff(cfg: Config, s: TxState, capacity: nat, data: seq<byte>, begun: u32, now: u32)
    requires TxValid(s) && s.phase == Idle && 1 <= |data| <= capacity <= MAX_MESSAGE_SIZE
    ensures TxValid(TxBegin(s, capacity, data, begun).0)
    ensures var step := TxPoll(cfg, TxBegin(s, capacity, data, begun).0, now);
      && (step.action == TxFailed <==> s.pending == FirstKind(cfg, data) && Elapsed(now, begun) >= cfg.stallMs)
      && (step.action == TxFailed ==> step.state.error == TxStalled)
      && (step.action != TxFailed ==> step.action == TxSendFrame)
  {
    hide FirstFrame, SingleFrame, ConsecutiveFrame, Elapsed;
  }

  /** Such a run: a message is offered once and refused, aborted, and another begun; polled only after the stall
      time, it fails at once. */
  lemma StaleOfferFails(cfg: Config, s: TxState, data: seq<byte>, t: nat)
    requires s.phase == Idle && s.pending == NonePending && 1 <= |data| <= cfg.SingleCapacity()
    requires t + cfg.stallMs < WRAP && |s.msg| <= MAX_MESSAGE_SIZE
    ensures var s1 := TxBegin(s, MAX_MESSAGE_SIZE, data, t).0;
      TxValid(s1) && TxPoll(cfg, s1, t).action == TxSendFrame &&
      var s2 := TxBegin(TxAbort(TxPoll(cfg, s1, t).state), MAX_MESSAGE_SIZE, data, t).0;
      TxValid(s2) && TxPoll(cfg, s2, t + cfg.stallMs).action == TxFailed && TxPoll(cfg, s2, t + cfg.stallMs).state.error == TxStalled
  {
    hide SingleFrame;
  }
}
