/** An ISO-TP transfer in real time: both nodes read millisecond clocks that wrap and need not agree, and
    time never runs backwards. As long as nothing is overdue the transfer can always be finished. */
module IsoTpClock {
  import opened Words
  import opened IsoTpCodec
  import opened IsoTpTransfer
  import opened IsoTpNode
  import opened IsoTpLink
  import opened IsoTpProgress

  /** What the two clocks read at time zero. */
  datatype Clocks = Clocks(s: u32, r: u32)
  {
    function Sender(t: int): u32 { (t + s) % WRAP }

    function Receiver(t: int): u32 { (t + r) % WRAP }
  }

  /** The system at a real time, with the times that the sender's separation timer and the receiver's frame
      timer stand for. */
  datatype Timed = Timed(y: Sys, at: nat, sent: int, got: nat)

  /** The step taken at time `t`: never earlier than the last one, read off the node's own clock, and
      within the span that a wrapping clock can tell apart. */
  ghost predicate Legal(c: Setup, k: Clocks, x: Timed, t: nat, step: Step) {
    && x.at <= t && SysValid(c, x.y) && Enabled(c, x.y, step)
    && step.now == (if step.ToReceiver? || step.ReceiverLoop? then k.Receiver(t) else k.Sender(t))
    && (x.y.s.tx.phase == SendCf ==> t - x.sent < WRAP)
  }

  ghost function Then(c: Setup, k: Clocks, x: Timed, t: nat, step: Step): Timed
    requires Legal(c, k, x, t, step)
  {
    var y := Next(c, x.y, step);
    Timed(y, t,
      match step
      case ToSender(_, _) => t - StMinToMs(c.rx.stMinRaw)
      case SenderLoop(_, _, _) => if |y.s.outbox| > |x.y.s.outbox| then t else x.sent
      case _ => x.sent,
      if step.ToReceiver? then t else x.got)
  }

  /** A run: each step with its time. */
  ghost predicate Reaches(c: Setup, k: Clocks, x: Timed, steps: seq<(nat, Step)>, z: Timed)
    decreases |steps|
  {
    if steps == [] then z == x
    else
      Legal(c, k, x, steps[0].0, steps[0].1) &&
      Reaches(c, k, Then(c, k, x, steps[0].0, steps[0].1), steps[1..], z)
  }

  /** No timer of either node has run out at this time. */
  ghost predicate OnTime(c: Setup, k: Clocks, x: Timed) {
    && TxTimely(c, x.y.s.tx, k.Sender(x.at))
    && (x.y.s.tx.phase == SendCf ==> x.at - x.sent < WRAP)
    && (x.y.r.rx.receiving ==> x.at - x.got < c.rx.nCrMs)
  }

  // ----- what the timers stand for -----

  ghost predicate SenderClock(c: Setup, k: Clocks, tx: TxState, t: nat, sent: int) {
    tx.phase == SendCf ==>
      && sent <= t && tx.lastCf == k.Sender(sent) && tx.stMin == StMinToMs(c.rx.stMinRaw)
      && (tx.pending == PendConsecutive ==> sent + tx.stMin <= t)
  }

  /** The receiver's timer, and that it was last started no earlier than the sender's unless the sender may
      send at once or a frame is on its way. */
  ghost predicate ReceiverClock(c: Setup, k: Clocks, x: Timed) {
    && (x.y.r.rx.receiving ==> x.got <= x.at && x.y.r.rx.timerStart == k.Receiver(x.got))
    && (x.y.s.tx.phase == SendCf ==>
         x.sent + StMinToMs(c.rx.stMinRaw) <= x.at || x.y.rTaken < |x.y.s.outbox| || x.sent <= x.got)
  }

  ghost predicate ClockInv(c: Setup, k: Clocks, x: Timed)
    requires c.Ok()
  {
    Inv(c, x.y) && SenderClock(c, k, x.y.s.tx, x.at, x.sent) && ReceiverClock(c, k, x)
  }

  lemma Reading(now: int, start: int, offset: int)
    requires start <= now < start + WRAP
    ensures Elapsed((now + offset) % WRAP, (start + offset) % WRAP) == now - start
  {
  }

  lemma Earlier(t: int, st: nat, offset: int)
    requires st < WRAP
    ensures Elapsed((t + offset) % WRAP, st) == (t - st + offset) % WRAP
  {
  }

  /** One poll of the sender at time `t`. */
  lemma OnceClock(c: Setup, k: Clocks, n: Node, t: nat, sent: int, ks: nat, grantS: nat, accept: bool)
    requires c.Ok() && TxValid(n.tx) && SenderInv(c, n.tx, ks, grantS) && TxTimely(c, n.tx, k.Sender(t))
    requires SenderClock(c, k, n.tx, t, sent) && (n.tx.phase == SendCf ==> t - sent < WRAP)
    ensures var (n1, more) := TxOnce(c.tx, n, k.Sender(t), accept);
      var sent1 := if |n1.outbox| > |n.outbox| then t else sent;
      && |n.outbox| <= |n1.outbox| && SenderClock(c, k, n1.tx, t, sent1)
      && (n1.tx.phase == SendCf ==> t - sent1 < WRAP)
      && (!accept || TxPoll(c.tx, n.tx, k.Sender(t)).action != TxSendFrame ==> |n1.outbox| == |n.outbox|)
      && (accept || TxPoll(c.tx, n.tx, k.Sender(t)).action != TxSendFrame ==> TxTimely(c, n1.tx, k.Sender(t)))
  {
    if n.tx.phase == SendCf { Reading(t, sent, k.s); }
    Reading(t, t, k.s);
    hide Setup.Frames, SingleFrame, FirstFrame, ConsecutiveFrame, Setup.Carried, ConsecutiveTake, SequenceOf, NextSequence;
  }

  /** The sender's side after a burst of polls at time `t`. */
  ghost predicate BurstOk(c: Setup, k: Clocks, n: Node, n1: Node, t: nat, sent: int, all: bool) {
    var sent1 := if |n1.outbox| > |n.outbox| then t else sent;
    && |n.outbox| <= |n1.outbox| && SenderClock(c, k, n1.tx, t, sent1)
    && (n1.tx.phase == SendCf ==> t - sent1 < WRAP)
    && (all ==> TxTimely(c, n1.tx, k.Sender(t)))
  }

  predicate AllTrue(accepts: seq<bool>) { forall i :: 0 <= i < |accepts| ==> accepts[i] }

  lemma {:induction false} BurstClock(c: Setup, k: Clocks, y: Sys, t: nat, sent: int, accepts: seq<bool>)
    requires c.Ok() && Inv(c, y) && TxTimely(c, y.s.tx, k.Sender(t))
    requires SenderClock(c, k, y.s.tx, t, sent) && (y.s.tx.phase == SendCf ==> t - sent < WRAP)
    ensures TxValid(y.s.tx)
    ensures BurstOk(c, k, y.s, TxBurst(c.tx, y.s, k.Sender(t), accepts), t, sent, AllTrue(accepts))
    decreases |accepts|
  {
    if accepts != [] {
      var now := k.Sender(t);
      SendOnceInv(c, y, now, accepts[0]);
      OnceClock(c, k, y.s, t, sent, |y.s.outbox|, y.grantS, accepts[0]);
      hide TxOnce, Inv, TxTimely, SenderClock, TxPoll;
      var (s1, more) := TxOnce(c.tx, y.s, now, accepts[0]);
      if more {
        BurstClock(c, k, y.(s := s1), t, if |s1.outbox| > |y.s.outbox| then t else sent, accepts[1..]);
      }
    }
  }

  lemma SenderLoopClock(c: Setup, k: Clocks, x: Timed, t: nat, acceptFc: bool, accepts: seq<bool>)
    requires c.Ok() && ClockInv(c, k, x) && Legal(c, k, x, t, SenderLoop(k.Sender(t), acceptFc, accepts))
    ensures var z := Then(c, k, x, t, SenderLoop(k.Sender(t), acceptFc, accepts));
      && ClockInv(c, k, z) && z.y.r == x.y.r && z.y.rTaken == x.y.rTaken
      && (AllTrue(accepts) && (x.y.r.rx.receiving ==> t - x.got < c.rx.nCrMs) ==> OnTime(c, k, z))
  {
    var now := k.Sender(t);
    SenderLoopInv(c, x.y, now, acceptFc, accepts);
    BurstClock(c, k, x.y, t, x.sent, accepts);
    assert RxPolled(c.tx, RetriedFc(x.y.s, acceptFc), now) == x.y.s;
    hide Inv, TxTimely, TxBurst;
  }

  lemma ToReceiverClock(c: Setup, k: Clocks, x: Timed, t: nat, accept: bool)
    requires c.Ok() && ClockInv(c, k, x) && Legal(c, k, x, t, ToReceiver(k.Receiver(t), accept))
    ensures var z := Then(c, k, x, t, ToReceiver(k.Receiver(t), accept));
      ClockInv(c, k, z) && z.y.s == x.y.s && (z.y.r.rx.receiving ==> z.got == t)
  {
    var now := k.Receiver(t);
    ToReceiverInv(c, x.y, now, accept);
    TimerStarts(c, x.y, now, accept);
    hide Inv;
  }

  /** A receiver still waiting for more has started its timer on the frame just taken. */
  lemma TimerStarts(c: Setup, y: Sys, now: u32, accept: bool)
    requires c.Ok() && Inv(c, y) && Enabled(c, y, ToReceiver(now, accept))
    ensures var z := Next(c, y, ToReceiver(now, accept));
      z.s == y.s && (z.r.rx.receiving ==> z.r.rx.timerStart == now)
  {
    var kr := y.rTaken;
    assert y.s.outbox[kr] == c.StreamFrame(kr);
    if kr == 0 {
      TakeOpening(c, y.r.rx, now);
    } else {
      TakeConsecutive(c, y.r.rx, kr, y.grantR, now);
      ConsecutivePayload(c, kr);
      SequenceSteps(kr);
    }
    hide DecodePci, FlowControlFrame, Finished, Setup.Frames, Setup.StreamFrame, Setup.Grant, Setup.Carried, SequenceOf, NextSequence;
  }

  lemma ToSenderClock(c: Setup, k: Clocks, x: Timed, t: nat, accept: bool)
    requires c.Ok() && ClockInv(c, k, x) && Legal(c, k, x, t, ToSender(k.Sender(t), accept))
    ensures var z := Then(c, k, x, t, ToSender(k.Sender(t), accept));
      && ClockInv(c, k, z) && z.y.r == x.y.r && z.y.s.tx.phase == SendCf && z.y.s.tx.pending == NonePending
  {
    var now := k.Sender(t);
    ToSenderInv(c, x.y, now, accept);
    GrantTaken(c, x.y, now, accept);
    Earlier(t, StMinToMs(c.rx.stMinRaw), k.s);
    hide Inv;
  }

  lemma GrantTaken(c: Setup, y: Sys, now: u32, accept: bool)
    requires c.Ok() && Inv(c, y) && Enabled(c, y, ToSender(now, accept))
    ensures var z, st := Next(c, y, ToSender(now, accept)), StMinToMs(c.rx.stMinRaw);
      z.r == y.r && z.s.tx.phase == SendCf && z.s.tx.pending == NonePending && z.s.tx.stMin == st && z.s.tx.lastCf == Elapsed(now, st)
  {
    FlowControlRoundTrip(c.rx, c.tx, Continue, c.rx.blockSize, c.rx.stMinRaw);
    hide DecodePci, FlowControlFrame, Setup.Frames, Setup.StreamFrame, Setup.Carried, ReceiverInv;
    assert y.r.outbox[y.sTaken] == c.Grant();
    assert Tokens(y) == 1;
  }

  lemma ReceiverLoopClock(c: Setup, k: Clocks, x: Timed, t: nat, acceptFc: bool, accepts: seq<bool>)
    requires c.Ok() && ClockInv(c, k, x) && Legal(c, k, x, t, ReceiverLoop(k.Receiver(t), acceptFc, accepts))
    ensures var z := Then(c, k, x, t, ReceiverLoop(k.Receiver(t), acceptFc, accepts));
      ClockInv(c, k, z) && z.y == x.y.(r := RetriedFc(x.y.r, acceptFc))
  {
    ReceiverLoopInv(c, x.y, k.Receiver(t), acceptFc, accepts);
    hide Inv;
  }

  lemma ThenInv(c: Setup, k: Clocks, x: Timed, t: nat, step: Step)
    requires c.Ok() && ClockInv(c, k, x) && Legal(c, k, x, t, step)
    ensures ClockInv(c, k, Then(c, k, x, t, step))
  {
    match step
    case ToReceiver(_, accept) => ToReceiverClock(c, k, x, t, accept);
    case ToSender(_, accept) => ToSenderClock(c, k, x, t, accept);
    case SenderLoop(_, acceptFc, accepts) => SenderLoopClock(c, k, x, t, acceptFc, accepts);
    case ReceiverLoop(_, acceptFc, accepts) => ReceiverLoopClock(c, k, x, t, acceptFc, accepts);
  }

  lemma {:induction false} ReachesInv(c: Setup, k: Clocks, x: Timed, steps: seq<(nat, Step)>, z: Timed)
    requires c.Ok() && ClockInv(c, k, x) && Reaches(c, k, x, steps, z)
    ensures ClockInv(c, k, z)
    decreases |steps|
  {
    if steps != [] {
      ThenInv(c, k, x, steps[0].0, steps[0].1);
      hide ClockInv, Legal, Then;
      ReachesInv(c, k, Then(c, k, x, steps[0].0, steps[0].1), steps[1..], z);
    }
  }

  // ----- no deadlock -----

  /** When the sender next offers: at once, or when the separation time is over. */
  function OfferAt(c: Setup, x: Timed): nat {
    if x.y.s.tx.phase == SendCf && x.sent + StMinToMs(c.rx.stMinRaw) > x.at then x.sent + StMinToMs(c.rx.stMinRaw) else x.at
  }

  /** With both links empty and no flow control frame pending the sender has something to say. */
  lemma SenderOffers(c: Setup, k: Clocks, x: Timed)
    requires Live(c) && ClockInv(c, k, x) && OnTime(c, k, x) && !TransferDone(x.y)
    requires x.y.rTaken == |x.y.s.outbox| && x.y.sTaken == |x.y.r.outbox| && x.y.r.pendingFc.None?
    ensures var t := OfferAt(c, x); var now := k.Sender(t);
      && x.y.s.tx.phase in {SendFirst, SendCf, Done} && TxValid(x.y.s.tx)
      && TxTimely(c, x.y.s.tx, now) && (x.y.s.tx.phase == SendCf ==> t - x.sent < WRAP)
      && (x.y.r.rx.receiving ==> t - x.got < c.rx.nCrMs) && x.at <= t <= x.at + StMinToMs(c.rx.stMinRaw)
      && TxPoll(c.tx, x.y.s.tx, now).action in {TxSendFrame, TxComplete}
  {
    var t := OfferAt(c, x);
    if x.y.s.tx.phase == SendCf { Reading(t, x.sent, k.s); }
    assert x.y.s.tx.phase in {SendFirst, SendCf, Done} by { hide ReceiverClock, SenderClock, OnTime, Setup.Frames, Setup.Carried; }
    hide Setup.Frames, SingleFrame, FirstFrame, ConsecutiveFrame, Setup.Carried, ConsecutiveTake, ReceiverInv, GrantInv, CountInv, LinksInv;
  }

  /** The step lowers the measure and leaves the system on time. */
  ghost predicate GetsOn(c: Setup, k: Clocks, x: Timed, t: nat, step: Step)
    requires c.Ok()
  {
    && Legal(c, k, x, t, step) && Measure(c, Then(c, k, x, t, step).y) < Measure(c, x.y)
    && ClockInv(c, k, Then(c, k, x, t, step)) && OnTime(c, k, Then(c, k, x, t, step))
  }

  lemma DataArrives(c: Setup, k: Clocks, x: Timed)
    requires Live(c) && ClockInv(c, k, x) && OnTime(c, k, x) && x.y.rTaken < |x.y.s.outbox|
    ensures GetsOn(c, k, x, x.at, ToReceiver(k.Receiver(x.at), true))
  {
    StreamIsShort(c, x.y, k.Receiver(x.at));
    InvIsValid(c, x.y);
    hide Inv, Measure, Next, TxTimely, SenderClock, ReceiverClock;
    ToReceiverLowers(c, x.y, k.Receiver(x.at), true);
    ToReceiverClock(c, k, x, x.at, true);
  }

  lemma GrantArrives(c: Setup, k: Clocks, x: Timed)
    requires Live(c) && ClockInv(c, k, x) && OnTime(c, k, x) && x.y.sTaken < |x.y.r.outbox|
    ensures GetsOn(c, k, x, x.at, ToSender(k.Sender(x.at), true))
  {
    GrantIsShort(c, x.y);
    InvIsValid(c, x.y);
    assert x.y.s.tx.phase == WaitFc by { ToSenderInv(c, x.y, k.Sender(x.at), true); }
    hide Inv, Measure, Next, SenderClock, ReceiverClock;
    ToSenderLowers(c, x.y, k.Sender(x.at), true);
    ToSenderClock(c, k, x, x.at, true);
  }

  lemma GrantRetried(c: Setup, k: Clocks, x: Timed, yes: seq<bool>)
    requires Live(c) && ClockInv(c, k, x) && OnTime(c, k, x) && x.y.r.pendingFc.Some? && |yes| == TX_FRAMES_PER_LOOP
    ensures GetsOn(c, k, x, x.at, ReceiverLoop(k.Receiver(x.at), true, yes))
  {
    RetryLegal(c, k, x, yes);
    RetryLowers(c, x.y);
    hide Inv, Measure, Next, TxTimely, SenderClock, ReceiverClock, Legal;
    ReceiverLoopClock(c, k, x, x.at, true, yes);
    hide ClockInv;
  }

  lemma RetryLegal(c: Setup, k: Clocks, x: Timed, yes: seq<bool>)
    requires Live(c) && ClockInv(c, k, x) && OnTime(c, k, x) && |yes| == TX_FRAMES_PER_LOOP
    ensures Legal(c, k, x, x.at, ReceiverLoop(k.Receiver(x.at), true, yes))
  {
    if x.y.r.rx.receiving { Reading(x.at, x.got, k.r); }
    InvIsValid(c, x.y);
    hide Inv, SysValid, SenderClock, TxTimely;
  }

  lemma SenderSends(c: Setup, k: Clocks, x: Timed, yes: seq<bool>)
    requires Live(c) && ClockInv(c, k, x) && OnTime(c, k, x) && !TransferDone(x.y)
    requires x.y.rTaken == |x.y.s.outbox| && x.y.sTaken == |x.y.r.outbox| && x.y.r.pendingFc.None?
    requires |yes| == TX_FRAMES_PER_LOOP && AllTrue(yes)
    ensures x.at <= OfferAt(c, x) <= x.at + StMinToMs(c.rx.stMinRaw)
    ensures GetsOn(c, k, x, OfferAt(c, x), SenderLoop(k.Sender(OfferAt(c, x)), true, yes))
  {
    SenderOffers(c, k, x);
    InvIsValid(c, x.y);
    var t := OfferAt(c, x);
    hide Inv, Measure, Next, TxTimely, SenderClock, ReceiverClock, OnTime, OfferAt, TxPoll;
    SenderLoopLowers(c, x.y, k.Sender(t), true, yes);
    SenderLoopClock(c, k, x, t, true, yes);
  }

  /** In every unfinished reachable state that is on time, some step at no earlier a time lowers the measure
      and leaves the system on time; it waits for the separation time at most. */
  lemma Progress(c: Setup, k: Clocks, x: Timed) returns (t: nat, step: Step)
    requires Live(c) && ClockInv(c, k, x) && OnTime(c, k, x) && !TransferDone(x.y)
    ensures Legal(c, k, x, t, step) && t <= x.at + StMinToMs(c.rx.stMinRaw)
    ensures Measure(c, Then(c, k, x, t, step).y) < Measure(c, x.y)
    ensures ClockInv(c, k, Then(c, k, x, t, step)) && OnTime(c, k, Then(c, k, x, t, step))
  {
    var yes := seq(TX_FRAMES_PER_LOOP, _ => true);
    assert x.y.rTaken <= |x.y.s.outbox| && x.y.sTaken <= |x.y.r.outbox| by { hide SenderInv, ReceiverInv; }
    hide ClockInv, OnTime, Measure, Legal, Then, TransferDone, OfferAt;
    t := x.at;
    if x.y.rTaken < |x.y.s.outbox| {
      step := ToReceiver(k.Receiver(t), true);
      DataArrives(c, k, x);
    } else if x.y.sTaken < |x.y.r.outbox| {
      step := ToSender(k.Sender(t), true);
      GrantArrives(c, k, x);
    } else if x.y.r.pendingFc.Some? {
      step := ReceiverLoop(k.Receiver(t), true, yes);
      GrantRetried(c, k, x, yes);
    } else {
      SenderSends(c, k, x, yes);
      t := OfferAt(c, x);
      step := SenderLoop(k.Sender(t), true, yes);
    }
  }

  lemma RetryLowers(c: Setup, y: Sys)
    requires y.r.pendingFc.Some?
    ensures Measure(c, y.(r := RetriedFc(y.r, true))) < Measure(c, y)
  {
    hide Setup.Frames;
  }

  lemma StreamIsShort(c: Setup, y: Sys, now: u32)
    requires c.Ok() && Inv(c, y) && y.rTaken < |y.s.outbox|
    ensures |y.s.outbox[y.rTaken]| <= FRAME_LEN
  {
    TakeStreamFrame(c, y.r, y.rTaken, y.grantR, now, true);
    assert c.StreamFrame(y.rTaken) == y.s.outbox[y.rTaken];
  }

  lemma GrantIsShort(c: Setup, y: Sys)
    requires c.Ok() && Inv(c, y) && y.sTaken < |y.r.outbox|
    ensures |y.r.outbox[y.sTaken]| <= FRAME_LEN
  {
    FlowControlRoundTrip(c.rx, c.tx, Continue, c.rx.blockSize, c.rx.stMinRaw);
    assert y.r.outbox[y.sTaken] == c.Grant();
  }

  /** From every such state the transfer can be finished on time, in at most `Measure` steps. */
  lemma {:induction false} Finishes(c: Setup, k: Clocks, x: Timed) returns (steps: seq<(nat, Step)>, z: Timed)
    requires Live(c) && ClockInv(c, k, x) && OnTime(c, k, x)
    ensures Reaches(c, k, x, steps, z) && |steps| <= Measure(c, x.y)
    ensures z.at <= x.at + StMinToMs(c.rx.stMinRaw) * |steps|
    ensures OnTime(c, k, z) && TransferDone(z.y) && z.y.r.delivered == [c.msg]
    decreases Measure(c, x.y)
  {
    MeasureIsNatural(c, x.y);
    if TransferDone(x.y) {
      steps, z := [], x;
      DoneIsDelivered(c, x.y);
    } else {
      var t, step := Progress(c, k, x);
      hide OnTime, Legal, Then, Measure, TransferDone;
      var x1 := Then(c, k, x, t, step);
      assert Inv(c, x1.y);
      hide ClockInv, Inv;
      MeasureIsNatural(c, x1.y);
      var more;
      more, z := Finishes(c, k, x1);
      steps := [(t, step)] + more;
      Joined(c, k, x, t, step, more, z);
      OneMoreWait(StMinToMs(c.rx.stMinRaw), |more|);
    }
  }

  lemma Joined(c: Setup, k: Clocks, x: Timed, t: nat, step: Step, more: seq<(nat, Step)>, z: Timed)
    requires Legal(c, k, x, t, step) && Reaches(c, k, Then(c, k, x, t, step), more, z)
    ensures Reaches(c, k, x, [(t, step)] + more, z) && Then(c, k, x, t, step).at == t
  {
    assert ([(t, step)] + more)[1..] == more;
    hide Legal, Next;
  }

  lemma OneMoreWait(st: nat, n: nat)
    ensures st * (n + 1) == st + st * n
  {
  }

  lemma DoneIsDelivered(c: Setup, y: Sys)
    requires c.Ok() && Inv(c, y) && TransferDone(y)
    ensures y.r.delivered == [c.msg]
  {
  }

  /** Every run that is on time, however it got where it is, has a continuation that finishes the transfer
      and delivers the message, without time running backwards and without a timer running out. */
  lemma NeverStuck(c: Setup, k: Clocks, start: Timed, steps: seq<(nat, Step)>, x: Timed)
    returns (more: seq<(nat, Step)>, z: Timed)
    requires Live(c) && Init(c, start.y) && Reaches(c, k, start, steps, x) && OnTime(c, k, x)
    ensures Reaches(c, k, x, more, z) && |more| <= Measure(c, x.y)
    ensures z.at <= x.at + StMinToMs(c.rx.stMinRaw) * |more|
    ensures OnTime(c, k, z) && TransferDone(z.y) && z.y.r.delivered == [c.msg]
  {
    InitInv(c, start.y);
    assert ClockInv(c, k, start);
    hide ClockInv, OnTime, Measure, TransferDone, Init;
    ReachesInv(c, k, start, steps, x);
    more, z := Finishes(c, k, x);
  }
}
