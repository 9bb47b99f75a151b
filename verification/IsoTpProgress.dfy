/** How far an ISO-TP transfer is from its end: a measure that no step raises and that every delivery and
    every accepted frame lowers. */
module IsoTpProgress {
  import opened Words
  import opened IsoTpCodec
  import opened IsoTpTransfer
  import opened IsoTpNode
  import opened IsoTpLink

  /** The receiver waits longer for a frame than the separation time it asks for. */
  ghost predicate Live(c: Setup) {
    c.Ok() && c.tx.stallMs > 0 && c.rx.nCrMs > StMinToMs(c.rx.stMinRaw)
  }

  /** Unsent frames, frames on the way, the flow control frame on its way back, the final report. */
  function Measure(c: Setup, y: Sys): int {
    4 * (c.Frames() - |y.s.outbox|) + 3 * (|y.s.outbox| - y.rTaken)
    + (if y.r.pendingFc.Some? then 2 else 0) + (|y.r.outbox| - y.sTaken)
    + (if y.s.tx.phase == Idle then 0 else 1)
  }

  lemma ToReceiverLowers(c: Setup, y: Sys, now: u32, accept: bool)
    requires c.Ok() && Inv(c, y) && Enabled(c, y, ToReceiver(now, accept))
    ensures Measure(c, Next(c, y, ToReceiver(now, accept))) < Measure(c, y)
  {
    TakeStreamFrame(c, y.r, y.rTaken, y.grantR, now, accept);
    hide Setup.Frames, Setup.StreamFrame, Setup.Grant, Setup.Carried, Routed, ReceiverInv;
    assert c.StreamFrame(y.rTaken) == y.s.outbox[y.rTaken];
  }

  lemma ToSenderLowers(c: Setup, y: Sys, now: u32, accept: bool)
    requires c.Ok() && Inv(c, y) && Enabled(c, y, ToSender(now, accept))
    ensures Measure(c, Next(c, y, ToSender(now, accept))) < Measure(c, y)
  {
    ToSenderInv(c, y, now, accept);
    FlowControlRoundTrip(c.rx, c.tx, Continue, c.rx.blockSize, c.rx.stMinRaw);
    hide DecodePci, FlowControlFrame, Setup.Frames, Setup.StreamFrame, Setup.Carried, ReceiverInv;
    assert y.r.outbox[y.sTaken] == c.Grant();
  }

  /** One poll never raises the measure, and lowers it when it reports the end or its frame is taken. */
  lemma SendOnceLowers(c: Setup, y: Sys, now: u32, accept: bool)
    requires c.Ok() && Inv(c, y) && TxTimely(c, y.s.tx, now)
    ensures TxValid(y.s.tx)
    ensures var s1 := TxOnce(c.tx, y.s, now, accept).0;
            && Measure(c, y.(s := s1)) <= Measure(c, y)
            && (accept && TxPoll(c.tx, y.s.tx, now).action in {TxSendFrame, TxComplete} ==>
                  Measure(c, y.(s := s1)) < Measure(c, y))
  {
    PollOffersNext(c, y.s.tx, |y.s.outbox|, y.grantS, now);
    hide Setup.Frames, Setup.StreamFrame, SenderInv, ReceiverInv, Setup.Grant, Setup.Carried, TxPoll, TxConfirm,
      GrantInv, CountInv, LinksInv, TxTimely;
  }

  lemma BurstLowers(c: Setup, y: Sys, now: u32, accepts: seq<bool>)
    requires c.Ok() && Inv(c, y) && TxTimely(c, y.s.tx, now)
    ensures TxValid(y.s.tx) && Measure(c, y.(s := TxBurst(c.tx, y.s, now, accepts))) <= Measure(c, y)
    decreases |accepts|
  {
    if accepts == [] {
      assert y.(s := TxBurst(c.tx, y.s, now, accepts)) == y;
    } else {
      SendOnceInv(c, y, now, accepts[0]);
      SendOnceLowers(c, y, now, accepts[0]);
      hide TxOnce, Inv, Measure, TxTimely;
      var (s1, more) := TxOnce(c.tx, y.s, now, accepts[0]);
      if more {
        BurstLowers(c, y.(s := s1), now, accepts[1..]);
      }
    }
  }

  lemma SenderLoopLowers(c: Setup, y: Sys, now: u32, acceptFc: bool, accepts: seq<bool>)
    requires c.Ok() && Inv(c, y) && Enabled(c, y, SenderLoop(now, acceptFc, accepts))
    ensures var y1 := Next(c, y, SenderLoop(now, acceptFc, accepts));
            && Measure(c, y1) <= Measure(c, y)
            && (accepts[0] && TxPoll(c.tx, y.s.tx, now).action in {TxSendFrame, TxComplete} ==>
                  Measure(c, y1) < Measure(c, y))
  {
    assert RxPolled(c.tx, RetriedFc(y.s, acceptFc), now) == y.s;
    SendOnceInv(c, y, now, accepts[0]);
    SendOnceLowers(c, y, now, accepts[0]);
    hide TxOnce, Inv, Measure, TxTimely, TxPoll;
    var (s1, more) := TxOnce(c.tx, y.s, now, accepts[0]);
    if more {
      BurstLowers(c, y.(s := s1), now, accepts[1..]);
    }
  }

  lemma StepNeverRaises(c: Setup, y: Sys, step: Step)
    requires c.Ok() && Inv(c, y) && Enabled(c, y, step)
    ensures Measure(c, Next(c, y, step)) <= Measure(c, y)
  {
    match step
    case ToReceiver(now, accept) => ToReceiverLowers(c, y, now, accept);
    case ToSender(now, accept) => ToSenderLowers(c, y, now, accept);
    case SenderLoop(now, acceptFc, accepts) => SenderLoopLowers(c, y, now, acceptFc, accepts);
    case ReceiverLoop(now, acceptFc, accepts) => ReceiverLoopInv(c, y, now, acceptFc, accepts);
  }

  lemma InvIsValid(c: Setup, y: Sys)
    requires c.Ok() && Inv(c, y)
    ensures SysValid(c, y)
  {
  }

  lemma MeasureIsNatural(c: Setup, y: Sys)
    requires c.Ok() && Inv(c, y)
    ensures Measure(c, y) >= 0
  {
    hide Setup.Frames, Setup.StreamFrame, Setup.Grant, SenderInv, ReceiverInv, GrantInv, CountInv;
  }
}
