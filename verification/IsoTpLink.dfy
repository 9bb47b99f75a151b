/** A sending node and a receiving node joined by two in-order, lossless links. The message arrives
    byte for byte under every schedule, nothing deadlocks, and the number of frames is exact. */
module IsoTpLink {
  import opened Words
  import opened Arithmetic
  import opened IsoTpCodec
  import opened IsoTpTransfer
  import opened IsoTpNode

  /** The fixed part of one transfer: both configurations, the receiver's buffer, the message. */
  datatype Setup = Setup(tx: Config, rx: Config, capacity: nat, msg: seq<byte>) {
    ghost predicate Ok() {
      && tx.ext == rx.ext
      && tx.nBsMs > 0
      && 1 <= |msg| <= MAX_MESSAGE_SIZE
      && |msg| <= capacity
    }

    // ----- the frames of the message -----

    function PerFrame(k: nat): nat { if tx.ext then 6 * k else 7 * k }

    /** Frames the message takes: one, or a first frame and the ceiling of the rest. */
    function Frames(): nat {
      if |msg| <= tx.SingleCapacity() then 1
      else 1 + (|msg| - tx.FirstCapacity() + tx.ConsecutiveCapacity() - 1) / tx.ConsecutiveCapacity()
    }

    /** Message bytes the first `k` frames carry. */
    function Carried(k: nat): nat {
      if k == 0 then 0
      else if |msg| <= tx.SingleCapacity() then |msg|
      else Min(|msg|, tx.FirstCapacity() + PerFrame(k - 1))
    }

    function StreamFrame(k: nat): Frame
      requires Ok()
    {
      if k > 0 then ConsecutiveFrame(tx, msg[Carried(k)..], SequenceOf(k))
      else if |msg| <= tx.SingleCapacity() then SingleFrame(tx, msg)
      else FirstFrame(tx, msg)
    }

    function Grant(): Frame { FlowControlFrame(rx, Continue, rx.blockSize, rx.stMinRaw) }

    /** Frames that one flow control frame grants: a block, or with a block size of 0 all that remain. */
    function Block(): nat { if rx.blockSize == 0 then Frames() else rx.blockSize }

    /** What a side that counts the frames of a block down has left of it; with a block size of 0 none counts. */
    ghost predicate Counts(left: byte, grant: nat, k: nat) {
      if rx.blockSize == 0 then left == 0 else left == grant + rx.blockSize - k
    }
  }

  lemma CarriedSteps(c: Setup, k: nat)
    requires c.Ok() && k < c.Frames()
    ensures c.Carried(k) < |c.msg|
    ensures c.Carried(k + 1) == |c.msg| <==> k + 1 == c.Frames()
    ensures k > 0 ==> c.Carried(k + 1) == c.Carried(k) + ConsecutiveTake(c.tx, c.msg[c.Carried(k)..])
    ensures k == 0 && c.Frames() > 1 ==> c.Carried(1) == c.tx.FirstCapacity() && |c.msg| > c.tx.SingleCapacity()
    ensures c.Frames() == 1 <==> |c.msg| <= c.tx.SingleCapacity()
  {
  }

  // ----- the composed system -----

  /** `rTaken` and `sTaken` count the frames taken off the two links, so each link holds the tail of
      the other side's outbox. `grantS` is how many data frames were out when the sender last took a
      flow control frame, `grantR` how many were in when the receiver last produced one. */
  datatype Sys = Sys(s: Node, r: Node, rTaken: nat, sTaken: nat, grantS: nat, grantR: nat)

  datatype Step =
    | ToReceiver(now: u32, accept: bool)
    | ToSender(now: u32, accept: bool)
    | SenderLoop(now: u32, acceptFc: bool, accepts: seq<bool>)
    | ReceiverLoop(now: u32, acceptFc: bool, accepts: seq<bool>)

  /** No send timer has expired at this clock reading. */
  ghost predicate TxTimely(c: Setup, tx: TxState, now: u32) {
    && (tx.phase == WaitFc ==> Elapsed(now, tx.timerStart) < c.tx.nBsMs)
    && (tx.pending != NonePending ==> Elapsed(now, tx.stallStart) < c.tx.stallMs)
  }

  /** The step can happen: there is a frame to deliver, or it is a loop pass; and no timer of the node
      that runs has expired at its clock reading. */
  ghost predicate Enabled(c: Setup, y: Sys, step: Step) {
    match step
    case ToReceiver(_, _) => y.rTaken < |y.s.outbox| && |y.s.outbox[y.rTaken]| <= FRAME_LEN
    case ToSender(_, _) => y.sTaken < |y.r.outbox| && |y.r.outbox[y.sTaken]| <= FRAME_LEN
    case SenderLoop(now, _, accepts) =>
      |accepts| == TX_FRAMES_PER_LOOP && TxTimely(c, y.s.tx, now)
    case ReceiverLoop(now, _, accepts) =>
      && |accepts| == TX_FRAMES_PER_LOOP
      && (y.r.rx.receiving ==> Elapsed(now, y.r.rx.timerStart) < c.rx.nCrMs)
  }

  ghost predicate SysValid(c: Setup, y: Sys) {
    NodeValid(y.s, c.capacity) && NodeValid(y.r, c.capacity)
  }

  ghost function Next(c: Setup, y: Sys, step: Step): Sys
    requires SysValid(c, y) && Enabled(c, y, step)
  {
    match step
    case ToReceiver(now, accept) =>
      var r := Routed(c.rx, c.capacity, y.r, y.s.outbox[y.rTaken], now, accept);
      var granted := |r.outbox| > |y.r.outbox| || (r.pendingFc.Some? && y.r.pendingFc.None?);
      y.(r := r, rTaken := y.rTaken + 1, grantR := if granted then y.rTaken + 1 else y.grantR)
    case ToSender(now, accept) =>
      y.(s := Routed(c.tx, c.capacity, y.s, y.r.outbox[y.sTaken], now, accept),
         sTaken := y.sTaken + 1, grantS := |y.s.outbox|)
    case SenderLoop(now, acceptFc, accepts) => y.(s := Looped(c.tx, y.s, now, acceptFc, accepts))
    case ReceiverLoop(now, acceptFc, accepts) => y.(r := Looped(c.rx, y.r, now, acceptFc, accepts))
  }

  /** Right after `send` was accepted: nothing on the links, the receiver idle. An aborted transfer may have
      left an offer of its own pending. */
  ghost predicate Init(c: Setup, y: Sys) {
    && SysValid(c, y)
    && y.s.tx.phase == SendFirst && y.s.tx.msg == c.msg && y.s.tx.sequence == 0
    && !y.s.rx.receiving && y.s.pendingFc.None?
    && y.r.tx.phase == Idle && !y.r.rx.receiving && y.r.pendingFc.None?
    && y.s.outbox == [] && y.r.outbox == [] && y.r.delivered == []
    && y.s.errors == [] && y.r.errors == []
    && y.rTaken == y.sTaken == y.grantS == y.grantR == 0
  }

  // ----- the invariant -----

  /** Flow control frames produced by the receiver, accepted or still waiting for the CAN layer. */
  function Produced(y: Sys): nat {
    |y.r.outbox| + if y.r.pendingFc.Some? then 1 else 0
  }

  /** Flow control frames produced but not yet taken by the sender. */
  function Tokens(y: Sys): int { Produced(y) - y.sTaken }

  ghost predicate SenderInv(c: Setup, tx: TxState, ks: nat, grantS: nat)
    requires c.Ok()
  {
    && tx.msg == c.msg && ks <= c.Frames()
    && match tx.phase
       case SendFirst =>
         ks == 0 && tx.sequence == 0
       case WaitFc =>
         1 <= ks < c.Frames() && tx.sent == c.Carried(ks) && tx.sequence == SequenceOf(ks - 1) && tx.pending == NonePending
       case SendCf =>
         && 1 <= grantS <= ks < grantS + c.Block() && ks < c.Frames()
         && tx.sent == c.Carried(ks) && tx.sequence == SequenceOf(ks - 1)
         && c.Counts(tx.blockRemaining, grantS, ks)
         && tx.pending in {NonePending, PendConsecutive}
         && (tx.pending == PendConsecutive && tx.stMin > 0 ==> Elapsed(tx.stallStart, tx.lastCf) >= tx.stMin)
       case Done => ks == c.Frames()
       case Idle => ks == c.Frames()
       case Failed => false
  }

  ghost predicate ReceiverInv(c: Setup, r: Node, kr: nat, grantR: nat)
    requires c.Ok()
  {
    && r.tx.phase == Idle
    && kr <= c.Frames()
    && (kr == 0 ==> !r.rx.receiving && r.delivered == [])
    && (0 < kr < c.Frames() ==>
          && r.rx.receiving && r.delivered == [] && c.Carried(kr) <= |c.msg|
          && r.rx.data == c.msg[..c.Carried(kr)] && r.rx.expected == |c.msg|
          && r.rx.sequence == SequenceOf(kr - 1)
          && 1 <= grantR <= kr < grantR + c.Block()
          && c.Counts(r.rx.blockRemaining, grantR, kr))
    && (kr == c.Frames() ==> !r.rx.receiving && r.delivered == [c.msg])
  }

  /** Where the one flow control frame of the current block may be. */
  ghost predicate GrantInv(c: Setup, y: Sys) {
    var ks, kr, bs := |y.s.outbox|, y.rTaken, c.Block();
    && 0 <= Tokens(y) <= 1
    && (Tokens(y) == 1 ==> y.s.tx.phase == WaitFc && y.grantR == kr == ks && ks == (if y.grantS == 0 then 1 else y.grantS + bs))
    && (Tokens(y) == 0 ==> y.grantS == y.grantR)
    && (Tokens(y) == 0 && y.s.tx.phase == WaitFc ==>
          kr < ks && y.grantS <= kr && ks == (if y.grantS == 0 then 1 else y.grantS + bs))
    && (y.s.tx.phase in {SendCf, Done, Idle} ==> Tokens(y) == 0 && y.grantS <= kr)
    && (y.s.tx.phase in {Done, Idle} && c.Frames() > 1 ==> 1 <= y.grantS < c.Frames() <= y.grantS + bs)
    && (y.s.tx.phase == SendFirst ==> Tokens(y) == 0 && y.grantS == 0)
    && (c.Frames() == 1 ==> Produced(y) == 0 && y.grantS == 0)
  }

  /** The k-th grant is given exactly (k-1) blocks after the first frame. */
  ghost predicate CountInv(c: Setup, y: Sys) {
    && (Produced(y) == 0 <==> y.grantR == 0)
    && (Produced(y) > 0 ==> y.grantR == 1 + (Produced(y) - 1) * c.Block())
  }

  /** Both outboxes hold nothing but the frames of this transfer, in order. */
  ghost predicate LinksInv(c: Setup, y: Sys)
    requires c.Ok()
  {
    && y.rTaken <= |y.s.outbox| <= c.Frames()
    && y.sTaken <= |y.r.outbox|
    && (forall i :: 0 <= i < |y.s.outbox| ==> y.s.outbox[i] == c.StreamFrame(i))
    && (forall i :: 0 <= i < |y.r.outbox| ==> y.r.outbox[i] == c.Grant())
    && (y.r.pendingFc.Some? ==> y.r.pendingFc.value == c.Grant())
  }

  ghost predicate Inv(c: Setup, y: Sys)
    requires c.Ok()
  {
    && SysValid(c, y)
    && !y.s.rx.receiving && y.s.pendingFc.None?
    && y.s.errors == [] && y.r.errors == []
    && LinksInv(c, y)
    && SenderInv(c, y.s.tx, |y.s.outbox|, y.grantS)
    && ReceiverInv(c, y.r, y.rTaken, y.grantR)
    && GrantInv(c, y)
    && CountInv(c, y)
  }

  lemma InitInv(c: Setup, y: Sys)
    requires c.Ok() && Init(c, y)
    ensures Inv(c, y)
  {
  }

  // ----- what the receiver makes of the k-th frame -----

  /** Does taking frame `kr` make the receiver produce a flow control frame? */
  predicate GrantsAt(c: Setup, kr: nat, grantR: nat) {
    kr + 1 < c.Frames() && (kr == 0 || kr + 1 == grantR + c.Block())
  }

  lemma TakeOpening(c: Setup, s: RxState, now: u32)
    requires c.Ok() && RxValid(s, c.capacity)
    ensures |c.StreamFrame(0)| <= FRAME_LEN && !DecodePci(c.rx, c.StreamFrame(0)).FlowControl?
    ensures var step := RxOnFrame(c.rx, c.capacity, s, c.StreamFrame(0), now);
            if c.Frames() == 1 then
              step.action == RxMessageComplete && step.state == s.(data := c.msg, receiving := false)
            else
              && step.action == RxSendFlowControl && step.frame == c.Grant()
              && step.state == s.(data := c.msg[..c.Carried(1)], expected := |c.msg|, sequence := 0, receiving := true,
                                  blockRemaining := c.rx.blockSize, timerStart := now)
  {
    CarriedSteps(c, 0);
    if c.Frames() == 1 {
      SingleRoundTrip(c.tx, c.rx, c.msg);
    } else {
      FirstRoundTrip(c.tx, c.rx, c.msg);
    }
    hide DecodePci, FlowControlFrame, Finished;
  }

  lemma ConsecutivePayload(c: Setup, kr: nat)
    requires c.Ok() && 0 < kr < c.Frames()
    ensures c.Carried(kr) < |c.msg| && c.Carried(kr + 1) <= |c.msg|
    ensures |c.StreamFrame(kr)| <= FRAME_LEN
    ensures var info := DecodePci(c.rx, c.StreamFrame(kr));
            && info.Consecutive? && info.sequence == SequenceOf(kr)
            && var take := Min(|info.payload|, |c.msg| - c.Carried(kr));
               c.msg[..c.Carried(kr)] + info.payload[..take] == c.msg[..c.Carried(kr + 1)]
  {
    CarriedSteps(c, kr);
    var rest := c.msg[c.Carried(kr)..];
    ConsecutiveRoundTrip(c.tx, c.rx, rest, SequenceOf(kr));
    hide DecodePci, ConsecutiveFrame, Setup.Frames, Setup.Carried;
    var payload := DecodePci(c.rx, c.StreamFrame(kr)).payload;
    assert Min(|payload|, |rest|) == ConsecutiveTake(c.tx, rest);
  }

  lemma TakeConsecutive(c: Setup, s: RxState, kr: nat, grantR: nat, now: u32)
    requires c.Ok() && 0 < kr < c.Frames() && RxValid(s, c.capacity)
    requires s.receiving && c.Carried(kr) <= |c.msg| && s.data == c.msg[..c.Carried(kr)] && s.expected == |c.msg|
    requires s.sequence == SequenceOf(kr - 1)
    requires grantR <= kr < grantR + c.Block() && c.Counts(s.blockRemaining, grantR, kr)
    ensures |c.StreamFrame(kr)| <= FRAME_LEN && !DecodePci(c.rx, c.StreamFrame(kr)).FlowControl?
    ensures c.Carried(kr + 1) <= |c.msg|
    ensures var step := RxOnFrame(c.rx, c.capacity, s, c.StreamFrame(kr), now);
            && step.state.data == c.msg[..c.Carried(kr + 1)]
            && step.state.expected == |c.msg| && step.state.sequence == SequenceOf(kr)
            && step.state.receiving == (kr + 1 < c.Frames())
            && step.action == (if kr + 1 == c.Frames() then RxMessageComplete
                               else if GrantsAt(c, kr, grantR) then RxSendFlowControl else RxNothing)
            && (step.action == RxSendFlowControl ==> step.frame == c.Grant())
            && (kr + 1 < c.Frames() ==>
                  c.Counts(step.state.blockRemaining, if GrantsAt(c, kr, grantR) then kr + 1 else grantR, kr + 1))
  {
    CarriedSteps(c, kr);
    ConsecutivePayload(c, kr);
    SequenceSteps(kr);
    hide SequenceOf, NextSequence, DecodePci, FlowControlFrame, Setup.StreamFrame, Setup.Frames, Setup.Carried, Setup.Grant, ConsecutiveTake;
    var info := DecodePci(c.rx, c.StreamFrame(kr));
    assert RxOnFrame(c.rx, c.capacity, s, c.StreamFrame(kr), now) == RxConsecutive(c.rx, s, info.sequence, info.payload, now);
  }

  /** What the node makes of frame `kr`; `grants` says whether the receiver answers it. */
  ghost predicate TakesFrame(c: Setup, r: Node, r1: Node, kr: nat, grantR: nat, accept: bool)
    requires c.Ok()
  {
    var grants := GrantsAt(c, kr, grantR);
    && NodeValid(r1, c.capacity)
    && ReceiverInv(c, r1, kr + 1, if grants then kr + 1 else grantR)
    && r1.errors == r.errors
    && r1.outbox == (if grants && accept then r.outbox + [c.Grant()] else r.outbox)
    && r1.pendingFc == (if grants && !accept then Some(c.Grant()) else r.pendingFc)
  }

  lemma TakeFirstFrame(c: Setup, r: Node, grantR: nat, now: u32, accept: bool)
    requires c.Ok() && NodeValid(r, c.capacity) && ReceiverInv(c, r, 0, grantR)
    ensures |c.StreamFrame(0)| <= FRAME_LEN
    ensures TakesFrame(c, r, Routed(c.rx, c.capacity, r, c.StreamFrame(0), now, accept), 0, grantR, accept)
  {
    CarriedSteps(c, 0);
    TakeOpening(c, r.rx, now);
    hide DecodePci, FlowControlFrame, Finished, RxOnFrame, Setup.Frames, Setup.StreamFrame, Setup.Grant;
  }

  lemma TakeLaterFrame(c: Setup, r: Node, kr: nat, grantR: nat, now: u32, accept: bool)
    requires c.Ok() && 0 < kr < c.Frames() && NodeValid(r, c.capacity) && ReceiverInv(c, r, kr, grantR)
    ensures |c.StreamFrame(kr)| <= FRAME_LEN
    ensures TakesFrame(c, r, Routed(c.rx, c.capacity, r, c.StreamFrame(kr), now, accept), kr, grantR, accept)
  {
    CarriedSteps(c, kr);
    TakeConsecutive(c, r.rx, kr, grantR, now);
    assert c.msg[..|c.msg|] == c.msg;
    hide DecodePci, FlowControlFrame, Finished, RxOnFrame, Setup.Frames, Setup.StreamFrame, Setup.Grant;
  }

  lemma TakeStreamFrame(c: Setup, r: Node, kr: nat, grantR: nat, now: u32, accept: bool)
    requires c.Ok() && kr < c.Frames() && NodeValid(r, c.capacity) && ReceiverInv(c, r, kr, grantR)
    ensures |c.StreamFrame(kr)| <= FRAME_LEN
    ensures TakesFrame(c, r, Routed(c.rx, c.capacity, r, c.StreamFrame(kr), now, accept), kr, grantR, accept)
  {
    hide TakesFrame, ReceiverInv, Setup.StreamFrame, Routed, Setup.Frames;
    if kr == 0 {
      TakeFirstFrame(c, r, grantR, now, accept);
    } else {
      TakeLaterFrame(c, r, kr, grantR, now, accept);
    }
  }

  // ----- the invariant is kept by every step -----

  lemma GrantCountStep(bs: nat, produced: nat)
    ensures 1 + produced * bs == (if produced == 0 then 1 else 1 + (produced - 1) * bs + bs)
  {
  }

  /** Taking a frame moves the grant exactly at a block's end. */
  lemma GrantMoved(c: Setup, y: Sys, y1: Sys)
    requires c.Ok() && GrantInv(c, y) && CountInv(c, y) && y.rTaken < |y.s.outbox| <= c.Frames()
    requires SenderInv(c, y.s.tx, |y.s.outbox|, y.grantS)
    requires y1.s == y.s && y1.rTaken == y.rTaken + 1 && y1.sTaken == y.sTaken && y1.grantS == y.grantS
    requires GrantsAt(c, y.rTaken, y.grantR) ==> Produced(y1) == Produced(y) + 1 && y1.grantR == y.rTaken + 1
    requires !GrantsAt(c, y.rTaken, y.grantR) ==> Produced(y1) == Produced(y) && y1.grantR == y.grantR
    ensures GrantInv(c, y1) && CountInv(c, y1)
  {
    GrantCountStep(c.Block(), Produced(y));
    hide Setup.Frames, Setup.Carried;
  }

  /** Delivering a data frame: the receiver has no flow control frame pending when it produces one,
      so the one-slot `pendingFc` is never overwritten. */
  lemma ToReceiverInv(c: Setup, y: Sys, now: u32, accept: bool)
    requires c.Ok() && Inv(c, y) && Enabled(c, y, ToReceiver(now, accept))
    ensures Inv(c, Next(c, y, ToReceiver(now, accept)))
    ensures GrantsAt(c, y.rTaken, y.grantR) ==> y.r.pendingFc.None?
  {
    var kr := y.rTaken;
    TakeStreamFrame(c, y.r, kr, y.grantR, now, accept);
    hide Setup.Frames, Setup.StreamFrame, Setup.Grant, Setup.Carried, Routed, ReceiverInv;
    assert c.StreamFrame(kr) == y.s.outbox[kr];
    assert Tokens(y) == 0;
    var y1 := Next(c, y, ToReceiver(now, accept));
    assert LinksInv(c, y1);
    hide LinksInv, GrantInv, CountInv, GrantsAt, SenderInv;
    GrantMoved(c, y, y1);
  }

  lemma ToSenderInv(c: Setup, y: Sys, now: u32, accept: bool)
    requires c.Ok() && Inv(c, y) && Enabled(c, y, ToSender(now, accept))
    ensures Inv(c, Next(c, y, ToSender(now, accept)))
    ensures Next(c, y, ToSender(now, accept)).s.tx.phase == SendCf && y.s.tx.phase == WaitFc
  {
    FlowControlRoundTrip(c.rx, c.tx, Continue, c.rx.blockSize, c.rx.stMinRaw);
    hide DecodePci, FlowControlFrame, Setup.Frames, Setup.StreamFrame, Setup.Carried, ReceiverInv;
    assert y.r.outbox[y.sTaken] == c.Grant();
    var y1 := Next(c, y, ToSender(now, accept));
    assert Tokens(y) == 1 && Tokens(y1) == 0;
    assert SenderInv(c, y1.s.tx, |y1.s.outbox|, y1.grantS);
  }

  // A loop pass is three parts; each keeps the invariant.

  /** What one poll of the sender offers is the next frame of the stream; a confirmation leaves the
      sender one frame further. */
  ghost predicate OffersNext(c: Setup, tx: TxState, ks: nat, grantS: nat, now: u32)
    requires c.Ok() && TxValid(tx)
  {
    var step := TxPoll(c.tx, tx, now);
    && SenderInv(c, step.state, ks, grantS) && TxValid(step.state)
    && step.action != TxFailed
    && (step.action != TxComplete ==> step.state.phase == tx.phase)
    && (step.action == TxComplete ==> tx.phase == Done && step.state.phase == Idle)
    && (step.action == TxSendFrame ==>
          && ks < c.Frames() && step.frame == c.StreamFrame(ks)
          && tx.phase in {SendFirst, SendCf}
          && var after := TxConfirm(c.tx, step.state, now);
             && SenderInv(c, after, ks + 1, grantS) && TxValid(after) && TxTimely(c, after, now)
             && after.phase in {WaitFc, SendCf, Done}
             && (after.phase == SendCf ==> tx.phase == SendCf)
             && (after.phase == WaitFc ==> ks + 1 == (if tx.phase == SendFirst then 1 else grantS + c.Block())))
  }

  lemma FirstOffersNext(c: Setup, tx: TxState, ks: nat, grantS: nat, now: u32)
    requires c.Ok() && TxValid(tx) && SenderInv(c, tx, ks, grantS) && TxTimely(c, tx, now)
    requires tx.phase == SendFirst
    ensures OffersNext(c, tx, ks, grantS, now)
  {
    CarriedSteps(c, 0);
    hide Setup.Frames, SingleFrame, FirstFrame, ConsecutiveFrame, Setup.Carried, ConsecutiveTake;
  }

  lemma CfOffersNext(c: Setup, tx: TxState, ks: nat, grantS: nat, now: u32)
    requires c.Ok() && TxValid(tx) && SenderInv(c, tx, ks, grantS) && TxTimely(c, tx, now)
    requires tx.phase == SendCf
    ensures OffersNext(c, tx, ks, grantS, now)
  {
    CarriedSteps(c, ks);
    SequenceSteps(ks);
    hide SequenceOf, NextSequence, Setup.Frames, SingleFrame, FirstFrame, ConsecutiveFrame, Setup.Carried, ConsecutiveTake;
  }

  lemma PollOffersNext(c: Setup, tx: TxState, ks: nat, grantS: nat, now: u32)
    requires c.Ok() && TxValid(tx) && SenderInv(c, tx, ks, grantS) && TxTimely(c, tx, now)
    ensures OffersNext(c, tx, ks, grantS, now)
  {
    if tx.phase == SendFirst {
      FirstOffersNext(c, tx, ks, grantS, now);
    } else if tx.phase == SendCf {
      CfOffersNext(c, tx, ks, grantS, now);
    }
  }

  /** Sending a frame, or coming to rest after the last one, moves no grant. */
  lemma GrantKept(c: Setup, y: Sys, s1: Node)
    requires c.Ok() && GrantInv(c, y) && CountInv(c, y)
    requires y.rTaken <= |y.s.outbox| <= |s1.outbox| <= |y.s.outbox| + 1
    requires |s1.outbox| == |y.s.outbox| ==> s1.tx.phase == y.s.tx.phase || (y.s.tx.phase == Done && s1.tx.phase == Idle)
    requires |s1.outbox| > |y.s.outbox| ==>
               && y.s.tx.phase in {SendFirst, SendCf} && s1.tx.phase in {WaitFc, SendCf, Done}
               && SenderInv(c, y.s.tx, |y.s.outbox|, y.grantS) && SenderInv(c, s1.tx, |s1.outbox|, y.grantS)
               && (s1.tx.phase == SendCf ==> y.s.tx.phase == SendCf)
               && (s1.tx.phase == WaitFc ==>
                     |s1.outbox| == (if y.s.tx.phase == SendFirst then 1 else y.grantS + c.Block()))
    ensures GrantInv(c, y.(s := s1)) && CountInv(c, y.(s := s1))
  {
    hide Setup.Frames, Setup.Carried;
  }

  lemma LinksKept(c: Setup, y: Sys, s1: Node)
    requires c.Ok() && LinksInv(c, y)
    requires s1.outbox == y.s.outbox ||
             (|y.s.outbox| < c.Frames() && s1.outbox == y.s.outbox + [c.StreamFrame(|y.s.outbox|)])
    ensures LinksInv(c, y.(s := s1))
  {
    hide Setup.Frames, Setup.StreamFrame, Setup.Grant;
  }

  lemma SendOnceInv(c: Setup, y: Sys, now: u32, accept: bool)
    requires c.Ok() && Inv(c, y) && TxTimely(c, y.s.tx, now)
    ensures TxValid(y.s.tx)
    ensures var (s1, more) := TxOnce(c.tx, y.s, now, accept);
            && Inv(c, y.(s := s1))
            && (more ==> TxTimely(c, s1.tx, now))
  {
    PollOffersNext(c, y.s.tx, |y.s.outbox|, y.grantS, now);
    var step := TxPoll(c.tx, y.s.tx, now);
    hide Setup.Frames, Setup.StreamFrame, SenderInv, ReceiverInv, Setup.Grant, Setup.Carried, TxPoll, TxConfirm,
      GrantInv, CountInv, TxTimely;
    var s1 := TxOnce(c.tx, y.s, now, accept).0;
    if step.action == TxSendFrame && accept {
      assert s1 == y.s.(tx := TxConfirm(c.tx, step.state, now), outbox := y.s.outbox + [step.frame]);
    } else {
      assert s1.tx == step.state && s1.outbox == y.s.outbox;
    }
    hide OffersNext, TxOnce;
    LinksKept(c, y, s1);
    GrantKept(c, y, s1);
    hide LinksInv;
  }

  lemma BurstInv(c: Setup, y: Sys, now: u32, accepts: seq<bool>)
    requires c.Ok() && Inv(c, y) && TxTimely(c, y.s.tx, now)
    ensures TxValid(y.s.tx) && Inv(c, y.(s := TxBurst(c.tx, y.s, now, accepts)))
    decreases |accepts|
  {
    if accepts == [] {
      assert y.(s := TxBurst(c.tx, y.s, now, accepts)) == y;
    } else {
      SendOnceInv(c, y, now, accepts[0]);
      hide TxOnce, Inv;
      var (s1, more) := TxOnce(c.tx, y.s, now, accepts[0]);
      if more {
        BurstInv(c, y.(s := s1), now, accepts[1..]);
      }
    }
  }

  lemma SenderLoopInv(c: Setup, y: Sys, now: u32, acceptFc: bool, accepts: seq<bool>)
    requires c.Ok() && Inv(c, y) && Enabled(c, y, SenderLoop(now, acceptFc, accepts))
    ensures Inv(c, Next(c, y, SenderLoop(now, acceptFc, accepts)))
  {
    assert RxPolled(c.tx, RetriedFc(y.s, acceptFc), now) == y.s;
    BurstInv(c, y, now, accepts);
  }

  lemma IdleBurst(cfg: Config, n: Node, now: u32, accepts: seq<bool>)
    requires n.tx.phase == Idle && TxValid(n.tx)
    ensures TxBurst(cfg, n, now, accepts) == n
  {
  }

  lemma ReceiverLoopInv(c: Setup, y: Sys, now: u32, acceptFc: bool, accepts: seq<bool>)
    requires c.Ok() && Inv(c, y) && Enabled(c, y, ReceiverLoop(now, acceptFc, accepts))
    ensures Inv(c, Next(c, y, ReceiverLoop(now, acceptFc, accepts)))
    ensures Next(c, y, ReceiverLoop(now, acceptFc, accepts)) == y.(r := RetriedFc(y.r, acceptFc))
  {
    var r1 := RetriedFc(y.r, acceptFc);
    assert RxPolled(c.rx, r1, now) == r1;
    IdleBurst(c.rx, r1, now, accepts);
    hide Setup.Frames, Setup.StreamFrame, Setup.Carried, Setup.Grant;
  }

  lemma StepInv(c: Setup, y: Sys, step: Step)
    requires c.Ok() && Inv(c, y) && Enabled(c, y, step)
    ensures Inv(c, Next(c, y, step))
  {
    match step
    case ToReceiver(now, accept) => ToReceiverInv(c, y, now, accept);
    case ToSender(now, accept) => ToSenderInv(c, y, now, accept);
    case SenderLoop(now, acceptFc, accepts) => SenderLoopInv(c, y, now, acceptFc, accepts);
    case ReceiverLoop(now, acceptFc, accepts) => ReceiverLoopInv(c, y, now, acceptFc, accepts);
  }

  // ----- whole runs -----

  /** `ys` is a run from a just-accepted `send` under the schedule `steps`. */
  ghost predicate Run(c: Setup, ys: seq<Sys>, steps: seq<Step>) {
    && |ys| == |steps| + 1
    && Init(c, ys[0])
    && forall i :: 0 <= i < |steps| ==>
         SysValid(c, ys[i]) && Enabled(c, ys[i], steps[i]) && ys[i + 1] == Next(c, ys[i], steps[i])
  }

  lemma {:induction false} RunInv(c: Setup, ys: seq<Sys>, steps: seq<Step>, k: nat)
    requires c.Ok() && Run(c, ys, steps) && k < |ys|
    ensures Inv(c, ys[k])
  {
    if k == 0 {
      InitInv(c, ys[0]);
    } else {
      RunInv(c, ys, steps, k - 1);
      StepInv(c, ys[k - 1], steps[k - 1]);
    }
  }

  ghost predicate TransferDone(y: Sys) {
    y.s.tx.phase == Idle && y.r.delivered != []
  }

  /** The receiver delivers nothing but the message, at most once, and neither side ever reports an
      error: under every schedule of polls, refusals and deliveries inside the timeouts. */
  lemma DeliveredIsTheMessage(c: Setup, ys: seq<Sys>, steps: seq<Step>)
    requires c.Ok() && Run(c, ys, steps)
    ensures var y := ys[|steps|];
            && (y.r.delivered == [] || y.r.delivered == [c.msg])
            && y.s.errors == [] && y.r.errors == []
  {
    RunInv(c, ys, steps, |steps|);
  }

  /** A finished transfer used exactly the frames the standard's arithmetic says: the ceiling of the
      rest for the data frames, one flow control frame per started block. */
  lemma ExactFrameCount(c: Setup, ys: seq<Sys>, steps: seq<Step>)
    requires c.Ok() && Run(c, ys, steps) && TransferDone(ys[|steps|])
    ensures var y, n := ys[|steps|], |c.msg|;
            && y.r.delivered == [c.msg]
            && (n <= c.tx.SingleCapacity() ==> |y.s.outbox| == 1 && |y.r.outbox| == 0)
            && (n > c.tx.SingleCapacity() ==>
                  var cf := (n - c.tx.FirstCapacity() + c.tx.ConsecutiveCapacity() - 1) / c.tx.ConsecutiveCapacity();
                  |y.s.outbox| == 1 + cf && |y.r.outbox| == 1 + (if c.rx.blockSize == 0 then 0 else (cf - 1) / c.rx.blockSize))
  {
    RunInv(c, ys, steps, |steps|);
    var y := ys[|steps|];
    if c.Frames() > 1 {
      CarriedSteps(c, 0);
      assert y.grantR < c.Frames() <= y.grantR + c.Block();
      hide Setup.Frames, Setup.StreamFrame, Setup.Carried, Setup.Grant, Init, SenderInv, ReceiverInv, GrantInv;
      assert c.Frames() - 2 < (Produced(y) - 1) * c.Block() + c.Block();
      QuotientFromBounds(c.Frames() - 2, c.Block(), Produced(y) - 1);
    }
  }
}
