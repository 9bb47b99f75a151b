/** One ISO-TP address pair: frames routed to the send or the receive machine, a refused flow
    control frame kept for the next loop, and at most eight frames sent per loop. What the CAN layer
    answers to each injection is an input. */
module IsoTpNode {
  import opened Words
  import opened IsoTpCodec
  import opened IsoTpTransfer

  const TX_FRAMES_PER_LOOP := 8

  /** `outbox` is every frame the CAN layer accepted, `delivered` every message handed to the
      consumer, `errors` every error reported and `completed` the number of messages sent. */
  datatype Node = Node(
    tx: TxState, rx: RxState, pendingFc: Option<Frame>,
    outbox: seq<Frame>, delivered: seq<seq<byte>>, errors: seq<Error>, completed: nat)

  ghost predicate NodeValid(n: Node, capacity: nat) {
    TxValid(n.tx) && RxValid(n.rx, capacity)
  }

  function Routed(cfg: Config, capacity: nat, n: Node, f: Frame, now: u32, accept: bool): Node
    requires RxValid(n.rx, capacity)
  {
    var info := DecodePci(cfg, f);
    if info.FlowControl? then
      n.(tx := TxFlowControl(n.tx, info.status, info.blockSize, info.stMinRaw, now))
    else
      var step := RxOnFrame(cfg, capacity, n.rx, f, now);
      var n1 := n.(rx := step.state);
      match step.action
      case RxSendFlowControl =>
        if accept then n1.(outbox := n.outbox + [step.frame]) else n1.(pendingFc := Some(step.frame))
      case RxMessageComplete => n1.(delivered := n.delivered + [step.state.data])
      case RxFailed => n1.(errors := n.errors + [step.state.error])
      case RxNothing => n1
  }

  function RetriedFc(n: Node, accept: bool): Node {
    if n.pendingFc.Some? && accept then n.(pendingFc := None, outbox := n.outbox + [n.pendingFc.value]) else n
  }

  function RxPolled(cfg: Config, n: Node, now: u32): Node {
    var step := RxPoll(cfg, n.rx, now);
    var n1 := n.(rx := step.state);
    if step.action == RxFailed then n1.(errors := n.errors + [step.state.error]) else n1
  }

  /** One poll of the send machine; the flag says whether the loop may offer another frame. */
  function TxOnce(cfg: Config, n: Node, now: u32, accept: bool): (Node, bool)
    requires TxValid(n.tx)
  {
    var step := TxPoll(cfg, n.tx, now);
    match step.action
    case TxSendFrame =>
      if accept then (n.(tx := TxConfirm(cfg, step.state, now), outbox := n.outbox + [step.frame]), true)
      else (n.(tx := step.state), false)
    case TxComplete => (n.(tx := step.state, completed := n.completed + 1), false)
    case TxFailed => (n.(tx := step.state, errors := n.errors + [step.state.error]), false)
    case TxNothing => (n.(tx := step.state), false)
  }

  lemma OfferIsConfirmable(cfg: Config, s: TxState, now: u32)
    requires TxValid(s)
    ensures var step := TxPoll(cfg, s, now);
            TxValid(step.state) &&
            (step.action == TxSendFrame ==> Confirmable(cfg, step.state) && TxValid(TxConfirm(cfg, step.state, now)))
  {
    hide Finished;
  }

  lemma TxOnceKeepsValid(cfg: Config, n: Node, now: u32, accept: bool)
    requires TxValid(n.tx)
    ensures TxValid(TxOnce(cfg, n, now, accept).0.tx)
  {
    OfferIsConfirmable(cfg, n.tx, now);
    hide TxPoll, TxConfirm;
  }

  function TxBurst(cfg: Config, n: Node, now: u32, accepts: seq<bool>): Node
    requires TxValid(n.tx)
    decreases |accepts|
  {
    if accepts == [] then n else
    var (n1, more) := TxOnce(cfg, n, now, accepts[0]);
    TxOnceKeepsValid(cfg, n, now, accepts[0]);
    if more then TxBurst(cfg, n1, now, accepts[1..]) else n1
  }

  function Looped(cfg: Config, n: Node, now: u32, acceptFc: bool, accepts: seq<bool>): Node
    requires TxValid(n.tx)
  {
    TxBurst(cfg, RxPolled(cfg, RetriedFc(n, acceptFc), now), now, accepts)
  }

  class IsoTpProtocol {
    const cfg: Config
    const tx: TxTransfer
    const rx: RxTransfer
    var pendingFc: Option<Frame>
    var outbox: seq<Frame>
    var delivered: seq<seq<byte>>
    var errors: seq<Error>
    var completed: nat

    ghost predicate Valid()
      reads this, tx, tx.buffer, rx, rx.buffer
    {
      tx.buffer != rx.buffer && tx.Valid() && rx.Valid()
    }

    ghost function State(): Node
      reads this, tx, tx.buffer, rx, rx.buffer
      requires Valid()
    {
      Node(tx.State(), rx.State(), pendingFc, outbox, delivered, errors, completed)
    }

    constructor (cfg: Config, capacity: nat)
      requires 8 <= capacity <= MAX_MESSAGE_SIZE
      ensures Valid() && this.cfg == cfg && fresh(tx) && fresh(tx.buffer) && fresh(rx) && fresh(rx.buffer)
      ensures rx.buffer.Length == tx.buffer.Length == capacity
      ensures State().tx.phase == Idle && !State().rx.receiving && State().pendingFc.None?
      ensures State().outbox == [] && State().delivered == [] && State().errors == [] && State().completed == 0
    {
      var txBuffer, rxBuffer := new byte[capacity], new byte[capacity];
      this.cfg := cfg;
      tx := new TxTransfer(txBuffer);
      rx := new RxTransfer(rxBuffer);
      pendingFc, outbox, delivered, errors, completed := None, [], [], [], 0;
    }

    method Send(data: array<byte>, length: nat, now: u32) returns (ok: bool)
      requires Valid() && length <= data.Length && data != tx.buffer
      modifies tx, tx.buffer
      ensures Valid()
      ensures (State(), ok) == (var (t, b) := TxBegin(old(State().tx), tx.buffer.Length, data[..length], now);
                                (old(State()).(tx := t), b))
    {
      hide TxBegin;
      ok := tx.Begin(data, length, now);
    }

    method InjectFrame(f: Frame, accept: bool)
      modifies `outbox
      ensures outbox == if accept then old(outbox) + [f] else old(outbox)
    {
      if accept {
        outbox := outbox + [f];
      }
    }

    method OnFrame(f: Frame, now: u32, accept: bool)
      requires Valid() && |f| <= FRAME_LEN
      modifies this, tx, rx, rx.buffer
      ensures Valid() && State() == Routed(cfg, rx.buffer.Length, old(State()), f, now, accept)
    {
      hide DecodePci, RxOnFrame, TxFlowControl;
      var info := DecodePci(cfg, f);
      if info.FlowControl? {
        tx.OnFlowControl(info.status, info.blockSize, info.stMinRaw, now);
        return;
      }
      var out := new byte[FRAME_LEN];
      var action, dlc := rx.OnFrame(cfg, f, now, out);
      match action
      case RxSendFlowControl =>
        InjectFrame(out[..dlc], accept);
        if !accept {
          pendingFc := Some(out[..dlc]);
        }
      case RxMessageComplete =>
        delivered := delivered + [rx.buffer[..rx.size]];
      case RxFailed =>
        errors := errors + [rx.error];
      case RxNothing =>
    }

    method RetryFc(accept: bool)
      requires Valid()
      modifies this
      ensures Valid() && State() == RetriedFc(old(State()), accept)
    {
      if pendingFc.Some? {
        InjectFrame(pendingFc.value, accept);
        if accept {
          pendingFc := None;
        }
      }
    }

    method PollTx(now: u32, accept: bool) returns (more: bool)
      requires Valid()
      modifies this, tx
      ensures Valid() && (State(), more) == TxOnce(cfg, old(State()), now, accept)
    {
      OfferIsConfirmable(cfg, tx.State(), now);
      hide TxPoll, TxConfirm;
      var frame := new byte[FRAME_LEN];
      var action, dlc := tx.Poll(cfg, now, frame);
      more := false;
      match action
      case TxSendFrame =>
        InjectFrame(frame[..dlc], accept);
        if accept {
          tx.ConfirmSent(cfg, now);
          more := true;
        }
      case TxComplete =>
        completed := completed + 1;
      case TxFailed =>
        errors := errors + [tx.error];
      case TxNothing =>
    }

    method Loop(now: u32, acceptFc: bool, accepts: seq<bool>)
      requires Valid() && |accepts| == TX_FRAMES_PER_LOOP
      modifies this, tx, rx
      ensures Valid() && State() == Looped(cfg, old(State()), now, acceptFc, accepts)
    {
      hide TxOnce, RxPoll;
      RetryFc(acceptFc);
      var polled := rx.Poll(cfg, now);
      if polled == RxFailed {
        errors := errors + [rx.error];
      }
      ghost var goal := TxBurst(cfg, State(), now, accepts);
      var i, more := 0, true;
      while i < TX_FRAMES_PER_LOOP && more
        invariant 0 <= i <= TX_FRAMES_PER_LOOP
        invariant Valid()
        invariant goal == if more then TxBurst(cfg, State(), now, accepts[i..]) else State()
      {
        assert accepts[i..][1..] == accepts[i + 1..];
        more := PollTx(now, accepts[i]);
        i := i + 1;
      }
    }
  }
}
