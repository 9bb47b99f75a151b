/** The ISO-TP send and receive machines. For each: the state as a value, every operation as a
    function on that value, and the class that keeps the state in fields and a message buffer and
    whose methods are proved to compute those functions. */
module IsoTpTransfer {
  import opened Words
  import opened IsoTpCodec

  datatype Error =
    | NoError | TimeoutFc | TimeoutCf | WrongSequence | OverflowLocal | OverflowRemote | TxStalled | Aborted

  // ------------------------------------------------------------------------------------- send

  datatype TxPhase = Idle | SendFirst | WaitFc | SendCf | Done | Failed
  datatype Pending = NonePending | PendSingle | PendFirst | PendConsecutive
  datatype TxAction = TxNothing | TxSendFrame | TxComplete | TxFailed

  datatype TxState = TxState(
    phase: TxPhase, pending: Pending, error: Error, msg: seq<byte>, sent: nat,
    sequence: byte, pendingSequence: byte, pendingTake: nat, blockRemaining: byte,
    timerStart: u32, stallStart: u32, lastCf: u32, stMin: u32)

  datatype TxStep = TxStep(state: TxState, action: TxAction, frame: Frame)

  /** What the machine itself keeps true between calls. */
  ghost predicate TxValid(s: TxState) {
    && |s.msg| <= MAX_MESSAGE_SIZE
    && (s.phase == SendFirst ==> 1 <= |s.msg|)
    && (s.phase == WaitFc || s.phase == SendCf ==> s.sent < |s.msg|)
  }

  function TxBegin(s: TxState, capacity: nat, data: seq<byte>, now: u32): (TxState, bool) {
    if s.phase != Idle || |data| == 0 || |data| > capacity then (s, false)
    else (s.(msg := data, sent := 0, sequence := 0, blockRemaining := 0, error := NoError,
             phase := SendFirst, timerStart := now, stallStart := now), true)
  }

  function TxFail(s: TxState, error: Error): TxStep {
    TxStep(s.(error := error, phase := Idle, pending := NonePending), TxFailed, [])
  }

  predicate Stalled(cfg: Config, s: TxState, now: u32, kind: Pending) {
    s.pending == kind && Elapsed(now, s.stallStart) >= cfg.stallMs
  }

  /** Hands a frame to the caller and polices how long the CAN layer has refused this one. */
  function TxOffer(cfg: Config, s: TxState, now: u32, kind: Pending, frame: Frame): TxStep {
    if Stalled(cfg, s, now, kind) then TxFail(s, TxStalled)
    else if s.pending != kind then TxStep(s.(pending := kind, stallStart := now), TxSendFrame, frame)
    else TxStep(s, TxSendFrame, frame)
  }

  function TxPoll(cfg: Config, s: TxState, now: u32): TxStep
    requires TxValid(s)
  {
    match s.phase
    case Idle => TxStep(s, TxNothing, [])
    case SendFirst =>
      if |s.msg| <= cfg.SingleCapacity() then TxOffer(cfg, s, now, PendSingle, SingleFrame(cfg, s.msg))
      else TxOffer(cfg, s, now, PendFirst, FirstFrame(cfg, s.msg))
    case WaitFc =>
      if Elapsed(now, s.timerStart) >= cfg.nBsMs then TxFail(s, TimeoutFc)
      else TxStep(s, TxNothing, [])
    case SendCf =>
      if s.stMin != 0 && Elapsed(now, s.lastCf) < s.stMin then TxStep(s, TxNothing, [])
      else
        var next := NextSequence(s.sequence);
        var rest := s.msg[s.sent..];
        TxOffer(cfg, s.(pendingSequence := next, pendingTake := ConsecutiveTake(cfg, rest)), now,
                PendConsecutive, ConsecutiveFrame(cfg, rest, next))
    case Done => TxStep(s.(phase := Idle), TxComplete, [])
    case Failed => TxStep(s.(phase := Idle), TxFailed, [])
  }

  /** What a caller may confirm: the frame the last poll offered, which is the one `pending` names. */
  ghost predicate Confirmable(cfg: Config, s: TxState) {
    match s.pending
    case NonePending => true
    case PendSingle => s.phase == SendFirst
    case PendFirst => s.phase == SendFirst && |s.msg| > cfg.SingleCapacity()
    case PendConsecutive => s.phase == SendCf && s.sent < |s.msg| && s.pendingTake <= |s.msg| - s.sent
  }

  /** The frame is really on the bus: only now do the sequence number and the position move. */
  function TxConfirm(cfg: Config, s: TxState, now: u32): TxState {
    match s.pending
    case NonePending => s
    case PendSingle => s.(phase := Done, pending := NonePending)
    case PendFirst => s.(sent := cfg.FirstCapacity(), phase := WaitFc, timerStart := now, pending := NonePending)
    case PendConsecutive =>
      var s1 := s.(sequence := s.pendingSequence, sent := s.sent + s.pendingTake, lastCf := now, pending := NonePending);
      if s1.sent >= |s.msg| then s1.(phase := Done)
      else if s.blockRemaining == 1 then s1.(blockRemaining := 0, phase := WaitFc, timerStart := now)
      else if s.blockRemaining != 0 then s1.(blockRemaining := s.blockRemaining - 1)
      else s1
  }

  /** A received flow control frame. With a block size of 0 nothing is ever exhausted. */
  function TxFlowControl(s: TxState, status: FlowStatus, blockSize: byte, stMinRaw: byte, now: u32): TxState {
    if s.phase != WaitFc then s else
    match status
    case Continue =>
      s.(blockRemaining := blockSize, stMin := StMinToMs(stMinRaw),
         lastCf := Elapsed(now, StMinToMs(stMinRaw)), phase := SendCf)
    case Wait => s.(timerStart := now)
    case BufferOverflow => s.(error := OverflowRemote, phase := Failed, pending := NonePending)
  }

  function TxAbort(s: TxState): TxState {
    if s.phase != Idle then s.(error := Aborted, phase := Idle) else s
  }

  /** Backpressure costs time, never correctness: after a refused offer, the next poll that offers
      anything offers the identical frame, and the only other outcome is the recorded stall. */
  lemma RefusedFrameIsReoffered(cfg: Config, s: TxState, now: u32, later: u32)
    requires TxValid(s)
    ensures var first := TxPoll(cfg, s, now);
            first.action == TxSendFrame ==>
              var again := TxPoll(cfg, first.state, later);
              || (again.action == TxSendFrame && again.frame == first.frame && again.state == first.state)
              || (again.action == TxFailed && again.state.error == TxStalled &&
                  Elapsed(later, first.state.stallStart) >= cfg.stallMs)
              || (again.action == TxNothing && Elapsed(later, s.lastCf) < s.stMin)
  {
    hide Finished;
  }

  class TxTransfer {
    const buffer: array<byte>
    var phase: TxPhase
    var pending: Pending
    var error: Error
    var size: nat
    var sent: nat
    var sequence: byte
    var pendingSequence: byte
    var pendingTake: nat
    var blockRemaining: byte
    var timerStart: u32
    var stallStart: u32
    var lastCf: u32
    var stMin: u32

    ghost predicate Valid()
      reads this, buffer
    {
      size <= buffer.Length <= MAX_MESSAGE_SIZE && TxValid(State())
    }

    ghost function State(): TxState
      reads this, buffer
      requires size <= buffer.Length
    {
      TxState(phase, pending, error, buffer[..size], sent, sequence, pendingSequence, pendingTake, blockRemaining,
              timerStart, stallStart, lastCf, stMin)
    }

    constructor (buffer: array<byte>)
      requires buffer.Length <= MAX_MESSAGE_SIZE
      ensures Valid() && this.buffer == buffer
      ensures State() == TxState(Idle, NonePending, NoError, [], 0, 0, 0, 0, 0, 0, 0, 0, 0)
    {
      this.buffer := buffer;
      phase, pending, error, size, sent := Idle, NonePending, NoError, 0, 0;
      sequence, pendingSequence, pendingTake, blockRemaining := 0, 0, 0, 0;
      timerStart, stallStart, lastCf, stMin := 0, 0, 0, 0;
    }

    method Begin(data: array<byte>, length: nat, now: u32) returns (ok: bool)
      requires Valid() && length <= data.Length && data != buffer
      modifies this, buffer
      ensures Valid()
      ensures (State(), ok) == TxBegin(old(State()), buffer.Length, data[..length], now)
    {
      ghost var was, msg := State(), data[..length];
      ok := phase == Idle && 0 < length <= buffer.Length;
      if ok {
        CopyIn(data, length);
        size, sent, sequence, blockRemaining, error := length, 0, 0, 0, NoError;
        phase, timerStart, stallStart := SendFirst, now, now;
        assert State() == was.(msg := msg, sent := 0, sequence := 0, blockRemaining := 0, error := NoError,
                               phase := SendFirst, timerStart := now, stallStart := now);
      }
    }

    method CopyIn(data: array<byte>, length: nat)
      requires length <= data.Length && length <= buffer.Length && data != buffer
      modifies buffer
      ensures buffer[..length] == data[..length]
    {
      forall i | 0 <= i < length { buffer[i] := data[i]; }
    }

    method Abort()
      requires Valid()
      modifies this
      ensures Valid() && State() == TxAbort(old(State()))
    {
      if phase != Idle {
        error, phase := Aborted, Idle;
      }
    }

    method Offer(cfg: Config, now: u32, kind: Pending) returns (action: TxAction)
      requires Valid()
      modifies this
      ensures size == old(size)
      ensures State() == TxOffer(cfg, old(State()), now, kind, []).state
      ensures action == TxOffer(cfg, old(State()), now, kind, []).action
    {
      if pending != kind {
        pending, stallStart := kind, now;
        return TxSendFrame;
      }
      if Elapsed(now, stallStart) >= cfg.stallMs {
        error, phase, pending := TxStalled, Idle, NonePending;
        return TxFailed;
      }
      action := TxSendFrame;
    }

    method Poll(cfg: Config, now: u32, out: array<byte>) returns (action: TxAction, dlc: nat)
      requires Valid() && out.Length == FRAME_LEN && out != buffer
      modifies this, out
      ensures Valid()
      ensures State() == TxPoll(cfg, old(State()), now).state
      ensures action == TxPoll(cfg, old(State()), now).action
      ensures action == TxSendFrame ==> dlc <= FRAME_LEN && out[..dlc] == TxPoll(cfg, old(State()), now).frame
    {
      hide Finished, FirstFrame, SingleFrame, ConsecutiveFrame;
      dlc := 0;
      match phase
      case Idle =>
        action := TxNothing;
      case SendFirst =>
        if size <= cfg.SingleCapacity() {
          var ok;
          ok, dlc := EncodeSingleFrame(cfg, buffer, size, out);
          action := Offer(cfg, now, PendSingle);
        } else {
          var take;
          take, dlc := EncodeFirstFrame(cfg, buffer, size, out);
          action := Offer(cfg, now, PendFirst);
        }
      case WaitFc =>
        if Elapsed(now, timerStart) >= cfg.nBsMs {
          error, phase, pending := TimeoutFc, Idle, NonePending;
          action := TxFailed;
        } else {
          action := TxNothing;
        }
      case SendCf =>
        if stMin != 0 && Elapsed(now, lastCf) < stMin {
          return TxNothing, 0;
        }
        assert buffer[sent..size] == buffer[..size][sent..];
        pendingSequence := NextSequence(sequence);
        pendingTake, dlc := EncodeConsecutiveFrame(cfg, buffer, sent, size, pendingSequence, out);
        action := Offer(cfg, now, PendConsecutive);
      case Done =>
        phase, action := Idle, TxComplete;
      case Failed =>
        phase, action := Idle, TxFailed;
    }

    method ConfirmSent(cfg: Config, now: u32)
      requires Valid() && Confirmable(cfg, State())
      modifies this
      ensures Valid() && State() == TxConfirm(cfg, old(State()), now)
    {
      match pending {
        case NonePending =>
          return;
        case PendSingle =>
          phase := Done;
        case PendFirst =>
          sent, phase, timerStart := cfg.FirstCapacity(), WaitFc, now;
        case PendConsecutive =>
          sequence, sent, lastCf := pendingSequence, sent + pendingTake, now;
          if sent >= size {
            phase := Done;
          } else if blockRemaining != 0 {
            blockRemaining := blockRemaining - 1;
            if blockRemaining == 0 {
              phase, timerStart := WaitFc, now;
            }
          }
      }
      pending := NonePending;
    }

    method OnFlowControl(status: FlowStatus, blockSize: byte, stMinRaw: byte, now: u32)
      requires Valid()
      modifies this
      ensures Valid() && State() == TxFlowControl(old(State()), status, blockSize, stMinRaw, now)
    {
      if phase != WaitFc {
        return;
      }
      match status
      case Continue =>
        blockRemaining, stMin := blockSize, StMinToMs(stMinRaw);
        lastCf, phase := Elapsed(now, stMin), SendCf;
      case Wait =>
        timerStart := now;
      case BufferOverflow =>
        error, phase, pending := OverflowRemote, Failed, NonePending;
    }
  }

  // ---------------------------------------------------------------------------------- receive

  datatype RxAction = RxNothing | RxSendFlowControl | RxMessageComplete | RxFailed

  datatype RxState = RxState(
    receiving: bool, data: seq<byte>, expected: nat, sequence: byte, blockRemaining: byte,
    timerStart: u32, ignored: u32, error: Error)

  datatype RxStep = RxStep(state: RxState, action: RxAction, frame: Frame)

  ghost predicate RxValid(s: RxState, capacity: nat) {
    s.receiving ==> |s.data| <= s.expected <= capacity
  }

  function RxIgnore(s: RxState): RxStep {
    RxStep(s.(ignored := (s.ignored + 1) % WRAP), RxNothing, [])
  }

  function RxFirst(cfg: Config, capacity: nat, s: RxState, length: nat, payload: seq<byte>, now: u32): RxStep {
    if length > capacity then
      RxStep(s.(receiving := false, error := OverflowLocal), RxSendFlowControl,
             FlowControlFrame(cfg, BufferOverflow, 0, 0))
    else
      RxStep(s.(data := payload, expected := length, sequence := 0, receiving := true,
                blockRemaining := cfg.blockSize, timerStart := now),
             RxSendFlowControl, FlowControlFrame(cfg, Continue, cfg.blockSize, cfg.stMinRaw))
  }

  function RxConsecutive(cfg: Config, s: RxState, sequence: byte, payload: seq<byte>, now: u32): RxStep
    requires s.receiving ==> |s.data| <= s.expected
  {
    if !s.receiving then RxIgnore(s) else
    var want := NextSequence(s.sequence);
    if sequence != want then RxStep(s.(receiving := false, error := WrongSequence), RxFailed, []) else
    var take := Min(|payload|, s.expected - |s.data|);
    var s1 := s.(sequence := want, data := s.data + payload[..take], timerStart := now);
    if |s1.data| >= s.expected then
      RxStep(s1.(receiving := false), RxMessageComplete, [])
    else if s.blockRemaining == 1 then
      RxStep(s1.(blockRemaining := cfg.blockSize), RxSendFlowControl,
             FlowControlFrame(cfg, Continue, cfg.blockSize, cfg.stMinRaw))
    else
      RxStep(if s.blockRemaining != 0 then s1.(blockRemaining := s.blockRemaining - 1) else s1, RxNothing, [])
  }

  function RxOnFrame(cfg: Config, capacity: nat, s: RxState, f: Frame, now: u32): RxStep
    requires RxValid(s, capacity)
  {
    match DecodePci(cfg, f)
    case Single(payload) => RxStep(s.(data := payload, receiving := false), RxMessageComplete, [])
    case First(length, payload) => RxFirst(cfg, capacity, s, length, payload, now)
    case Consecutive(sequence, payload) => RxConsecutive(cfg, s, sequence, payload, now)
    case FlowControl(_, _, _) => RxStep(s, RxNothing, [])
    case Invalid => RxIgnore(s)
  }

  function RxPoll(cfg: Config, s: RxState, now: u32): RxStep {
    if s.receiving && Elapsed(now, s.timerStart) >= cfg.nCrMs then
      RxStep(s.(receiving := false, error := TimeoutCf), RxFailed, [])
    else
      RxStep(s, RxNothing, [])
  }

  class RxTransfer {
    const buffer: array<byte>
    var receiving: bool
    var size: nat
    var expected: nat
    var sequence: byte
    var blockRemaining: byte
    var timerStart: u32
    var ignored: u32
    var error: Error

    /** Eight bytes is the smallest buffer the configuration accepts. */
    ghost predicate Valid()
      reads this, buffer
    {
      8 <= buffer.Length && size <= buffer.Length && RxValid(State(), buffer.Length)
    }

    ghost function State(): RxState
      reads this, buffer
      requires size <= buffer.Length
    {
      RxState(receiving, buffer[..size], expected, sequence, blockRemaining, timerStart, ignored, error)
    }

    constructor (buffer: array<byte>)
      requires 8 <= buffer.Length
      ensures Valid() && this.buffer == buffer
      ensures State() == RxState(false, [], 0, 0, 0, 0, 0, NoError)
    {
      this.buffer := buffer;
      receiving, size, expected, sequence, blockRemaining := false, 0, 0, 0, 0;
      timerStart, ignored, error := 0, 0, NoError;
    }

    method Reset()
      requires Valid()
      modifies this
      ensures Valid() && State() == old(State()).(receiving := false, data := [])
    {
      receiving, size := false, 0;
    }

    method OnFrame(cfg: Config, f: Frame, now: u32, out: array<byte>) returns (action: RxAction, dlc: nat)
      requires Valid() && |f| <= FRAME_LEN && out.Length == FRAME_LEN && out != buffer
      modifies this, buffer, out
      ensures Valid()
      ensures State() == RxOnFrame(cfg, buffer.Length, old(State()), f, now).state
      ensures action == RxOnFrame(cfg, buffer.Length, old(State()), f, now).action
      ensures action == RxSendFlowControl ==>
                dlc <= FRAME_LEN && out[..dlc] == RxOnFrame(cfg, buffer.Length, old(State()), f, now).frame
    {
      hide DecodePci, FlowControlFrame, RxFirst, RxConsecutive;
      dlc := 0;
      match DecodePci(cfg, f)
      case Single(payload) =>
        forall i | 0 <= i < |payload| { buffer[i] := payload[i]; }
        size, receiving := |payload|, false;
        assert buffer[..size] == payload;
        action := RxMessageComplete;
      case First(length, payload) =>
        action, dlc := OnFirst(cfg, length, payload, now, out);
      case Consecutive(got, payload) =>
        action, dlc := OnConsecutive(cfg, got, payload, now, out);
      case FlowControl(_, _, _) =>
        action := RxNothing;
      case Invalid =>
        ignored := (ignored + 1) % WRAP;
        action := RxNothing;
    }

    method OnFirst(cfg: Config, length: nat, payload: seq<byte>, now: u32, out: array<byte>)
      returns (action: RxAction, dlc: nat)
      requires Valid() && |payload| <= Min(length, 8) && out.Length == FRAME_LEN && out != buffer
      modifies this, buffer, out
      ensures Valid()
      ensures State() == RxFirst(cfg, buffer.Length, old(State()), length, payload, now).state
      ensures action == RxFirst(cfg, buffer.Length, old(State()), length, payload, now).action
      ensures dlc <= FRAME_LEN && out[..dlc] == RxFirst(cfg, buffer.Length, old(State()), length, payload, now).frame
    {
      hide FlowControlFrame;
      action := RxSendFlowControl;
      if length > buffer.Length {
        dlc := EncodeFlowControl(cfg, BufferOverflow, 0, 0, out);
        receiving, error := false, OverflowLocal;
      } else {
        forall i | 0 <= i < |payload| { buffer[i] := payload[i]; }
        size, expected, sequence, receiving := |payload|, length, 0, true;
        blockRemaining, timerStart := cfg.blockSize, now;
        assert buffer[..size] == payload;
        dlc := EncodeFlowControl(cfg, Continue, cfg.blockSize, cfg.stMinRaw, out);
      }
    }

    method OnConsecutive(cfg: Config, got: byte, payload: seq<byte>, now: u32, out: array<byte>)
      returns (action: RxAction, dlc: nat)
      requires Valid() && out.Length == FRAME_LEN && out != buffer
      modifies this, buffer, out
      ensures Valid()
      ensures State() == RxConsecutive(cfg, old(State()), got, payload, now).state
      ensures action == RxConsecutive(cfg, old(State()), got, payload, now).action
      ensures action == RxSendFlowControl ==>
                dlc <= FRAME_LEN && out[..dlc] == RxConsecutive(cfg, old(State()), got, payload, now).frame
    {
      hide FlowControlFrame;
      dlc := 0;
      if !receiving {
        ignored := (ignored + 1) % WRAP;
        return RxNothing, 0;
      }
      var want := NextSequence(sequence);
      if got != want {
        receiving, error := false, WrongSequence;
        return RxFailed, 0;
      }
      sequence := want;
      var take := Min(|payload|, expected - size);
      ghost var before := buffer[..size];
      forall i | 0 <= i < take { buffer[size + i] := payload[i]; }
      size := size + take;
      assert buffer[..size] == before + payload[..take];
      timerStart := now;
      action := RxNothing;
      if size >= expected {
        receiving, action := false, RxMessageComplete;
      } else if blockRemaining != 0 {
        blockRemaining := blockRemaining - 1;
        if blockRemaining == 0 {
          blockRemaining := cfg.blockSize;
          dlc := EncodeFlowControl(cfg, Continue, cfg.blockSize, cfg.stMinRaw, out);
          action := RxSendFlowControl;
        }
      }
    }

    method Poll(cfg: Config, now: u32) returns (action: RxAction)
      requires Valid()
      modifies this
      ensures Valid()
      ensures State() == RxPoll(cfg, old(State()), now).state && action == RxPoll(cfg, old(State()), now).action
    {
      if receiving && Elapsed(now, timerStart) >= cfg.nCrMs {
        receiving, error := false, TimeoutCf;
        return RxFailed;
      }
      action := RxNothing;
    }
  }
}
