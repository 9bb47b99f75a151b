/** The CCP master as it runs: fields changed event by event, each method computing the corresponding
    function of the hub. The loops are the layout arithmetic and the slicing of a sample. */
module CcpMasters {
  import opened Words
  import opened CcpHub

  method DaqTotalSize(fields: seq<FieldSpec>) returns (total: nat)
    ensures total == TotalSize(fields)
  {
    total := 0;
    var i := 0;
    while i < |fields|
      invariant 0 <= i <= |fields| && total == TotalSize(fields[..i])
    {
      assert fields[..i + 1][..i] == fields[..i];
      total := (total + fields[i].size) % 0x1_0000;
      i := i + 1;
    }
    assert fields[..i] == fields;
  }

  method DaqFieldOffset(layout: seq<FieldSpec>, index: nat) returns (offset: byte)
    ensures offset == Offset(layout, index)
  {
    if index >= |layout| {
      return 0;
    }
    offset := 1;
    var i := 0;
    while i < index
      invariant 0 <= i <= index && offset == OffsetFrom(layout, i)
    {
      offset := (offset + layout[i].size) % 0x100;
      i := i + 1;
    }
  }

  method HasEmptyField(fields: seq<FieldSpec>) returns (found: bool)
    ensures found <==> exists i :: 0 <= i < |fields| && fields[i].size == 0
  {
    var i := 0;
    while i < |fields|
      invariant 0 <= i <= |fields| && forall k :: 0 <= k < i ==> fields[k].size != 0
    {
      if fields[i].size == 0 {
        return true;
      }
      i := i + 1;
    }
    found := false;
  }

  /** Every requested field's bytes, or none when the frame is too short for one of them. */
  method TakeSample(p: Plan, frame: Bytes) returns (valid: bool, values: seq<Bytes>)
    ensures valid <==> CarriesAll(p, frame)
    ensures valid ==> values == Slices(p, frame)
  {
    valid, values := true, [];
    var i := 0;
    while i < |p.request.fields|
      invariant 0 <= i <= |p.request.fields| && |values| == i
      invariant forall k :: 0 <= k < i ==> FrameCarries(p, frame, k) && values[k] == Slice(p, frame, k)
    {
      var at := FirstField(p) + i;
      var offset := DaqFieldOffset(p.layout, at);
      if at >= |p.layout| || offset + p.layout[at].size > |frame| {
        assert !FrameCarries(p, frame, i);
        return false, values;
      }
      values := values + [frame[offset..offset + p.layout[at].size]];
      i := i + 1;
    }
  }

  class CcpMaster {
    const allowWrite: bool
    const anchor: Option<Anchor>
    const port: nat -> bool
    var enabled: bool
    var connected: bool
    var ctr: byte
    var inFlight: Option<Pending>
    var daq: Daq
    var mem: Mem
    var injects: nat
    var accepted: nat
    ghost var sent: seq<Pending>
    ghost var fired: seq<Daq>
    ghost var delivered: seq<Bytes>
    ghost var written: seq<bool>

    ghost function State(): Hub
      reads this
    {
      Hub(enabled, allowWrite, anchor, connected, ctr, inFlight, daq, mem, port, injects, sent, accepted, fired, delivered, written)
    }

    constructor (allowWrite: bool, anchor: Option<Anchor>, port: nat -> bool, idle: Daq)
      ensures State() == Hub(true, allowWrite, anchor, false, 0, None, idle.(active := false, collecting := false),
                             Mem(0, [], false, [], 0, false), port, 0, [], 0, [], [], [])
    {
      this.allowWrite, this.anchor, this.port := allowWrite, anchor, port;
      enabled, connected, ctr, inFlight := true, false, 0, None;
      daq, mem := idle.(active := false, collecting := false), Mem(0, [], false, [], 0, false);
      injects, accepted, sent, fired, delivered, written := 0, 0, [], [], [], [];
    }

    /** One outstanding command; the counter moves on even when the port refuses the frame. */
    method SendCommand(cro: Cro, cont: Cont) returns (ok: bool)
      modifies this
      ensures (State(), ok) == Send(old(State()), cro, cont)
    {
      if !enabled || (IsWrite(cro) && !allowWrite) || inFlight.Some? {
        return false;
      }
      var mine := ctr;
      ctr := (ctr + 1) % 0x100;
      ok := port(injects);
      injects := injects + 1;
      if ok {
        inFlight := Some(Pending(cro, mine, cont));
        sent := sent + [Pending(cro, mine, cont)];
      }
    }

    method FireDone()
      modifies this
      ensures State() == Fire(old(State()))
    {
      if daq.active {
        fired := fired + [daq];
        daq := daq.(active := false, collecting := false);
      }
    }

    method SendClearStatus()
      modifies this
      ensures State() == ClearStatus(old(State()))
    {
      hide Send;
      daq := daq.(clearTried := true);
      var ok := SendCommand(SetSStatus(0), StatusCleared);
      if !ok {
        FireDone();
      }
    }

    method TearDown()
      modifies this
      ensures State() == Teardown(old(State()))
    {
      hide Send, ClearStatus;
      daq := daq.(stopAllTried := true);
      var ok := SendCommand(StartStopAll, AllStopped);
      if !ok {
        SendClearStatus();
      }
    }

    method CompleteRead(step: Option<Step>)
      modifies this
      ensures State() == Complete(old(State()), step)
    {
      hide Teardown;
      if !daq.active {
        return;
      }
      var failed := daq.failed;
      if failed.None? {
        failed := step;
        if failed.None? && daq.plan.anchored && daq.anchorOk == 0 {
          failed := Some(AtAnchor);
        }
        if failed.None? && !daq.valid {
          failed := Some(AtSample);
        }
      }
      daq := daq.(collecting := false, failed := failed, ok := failed.None?);
      TearDown();
    }

    method SendStep(cro: Cro, cont: Cont, step: Step)
      modifies this
      ensures State() == DaqStep(old(State()), cro, cont, step)
    {
      ghost var was := State();
      assert DaqStep(was, cro, cont, step) ==
        if Send(was, cro, cont).1 then Send(was, cro, cont).0 else Complete(Send(was, cro, cont).0, Some(step));
      hide Send, Complete, DaqStep;
      var ok := SendCommand(cro, cont);
      if !ok {
        CompleteRead(Some(step));
      }
    }

    method SendField(index: nat)
      modifies this
      ensures State() == WriteField(old(State()), index)
    {
      hide DaqStep;
      if index >= |daq.plan.layout| {
        SendStep(SetSStatus(0x82), StatusDone, AtStatus);
      } else {
        SendStep(WriteDaq(daq.plan.layout[index]), FieldDone(index), AtField);
      }
    }

    method OnDaqFrame(frame: Bytes)
      modifies this
      ensures State() == HandleDaqFrame(old(State()), frame)
    {
      hide Complete, Sampled;
      if !daq.collecting || frame == [] || frame[0] != 0 {
        return;
      }
      daq := Sample(frame);
      if daq.framesSeen >= daq.plan.request.samples {
        CompleteRead(None);
      }
    }

    method Sample(frame: Bytes) returns (d: Daq)
      ensures d == Sampled(daq, anchor, frame)
    {
      hide Offset, CarriesAll, Slices, AnchorMatches;
      var p := daq.plan;
      var valid, anchorOk := true, daq.anchorOk;
      if p.anchored {
        var offset := DaqFieldOffset(p.layout, 0);
        valid := anchor.Some? && AnchorMatches(frame, offset, anchor.value.expected);
        if valid {
          anchorOk := anchorOk + 1;
        }
      }
      d := daq.(framesSeen := daq.framesSeen + 1, frames := daq.frames + [frame], anchorOk := anchorOk);
      if valid {
        var whole, values := TakeSample(p, frame);
        if whole {
          d := d.(values := values, valid := true);
        }
      }
    }

    method StartDaqRead(r: DaqRequest) returns (ok: bool)
      modifies this
      ensures (State(), ok) == DaqRead(old(State()), r)
    {
      hide Send, TotalSize;
      if r.fields == [] {
        return false;
      }
      var empty := HasEmptyField(r.fields);
      if empty || (r.requireAnchor && anchor.None?) || !allowWrite || inFlight.Some? || daq.active {
        return false;
      }
      var anchored := r.requireAnchor && anchor.Some?;
      var layout := if anchored then [anchor.value.field] + r.fields else r.fields;
      var total := DaqTotalSize(layout);
      if total > ODT_PAYLOAD {
        return false;
      }
      daq := Daq(true, false, Plan(r, anchored, layout), [], false, 0, 0, None, false, [], false, false);
      ok := SendCommand(GetDaqSize(r.list, r.dtoId), SizeDone);
      if ok {
        accepted := accepted + 1;
      } else {
        daq := daq.(active := false);
      }
    }

    method FailTransfer()
      modifies this
      ensures State() == FailSequence(old(State()))
    {
      if mem.remaining != 0 {
        mem := mem.(remaining := 0, got := [], reading := false);
      }
      if mem.toWrite != [] {
        if mem.writing {
          written := written + [false];
        }
        mem := mem.(toWrite := [], offset := 0, writing := false);
      }
    }

    method StartReadMemory(ext: byte, address: u32, len: nat) returns (ok: bool)
      modifies this
      ensures (State(), ok) == ReadMemory(old(State()), ext, address, len)
    {
      hide Send;
      if len == 0 || inFlight.Some? || mem.remaining != 0 {
        return false;
      }
      mem := mem.(remaining := len, got := [], reading := true);
      ok := SendCommand(SetMta(ext, address), ReadMtaDone);
    }

    method MoveReadOn(ok: bool, data: Bytes)
      modifies this
      ensures State() == ContinueRead(old(State()), ok, data)
    {
      hide Send, FailSequence;
      var n := ReadChunk(mem.remaining);
      if !ok || |data| < n {
        FailTransfer();
        return;
      }
      mem := mem.(got := mem.got + data[..n], remaining := mem.remaining - n);
      if mem.remaining == 0 {
        if mem.reading {
          delivered := delivered + [mem.got];
        }
        mem := mem.(got := [], reading := false);
        return;
      }
      var more := SendCommand(Upload(ReadChunk(mem.remaining)), ReadDone);
    }

    method StartWriteMemory(ext: byte, address: u32, data: Bytes) returns (ok: bool)
      modifies this
      ensures (State(), ok) == WriteMemory(old(State()), ext, address, data)
    {
      hide Send;
      if data == [] || inFlight.Some? || !allowWrite {
        return false;
      }
      mem := mem.(toWrite := data, offset := 0, writing := true);
      ok := SendCommand(SetMta(ext, address), WriteDone);
    }

    method MoveWriteOn(ok: bool)
      modifies this
      ensures State() == ContinueWrite(old(State()), ok)
    {
      hide Send, FailSequence;
      if !ok {
        FailTransfer();
        return;
      }
      if mem.offset >= |mem.toWrite| {
        if mem.writing {
          written := written + [true];
        }
        mem := mem.(toWrite := [], writing := false);
        return;
      }
      var n := Min(|mem.toWrite| - mem.offset, 6);
      var data := mem.toWrite[mem.offset..mem.offset + n];
      mem := mem.(offset := mem.offset + n);
      var more := SendCommand(Dnload(data), WriteDone);
    }

    /** Runs the stored continuation. */
    method Resume(cont: Cont, ok: bool, data: Bytes)
      modifies this
      ensures State() == Continue(old(State()), cont, ok, data)
    {
      hide Send, Complete, DaqStep, WriteField, ClearStatus, Fire, ContinueRead, ContinueWrite, FailSequence;
      var r := daq.plan.request;
      match cont
      case NoCont | ConnectDone =>
      case ReadMtaDone =>
        if ok {
          var more := SendCommand(Upload(ReadChunk(mem.remaining)), ReadDone);
        } else {
          FailTransfer();
        }
      case ReadDone => MoveReadOn(ok, data);
      case WriteDone => MoveWriteOn(ok);
      case SizeDone => if ok { SendStep(SetDaqPtr(r.list), PtrDone, AtPtr); } else { CompleteRead(Some(AtSize)); }
      case PtrDone => if ok { SendField(0); } else { CompleteRead(Some(AtPtr)); }
      case FieldDone(index) => if ok { SendField(index + 1); } else { CompleteRead(Some(AtField)); }
      case StatusDone =>
        if ok { SendStep(StartStop(r.list, r.event, r.rate), StartDone, AtStart); } else { CompleteRead(Some(AtStatus)); }
      case StartDone => if ok { daq := daq.(collecting := true); } else { CompleteRead(Some(AtStart)); }
      case AllStopped => SendClearStatus();
      case StatusCleared => FireDone();
    }

    method CallInto(call: Call)
      modifies this
      ensures State() == Called(old(State()), call)
    {
      hide Send, DaqRead, ReadMemory, WriteMemory;
      var ok;
      match call
      case Command(cro) => ok := SendCommand(cro, NoCont);
      case StartRead(ext, address, len) => ok := StartReadMemory(ext, address, len);
      case StartWrite(ext, address, data) => ok := StartWriteMemory(ext, address, data);
      case StartDaq(r) => ok := StartDaqRead(r);
      case ConnectAnd =>
        if !connected {
          ok := SendCommand(Connect, ConnectDone);
        }
    }

    method CallAll(calls: seq<Call>)
      modifies this
      ensures State() == Handled(old(State()), calls)
    {
      hide Called;
      var i := 0;
      while i < |calls|
        invariant 0 <= i <= |calls| && Handled(State(), calls[i..]) == Handled(old(State()), calls)
      {
        assert calls[i..][0] == calls[i] && calls[i..][1..] == calls[i + 1..];
        CallInto(calls[i]);
        i := i + 1;
      }
    }

    /** The slot is free before anyone hears of the answer: handlers first, then the continuation. */
    method FinishCommand(ok: bool, data: Bytes, handlers: Handlers)
      requires inFlight.Some?
      modifies this
      ensures State() == Finish(old(State()), ok, data, handlers)
    {
      hide Handled, Continue;
      var p := inFlight.value;
      inFlight := None;
      CallAll(handlers.first);
      if ok && p.cro == Connect {
        connected := true;
        CallAll(handlers.onConnect);
      }
      if ok && p.cro == Disconnect {
        connected := false;
      }
      Resume(p.cont, ok, data);
    }

    method OnCanFrame(frame: Bytes, handlers: Handlers)
      modifies this
      ensures State() == OnFrame(old(State()), frame, handlers)
    {
      hide Handled, HandleDaqFrame, Finish;
      match DecodeDto(frame)
      case Invalid =>
      case DaqFrame(_) =>
        CallAll(handlers.first);
        OnDaqFrame(frame);
      case Response(code, ctr, data) =>
        if inFlight.Some? && inFlight.value.ctr == ctr {
          FinishCommand(code == 0, data, handlers);
        }
    }
  }
}
