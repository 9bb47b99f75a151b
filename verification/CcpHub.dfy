/** The CCP master as a value: one outstanding command, and what its answer continues with. Callbacks
    stored in the hub become a name of the continuation, run by one function. */
module CcpHub {
  import opened Words

  type Bytes = seq<byte>

  const RESPONSE_MARKER: byte := 0xFF
  const MAX_TRANSFER := 5
  const ODT_PAYLOAD := 7
  const FRAME_LEN := 8

  datatype FieldSpec = FieldSpec(size: byte, ext: byte, address: u32)

  /** A command as its parameters; `Plain` stands for any command that no sequence uses. */
  datatype Cro =
    | Connect
    | Disconnect
    | SetMta(ext: byte, address: u32)
    | Upload(size: nat)
    | Dnload(data: Bytes)
    | GetDaqSize(list: byte, dtoId: u32)
    | SetDaqPtr(list: byte)
    | WriteDaq(field: FieldSpec)
    | SetSStatus(status: byte)
    | StartStop(list: byte, event: byte, rate: nat)
    | StartStopAll
    | Plain(code: byte, writes: bool)

  /** Commands that change memory or calibration, refused unless writes are enabled. `Dnload` covers the
      five-byte and the six-byte form. */
  predicate IsWrite(c: Cro) {
    c.Dnload? || c.WriteDaq? || (c.Plain? && c.writes)
  }

  datatype Cont =
    | NoCont | ConnectDone
    | ReadMtaDone | ReadDone | WriteDone
    | SizeDone | PtrDone | FieldDone(index: nat) | StatusDone | StartDone
    | AllStopped | StatusCleared

  datatype Pending = Pending(cro: Cro, ctr: byte, cont: Cont)

  datatype DaqRequest = DaqRequest(
    fields: seq<FieldSpec>, list: byte, dtoId: u32, event: byte, rate: nat, samples: nat, requireAnchor: bool)

  datatype Anchor = Anchor(field: FieldSpec, expected: Bytes)

  datatype Step = AtSize | AtPtr | AtField | AtStatus | AtStart | AtCollect | AtAnchor | AtSample

  /** What a DAQ read asked for: its layout starts with the anchor when one is required. */
  datatype Plan = Plan(request: DaqRequest, anchored: bool, layout: seq<FieldSpec>)

  /** One DAQ read in progress. `frames` and the two `tried` flags are history: the DTO frames looked at,
      and which stop commands were attempted. */
  datatype Daq = Daq(
    active: bool, collecting: bool, plan: Plan,
    values: seq<Bytes>, valid: bool, framesSeen: nat, anchorOk: nat, failed: Option<Step>, ok: bool,
    frames: seq<Bytes>, stopAllTried: bool, clearTried: bool)

  /** The memory helpers' fields; the two flags say whether a callback is stored. */
  datatype Mem = Mem(remaining: nat, got: Bytes, reading: bool, toWrite: Bytes, offset: nat, writing: bool)

  /** `port` answers the k-th attempt to hand a frame to the CAN port. The last five are histories: frames
      sent with their counters, DAQ reads accepted and finished, data given to read callbacks, write verdicts. */
  datatype Hub = Hub(
    enabled: bool, allowWrite: bool, anchor: Option<Anchor>, connected: bool, ctr: byte, inFlight: Option<Pending>,
    daq: Daq, mem: Mem, port: nat -> bool, injects: nat,
    sent: seq<Pending>, accepted: nat, fired: seq<Daq>, delivered: seq<Bytes>, written: seq<bool>)

  // ----- sending -----

  function Send(h: Hub, cro: Cro, cont: Cont): (r: (Hub, bool))
    ensures r.0 == h.(ctr := r.0.ctr, injects := r.0.injects, inFlight := r.0.inFlight, sent := r.0.sent)
    ensures r.1 ==> r.0.inFlight == Some(Pending(cro, h.ctr, cont)) && r.0.sent == h.sent + [Pending(cro, h.ctr, cont)]
    ensures !r.1 ==> r.0.inFlight == h.inFlight && r.0.sent == h.sent
    ensures r.1 <==> h.enabled && (IsWrite(cro) ==> h.allowWrite) && h.inFlight.None? && h.port(h.injects)
  {
    if !h.enabled || (IsWrite(cro) && !h.allowWrite) || h.inFlight.Some? then (h, false)
    else
      var h1 := h.(ctr := (h.ctr + 1) % 0x100, injects := h.injects + 1);
      if !h.port(h.injects) then (h1, false)
      else
        var p := Pending(cro, h.ctr, cont);
        (h1.(inFlight := Some(p), sent := h.sent + [p]), true)
  }

  // ----- the DAQ read -----

  function Fire(h: Hub): Hub {
    if !h.daq.active then h
    else h.(fired := h.fired + [h.daq], daq := h.daq.(active := false, collecting := false))
  }

  function ClearStatus(h: Hub): Hub {
    var h1 := h.(daq := h.daq.(clearTried := true));
    var (h2, sent) := Send(h1, SetSStatus(0), StatusCleared);
    if sent then h2 else Fire(h2)
  }

  function Teardown(h: Hub): Hub {
    var h1 := h.(daq := h.daq.(stopAllTried := true));
    var (h2, sent) := Send(h1, StartStopAll, AllStopped);
    if sent then h2 else ClearStatus(h2)
  }

  /** Why a read that got to its sample target is still not good. */
  function Verdict(d: Daq, step: Option<Step>): Option<Step> {
    if step.Some? then step
    else if d.plan.anchored && d.anchorOk == 0 then Some(AtAnchor)
    else if !d.valid then Some(AtSample)
    else None
  }

  function Complete(h: Hub, step: Option<Step>): Hub {
    if !h.daq.active then h
    else
      var failed := if h.daq.failed.Some? then h.daq.failed else Verdict(h.daq, step);
      Teardown(h.(daq := h.daq.(collecting := false, failed := failed, ok := failed.None?)))
  }

  function DaqStep(h: Hub, cro: Cro, cont: Cont, step: Step): Hub {
    var (h1, sent) := Send(h, cro, cont);
    if sent then h1 else Complete(h1, Some(step))
  }

  function WriteField(h: Hub, index: nat): Hub {
    if index >= |h.daq.plan.layout| then DaqStep(h, SetSStatus(0x82), StatusDone, AtStatus)
    else DaqStep(h, WriteDaq(h.daq.plan.layout[index]), FieldDone(index), AtField)
  }

  /** Layout sizes are added in sixteen bits and offsets in eight, as the target does. */
  function TotalSize(fields: seq<FieldSpec>): nat {
    if fields == [] then 0 else (TotalSize(fields[..|fields| - 1]) + fields[|fields| - 1].size) % 0x1_0000
  }

  function Offset(layout: seq<FieldSpec>, index: nat): byte {
    if index >= |layout| then 0 else OffsetFrom(layout, index)
  }

  function OffsetFrom(layout: seq<FieldSpec>, index: nat): byte
    requires index <= |layout|
  {
    if index == 0 then 1 else (OffsetFrom(layout, index - 1) + layout[index - 1].size) % 0x100
  }

  predicate AnchorMatches(frame: Bytes, offset: byte, expected: Bytes) {
    offset + |expected| <= |frame| && frame[offset..offset + |expected|] == expected
  }

  /** First requested field in the layout: after the anchor, if there is one. */
  function FirstField(p: Plan): nat { if p.anchored then 1 else 0 }

  predicate FrameCarries(p: Plan, frame: Bytes, i: nat) {
    FirstField(p) + i < |p.layout| &&
    Offset(p.layout, FirstField(p) + i) + p.layout[FirstField(p) + i].size <= |frame|
  }

  function Slice(p: Plan, frame: Bytes, i: nat): Bytes
    requires FrameCarries(p, frame, i)
  {
    var at := FirstField(p) + i;
    frame[Offset(p.layout, at)..Offset(p.layout, at) + p.layout[at].size]
  }

  predicate Anchored(p: Plan, anchor: Option<Anchor>, frame: Bytes) {
    p.anchored ==> anchor.Some? && AnchorMatches(frame, Offset(p.layout, 0), anchor.value.expected)
  }

  predicate CarriesAll(p: Plan, frame: Bytes) {
    forall i :: 0 <= i < |p.request.fields| ==> FrameCarries(p, frame, i)
  }

  function Slices(p: Plan, frame: Bytes): seq<Bytes>
    requires CarriesAll(p, frame)
  {
    seq(|p.request.fields|, i requires 0 <= i < |p.request.fields| => Slice(p, frame, i))
  }

  function Sampled(d: Daq, anchor: Option<Anchor>, frame: Bytes): Daq {
    var matched := Anchored(d.plan, anchor, frame);
    var d1 := d.(framesSeen := d.framesSeen + 1, frames := d.frames + [frame],
                 anchorOk := if d.plan.anchored && matched then d.anchorOk + 1 else d.anchorOk);
    if matched && CarriesAll(d.plan, frame) then d1.(values := Slices(d.plan, frame), valid := true) else d1
  }

  function HandleDaqFrame(h: Hub, frame: Bytes): Hub {
    if !h.daq.collecting || frame == [] || frame[0] != 0 then h
    else
      var h1 := h.(daq := Sampled(h.daq, h.anchor, frame));
      if h1.daq.framesSeen >= h1.daq.plan.request.samples then Complete(h1, None) else h1
  }

  function DaqRead(h: Hub, r: DaqRequest): (Hub, bool) {
    var anchored := r.requireAnchor && h.anchor.Some?;
    var layout := if anchored then [h.anchor.value.field] + r.fields else r.fields;
    if r.fields == [] || (exists i :: 0 <= i < |r.fields| && r.fields[i].size == 0)
       || (r.requireAnchor && h.anchor.None?) || !h.allowWrite || h.inFlight.Some? || h.daq.active
       || TotalSize(layout) > ODT_PAYLOAD
    then (h, false)
    else
      var d := Daq(true, false, Plan(r, anchored, layout), [], false, 0, 0, None, false, [], false, false);
      var (h1, sent) := Send(h.(daq := d), GetDaqSize(r.list, r.dtoId), SizeDone);
      if sent then (h1.(accepted := h.accepted + 1), true) else (h1.(daq := h1.daq.(active := false)), false)
  }

  // ----- memory -----

  function ReadChunk(remaining: nat): nat { Min(remaining, MAX_TRANSFER) }

  /** A write's callback hears of the failure; a read's is dropped. */
  function FailSequence(h: Hub): Hub {
    var h1 := if h.mem.remaining != 0 then h.(mem := h.mem.(remaining := 0, got := [], reading := false)) else h;
    if h.mem.toWrite == [] then h1
    else h1.(mem := h1.mem.(toWrite := [], offset := 0, writing := false),
             written := if h.mem.writing then h.written + [false] else h.written)
  }

  function ReadMemory(h: Hub, ext: byte, address: u32, len: nat): (Hub, bool) {
    if len == 0 || h.inFlight.Some? || h.mem.remaining != 0 then (h, false)
    else Send(h.(mem := h.mem.(remaining := len, got := [], reading := true)), SetMta(ext, address), ReadMtaDone)
  }

  function ContinueRead(h: Hub, ok: bool, data: Bytes): Hub {
    var n := ReadChunk(h.mem.remaining);
    if !ok || |data| < n then FailSequence(h)
    else
      var got := h.mem.got + data[..n];
      if h.mem.remaining == n then
        h.(mem := h.mem.(remaining := 0, got := [], reading := false),
           delivered := if h.mem.reading then h.delivered + [got] else h.delivered)
      else
        var h1 := h.(mem := h.mem.(remaining := h.mem.remaining - n, got := got));
        Send(h1, Upload(ReadChunk(h1.mem.remaining)), ReadDone).0
  }

  function WriteMemory(h: Hub, ext: byte, address: u32, data: Bytes): (Hub, bool) {
    if data == [] || h.inFlight.Some? || !h.allowWrite then (h, false)
    else Send(h.(mem := h.mem.(toWrite := data, offset := 0, writing := true)), SetMta(ext, address), WriteDone)
  }

  /** The data is dropped at the end, its offset is not; the next write resets that. */
  function ContinueWrite(h: Hub, ok: bool): Hub {
    var m := h.mem;
    if !ok then FailSequence(h)
    else if m.offset >= |m.toWrite| then
      h.(mem := m.(toWrite := [], writing := false), written := if m.writing then h.written + [true] else h.written)
    else
      var n := Min(|m.toWrite| - m.offset, 6);
      Send(h.(mem := m.(offset := m.offset + n)), Dnload(m.toWrite[m.offset..m.offset + n]), WriteDone).0
  }

  // ----- answers -----

  /** What the answer to a command continues with. */
  function Continue(h: Hub, cont: Cont, ok: bool, data: Bytes): Hub {
    match cont
    case NoCont | ConnectDone => h
    case ReadMtaDone =>
      if !ok then FailSequence(h) else Send(h, Upload(ReadChunk(h.mem.remaining)), ReadDone).0
    case ReadDone => ContinueRead(h, ok, data)
    case WriteDone => ContinueWrite(h, ok)
    case SizeDone => if !ok then Complete(h, Some(AtSize)) else DaqStep(h, SetDaqPtr(h.daq.plan.request.list), PtrDone, AtPtr)
    case PtrDone => if !ok then Complete(h, Some(AtPtr)) else WriteField(h, 0)
    case FieldDone(index) => if !ok then Complete(h, Some(AtField)) else WriteField(h, index + 1)
    case StatusDone =>
      if !ok then Complete(h, Some(AtStatus))
      else DaqStep(h, StartStop(h.daq.plan.request.list, h.daq.plan.request.event, h.daq.plan.request.rate), StartDone, AtStart)
    case StartDone => if !ok then Complete(h, Some(AtStart)) else h.(daq := h.daq.(collecting := true))
    case AllStopped => ClearStatus(h)
    case StatusCleared => Fire(h)
  }

  /** Entry points an application may call, also from the handlers that run before a continuation. */
  datatype Call =
    | Command(cro: Cro)
    | StartRead(ext: byte, address: u32, len: nat)
    | StartWrite(ext: byte, address: u32, data: Bytes)
    | StartDaq(request: DaqRequest)
    | ConnectAnd

  function Called(h: Hub, call: Call): Hub {
    match call
    case Command(cro) => Send(h, cro, NoCont).0
    case StartRead(ext, address, len) => ReadMemory(h, ext, address, len).0
    case StartWrite(ext, address, data) => WriteMemory(h, ext, address, data).0
    case StartDaq(r) => DaqRead(h, r).0
    case ConnectAnd => if h.connected then h else Send(h, Connect, ConnectDone).0
  }

  function Handled(h: Hub, calls: seq<Call>): Hub
    decreases |calls|
  {
    if calls == [] then h else Handled(Called(h, calls[0]), calls[1..])
  }

  /** The calls made by the application's handlers of one event, in order; those of `onConnect` run only
      once a connection is up. What other callbacks call runs last and is an event of its own. */
  datatype Handlers = Handlers(first: seq<Call>, onConnect: seq<Call>)

  const Silent := Handlers([], [])

  /** What the application's handlers leave once the outstanding command is over. */
  function Heard(h: Hub, ok: bool, handlers: Handlers): Hub
    requires h.inFlight.Some?
  {
    var h1 := Handled(h.(inFlight := None), handlers.first);
    if !ok then h1
    else if h.inFlight.value.cro == Connect then Handled(h1.(connected := true), handlers.onConnect)
    else if h.inFlight.value.cro == Disconnect then h1.(connected := false) else h1
  }

  /** The slot is free and the handlers have run before the continuation does. */
  function Finish(h: Hub, ok: bool, data: Bytes, handlers: Handlers): Hub
    requires h.inFlight.Some?
  {
    Continue(Heard(h, ok, handlers), h.inFlight.value.cont, ok, data)
  }

  datatype Dto = Invalid | Response(code: byte, ctr: byte, data: Bytes) | DaqFrame(pid: byte)

  function DecodeDto(frame: Bytes): Dto {
    if frame == [] then Invalid
    else if frame[0] != RESPONSE_MARKER then DaqFrame(frame[0])
    else if |frame| < 3 then Invalid
    else Response(frame[1], frame[2], frame[3..])
  }

  function OnFrame(h: Hub, frame: Bytes, handlers: Handlers): Hub {
    match DecodeDto(frame)
    case Invalid => h
    case DaqFrame(_) => HandleDaqFrame(Handled(h, handlers.first), frame)
    case Response(code, ctr, data) =>
      if h.inFlight.None? || h.inFlight.value.ctr != ctr then h else Finish(h, code == 0, data, handlers)
  }
}
