/** The life of a DAQ read, over every run: while it is active exactly one thing will move it on, its done
    callback fires once and only after both stop commands were attempted, and a good result is one
    sample of one frame. */
module CcpDaq {
  import opened Words
  import opened CcpHub

  predicate IsChain(c: Cont) { c.SizeDone? || c.PtrDone? || c.FieldDone? || c.StatusDone? || c.StartDone? }

  predicate IsDaqCont(c: Cont) { IsChain(c) || c.AllStopped? || c.StatusCleared? }

  function Current(h: Hub): Cont { if h.inFlight.Some? then h.inFlight.value.cont else NoCont }

  function PlainSum(fields: seq<FieldSpec>, n: nat): nat
    requires n <= |fields|
  {
    if n == 0 then 0 else PlainSum(fields, n - 1) + fields[n - 1].size
  }

  /** The requested fields behind the anchor, if there is one, as the size gate has let them through. */
  ghost predicate PlanOk(p: Plan) {
    p.request.fields != [] && |p.layout| == FirstField(p) + |p.request.fields| && TotalSize(p.layout) <= ODT_PAYLOAD
  }

  /** The value is what the frame holds behind its first byte and all earlier fields of the layout. */
  ghost predicate InPlace(p: Plan, frame: Bytes, i: nat, value: Bytes)
    requires FirstField(p) + i < |p.layout|
  {
    var at := 1 + PlainSum(p.layout, FirstField(p) + i);
    at + p.layout[FirstField(p) + i].size <= |frame| && value == frame[at..at + p.layout[FirstField(p) + i].size]
  }

  /** Each value is in its place, the required anchor comes right behind the first byte, and the layout is
      no larger than what a frame carries. */
  ghost predicate Shows(p: Plan, anchor: Option<Anchor>, frame: Bytes, values: seq<Bytes>) {
    && |p.layout| == FirstField(p) + |p.request.fields| && |values| == |p.request.fields|
    && PlainSum(p.layout, |p.layout|) <= ODT_PAYLOAD
    && (forall i :: 0 <= i < |values| ==> InPlace(p, frame, i, values[i]))
    && (p.anchored ==> anchor.Some? && AnchorMatches(frame, 1, anchor.value.expected))
  }

  /** The frame holds the whole layout and, right behind its first byte, a required anchor. */
  predicate GoodFrame(p: Plan, anchor: Option<Anchor>, frame: Bytes) {
    AnchorIn(p, anchor, frame) && 1 + PlainSum(p.layout, |p.layout|) <= |frame|
  }

  predicate AnchorIn(p: Plan, anchor: Option<Anchor>, frame: Bytes) {
    p.anchored ==> anchor.Some? && AnchorMatches(frame, 1, anchor.value.expected)
  }

  function AnchorsIn(p: Plan, anchor: Option<Anchor>, frames: seq<Bytes>): nat {
    if frames == [] then 0 else AnchorsIn(p, anchor, frames[..|frames| - 1]) + if AnchorIn(p, anchor, frames[|frames| - 1]) then 1 else 0
  }

  ghost predicate NoneGood(p: Plan, anchor: Option<Anchor>, frames: seq<Bytes>, from: nat) {
    forall j :: from <= j < |frames| ==> !GoodFrame(p, anchor, frames[j])
  }

  /** The values are those of the last good frame seen. */
  ghost predicate FromLastGood(p: Plan, anchor: Option<Anchor>, frames: seq<Bytes>, values: seq<Bytes>) {
    exists k :: 0 <= k < |frames| && GoodFrame(p, anchor, frames[k]) && Shows(p, anchor, frames[k], values) && NoneGood(p, anchor, frames, k + 1)
  }

  ghost predicate Evidence(d: Daq, anchor: Option<Anchor>) {
    && d.framesSeen == |d.frames| && (d.active ==> PlanOk(d.plan))
    && d.anchorOk == (if d.plan.anchored then AnchorsIn(d.plan, anchor, d.frames) else 0)
    && (if d.valid then FromLastGood(d.plan, anchor, d.frames, d.values) else NoneGood(d.plan, anchor, d.frames, 0))
  }

  /** A read on its way: nothing stopped, nothing decided. */
  ghost predicate Fresh(d: Daq) { !d.stopAllTried && !d.clearTried && d.failed.None? && !d.ok }

  /** A read whose result is decided: good only with every sample asked for and values to show. */
  ghost predicate Settled(d: Daq) {
    && !d.collecting && d.ok == d.failed.None? && (d.ok ==> d.framesSeen >= d.plan.request.samples && d.valid)
    && (d.failed == Some(AtAnchor) ==> d.framesSeen >= d.plan.request.samples && d.plan.anchored && d.anchorOk == 0)
    && (d.failed == Some(AtSample) ==>
          d.framesSeen >= d.plan.request.samples && !d.valid && (d.plan.anchored ==> d.anchorOk > 0))
  }

  ghost predicate StageOk(d: Daq, c: Cont) {
    && (IsChain(c) ==> Fresh(d))
    && (c.AllStopped? ==> Settled(d) && d.stopAllTried)
    && (c.StatusCleared? ==> Settled(d) && d.stopAllTried && d.clearTried)
  }

  ghost predicate FiredOk(d: Daq, anchor: Option<Anchor>) {
    d.stopAllTried && d.clearTried && Settled(d) && Evidence(d, anchor)
  }

  /** `owed` is a continuation taken off a finished command and not yet run. */
  ghost predicate Inv(h: Hub, owed: Cont) {
    var d, c := h.daq, Current(h);
    && (IsDaqCont(owed) ==> !IsDaqCont(c) && !d.collecting) && (IsDaqCont(c) ==> !d.collecting)
    && (d.active <==> IsDaqCont(owed) || IsDaqCont(c) || d.collecting)
    && StageOk(d, owed) && StageOk(d, c) && (d.collecting ==> Fresh(d))
    && Evidence(d, h.anchor)
    && h.accepted == |h.fired| + (if d.active then 1 else 0)
    && (forall k :: 0 <= k < |h.fired| ==> FiredOk(h.fired[k], h.anchor))
  }

  /** Nobody holds the active read: the moment between its decision and the next command. */
  ghost predicate Orphaned(h: Hub) {
    && h.daq.active && !IsDaqCont(Current(h)) && Settled(h.daq) && Evidence(h.daq, h.anchor)
    && h.accepted == |h.fired| + 1
    && (forall k :: 0 <= k < |h.fired| ==> FiredOk(h.fired[k], h.anchor))
  }

  lemma FireInv(h: Hub)
    requires Orphaned(h) && h.daq.stopAllTried && h.daq.clearTried
    ensures Inv(Fire(h), NoCont) && |Fire(h).fired| == |h.fired| + 1 && !Fire(h).daq.active
  {
    hide FromLastGood;
  }

  lemma ClearStatusInv(h: Hub)
    requires Orphaned(h) && h.daq.stopAllTried
    ensures Inv(ClearStatus(h), NoCont)
  {
    hide FromLastGood, FiredOk;
    var h1 := h.(daq := h.daq.(clearTried := true));
    var (h2, sent) := Send(h1, SetSStatus(0), StatusCleared);
    hide Send;
    if !sent {
      FireInv(h2);
    }
  }

  lemma TeardownInv(h: Hub)
    requires Orphaned(h)
    ensures Inv(Teardown(h), NoCont)
  {
    hide FromLastGood, FiredOk;
    var h1 := h.(daq := h.daq.(stopAllTried := true));
    var (h2, sent) := Send(h1, StartStopAll, AllStopped);
    hide Send;
    if !sent {
      hide ClearStatus;
      ClearStatusInv(h2);
    }
  }

  /** `Complete` may be reached from a consumed chain continuation or from collecting. */
  ghost predicate Completing(h: Hub) {
    && h.daq.active && !IsDaqCont(Current(h)) && Fresh(h.daq) && Evidence(h.daq, h.anchor)
    && h.accepted == |h.fired| + 1
    && (forall k :: 0 <= k < |h.fired| ==> FiredOk(h.fired[k], h.anchor))
  }

  lemma CompleteInv(h: Hub, step: Option<Step>)
    requires Completing(h) && (step.None? ==> h.daq.framesSeen >= h.daq.plan.request.samples)
    requires step != Some(AtAnchor) && step != Some(AtSample)
    ensures Inv(Complete(h, step), NoCont)
  {
    hide FromLastGood, FiredOk, Teardown;
    var failed := Verdict(h.daq, step);
    var h1 := h.(daq := h.daq.(collecting := false, failed := failed, ok := failed.None?));
    TeardownInv(h1);
  }

  lemma DaqStepInv(h: Hub, cro: Cro, cont: Cont, step: Step)
    requires Completing(h) && !h.daq.collecting && IsChain(cont) && step != AtAnchor && step != AtSample
    ensures Inv(DaqStep(h, cro, cont, step), NoCont)
  {
    hide FromLastGood, FiredOk, Complete;
    var (h1, sent) := Send(h, cro, cont);
    hide Send;
    if !sent {
      CompleteInv(h1, Some(step));
    }
  }

  lemma WriteFieldInv(h: Hub, index: nat)
    requires Completing(h) && !h.daq.collecting
    ensures Inv(WriteField(h, index), NoCont)
  {
    hide Inv, DaqStep, Completing;
    if index >= |h.daq.plan.layout| {
      DaqStepInv(h, SetSStatus(0x82), StatusDone, AtStatus);
    } else {
      DaqStepInv(h, WriteDaq(h.daq.plan.layout[index]), FieldDone(index), AtField);
    }
  }

  lemma OwedCompleting(h: Hub, owed: Cont)
    requires Inv(h, owed) && IsDaqCont(owed)
    ensures h.daq.active && !h.daq.collecting
    ensures IsChain(owed) ==> Completing(h)
    ensures owed.AllStopped? ==> Orphaned(h) && h.daq.stopAllTried
    ensures owed.StatusCleared? ==> Orphaned(h) && h.daq.stopAllTried && h.daq.clearTried
  {
    hide FromLastGood, FiredOk;
  }

  lemma StartedInv(h: Hub)
    requires Completing(h) && !h.daq.collecting
    ensures Inv(h.(daq := h.daq.(collecting := true)), NoCont)
  {
    hide FromLastGood, FiredOk;
  }

  lemma ContinueChainInv(h: Hub, owed: Cont, ok: bool, data: Bytes)
    requires Completing(h) && !h.daq.collecting && IsChain(owed)
    ensures Inv(Continue(h, owed, ok, data), NoCont)
  {
    hide Inv, Completing, DaqStep, WriteField, Complete, Send;
    var r := h.daq.plan.request;
    if !ok {
      ChainFails(h, owed, data);
      CompleteInv(h, Some(FailStep(owed)));
    } else {
      match owed
      case SizeDone => DaqStepInv(h, SetDaqPtr(r.list), PtrDone, AtPtr);
      case PtrDone => WriteFieldInv(h, 0);
      case FieldDone(index) => WriteFieldInv(h, index + 1);
      case StatusDone => DaqStepInv(h, StartStop(r.list, r.event, r.rate), StartDone, AtStart);
      case StartDone => StartedInv(h);
    }
  }

  /** The step that an unanswered or refused command of the chain is told as. */
  function FailStep(c: Cont): (step: Step)
    ensures step != AtAnchor && step != AtSample
  {
    match c case SizeDone => AtSize case PtrDone => AtPtr case FieldDone(_) => AtField case StatusDone => AtStatus case _ => AtStart
  }

  lemma ChainFails(h: Hub, c: Cont, data: Bytes)
    requires IsChain(c)
    ensures Continue(h, c, false, data) == Complete(h, Some(FailStep(c)))
  {
    hide Complete, DaqStep, WriteField, Send;
  }

  lemma ContinueDaqInv(h: Hub, owed: Cont, ok: bool, data: Bytes)
    requires Inv(h, owed) && IsDaqCont(owed)
    ensures Inv(Continue(h, owed, ok, data), NoCont)
  {
    OwedCompleting(h, owed);
    hide Inv, Completing, Orphaned, ClearStatus, Fire;
    if IsChain(owed) {
      hide Continue;
      ContinueChainInv(h, owed, ok, data);
    } else if owed.AllStopped? {
      ClearStatusInv(h);
    } else {
      FireInv(h);
    }
  }

  // ----- everything else leaves the read alone -----

  lemma SendInv(h: Hub, owed: Cont, cro: Cro, cont: Cont)
    requires Inv(h, owed) && !IsDaqCont(cont)
    ensures Inv(Send(h, cro, cont).0, owed)
  {
    hide Evidence, FiredOk, Settled;
  }

  /** The read does not depend on the memory helpers, their logs or the connection. */
  lemma MemInv(h: Hub, owed: Cont, q: Hub)
    requires Inv(h, owed)
    requires q == h.(mem := q.mem, written := q.written, delivered := q.delivered, connected := q.connected, enabled := q.enabled)
    ensures Inv(q, owed)
  {
    hide Evidence, FiredOk, Settled;
  }

  lemma ContinueMemInv(h: Hub, owed: Cont, ok: bool, data: Bytes)
    requires Inv(h, owed) && !IsDaqCont(owed)
    ensures Inv(Continue(h, owed, ok, data), NoCont)
  {
    assert Inv(h, NoCont) by { hide Evidence, FiredOk, Settled; }
    hide Inv, Send;
    var m, n := h.mem, ReadChunk(h.mem.remaining);
    MemInv(h, NoCont, FailSequence(h));
    match owed
    case ReadMtaDone => SendInv(h, NoCont, Upload(n), ReadDone);
    case ReadDone => ContinueReadInv(h, ok, data);
    case WriteDone => ContinueWriteInv(h, ok);
    case _ =>
  }

  lemma ContinueReadInv(h: Hub, ok: bool, data: Bytes)
    requires Inv(h, NoCont)
    ensures Inv(ContinueRead(h, ok, data), NoCont)
  {
    hide Inv, Send;
    var m, n := h.mem, ReadChunk(h.mem.remaining);
    if !ok || |data| < n {
      MemInv(h, NoCont, FailSequence(h));
    } else if m.remaining == n {
      MemInv(h, NoCont, ContinueRead(h, ok, data));
    } else {
      var h1 := h.(mem := m.(remaining := m.remaining - n, got := m.got + data[..n]));
      MemInv(h, NoCont, h1);
      SendInv(h1, NoCont, Upload(ReadChunk(h1.mem.remaining)), ReadDone);
    }
  }

  lemma ContinueWriteInv(h: Hub, ok: bool)
    requires Inv(h, NoCont)
    ensures Inv(ContinueWrite(h, ok), NoCont)
  {
    hide Inv, Send;
    var m := h.mem;
    if !ok {
      MemInv(h, NoCont, FailSequence(h));
    } else if m.offset >= |m.toWrite| {
      MemInv(h, NoCont, ContinueWrite(h, ok));
    } else {
      var n := Min(|m.toWrite| - m.offset, 6);
      var h1 := h.(mem := m.(offset := m.offset + n));
      MemInv(h, NoCont, h1);
      SendInv(h1, NoCont, Dnload(m.toWrite[m.offset..m.offset + n]), WriteDone);
    }
  }

  /** A new read is taken only when none is active; a refused first command leaves nothing behind. */
  lemma DaqReadInv(h: Hub, owed: Cont, r: DaqRequest)
    requires Inv(h, owed)
    ensures Inv(DaqRead(h, r).0, owed)
    ensures DaqRead(h, r).1 ==> !h.daq.active && DaqRead(h, r).0.daq.active
  {
    hide FromLastGood, FiredOk, TotalSize;
  }

  lemma CalledInv(h: Hub, owed: Cont, call: Call)
    requires Inv(h, owed)
    ensures Inv(Called(h, call), owed)
  {
    hide Inv, Send, DaqRead;
    match call
    case Command(cro) => SendInv(h, owed, cro, NoCont);
    case StartRead(ext, address, len) =>
      var h1 := h.(mem := h.mem.(remaining := len, got := [], reading := true));
      MemInv(h, owed, h1);
      SendInv(h1, owed, SetMta(ext, address), ReadMtaDone);
    case StartWrite(ext, address, data) =>
      var h1 := h.(mem := h.mem.(toWrite := data, offset := 0, writing := true));
      MemInv(h, owed, h1);
      SendInv(h1, owed, SetMta(ext, address), WriteDone);
    case StartDaq(r) => DaqReadInv(h, owed, r);
    case ConnectAnd => SendInv(h, owed, Connect, ConnectDone);
  }

  lemma {:induction false} HandledInv(h: Hub, owed: Cont, calls: seq<Call>)
    requires Inv(h, owed)
    ensures Inv(Handled(h, calls), owed)
    decreases |calls|
  {
    hide Inv, Called;
    if calls != [] {
      CalledInv(h, owed, calls[0]);
      HandledInv(Called(h, calls[0]), owed, calls[1..]);
    }
  }

  lemma HeardInv(h: Hub, ok: bool, handlers: Handlers)
    requires Inv(h, NoCont) && h.inFlight.Some?
    ensures Inv(Heard(h, ok, handlers), h.inFlight.value.cont)
  {
    var owed, h0 := h.inFlight.value.cont, h.(inFlight := None);
    assert Inv(h0, owed) by { hide Evidence, FiredOk, Settled; }
    hide Inv, Handled;
    HandledInv(h0, owed, handlers.first);
    var h1 := Handled(h0, handlers.first);
    MemInv(h1, owed, h1.(connected := true));
    MemInv(h1, owed, h1.(connected := false));
    HandledInv(h1.(connected := true), owed, handlers.onConnect);
  }

  lemma FinishInv(h: Hub, ok: bool, data: Bytes, handlers: Handlers)
    requires Inv(h, NoCont) && h.inFlight.Some?
    ensures Inv(Finish(h, ok, data, handlers), NoCont)
  {
    var p, h1 := h.inFlight.value, Heard(h, ok, handlers);
    HeardInv(h, ok, handlers);
    hide Inv, Heard, Continue;
    if IsDaqCont(p.cont) { ContinueDaqInv(h1, p.cont, ok, data); } else { ContinueMemInv(h1, p.cont, ok, data); }
  }

  lemma StillLastGood(p: Plan, anchor: Option<Anchor>, frames: seq<Bytes>, values: seq<Bytes>, frame: Bytes)
    requires !GoodFrame(p, anchor, frame)
    ensures FromLastGood(p, anchor, frames, values) ==> FromLastGood(p, anchor, frames + [frame], values)
    ensures NoneGood(p, anchor, frames, 0) ==> NoneGood(p, anchor, frames + [frame], 0)
  {
    hide Shows, GoodFrame;
    if FromLastGood(p, anchor, frames, values) {
      var k :| 0 <= k < |frames| && GoodFrame(p, anchor, frames[k]) && Shows(p, anchor, frames[k], values) && NoneGood(p, anchor, frames, k + 1);
      assert (frames + [frame])[k] == frames[k];
    }
  }

  lemma FromTheLast(p: Plan, anchor: Option<Anchor>, frames: seq<Bytes>, frame: Bytes)
    requires PlanOk(p) && |frame| <= FRAME_LEN && CarriesAll(p, frame) && Anchored(p, anchor, frame)
    ensures FromLastGood(p, anchor, frames + [frame], Slices(p, frame))
  {
    SliceIsTrue(p, anchor, frame);
    GoodIff(p, anchor, frame);
    hide CarriesAll, Anchored, Slices, Shows, GoodFrame;
    assert (frames + [frame])[|frames|] == frame;
  }

  /** The frames the hub takes are the good ones. */
  lemma GoodIff(p: Plan, anchor: Option<Anchor>, frame: Bytes)
    requires PlanOk(p) && |frame| <= FRAME_LEN
    ensures Anchored(p, anchor, frame) <==> AnchorIn(p, anchor, frame)
    ensures Anchored(p, anchor, frame) && CarriesAll(p, frame) <==> GoodFrame(p, anchor, frame)
  {
    assert Offset(p.layout, 0) == 1;
    hide AnchorMatches, TotalSize;
    var n := |p.layout|;
    if CarriesAll(p, frame) {
      TrueOffset(p, frame, |p.request.fields| - 1);
      assert FrameCarries(p, frame, |p.request.fields| - 1);
      SumStep(p.layout, n - 1);
    }
    if 1 + PlainSum(p.layout, n) <= |frame| {
      forall i | 0 <= i < |p.request.fields| ensures FrameCarries(p, frame, i) { FieldFits(p, frame, FirstField(p) + i); }
    }
  }

  lemma FieldFits(p: Plan, frame: Bytes, at: nat)
    requires at < |p.layout| && 1 + PlainSum(p.layout, |p.layout|) <= |frame| <= FRAME_LEN
    ensures Offset(p.layout, at) + p.layout[at].size <= |frame|
  {
    hide TotalSize, OffsetFrom, PlainSum;
    SumMonotone(p.layout, at, |p.layout|);
    SumMonotone(p.layout, at + 1, |p.layout|);
    SumStep(p.layout, at);
    OffsetIsSum(p.layout, at);
  }

  lemma AnchorsMore(p: Plan, anchor: Option<Anchor>, frames: seq<Bytes>, frame: Bytes)
    ensures AnchorsIn(p, anchor, frames + [frame]) == AnchorsIn(p, anchor, frames) + if AnchorIn(p, anchor, frame) then 1 else 0
  {
    assert (frames + [frame])[..|frames|] == frames;
  }

  lemma SampledEvidence(d: Daq, anchor: Option<Anchor>, frame: Bytes)
    requires Evidence(d, anchor) && d.active && |frame| <= FRAME_LEN
    ensures Evidence(Sampled(d, anchor, frame), anchor)
  {
    GoodIff(d.plan, anchor, frame);
    AnchorsMore(d.plan, anchor, d.frames, frame);
    hide CarriesAll, Anchored, Slices, FromLastGood, PlanOk, GoodFrame, AnchorIn, NoneGood, AnchorsIn;
    if Anchored(d.plan, anchor, frame) && CarriesAll(d.plan, frame) {
      FromTheLast(d.plan, anchor, d.frames, frame);
    } else {
      StillLastGood(d.plan, anchor, d.frames, d.values, frame);
    }
  }

  lemma HandleDaqFrameInv(h: Hub, frame: Bytes)
    requires Inv(h, NoCont) && |frame| <= FRAME_LEN
    ensures Inv(HandleDaqFrame(h, frame), NoCont)
  {
    if h.daq.collecting && frame != [] && frame[0] == 0 {
      SampledEvidence(h.daq, h.anchor, frame);
      hide FromLastGood, FiredOk, Complete, Anchored, CarriesAll, Slices;
      var h1 := h.(daq := Sampled(h.daq, h.anchor, frame));
      if h1.daq.framesSeen >= h1.daq.plan.request.samples {
        CompleteInv(h1, None);
      }
    }
  }

  // ----- runs -----

  /** The two timeouts stand for the loop finding a deadline passed. */
  datatype Event =
    | Enable(on: bool)
    | App(call: Call)
    | Frame(frame: Bytes, handlers: Handlers)
    | ResponseTimeout(handlers: Handlers)
    | CollectTimeout

  predicate Enabled(h: Hub, e: Event) {
    match e
    case Frame(frame, _) => |frame| <= FRAME_LEN
    case ResponseTimeout(_) => h.inFlight.Some?
    case CollectTimeout => h.daq.collecting
    case _ => true
  }

  function After(h: Hub, e: Event): Hub
    requires Enabled(h, e)
  {
    match e
    case Enable(on) => h.(enabled := on)
    case App(call) => Called(h, call)
    case Frame(frame, handlers) => OnFrame(h, frame, handlers)
    case ResponseTimeout(handlers) => Finish(h, false, [], handlers)
    case CollectTimeout => Complete(h, Some(AtCollect))
  }

  lemma StepInv(h: Hub, e: Event)
    requires Inv(h, NoCont) && Enabled(h, e)
    ensures Inv(After(h, e), NoCont)
  {
    assert h.daq.collecting ==> Completing(h) by { hide FromLastGood, FiredOk; }
    hide Inv, Completing, Called, Handled, Complete, Finish, HandleDaqFrame;
    match e
    case Enable(on) => MemInv(h, NoCont, h.(enabled := on));
    case App(call) => CalledInv(h, NoCont, call);
    case Frame(frame, handlers) =>
      match DecodeDto(frame) {
        case Invalid =>
        case DaqFrame(_) =>
          HandledInv(h, NoCont, handlers.first);
          HandleDaqFrameInv(Handled(h, handlers.first), frame);
        case Response(code, ctr, data) =>
          if h.inFlight.Some? && h.inFlight.value.ctr == ctr { FinishInv(h, code == 0, data, handlers); }
      }
    case ResponseTimeout(handlers) => FinishInv(h, false, [], handlers);
    case CollectTimeout => CompleteInv(h, Some(AtCollect));
  }

  ghost predicate Initial(h: Hub) {
    && h.inFlight.None? && !h.daq.active && !h.daq.collecting && !h.daq.valid && h.daq.frames == [] && h.daq.framesSeen == 0
    && h.daq.anchorOk == 0
    && h.accepted == 0 && h.fired == [] && h.mem == Mem(0, [], false, [], 0, false) && h.delivered == [] && h.written == []
  }

  ghost predicate Reaches(h: Hub, es: seq<Event>, q: Hub)
    decreases |es|
  {
    if es == [] then q == h else Enabled(h, es[0]) && Reaches(After(h, es[0]), es[1..], q)
  }

  lemma {:induction false} RunInv(h: Hub, es: seq<Event>, q: Hub)
    requires Inv(h, NoCont) && Reaches(h, es, q)
    ensures Inv(q, NoCont)
    decreases |es|
  {
    if es != [] {
      hide Inv, After;
      StepInv(h, es[0]);
      RunInv(After(h, es[0]), es[1..], q);
    }
  }

  /** In every run: an active read is held by exactly one of an outstanding command of its own and a
      running collection; done has fired once per accepted read that is over, each time after both stop
      commands were attempted; and a good result has all its samples, shows what one frame held at
      the true places of its fields, and asked for no more than a frame carries. */
  lemma DaqLifecycle(h: Hub, es: seq<Event>, q: Hub)
    requires Initial(h) && Reaches(h, es, q)
    ensures q.daq.active <==> (q.inFlight.Some? && IsDaqCont(q.inFlight.value.cont)) || q.daq.collecting
    ensures !(q.inFlight.Some? && IsDaqCont(q.inFlight.value.cont) && q.daq.collecting)
    ensures q.accepted == |q.fired| + (if q.daq.active then 1 else 0)
    ensures forall k :: 0 <= k < |q.fired| ==>
      var d := q.fired[k];
      d.stopAllTried && d.clearTried &&
      (d.ok ==> d.framesSeen == |d.frames| >= d.plan.request.samples && FromLastGood(d.plan, q.anchor, d.frames, d.values)) &&
      (d.ok ==> PlainSum(d.plan.layout, |d.plan.layout|) <= ODT_PAYLOAD)
  {
    RunInv(h, es, q);
    assert forall k :: 0 <= k < |q.fired| ==> FiredOk(q.fired[k], q.anchor);
    hide FromLastGood;
  }

  /** What is told of a read that is over: the count of frames with the anchor, and, where enough frames were
      seen, which of them decided. */
  lemma VerdictIsTrue(h: Hub, es: seq<Event>, q: Hub, k: nat)
    requires Initial(h) && Reaches(h, es, q) && k < |q.fired|
    ensures var d := q.fired[k]; var n := AnchorsIn(d.plan, q.anchor, d.frames);
      && d.anchorOk == (if d.plan.anchored then n else 0)
      && (d.failed in {None, Some(AtAnchor), Some(AtSample)} ==> |d.frames| >= d.plan.request.samples)
      && (d.failed == None ==> FromLastGood(d.plan, q.anchor, d.frames, d.values))
      && (d.failed == Some(AtAnchor) ==> d.plan.anchored && n == 0)
      && (d.failed == Some(AtSample) ==> NoneGood(d.plan, q.anchor, d.frames, 0) && (d.plan.anchored ==> n > 0))
      && d.ok == d.failed.None?
  {
    RunInv(h, es, q);
    assert FiredOk(q.fired[k], q.anchor);
    hide FromLastGood, NoneGood, AnchorsIn, Inv, Initial, Reaches;
  }

  // ----- every read ends -----

  /** How many deadlines may still have to pass. */
  function Rank(h: Hub): nat {
    if !h.daq.active then 0
    else if Current(h).StatusCleared? then 1
    else if Current(h).AllStopped? then 2
    else 3
  }

  /** The deadline that is running for an active read. */
  function Deadline(h: Hub): Event { if h.daq.collecting then CollectTimeout else ResponseTimeout(Silent) }

  lemma CompleteLowers(h: Hub, step: Option<Step>)
    requires h.daq.active
    ensures Rank(Complete(h, step)) <= 2
  {
  }

  lemma DeadlineLowers(h: Hub)
    requires Inv(h, NoCont) && h.daq.active
    ensures Enabled(h, Deadline(h)) && Rank(After(h, Deadline(h))) < Rank(h)
  {
    hide Evidence, FiredOk, Settled, FromLastGood;
    assert h.daq.collecting || (IsDaqCont(Current(h)) && h.inFlight.Some?);
    var c, h1 := Current(h), h.(inFlight := None);
    hide Inv;
    if h.daq.collecting {
      assert Rank(h) == 3 by { CollectingRank(h); }
      hide Complete, Rank;
      CompleteLowers(h, Some(AtCollect));
    } else {
      assert After(h, Deadline(h)) == Continue(h1, c, false, []);
      if IsChain(c) {
        ChainFails(h1, c, []);
        CompleteLowers(h1, Some(FailStep(c)));
        hide Complete, Continue;
      } else if c.AllStopped? {
        ClearLowers(h1);
        hide ClearStatus;
      }
    }
  }

  lemma CollectingRank(h: Hub)
    requires Inv(h, NoCont) && h.daq.active && h.daq.collecting
    ensures Rank(h) == 3
  {
    hide Evidence, FiredOk, Settled;
  }

  lemma ClearLowers(h: Hub)
    requires h.daq.active
    ensures Rank(ClearStatus(h)) <= 1
  {
  }

  /** From any state of an active read at most three passed deadlines fire its done callback. */
  lemma {:induction false} EveryReadEnds(h: Hub) returns (es: seq<Event>, q: Hub)
    requires Inv(h, NoCont)
    ensures Reaches(h, es, q) && !q.daq.active && |es| <= Rank(h)
    ensures Inv(q, NoCont)
    decreases Rank(h)
  {
    if !h.daq.active {
      es, q := [], h;
    } else {
      DeadlineLowers(h);
      StepInv(h, Deadline(h));
      hide Inv, After;
      es, q := EveryReadEnds(After(h, Deadline(h)));
      var e := Deadline(h);
      assert ([e] + es)[1..] == es;
      es := [e] + es;
    }
  }

  // ----- the layout arithmetic -----

  lemma {:induction false} SumMonotone(fields: seq<FieldSpec>, m: nat, n: nat)
    requires m <= n <= |fields|
    ensures PlainSum(fields, m) <= PlainSum(fields, n)
    decreases n - m
  {
    if m < n { SumMonotone(fields, m, n - 1); }
  }

  lemma {:induction false} TotalIsSum(fields: seq<FieldSpec>, n: nat)
    requires n <= |fields| && PlainSum(fields, n) < 0x1_0000
    ensures TotalSize(fields[..n]) == PlainSum(fields, n)
    decreases n
  {
    if n > 0 {
      assert fields[..n][..n - 1] == fields[..n - 1];
      TotalIsSum(fields, n - 1);
    }
  }

  lemma {:induction false} OffsetIsSum(fields: seq<FieldSpec>, n: nat)
    requires n <= |fields| && PlainSum(fields, n) < 0xFF
    ensures OffsetFrom(fields, n) == 1 + PlainSum(fields, n)
  {
    if n > 0 { OffsetIsSum(fields, n - 1); }
  }

  /** Every field sits behind the first byte and all earlier fields, inside one frame. */
  ghost predicate Fits(layout: seq<FieldSpec>) {
    forall i :: 0 <= i < |layout| ==>
      Offset(layout, i) == 1 + PlainSum(layout, i) && Offset(layout, i) + layout[i].size <= FRAME_LEN
  }

  /** A layout that passes the size gate fits one frame exactly when its size does not wrap in sixteen
      bits. */
  lemma OffsetsExact(layout: seq<FieldSpec>)
    requires TotalSize(layout) <= ODT_PAYLOAD
    ensures Fits(layout) <==> PlainSum(layout, |layout|) < 0x1_0000
  {
    hide TotalSize, OffsetFrom, PlainSum;
    if PlainSum(layout, |layout|) < 0x1_0000 {
      assert layout[..|layout|] == layout;
      TotalIsSum(layout, |layout|);
      forall i | 0 <= i < |layout|
        ensures Offset(layout, i) == 1 + PlainSum(layout, i) && Offset(layout, i) + layout[i].size <= FRAME_LEN
      {
        SumMonotone(layout, i, |layout|);
        SumMonotone(layout, i + 1, |layout|);
        SumStep(layout, i);
        OffsetIsSum(layout, i);
      }
    } else if Fits(layout) {
      NoneIsNone(layout);
      SumStep(layout, |layout| - 1);
    }
  }

  lemma NoneIsNone(layout: seq<FieldSpec>)
    ensures layout == [] ==> PlainSum(layout, |layout|) == 0
  {
  }

  /** Fields that all lie inside a frame, from the `from`-th on, add up in eight bits without wrapping. */
  lemma {:induction false} CarriedSum(layout: seq<FieldSpec>, from: nat, n: nat)
    requires from <= n <= |layout|
    requires forall i :: from <= i < n ==> OffsetFrom(layout, i) + layout[i].size <= FRAME_LEN
    ensures OffsetFrom(layout, n) - OffsetFrom(layout, from) == PlainSum(layout, n) - PlainSum(layout, from)
    ensures n > from ==> OffsetFrom(layout, n) <= FRAME_LEN
    decreases n
  {
    hide OffsetFrom, PlainSum;
    if n > from {
      CarriedSum(layout, from, n - 1);
      SumStep(layout, n - 1);
      CarriedOffset(layout, n - 1);
    }
  }

  lemma CarriedOffset(layout: seq<FieldSpec>, i: nat)
    requires i < |layout| && OffsetFrom(layout, i) + layout[i].size <= FRAME_LEN
    ensures OffsetFrom(layout, i + 1) == OffsetFrom(layout, i) + layout[i].size
  {
  }

  /** A sample taken under a layout that passed the gate shows that its size has not wrapped. */
  lemma CarriedFits(p: Plan, frame: Bytes)
    requires PlanOk(p) && |frame| <= FRAME_LEN && CarriesAll(p, frame)
    ensures PlainSum(p.layout, |p.layout|) <= ODT_PAYLOAD
  {
    var f, n := FirstField(p), |p.layout|;
    forall i | f <= i < n ensures OffsetFrom(p.layout, i) + p.layout[i].size <= FRAME_LEN {
      assert FrameCarries(p, frame, i - f);
    }
    CarriedSum(p.layout, f, n);
    SumStep(p.layout, 0);
    hide TotalSize;
    assert p.layout[..n] == p.layout;
    TotalIsSum(p.layout, n);
  }

  lemma SliceIsTrue(p: Plan, anchor: Option<Anchor>, frame: Bytes)
    requires PlanOk(p) && |frame| <= FRAME_LEN && CarriesAll(p, frame) && Anchored(p, anchor, frame)
    ensures Shows(p, anchor, frame, Slices(p, frame))
  {
    CarriedFits(p, frame);
    assert Offset(p.layout, 0) == 1;
    hide TotalSize, PlainSum, Offset, AnchorMatches, CarriesAll, Slices;
    var values := Slices(p, frame);
    SlicesCount(p, frame);
    forall i | 0 <= i < |values| ensures InPlace(p, frame, i, values[i]) { SliceAt(p, frame, i); }
  }

  lemma SlicesCount(p: Plan, frame: Bytes)
    requires CarriesAll(p, frame)
    ensures |Slices(p, frame)| == |p.request.fields|
  {
  }

  lemma SliceAt(p: Plan, frame: Bytes, i: nat)
    requires PlanOk(p) && |frame| <= FRAME_LEN && CarriesAll(p, frame) && i < |p.request.fields|
    ensures FirstField(p) + i < |p.layout| && InPlace(p, frame, i, Slices(p, frame)[i])
  {
    TrueOffset(p, frame, i);
    assert FrameCarries(p, frame, i);
    hide TotalSize, Offset, PlainSum, PlanOk;
    assert Slices(p, frame)[i] == Slice(p, frame, i);
    hide CarriesAll, Slices, FrameCarries;
  }

  lemma TrueOffset(p: Plan, frame: Bytes, i: nat)
    requires PlanOk(p) && |frame| <= FRAME_LEN && CarriesAll(p, frame) && i < |p.request.fields|
    ensures FirstField(p) + i < |p.layout| && Offset(p.layout, FirstField(p) + i) == 1 + PlainSum(p.layout, FirstField(p) + i)
  {
    CarriedFits(p, frame);
    hide CarriesAll, TotalSize, Offset, PlainSum;
    OffsetsExact(p.layout);
  }

  lemma SumStep(layout: seq<FieldSpec>, i: nat)
    requires i < |layout|
    ensures PlainSum(layout, i + 1) == PlainSum(layout, i) + layout[i].size
  {
  }

  function Repeated(f: FieldSpec, n: nat): seq<FieldSpec> { seq(n, _ => f) }

  lemma {:induction false} RepeatedSum(f: FieldSpec, n: nat, k: nat)
    requires k <= n
    ensures PlainSum(Repeated(f, n), k) == k * f.size
    decreases k
  {
    if k > 0 { RepeatedSum(f, n, k - 1); }
  }

  /** Why the length matters: 257 fields of 255 bytes and one of a single byte wrap to zero, and an idle
      hub that may write takes the read. */
  lemma SizeGateWraps(h: Hub, r: DaqRequest)
    requires r.fields == Repeated(FieldSpec(255, 0, 0), 257) + [FieldSpec(1, 0, 0)] && !r.requireAnchor
    requires h.enabled && h.allowWrite && h.inFlight.None? && !h.daq.active && h.port(h.injects)
    ensures DaqRead(h, r).1 && DaqRead(h, r).0.daq.plan.layout == r.fields
    ensures TotalSize(r.fields) == 0 && PlainSum(r.fields, |r.fields|) == 0x1_0000
  {
    var many := Repeated(FieldSpec(255, 0, 0), 257);
    RepeatedSum(FieldSpec(255, 0, 0), 257, 257);
    assert many[..257] == many && r.fields[..257] == many;
    TotalIsSum(many, 257);
    SamePrefix(many, r.fields, 257);
    hide PlainSum;
    assert TotalSize(many) == 65535;
    SumStep(r.fields, 257);
    hide Offset;
  }

  lemma {:induction false} SamePrefix(a: seq<FieldSpec>, b: seq<FieldSpec>, n: nat)
    requires n <= |a| && n <= |b| && a[..n] == b[..n]
    ensures PlainSum(a, n) == PlainSum(b, n)
  {
    if n > 0 {
      assert a[n - 1] == a[..n][n - 1] && b[n - 1] == b[..n][n - 1];
      assert a[..n - 1] == a[..n][..n - 1] && b[..n - 1] == b[..n][..n - 1];
      SamePrefix(a, b, n - 1);
    }
  }
}
