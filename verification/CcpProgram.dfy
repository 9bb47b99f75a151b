/** The commands of a DAQ read on the wire, over every run: which were sent for the read in progress or the last
    one over, in which order, and what each of them asks for. */
module CcpProgram {
  import opened Words
  import opened CcpHub
  import opened CcpDaq

  /** The target's DAQ list as the request has it: every field of the layout once, in layout order. */
  function Writes(layout: seq<FieldSpec>): seq<Cro> { seq(|layout|, i requires 0 <= i < |layout| => WriteDaq(layout[i])) }

  /** Everything that has to be said before the target samples what was asked for. */
  function Programme(p: Plan): seq<Cro> {
    var r := p.request;
    [GetDaqSize(r.list, r.dtoId), SetDaqPtr(r.list)] + Writes(p.layout) + [SetSStatus(0x82), StartStop(r.list, r.event, r.rate)]
  }

  /** The commands sent for DAQ reads since the last one began. */
  function Trace(sent: seq<Pending>): seq<Cro> {
    if sent == [] then []
    else
      var before, p := Trace(sent[..|sent| - 1]), sent[|sent| - 1];
      if p.cont.SizeDone? then [p.cro] else if IsDaqCont(p.cont) then before + [p.cro] else before
  }

  /** The anchor comes first when the request requires one. */
  ghost predicate PlanTrue(p: Plan, anchor: Option<Anchor>) {
    && p.anchored == p.request.requireAnchor && (p.anchored ==> anchor.Some?)
    && p.layout == (if p.anchored then [anchor.value.field] else []) + p.request.fields
  }

  /** Commands sent once the one that goes on with `c` is. */
  function Place(p: Plan, c: Cont): nat {
    match c
    case SizeDone => 1
    case PtrDone => 2
    case FieldDone(index) => 3 + index
    case StatusDone => 3 + |p.layout|
    case _ => 4 + |p.layout|
  }

  ghost predicate Prefix(p: Plan, k: nat, trace: seq<Cro>) { k <= |Programme(p)| && trace == Programme(p)[..k] }

  /** A read on its way. */
  ghost predicate Underway(p: Plan, c: Cont, trace: seq<Cro>) {
    (c.FieldDone? ==> c.index < |p.layout|) && Prefix(p, Place(p, c), trace)
  }

  /** A read that is being stopped, or over: some of the programme, all of it if the result is good, and the
      stop commands that got out. */
  ghost predicate Stopped(d: Daq, trace: seq<Cro>, stops: seq<Cro>) {
    exists k: nat :: StoppedAt(d, trace, stops, k)
  }

  ghost predicate StoppedAt(d: Daq, trace: seq<Cro>, stops: seq<Cro>, k: nat) {
    && 1 <= k <= |Programme(d.plan)| && (d.ok ==> k == |Programme(d.plan)|) && trace == Programme(d.plan)[..k] + stops
    && (d.failed.Some? ==> ToldAs(d.plan, k, d.failed.value))
  }

  /** What the programme's command at place `i` is told as. */
  function StepAt(p: Plan, i: nat): Step {
    if i == 0 then AtSize else if i == 1 then AtPtr else if i < 2 + |p.layout| then AtField
    else if i == 2 + |p.layout| then AtStatus else AtStart
  }

  /** A read that failed with `k` commands sent names the last of them or, if the port refused it, the next; one that
      failed later had sent them all. */
  ghost predicate ToldAs(p: Plan, k: nat, step: Step)
    requires k >= 1
  {
    if step in {AtCollect, AtAnchor, AtSample} then k == |Programme(p)|
    else step == StepAt(p, k - 1) || (k < |Programme(p)| && step == StepAt(p, k))
  }

  ghost predicate Over(d: Daq, trace: seq<Cro>) {
    || Stopped(d, trace, []) || Stopped(d, trace, [StartStopAll])
    || Stopped(d, trace, [SetSStatus(0)]) || Stopped(d, trace, [StartStopAll, SetSStatus(0)])
  }

  ghost predicate TraceAt(d: Daq, c: Cont, trace: seq<Cro>) {
    && (IsChain(c) ==> Underway(d.plan, c, trace))
    && (c.AllStopped? ==> Stopped(d, trace, [StartStopAll]))
    && (c.StatusCleared? ==> Stopped(d, trace, [SetSStatus(0)]) || Stopped(d, trace, [StartStopAll, SetSStatus(0)]))
  }

  ghost predicate TraceInv(h: Hub, owed: Cont) {
    var trace := Trace(h.sent);
    && (h.daq.active ==> PlanTrue(h.daq.plan, h.anchor))
    && TraceAt(h.daq, owed, trace) && TraceAt(h.daq, Current(h), trace)
    && (h.daq.collecting ==> trace == Programme(h.daq.plan))
    && (forall k :: 0 <= k < |h.fired| ==> PlanTrue(h.fired[k].plan, h.anchor))
    && (!h.daq.active && h.fired != [] ==> Over(h.fired[|h.fired| - 1], trace))
  }

  lemma TraceMore(sent: seq<Pending>, p: Pending)
    ensures Trace(sent + [p]) ==
      if p.cont.SizeDone? then [p.cro] else if IsDaqCont(p.cont) then Trace(sent) + [p.cro] else Trace(sent)
  {
    assert (sent + [p])[..|sent|] == sent;
  }

  lemma ProgrammeAt(p: Plan)
    ensures |Programme(p)| == 4 + |p.layout|
    ensures Programme(p)[0] == GetDaqSize(p.request.list, p.request.dtoId) && Programme(p)[1] == SetDaqPtr(p.request.list)
    ensures forall i :: 0 <= i < |p.layout| ==> Programme(p)[2 + i] == WriteDaq(p.layout[i])
    ensures Programme(p)[2 + |p.layout|] == SetSStatus(0x82)
    ensures Programme(p)[3 + |p.layout|] == StartStop(p.request.list, p.request.event, p.request.rate)
  {
  }

  // ----- commands of the read -----

  /** The read's fate is decided; nothing of it is outstanding. */
  ghost predicate Decided(h: Hub, stops: seq<Cro>) {
    && h.daq.active && PlanTrue(h.daq.plan, h.anchor) && !IsDaqCont(Current(h)) && !h.daq.collecting
    && (forall k :: 0 <= k < |h.fired| ==> PlanTrue(h.fired[k].plan, h.anchor)) && Stopped(h.daq, Trace(h.sent), stops)
  }

  lemma StoppedMore(d: Daq, trace: seq<Cro>, stops: seq<Cro>, cro: Cro)
    requires Stopped(d, trace, stops)
    ensures Stopped(d, trace + [cro], stops + [cro])
  {
    hide Programme;
    var k: nat :| StoppedAt(d, trace, stops, k);
    assert trace + [cro] == Programme(d.plan)[..k] + (stops + [cro]);
    assert StoppedAt(d, trace + [cro], stops + [cro], k);
  }

  lemma SameStops(d: Daq, d1: Daq, trace: seq<Cro>, stops: seq<Cro>)
    requires Stopped(d, trace, stops) && d1.plan == d.plan && d1.ok == d.ok && d1.failed == d.failed
    ensures Stopped(d1, trace, stops)
  {
    hide Programme;
    var k: nat :| StoppedAt(d, trace, stops, k);
    assert StoppedAt(d1, trace, stops, k);
  }

  lemma FireTrace(h: Hub, stops: seq<Cro>)
    requires Decided(h, stops) && stops in {[], [StartStopAll], [SetSStatus(0)], [StartStopAll, SetSStatus(0)]}
    ensures TraceInv(Fire(h), NoCont)
  {
    hide Stopped, Trace;
    var q := Fire(h);
    assert q.fired[|q.fired| - 1] == h.daq;
  }

  lemma ClearTrace(h: Hub, stops: seq<Cro>)
    requires Decided(h, stops) && stops in {[], [StartStopAll]}
    ensures TraceInv(ClearStatus(h), NoCont)
  {
    var h1 := h.(daq := h.daq.(clearTried := true));
    var (h2, sent) := Send(h1, SetSStatus(0), StatusCleared);
    hide Stopped, Trace, Over, Fire;
    SameStops(h.daq, h1.daq, Trace(h.sent), stops);
    if sent {
      hide TraceInv, Decided, Send;
      ClearSent(h1, stops, h2);
    } else {
      hide Send, TraceInv;
      FireTrace(h2, stops);
    }
  }

  lemma ClearSent(h: Hub, stops: seq<Cro>, q: Hub)
    requires h.daq.active && PlanTrue(h.daq.plan, h.anchor) && !h.daq.collecting && Stopped(h.daq, Trace(h.sent), stops)
    requires forall k :: 0 <= k < |h.fired| ==> PlanTrue(h.fired[k].plan, h.anchor)
    requires stops in {[], [StartStopAll]} && (q, true) == Send(h, SetSStatus(0), StatusCleared)
    ensures TraceInv(q, NoCont)
  {
    hide Stopped, Trace, Over, Underway, PlanTrue;
    TraceMore(h.sent, Pending(SetSStatus(0), h.ctr, StatusCleared));
    StoppedMore(h.daq, Trace(h.sent), stops, SetSStatus(0));
    assert [] + [SetSStatus(0)] == [SetSStatus(0)] && [StartStopAll] + [SetSStatus(0)] == [StartStopAll, SetSStatus(0)];
    assert q.daq == h.daq && q.fired == h.fired && q.anchor == h.anchor;
    assert Current(q).StatusCleared? && Trace(q.sent) == Trace(h.sent) + [SetSStatus(0)];
    hide Send, TraceInv;
    ActiveTrace(q);
  }

  /** An active read is never held against the one fired last. */
  lemma ActiveTrace(h: Hub)
    requires h.daq.active && PlanTrue(h.daq.plan, h.anchor) && !h.daq.collecting
    requires forall k :: 0 <= k < |h.fired| ==> PlanTrue(h.fired[k].plan, h.anchor)
    requires TraceAt(h.daq, Current(h), Trace(h.sent))
    ensures TraceInv(h, NoCont)
  {
    hide Stopped, Trace, Over, Underway;
  }

  lemma TeardownTrace(h: Hub)
    requires Decided(h, [])
    ensures TraceInv(Teardown(h), NoCont)
  {
    var trace, h1 := Trace(h.sent), h.(daq := h.daq.(stopAllTried := true));
    StoppedMore(h.daq, trace, [], StartStopAll);
    SameStops(h.daq, h1.daq, trace, []);
    SameStops(h.daq, h1.daq, trace + [StartStopAll], [] + [StartStopAll]);
    TraceMore(h.sent, Pending(StartStopAll, h.ctr, AllStopped));
    var (h2, sent) := Send(h1, StartStopAll, AllStopped);
    assert [] + [StartStopAll] == [StartStopAll];
    hide Stopped, Trace, Send, Over;
    if sent { ActiveTrace(h2); } else { hide ClearStatus; ClearTrace(h2, []); }
  }

  /** Still on its way: `k` commands of the programme have been sent. */
  ghost predicate Going(h: Hub, k: nat) {
    && h.daq.active && PlanTrue(h.daq.plan, h.anchor) && !IsDaqCont(Current(h)) && h.daq.failed.None?
    && (forall k :: 0 <= k < |h.fired| ==> PlanTrue(h.fired[k].plan, h.anchor))
    && Prefix(h.daq.plan, k, Trace(h.sent))
  }

  lemma CompleteTrace(h: Hub, step: Option<Step>, k: nat)
    requires Going(h, k) && k >= 1 && if step.None? then k == |Programme(h.daq.plan)| else ToldAs(h.daq.plan, k, step.value)
    ensures TraceInv(Complete(h, step), NoCont)
  {
    var failed := Verdict(h.daq, step);
    var h1 := h.(daq := h.daq.(collecting := false, failed := failed, ok := failed.None?));
    assert Programme(h.daq.plan)[..k] + [] == Programme(h.daq.plan)[..k];
    hide Programme, Trace;
    assert StoppedAt(h1.daq, Trace(h.sent), [], k);
    hide Teardown;
    TeardownTrace(h1);
  }

  lemma DaqStepTrace(h: Hub, cro: Cro, cont: Cont, step: Step, k: nat)
    requires Going(h, k) && k >= 1 && !h.daq.collecting && IsChain(cont) && !cont.SizeDone?
    requires cont.FieldDone? ==> cont.index < |h.daq.plan.layout|
    requires Place(h.daq.plan, cont) == k + 1 && k < |Programme(h.daq.plan)| && Programme(h.daq.plan)[k] == cro
    requires step == StepAt(h.daq.plan, k) && step !in {AtCollect, AtAnchor, AtSample}
    ensures TraceInv(DaqStep(h, cro, cont, step), NoCont)
  {
    var (h1, sent) := Send(h, cro, cont);
    hide Trace, Programme, TraceInv, Complete, StepAt;
    if sent {
      assert DaqStep(h, cro, cont, step) == h1;
      hide Send, DaqStep, PlanTrue;
      StepSent(h, cro, cont, k, h1);
    } else {
      assert Going(h1, k) by { hide DaqStep; }
      CompleteTrace(h1, Some(step), k);
    }
  }

  lemma StepSent(h: Hub, cro: Cro, cont: Cont, k: nat, q: Hub)
    requires Going(h, k) && !h.daq.collecting && IsChain(cont) && !cont.SizeDone? && (q, true) == Send(h, cro, cont)
    requires (cont.FieldDone? ==> cont.index < |h.daq.plan.layout|) && Place(h.daq.plan, cont) == k + 1
    requires k < |Programme(h.daq.plan)| && Programme(h.daq.plan)[k] == cro
    ensures TraceInv(q, NoCont)
  {
    hide Trace, Programme, PlanTrue;
    TraceMore(h.sent, Pending(cro, h.ctr, cont));
    assert Programme(h.daq.plan)[..k] + [cro] == Programme(h.daq.plan)[..k + 1];
    assert q.daq == h.daq && q.fired == h.fired && q.anchor == h.anchor && Current(q) == cont;
    assert Trace(q.sent) == Trace(h.sent) + [cro];
    hide Send, TraceInv;
    ActiveTrace(q);
  }

  lemma WriteFieldTrace(h: Hub, index: nat)
    requires Going(h, 2 + index) && !h.daq.collecting && index <= |h.daq.plan.layout|
    ensures TraceInv(WriteField(h, index), NoCont)
  {
    ProgrammeAt(h.daq.plan);
    hide TraceInv, DaqStep, Going, Programme;
    if index >= |h.daq.plan.layout| {
      DaqStepTrace(h, SetSStatus(0x82), StatusDone, AtStatus, 2 + index);
    } else {
      DaqStepTrace(h, WriteDaq(h.daq.plan.layout[index]), FieldDone(index), AtField, 2 + index);
    }
  }

  lemma ContinueChainTrace(h: Hub, owed: Cont, ok: bool, data: Bytes)
    requires IsChain(owed) && Going(h, Place(h.daq.plan, owed)) && !h.daq.collecting
    requires owed.FieldDone? ==> owed.index < |h.daq.plan.layout|
    ensures TraceInv(Continue(h, owed, ok, data), NoCont)
  {
    var p, k := h.daq.plan, Place(h.daq.plan, owed);
    ProgrammeAt(p);
    hide Complete, DaqStep, WriteField, Programme, Going, TraceInv, Trace, Send, FailSequence, ContinueRead, ContinueWrite;
    if !ok {
      ChainFails(h, owed, data);
      CompleteTrace(h, Some(FailStep(owed)), k);
    } else {
      match owed
      case SizeDone => DaqStepTrace(h, SetDaqPtr(p.request.list), PtrDone, AtPtr, k);
      case PtrDone => WriteFieldTrace(h, 0);
      case FieldDone(index) => WriteFieldTrace(h, index + 1);
      case StatusDone => DaqStepTrace(h, StartStop(p.request.list, p.request.event, p.request.rate), StartDone, AtStart, k);
      case StartDone => StartedTrace(h);
    }
  }

  lemma StartedTrace(h: Hub)
    requires Going(h, 4 + |h.daq.plan.layout|)
    ensures TraceInv(h.(daq := h.daq.(collecting := true)), NoCont)
  {
    ProgrammeAt(h.daq.plan);
    hide Programme, Trace, Over;
    assert Programme(h.daq.plan)[..4 + |h.daq.plan.layout|] == Programme(h.daq.plan);
  }

  lemma ContinueDaqTrace(h: Hub, owed: Cont, ok: bool, data: Bytes)
    requires Inv(h, owed) && TraceInv(h, owed) && IsDaqCont(owed)
    ensures TraceInv(Continue(h, owed, ok, data), NoCont)
  {
    OwedCompleting(h, owed);
    assert !IsDaqCont(Current(h)) && (IsChain(owed) ==> h.daq.failed.None?) by { hide Evidence, FiredOk, Settled; }
    var trace := Trace(h.sent);
    hide Inv, Stopped, Over, Trace, Prefix;
    if IsChain(owed) {
      hide Continue;
      ContinueChainTrace(h, owed, ok, data);
    } else if owed.AllStopped? {
      hide ClearStatus;
      ClearTrace(h, [StartStopAll]);
    } else {
      hide Fire;
      if Stopped(h.daq, trace, [SetSStatus(0)]) { FireTrace(h, [SetSStatus(0)]); } else { FireTrace(h, [StartStopAll, SetSStatus(0)]); }
    }
  }

  // ----- everything else leaves the read's trace alone -----

  /** The read, its record and its trace are as before; what takes or leaves the slot is not the read's. */
  ghost predicate Besides(h: Hub, q: Hub) {
    && q.daq == h.daq && q.fired == h.fired && q.anchor == h.anchor && Trace(q.sent) == Trace(h.sent)
    && (Current(q) == Current(h) || !IsDaqCont(Current(q)))
  }

  lemma BesidesTrace(h: Hub, q: Hub, owed: Cont)
    requires TraceInv(h, owed) && Besides(h, q)
    ensures TraceInv(q, owed)
  {
    hide Trace, Underway, Stopped, Over;
  }

  lemma SendBesides(h: Hub, cro: Cro, cont: Cont)
    requires !IsDaqCont(cont)
    ensures Besides(h, Send(h, cro, cont).0)
  {
    TraceMore(h.sent, Pending(cro, h.ctr, cont));
    hide Trace;
  }

  lemma ContinueBesides(h: Hub, c: Cont, ok: bool, data: Bytes)
    requires !IsDaqCont(c)
    ensures Besides(h, Continue(h, c, ok, data))
  {
    hide Trace, Send, ContinueRead, ContinueWrite;
    match c
    case ReadMtaDone => SendBesides(h, Upload(ReadChunk(h.mem.remaining)), ReadDone);
    case ReadDone => ReadBesides(h, ok, data);
    case WriteDone => WriteBesides(h, ok);
    case _ =>
  }

  lemma ReadBesides(h: Hub, ok: bool, data: Bytes)
    ensures Besides(h, ContinueRead(h, ok, data))
  {
    hide Trace, Send;
    var m, n := h.mem, ReadChunk(h.mem.remaining);
    if ok && n <= |data| && m.remaining != n {
      var h1 := h.(mem := m.(remaining := m.remaining - n, got := m.got + data[..n]));
      SendBesides(h1, Upload(ReadChunk(h1.mem.remaining)), ReadDone);
    }
  }

  lemma WriteBesides(h: Hub, ok: bool)
    ensures Besides(h, ContinueWrite(h, ok))
  {
    hide Trace, Send;
    var m := h.mem;
    if ok && m.offset < |m.toWrite| {
      var n := Min(|m.toWrite| - m.offset, 6);
      SendBesides(h.(mem := m.(offset := m.offset + n)), Dnload(m.toWrite[m.offset..m.offset + n]), WriteDone);
    }
  }

  /** A read that is taken starts a new trace. */
  lemma DaqReadTrace(h: Hub, owed: Cont, r: DaqRequest)
    requires TraceInv(h, owed) && Inv(h, owed)
    ensures TraceInv(DaqRead(h, r).0, owed)
  {
    var q := DaqRead(h, r).0;
    if q != h {
      DaqReadIs(h, r);
      assert !IsDaqCont(owed) && !IsDaqCont(Current(h)) by { hide Evidence, FiredOk, Settled, TraceInv, DaqRead; }
      hide DaqRead, Inv, Programme;
      if q.daq.active { TakenTrace(h, owed, q); } else { RefusedTrace(h, owed, q); }
    }
  }

  /** A read that is taken has its first command sent; one that the port refuses leaves the rest as it was. */
  lemma DaqReadIs(h: Hub, r: DaqRequest)
    requires DaqRead(h, r).0 != h
    ensures !h.daq.active
    ensures var q := DaqRead(h, r).0; var first := Pending(GetDaqSize(r.list, r.dtoId), h.ctr, SizeDone);
      && q.fired == h.fired && q.anchor == h.anchor && !q.daq.collecting
      && if q.daq.active then
           PlanTrue(q.daq.plan, h.anchor) && q.daq.plan.request == r && q.sent == h.sent + [first] && q.inFlight == Some(first)
         else q.sent == h.sent && q.inFlight == h.inFlight
  {
    assert [] + r.fields == r.fields;
    hide TotalSize;
  }

  lemma TakenTrace(h: Hub, owed: Cont, q: Hub)
    requires TraceInv(h, owed) && !IsDaqCont(owed) && q.fired == h.fired && q.anchor == h.anchor
    requires q.daq.active && !q.daq.collecting && PlanTrue(q.daq.plan, q.anchor) && q.inFlight.Some? && q.inFlight.value.cont.SizeDone?
    requires var r := q.daq.plan.request; q.sent == h.sent + [Pending(GetDaqSize(r.list, r.dtoId), h.ctr, SizeDone)]
    ensures TraceInv(q, owed)
  {
    var r := q.daq.plan.request;
    TraceMore(h.sent, Pending(GetDaqSize(r.list, r.dtoId), h.ctr, SizeDone));
    ProgrammeAt(q.daq.plan);
    assert Programme(q.daq.plan)[..1] == [GetDaqSize(r.list, r.dtoId)];
    hide Programme, Trace, Stopped, Over;
  }

  lemma RefusedTrace(h: Hub, owed: Cont, q: Hub)
    requires TraceInv(h, owed) && !IsDaqCont(owed) && !IsDaqCont(Current(h)) && !h.daq.active && q.fired == h.fired && q.anchor == h.anchor
    requires !q.daq.active && !q.daq.collecting && q.sent == h.sent && q.inFlight == h.inFlight
    ensures TraceInv(q, owed)
  {
    hide Trace, Stopped, Over, Underway;
  }

  lemma CalledTrace(h: Hub, owed: Cont, call: Call)
    requires TraceInv(h, owed) && Inv(h, owed)
    ensures TraceInv(Called(h, call), owed)
  {
    if call.StartDaq? {
      hide DaqRead, TraceInv, Inv;
      DaqReadTrace(h, owed, call.request);
    } else {
      CalledBesides(h, call);
      hide Called, TraceInv, Besides;
      BesidesTrace(h, Called(h, call), owed);
    }
  }

  lemma CalledBesides(h: Hub, call: Call)
    requires !call.StartDaq?
    ensures Besides(h, Called(h, call))
  {
    match call
    case Command(cro) => SendBesides(h, cro, NoCont); hide Trace, Send;
    case StartRead(ext, address, len) =>
      SendBesides(h.(mem := h.mem.(remaining := len, got := [], reading := true)), SetMta(ext, address), ReadMtaDone);
      hide Trace, Send;
    case StartWrite(ext, address, data) =>
      SendBesides(h.(mem := h.mem.(toWrite := data, offset := 0, writing := true)), SetMta(ext, address), WriteDone);
      hide Trace, Send;
    case ConnectAnd => SendBesides(h, Connect, ConnectDone); hide Trace, Send;
  }

  lemma {:induction false} HandledTrace(h: Hub, owed: Cont, calls: seq<Call>)
    requires TraceInv(h, owed) && Inv(h, owed)
    ensures TraceInv(Handled(h, calls), owed) && Inv(Handled(h, calls), owed)
    decreases |calls|
  {
    hide Inv, TraceInv, Called;
    if calls != [] {
      CalledTrace(h, owed, calls[0]);
      CalledInv(h, owed, calls[0]);
      HandledTrace(Called(h, calls[0]), owed, calls[1..]);
    }
  }

  lemma ConnectedTrace(h: Hub, owed: Cont, up: bool)
    requires TraceInv(h, owed) && Inv(h, owed)
    ensures TraceInv(h.(connected := up), owed) && Inv(h.(connected := up), owed)
  {
    hide Trace, TraceAt, Over;
    MemInv(h, owed, h.(connected := up));
    hide Inv;
  }

  lemma HeardTrace(h: Hub, ok: bool, handlers: Handlers)
    requires TraceInv(h, NoCont) && Inv(h, NoCont) && h.inFlight.Some?
    ensures TraceInv(Heard(h, ok, handlers), h.inFlight.value.cont) && Inv(Heard(h, ok, handlers), h.inFlight.value.cont)
  {
    var owed, h0 := h.inFlight.value.cont, h.(inFlight := None);
    assert TraceInv(h0, owed) by { hide Inv, Trace, Underway, Stopped, Over; }
    assert Inv(h0, owed) by { hide Evidence, FiredOk, Settled, TraceInv; }
    hide Inv, TraceInv, Handled;
    HandledTrace(h0, owed, handlers.first);
    var h1 := Handled(h0, handlers.first);
    ConnectedTrace(h1, owed, true);
    ConnectedTrace(h1, owed, false);
    HandledTrace(h1.(connected := true), owed, handlers.onConnect);
  }

  lemma FinishTrace(h: Hub, ok: bool, data: Bytes, handlers: Handlers)
    requires TraceInv(h, NoCont) && Inv(h, NoCont) && h.inFlight.Some?
    ensures TraceInv(Finish(h, ok, data, handlers), NoCont)
  {
    var p, h1 := h.inFlight.value, Heard(h, ok, handlers);
    HeardTrace(h, ok, handlers);
    hide Inv, Heard, Continue;
    if IsDaqCont(p.cont) {
      hide TraceInv;
      ContinueDaqTrace(h1, p.cont, ok, data);
    } else {
      assert TraceInv(h1, NoCont) by { hide TraceAt, Trace, Over; }
      hide TraceInv;
      ContinueBesides(h1, p.cont, ok, data);
      BesidesTrace(h1, Continue(h1, p.cont, ok, data), NoCont);
    }
  }

  lemma CollectingGoing(h: Hub)
    requires TraceInv(h, NoCont) && Inv(h, NoCont) && h.daq.collecting
    ensures Going(h, |Programme(h.daq.plan)|) && |Programme(h.daq.plan)| >= 1
  {
    ProgrammeAt(h.daq.plan);
    hide Programme, Trace, Over, Evidence, FiredOk, Settled;
    assert Programme(h.daq.plan)[..|Programme(h.daq.plan)|] == Programme(h.daq.plan);
  }

  lemma SampledKeeps(d: Daq, anchor: Option<Anchor>, frame: Bytes)
    ensures var q := Sampled(d, anchor, frame);
      q.plan == d.plan && q.failed == d.failed && q.active == d.active && q.collecting == d.collecting && q.ok == d.ok
  {
    hide Anchored, CarriesAll, Slices;
    if Anchored(d.plan, anchor, frame) && CarriesAll(d.plan, frame) { assert Sampled(d, anchor, frame).valid; }
  }

  lemma FrameTrace(h: Hub, frame: Bytes)
    requires TraceInv(h, NoCont) && Inv(h, NoCont)
    ensures TraceInv(HandleDaqFrame(h, frame), NoCont)
  {
    if h.daq.collecting && frame != [] && frame[0] == 0 {
      CollectingGoing(h);
      SampledKeeps(h.daq, h.anchor, frame);
      var h1 := h.(daq := Sampled(h.daq, h.anchor, frame));
      hide Inv, Complete, Programme, Trace, Sampled;
      assert Going(h1, |Programme(h.daq.plan)|) by { hide TraceInv; }
      if h1.daq.framesSeen >= h1.daq.plan.request.samples {
        hide TraceInv, Going;
        CompleteTrace(h1, None, |Programme(h.daq.plan)|);
      } else {
        hide Over, Stopped, Underway;
      }
    }
  }

  lemma StepTrace(h: Hub, e: Event)
    requires TraceInv(h, NoCont) && Inv(h, NoCont) && Enabled(h, e)
    ensures TraceInv(After(h, e), NoCont)
  {
    if e.CollectTimeout? { CollectingGoing(h); }
    hide Inv, TraceInv, Going, Programme, Called, Handled, Complete, Finish, HandleDaqFrame;
    match e
    case Enable(on) => EnabledTrace(h, on);
    case App(call) => CalledTrace(h, NoCont, call);
    case Frame(frame, handlers) =>
      match DecodeDto(frame) {
        case Invalid =>
        case DaqFrame(_) =>
          HandledTrace(h, NoCont, handlers.first);
          FrameTrace(Handled(h, handlers.first), frame);
        case Response(code, ctr, data) =>
          if h.inFlight.Some? && h.inFlight.value.ctr == ctr { FinishTrace(h, code == 0, data, handlers); }
      }
    case ResponseTimeout(handlers) => FinishTrace(h, false, [], handlers);
    case CollectTimeout => CompleteTrace(h, Some(AtCollect), |Programme(h.daq.plan)|);
  }

  lemma EnabledTrace(h: Hub, on: bool)
    requires TraceInv(h, NoCont)
    ensures TraceInv(h.(enabled := on), NoCont)
  {
    hide Trace, Stopped, Over, Underway;
  }

  lemma {:induction false} RunTrace(h: Hub, es: seq<Event>, q: Hub)
    requires TraceInv(h, NoCont) && Inv(h, NoCont) && Reaches(h, es, q)
    ensures TraceInv(q, NoCont) && Inv(q, NoCont)
    decreases |es|
  {
    if es != [] {
      hide Inv, TraceInv, After;
      StepInv(h, es[0]);
      StepTrace(h, es[0]);
      RunTrace(After(h, es[0]), es[1..], q);
    }
  }

  /** In every run: a collecting read has sent its whole programme, in order and nothing else; one on its way a
      beginning of it; and when a read is over it has sent a beginning of it, all of it if the result is
      good, followed by those of the two stop commands that the port took. Its layout is the
      request's fields, behind the anchor if the request requires it. */
  lemma ProgrammeIsSent(h: Hub, es: seq<Event>, q: Hub)
    requires Initial(h) && Reaches(h, es, q)
    ensures q.daq.active ==> PlanTrue(q.daq.plan, q.anchor)
    ensures q.daq.collecting ==> Trace(q.sent) == Programme(q.daq.plan)
    ensures IsChain(Current(q)) ==> Prefix(q.daq.plan, Place(q.daq.plan, Current(q)), Trace(q.sent))
    ensures !q.daq.active && q.fired != [] ==>
      var d := q.fired[|q.fired| - 1]; PlanTrue(d.plan, q.anchor) && Over(d, Trace(q.sent))
  {
    assert Inv(h, NoCont) && TraceInv(h, NoCont) by { hide Trace, Over, FromLastGood; }
    hide Initial, Reaches, Trace, Over, Stopped, Programme, Inv;
    RunTrace(h, es, q);
  }
}
