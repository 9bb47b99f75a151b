/** What a write's reported success is worth when handlers call back into the hub: whether the data's frames
    were sent behind the SET_MTA for their place. */
module CcpWrites {
  import opened Words
  import opened CcpHub
  import opened CcpDaq
  import opened CcpWedge

  /** What the frames of memory writes put where, since the last SET_MTA of one. */
  datatype Trail = Trail(ext: byte, address: u32, data: Bytes)

  function TrailOf(sent: seq<Pending>): Option<Trail> {
    if sent == [] then None
    else
      var before, p := TrailOf(sent[..|sent| - 1]), sent[|sent| - 1];
      if !p.cont.WriteDone? then before
      else
        match p.cro
        case SetMta(ext, address) => Some(Trail(ext, address, []))
        case Dnload(data) => if before.Some? then Some(before.value.(data := before.value.data + data)) else None
        case _ => None
  }

  /** A success as it is reported: the place and data of the write, what was sent, and whether it was taken
      in good order. */
  datatype Report = Report(ext: byte, address: u32, data: Bytes, trail: Option<Trail>, orderly: bool)

  /** The hub with the place of the write last taken and the successes reported. A write is orderly unless it
      was taken by a handler of another write's answer; even then it is if its own SET_MTA was not
      sent and the answered one was a SET_MTA for the same place. */
  datatype Watch = Watch(hub: Hub, ext: byte, address: u32, orderly: bool, log: seq<Report>)

  /** `owed` says that a write's continuation waits for the handlers. */
  function WatchCalled(w: Watch, call: Call, owed: bool): Watch {
    var q := Called(w.hub, call);
    if !TakesWrite(w.hub, call) then w.(hub := q)
    else
      w.(hub := q, ext := call.ext, address := call.address,
         orderly := if q.inFlight.Some? then !owed else owed && TrailOf(w.hub.sent) == Some(Trail(call.ext, call.address, [])))
  }

  function WatchHandled(w: Watch, calls: seq<Call>, owed: bool): Watch
    decreases |calls|
  {
    if calls == [] then w else WatchHandled(WatchCalled(w, calls[0], owed), calls[1..], owed)
  }

  function WatchHeard(w: Watch, ok: bool, handlers: Handlers): Watch
    requires w.hub.inFlight.Some?
  {
    var p, owed := w.hub.inFlight.value, w.hub.inFlight.value.cont.WriteDone?;
    var w1 := WatchHandled(w.(hub := w.hub.(inFlight := None)), handlers.first, owed);
    if !ok then w1
    else if p.cro == Connect then WatchHandled(w1.(hub := w1.hub.(connected := true)), handlers.onConnect, owed)
    else if p.cro == Disconnect then w1.(hub := w1.hub.(connected := false)) else w1
  }

  /** The continuation reports success. */
  predicate Reports(h: Hub, c: Cont, ok: bool) { c.WriteDone? && ok && h.mem.writing && h.mem.offset >= |h.mem.toWrite| }

  function WatchFinish(w: Watch, ok: bool, data: Bytes, handlers: Handlers): Watch
    requires w.hub.inFlight.Some?
  {
    var w1, c := WatchHeard(w, ok, handlers), w.hub.inFlight.value.cont;
    var w2 := w1.(hub := Continue(w1.hub, c, ok, data));
    if Reports(w1.hub, c, ok) then
      w2.(log := w1.log + [Report(w1.ext, w1.address, w1.hub.mem.toWrite, TrailOf(w1.hub.sent), w1.orderly)])
    else w2
  }

  function WatchAfter(w: Watch, e: Event): Watch
    requires Enabled(w.hub, e)
  {
    match e
    case Enable(on) => w.(hub := w.hub.(enabled := on))
    case App(call) => WatchCalled(w, call, false)
    case Frame(frame, handlers) =>
      (match DecodeDto(frame)
       case Invalid => w
       case DaqFrame(_) =>
         var w1 := WatchHandled(w, handlers.first, false);
         w1.(hub := HandleDaqFrame(w1.hub, frame))
       case Response(code, ctr, data) =>
         if w.hub.inFlight.None? || w.hub.inFlight.value.ctr != ctr then w else WatchFinish(w, code == 0, data, handlers))
    case ResponseTimeout(handlers) => WatchFinish(w, false, [], handlers)
    case CollectTimeout => w.(hub := Complete(w.hub, Some(AtCollect)))
  }

  ghost predicate WatchReaches(w: Watch, es: seq<Event>, v: Watch)
    decreases |es|
  {
    if es == [] then v == w else Enabled(w.hub, es[0]) && WatchReaches(WatchAfter(w, es[0]), es[1..], v)
  }

  // ----- watching changes nothing -----

  lemma {:induction false} HandledSame(w: Watch, calls: seq<Call>, owed: bool)
    ensures WatchHandled(w, calls, owed).hub == Handled(w.hub, calls) && WatchHandled(w, calls, owed).log == w.log
    decreases |calls|
  {
    hide Called, TakesWrite, TrailOf;
    if calls != [] { HandledSame(WatchCalled(w, calls[0], owed), calls[1..], owed); }
  }

  lemma HeardSame(w: Watch, ok: bool, handlers: Handlers)
    requires w.hub.inFlight.Some?
    ensures WatchHeard(w, ok, handlers).hub == Heard(w.hub, ok, handlers) && WatchHeard(w, ok, handlers).log == w.log
  {
    hide Handled, WatchHandled;
    var owed := w.hub.inFlight.value.cont.WriteDone?;
    var w0 := w.(hub := w.hub.(inFlight := None));
    HandledSame(w0, handlers.first, owed);
    var w1 := WatchHandled(w0, handlers.first, owed);
    HandledSame(w1.(hub := w1.hub.(connected := true)), handlers.onConnect, owed);
  }

  lemma SameHub(w: Watch, e: Event)
    requires Enabled(w.hub, e)
    ensures WatchAfter(w, e).hub == After(w.hub, e)
  {
    hide Called, Complete, Heard, WatchHeard, Handled, WatchHandled, HandleDaqFrame, Continue, TrailOf, TakesWrite;
    match e
    case Frame(frame, handlers) =>
      HandledSame(w, handlers.first, false);
      if w.hub.inFlight.Some? { HeardSame(w, DecodeDto(frame).Response? && DecodeDto(frame).code == 0, handlers); }
    case ResponseTimeout(handlers) => HeardSame(w, false, handlers);
    case _ =>
  }

  lemma {:induction false} SameRun(w: Watch, es: seq<Event>, v: Watch)
    requires WatchReaches(w, es, v)
    ensures Reaches(w.hub, es, v.hub)
    decreases |es|
  {
    if es != [] {
      hide After, WatchAfter;
      SameHub(w, es[0]);
      SameRun(WatchAfter(w, es[0]), es[1..], v);
    }
  }

  // ----- the invariant -----

  /** What has been sent of the stored write is its beginning, behind the SET_MTA for its place. */
  ghost predicate InOrder(w: Watch) {
    w.hub.mem.offset <= |w.hub.mem.toWrite| &&
    TrailOf(w.hub.sent) == Some(Trail(w.ext, w.address, w.hub.mem.toWrite[..w.hub.mem.offset]))
  }

  /** It went elsewhere, or its length is off: no further frame puts that right. */
  ghost predicate OutOfOrder(w: Watch) {
    match TrailOf(w.hub.sent)
    case None => true
    case Some(t) => t.ext != w.ext || t.address != w.address || |t.data| != w.hub.mem.offset
  }

  /** `owed` is a write's continuation waiting for handlers; then a write may have been taken on top of it. */
  ghost predicate Inv(w: Watch, owed: bool) {
    var m, c := w.hub.mem, Current(w.hub);
    && (m.writing ==> m.toWrite != [] && m.offset <= |m.toWrite|)
    && (m.writing && (owed || c.WriteDone?) ==>
         if owed && c.WriteDone? then
           !w.orderly && m.offset == 0 && TrailOf(w.hub.sent) == Some(Trail(w.ext, w.address, []))
         else if w.orderly then InOrder(w) else OutOfOrder(w))
    && (owed && c.WriteDone? ==> m.writing)
    && (forall k :: 0 <= k < |w.log| ==> Honest(w.log[k]))
  }

  ghost predicate Honest(r: Report) { r.trail == Some(Trail(r.ext, r.address, r.data)) <==> r.orderly }

  lemma TrailMore(sent: seq<Pending>, p: Pending)
    ensures var q := TrailOf(sent + [p]);
      if !p.cont.WriteDone? then q == TrailOf(sent)
      else if p.cro.SetMta? then q == Some(Trail(p.cro.ext, p.cro.address, []))
      else if p.cro.Dnload? && TrailOf(sent).Some? then
        q == Some(TrailOf(sent).value.(data := TrailOf(sent).value.data + p.cro.data))
      else q == None
  {
    assert (sent + [p])[..|sent|] == sent;
  }

  /** Commands of other sequences leave the stored write and the trail alone; they may take the slot. */
  ghost predicate Besides(h: Hub, q: Hub) {
    && q.mem.toWrite == h.mem.toWrite && q.mem.offset == h.mem.offset && q.mem.writing == h.mem.writing
    && TrailOf(q.sent) == TrailOf(h.sent) && (Current(q).WriteDone? <==> Current(h).WriteDone?)
  }

  lemma BesidesInv(w: Watch, q: Hub, owed: bool)
    requires Inv(w, owed) && Besides(w.hub, q)
    ensures Inv(w.(hub := q), owed)
  {
    hide TrailOf, Honest;
  }

  lemma SendBesides(h: Hub, cro: Cro, cont: Cont)
    requires !cont.WriteDone?
    ensures Besides(h, Send(h, cro, cont).0)
  {
    TrailMore(h.sent, Pending(cro, h.ctr, cont));
    hide TrailOf;
  }

  lemma FireBesides(h: Hub)
    ensures Besides(h, Fire(h))
  {
    hide TrailOf;
  }

  lemma ClearBesides(h: Hub)
    ensures Besides(h, ClearStatus(h))
  {
    var h1 := h.(daq := h.daq.(clearTried := true));
    SendBesides(h1, SetSStatus(0), StatusCleared);
    FireBesides(Send(h1, SetSStatus(0), StatusCleared).0);
    hide Send, Fire, TrailOf;
  }

  lemma TeardownBesides(h: Hub)
    ensures Besides(h, Teardown(h))
  {
    var h1 := h.(daq := h.daq.(stopAllTried := true));
    SendBesides(h1, StartStopAll, AllStopped);
    ClearBesides(Send(h1, StartStopAll, AllStopped).0);
    hide Send, ClearStatus, TrailOf;
  }

  lemma CompleteBesides(h: Hub, step: Option<Step>)
    ensures Besides(h, Complete(h, step))
  {
    var failed := if h.daq.failed.Some? then h.daq.failed else Verdict(h.daq, step);
    TeardownBesides(h.(daq := h.daq.(collecting := false, failed := failed, ok := failed.None?)));
    hide Teardown, TrailOf, Verdict;
  }

  lemma StepBesides(h: Hub, cro: Cro, cont: Cont, step: Step)
    requires !cont.WriteDone?
    ensures Besides(h, DaqStep(h, cro, cont, step))
  {
    SendBesides(h, cro, cont);
    CompleteBesides(Send(h, cro, cont).0, Some(step));
    hide Send, Complete, TrailOf;
  }

  lemma FieldBesides(h: Hub, index: nat)
    ensures Besides(h, WriteField(h, index))
  {
    hide DaqStep, TrailOf;
    if index >= |h.daq.plan.layout| {
      StepBesides(h, SetSStatus(0x82), StatusDone, AtStatus);
    } else {
      StepBesides(h, WriteDaq(h.daq.plan.layout[index]), FieldDone(index), AtField);
    }
  }

  lemma ChainBesides(h: Hub, c: Cont, ok: bool, data: Bytes)
    requires IsDaqCont(c)
    ensures Besides(h, Continue(h, c, ok, data))
  {
    var r := h.daq.plan.request;
    hide DaqStep, WriteField, Complete, ClearStatus, Fire, TrailOf;
    match c
    case SizeDone => if ok { StepBesides(h, SetDaqPtr(r.list), PtrDone, AtPtr); } else { CompleteBesides(h, Some(AtSize)); }
    case PtrDone => if ok { FieldBesides(h, 0); } else { CompleteBesides(h, Some(AtPtr)); }
    case FieldDone(index) => if ok { FieldBesides(h, index + 1); } else { CompleteBesides(h, Some(AtField)); }
    case StatusDone =>
      if ok { StepBesides(h, StartStop(r.list, r.event, r.rate), StartDone, AtStart); } else { CompleteBesides(h, Some(AtStatus)); }
    case StartDone => if !ok { CompleteBesides(h, Some(AtStart)); }
    case AllStopped => ClearBesides(h);
    case StatusCleared => FireBesides(h);
  }

  /** A failing memory sequence clears the stored write. */
  lemma FailedInv(w: Watch, owed: bool)
    requires Inv(w, owed) && (owed ==> Current(w.hub).WriteDone? ==> w.hub.mem.writing)
    ensures Inv(w.(hub := FailSequence(w.hub)), false)
  {
    hide TrailOf, Honest;
  }

  lemma ReadInv(w: Watch, c: Cont, ok: bool, data: Bytes)
    requires Inv(w, false) && OfARead(c)
    ensures Inv(w.(hub := Continue(w.hub, c, ok, data)), false)
  {
    var h, n := w.hub, ReadChunk(w.hub.mem.remaining);
    if !ok || (c.ReadDone? && |data| < n) {
      FailedInv(w, false);
      hide TrailOf, Honest, Inv, FailSequence;
    } else if c.ReadMtaDone? {
      SendBesides(h, Upload(n), ReadDone);
      BesidesInv(w, Continue(h, c, ok, data), false);
    } else if h.mem.remaining == n {
      hide TrailOf, Send;
      BesidesInv(w, Continue(h, c, ok, data), false);
    } else {
      var h1 := h.(mem := h.mem.(remaining := h.mem.remaining - n, got := h.mem.got + data[..n]));
      SendBesides(h1, Upload(ReadChunk(h1.mem.remaining)), ReadDone);
      hide TrailOf, Send, Inv;
      BesidesInv(w, Continue(h, c, ok, data), false);
    }
  }

  /** A write that is taken: in good order, or on top of another. */
  lemma TakenInv(w: Watch, call: Call, owed: bool)
    requires Inv(w, owed) && TakesWrite(w.hub, call)
    ensures Inv(WatchCalled(w, call, owed), owed)
  {
    TrailMore(w.hub.sent, Pending(SetMta(call.ext, call.address), w.hub.ctr, WriteDone));
    hide TrailOf, Honest;
    assert call.data[..0] == [];
  }

  lemma CalledInv(w: Watch, call: Call, owed: bool)
    requires Inv(w, owed)
    ensures Inv(WatchCalled(w, call, owed), owed)
  {
    if TakesWrite(w.hub, call) {
      TakenInv(w, call, owed);
    } else {
      OthersBesides(w.hub, call);
      hide Called, Inv, TakesWrite, Besides;
      BesidesInv(w, Called(w.hub, call), owed);
    }
  }

  lemma OthersBesides(h: Hub, call: Call)
    requires !TakesWrite(h, call)
    ensures Besides(h, Called(h, call))
  {
    hide TrailOf, TotalSize;
    match call
    case Command(cro) => SendBesides(h, cro, NoCont); hide Send;
    case StartRead(ext, address, len) =>
      SendBesides(h.(mem := h.mem.(remaining := len, got := [], reading := true)), SetMta(ext, address), ReadMtaDone);
      hide Send;
    case StartWrite(_, _, _) =>
    case StartDaq(r) =>
      var anchored := r.requireAnchor && h.anchor.Some?;
      var layout := if anchored then [h.anchor.value.field] + r.fields else r.fields;
      var d := Daq(true, false, Plan(r, anchored, layout), [], false, 0, 0, None, false, [], false, false);
      SendBesides(h.(daq := d), GetDaqSize(r.list, r.dtoId), SizeDone);
      hide Send;
    case ConnectAnd => SendBesides(h, Connect, ConnectDone); hide Send;
  }

  lemma {:induction false} HandledInv(w: Watch, calls: seq<Call>, owed: bool)
    requires Inv(w, owed)
    ensures Inv(WatchHandled(w, calls, owed), owed)
    decreases |calls|
  {
    hide Inv, WatchCalled;
    if calls != [] {
      CalledInv(w, calls[0], owed);
      HandledInv(WatchCalled(w, calls[0], owed), calls[1..], owed);
    }
  }

  lemma HeardInv(w: Watch, ok: bool, handlers: Handlers)
    requires Inv(w, false) && w.hub.inFlight.Some?
    ensures Inv(WatchHeard(w, ok, handlers), w.hub.inFlight.value.cont.WriteDone?)
  {
    var owed := w.hub.inFlight.value.cont.WriteDone?;
    var w0 := w.(hub := w.hub.(inFlight := None));
    assert Inv(w0, owed) by { hide TrailOf, Honest; }
    hide Inv, WatchHandled, TrailOf;
    HandledInv(w0, handlers.first, owed);
    var w1 := WatchHandled(w0, handlers.first, owed);
    BesidesInv(w1, w1.hub.(connected := true), owed);
    BesidesInv(w1, w1.hub.(connected := false), owed);
    HandledInv(w1.(hub := w1.hub.(connected := true)), handlers.onConnect, owed);
  }

  lemma NextChunkInv(w: Watch)
    requires Inv(w, true) && w.hub.mem.offset < |w.hub.mem.toWrite|
    ensures Inv(w.(hub := ContinueWrite(w.hub, true)), false)
  {
    var h, m := w.hub, w.hub.mem;
    var n := Min(|m.toWrite| - m.offset, 6);
    var chunk := m.toWrite[m.offset..m.offset + n];
    assert m.toWrite[..m.offset + n] == m.toWrite[..m.offset] + chunk;
    TrailMore(h.sent, Pending(Dnload(chunk), h.ctr, WriteDone));
    hide TrailOf, Honest;
  }

  lemma WriteInv(w: Watch, ok: bool, data: Bytes)
    requires Inv(w, true)
    ensures !Reports(w.hub, WriteDone, ok) ==> Inv(w.(hub := Continue(w.hub, WriteDone, ok, data)), false)
    ensures Reports(w.hub, WriteDone, ok) ==>
      var report := Report(w.ext, w.address, w.hub.mem.toWrite, TrailOf(w.hub.sent), w.orderly);
      Honest(report) && Inv(w.(hub := Continue(w.hub, WriteDone, ok, data), log := w.log + [report]), false)
  {
    if !ok {
      FailedInv(w, true);
      hide TrailOf, Honest, Inv, FailSequence;
    } else if w.hub.mem.offset < |w.hub.mem.toWrite| {
      NextChunkInv(w);
      hide TrailOf, Honest, Inv, ContinueWrite;
    } else {
      assert w.hub.mem.toWrite[..|w.hub.mem.toWrite|] == w.hub.mem.toWrite;
      hide TrailOf;
    }
  }

  lemma FinishInv(w: Watch, ok: bool, data: Bytes, handlers: Handlers)
    requires Inv(w, false) && w.hub.inFlight.Some?
    ensures Inv(WatchFinish(w, ok, data, handlers), false)
  {
    var w1, c := WatchHeard(w, ok, handlers), w.hub.inFlight.value.cont;
    HeardInv(w, ok, handlers);
    hide Inv, WatchHeard, TrailOf, Honest, Continue;
    if c.WriteDone? {
      WriteInv(w1, ok, data);
    } else if OfARead(c) {
      ReadInv(w1, c, ok, data);
    } else if IsDaqCont(c) {
      ChainBesides(w1.hub, c, ok, data);
      BesidesInv(w1, Continue(w1.hub, c, ok, data), false);
    } else {
      NothingMore(w1.hub, c, ok, data);
    }
  }

  lemma NothingMore(h: Hub, c: Cont, ok: bool, data: Bytes)
    requires !c.WriteDone? && !OfARead(c) && !IsDaqCont(c)
    ensures Continue(h, c, ok, data) == h
  {
  }

  lemma FrameBesides(h: Hub, frame: Bytes)
    ensures Besides(h, HandleDaqFrame(h, frame))
  {
    hide Complete, Sampled, TrailOf;
    CompleteBesides(h.(daq := Sampled(h.daq, h.anchor, frame)), None);
  }

  lemma StepInv(w: Watch, e: Event)
    requires Inv(w, false) && Enabled(w.hub, e)
    ensures Inv(WatchAfter(w, e), false)
  {
    hide Inv, WatchCalled, WatchHandled, WatchFinish, Complete, HandleDaqFrame, TrailOf;
    match e
    case Enable(on) => BesidesInv(w, w.hub.(enabled := on), false);
    case App(call) => CalledInv(w, call, false);
    case Frame(frame, handlers) =>
      match DecodeDto(frame) {
        case Invalid =>
        case DaqFrame(_) =>
          HandledInv(w, handlers.first, false);
          var w1 := WatchHandled(w, handlers.first, false);
          FrameBesides(w1.hub, frame);
          BesidesInv(w1, HandleDaqFrame(w1.hub, frame), false);
        case Response(code, ctr, data) =>
          if w.hub.inFlight.Some? && w.hub.inFlight.value.ctr == ctr { FinishInv(w, code == 0, data, handlers); }
      }
    case ResponseTimeout(handlers) => FinishInv(w, false, [], handlers);
    case CollectTimeout =>
      CompleteBesides(w.hub, Some(AtCollect));
      BesidesInv(w, Complete(w.hub, Some(AtCollect)), false);
  }

  lemma {:induction false} RunInv(w: Watch, es: seq<Event>, v: Watch)
    requires Inv(w, false) && WatchReaches(w, es, v)
    ensures Inv(v, false)
    decreases |es|
  {
    if es != [] {
      hide Inv, WatchAfter;
      StepInv(w, es[0]);
      RunInv(WatchAfter(w, es[0]), es[1..], v);
    }
  }

  // ----- the log holds the successes -----

  function Successes(written: seq<bool>): nat {
    if written == [] then 0 else Successes(written[..|written| - 1]) + if written[|written| - 1] then 1 else 0
  }

  lemma SuccessesMore(written: seq<bool>, b: bool)
    ensures Successes(written + [b]) == Successes(written) + if b then 1 else 0
  {
    assert (written + [b])[..|written|] == written;
  }

  /** Only the end of a write reports success. */
  lemma ContinueReports(h: Hub, c: Cont, ok: bool, data: Bytes)
    ensures Successes(Continue(h, c, ok, data).written) == Successes(h.written) + if Reports(h, c, ok) then 1 else 0
  {
    SuccessesMore(h.written, true);
    SuccessesMore(h.written, false);
    hide Successes, Send;
    if c.WriteDone? {
    } else if OfARead(c) {
    } else {
      ContinueAside(h, c, ok, data);
      hide Continue;
    }
  }

  lemma {:induction false} HandledReports(h: Hub, calls: seq<Call>)
    ensures Handled(h, calls).written == h.written
    decreases |calls|
  {
    if calls != [] {
      CalledReports(h, calls[0]);
      hide Called;
      HandledReports(Called(h, calls[0]), calls[1..]);
    }
  }

  lemma CalledReports(h: Hub, call: Call)
    ensures Called(h, call).written == h.written
  {
    if call.StartDaq? { DaqReadAside(h, call.request); }
    hide DaqRead;
  }

  lemma HeardReports(h: Hub, ok: bool, handlers: Handlers)
    requires h.inFlight.Some?
    ensures Heard(h, ok, handlers).written == h.written
  {
    hide Handled;
    var h0 := h.(inFlight := None);
    HandledReports(h0, handlers.first);
    HandledReports(Handled(h0, handlers.first).(connected := true), handlers.onConnect);
  }

  lemma FinishLogs(w: Watch, ok: bool, data: Bytes, handlers: Handlers)
    requires w.hub.inFlight.Some?
    ensures var q := WatchFinish(w, ok, data, handlers);
      |q.log| - |w.log| == Successes(q.hub.written) - Successes(w.hub.written)
  {
    HeardSame(w, ok, handlers);
    HeardReports(w.hub, ok, handlers);
    hide Heard, WatchHeard, Continue, Successes, TrailOf;
    ContinueReports(WatchHeard(w, ok, handlers).hub, w.hub.inFlight.value.cont, ok, data);
  }

  lemma StepLogs(w: Watch, e: Event)
    requires Enabled(w.hub, e)
    ensures var q := WatchAfter(w, e); |q.log| - |w.log| == Successes(q.hub.written) - Successes(w.hub.written)
  {
    hide Called, Handled, WatchHandled, WatchFinish, Complete, HandleDaqFrame, TrailOf, Successes, TakesWrite;
    match e
    case Enable(on) =>
    case App(call) => CalledReports(w.hub, call);
    case Frame(frame, handlers) =>
      match DecodeDto(frame) {
        case Invalid =>
        case DaqFrame(_) =>
          HandledSame(w, handlers.first, false);
          HandledReports(w.hub, handlers.first);
          DaqFrameAside(Handled(w.hub, handlers.first), frame);
        case Response(code, ctr, data) =>
          if w.hub.inFlight.Some? && w.hub.inFlight.value.ctr == ctr { FinishLogs(w, code == 0, data, handlers); }
      }
    case ResponseTimeout(handlers) => FinishLogs(w, false, [], handlers);
    case CollectTimeout => CompleteAside(w.hub, Some(AtCollect));
  }

  lemma {:induction false} RunLogs(w: Watch, es: seq<Event>, v: Watch)
    requires WatchReaches(w, es, v)
    ensures |v.log| - |w.log| == Successes(v.hub.written) - Successes(w.hub.written)
    decreases |es|
  {
    if es != [] {
      hide WatchAfter, Successes;
      StepLogs(w, es[0]);
      RunLogs(WatchAfter(w, es[0]), es[1..], v);
    }
  }

  /** In every run, whatever the handlers call: each reported success is one of a write whose data was sent
      whole and in order behind the SET_MTA for its place, exactly when the write was taken in good order. */
  lemma SuccessMeansSentIff(h: Hub, es: seq<Event>, v: Watch)
    requires Initial(h) && WatchReaches(Watch(h, 0, 0, false, []), es, v)
    ensures Reaches(h, es, v.hub) && |v.log| == Successes(v.hub.written)
    ensures forall k :: 0 <= k < |v.log| ==>
      (v.log[k].trail == Some(Trail(v.log[k].ext, v.log[k].address, v.log[k].data)) <==> v.log[k].orderly)
  {
    var w := Watch(h, 0, 0, false, []);
    SameRun(w, es, v);
    assert Inv(w, false) by { hide TrailOf; }
    RunInv(w, es, v);
    RunLogs(w, es, v);
    hide TrailOf, Initial, Reaches, WatchReaches;
    assert forall k :: 0 <= k < |v.log| ==> Honest(v.log[k]);
  }

  /** The answer to a write's SET_MTA, with a handler that asks for another write. */
  function Nested(): Event { Frame([RESPONSE_MARKER, 0, 0], Handlers([StartWrite(0, 0x1000, [2])], [])) }

  lemma NestedAnswered(w: Watch)
    requires w.hub.inFlight.Some? && w.hub.inFlight.value.ctr == 0
    ensures Enabled(w.hub, Nested()) && WatchAfter(w, Nested()) == WatchFinish(w, true, [], Nested().handlers)
  {
    assert DecodeDto([RESPONSE_MARKER, 0, 0]) == Response(0, 0, []);
    hide WatchFinish;
  }

  lemma GoodAnswered(w: Watch)
    requires w.hub.inFlight.Some? && w.hub.inFlight.value.ctr == 1
    ensures Enabled(w.hub, Good(1)) && WatchAfter(w, Good(1)) == WatchFinish(w, true, [], Silent)
  {
    assert DecodeDto([RESPONSE_MARKER, 0, 1]) == Response(0, 1, []);
    hide WatchFinish;
  }

  /** One write asked for by a handler of another's answer: success is reported, and no byte was ever sent. */
  lemma SuccessOfNothing() returns (h: Hub, v: Watch)
    ensures Initial(h) && h.enabled && h.allowWrite && forall i :: h.port(i)
    ensures WatchReaches(Watch(h, 0, 0, false, []), [App(StartWrite(0, 0, [1])), Nested(), Good(1)], v)
    ensures v.hub.written == [true] && v.log == [Report(0, 0x1000, [2], Some(Trail(0, 0x1000, [])), false)]
    ensures v.hub.sent == [Pending(SetMta(0, 0), 0, WriteDone), Pending(SetMta(0, 0x1000), 1, WriteDone)]
  {
    h := PowerUp(i => true);
    var w := Watch(h, 0, 0, false, []);
    StartLeaves(w);
    assert Initial(h) && forall i :: h.port(i);
    hide WatchAfter, WatchFinish, TrailOf, Enabled, Initial;
    var w1 := WatchAfter(w, App(StartWrite(0, 0, [1])));
    NestedAnswered(w1);
    NestedLeaves(w1);
    var w2 := WatchAfter(w1, Nested());
    GoodAnswered(w2);
    EndLeaves(w2);
    v := WatchAfter(w2, Good(1));
    Prepended(w2, Good(1), [], v);
    Prepended(w1, Nested(), [Good(1)], v);
    Prepended(w, App(StartWrite(0, 0, [1])), [Nested(), Good(1)], v);
  }

  lemma Prepended(w: Watch, e: Event, es: seq<Event>, v: Watch)
    requires Enabled(w.hub, e) && WatchReaches(WatchAfter(w, e), es, v)
    ensures WatchReaches(w, [e] + es, v)
  {
    assert ([e] + es)[1..] == es;
    hide WatchAfter;
  }

  lemma StartLeaves(w: Watch)
    requires w.hub.enabled && w.hub.allowWrite && (forall i :: w.hub.port(i)) && w.log == [] && w.hub.written == []
    requires w.hub.inFlight.None? && w.hub.sent == [] && w.hub.ctr == 0
    ensures Enabled(w.hub, App(StartWrite(0, 0, [1])))
    ensures var q := WatchAfter(w, App(StartWrite(0, 0, [1])));
      && q.hub.enabled && q.hub.allowWrite && q.hub.port == w.hub.port && q.log == [] && q.hub.written == []
      && q.hub.inFlight == Some(Pending(SetMta(0, 0), 0, WriteDone)) && q.hub.sent == [Pending(SetMta(0, 0), 0, WriteDone)]
      && q.hub.ctr == 1 && q.hub.mem.toWrite == [1] && q.hub.mem.offset == 0 && q.hub.mem.writing
  {
    hide TrailOf;
  }

  lemma NestedLeaves(w: Watch)
    requires w.hub.enabled && w.hub.allowWrite && (forall i :: w.hub.port(i)) && w.log == [] && w.hub.written == []
    requires w.hub.inFlight == Some(Pending(SetMta(0, 0), 0, WriteDone)) && w.hub.sent == [Pending(SetMta(0, 0), 0, WriteDone)]
    requires w.hub.ctr == 1 && w.hub.mem.toWrite == [1] && w.hub.mem.offset == 0 && w.hub.mem.writing
    ensures var q := WatchFinish(w, true, [], Nested().handlers);
      && q.hub.sent == [Pending(SetMta(0, 0), 0, WriteDone), Pending(SetMta(0, 0x1000), 1, WriteDone)]
      && q.hub.inFlight == Some(Pending(SetMta(0, 0x1000), 1, WriteDone)) && q.hub.mem.toWrite == [2] && q.hub.mem.offset == 1
      && q.hub.mem.writing && q.ext == 0 && q.address == 0x1000 && !q.orderly && q.log == [] && q.hub.written == []
  {
    var call := StartWrite(0, 0x1000, [2]);
    assert [call][1..] == [];
    var w0 := w.(hub := w.hub.(inFlight := None));
    assert WatchHandled(w0, [call], true) == WatchCalled(w0, call, true);
    hide TrailOf;
  }

  lemma EndLeaves(w: Watch)
    requires w.hub.inFlight == Some(Pending(SetMta(0, 0x1000), 1, WriteDone)) && w.hub.mem.toWrite == [2] && w.hub.mem.offset == 1
    requires w.hub.sent == [Pending(SetMta(0, 0), 0, WriteDone), Pending(SetMta(0, 0x1000), 1, WriteDone)]
    requires w.hub.mem.writing && w.ext == 0 && w.address == 0x1000 && !w.orderly && w.log == [] && w.hub.written == []
    ensures var q := WatchFinish(w, true, [], Silent);
      && q.hub.written == [true] && q.hub.sent == w.hub.sent
      && q.log == [Report(0, 0x1000, [2], Some(Trail(0, 0x1000, [])), false)]
  {
    TrailMore([Pending(SetMta(0, 0), 0, WriteDone)], Pending(SetMta(0, 0x1000), 1, WriteDone));
    assert w.hub.sent == [Pending(SetMta(0, 0), 0, WriteDone)] + [Pending(SetMta(0, 0x1000), 1, WriteDone)];
    hide TrailOf;
  }
}
