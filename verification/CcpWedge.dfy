/** Memory sequences whose next command cannot be sent. A read leaves the hub owing it bytes, which refuses
    every later read; a write keeps its data and its callback, which a later failing read may yet call. */
module CcpWedge {
  import opened Words
  import opened CcpHub
  import opened CcpDaq

  /** A read is owed bytes but no command of its own is outstanding. */
  ghost predicate Wedged(h: Hub) {
    h.mem.remaining != 0 && (h.inFlight.Some? ==> !h.inFlight.value.cont.ReadMtaDone? && !h.inFlight.value.cont.ReadDone?)
  }

  /** The read is refused exactly when it is empty, a command is outstanding, an earlier read is still owed
      bytes, or the first command cannot be sent; in the last case alone the hub is left wedged. */
  lemma ReadAcceptedIff(h: Hub, ext: byte, at: u32, len: nat)
    ensures ReadMemory(h, ext, at, len).1 <==>
      len != 0 && h.inFlight.None? && h.mem.remaining == 0 && h.enabled && h.port(h.injects)
    ensures !Wedged(h) ==> (Wedged(ReadMemory(h, ext, at, len).0) <==>
      len != 0 && h.inFlight.None? && h.mem.remaining == 0 && !(h.enabled && h.port(h.injects)))
  {
  }

  /** A write still has its data and its callback, but no command of its own is outstanding. */
  ghost predicate Abandoned(h: Hub) {
    h.mem.toWrite != [] && h.mem.writing && !Current(h).WriteDone?
  }

  predicate OfARead(c: Cont) { c.ReadMtaDone? || c.ReadDone? }

  /** The same further down a chain, in the hub as the handlers of the answer have left it: a read that has
      more to fetch is wedged, and a write that has more to send is left without a command, its callback
      told neither of success nor of failure, exactly when its next command cannot be sent. A handler's
      own command takes the slot and has the same effect, unless it starts such a sequence itself. */
  lemma ChainAbandonedIff(h: Hub, data: Bytes)
    ensures ReadChunk(h.mem.remaining) <= |data| && h.mem.remaining > ReadChunk(h.mem.remaining) ==>
      var q := ContinueRead(h, true, data);
      q.delivered == h.delivered &&
      (Wedged(q) <==> !(h.enabled && h.inFlight.None? && h.port(h.injects)) && !OfARead(Current(h)))
    ensures h.mem.offset < |h.mem.toWrite| ==>
      var q := ContinueWrite(h, true);
      q.written == h.written && q.mem.toWrite == h.mem.toWrite &&
      (h.mem.writing ==>
        (Abandoned(q) <==>
          !(h.enabled && h.allowWrite && h.inFlight.None? && h.port(h.injects)) && !Current(h).WriteDone?))
  {
  }

  /** The call is a memory write that gets past its guard: it takes the place of any write before it. */
  predicate TakesWrite(h: Hub, call: Call) {
    call.StartWrite? && call.data != [] && h.inFlight.None? && h.allowWrite
  }

  lemma TakenReplaces(h: Hub, call: Call)
    requires call.StartWrite?
    ensures var q := Called(h, call);
      q.written == h.written &&
      q.mem == if TakesWrite(h, call) then h.mem.(toWrite := call.data, offset := 0, writing := true) else h.mem
  {
  }

  predicate AnyTakesWrite(h: Hub, calls: seq<Call>)
    decreases |calls|
  {
    calls != [] && (TakesWrite(h, calls[0]) || AnyTakesWrite(Called(h, calls[0]), calls[1..]))
  }

  /** While this event is handled a memory write gets past its guard. */
  predicate WriteTaken(h: Hub, e: Event) {
    match e
    case App(call) => TakesWrite(h, call)
    case Frame(frame, handlers) =>
      (match DecodeDto(frame)
       case Invalid => false
       case DaqFrame(_) => AnyTakesWrite(h, handlers.first)
       case Response(code, ctr, _) =>
         h.inFlight.Some? && h.inFlight.value.ctr == ctr && WriteTakenHearing(h, code == 0, handlers))
    case ResponseTimeout(handlers) => h.inFlight.Some? && WriteTakenHearing(h, false, handlers)
    case _ => false
  }

  predicate WriteTakenHearing(h: Hub, ok: bool, handlers: Handlers)
    requires h.inFlight.Some?
  {
    var h0 := h.(inFlight := None);
    AnyTakesWrite(h0, handlers.first) ||
    (ok && h.inFlight.value.cro == Connect &&
      AnyTakesWrite(Handled(h0, handlers.first).(connected := true), handlers.onConnect))
  }

  ghost predicate NoWriteTaken(h: Hub, es: seq<Event>)
    decreases |es|
  {
    es == [] || (Enabled(h, es[0]) && !WriteTaken(h, es[0]) && NoWriteTaken(After(h, es[0]), es[1..]))
  }

  /** Only the memory helpers touch the debt, and what else is sent belongs to no memory sequence. */
  ghost predicate Aside(h: Hub, q: Hub) {
    && q.mem == h.mem && q.delivered == h.delivered && q.written == h.written
    && (Current(q) == Current(h) || IsDaqCont(Current(q)) || Current(q).NoCont? || Current(q).ConnectDone?)
  }

  lemma CompleteAside(h: Hub, step: Option<Step>)
    ensures Aside(h, Complete(h, step))
  {
  }

  lemma DaqReadAside(h: Hub, r: DaqRequest)
    ensures Aside(h, DaqRead(h, r).0)
  {
    hide TotalSize;
  }

  /** Wedged as before, and nothing delivered. */
  ghost predicate StillWedged(h: Hub, q: Hub) { Wedged(q) && q.delivered == h.delivered }

  lemma CalledWedged(h: Hub, call: Call)
    requires Wedged(h)
    ensures StillWedged(h, Called(h, call))
  {
    if call.StartDaq? { DaqReadAside(h, call.request); }
    hide DaqRead;
  }

  lemma {:induction false} HandledWedged(h: Hub, calls: seq<Call>)
    requires Wedged(h)
    ensures StillWedged(h, Handled(h, calls))
    decreases |calls|
  {
    hide Wedged, Called;
    if calls != [] {
      CalledWedged(h, calls[0]);
      HandledWedged(Called(h, calls[0]), calls[1..]);
    }
  }

  lemma HeardWedged(h: Hub, ok: bool, handlers: Handlers)
    requires Wedged(h) && h.inFlight.Some?
    ensures StillWedged(h, Heard(h, ok, handlers))
  {
    hide Handled;
    var h0 := h.(inFlight := None);
    HandledWedged(h0, handlers.first);
    var h1 := Handled(h0, handlers.first);
    if ok && h.inFlight.value.cro == Connect { HandledWedged(h1.(connected := true), handlers.onConnect); }
  }

  lemma ContinueAside(h: Hub, c: Cont, ok: bool, data: Bytes)
    requires !c.ReadMtaDone? && !c.ReadDone? && !c.WriteDone?
    ensures Aside(h, Continue(h, c, ok, data))
  {
    if IsChain(c) && !ok {
      ChainFails(h, c, data);
      CompleteAside(h, Some(FailStep(c)));
      hide Complete, Continue;
    } else if IsChain(c) {
      ChainAside(h, c, data);
      hide Continue;
    }
  }

  lemma ChainAside(h: Hub, c: Cont, data: Bytes)
    requires IsChain(c)
    ensures Aside(h, Continue(h, c, true, data))
  {
    hide DaqStep;
    var r := h.daq.plan.request;
    match c
    case SizeDone => DaqStepAside(h, SetDaqPtr(r.list), PtrDone, AtPtr);
    case StatusDone => DaqStepAside(h, StartStop(r.list, r.event, r.rate), StartDone, AtStart);
    case StartDone =>
    case PtrDone => FieldAside(h, 0);
    case FieldDone(index) => FieldAside(h, index + 1);
  }

  lemma FieldAside(h: Hub, index: nat)
    ensures Aside(h, WriteField(h, index))
  {
    hide DaqStep;
    if index >= |h.daq.plan.layout| {
      DaqStepAside(h, SetSStatus(0x82), StatusDone, AtStatus);
    } else {
      DaqStepAside(h, WriteDaq(h.daq.plan.layout[index]), FieldDone(index), AtField);
    }
  }

  lemma DaqStepAside(h: Hub, cro: Cro, cont: Cont, step: Step)
    requires IsDaqCont(cont)
    ensures Aside(h, DaqStep(h, cro, cont, step))
  {
    var h1 := Send(h, cro, cont).0;
    CompleteAside(h1, Some(step));
    hide Complete;
  }

  lemma WriteContinues(h: Hub, ok: bool, data: Bytes)
    requires Wedged(h)
    ensures var q := Continue(h, WriteDone, ok, data);
      if ok then StillWedged(h, q) else q.mem.remaining == 0
  {
  }

  /** An answer, or its absence, clears the debt exactly when it fails a write's command. */
  lemma FinishWedged(h: Hub, ok: bool, data: Bytes, handlers: Handlers)
    requires Wedged(h) && h.inFlight.Some?
    ensures var q := Finish(h, ok, data, handlers);
      if Current(h).WriteDone? && !ok then q.mem.remaining == 0 else StillWedged(h, q)
  {
    var h1, c := Heard(h, ok, handlers), Current(h);
    HeardWedged(h, ok, handlers);
    hide Heard, Continue;
    if c.WriteDone? { WriteContinues(h1, ok, data); } else { ContinueAside(h1, c, ok, data); }
  }

  lemma DaqFrameAside(h: Hub, frame: Bytes)
    ensures Aside(h, HandleDaqFrame(h, frame))
  {
    hide Complete, Sampled;
    CompleteAside(h.(daq := Sampled(h.daq, h.anchor, frame)), None);
  }

  /** The event fails a memory write: its outstanding command goes unanswered or is answered with an error. */
  predicate WriteFails(h: Hub, e: Event) {
    h.inFlight.Some? && h.inFlight.value.cont.WriteDone? &&
    match e
    case ResponseTimeout(_) => true
    case Frame(frame, _) =>
      (match DecodeDto(frame)
       case Response(code, ctr, _) => ctr == h.inFlight.value.ctr && code != 0
       case _ => false)
    case _ => false
  }

  lemma WedgedStep(h: Hub, e: Event)
    requires Wedged(h) && Enabled(h, e)
    ensures if WriteFails(h, e) then After(h, e).mem.remaining == 0 else StillWedged(h, After(h, e))
  {
    hide Called, Handled, Complete, Finish, HandleDaqFrame;
    match e
    case Enable(on) =>
    case App(call) => CalledWedged(h, call);
    case Frame(frame, handlers) =>
      match DecodeDto(frame) {
        case Invalid =>
        case DaqFrame(_) =>
          HandledWedged(h, handlers.first);
          DaqFrameAside(Handled(h, handlers.first), frame);
        case Response(code, ctr, data) =>
          if h.inFlight.Some? && h.inFlight.value.ctr == ctr { FinishWedged(h, code == 0, data, handlers); }
      }
    case ResponseTimeout(handlers) => FinishWedged(h, false, [], handlers);
    case CollectTimeout => CompleteAside(h, Some(AtCollect));
  }

  ghost predicate SomeWriteFails(h: Hub, es: seq<Event>)
    decreases |es|
  {
    es != [] && Enabled(h, es[0]) && (WriteFails(h, es[0]) || SomeWriteFails(After(h, es[0]), es[1..]))
  }

  /** At no point of the run is a read taken or delivered. */
  ghost predicate RefusesThroughout(h: Hub, es: seq<Event>)
    decreases |es|
  {
    && (forall ext, at, len :: !ReadMemory(h, ext, at, len).1) && h.mem.remaining != 0
    && (es == [] || (Enabled(h, es[0]) && After(h, es[0]).delivered == h.delivered && RefusesThroughout(After(h, es[0]), es[1..])))
  }

  /** A wedged hub refuses reads until a memory write fails: in every run it owes its bytes and takes no read
      from beginning to end exactly when no command of a write fails. */
  lemma {:induction false} WedgedUntilAWriteFails(h: Hub, es: seq<Event>, q: Hub)
    requires Wedged(h) && Reaches(h, es, q)
    ensures RefusesThroughout(h, es) <==> !SomeWriteFails(h, es)
    ensures !SomeWriteFails(h, es) ==> StillWedged(h, q)
    decreases |es|
  {
    assert forall ext, at, len :: !ReadMemory(h, ext, at, len).1;
    if es != [] {
      WedgedStep(h, es[0]);
      hide Wedged, After, WriteFails;
      if !WriteFails(h, es[0]) { WedgedUntilAWriteFails(After(h, es[0]), es[1..], q); }
    }
  }

  // ----- a write left without a command -----

  /** Its callback has been called, and no write has been taken since. */
  ghost predicate Told(h: Hub) {
    h.mem.toWrite == [] && !h.mem.writing && !Current(h).WriteDone?
  }

  /** The event answers, or lets expire, a command of a memory read, and the read fails by it: no answer, an
      error, or fewer bytes than the chunk asked for. */
  predicate ReadFails(h: Hub, e: Event) {
    h.inFlight.Some? &&
    var c := h.inFlight.value.cont;
    OfARead(c) &&
    match e
    case ResponseTimeout(_) => true
    case Frame(frame, handlers) =>
      (match DecodeDto(frame)
       case Response(code, ctr, data) =>
         ctr == h.inFlight.value.ctr &&
         (code != 0 || (c.ReadDone? && |data| < ReadChunk(Heard(h, true, handlers).mem.remaining)))
       case _ => false)
    case _ => false
  }

  ghost predicate SomeReadFails(h: Hub, es: seq<Event>)
    decreases |es|
  {
    es != [] && Enabled(h, es[0]) && (ReadFails(h, es[0]) || SomeReadFails(After(h, es[0]), es[1..]))
  }

  /** Leaves the write as it is: nothing of it sent, nobody told. */
  ghost predicate Spares(h: Hub, q: Hub) {
    && q.mem.toWrite == h.mem.toWrite && q.mem.writing == h.mem.writing && q.written == h.written
    && (!Current(h).WriteDone? ==> !Current(q).WriteDone?)
  }

  lemma CalledSpares(h: Hub, call: Call)
    requires !TakesWrite(h, call)
    ensures Spares(h, Called(h, call))
  {
    if call.StartDaq? { DaqReadAside(h, call.request); }
    hide DaqRead;
  }

  lemma {:induction false} HandledSpares(h: Hub, calls: seq<Call>)
    requires !AnyTakesWrite(h, calls)
    ensures Spares(h, Handled(h, calls))
    decreases |calls|
  {
    hide Called, TakesWrite;
    if calls != [] {
      CalledSpares(h, calls[0]);
      HandledSpares(Called(h, calls[0]), calls[1..]);
    }
  }

  lemma HeardSpares(h: Hub, ok: bool, handlers: Handlers)
    requires h.inFlight.Some? && !WriteTakenHearing(h, ok, handlers)
    ensures Spares(h.(inFlight := None), Heard(h, ok, handlers))
  {
    hide Handled, AnyTakesWrite;
    var h0 := h.(inFlight := None);
    HandledSpares(h0, handlers.first);
    var h1 := Handled(h0, handlers.first);
    if ok && h.inFlight.value.cro == Connect { HandledSpares(h1.(connected := true), handlers.onConnect); }
  }

  /** What a read's continuation does to a write: nothing, unless the read fails. */
  lemma ReadContinues(h: Hub, c: Cont, ok: bool, data: Bytes)
    requires c.ReadMtaDone? || c.ReadDone?
    ensures var q := Continue(h, c, ok, data);
      if ok && (c.ReadDone? ==> |data| >= ReadChunk(h.mem.remaining)) then Spares(h, q)
      else q == FailSequence(h)
  {
  }

  lemma FinishTells(h: Hub, ok: bool, data: Bytes, handlers: Handlers)
    requires h.inFlight.Some? && !WriteTakenHearing(h, ok, handlers) && !Current(h).WriteDone?
    ensures var c, h1 := Current(h), Heard(h, ok, handlers);
      var fails := (c.ReadMtaDone? || c.ReadDone?) && (!ok || (c.ReadDone? && |data| < ReadChunk(h1.mem.remaining)));
      (Abandoned(h) ==> Settles(h, Finish(h, ok, data, handlers), fails)) &&
      (Told(h) ==> Told(Finish(h, ok, data, handlers)) && Finish(h, ok, data, handlers).written == h.written)
  {
    var c, h1 := Current(h), Heard(h, ok, handlers);
    HeardSpares(h, ok, handlers);
    hide Heard, Continue;
    if c.ReadMtaDone? || c.ReadDone? { ReadContinues(h1, c, ok, data); } else { ContinueAside(h1, c, ok, data); }
  }

  ghost predicate Settles(h: Hub, q: Hub, fails: bool) {
    if fails then Told(q) && q.written == h.written + [false] else Abandoned(q) && q.written == h.written
  }

  lemma TellStep(h: Hub, e: Event)
    requires Enabled(h, e) && !WriteTaken(h, e)
    ensures Abandoned(h) ==> Settles(h, After(h, e), ReadFails(h, e))
    ensures Told(h) ==> Told(After(h, e)) && After(h, e).written == h.written
  {
    hide Called, Handled, Complete, Finish, Heard, HandleDaqFrame, AnyTakesWrite, TakesWrite, WriteTakenHearing;
    if Abandoned(h) || Told(h) {
      match e
      case Enable(on) =>
      case App(call) => CalledSpares(h, call);
      case Frame(frame, handlers) =>
        match DecodeDto(frame) {
          case Invalid =>
          case DaqFrame(_) =>
            HandledSpares(h, handlers.first);
            DaqFrameAside(Handled(h, handlers.first), frame);
          case Response(code, ctr, data) =>
            if h.inFlight.Some? && h.inFlight.value.ctr == ctr {
              hide DecodeDto;
              FinishTells(h, code == 0, data, handlers);
            }
        }
      case ResponseTimeout(handlers) => FinishTells(h, false, [], handlers);
      case CollectTimeout => CompleteAside(h, Some(AtCollect));
    }
  }

  lemma {:induction false} ToldOnce(h: Hub, es: seq<Event>, q: Hub)
    requires Told(h) && Reaches(h, es, q) && NoWriteTaken(h, es)
    ensures q.written == h.written
    decreases |es|
  {
    if es != [] {
      hide Told, After, WriteTaken;
      TellStep(h, es[0]);
      ToldOnce(After(h, es[0]), es[1..], q);
    }
  }

  /** Until another write takes its place, an abandoned write is told of its failure exactly when a memory
      read fails, and then once; it is never told of success. */
  lemma {:induction false} AbandonedToldIff(h: Hub, es: seq<Event>, q: Hub)
    requires Abandoned(h) && Reaches(h, es, q) && NoWriteTaken(h, es)
    ensures q.written == h.written + if SomeReadFails(h, es) then [false] else []
    decreases |es|
  {
    if es != [] {
      var h1 := After(h, es[0]);
      TellStep(h, es[0]);
      hide Abandoned, Told, After, WriteTaken, ReadFails;
      if ReadFails(h, es[0]) { ToldOnce(h1, es[1..], q); } else { AbandonedToldIff(h1, es[1..], q); }
    }
  }

  // ----- the two runs -----

  function PowerUp(port: nat -> bool): Hub {
    var nothing := Daq(false, false, Plan(DaqRequest([], 0, 0, 0, 0, 0, false), false, []), [], false, 0, 0, None, false, [], false, false);
    Hub(true, true, None, true, 0, None, nothing, Mem(0, [], false, [], 0, false), port, 0, [], 0, [], [], [])
  }

  /** One refused frame at power-up: the read is not taken, and none ever will be until a write is. */
  lemma WedgedAtOnce(ext: byte, at: u32, len: nat) returns (h: Hub, q: Hub)
    requires len != 0
    ensures Initial(h) && Reaches(h, [App(StartRead(ext, at, len))], q) && Wedged(q)
    ensures !ReadMemory(h, ext, at, len).1
  {
    h := PowerUp(i => i != 0);
    q := After(h, App(StartRead(ext, at, len)));
    var es := [App(StartRead(ext, at, len))];
    assert es[1..] == [] && Reaches(q, [], q);
  }

  lemma Joined(h: Hub, e: Event, es: seq<Event>, q: Hub)
    requires Enabled(h, e) && Reaches(After(h, e), es, q)
    ensures Reaches(h, [e] + es, q)
  {
    assert ([e] + es)[1..] == es;
    hide After;
  }

  function Good(ctr: byte): Event { Frame([RESPONSE_MARKER, 0, ctr], Silent) }

  lemma GoodFinishes(h: Hub, ctr: byte)
    requires h.inFlight.Some? && h.inFlight.value.ctr == ctr
    ensures Enabled(h, Good(ctr)) && After(h, Good(ctr)) == Finish(h, true, [], Silent)
  {
    assert DecodeDto([RESPONSE_MARKER, 0, ctr]) == Response(0, ctr, []);
    hide Finish;
  }

  /** The second data frame of a twelve-byte write is refused; a read that then goes unanswered tells the
      write. */
  lemma ToldByALaterRead(data: Bytes, len: nat) returns (h: Hub, abandoned: Hub, q: Hub)
    requires |data| == 12 && len != 0
    ensures Initial(h) && Reaches(h, [App(StartWrite(0, 0, data)), Good(0), Good(1)], abandoned)
    ensures Abandoned(abandoned) && abandoned.written == []
    ensures Reaches(abandoned, [App(StartRead(0, 0, len)), ResponseTimeout(Silent)], q) && q.written == [false]
  {
    h := PowerUp(i => i != 2);
    var h1 := After(h, App(StartWrite(0, 0, data)));
    var h2 := Finish(h1, true, [], Silent);
    var h3 := Finish(h2, true, [], Silent);
    GoodFinishes(h1, 0);
    GoodFinishes(h2, 1);
    abandoned := h3;
    var h4 := After(h3, App(StartRead(0, 0, len)));
    q := After(h4, ResponseTimeout(Silent));
    hide After, Finish;
    Joined(h2, Good(1), [], h3);
    Joined(h1, Good(0), [Good(1)], h3);
    Joined(h, App(StartWrite(0, 0, data)), [Good(0), Good(1)], h3);
    Joined(h4, ResponseTimeout(Silent), [], q);
    Joined(h3, App(StartRead(0, 0, len)), [ResponseTimeout(Silent)], q);
  }

  /** The answer to the first command of a sequence, with a handler that sends a command of its own. */
  function Greedy(): Event { Frame([RESPONSE_MARKER, 0, 0], Handlers([Command(Plain(0, false))], [])) }

  lemma GreedyFinishes(h: Hub)
    requires h.inFlight.Some? && h.inFlight.value.ctr == 0
    ensures Enabled(h, Greedy()) && After(h, Greedy()) == Finish(h, true, [], Greedy().handlers)
  {
    assert DecodeDto([RESPONSE_MARKER, 0, 0]) == Response(0, 0, []);
    hide Finish;
  }

  /** With a port that takes every frame: a response handler's own command wedges a read, and leaves a write
      without a command. */
  lemma TakenByAHandler(data: Bytes, len: nat) returns (h: Hub, afterRead: Hub, afterWrite: Hub)
    requires data != [] && len != 0
    ensures Initial(h) && h.enabled && h.allowWrite && forall i :: h.port(i)
    ensures Reaches(h, [App(StartRead(0, 0, len)), Greedy()], afterRead) && Wedged(afterRead)
    ensures Reaches(h, [App(StartWrite(0, 0, data)), Greedy()], afterWrite) && Abandoned(afterWrite)
  {
    h := PowerUp(i => true);
    var r, w := After(h, App(StartRead(0, 0, len))), After(h, App(StartWrite(0, 0, data)));
    GreedyFinishes(r);
    GreedyFinishes(w);
    afterRead, afterWrite := After(r, Greedy()), After(w, Greedy());
    GreedyTakesTheSlot(r);
    GreedyTakesTheSlot(w);
    hide After, Finish, Heard;
    Joined(r, Greedy(), [], afterRead);
    Joined(h, App(StartRead(0, 0, len)), [Greedy()], afterRead);
    Joined(w, Greedy(), [], afterWrite);
    Joined(h, App(StartWrite(0, 0, data)), [Greedy()], afterWrite);
  }

  lemma GreedyTakesTheSlot(h: Hub)
    requires h.inFlight.Some? && h.inFlight.value.cro.SetMta? && h.enabled && h.port(h.injects)
    requires (h.inFlight.value.cont.ReadMtaDone? && h.mem.remaining != 0) ||
             (h.inFlight.value.cont.WriteDone? && h.mem.offset == 0 && h.mem.toWrite != [] && h.mem.writing)
    ensures var q := Finish(h, true, [], Greedy().handlers);
      if h.inFlight.value.cont.WriteDone? then Abandoned(q) else Wedged(q)
  {
    var call := Command(Plain(0, false));
    assert [call][1..] == [];
    assert Handled(h.(inFlight := None), [call]) == Called(h.(inFlight := None), call);
  }
}
