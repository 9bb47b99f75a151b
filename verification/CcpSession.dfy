/** Whether the master takes itself for connected, over every run: what the last answered connect or disconnect
    said, and when a connect is asked for. */
module CcpSession {
  import opened Words
  import opened CcpHub
  import opened CcpDaq

  /** The event brings a good answer to the outstanding command. */
  predicate AnswersWell(h: Hub, e: Event) {
    e.Frame? && h.inFlight.Some? &&
    match DecodeDto(e.frame)
    case Response(code, ctr, _) => ctr == h.inFlight.value.ctr && code == 0
    case _ => false
  }

  /** A connect that is answered well opens the session, a disconnect ends it. */
  function Session(open: bool, h: Hub, e: Event): bool {
    if !AnswersWell(h, e) then open
    else if h.inFlight.value.cro == Connect then true
    else if h.inFlight.value.cro == Disconnect then false
    else open
  }

  function SessionAfter(open: bool, h: Hub, es: seq<Event>): bool
    decreases |es|
  {
    if es == [] || !Enabled(h, es[0]) then open else SessionAfter(Session(open, h, es[0]), After(h, es[0]), es[1..])
  }

  lemma CompleteKeeps(h: Hub, step: Option<Step>)
    ensures Complete(h, step).connected == h.connected
  {
  }

  lemma FrameKeeps(h: Hub, frame: Bytes)
    ensures HandleDaqFrame(h, frame).connected == h.connected
  {
    hide Sampled, Complete;
    CompleteKeeps(h.(daq := Sampled(h.daq, h.anchor, frame)), None);
  }

  lemma StepKeeps(h: Hub, cro: Cro, cont: Cont, step: Step)
    ensures DaqStep(h, cro, cont, step).connected == h.connected
  {
    CompleteKeeps(Send(h, cro, cont).0, Some(step));
    hide Complete;
  }

  lemma FieldKeeps(h: Hub, index: nat)
    ensures WriteField(h, index).connected == h.connected
  {
    hide DaqStep;
    if index >= |h.daq.plan.layout| {
      StepKeeps(h, SetSStatus(0x82), StatusDone, AtStatus);
    } else {
      StepKeeps(h, WriteDaq(h.daq.plan.layout[index]), FieldDone(index), AtField);
    }
  }

  lemma ContinueKeeps(h: Hub, c: Cont, ok: bool, data: Bytes)
    ensures Continue(h, c, ok, data).connected == h.connected
  {
    hide Complete, DaqStep, WriteField;
    var r := h.daq.plan.request;
    if IsChain(c) && !ok {
      ChainFails(h, c, data);
      CompleteKeeps(h, Some(FailStep(c)));
    } else {
      match c
      case SizeDone => StepKeeps(h, SetDaqPtr(r.list), PtrDone, AtPtr);
      case PtrDone => FieldKeeps(h, 0);
      case FieldDone(index) => FieldKeeps(h, index + 1);
      case StatusDone => StepKeeps(h, StartStop(r.list, r.event, r.rate), StartDone, AtStart);
      case _ =>
    }
  }

  lemma CalledKeeps(h: Hub, call: Call)
    ensures Called(h, call).connected == h.connected
  {
    hide TotalSize;
  }

  lemma {:induction false} HandledKeeps(h: Hub, calls: seq<Call>)
    ensures Handled(h, calls).connected == h.connected
    decreases |calls|
  {
    if calls != [] {
      CalledKeeps(h, calls[0]);
      hide Called;
      HandledKeeps(Called(h, calls[0]), calls[1..]);
    }
  }

  lemma FinishSets(h: Hub, ok: bool, data: Bytes, handlers: Handlers)
    requires h.inFlight.Some?
    ensures Finish(h, ok, data, handlers).connected ==
      if ok && h.inFlight.value.cro == Connect then true else if ok && h.inFlight.value.cro == Disconnect then false else h.connected
  {
    var h1 := h.(inFlight := None);
    HandledKeeps(h1, handlers.first);
    var h2 := Handled(h1, handlers.first);
    HandledKeeps(h2.(connected := true), handlers.onConnect);
    ContinueKeeps(Heard(h, ok, handlers), h.inFlight.value.cont, ok, data);
    hide Continue, Handled;
  }

  lemma StepSession(h: Hub, e: Event)
    requires Enabled(h, e)
    ensures After(h, e).connected == Session(h.connected, h, e)
  {
    hide Called, Handled, HandleDaqFrame, Finish, Complete;
    match e
    case Enable(on) =>
    case App(call) => CalledKeeps(h, call);
    case Frame(frame, handlers) =>
      match DecodeDto(frame) {
        case Invalid =>
        case DaqFrame(_) => HandledKeeps(h, handlers.first); FrameKeeps(Handled(h, handlers.first), frame);
        case Response(code, ctr, data) =>
          if h.inFlight.Some? && h.inFlight.value.ctr == ctr { FinishSets(h, code == 0, data, handlers); }
      }
    case ResponseTimeout(handlers) => FinishSets(h, false, [], handlers);
    case CollectTimeout => CompleteKeeps(h, Some(AtCollect));
  }

  /** In every run, whatever handlers call back: the session is open exactly when the last connect or disconnect
      answered well was a connect. */
  lemma {:induction false} OpenIffConnected(h: Hub, es: seq<Event>, q: Hub)
    requires Reaches(h, es, q)
    ensures q.connected == SessionAfter(h.connected, h, es)
    decreases |es|
  {
    if es != [] {
      StepSession(h, es[0]);
      hide After, Session, Enabled;
      OpenIffConnected(After(h, es[0]), es[1..], q);
    }
  }

  /** Asking for a connection sends a connect exactly when there is none and the hub can send; while the session
      is open nothing happens. */
  lemma ConnectsOnlyWhenClosed(h: Hub, es: seq<Event>, q: Hub)
    requires Reaches(h, es, q)
    ensures var v, open := After(q, App(ConnectAnd)), SessionAfter(h.connected, h, es);
      && (open ==> v == q)
      && (!open && q.enabled && q.inFlight.None? && q.port(q.injects) ==>
            v.sent == q.sent + [Pending(Connect, q.ctr, ConnectDone)])
      && (v.sent != q.sent ==> !open)
  {
    OpenIffConnected(h, es, q);
    hide SessionAfter, Reaches;
  }
}
