/** A master alone on the bus: every byte it drives comes back. Whatever way its break is presented, no
    collision is ever counted and every header it answers yields one accepted frame. */
module LinSelfEcho {
  import opened LinFrames
  import opened LinResponses
  import opened LinNode

  /** Driven and not yet echoed. A break may still owe a zero byte, a break event, or both. */
  datatype Driven = Break(zeroDue: bool, eventDue: bool) | Byte(b: bv8)

  datatype Bus = Bus(node: Node, wire: seq<Driven>)

  /** `Idle` is the inter-byte timeout, which needs every echo to have returned; a header is sent only on
      an idle bus outside a frame. */
  datatype Event =
    | Header(id: bv8, zero: bool, event: bool)
    | EchoZero | EchoEvent | EchoNext | Idle
    | Publish(id: bv8, payload: seq<bv8>, enhanced: bool, preserve: bool)

  /** A configured length, where there is one, is the length published. */
  ghost predicate HintsRight(hint: bv8 -> nat, slots: seq<Slot>) {
    forall i :: 0 <= i < |slots| && slots[i].bytes != [] ==> hint(slots[i].id) == 0 || hint(slots[i].id) + 1 == |slots[i].bytes|
  }

  ghost predicate Enabled(s: Bus, e: Event) {
    match e
    case Header(id, zero, event) => id <= 0x3F && (zero || event) && s.wire == [] && s.node.state != InData && s.node.mode == Master
    case EchoZero => s.wire != [] && s.wire[0].Break? && s.wire[0].zeroDue
    case EchoEvent => s.wire != [] && s.wire[0].Break? && s.wire[0].eventDue
    case EchoNext => s.wire != [] && s.wire[0].Byte?
    case Idle => s.wire == []
    case Publish(id, payload, enhanced, preserve) =>
      HintsRight(s.node.hint, SetResponse(s.node.slots, id, payload, enhanced, preserve).0)
  }

  function Bytes(bytes: seq<bv8>): (ds: seq<Driven>)
    ensures |ds| == |bytes| && forall i :: 0 <= i < |ds| ==> ds[i] == Byte(bytes[i])
  {
    seq(|bytes|, i requires 0 <= i < |bytes| => Byte(bytes[i]))
  }

  /** The break's echo with one presentation done; it is over when none is due. */
  function BreakLeft(zeroDue: bool, eventDue: bool): seq<Driven> {
    if zeroDue || eventDue then [Break(zeroDue, eventDue)] else []
  }

  function After(s: Bus, e: Event): Bus
    requires Enabled(s, e)
  {
    match e
    case Header(id, zero, event) => Bus(SendHeader(s.node, id), [Break(zero, event), Byte(SYNC), Byte(PidOf(id))])
    case EchoZero =>
      var (n, bytes) := Receive(s.node, 0);
      Bus(n, BreakLeft(false, s.wire[0].eventDue) + s.wire[1..] + Bytes(bytes))
    case EchoEvent => Bus(OnBreak(s.node), BreakLeft(s.wire[0].zeroDue, false) + s.wire[1..])
    case EchoNext =>
      var (n, bytes) := Receive(s.node, s.wire[0].b);
      Bus(n, s.wire[1..] + Bytes(bytes))
    case Idle => s.(node := OnTimeout(s.node))
    case Publish(id, payload, enhanced, preserve) =>
      s.(node := s.node.(slots := SetResponse(s.node.slots, id, payload, enhanced, preserve).0))
  }

  // ----- the invariant -----

  /** What echoes the node expects for what is still on the wire. */
  function Expected(ds: seq<Driven>): (es: seq<Echo>)
    ensures |es| == |ds|
  {
    seq(|ds|, i requires 0 <= i < |ds| => match ds[i] case Break(_, _) => EchoBreak case Byte(b) => EchoByte(b))
  }

  ghost predicate Quiet(n: Node) {
    n.collisions == 0 && n.pidErrors == 0 && n.checksumErrors == 0 && n.mode == Master && TableOk(n.slots) && HintsRight(n.hint, n.slots)
  }

  /** Where the bus stands in a slot: idle, in a header, or in the response (`all` are its bytes). */
  datatype Phase = Resting | InBreak(id: bv8, first: bool) | AtSync(id: bv8) | AtPid(id: bv8) | Responding(id: bv8, all: seq<bv8>, enhanced: bool) | Unanswered

  ghost predicate AtRest(s: Bus) {
    s.wire == [] && s.node.echo == [] && s.node.state == AwaitBreak && s.node.frames == s.node.answered
  }

  ghost predicate AtBreak(s: Bus, id: bv8, first: bool) {
    && id <= 0x3F && |s.wire| == 3 && s.wire[0].Break? && (s.wire[0].zeroDue || s.wire[0].eventDue)
    && s.wire[1] == Byte(SYNC) && s.wire[2] == Byte(PidOf(id)) && s.node.frames == s.node.answered
    && (if first then s.node.state == AwaitBreak && s.node.echo == [EchoBreak, EchoByte(SYNC), EchoByte(PidOf(id))]
        else s.node.state == AwaitSync && s.node.echo == [EchoByte(SYNC), EchoByte(PidOf(id))])
  }

  ghost predicate AtSyncByte(s: Bus, id: bv8) {
    && id <= 0x3F && s.wire == [Byte(SYNC), Byte(PidOf(id))] && s.node.echo == [EchoByte(SYNC), EchoByte(PidOf(id))]
    && s.node.state == AwaitSync && s.node.frames == s.node.answered
  }

  ghost predicate AtPidByte(s: Bus, id: bv8) {
    && id <= 0x3F && s.wire == [Byte(PidOf(id))] && s.node.echo == [EchoByte(PidOf(id))] && s.node.state == AwaitId
    && s.node.frames == s.node.answered
  }

  ghost predicate AtData(s: Bus, id: bv8, all: seq<bv8>, enhanced: bool) {
    var n := s.node;
    && id <= 0x3F && SlotOk(Slot(id, all, enhanced)) && n.state == InData && n.pid == PidOf(id) && |all| > 0
    && (n.hint(id) == 0 || (n.hint(id) + 1 == |all| && |n.data| < |all|))
    && |n.data| <= |all| && n.data == all[..|n.data|] && s.wire == Bytes(all[|n.data|..])
    && n.echo == EchoBytes(all[|n.data|..]) && n.answered == n.frames + [Frame(id, all[..|all| - 1])]
  }

  ghost predicate AtNothing(s: Bus) {
    s.wire == [] && s.node.echo == [] && s.node.state == InData && s.node.data == [] && s.node.frames == s.node.answered
  }

  ghost predicate At(s: Bus, p: Phase) {
    match p
    case Resting => AtRest(s)
    case InBreak(id, first) => AtBreak(s, id, first)
    case AtSync(id) => AtSyncByte(s, id)
    case AtPid(id) => AtPidByte(s, id)
    case Responding(id, all, enhanced) => AtData(s, id, all, enhanced)
    case Unanswered => AtNothing(s)
  }

  function EchoBytes(bytes: seq<bv8>): (es: seq<Echo>)
    ensures |es| == |bytes| && forall i :: 0 <= i < |es| ==> es[i] == EchoByte(bytes[i])
  {
    seq(|bytes|, i requires 0 <= i < |bytes| => EchoByte(bytes[i]))
  }

  ghost predicate Inv(s: Bus) { Quiet(s.node) && exists p :: At(s, p) }

  lemma HeaderStep(s: Bus, id: bv8, zero: bool, event: bool)
    requires At(s, Resting) && Quiet(s.node) && Enabled(s, Header(id, zero, event))
    ensures At(After(s, Header(id, zero, event)), InBreak(id, true)) && Quiet(After(s, Header(id, zero, event)).node)
  {
    hide PidOf, TableOk, HintsRight;
    assert SendHeader(s.node, id).echo == [EchoBreak, EchoByte(SYNC), EchoByte(PidOf(id))];
  }

  lemma BreakStep(s: Bus, p: Phase, e: Event)
    requires At(s, p) && p.InBreak? && Quiet(s.node) && (e == EchoZero || e == EchoEvent) && Enabled(s, e)
    ensures var q := After(s, e); Quiet(q.node) && (At(q, InBreak(p.id, false)) || At(q, AtSync(p.id)))
  {
    hide PidOf, TableOk, HintsRight;
    var q, due := After(s, e), if e == EchoZero then s.wire[0].eventDue else s.wire[0].zeroDue;
    assert Bytes([]) == [];
    assert s.wire[1..] == [Byte(SYNC), Byte(PidOf(p.id))];
    if p.first {
      assert s.node.echo[1..] == [EchoByte(SYNC), EchoByte(PidOf(p.id))];
    }
    if due {
      assert At(q, InBreak(p.id, false));
    } else {
      assert At(q, AtSync(p.id));
    }
  }

  lemma SyncStep(s: Bus, p: Phase)
    requires At(s, p) && p.AtSync? && Quiet(s.node)
    ensures Enabled(s, EchoNext) && Quiet(After(s, EchoNext).node) && At(After(s, EchoNext), AtPid(p.id))
  {
    hide PidOf, TableOk, HintsRight;
    assert s.wire[1..] == [Byte(PidOf(p.id))] && s.node.echo[1..] == [EchoByte(PidOf(p.id))] && Bytes([]) == [];
  }

  lemma {:induction false} PushedAll(n: Node, bytes: seq<bv8>)
    requires |n.echo| + |bytes| <= ECHO_FIFO_SIZE
    ensures PushBytes(n, bytes) == n.(echo := n.echo + EchoBytes(bytes))
    decreases |bytes|
  {
    if bytes == [] {
      assert n.echo + EchoBytes(bytes) == n.echo;
    } else {
      PushedAll(PushEcho(n, EchoByte(bytes[0])), bytes[1..]);
      assert n.echo + [EchoByte(bytes[0])] + EchoBytes(bytes[1..]) == n.echo + EchoBytes(bytes);
    }
  }

  lemma Found(slots: seq<Slot>, id: bv8, hint: bv8 -> nat)
    requires TableOk(slots) && Lookup(slots, id).Some? && HintsRight(hint, slots)
    ensures var s := Lookup(slots, id).value;
      SlotOk(s) && s.id == id && (hint(id) == 0 || hint(id) + 1 == |s.bytes|) && 2 <= |s.bytes| <= MAX_DATA_SIZE + 1
  {
  }

  lemma EchoMatched(n: Node, b: bv8)
    requires n.echo != [] && n.echo[0] == EchoByte(b)
    ensures CompareEcho(n, b) == n.(echo := n.echo[1..])
  {
  }

  lemma Answers(n: Node, id: bv8, all: seq<bv8>)
    requires n.mode == Master && n.echo == [] && Lookup(n.slots, id).Some? && Lookup(n.slots, id).value.bytes == all
    requires 0 < |all| <= ECHO_FIFO_SIZE
    ensures OnId(n, id) == (n.(echo := EchoBytes(all), answered := n.answered + [Frame(id, all[..|all| - 1])]), all)
  {
    PushedAll(n, all);
    assert [] + EchoBytes(all) == EchoBytes(all);
    hide Lookup, PushBytes;
  }

  /** The identifier comes back intact: the echo is used up, and the decoder asks for a response. */
  lemma PidReceived(n: Node, id: bv8)
    requires n.state == AwaitId && id <= 0x3F && n.echo == [EchoByte(PidOf(id))]
    ensures var (n2, bytes) := OnId(n.(echo := [], pid := PidOf(id)), id);
      Receive(n, PidOf(id)) == (n2.(data := [], state := InData), bytes)
  {
    IdOfPid(id);
    EchoMatched(n, PidOf(id));
    hide PidOf, IdOf, CompareEcho, OnId;
    assert n.echo[1..] == [];
  }

  lemma PidStep(s: Bus, id: bv8)
    requires AtPidByte(s, id) && Quiet(s.node)
    ensures Enabled(s, EchoNext) && Quiet(After(s, EchoNext).node)
    ensures if Lookup(s.node.slots, id).None? then AtNothing(After(s, EchoNext))
            else AtData(After(s, EchoNext), id, Lookup(s.node.slots, id).value.bytes, Lookup(s.node.slots, id).value.enhanced)
  {
    var n := s.node;
    PidReceived(n, id);
    assert s.wire[1..] == [] && s.wire[0] == Byte(PidOf(id));
    var n1 := n.(echo := [], pid := PidOf(id));
    hide Receive, After, PidOf, Enabled;
    EchoNextIs(s, PidOf(id), OnId(n1, id).0.(data := [], state := InData), OnId(n1, id).1);
    var q := After(s, EchoNext);
    assert [] + Bytes(OnId(n1, id).1) == Bytes(OnId(n1, id).1);
    if Lookup(n.slots, id).Some? {
      Answered(s, id, q);
    } else {
      hide TableOk, HintsRight;
      assert Bytes([]) == [];
    }
  }

  lemma Answered(s: Bus, id: bv8, q: Bus)
    requires AtPidByte(s, id) && Quiet(s.node) && Lookup(s.node.slots, id).Some?
    requires var (n, bytes) := OnId(s.node.(echo := [], pid := PidOf(id)), id);
      q == Bus(n.(data := [], state := InData), Bytes(bytes))
    ensures Quiet(q.node) && AtData(q, id, Lookup(s.node.slots, id).value.bytes, Lookup(s.node.slots, id).value.enhanced)
  {
    var n, slot := s.node, Lookup(s.node.slots, id).value;
    Found(n.slots, id, n.hint);
    hide TableOk, HintsRight, PidOf, SlotOk;
    Answers(n.(echo := [], pid := PidOf(id)), id, slot.bytes);
    hide Lookup, OnId;
    assert slot.bytes[0..] == slot.bytes && slot.bytes[..0] == [];
  }

  lemma SlotSize(s: Slot)
    requires SlotOk(s)
    ensures 2 <= |s.bytes| <= MAX_DATA_SIZE + 1
  {
  }

  /** The frame this node published is accepted, whichever checksum type is preferred by now. */
  lemma OwnFrameAccepted(n: Node, id: bv8, all: seq<bv8>, enhanced: bool)
    requires id <= 0x3F && SlotOk(Slot(id, all, enhanced)) && n.pid == PidOf(id)
    ensures var q := OnData(n, n.pid, all);
      q == n.(frames := n.frames + [Frame(id, all[..|all| - 1])], fallbacks := q.fallbacks)
  {
    IdOfPid(id);
    SameChecksum(id, all[..|all| - 1], enhanced);
    hide PidOf, Checksum, IdOf, Lookup;
  }

  lemma SameChecksum(id: bv8, payload: seq<bv8>, enhanced: bool)
    requires id <= 0x3F
    ensures Checksum(PidOf(id), payload, enhanced) == Checksum(id, payload, enhanced)
  {
    IdOfPid(id);
    assert IdOf(id) == id;
    hide PidOf, IdOf, Sum, Fold, Inverted, Start;
  }

  /** A response byte comes back: the frame ends on the last one when its length is configured. */
  lemma ByteReceived(n: Node, id: bv8, b: bv8)
    requires n.state == InData && id <= 0x3F && n.pid == PidOf(id) && n.echo != [] && n.echo[0] == EchoByte(b)
    requires |n.data| <= MAX_DATA_SIZE
    ensures var n1 := n.(echo := n.echo[1..], data := n.data + [b]);
      Receive(n, b) == (if n.hint(id) != 0 && |n1.data| >= n.hint(id) + 1 then EndFrame(OnData(n1, n1.pid, n1.data)) else n1, [])
  {
    IdOfPid(id);
    EchoMatched(n, b);
    hide PidOf, IdOf, OnData, CompareEcho;
  }

  lemma EchoNextIs(s: Bus, b: bv8, n: Node, bytes: seq<bv8>)
    requires s.wire != [] && s.wire[0] == Byte(b) && Receive(s.node, b) == (n, bytes)
    ensures Enabled(s, EchoNext) && After(s, EchoNext) == Bus(n, s.wire[1..] + Bytes(bytes))
  {
    hide Receive;
  }

  lemma ByteStep(s: Bus, id: bv8, all: seq<bv8>, enhanced: bool)
    requires AtData(s, id, all, enhanced) && Quiet(s.node) && s.wire != []
    ensures Enabled(s, EchoNext) && Quiet(After(s, EchoNext).node)
    ensures AtData(After(s, EchoNext), id, all, enhanced) || AtRest(After(s, EchoNext))
  {
    var n, k := s.node, |s.node.data|;
    var b := all[k];
    SlotSize(Slot(id, all, enhanced));
    assert s.wire[0] == Byte(b) && n.echo[0] == EchoByte(b);
    ByteReceived(n, id, b);
    hide Receive;
    EchoedBytes(all, k);
    var n1 := n.(echo := n.echo[1..], data := n.data + [b]);
    var ends := n.hint(id) != 0 && k + 1 == |all|;
    var n2 := if ends then EndFrame(OnData(n1, n1.pid, n1.data)) else n1;
    hide Quiet, OnData, SlotOk, PidOf, After, Enabled, EndFrame;
    EchoNextIs(s, b, n2, []);
    assert s.wire[1..] + Bytes([]) == Bytes(all[k + 1..]);
    hide AtData, AtRest;
    NextByte(s, id, all, enhanced, Bus(n2, Bytes(all[k + 1..])));
  }

  lemma NextByte(s: Bus, id: bv8, all: seq<bv8>, enhanced: bool, q: Bus)
    requires AtData(s, id, all, enhanced) && Quiet(s.node) && |s.node.data| < |all|
    requires var k, n := |s.node.data|, s.node;
      var n1 := n.(echo := EchoBytes(all[k + 1..]), data := all[..k + 1]);
      q == Bus(if n.hint(id) != 0 && k + 1 == |all| then EndFrame(OnData(n1, n1.pid, n1.data)) else n1, Bytes(all[k + 1..]))
    ensures Quiet(q.node) && (AtData(q, id, all, enhanced) || AtRest(q))
  {
    var k, n := |s.node.data|, s.node;
    hide TableOk, HintsRight;
    if n.hint(id) != 0 && k + 1 == |all| {
      var n1 := n.(echo := EchoBytes(all[k + 1..]), data := all[..k + 1]);
      assert all[..k + 1] == all && all[k + 1..] == [];
      OwnFrameAccepted(n1, id, all, enhanced);
      hide OnData, SlotOk, PidOf;
    } else {
      hide OnData, SlotOk, PidOf, Bytes, EchoBytes;
    }
  }

  lemma EchoedBytes(all: seq<bv8>, k: nat)
    requires k < |all|
    ensures Bytes(all[k..])[1..] == Bytes(all[k + 1..]) && EchoBytes(all[k..])[1..] == EchoBytes(all[k + 1..])
    ensures all[..k] + [all[k]] == all[..k + 1]
  {
  }

  lemma IdleStep(s: Bus, p: Phase)
    requires At(s, p) && Quiet(s.node) && s.wire == []
    ensures Quiet(After(s, Idle).node) && At(After(s, Idle), Resting)
  {
    hide PidOf, TableOk, HintsRight, Checksum;
    var n := s.node;
    if p.Responding? {
      assert |n.data| == |p.all| && n.data == p.all && n.echo == [];
      SlotSize(Slot(p.id, p.all, p.enhanced));
      OwnFrameAccepted(n, p.id, p.all, p.enhanced);
      hide OnData, SlotOk;
    }
  }

  lemma PublishStep(s: Bus, p: Phase, id: bv8, payload: seq<bv8>, enhanced: bool, preserve: bool)
    requires At(s, p) && Quiet(s.node) && Enabled(s, Publish(id, payload, enhanced, preserve))
    ensures var q := After(s, Publish(id, payload, enhanced, preserve)); Quiet(q.node) && At(q, p)
  {
    SetThenLookup(s.node.slots, id, payload, enhanced, preserve, id);
    hide SetResponse, TableOk, HintsRight, Lookup, SlotOk, PidOf, Bytes, EchoBytes;
    SlotsDoNotMatter(s, p, After(s, Publish(id, payload, enhanced, preserve)));
    hide At;
  }

  lemma SlotsDoNotMatter(s: Bus, p: Phase, q: Bus)
    requires At(s, p) && q == s.(node := s.node.(slots := q.node.slots))
    ensures At(q, p)
  {
    hide SlotOk, PidOf, Bytes, EchoBytes;
  }

  lemma EchoNextInv(s: Bus, p: Phase)
    requires At(s, p) && Quiet(s.node) && Enabled(s, EchoNext)
    ensures Inv(After(s, EchoNext))
  {
    hide Receive, After, SlotOk, Quiet, Bytes, EchoBytes, Lookup, PidOf;
    var q := After(s, EchoNext);
    match p {
      case AtSync(id) =>
        SyncStep(s, p);
        assert At(q, AtPid(id));
      case AtPid(id) =>
        PidStep(s, id);
        if Lookup(s.node.slots, id).Some? {
          var slot := Lookup(s.node.slots, id).value;
          assert At(q, Responding(id, slot.bytes, slot.enhanced)) by { hide AtData; }
        } else {
          assert At(q, Unanswered);
        }
      case Responding(id, all, enhanced) =>
        ByteStep(s, id, all, enhanced);
        hide AtData, AtRest;
        assert At(q, p) || At(q, Resting);
      case _ =>
    }
  }

  lemma StepInv(s: Bus, e: Event)
    requires Inv(s) && Enabled(s, e)
    ensures Inv(After(s, e))
  {
    var p :| At(s, p);
    hide Quiet, After, SlotOk, Bytes, EchoBytes, PidOf;
    match e
    case Publish(id, payload, enhanced, preserve) =>
      hide At;
      PublishStep(s, p, id, payload, enhanced, preserve);
    case Idle =>
      hide At;
      IdleStep(s, p);
    case Header(id, zero, event) => HeaderStep(s, id, zero, event);
    case EchoNext =>
      hide At;
      EchoNextInv(s, p);
    case _ => BreakStep(s, p, e);
  }

  // ----- whole runs -----

  ghost predicate Initial(s: Bus) {
    && Quiet(s.node) && s.wire == [] && s.node.echo == [] && s.node.state == AwaitBreak
    && s.node.frames == [] && s.node.answered == []
  }

  ghost predicate Reaches(s: Bus, es: seq<Event>, q: Bus)
    decreases |es|
  {
    if es == [] then q == s else Enabled(s, es[0]) && Reaches(After(s, es[0]), es[1..], q)
  }

  lemma {:induction false} RunInv(s: Bus, es: seq<Event>, q: Bus)
    requires Inv(s) && Reaches(s, es, q)
    ensures Inv(q)
    decreases |es|
  {
    if es != [] {
      hide Inv, After, Enabled;
      StepInv(s, es[0]);
      RunInv(After(s, es[0]), es[1..], q);
    }
  }

  /** For every run: no collision, no identifier error and no checksum error is ever counted, and between
      frames what was accepted is exactly what was answered, payload for payload and in order. */
  lemma EveryAnswerIsReceived(s: Bus, es: seq<Event>, q: Bus)
    requires Initial(s) && Reaches(s, es, q)
    ensures q.node.collisions == 0 && q.node.pidErrors == 0 && q.node.checksumErrors == 0
    ensures q.node.frames <= q.node.answered && |q.node.answered| <= |q.node.frames| + 1
    ensures q.wire == [] && q.node.state != InData ==> q.node.frames == q.node.answered
  {
    assert At(s, Resting);
    RunInv(s, es, q);
    var p :| At(q, p);
    hide Reaches, After, SlotOk, PidOf;
  }
}
