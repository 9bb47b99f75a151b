/** The LIN handler as a value: the byte decoder, the expected echoes of what this node drove, and the
    frames it accepts. */
module LinNode {
  import opened Words
  import opened LinFrames
  import opened LinResponses

  const SYNC: bv8 := 0x55
  const ECHO_FIFO_SIZE := 16

  datatype Mode = Master | Slave | Listener
  datatype Decoder = AwaitBreak | AwaitSync | AwaitId | InData
  datatype Echo = EchoBreak | EchoByte(b: bv8)
  datatype Frame = Frame(id: bv8, payload: seq<bv8>)

  /** `hint` is a configured payload length per identifier, 0 when unknown; `declared` a configured
      checksum type. `answered` and `frames` list, in order, the responses written and the frames accepted. */
  datatype Node = Node(
    mode: Mode, state: Decoder, pid: bv8, data: seq<bv8>, echo: seq<Echo>, slots: seq<Slot>,
    hint: bv8 -> nat, declared: bv8 -> Option<bool>,
    collisions: nat, pidErrors: nat, checksumErrors: nat, fallbacks: nat, breaks: nat, frameErrors: nat,
    answered: seq<Frame>, frames: seq<Frame>)

  // ----- expected echoes -----

  /** Leftovers of an earlier transmission are one collision. */
  function BeginTx(n: Node): Node {
    if n.echo == [] then n else n.(collisions := n.collisions + 1, echo := [])
  }

  function PushEcho(n: Node, e: Echo): Node {
    if |n.echo| >= ECHO_FIFO_SIZE then n.(collisions := n.collisions + 1, echo := [e]) else n.(echo := n.echo + [e])
  }

  function PushBytes(n: Node, bytes: seq<bv8>): (r: Node)
    ensures r == n.(echo := r.echo, collisions := r.collisions)
    decreases |bytes|
  {
    if bytes == [] then n else PushBytes(PushEcho(n, EchoByte(bytes[0])), bytes[1..])
  }

  function CompareEcho(n: Node, b: bv8): (r: Node)
    ensures r == n.(echo := r.echo, collisions := r.collisions)
  {
    if n.echo == [] then n
    else
      var popped := n.(echo := n.echo[1..]);
      match n.echo[0]
      case EchoBreak => if b != 0 then popped.(collisions := n.collisions + 1) else popped
      case EchoByte(front) =>
        if front == SYNC && b == 0 then n
        else if b != front then popped.(collisions := n.collisions + 1) else popped
  }

  // ----- frames -----

  /** The type to try first: declared, else the one this node publishes the identifier with, else enhanced. */
  function Preferred(n: Node, id: bv8): bool {
    if n.declared(id).Some? then n.declared(id).value
    else if Lookup(n.slots, id).Some? then Lookup(n.slots, id).value.enhanced
    else true
  }

  /** A frame is taken under either checksum type; the less preferred one is counted. */
  function OnData(n: Node, pid: bv8, bytes: seq<bv8>): (r: Node)
    ensures r == n.(frames := r.frames, fallbacks := r.fallbacks, checksumErrors := r.checksumErrors)
  {
    if bytes == [] || |bytes| > 16 then n
    else
      var id, payload, cs := IdOf(pid), bytes[..|bytes| - 1], bytes[|bytes| - 1];
      var mode := Preferred(n, id);
      var accepted := n.(frames := n.frames + [Frame(id, payload)]);
      if cs == Checksum(pid, payload, mode) then accepted
      else if cs == Checksum(pid, payload, !mode) then accepted.(fallbacks := n.fallbacks + 1)
      else n.(checksumErrors := n.checksumErrors + 1)
  }

  /** Writes the response at once and expects its echo. */
  function OnId(n: Node, id: bv8): (Node, seq<bv8>) {
    if n.mode == Listener || Lookup(n.slots, id).None? then (n, [])
    else
      var bytes := Lookup(n.slots, id).value.bytes;
      (PushBytes(BeginTx(n), bytes).(answered := n.answered + [Frame(id, bytes[..Before(bytes)])]), bytes)
  }

  /** Where the payload ends. */
  function Before(bytes: seq<bv8>): (k: nat)
    ensures k <= |bytes|
  {
    if bytes == [] then 0 else |bytes| - 1
  }

  function EndFrame(n: Node): Node { n.(state := AwaitBreak) }

  function OnDataByte(n: Node, b: bv8): Node {
    if |n.data| < MAX_DATA_SIZE + 1 then
      var n1 := n.(data := n.data + [b]);
      var h := n.hint(IdOf(n.pid));
      if h != 0 && |n1.data| >= h + 1 then EndFrame(OnData(n1, n1.pid, n1.data)) else n1
    else EndFrame(if |n.data| >= 2 then OnData(n, n.pid, n.data) else n)
  }

  /** A protected identifier starts the data phase, a broken one the search for the next break. */
  function OnIdByte(n: Node, b: bv8): (Node, seq<bv8>) {
    var id := IdOf(b);
    if PidOf(id) != b then (n.(pidErrors := n.pidErrors + 1, state := AwaitBreak), [])
    else
      var (n1, bytes) := OnId(n.(pid := b), id);
      (n1.(data := [], state := InData), bytes)
  }

  /** One byte off the wire; the second result is what the node starts driving. */
  function Receive(n: Node, b: bv8): (Node, seq<bv8>) {
    var n1 := CompareEcho(n, b);
    match n.state
    case AwaitBreak => (n1.(data := [], state := if b == 0 then AwaitSync else AwaitBreak), [])
    case AwaitSync => (n1.(state := if b == SYNC then AwaitId else if b == 0 then AwaitSync else AwaitBreak), [])
    case AwaitId => OnIdByte(n1, b)
    case InData => (OnDataByte(n1, b), [])
  }

  function OnTimeout(n: Node): Node {
    var n1 := if n.state != InData then n
              else EndFrame(if |n.data| >= 2 then OnData(n, n.pid, n.data) else n);
    BeginTx(n1)
  }

  function OnBreak(n: Node): Node {
    var n1 := if n.echo != [] && n.echo[0] == EchoBreak then n.(echo := n.echo[1..]) else n;
    var n2 := if n.state == InData && |n.data| >= 2 then OnData(n1, n.pid, n.data) else n1;
    n2.(data := [], state := AwaitSync, breaks := n.breaks + 1)
  }

  /** A trailing framing error must not undo the resync a break has just made. */
  function OnFrameError(n: Node): Node {
    n.(echo := [], frameErrors := n.frameErrors + 1, state := if n.state == AwaitSync then AwaitSync else AwaitBreak)
  }

  /** A header of its own: break, sync and protected identifier. */
  function SendHeader(n: Node, id: bv8): Node {
    PushEcho(PushEcho(PushEcho(BeginTx(n), EchoBreak), EchoByte(SYNC)), EchoByte(PidOf(id)))
  }
}
