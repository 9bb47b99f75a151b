/** The LIN handler as it runs: a byte decoder with a fixed data buffer and a circular echo buffer. */
module LinHandlers {
  import opened Words
  import opened LinFrames
  import opened LinResponses
  import opened LinNode
  import opened OutstandingTrackers
  import opened Arithmetic

  const BUFFER_SIZE := 10

  class LinHandler {
    const mode: Mode
    const hint: bv8 -> nat
    const declared: bv8 -> Option<bool>
    const table: ResponseTable
    const currentData: array<bv8>
    const echoFifo: array<Echo>
    var state: Decoder
    var pid: bv8
    var dataCount: nat
    var echoHead: nat
    var echoCount: nat
    var collisions: nat
    var pidErrors: nat
    var checksumErrors: nat
    var fallbacks: nat
    var breaks: nat
    var frameErrors: nat
    ghost var answered: seq<Frame>
    ghost var frames: seq<Frame>

    ghost predicate Valid()
      reads this
    {
      && currentData.Length == BUFFER_SIZE && dataCount <= BUFFER_SIZE
      && echoFifo.Length == ECHO_FIFO_SIZE && echoHead < ECHO_FIFO_SIZE && echoCount <= ECHO_FIFO_SIZE
      && currentData as object != echoFifo as object && table.slots as object != echoFifo as object
      && table.slots as object != currentData as object
    }

    ghost function Echoes(): seq<Echo>
      reads this, echoFifo
      requires Valid()
    {
      Ring(echoFifo[..], echoHead, echoCount)
    }

    ghost function State(): Node
      reads this, table.slots, currentData, echoFifo
      requires Valid()
    {
      Node(mode, state, pid, currentData[..dataCount], Echoes(), table.slots[..], hint, declared,
           collisions, pidErrors, checksumErrors, fallbacks, breaks, frameErrors, answered, frames)
    }

    constructor (mode: Mode, hint: bv8 -> nat, declared: bv8 -> Option<bool>, table: ResponseTable)
      ensures Valid() && fresh(currentData) && fresh(echoFifo) && this.table == table
      ensures State() == Node(mode, AwaitBreak, 0, [], [], table.slots[..], hint, declared, 0, 0, 0, 0, 0, 0, [], [])
    {
      this.mode, this.hint, this.declared, this.table := mode, hint, declared, table;
      currentData := new bv8[BUFFER_SIZE](_ => 0);
      echoFifo := new Echo[ECHO_FIFO_SIZE](_ => EchoBreak);
      state, pid, dataCount, echoHead, echoCount := AwaitBreak, 0, 0, 0, 0;
      collisions, pidErrors, checksumErrors, fallbacks, breaks, frameErrors := 0, 0, 0, 0, 0, 0;
      answered, frames := [], [];
    }

    method Goto(s: Decoder)
      requires Valid()
      modifies `state
      ensures Valid() && State() == old(State()).(state := s) && state == s
    {
      state := s;
    }

    method ClearData()
      requires Valid()
      modifies `dataCount
      ensures Valid() && State() == old(State()).(data := [])
    {
      dataCount := 0;
    }

    method EchoClear()
      requires Valid()
      modifies `echoHead, `echoCount
      ensures Valid() && State() == old(State()).(echo := [])
    {
      echoHead, echoCount := 0, 0;
    }

    method EchoBeginTx()
      requires Valid()
      modifies this
      ensures Valid() && State() == BeginTx(old(State()))
    {
      if echoCount > 0 {
        collisions := collisions + 1;
        EchoClear();
      }
    }

    method EchoPush(e: Echo)
      requires Valid()
      modifies this, echoFifo
      ensures Valid() && State() == PushEcho(old(State()), e)
    {
      if echoCount >= ECHO_FIFO_SIZE {
        collisions := collisions + 1;
        EchoClear();
      }
      Append(e);
    }

    method Append(e: Echo)
      requires Valid() && echoCount < ECHO_FIFO_SIZE
      modifies `echoCount, echoFifo
      ensures Valid() && State() == old(State()).(echo := old(State()).echo + [e])
    {
      ghost var before := Echoes();
      Wrap(echoHead + echoCount, ECHO_FIFO_SIZE);
      echoFifo[(echoHead + echoCount) % ECHO_FIFO_SIZE] := e;
      echoCount := echoCount + 1;
      assert Echoes()[..echoCount - 1] == before;
    }

    method EchoPop()
      requires Valid() && echoCount > 0
      modifies `echoHead, `echoCount
      ensures Valid() && State() == old(State()).(echo := old(State()).echo[1..])
    {
      RingTail(echoFifo[..], echoHead, echoCount);
      echoHead := Advance(echoHead, ECHO_FIFO_SIZE);
      echoCount := echoCount - 1;
    }

    method EchoCompare(b: bv8)
      requires Valid() && echoCount > 0
      modifies this
      ensures Valid() && State() == CompareEcho(old(State()), b)
    {
      RingTail(echoFifo[..], echoHead, echoCount);
      var front := echoFifo[echoHead];
      hide Ring;
      if front == EchoBreak {
        EchoPop();
        if b != 0 {
          collisions := collisions + 1;
        }
        return;
      }
      if front.b == SYNC && b == 0 {
        return;
      }
      EchoPop();
      if b != front.b {
        collisions := collisions + 1;
      }
    }

    /** Answers an identifier this node publishes: the bytes go out at once, their echo is expected. */
    method OnIdentifier(id: bv8) returns (written: seq<bv8>)
      requires Valid()
      modifies this, echoFifo
      ensures Valid() && (State(), written) == OnId(old(State()), id)
    {
      hide Ring, Find, PushEcho;
      if mode == Listener {
        return [];
      }
      var k := table.FindUsed(id);
      if k == table.slots.Length {
        return [];
      }
      written := table.slots[k].bytes;
      ghost var n0 := State();
      EchoBeginTx();
      PushAll(written);
      answered := answered + [Frame(id, written[..Before(written)])];
      assert Lookup(n0.slots, id) == Some(n0.slots[k]);
    }

    method PushAll(bytes: seq<bv8>)
      requires Valid()
      modifies this, echoFifo
      ensures Valid() && State() == PushBytes(old(State()), bytes)
    {
      hide Ring, PushEcho;
      ghost var goal := PushBytes(State(), bytes);
      var k := 0;
      assert bytes[0..] == bytes;
      while k < |bytes|
        invariant 0 <= k <= |bytes| && Valid()
        invariant PushBytes(State(), bytes[k..]) == goal
      {
        assert bytes[k..][0] == bytes[k] && bytes[k..][1..] == bytes[k + 1..];
        EchoPush(EchoByte(bytes[k]));
        k := k + 1;
      }
    }

    /** The type this identifier's frames are checked with first. */
    method PreferredType(id: bv8) returns (enhanced: bool)
      requires Valid()
      ensures enhanced == Preferred(State(), id)
    {
      hide Ring;
      if declared(id).Some? {
        return declared(id).value;
      }
      var k := table.FindUsed(id);
      enhanced := k == table.slots.Length || table.slots[k].enhanced;
    }

    method OnDataFrame(bytes: seq<bv8>)
      requires Valid()
      modifies this
      ensures Valid() && State() == OnData(old(State()), old(pid), bytes)
    {
      hide Ring, Checksum, IdOf, Preferred;
      if bytes == [] || |bytes| > 16 {
        return;
      }
      ghost var n0 := State();
      assert OnData(n0, pid, bytes) == Judged(n0, IdOf(pid), bytes[..|bytes| - 1],
        bytes[|bytes| - 1] == Checksum(pid, bytes[..|bytes| - 1], Preferred(n0, IdOf(pid))),
        bytes[|bytes| - 1] == Checksum(pid, bytes[..|bytes| - 1], !Preferred(n0, IdOf(pid))));
      hide OnData;
      var id, payload := IdOf(pid), bytes[..|bytes| - 1];
      var enhanced := PreferredType(id);
      var expected := CalculateChecksum(pid, payload, enhanced);
      if bytes[|bytes| - 1] != expected {
        var other := CalculateChecksum(pid, payload, !enhanced);
        if bytes[|bytes| - 1] != other {
          checksumErrors := checksumErrors + 1;
          return;
        }
        fallbacks := fallbacks + 1;
      }
      frames := frames + [Frame(id, payload)];
    }

    method DataByte(b: bv8)
      requires Valid() && state == InData
      modifies this, currentData
      ensures Valid() && State() == OnDataByte(old(State()), b)
    {
      hide Ring, OnData, IdOf;
      ghost var n0 := State();
      if dataCount < MAX_DATA_SIZE + 1 {
        currentData[dataCount] := b;
        dataCount := dataCount + 1;
        assert currentData[..dataCount] == n0.data + [b];
        assert State() == n0.(data := n0.data + [b]);
        var length := hint(IdOf(pid));
        if length != 0 && dataCount >= length + 1 {
          OnDataFrame(currentData[..dataCount]);
          Goto(AwaitBreak);
        }
      } else {
        if dataCount >= 2 {
          OnDataFrame(currentData[..dataCount]);
        }
        Goto(AwaitBreak);
      }
    }

    method IdByte(b: bv8) returns (written: seq<bv8>)
      requires Valid()
      modifies this, echoFifo
      ensures Valid() && (State(), written) == OnIdByte(old(State()), b)
    {
      hide OnId, PidOf, IdOf, Ring;
      var id := IdOf(b);
      if PidOf(id) != b {
        pidErrors := pidErrors + 1;
        Goto(AwaitBreak);
        return [];
      }
      pid := b;
      written := OnIdentifier(id);
      ClearData();
      Goto(InData);
    }

    method ReceiveDecode(b: bv8) returns (written: seq<bv8>)
      requires Valid()
      modifies this, currentData, echoFifo
      ensures Valid() && (State(), written) == Receive(old(State()), b)
    {
      hide CompareEcho, OnIdByte, OnDataByte;
      ghost var n0 := State();
      if echoCount > 0 {
        EchoCompare(b);
      } else {
        assert CompareEcho(n0, b) == n0 by { NothingExpected(n0, b); }
      }
      hide Ring;
      written := [];
      match state
      case AwaitBreak =>
        ClearData();
        if b == 0 {
          Goto(AwaitSync);
        }
      case AwaitSync =>
        if b == SYNC {
          Goto(AwaitId);
        } else if b != 0 {
          Goto(AwaitBreak);
        }
      case AwaitId => written := IdByte(b);
      case InData => DataByte(b);
    }

    method OnInterByteTimeout()
      requires Valid()
      modifies this
      ensures Valid() && State() == OnTimeout(old(State()))
    {
      hide Ring, OnData;
      if state == InData {
        if dataCount >= 2 {
          OnDataFrame(currentData[..dataCount]);
        }
        Goto(AwaitBreak);
      }
      EchoBeginTx();
    }

    /** A break event may be the echo of this node's own break. */
    method DropBreakEcho()
      requires Valid()
      modifies `echoHead, `echoCount
      ensures Valid()
      ensures var n := old(State());
        State() == if n.echo != [] && n.echo[0] == EchoBreak then n.(echo := n.echo[1..]) else n
    {
      if echoCount > 0 {
        RingTail(echoFifo[..], echoHead, echoCount);
        if echoFifo[echoHead] == EchoBreak {
          EchoPop();
        }
      }
    }

    method OnUartBreak()
      requires Valid()
      modifies this
      ensures Valid() && State() == OnBreak(old(State()))
    {
      hide OnData, Ring;
      DropBreakEcho();
      if state == InData && dataCount >= 2 {
        OnDataFrame(currentData[..dataCount]);
      }
      ClearData();
      Goto(AwaitSync);
      breaks := breaks + 1;
    }

    method OnUartFrameError()
      requires Valid()
      modifies this
      ensures Valid() && State() == OnFrameError(old(State()))
    {
      EchoClear();
      frameErrors := frameErrors + 1;
      if state != AwaitSync {
        Goto(AwaitBreak);
      }
    }

    /** The echo expectation of a header that went out. */
    method HeaderSent(id: bv8)
      requires Valid()
      modifies this, echoFifo
      ensures Valid() && State() == SendHeader(old(State()), id)
    {
      hide Ring, PushEcho, PidOf;
      EchoBeginTx();
      EchoPush(EchoBreak);
      EchoPush(EchoByte(SYNC));
      EchoPush(EchoByte(PidOf(id)));
    }
  }

  /** The outcome of the two checksum comparisons. */
  function Judged(n: Node, id: bv8, payload: seq<bv8>, first: bool, second: bool): Node {
    if first then n.(frames := n.frames + [Frame(id, payload)])
    else if second then n.(frames := n.frames + [Frame(id, payload)], fallbacks := n.fallbacks + 1)
    else n.(checksumErrors := n.checksumErrors + 1)
  }

  lemma NothingExpected(n: Node, b: bv8)
    requires n.echo == []
    ensures CompareEcho(n, b) == n
  {
  }
}
