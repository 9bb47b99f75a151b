/** The ISO-TP frame codec (section 9.6 of ISO 15765-2:2016): what each frame type looks like on the
    wire, how a received frame is read back, and the array-writing encoders the firmware uses. */
module IsoTpCodec {
  import opened Words

  const FRAME_LEN := 8
  const MAX_MESSAGE_SIZE := 4095

  /** One address pair. `ext` is extended addressing: the first byte of every frame is the target
      address, which costs one data byte. */
  datatype Config = Config(
    ext: bool, target: byte, blockSize: byte, stMinRaw: byte,
    padded: bool, padByte: byte, nBsMs: u32, nCrMs: u32, stallMs: u32)
  {
    function Pci(): nat { if ext then 1 else 0 }
    function SingleCapacity(): nat { FRAME_LEN - 1 - Pci() }
    function FirstCapacity(): nat { FRAME_LEN - 2 - Pci() }
    function ConsecutiveCapacity(): nat { FRAME_LEN - 1 - Pci() }
  }

  /** The bytes of a frame up to its DLC. */
  type Frame = seq<byte>

  datatype FlowStatus = Continue | Wait | BufferOverflow

  function StatusCode(s: FlowStatus): byte {
    match s
    case Continue => 0
    case Wait => 1
    case BufferOverflow => 2
  }

  datatype PciInfo =
    | Invalid
    | Single(payload: seq<byte>)
    | First(length: nat, payload: seq<byte>)
    | Consecutive(sequence: byte, payload: seq<byte>)
    | FlowControl(status: FlowStatus, blockSize: byte, stMinRaw: byte)

  /** The sequence number of the k-th frame, and the one that follows a sequence number. */
  function SequenceOf(k: nat): byte { k % 16 }
  function NextSequence(sequence: byte): byte { (sequence + 1) % 16 }

  lemma SequenceSteps(k: nat)
    requires k > 0
    ensures NextSequence(SequenceOf(k - 1)) == SequenceOf(k)
  {
  }

  /** Raw STmin to milliseconds: sub-millisecond codes become 1 ms, reserved codes the maximum. */
  function StMinToMs(raw: byte): u32 {
    if raw <= 0x7F then raw
    else if 0xF1 <= raw <= 0xF9 then 1
    else 127
  }

  function Padding(cfg: Config, used: nat): seq<byte>
    requires used <= FRAME_LEN
  {
    if cfg.padded then seq(FRAME_LEN - used, _ => cfg.padByte) else []
  }

  /** A frame whose PCI and data are `body`: address prefix in front, padding behind. */
  function Finished(cfg: Config, body: seq<byte>): Frame
    requires cfg.Pci() + |body| <= FRAME_LEN
  {
    (if cfg.ext then [cfg.target] else []) + body + Padding(cfg, cfg.Pci() + |body|)
  }

  function SingleFrame(cfg: Config, data: seq<byte>): Frame
    requires 1 <= |data| <= cfg.SingleCapacity()
  {
    Finished(cfg, [|data|] + data)
  }

  function FirstFrame(cfg: Config, msg: seq<byte>): Frame
    requires cfg.SingleCapacity() < |msg| <= MAX_MESSAGE_SIZE
  {
    Finished(cfg, [0x10 + |msg| / 256, |msg| % 256] + msg[..cfg.FirstCapacity()])
  }

  function ConsecutiveTake(cfg: Config, rest: seq<byte>): nat {
    Min(|rest|, cfg.ConsecutiveCapacity())
  }

  function ConsecutiveFrame(cfg: Config, rest: seq<byte>, sequence: nat): Frame {
    Finished(cfg, [0x20 + sequence % 16] + rest[..ConsecutiveTake(cfg, rest)])
  }

  function FlowControlFrame(cfg: Config, status: FlowStatus, blockSize: byte, stMinRaw: byte): Frame {
    Finished(cfg, [0x30 + StatusCode(status), blockSize, stMinRaw])
  }

  /** Reads a received frame at any DLC; padding is never assumed. */
  function DecodePci(cfg: Config, f: Frame): (info: PciInfo)
    ensures info.Single? ==> 1 <= |info.payload| <= cfg.SingleCapacity()
    ensures info.First? ==> cfg.SingleCapacity() < info.length <= MAX_MESSAGE_SIZE
    ensures info.First? ==> |info.payload| == cfg.FirstCapacity()
  {
    var pci := cfg.Pci();
    if |f| < pci + 1 then Invalid else
    var kind, low := f[pci] / 16, f[pci] % 16;
    if kind == 0 then
      if low == 0 || low > cfg.SingleCapacity() || |f| < pci + 1 + low then Invalid
      else Single(f[pci + 1..pci + 1 + low])
    else if kind == 1 then
      if |f| < pci + 2 then Invalid else
      var length := low * 256 + f[pci + 1];
      if length <= cfg.SingleCapacity() || |f| < pci + 2 + cfg.FirstCapacity() then Invalid
      else First(length, f[pci + 2..pci + 2 + cfg.FirstCapacity()])
    else if kind == 2 then
      Consecutive(low, f[pci + 1..])
    else if kind == 3 then
      if |f| < pci + 3 || low > 2 then Invalid
      else FlowControl(if low == 0 then Continue else if low == 1 then Wait else BufferOverflow, f[pci + 1], f[pci + 2])
    else
      Invalid
  }

  // ----- round trips: both ends need the same addressing, nothing else -----

  lemma SingleRoundTrip(tx: Config, rx: Config, data: seq<byte>)
    requires tx.ext == rx.ext && 1 <= |data| <= tx.SingleCapacity()
    ensures |SingleFrame(tx, data)| <= FRAME_LEN
    ensures DecodePci(rx, SingleFrame(tx, data)) == Single(data)
  {
    var f, pci := SingleFrame(tx, data), tx.Pci();
    assert f[pci] == |data|;
    assert f[pci + 1..pci + 1 + |data|] == data;
  }

  lemma FirstRoundTrip(tx: Config, rx: Config, msg: seq<byte>)
    requires tx.ext == rx.ext && tx.SingleCapacity() < |msg| <= MAX_MESSAGE_SIZE
    ensures |FirstFrame(tx, msg)| == FRAME_LEN
    ensures DecodePci(rx, FirstFrame(tx, msg)) == First(|msg|, msg[..tx.FirstCapacity()])
  {
    var f, pci := FirstFrame(tx, msg), tx.Pci();
    assert f[pci] == 0x10 + |msg| / 256 && f[pci + 1] == |msg| % 256;
    assert f[pci + 2..pci + 2 + tx.FirstCapacity()] == msg[..tx.FirstCapacity()];
  }

  /** The receiver sees the padding as payload too; only the first `ConsecutiveTake` bytes are data. */
  lemma ConsecutiveRoundTrip(tx: Config, rx: Config, rest: seq<byte>, sequence: nat)
    requires tx.ext == rx.ext
    ensures |ConsecutiveFrame(tx, rest, sequence)| <= FRAME_LEN
    ensures var info := DecodePci(rx, ConsecutiveFrame(tx, rest, sequence));
            var take := ConsecutiveTake(tx, rest);
            info.Consecutive? && info.sequence == sequence % 16 &&
            take <= |info.payload| && info.payload[..take] == rest[..take] &&
            (take < |rest| ==> |info.payload| == take)
  {
    var f, pci := ConsecutiveFrame(tx, rest, sequence), tx.Pci();
    assert f[pci] == 0x20 + sequence % 16;
    assert f[pci + 1..][..ConsecutiveTake(tx, rest)] == rest[..ConsecutiveTake(tx, rest)];
  }

  lemma FlowControlRoundTrip(tx: Config, rx: Config, status: FlowStatus, blockSize: byte, stMinRaw: byte)
    requires tx.ext == rx.ext
    ensures |FlowControlFrame(tx, status, blockSize, stMinRaw)| <= FRAME_LEN
    ensures DecodePci(rx, FlowControlFrame(tx, status, blockSize, stMinRaw)) == FlowControl(status, blockSize, stMinRaw)
  {
    var f, pci := FlowControlFrame(tx, status, blockSize, stMinRaw), tx.Pci();
    assert f[pci] == 0x30 + StatusCode(status) && f[pci + 1] == blockSize && f[pci + 2] == stMinRaw;
  }

  // ----- the encoders, writing into an eight-byte frame -----

  method FinishFrame(cfg: Config, out: array<byte>, used: nat) returns (dlc: nat)
    requires out.Length == FRAME_LEN && cfg.Pci() <= used <= FRAME_LEN
    modifies out
    ensures dlc <= FRAME_LEN
    ensures out[..dlc] == Finished(cfg, old(out[cfg.Pci()..used]))
  {
    ghost var body := out[cfg.Pci()..used];
    if cfg.ext {
      out[0] := cfg.target;
    }
    dlc := used;
    if cfg.padded {
      var i := used;
      while i < FRAME_LEN
        invariant used <= i <= FRAME_LEN
        invariant cfg.ext ==> out[0] == cfg.target
        invariant out[cfg.Pci()..used] == body
        invariant forall k :: used <= k < i ==> out[k] == cfg.padByte
      {
        out[i] := cfg.padByte;
        i := i + 1;
      }
      dlc := FRAME_LEN;
    }
    assert out[..dlc] == out[..cfg.Pci()] + out[cfg.Pci()..used] + out[used..dlc];
  }

  method EncodeSingleFrame(cfg: Config, data: array<byte>, size: nat, out: array<byte>) returns (ok: bool, dlc: nat)
    requires size <= data.Length && out.Length == FRAME_LEN && out != data
    modifies out
    ensures ok <==> 1 <= size <= cfg.SingleCapacity()
    ensures ok ==> dlc <= FRAME_LEN && out[..dlc] == SingleFrame(cfg, data[..size])
    ensures !ok ==> out[..] == old(out[..])
  {
    hide Finished;
    if size == 0 || size > cfg.SingleCapacity() {
      return false, 0;
    }
    var pci := cfg.Pci();
    out[pci] := size;
    forall i | 0 <= i < size { out[pci + 1 + i] := data[i]; }
    assert out[pci..pci + 1 + size] == [size] + data[..size];
    dlc := FinishFrame(cfg, out, pci + 1 + size);
    ok := true;
  }

  method EncodeFirstFrame(cfg: Config, data: array<byte>, total: nat, out: array<byte>) returns (take: nat, dlc: nat)
    requires cfg.SingleCapacity() < total <= data.Length && total <= MAX_MESSAGE_SIZE
    requires out.Length == FRAME_LEN && out != data
    modifies out
    ensures take == cfg.FirstCapacity()
    ensures dlc <= FRAME_LEN && out[..dlc] == FirstFrame(cfg, data[..total])
  {
    hide Finished;
    var pci := cfg.Pci();
    out[pci] := 0x10 + total / 256 % 16;
    out[pci + 1] := total % 256;
    take := cfg.FirstCapacity();
    forall i | 0 <= i < take { out[pci + 2 + i] := data[i]; }
    assert out[pci..pci + 2 + take] == [0x10 + total / 256, total % 256] + data[..total][..take];
    dlc := FinishFrame(cfg, out, pci + 2 + take);
  }

  method EncodeConsecutiveFrame(cfg: Config, data: array<byte>, sent: nat, size: nat, sequence: byte, out: array<byte>)
    returns (take: nat, dlc: nat)
    requires sent <= size <= data.Length && out.Length == FRAME_LEN && out != data
    modifies out
    ensures take == ConsecutiveTake(cfg, data[sent..size])
    ensures dlc <= FRAME_LEN && out[..dlc] == ConsecutiveFrame(cfg, data[sent..size], sequence)
  {
    hide Finished;
    var pci := cfg.Pci();
    out[pci] := 0x20 + sequence % 16;
    take := Min(size - sent, cfg.ConsecutiveCapacity());
    forall i | 0 <= i < take { out[pci + 1 + i] := data[sent + i]; }
    assert forall k :: 0 <= k < take ==> out[pci + 1 + k] == data[sent..size][..take][k];
    assert out[pci..pci + 1 + take] == [0x20 + sequence % 16] + data[sent..size][..take];
    dlc := FinishFrame(cfg, out, pci + 1 + take);
  }

  method EncodeFlowControl(cfg: Config, status: FlowStatus, blockSize: byte, stMinRaw: byte, out: array<byte>)
    returns (dlc: nat)
    requires out.Length == FRAME_LEN
    modifies out
    ensures dlc <= FRAME_LEN && out[..dlc] == FlowControlFrame(cfg, status, blockSize, stMinRaw)
  {
    hide Finished;
    var pci := cfg.Pci();
    out[pci] := 0x30 + StatusCode(status);
    out[pci + 1] := blockSize;
    out[pci + 2] := stMinRaw;
    assert out[pci..pci + 3] == [0x30 + StatusCode(status), blockSize, stMinRaw];
    dlc := FinishFrame(cfg, out, pci + 3);
  }
}
