/** Which frames mean what, independently of how they are read: a frame decodes to something exactly when it begins
    with what that something is sent as, and separation times are never cut short. */
module IsoTpDecoding {
  import opened Words
  import opened IsoTpCodec

  /** What stands in a frame for this, in front of any padding. */
  function Sent(info: PciInfo): seq<nat> {
    match info
    case Single(payload) => [|payload|] + payload
    case First(length, payload) => [0x10 + length / 0x100, length % 0x100] + payload
    case Consecutive(sequence, payload) => [0x20 + sequence] + payload
    case FlowControl(status, blockSize, stMin) => [0x30 + StatusCode(status), blockSize, stMin]
    case Invalid => []
  }

  /** The lengths that the addressing leaves room for. A consecutive frame carries all that is behind its
      sequence number. */
  ghost predicate Meaningful(cfg: Config, info: PciInfo, rest: nat) {
    match info
    case Single(payload) => 1 <= |payload| <= cfg.SingleCapacity()
    case First(length, payload) => cfg.SingleCapacity() < length <= MAX_MESSAGE_SIZE && |payload| == cfg.FirstCapacity()
    case Consecutive(sequence, payload) => sequence < 16 && rest == 0
    case FlowControl(_, _, _) => true
    case Invalid => false
  }

  /** Behind the address byte, if there is one, the frame begins with what this is sent as. */
  ghost predicate Says(cfg: Config, f: Frame, info: PciInfo) {
    var n := |Sent(info)|;
    cfg.Pci() + n <= |f| && f[cfg.Pci()..cfg.Pci() + n] == Sent(info) && Meaningful(cfg, info, |f| - cfg.Pci() - n)
  }

  lemma Parted(f: Frame, at: nat, head: seq<nat>, payload: seq<byte>)
    requires at + |head| + |payload| <= |f|
    ensures f[at..at + |head| + |payload|] == head + payload <==>
      f[at..at + |head|] == head && f[at + |head|..at + |head| + |payload|] == payload
  {
    var whole := f[at..at + |head| + |payload|];
    assert whole[..|head|] == f[at..at + |head|] && whole[|head|..] == f[at + |head|..at + |head| + |payload|];
    assert (head + payload)[..|head|] == head && (head + payload)[|head|..] == payload;
    assert whole == whole[..|head|] + whole[|head|..];
  }

  lemma OneByte(f: Frame, at: nat, x: nat)
    requires at < |f|
    ensures f[at..at + 1] == [x] <==> f[at] == x
  {
    assert f[at..at + 1] == [f[at]];
  }

  lemma TwoBytes(f: Frame, at: nat, x: nat, y: nat)
    requires at + 1 < |f|
    ensures f[at..at + 2] == [x, y] <==> f[at] == x && f[at + 1] == y
  {
    assert f[at..at + 2] == [f[at], f[at + 1]];
  }

  lemma SingleIff(cfg: Config, f: Frame, payload: seq<byte>)
    requires |f| <= FRAME_LEN
    ensures DecodePci(cfg, f) == Single(payload) <==> Says(cfg, f, Single(payload))
  {
    var pci := cfg.Pci();
    if pci + 1 + |payload| <= |f| {
      Parted(f, pci, [|payload|], payload);
      OneByte(f, pci, |payload|);
    }
  }

  lemma LengthIs(low: nat, b: byte, length: nat)
    requires low < 16
    ensures low * 0x100 + b == length <==> length < 0x1000 && low == length / 0x100 && b == length % 0x100
  {
  }

  lemma FirstIff(cfg: Config, f: Frame, length: nat, payload: seq<byte>)
    requires |f| <= FRAME_LEN
    ensures DecodePci(cfg, f) == First(length, payload) <==> Says(cfg, f, First(length, payload))
  {
    var pci := cfg.Pci();
    if pci + 2 + |payload| <= |f| {
      Parted(f, pci, [0x10 + length / 0x100, length % 0x100], payload);
      TwoBytes(f, pci, 0x10 + length / 0x100, length % 0x100);
      LengthIs(f[pci] % 16, f[pci + 1], length);
    }
  }

  lemma ConsecutiveIff(cfg: Config, f: Frame, sequence: byte, payload: seq<byte>)
    requires |f| <= FRAME_LEN
    ensures DecodePci(cfg, f) == Consecutive(sequence, payload) <==> Says(cfg, f, Consecutive(sequence, payload))
  {
    var pci := cfg.Pci();
    if pci + 1 + |payload| <= |f| {
      Parted(f, pci, [0x20 + sequence], payload);
      OneByte(f, pci, 0x20 + sequence);
      if pci + 1 + |payload| == |f| { assert f[pci + 1..pci + 1 + |payload|] == f[pci + 1..]; }
    }
  }

  lemma FlowControlIff(cfg: Config, f: Frame, status: FlowStatus, blockSize: byte, stMin: byte)
    requires |f| <= FRAME_LEN
    ensures DecodePci(cfg, f) == FlowControl(status, blockSize, stMin) <==> Says(cfg, f, FlowControl(status, blockSize, stMin))
  {
    var pci := cfg.Pci();
    if pci + 3 <= |f| { assert f[pci..pci + 3] == [f[pci], f[pci + 1], f[pci + 2]]; }
  }

  lemma DecodesTo(cfg: Config, f: Frame, info: PciInfo)
    requires |f| <= FRAME_LEN && !info.Invalid?
    ensures DecodePci(cfg, f) == info <==> Says(cfg, f, info)
  {
    hide DecodePci, Says;
    match info
    case Single(payload) => SingleIff(cfg, f, payload);
    case First(length, payload) => FirstIff(cfg, f, length, payload);
    case Consecutive(sequence, payload) => ConsecutiveIff(cfg, f, sequence, payload);
    case FlowControl(status, blockSize, stMin) => FlowControlIff(cfg, f, status, blockSize, stMin);
  }

  /** A frame of any length decodes to this exactly when it says it, and to nothing exactly when it says nothing. */
  lemma DecodesIff(cfg: Config, f: Frame, info: PciInfo)
    requires |f| <= FRAME_LEN
    ensures !info.Invalid? ==> (DecodePci(cfg, f) == info <==> Says(cfg, f, info))
    ensures DecodePci(cfg, f).Invalid? <==> forall any :: !Says(cfg, f, any)
  {
    assert !Says(cfg, f, Invalid);
    hide DecodePci, Says;
    if !info.Invalid? { DecodesTo(cfg, f, info); }
    if !DecodePci(cfg, f).Invalid? { DecodesTo(cfg, f, DecodePci(cfg, f)); }
    forall any | Says(cfg, f, any) ensures DecodePci(cfg, f) == any { DecodesTo(cfg, f, any); }
  }

  /** Around it: the address in front, and behind it nothing or the padding byte up to the full length. */
  lemma FrameAround(cfg: Config, body: seq<byte>, k: nat)
    requires cfg.Pci() + |body| <= FRAME_LEN
    ensures var f := Finished(cfg, body);
      && |f| == (if cfg.padded then FRAME_LEN else cfg.Pci() + |body|) && f[cfg.Pci()..cfg.Pci() + |body|] == body
      && (cfg.ext ==> f[0] == cfg.target) && (cfg.Pci() + |body| <= k < |f| ==> f[k] == cfg.padByte)
  {
  }

  // ----- separation times -----

  /** The minimum separation in microseconds: milliseconds up to 0x7F, tenths of one from 0xF1 to 0xF9, and the
      longest for every reserved code (section 9.6 of ISO 15765-2:2016). */
  function Micros(raw: byte): nat {
    if raw <= 0x7F then raw * 1000 else if 0xF1 <= raw <= 0xF9 then (raw - 0xF0) * 100 else 127_000
  }

  /** The time kept is the least whole number of milliseconds that is long enough. */
  lemma SeparationIsLongEnough(raw: byte)
    ensures Micros(raw) <= StMinToMs(raw) * 1000 < Micros(raw) + 1000
  {
  }
}
