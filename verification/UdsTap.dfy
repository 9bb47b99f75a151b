/** The host tool's passive ISO-TP reassembler, which listens to an ECU's responses without ever
    answering, and the proof that it hands on exactly the messages the firmware's receiver does. */
module UdsTap {
  import opened Words
  import opened IsoTpCodec
  import opened IsoTpTransfer

  datatype Event =
    | Incomplete(got: nat, need: nat)
    | Orphan(bytes: nat)
    | Sequence(got: nat, expected: byte, seen: byte)

  datatype TapState = TapState(
    started: bool, buf: Option<seq<byte>>, need: nat, sn: byte, quiet: bool,
    messages: seq<seq<byte>>, events: seq<Event>, badFrames: nat, cutAtStart: nat, cutAtEnd: nat)

  const FRESH := TapState(false, None, 0, 0, false, [], [], 0, 0, 0)

  function Abandoned(s: TapState): TapState {
    if s.buf.None? then s
    else s.(buf := None, events := s.events + [Incomplete(|s.buf.value|, s.need)])
  }

  function FedConsecutive(s: TapState, data: Frame): TapState
    requires |data| > 0
  {
    if s.buf.None? then
      if !s.started then s.(cutAtStart := s.cutAtStart + 1)
      else if !s.quiet then s.(quiet := true, events := s.events + [Orphan(|data| - 1)])
      else s
    else
      var sn, buf := data[0] % 16, s.buf.value;
      if sn != s.sn then
        s.(buf := None, quiet := true, events := s.events + [Sequence(|buf|, s.sn, sn)])
      else
        var grown := buf + data[1..];
        var s1 := s.(buf := Some(grown), sn := NextSequence(s.sn));
        if |grown| >= s.need then s1.(buf := None, messages := s.messages + [grown[..s.need]]) else s1
  }

  function Fed(s: TapState, data: Frame): TapState {
    if data == [] then s.(badFrames := s.badFrames + 1) else
    var pci, low := data[0] / 16, data[0] % 16;
    if pci == 0 then
      if low == 0 || low > |data| - 1 then s.(badFrames := s.badFrames + 1)
      else
        var s1 := Abandoned(s);
        s1.(started := true, quiet := false, messages := s1.messages + [data[1..1 + low]])
    else if pci == 1 then
      var length := if |data| >= 2 then low * 256 + data[1] else 0;
      if length < 8 || |data| < 8 then s.(badFrames := s.badFrames + 1)
      else Abandoned(s).(started := true, quiet := false, buf := Some(data[2..]), need := length, sn := 1)
    else if pci == 2 then FedConsecutive(s, data)
    else if pci == 3 then s
    else s.(badFrames := s.badFrames + 1)
  }

  class UdsChunk {
    var started: bool
    var buf: Option<seq<byte>>
    var need: nat
    var sn: byte
    var quiet: bool
    var messages: seq<seq<byte>>
    var events: seq<Event>
    var badFrames: nat
    var cutAtStart: nat
    var cutAtEnd: nat

    ghost function State(): TapState
      reads this
    {
      TapState(started, buf, need, sn, quiet, messages, events, badFrames, cutAtStart, cutAtEnd)
    }

    constructor ()
      ensures State() == FRESH
    {
      started, buf, need, sn, quiet := false, None, 0, 0, false;
      messages, events, badFrames, cutAtStart, cutAtEnd := [], [], 0, 0, 0;
    }

    method Abandon()
      modifies this
      ensures State() == Abandoned(old(State()))
    {
      if buf.Some? {
        events := events + [Incomplete(|buf.value|, need)];
        buf := None;
      }
    }

    method Feed(data: Frame)
      modifies this
      ensures State() == Fed(old(State()), data)
    {
      if data == [] {
        badFrames := badFrames + 1;
        return;
      }
      var pci, low := data[0] / 16, data[0] % 16;
      if pci == 0 {
        if low == 0 || low > |data| - 1 {
          badFrames := badFrames + 1;
          return;
        }
        Abandon();
        started, quiet := true, false;
        messages := messages + [data[1..1 + low]];
      } else if pci == 1 {
        var length := if |data| >= 2 then low * 256 + data[1] else 0;
        if length < 8 || |data| < 8 {
          badFrames := badFrames + 1;
          return;
        }
        Abandon();
        started, quiet := true, false;
        buf, need, sn := Some(data[2..]), length, 1;
      } else if pci == 2 {
        if buf.None? {
          if !started {
            cutAtStart := cutAtStart + 1;
          } else if !quiet {
            quiet := true;
            events := events + [Orphan(|data| - 1)];
          }
          return;
        }
        if low != sn {
          events := events + [Sequence(|buf.value|, sn, low)];
          buf, quiet := None, true;
          return;
        }
        buf, sn := Some(buf.value + data[1..]), NextSequence(sn);
        if |buf.value| >= need {
          messages := messages + [buf.value[..need]];
          buf := None;
        }
      } else if pci != 3 {
        badFrames := badFrames + 1;
      }
    }

    method Finish()
      modifies this
      ensures State() == (if old(buf).Some? then old(State()).(buf := None, cutAtEnd := old(cutAtEnd) + 1)
                          else old(State()))
    {
      if buf.Some? {
        buf, cutAtEnd := None, cutAtEnd + 1;
      }
    }
  }

  // ----- agreement with the receiver -----

  /** The tap and the receiver hold the same partial message, or neither holds one. */
  ghost predicate Agree(t: TapState, r: RxState) {
    && t.buf.Some? == r.receiving
    && (r.receiving ==>
          && t.buf.value == r.data && t.need == r.expected <= MAX_MESSAGE_SIZE
          && |r.data| < r.expected && t.sn == NextSequence(r.sequence))
  }

  lemma AgreeStep(cfg: Config, t: TapState, r: RxState, f: Frame, now: u32)
    requires !cfg.ext && |f| <= FRAME_LEN && Agree(t, r)
    ensures var t1, step := Fed(t, f), RxOnFrame(cfg, MAX_MESSAGE_SIZE, r, f, now);
            && Agree(t1, step.state)
            && t1.messages == (if step.action == RxMessageComplete then t.messages + [step.state.data] else t.messages)
            && (step.action == RxFailed <==>
                  t1.events != t.events && t1.events[|t1.events| - 1].Sequence?)
  {
    hide FlowControlFrame;
    if f != [] && f[0] / 16 == 2 {
      AgreeConsecutive(cfg, t, r, f, now);
    }
  }

  lemma AgreeConsecutive(cfg: Config, t: TapState, r: RxState, f: Frame, now: u32)
    requires !cfg.ext && 0 < |f| <= FRAME_LEN && f[0] / 16 == 2 && Agree(t, r)
    ensures var t1, step := Fed(t, f), RxOnFrame(cfg, MAX_MESSAGE_SIZE, r, f, now);
            && Agree(t1, step.state)
            && t1.messages == (if step.action == RxMessageComplete then t.messages + [step.state.data] else t.messages)
            && (step.action == RxFailed <==>
                  t1.events != t.events && t1.events[|t1.events| - 1].Sequence?)
  {
    assert DecodePci(cfg, f) == Consecutive(f[0] % 16, f[1..]);
    hide FlowControlFrame, NextSequence;
    var step := RxConsecutive(cfg, r, f[0] % 16, f[1..], now);
    if r.receiving && f[0] % 16 == t.sn {
      var take := Min(|f| - 1, r.expected - |r.data|);
      assert step.state.data == r.data + f[1..][..take];
      assert r.data + f[1..][..take] == (r.data + f[1..])[..Min(|r.data| + |f| - 1, r.expected)];
      if |f| - 1 == take {
        assert f[1..][..take] == f[1..];
      }
    }
  }

  /** All frames of a trace fed to the tap. */
  function FedAll(t: TapState, trace: seq<Frame>): TapState {
    if trace == [] then t else Fed(FedAll(t, trace[..|trace| - 1]), trace[|trace| - 1])
  }

  /** What a receiver that never times out hands on, with its clock readings. */
  ghost predicate Received(cfg: Config, rs: seq<RxState>, delivered: seq<seq<seq<byte>>>, trace: seq<Frame>, nows: seq<u32>) {
    && |rs| == |delivered| == |trace| + 1 && |nows| == |trace|
    && !rs[0].receiving && delivered[0] == []
    && forall i :: 0 <= i < |trace| ==>
         && |trace[i]| <= FRAME_LEN && RxValid(rs[i], MAX_MESSAGE_SIZE)
         && var step := RxOnFrame(cfg, MAX_MESSAGE_SIZE, rs[i], trace[i], nows[i]);
            && rs[i + 1] == step.state
            && delivered[i + 1] == (if step.action == RxMessageComplete then delivered[i] + [step.state.data] else delivered[i])
  }

  /** Over every trace of frames, through wrong sequence numbers, malformed frames and interruptions,
      the passive tap hands on exactly the messages the receiver delivers. */
  lemma {:induction false} SameMessages(
    cfg: Config, rs: seq<RxState>, delivered: seq<seq<seq<byte>>>, trace: seq<Frame>, nows: seq<u32>)
    requires !cfg.ext && Received(cfg, rs, delivered, trace, nows)
    ensures FedAll(FRESH, trace).messages == delivered[|trace|]
    ensures Agree(FedAll(FRESH, trace), rs[|trace|])
  {
    if trace != [] {
      var n := |trace| - 1;
      SameMessages(cfg, rs[..n + 1], delivered[..n + 1], trace[..n], nows[..n]);
      hide Fed, RxOnFrame;
      AgreeStep(cfg, FedAll(FRESH, trace[..n]), rs[n], trace[n], nows[n]);
    }
  }
}
