/** What the host tool reports of an ISO-TP trace beside its messages: which frames are malformed, where a message
    broke off, and which frames belong to none. */
module UdsTapEvents {
  import opened IsoTpCodec
  import opened UdsTap

  function Type(data: Frame): nat
    requires data != []
  {
    data[0] / 16
  }

  /** A single frame with its bytes, or a first frame that announces eight bytes or more. */
  predicate Starts(data: Frame) {
    data != [] &&
    match Type(data)
    case 0 => 0 < data[0] % 16 < |data|
    case 1 => |data| >= 8 && (data[0] % 16 > 0 || data[1] >= 8)
    case _ => false
  }

  predicate Continues(data: Frame) { data != [] && Type(data) == 2 }

  /** Neither of these nor flow control. */
  predicate Malformed(data: Frame) { !Starts(data) && !Continues(data) && (data == [] || Type(data) != 3) }

  function CountOf(p: Frame -> bool, trace: seq<Frame>): nat {
    if trace == [] then 0 else CountOf(p, trace[..|trace| - 1]) + if p(trace[|trace| - 1]) then 1 else 0
  }

  /** Messages that broke off: superseded by another, or by a frame out of turn. */
  predicate BreaksOff(e: Event) { e.Incomplete? || e.Sequence? }

  function BrokenOff(events: seq<Event>): nat {
    if events == [] then 0 else BrokenOff(events[..|events| - 1]) + if BreaksOff(events[|events| - 1]) then 1 else 0
  }

  lemma OneEventMore(events: seq<Event>, e: Event)
    ensures BrokenOff(events + [e]) == BrokenOff(events) + if BreaksOff(e) then 1 else 0
  {
    assert (events + [e])[..|events|] == events;
  }

  function Open(s: TapState): nat { if s.buf.Some? then 1 else 0 }

  /** Messages handed on, broken off and open. */
  function Accounted(s: TapState): nat { |s.messages| + BrokenOff(s.events) + Open(s) }

  /** One frame that begins a message: what was open is reported as incomplete, and nothing else is. */
  lemma StartReported(s: TapState, data: Frame)
    requires Starts(data)
    ensures var t := Fed(s, data);
      && t.events == (if s.buf.Some? then s.events + [Incomplete(|s.buf.value|, s.need)] else s.events)
      && t.started && !t.quiet && t.badFrames == s.badFrames && t.cutAtStart == s.cutAtStart
      && |t.messages| + Open(t) == |s.messages| + 1
  {
  }

  /** One that continues a message: in turn, it is silent; out of turn, the message is reported with what it had and what
      was expected, and the frames behind it are not reported again. */
  lemma TurnReported(s: TapState, data: Frame)
    requires Continues(data) && s.buf.Some?
    ensures var t := Fed(s, data);
      && (if data[0] % 16 == s.sn then t.events == s.events && t.quiet == s.quiet
          else t.events == s.events + [Sequence(|s.buf.value|, s.sn, data[0] % 16)] && t.buf.None? && t.quiet && t.messages == s.messages)
      && t.started == s.started && t.badFrames == s.badFrames && t.cutAtStart == s.cutAtStart
  {
  }

  /** One that belongs to no message: before the first of the trace it is counted as cut off; later the first of a
      stretch is reported. */
  lemma StrayReported(s: TapState, data: Frame)
    requires Continues(data) && s.buf.None?
    ensures Fed(s, data) ==
      if !s.started then s.(cutAtStart := s.cutAtStart + 1)
      else if s.quiet then s
      else s.(quiet := true, events := s.events + [Orphan(|data| - 1)])
  {
  }

  lemma OthersReported(s: TapState, data: Frame)
    requires !Starts(data) && !Continues(data)
    ensures Fed(s, data) == if Malformed(data) then s.(badFrames := s.badFrames + 1) else s
  {
  }

  /** Over every trace: as many messages are handed on, broken off or still open as were begun, and every malformed
      frame is counted. */
  lemma {:induction false} EveryStartIsAccounted(s: TapState, trace: seq<Frame>)
    ensures var t := FedAll(s, trace);
      && Accounted(t) == Accounted(s) + CountOf(Starts, trace)
      && t.badFrames == s.badFrames + CountOf(Malformed, trace)
  {
    if trace != [] {
      var front, last := trace[..|trace| - 1], trace[|trace| - 1];
      EveryStartIsAccounted(s, front);
      var t := FedAll(s, front);
      hide FedAll;
      FrameAccounted(t, last);
    }
  }

  lemma FrameAccounted(s: TapState, data: Frame)
    ensures var t := Fed(s, data);
      && Accounted(t) == Accounted(s) + (if Starts(data) then 1 else 0)
      && t.badFrames == s.badFrames + (if Malformed(data) then 1 else 0)
  {
    if Starts(data) {
      StartReported(s, data);
      if s.buf.Some? { OneEventMore(s.events, Incomplete(|s.buf.value|, s.need)); }
      hide Fed, BrokenOff;
    } else if Continues(data) && s.buf.Some? {
      TurnReported(s, data);
      OneEventMore(s.events, Sequence(|s.buf.value|, s.sn, data[0] % 16));
      hide BrokenOff;
    } else if Continues(data) {
      StrayReported(s, data);
      OneEventMore(s.events, Orphan(|data| - 1));
      hide Fed, BrokenOff;
    } else {
      OthersReported(s, data);
      hide Fed, BrokenOff;
    }
  }

  ghost predicate NoStart(trace: seq<Frame>) { forall i :: 0 <= i < |trace| ==> !Starts(trace[i]) }

  /** Frames before the first message of a trace: those that continue one are counted as cut off, without a report. */
  lemma {:induction false} CutAtTheStart(s: TapState, trace: seq<Frame>)
    requires !s.started && s.buf.None? && NoStart(trace)
    ensures var t := FedAll(s, trace);
      && !t.started && t.buf.None? && t.events == s.events && t.messages == s.messages
      && t.cutAtStart == s.cutAtStart + CountOf(Continues, trace)
  {
    if trace != [] {
      var front, last := trace[..|trace| - 1], trace[|trace| - 1];
      CutAtTheStart(s, front);
      var t := FedAll(s, front);
      hide FedAll;
      if Continues(last) { StrayReported(t, last); } else { OthersReported(t, last); }
      hide Fed;
    }
  }

  /** The first frame of the trace that continues a message. */
  ghost predicate FirstStray(trace: seq<Frame>, k: nat) {
    k < |trace| && Continues(trace[k]) && forall j :: 0 <= j < k ==> !Continues(trace[j])
  }

  /** A stretch of frames of no message, later on: one report, of its first frame, unless the message before it was
      itself reported as broken. */
  lemma {:induction false} StrayStretch(s: TapState, trace: seq<Frame>)
    requires s.started && s.buf.None? && NoStart(trace)
    ensures var t := FedAll(s, trace);
      && t.started && t.buf.None? && t.messages == s.messages && t.cutAtStart == s.cutAtStart
      && (s.quiet || CountOf(Continues, trace) == 0 ==> t.events == s.events && t.quiet == s.quiet)
      && (!s.quiet && CountOf(Continues, trace) > 0 ==>
            t.quiet && exists k: nat :: FirstStray(trace, k) && t.events == s.events + [Orphan(|trace[k]| - 1)])
  {
    if trace != [] {
      var front, last := trace[..|trace| - 1], trace[|trace| - 1];
      StrayStretch(s, front);
      var t := FedAll(s, front);
      hide FedAll;
      NoneCounted(front);
      if Continues(last) { StrayReported(t, last); } else { OthersReported(t, last); }
      hide Fed, Starts, Continues;
      if !s.quiet && CountOf(Continues, front) > 0 {
        var k: nat :| FirstStray(front, k) && t.events == s.events + [Orphan(|front[k]| - 1)];
        assert FirstStray(trace, k) && trace[k] == front[k];
      } else if !s.quiet && Continues(last) {
        assert FirstStray(trace, |trace| - 1);
      }
    }
  }

  lemma {:induction false} NoneCounted(trace: seq<Frame>)
    ensures CountOf(Continues, trace) == 0 ==> forall j :: 0 <= j < |trace| ==> !Continues(trace[j])
  {
    if trace != [] { NoneCounted(trace[..|trace| - 1]); }
  }
}
