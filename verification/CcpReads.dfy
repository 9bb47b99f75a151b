/** DAQ reads get done: with a hub that may write, a port that takes what it sends and a target that obliges, a
    read whose layout fits one frame ends well. */
module CcpReads {
  import opened Words
  import opened CcpHub
  import CcpDaq
  import opened CcpProgram
  import opened CcpSampling
  import CcpMemory

  /** The hub may write, and the port takes what it sends. */
  ghost predicate Willing(h: Hub) { h.enabled && h.allowWrite && forall i :: h.port(i) }

  /** The read has looked at `frames` frames, all of them good. */
  ghost predicate AllGood(d: Daq, frames: nat) {
    d.framesSeen == frames && (frames > 0 ==> d.valid && (d.plan.anchored ==> d.anchorOk > 0))
  }

  lemma {:induction false} ReachesJoin(s: System, a: seq<Event>, q: System, b: seq<Event>, p: System)
    requires Reaches(s, a, q) && Reaches(q, b, p)
    ensures Reaches(s, a + b, p)
    decreases |a|
  {
    hide After, Enabled;
    if a == [] {
      assert a + b == b;
    } else {
      assert (a + b)[0] == a[0] && (a + b)[1..] == a[1..] + b;
      ReachesJoin(After(s, a[0]), a[1..], q, b, p);
    }
  }

  /** A read looks at one frame at least. */
  function Needed(r: DaqRequest): nat { if r.samples == 0 then 1 else r.samples }

  const Exchange := [Execute(true), Deliver]

  lemma Exchanged(s: System, q: System)
    requires s.hub.inFlight.Some? && s.reply.None? && q == After(Executed(s, true), Deliver)
    ensures Reaches(s, Exchange, q)
  {
    var s1 := Executed(s, true);
    assert Exchange[1..] == [Deliver] && [Deliver][1..] == [];
    assert After(s, Execute(true)) == s1 && Enabled(s1, Deliver);
    hide After, Executed;
    assert Reaches(After(s1, Deliver), [], q);
    assert Reaches(s1, [Deliver], q);
  }

  /** A well-answered command of the programme: the next is sent, or collecting starts. */
  lemma SettingExchanged(s: System, job: Job)
    requires JobOk(job) && Setting(s, job) && s.reply.None? && Willing(s.hub) && AllGood(s.hub.daq, 0)
    ensures var s1 := Executed(s, true); s1.reply.Some? && var q := After(s1, Deliver);
      && Willing(q.hub) && AllGood(q.hub.daq, 0) && q.reply.None? && q.shown == s.shown
      && var k := Place(job.plan, s.hub.inFlight.value.cont);
         if k == |Programme(job.plan)| then Collecting(q, job) && q.slave.running
         else Setting(q, job) && Place(job.plan, q.hub.inFlight.value.cont) == k + 1
  {
    var c, s1 := s.hub.inFlight.value.cont, Executed(s, true);
    ProgrammeAt(job.plan);
    SettingTold(s, job);
    var h, k := s.hub.(inFlight := None), Place(job.plan, c);
    ChainCommands(job.plan, k - 1);
    Answered(s1.hub, 0);
    hide OnFrame, CcpMemory.Reply, Programme, ToldFirst, JobOk, Executed;
    assert After(s1, Deliver) == s1.(hub := Continue(h, c, true, []), reply := None);
    hide After;
    GoesOnWell(s1, job, h, c);
  }

  lemma SettingTold(s: System, job: Job)
    requires Setting(s, job) && s.reply.None?
    ensures var q, p := Executed(s, true), s.hub.inFlight.value;
      && ToldFirst(job.plan, Place(job.plan, p.cont), q.slave)
      && q.hub == s.hub && q.shown == s.shown && q.reply == Some(CcpMemory.Reply(0, p.ctr, []))
  {
    SettingExecutes(s, job, true);
    var frame := CcpMemory.Reply(0, s.hub.inFlight.value.ctr, []);
    assert frame[1] == 0 && CcpMemory.Reply(0x10, s.hub.inFlight.value.ctr, [])[1] == 0x10;
    hide ToldFirst, Programme, CcpMemory.Reply;
  }

  lemma GoesOnWell(s: System, job: Job, h: Hub, c: Cont)
    requires Ready(h, job) && ToldFirst(job.plan, Place(job.plan, c), s.slave)
    requires CcpDaq.IsChain(c) && (c.FieldDone? ==> c.index < |job.plan.layout|)
    ensures var q := s.(hub := Continue(h, c, true, []), reply := None);
      && Willing(q.hub) && AllGood(q.hub.daq, 0)
      && var k := Place(job.plan, c);
         if k == |Programme(job.plan)| then Collecting(q, job) && q.slave.running
         else Setting(q, job) && Place(job.plan, q.hub.inFlight.value.cont) == k + 1
  {
    var p, k := job.plan, Place(job.plan, c);
    ProgrammeAt(p);
    hide DaqStep, Programme, Setting, Complete, Send, FailSequence, ContinueRead, ContinueWrite, ToldFirst, AllGood, Willing;
    match c
    case SizeDone => SentOn(s, job, h, SetDaqPtr(p.request.list), PtrDone, AtPtr, k);
    case PtrDone => FieldSent(s, job, h, 0);
    case FieldDone(index) => FieldSent(s, job, h, index + 1);
    case StatusDone => SentOn(s, job, h, StartStop(p.request.list, p.request.event, p.request.rate), StartDone, AtStart, k);
    case StartDone => Started(s, job, h);
  }

  /** Between two commands of the programme. */
  ghost predicate Ready(h: Hub, job: Job) {
    Open(h, job) && !h.daq.collecting && !h.daq.valid && h.inFlight.None? && Willing(h) && AllGood(h.daq, 0)
  }

  lemma Started(s: System, job: Job, h: Hub)
    requires Ready(h, job) && ToldFirst(job.plan, 4 + |job.plan.layout|, s.slave)
    ensures var q := s.(hub := h.(daq := h.daq.(collecting := true)), reply := None);
      Willing(q.hub) && AllGood(q.hub.daq, 0) && Collecting(q, job) && q.slave.running
  {
    hide ShownOnce;
  }

  lemma SentOn(s: System, job: Job, h: Hub, cro: Cro, cont: Cont, step: Step, k: nat)
    requires Ready(h, job) && ToldFirst(job.plan, k, s.slave)
    requires CcpDaq.IsChain(cont) && (cont.FieldDone? ==> cont.index < |job.plan.layout|) && Place(job.plan, cont) == k + 1
    requires k < |Programme(job.plan)| && cro == Programme(job.plan)[k]
    ensures var q := s.(hub := DaqStep(h, cro, cont, step), reply := None);
      Willing(q.hub) && AllGood(q.hub.daq, 0) && Setting(q, job) && q.hub.inFlight.value.cont == cont
  {
    var (h1, sent) := Send(h, cro, cont);
    hide Programme, ToldFirst, Complete;
    assert sent && DaqStep(h, cro, cont, step) == h1;
    hide Send, DaqStep;
  }

  lemma FieldSent(s: System, job: Job, h: Hub, index: nat)
    requires Ready(h, job) && index <= |job.plan.layout| && ToldFirst(job.plan, 2 + index, s.slave)
    ensures var q := s.(hub := WriteField(h, index), reply := None);
      Willing(q.hub) && AllGood(q.hub.daq, 0) && Setting(q, job) && Place(job.plan, q.hub.inFlight.value.cont) == 3 + index
  {
    ProgrammeAt(job.plan);
    assert h.daq.plan == job.plan;
    hide DaqStep, Programme, Setting, ToldFirst, Ready, AllGood, Willing;
    if index >= |job.plan.layout| {
      SentOn(s, job, h, SetSStatus(0x82), StatusDone, AtStatus, 2 + index);
    } else {
      SentOn(s, job, h, WriteDaq(job.plan.layout[index]), FieldDone(index), AtField, 2 + index);
    }
  }

  /** From any point of the programme to the first sample. */
  lemma {:induction false} SetsUp(s: System, job: Job) returns (es: seq<Event>, q: System)
    requires JobOk(job) && Setting(s, job) && s.reply.None? && Willing(s.hub) && AllGood(s.hub.daq, 0)
    ensures Reaches(s, es, q) && Collecting(q, job) && q.slave.running && Willing(q.hub) && AllGood(q.hub.daq, 0) && q.shown == s.shown
    decreases |Programme(job.plan)| - Place(job.plan, s.hub.inFlight.value.cont)
  {
    SettingExchanged(s, job);
    var k := Place(job.plan, s.hub.inFlight.value.cont);
    q := After(Executed(s, true), Deliver);
    Exchanged(s, q);
    hide Setting, Collecting, Executed, After, Reaches, Programme, Willing, AllGood, JobOk;
    es := Exchange;
    if k < |Programme(job.plan)| {
      var q1, more := q, [];
      more, q := SetsUp(q1, job);
      ReachesJoin(s, Exchange, q1, more, q);
      es := Exchange + more;
    }
  }

  /** The memory fits one frame, and a required anchor is in it. */
  ghost predicate Fitting(job: Job, m: Memory) {
    && CcpDaq.PlainSum(job.plan.layout, |job.plan.layout|) <= ODT_PAYLOAD
    && (job.plan.anchored && job.anchor.Some? ==> job.anchor.value.expected <= BytesAt(m, job.anchor.value.field))
  }

  lemma GoodFrame(job: Job, m: Memory, slave: Slave)
    requires JobOk(job) && Fitting(job, m) && slave.elements == job.plan.layout
    ensures var frame := SampleFrame(slave, m, []);
      |frame| <= FRAME_LEN && CarriesAll(job.plan, frame) && Anchored(job.plan, job.anchor, frame)
  {
    var p, frame := job.plan, SampleFrame(slave, m, []);
    ShownSize(p.layout, m);
    CcpDaq.OffsetsExact(p.layout);
    forall i | 0 <= i < |p.request.fields| ensures FrameCarries(p, frame, i) {
      ShownAt(p.layout, m, FirstField(p) + i);
      hide CcpDaq.PlainSum, TotalSize, Shown;
      assert Offset(p.layout, FirstField(p) + i) == 1 + CcpDaq.PlainSum(p.layout, FirstField(p) + i);
    }
    if p.anchored { AnchorFound(job, m, slave); }
    hide FrameCarries, Anchored, SampleFrame, CcpDaq.Fits;
    assert |frame| <= FRAME_LEN by { FrameSize(slave, m); }
  }

  lemma FrameSize(slave: Slave, m: Memory)
    ensures |SampleFrame(slave, m, [])| == 1 + CcpDaq.PlainSum(slave.elements, |slave.elements|)
  {
    ShownSize(slave.elements, m);
  }

  lemma AnchorFound(job: Job, m: Memory, slave: Slave)
    requires JobOk(job) && Fitting(job, m) && slave.elements == job.plan.layout && job.plan.anchored
    ensures Anchored(job.plan, job.anchor, SampleFrame(slave, m, []))
  {
    var p, a, frame := job.plan, job.anchor.value, SampleFrame(slave, m, []);
    ShownAt(p.layout, m, 0);
    assert CcpDaq.PlainSum(p.layout, 0) == 0 && Offset(p.layout, 0) == 1;
    hide CcpDaq.PlainSum, Shown, TotalSize;
    var shown := Shown(p.layout, m);
    assert frame[1..1 + |a.expected|] == shown[..a.field.size][..|a.expected|];
  }

  /** A good frame: collecting goes on, or the result is good. */
  lemma GoodSample(s: System, job: Job, m: Memory, frames: nat)
    requires JobOk(job) && Fitting(job, m) && Collecting(s, job) && s.slave.running && Willing(s.hub) && AllGood(s.hub.daq, frames)
    ensures Enabled(s, Sample(m, []))
    ensures var q := After(s, Sample(m, []));
      && Willing(q.hub) && q.slave == s.slave && q.shown == s.shown + [m] && q.reply.None?
      && if frames + 1 < job.plan.request.samples then Collecting(q, job) && AllGood(q.hub.daq, frames + 1)
         else (
           && q.hub.daq.active && q.hub.daq.ok && AllGood(q.hub.daq, frames + 1) && q.hub.fired == job.fired
           && q.hub.inFlight.Some? && q.hub.inFlight.value.cont.AllStopped? && q.hub.inFlight.value.cro.StartStopAll?
           && Shows(job.plan, job.anchor, m, q.hub.daq.values) && q.hub.daq.plan == job.plan)
  {
    var frame := SampleFrame(s.slave, m, []);
    hide OnFrame, CarriesAll, Anchored, Slices, ShownOnce, JobOk, SampleFrame, Shows, Fitting, HandleDaqFrame, AllGood, Willing;
    FrameHere(s, job, m);
    FrameTaken(s.hub, job, frame, frames);
  }

  lemma FrameHere(s: System, job: Job, m: Memory)
    requires JobOk(job) && Fitting(job, m) && s.slave.elements == job.plan.layout
    ensures var frame := SampleFrame(s.slave, m, []);
      && 0 < |frame| <= FRAME_LEN && frame[0] == 0 && OnFrame(s.hub, frame, Silent) == HandleDaqFrame(s.hub, frame)
      && CarriesAll(job.plan, frame) && Anchored(job.plan, job.anchor, frame)
      && Shows(job.plan, job.anchor, m, Slices(job.plan, frame))
      && ShownOnce(job.plan, job.anchor, s.shown + [m], Slices(job.plan, frame))
  {
    var frame := SampleFrame(s.slave, m, []);
    assert frame[0] == 0;
    hide OnFrame, CarriesAll, Anchored, Slices, ShownOnce, SampleFrame, Shows, Fitting, HandleDaqFrame;
    GoodFrame(job, m, s.slave);
    FrameShows(job.plan, job.anchor, m, [], s.slave);
    NowShown(job.plan, job.anchor, s.shown, Slices(job.plan, frame), m);
    FrameReaches(s.hub, s.slave, m, []);
  }

  /** The hub's side of a good frame. */
  lemma FrameTaken(h: Hub, job: Job, frame: Bytes, frames: nat)
    requires Open(h, job) && h.daq.collecting && h.inFlight.None? && Willing(h) && AllGood(h.daq, frames)
    requires frame != [] && frame[0] == 0 && CarriesAll(job.plan, frame) && Anchored(job.plan, job.anchor, frame)
    ensures var q := HandleDaqFrame(h, frame);
      && Willing(q) && AllGood(q.daq, frames + 1) && q.daq.values == Slices(job.plan, frame) && q.daq.plan == job.plan && q.fired == job.fired
      && if frames + 1 < job.plan.request.samples then Open(q, job) && q.daq.collecting && q.inFlight.None? && q.daq.valid
         else q.daq.active && q.daq.ok && q.inFlight.Some? && q.inFlight.value.cont.AllStopped? && q.inFlight.value.cro.StartStopAll?
  {
    SampledWell(h.daq, h.anchor, frame, frames);
    assert Sampled(h.daq, h.anchor, frame).framesSeen == frames + 1;
    hide CarriesAll, Anchored, Slices, Sampled, Complete;
    if frames + 1 >= job.plan.request.samples { CompletesWell(h.(daq := Sampled(h.daq, h.anchor, frame)), frames + 1); }
  }

  lemma SampledWell(d: Daq, anchor: Option<Anchor>, frame: Bytes, frames: nat)
    requires CarriesAll(d.plan, frame) && Anchored(d.plan, anchor, frame) && AllGood(d, frames)
    ensures var q := Sampled(d, anchor, frame);
      && q.values == Slices(d.plan, frame) && AllGood(q, frames + 1) && q.plan == d.plan && q.failed == d.failed
      && q.active == d.active && q.collecting == d.collecting && q.valid
  {
    hide CarriesAll, Anchored, Slices;
  }

  lemma CompletesWell(h: Hub, frames: nat)
    requires h.daq.active && h.daq.failed.None? && h.inFlight.None? && Willing(h) && frames > 0 && AllGood(h.daq, frames)
    ensures var q := Complete(h, None);
      && Willing(q) && q.daq.active && q.daq.ok && q.daq.values == h.daq.values && q.fired == h.fired && AllGood(q.daq, frames)
      && q.inFlight.Some? && q.inFlight.value.cont.AllStopped? && q.inFlight.value.cro.StartStopAll? && q.daq.plan == h.daq.plan
      && !q.daq.collecting
  {
  }

  /** Sampling until the target is met. */
  lemma {:induction false} Collects(s: System, job: Job, m: Memory, frames: nat) returns (es: seq<Event>, q: System)
    requires JobOk(job) && Fitting(job, m) && Collecting(s, job) && s.slave.running && Willing(s.hub) && AllGood(s.hub.daq, frames)
    requires frames < Needed(job.plan.request)
    ensures Reaches(s, es, q) && Willing(q.hub) && q.reply.None? && q.hub.fired == job.fired
    ensures q.hub.daq.active && q.hub.daq.ok && AllGood(q.hub.daq, Needed(job.plan.request)) && q.hub.daq.plan == job.plan
    ensures q.hub.inFlight.Some? && q.hub.inFlight.value.cont.AllStopped? && q.hub.inFlight.value.cro.StartStopAll?
    ensures Shows(job.plan, job.anchor, m, q.hub.daq.values)
    decreases job.plan.request.samples - frames
  {
    GoodSample(s, job, m, frames);
    hide After, Collecting, JobOk, Fitting, Willing, Shows;
    q := After(s, Sample(m, []));
    es := [Sample(m, [])];
    assert es[1..] == [] && Reaches(q, [], q);
    assert Reaches(s, es, q);
    if frames + 1 < job.plan.request.samples {
      var q1, more := q, [];
      hide AllGood, Reaches;
      more, q := Collects(q1, job, m, frames + 1);
      ReachesJoin(s, es, q1, more, q);
      es := es + more;
    }
  }

  /** A stop command that is answered. */
  lemma StopExchanged(s: System)
    requires s.hub.inFlight.Some? && s.reply.None? && Willing(s.hub) && s.hub.daq.active && s.hub.daq.ok
    requires var p := s.hub.inFlight.value; (p.cont.AllStopped? && p.cro.StartStopAll?) || (p.cont.StatusCleared? && p.cro.SetSStatus?)
    ensures var s1 := Executed(s, true); s1.reply.Some? && var q := After(s1, Deliver);
      && Willing(q.hub) && q.reply.None?
      && if s.hub.inFlight.value.cont.AllStopped? then
           q.hub.daq == s.hub.daq.(clearTried := true) && q.hub.fired == s.hub.fired
           && q.hub.inFlight.Some? && q.hub.inFlight.value.cont.StatusCleared? && q.hub.inFlight.value.cro.SetSStatus?
         else q.hub.fired == s.hub.fired + [s.hub.daq] && !q.hub.daq.active && q.hub.inFlight.None?
  {
    var s1 := Executed(s, true);
    Answered(s1.hub, 0);
    hide OnFrame, CcpMemory.Reply;
  }

  /** An idle hub that may write, a port that takes what it sends, a target that obliges and whose memory holds a
      required anchor: a read whose layout fits one frame is accepted, and ends well, with the memory at
      its fields. */
  lemma ReadEndsWell(s: System, r: DaqRequest, m: Memory) returns (es: seq<Event>, q: System)
    requires s.reply.None? && s.hub.inFlight.None? && !s.hub.daq.active && Willing(s.hub)
    requires r.fields != [] && (forall i :: 0 <= i < |r.fields| ==> r.fields[i].size > 0)
    requires r.requireAnchor ==> s.hub.anchor.Some? && s.hub.anchor.value.expected <= BytesAt(m, s.hub.anchor.value.field)
    requires var layout := (if r.requireAnchor then [s.hub.anchor.value.field] else []) + r.fields;
      CcpDaq.PlainSum(layout, |layout|) <= ODT_PAYLOAD
    ensures var (h, accepted) := DaqRead(s.hub, r); accepted && Reaches(s.(hub := h), es, q)
    ensures |q.hub.fired| == |s.hub.fired| + 1 && q.hub.fired[..|s.hub.fired|] == s.hub.fired && !q.hub.daq.active
    ensures var d := q.hub.fired[|s.hub.fired|];
      && d.ok && d.framesSeen == Needed(r) && |d.values| == |r.fields|
      && forall i :: 0 <= i < |d.values| ==> d.values[i] == BytesAt(m, r.fields[i])
  {
    var (h, accepted) := DaqRead(s.hub, r);
    AcceptedWell(s, r);
    var job, s0 := Job(h.daq.plan, s.hub.anchor, s.hub.fired), s.(hub := h);
    Accepted(s, r, job);
    hide DaqRead, Setting, JobOk, Reaches, Executed, After;
    var a, s1 := SetsUp(s0, job);
    var b, s2 := Collects(s1, job, m, 0);
    ReachesJoin(s0, a, s1, b, s2);
    StopExchanged(s2);
    var s3 := After(Executed(s2, true), Deliver);
    Exchanged(s2, s3);
    StopExchanged(s3);
    q := After(Executed(s3, true), Deliver);
    Exchanged(s3, q);
    ReachesJoin(s2, Exchange, s3, Exchange, q);
    ReachesJoin(s0, a + b, s2, Exchange + Exchange, q);
    es := a + b + (Exchange + Exchange);
  }

  lemma AcceptedWell(s: System, r: DaqRequest)
    requires s.hub.inFlight.None? && !s.hub.daq.active && Willing(s.hub)
    requires r.fields != [] && (forall i :: 0 <= i < |r.fields| ==> r.fields[i].size > 0)
    requires r.requireAnchor ==> s.hub.anchor.Some?
    requires var layout := (if r.requireAnchor then [s.hub.anchor.value.field] else []) + r.fields;
      CcpDaq.PlainSum(layout, |layout|) <= ODT_PAYLOAD
    ensures var (h, accepted) := DaqRead(s.hub, r);
      && accepted && Willing(h) && AllGood(h.daq, 0) && h.daq.plan.anchored == r.requireAnchor
      && h.daq.plan.layout == (if r.requireAnchor then [s.hub.anchor.value.field] else []) + r.fields
  {
    var layout := (if r.requireAnchor then [s.hub.anchor.value.field] else []) + r.fields;
    assert layout[..|layout|] == layout && [] + r.fields == r.fields;
    CcpDaq.TotalIsSum(layout, |layout|);
    var d := Daq(true, false, Plan(r, r.requireAnchor, layout), [], false, 0, 0, None, false, [], false, false);
    hide DaqRead, TotalSize, CcpDaq.PlainSum;
    PortTakes(s.hub, r, d);
  }

  lemma PortTakes(h: Hub, r: DaqRequest, d: Daq)
    requires h.inFlight.None? && !h.daq.active && Willing(h) && (r.requireAnchor ==> h.anchor.Some?)
    requires r.fields != [] && (forall i :: 0 <= i < |r.fields| ==> r.fields[i].size > 0) && TotalSize(d.plan.layout) <= ODT_PAYLOAD
    requires d == Daq(true, false, Plan(r, r.requireAnchor, d.plan.layout), [], false, 0, 0, None, false, [], false, false)
    requires d.plan.layout == if r.requireAnchor then [h.anchor.value.field] + r.fields else r.fields
    ensures var (q, accepted) := DaqRead(h, r); accepted && Willing(q) && q.daq == d
  {
    hide TotalSize;
    var (h1, sent) := Send(h.(daq := d), GetDaqSize(r.list, r.dtoId), SizeDone);
    assert sent && Willing(h1) && h1.daq == d;
    hide Send;
  }
}
