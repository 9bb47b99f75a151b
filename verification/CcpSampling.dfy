/** A DAQ read against a target with a DAQ list, with no other command in between: what the values of a good read
    are, in terms of the target's memory. */
module CcpSampling {
  import opened Words
  import opened CcpHub
  import opened CcpDaq
  import opened CcpProgram
  import CcpMemory

  /** What the target's memory holds, by extension and address. */
  type Memory = (nat, nat) -> byte

  function BytesAt(m: Memory, f: FieldSpec): (b: Bytes)
    ensures |b| == f.size
  {
    seq(f.size, i requires 0 <= i < f.size => m(f.ext, f.address + i))
  }

  /** The list that SET_DAQ_PTR has selected, the elements written into it since, and whether it is sampled. */
  datatype Slave = Slave(selected: Option<byte>, elements: seq<FieldSpec>, running: bool)

  /** `shown` is the memory at every moment of which a frame has been sent. */
  datatype System = System(hub: Hub, slave: Slave, reply: Option<Bytes>, shown: seq<Memory>)

  datatype Event =
    | Execute(obliges: bool) | Deliver | GiveUp
    | Sample(m: Memory, padding: Bytes) | CollectTimeout | Noise(frame: Bytes)

  function Shown(elements: seq<FieldSpec>, m: Memory): Bytes {
    if elements == [] then [] else Shown(elements[..|elements| - 1], m) + BytesAt(m, elements[|elements| - 1])
  }

  /** The first list's frame: its identifier, and the memory at the elements written. */
  function SampleFrame(slave: Slave, m: Memory, padding: Bytes): Bytes { [0] + Shown(slave.elements, m) + padding }

  /** Noise is a frame of another list, a late response, or one that does not decode. */
  ghost predicate Enabled(s: System, e: Event) {
    match e
    case Execute(_) => s.hub.inFlight.Some? && s.reply.None?
    case Deliver => s.reply.Some?
    case GiveUp => s.hub.inFlight.Some?
    case Sample(m, padding) => s.slave.running && |SampleFrame(s.slave, m, padding)| <= FRAME_LEN
    case CollectTimeout => s.hub.daq.collecting
    case Noise(frame) =>
      match DecodeDto(frame)
      case Invalid => true
      case DaqFrame(pid) => pid != 0
      case Response(_, ctr, _) => s.hub.inFlight.Some? ==> ctr != s.hub.inFlight.value.ctr
  }

  function Told(slave: Slave, cro: Cro): Slave {
    match cro
    case SetDaqPtr(list) => slave.(selected := Some(list), elements := [])
    case WriteDaq(field) => slave.(elements := slave.elements + [field])
    case StartStop(list, _, _) => slave.(running := slave.selected == Some(list))
    case StartStopAll => slave.(running := false)
    case _ => slave
  }

  function Executed(s: System, obliges: bool): System
    requires s.hub.inFlight.Some?
  {
    var p := s.hub.inFlight.value;
    if obliges then s.(slave := Told(s.slave, p.cro), reply := Some(CcpMemory.Reply(0, p.ctr, [])))
    else s.(reply := Some(CcpMemory.Reply(0x10, p.ctr, [])))
  }

  function After(s: System, e: Event): System
    requires Enabled(s, e)
  {
    match e
    case Execute(obliges) => Executed(s, obliges)
    case Deliver => s.(hub := OnFrame(s.hub, s.reply.value, Silent), reply := None)
    case GiveUp => s.(hub := Finish(s.hub, false, [], Silent), reply := None)
    case Sample(m, padding) => s.(hub := OnFrame(s.hub, SampleFrame(s.slave, m, padding), Silent), shown := s.shown + [m])
    case CollectTimeout => s.(hub := Complete(s.hub, Some(AtCollect)))
    case Noise(frame) => s.(hub := OnFrame(s.hub, frame, Silent))
  }

  ghost predicate Reaches(s: System, es: seq<Event>, q: System)
    decreases |es|
  {
    if es == [] then q == s else Enabled(s, es[0]) && Reaches(After(s, es[0]), es[1..], q)
  }

  // ----- what a sample shows -----

  /** Every value is the memory at its field, and the anchor's bytes are those expected, all at one moment. */
  ghost predicate Shows(p: Plan, anchor: Option<Anchor>, m: Memory, values: seq<Bytes>) {
    && |values| == |p.request.fields| && (forall i :: 0 <= i < |values| ==> values[i] == BytesAt(m, p.request.fields[i]))
    && (p.anchored && anchor.Some? && |anchor.value.expected| <= anchor.value.field.size ==>
          anchor.value.expected <= BytesAt(m, anchor.value.field))
  }

  ghost predicate ShownOnce(p: Plan, anchor: Option<Anchor>, shown: seq<Memory>, values: seq<Bytes>) {
    exists k :: 0 <= k < |shown| && Shows(p, anchor, shown[k], values)
  }

  lemma {:induction false} ShownAt(elements: seq<FieldSpec>, m: Memory, i: nat)
    requires i < |elements|
    ensures |Shown(elements, m)| == PlainSum(elements, |elements|)
    ensures PlainSum(elements, i) + elements[i].size <= |Shown(elements, m)|
    ensures Shown(elements, m)[PlainSum(elements, i)..PlainSum(elements, i) + elements[i].size] == BytesAt(m, elements[i])
    decreases |elements|
  {
    var n := |elements|;
    var front := elements[..n - 1];
    ShownSize(elements, m);
    if i < n - 1 {
      ShownAt(front, m, i);
      SameSum(elements, front, i);
    } else {
      ShownSize(front, m);
      SameSum(elements, front, n - 1);
    }
  }

  lemma {:induction false} ShownSize(elements: seq<FieldSpec>, m: Memory)
    ensures |Shown(elements, m)| == PlainSum(elements, |elements|)
    decreases |elements|
  {
    if elements != [] {
      ShownSize(elements[..|elements| - 1], m);
      SameSum(elements, elements[..|elements| - 1], |elements| - 1);
    }
  }

  lemma {:induction false} SameSum(a: seq<FieldSpec>, b: seq<FieldSpec>, n: nat)
    requires n <= |a| && n <= |b| && a[..n] == b[..n]
    ensures PlainSum(a, n) == PlainSum(b, n)
  {
    if n > 0 {
      assert a[n - 1] == a[..n][n - 1] == b[..n][n - 1] == b[n - 1];
      assert a[..n - 1] == a[..n][..n - 1] == b[..n][..n - 1] == b[..n - 1];
      SameSum(a, b, n - 1);
    }
  }

  /** A frame of the list as the programme leaves it holds the memory where the hub looks for it. */
  lemma FrameShows(p: Plan, anchor: Option<Anchor>, m: Memory, padding: Bytes, slave: Slave)
    requires PlanOk(p) && PlanTrue(p, anchor) && slave.elements == p.layout && |SampleFrame(slave, m, padding)| <= FRAME_LEN
    requires CarriesAll(p, SampleFrame(slave, m, padding)) && Anchored(p, anchor, SampleFrame(slave, m, padding))
    ensures Shows(p, anchor, m, Slices(p, SampleFrame(slave, m, padding)))
  {
    var frame := SampleFrame(slave, m, padding);
    SlicesCount(p, frame);
    forall i | 0 <= i < |p.request.fields| ensures Slices(p, frame)[i] == BytesAt(m, p.request.fields[i]) {
      SliceAt(p, frame, i);
      ValueShown(p, anchor, m, padding, slave, i, Slices(p, frame)[i]);
    }
    if p.anchored { AnchorShown(p, anchor, m, padding, slave); }
    hide Slices, CarriesAll, Anchored, PlanOk, SampleFrame;
  }

  lemma Behind(shown: Bytes, padding: Bytes, at: nat, size: nat)
    requires at + size <= |shown|
    ensures ([0] + shown + padding)[1 + at..1 + at + size] == shown[at..at + size]
  {
  }

  lemma ValueShown(p: Plan, anchor: Option<Anchor>, m: Memory, padding: Bytes, slave: Slave, i: nat, value: Bytes)
    requires PlanTrue(p, anchor) && slave.elements == p.layout && i < |p.request.fields|
    requires InPlace(p, SampleFrame(slave, m, padding), i, value)
    ensures value == BytesAt(m, p.request.fields[i])
  {
    var at := FirstField(p) + i;
    ShownAt(p.layout, m, at);
    hide PlainSum, Shown, BytesAt;
    Behind(Shown(p.layout, m), padding, PlainSum(p.layout, at), p.layout[at].size);
  }

  lemma AnchorShown(p: Plan, anchor: Option<Anchor>, m: Memory, padding: Bytes, slave: Slave)
    requires PlanTrue(p, anchor) && slave.elements == p.layout && p.anchored
    requires Anchored(p, anchor, SampleFrame(slave, m, padding))
    ensures |anchor.value.expected| <= anchor.value.field.size ==> anchor.value.expected <= BytesAt(m, anchor.value.field)
  {
    var frame, a := SampleFrame(slave, m, padding), anchor.value;
    ShownAt(p.layout, m, 0);
    assert PlainSum(p.layout, 0) == 0 && Offset(p.layout, 0) == 1;
    hide PlainSum, Shown;
    var shown := Shown(p.layout, m);
    if |a.expected| <= a.field.size {
      assert frame[1..1 + |a.expected|] == shown[..|a.expected|] == shown[..a.field.size][..|a.expected|];
    }
  }

  // ----- the invariant -----

  /** A read, the anchor configured and the reads finished before it. */
  datatype Job = Job(plan: Plan, anchor: Option<Anchor>, fired: seq<Daq>)

  ghost predicate JobOk(job: Job) { PlanOk(job.plan) && PlanTrue(job.plan, job.anchor) }

  /** The target has carried out the first `k` commands of the programme. */
  ghost predicate ToldFirst(p: Plan, k: nat, slave: Slave) {
    && (k >= 2 ==> slave.selected == Some(p.request.list))
    && (2 <= k <= 2 + |p.layout| ==> slave.elements == p.layout[..k - 2])
    && (k > 2 + |p.layout| ==> slave.elements == p.layout)
    && (k == 4 + |p.layout| ==> slave.running)
  }

  /** The read asked for is the hub's, undecided. */
  ghost predicate Open(h: Hub, job: Job) {
    h.daq.active && h.daq.plan == job.plan && h.daq.failed.None? && h.anchor == job.anchor && h.fired == job.fired
  }

  ghost predicate Setting(s: System, job: Job) {
    && Open(s.hub, job) && !s.hub.daq.collecting && !s.hub.daq.valid && s.hub.inFlight.Some?
    && var p := s.hub.inFlight.value;
       && IsChain(p.cont) && (p.cont.FieldDone? ==> p.cont.index < |job.plan.layout|)
       && var k := Place(job.plan, p.cont);
          && 1 <= k <= |Programme(job.plan)| && p.cro == Programme(job.plan)[k - 1]
          && match s.reply
             case None => ToldFirst(job.plan, k - 1, s.slave)
             case Some(frame) =>
               (frame == CcpMemory.Reply(0, p.ctr, []) && ToldFirst(job.plan, k, s.slave)) || frame == CcpMemory.Reply(0x10, p.ctr, [])
  }

  ghost predicate Collecting(s: System, job: Job) {
    && Open(s.hub, job) && s.hub.daq.collecting && s.hub.inFlight.None? && s.reply.None? && s.slave.elements == job.plan.layout
    && (s.hub.daq.valid ==> ShownOnce(job.plan, job.anchor, s.shown, s.hub.daq.values))
  }

  /** A result that may be good only with values that were shown. */
  ghost predicate Honest(d: Daq, job: Job, shown: seq<Memory>) {
    d.plan == job.plan && (d.ok ==> ShownOnce(job.plan, job.anchor, shown, d.values))
  }

  ghost predicate Ending(h: Hub, job: Job, shown: seq<Memory>) {
    && !h.daq.collecting && h.anchor == job.anchor
    && if h.daq.active then
         && h.fired == job.fired && Honest(h.daq, job, shown) && h.inFlight.Some?
         && (h.inFlight.value.cont.AllStopped? || h.inFlight.value.cont.StatusCleared?)
         && (h.inFlight.value.cro.StartStopAll? || h.inFlight.value.cro.SetSStatus?)
       else h.inFlight.None? && |h.fired| == |job.fired| + 1 && h.fired[..|job.fired|] == job.fired && Honest(h.fired[|job.fired|], job, shown)
  }

  ghost predicate Stopping(s: System, job: Job) {
    Ending(s.hub, job, s.shown) &&
    match s.reply
    case None => true
    case Some(frame) => s.hub.inFlight.Some? && exists code: byte :: frame == CcpMemory.Reply(code, s.hub.inFlight.value.ctr, [])
  }

  ghost predicate SysInv(s: System, job: Job) { Setting(s, job) || Collecting(s, job) || Stopping(s, job) }

  // ----- the hub's side -----

  /** The outstanding command is over, and no handler calls back. */
  lemma Finishes(h: Hub, ok: bool, data: Bytes)
    requires h.inFlight.Some? && h.inFlight.value.cro != Connect && h.inFlight.value.cro != Disconnect
    ensures Finish(h, ok, data, Silent) == Continue(h.(inFlight := None), h.inFlight.value.cont, ok, data)
  {
  }

  lemma Answered(h: Hub, code: byte)
    requires h.inFlight.Some? && h.inFlight.value.cro != Connect && h.inFlight.value.cro != Disconnect
    ensures OnFrame(h, CcpMemory.Reply(code, h.inFlight.value.ctr, []), Silent)
      == Continue(h.(inFlight := None), h.inFlight.value.cont, code == 0, [])
  {
    CcpMemory.ReplyDecodes(code, h.inFlight.value.ctr, []);
    Finishes(h, code == 0, []);
    hide Continue, Finish, CcpMemory.Reply;
  }

  lemma FireEnds(h: Hub, job: Job, shown: seq<Memory>)
    requires h.daq.active && h.inFlight.None? && h.anchor == job.anchor && h.fired == job.fired && Honest(h.daq, job, shown)
    ensures Ending(Fire(h), job, shown)
  {
    hide ShownOnce;
  }

  lemma ClearEnds(h: Hub, job: Job, shown: seq<Memory>)
    requires h.daq.active && h.inFlight.None? && !h.daq.collecting && h.anchor == job.anchor && h.fired == job.fired && Honest(h.daq, job, shown)
    ensures Ending(ClearStatus(h), job, shown)
  {
    hide ShownOnce, Fire;
    var (h1, sent) := Send(h.(daq := h.daq.(clearTried := true)), SetSStatus(0), StatusCleared);
    if !sent { FireEnds(h1, job, shown); }
  }

  lemma TeardownEnds(h: Hub, job: Job, shown: seq<Memory>)
    requires h.daq.active && h.inFlight.None? && !h.daq.collecting && h.anchor == job.anchor && h.fired == job.fired && Honest(h.daq, job, shown)
    ensures Ending(Teardown(h), job, shown)
  {
    hide ShownOnce, ClearStatus;
    var (h1, sent) := Send(h.(daq := h.daq.(stopAllTried := true)), StartStopAll, AllStopped);
    if !sent { ClearEnds(h1, job, shown); }
  }

  lemma CompleteEnds(h: Hub, step: Option<Step>, job: Job, shown: seq<Memory>)
    requires Open(h, job) && h.inFlight.None?
    requires step.None? && h.daq.valid ==> ShownOnce(job.plan, job.anchor, shown, h.daq.values)
    ensures Ending(Complete(h, step), job, shown)
  {
    hide ShownOnce, Teardown;
    var failed := Verdict(h.daq, step);
    TeardownEnds(h.(daq := h.daq.(collecting := false, failed := failed, ok := failed.None?)), job, shown);
  }

  // ----- each event -----

  /** The next command of the programme, or the end if the port refuses it. */
  lemma StepSets(s: System, job: Job, h: Hub, cro: Cro, cont: Cont, step: Step, k: nat)
    requires JobOk(job) && Open(h, job) && !h.daq.collecting && !h.daq.valid && h.inFlight.None? && ToldFirst(job.plan, k, s.slave)
    requires IsChain(cont) && (cont.FieldDone? ==> cont.index < |job.plan.layout|) && Place(job.plan, cont) == k + 1
    requires k < |Programme(job.plan)| && cro == Programme(job.plan)[k]
    ensures SysInv(s.(hub := DaqStep(h, cro, cont, step), reply := None), job)
  {
    var (h1, sent) := Send(h, cro, cont);
    var q := s.(hub := DaqStep(h, cro, cont, step), reply := None);
    hide ShownOnce, Programme, ToldFirst, Complete, Send, JobOk;
    if sent {
      assert Setting(q, job);
    } else {
      CompleteEnds(h1, Some(step), job, s.shown);
      assert Stopping(q, job);
    }
  }

  lemma ChainGoesOn(s: System, job: Job, h: Hub, cont: Cont)
    requires JobOk(job) && Open(h, job) && !h.daq.collecting && !h.daq.valid && h.inFlight.None?
    requires IsChain(cont) && (cont.FieldDone? ==> cont.index < |job.plan.layout|) && ToldFirst(job.plan, Place(job.plan, cont), s.slave)
    ensures SysInv(s.(hub := Continue(h, cont, true, []), reply := None), job)
  {
    var p, k := job.plan, Place(job.plan, cont);
    ProgrammeAt(p);
    hide DaqStep, Programme, JobOk, SysInv, Complete, Send, FailSequence, ContinueRead, ContinueWrite;
    match cont
    case SizeDone => StepSets(s, job, h, SetDaqPtr(p.request.list), PtrDone, AtPtr, k);
    case PtrDone => FieldSets(s, job, h, 0);
    case FieldDone(index) => FieldSets(s, job, h, index + 1);
    case StatusDone => StepSets(s, job, h, StartStop(p.request.list, p.request.event, p.request.rate), StartDone, AtStart, k);
    case StartDone => CollectionStarts(s, job, h);
  }

  lemma CollectionStarts(s: System, job: Job, h: Hub)
    requires Open(h, job) && !h.daq.valid && h.inFlight.None? && ToldFirst(job.plan, 4 + |job.plan.layout|, s.slave)
    ensures SysInv(s.(hub := h.(daq := h.daq.(collecting := true)), reply := None), job)
  {
    hide ShownOnce, Programme;
    assert Collecting(s.(hub := h.(daq := h.daq.(collecting := true)), reply := None), job);
  }

  lemma FieldSets(s: System, job: Job, h: Hub, index: nat)
    requires JobOk(job) && Open(h, job) && !h.daq.collecting && !h.daq.valid && h.inFlight.None?
    requires index <= |job.plan.layout| && ToldFirst(job.plan, 2 + index, s.slave)
    ensures SysInv(s.(hub := WriteField(h, index), reply := None), job)
  {
    ProgrammeAt(job.plan);
    hide DaqStep, Programme, JobOk, SysInv, ToldFirst;
    if index >= |job.plan.layout| {
      StepSets(s, job, h, SetSStatus(0x82), StatusDone, AtStatus, 2 + index);
    } else {
      StepSets(s, job, h, WriteDaq(job.plan.layout[index]), FieldDone(index), AtField, 2 + index);
    }
  }

  /** Carrying out the next command of the programme. */
  lemma TellNext(p: Plan, k: nat, slave: Slave)
    requires 1 <= k <= |Programme(p)| && ToldFirst(p, k - 1, slave)
    ensures ToldFirst(p, k, Told(slave, Programme(p)[k - 1]))
  {
    ProgrammeAt(p);
    hide Programme;
    if 2 < k <= 2 + |p.layout| {
      assert Programme(p)[2 + (k - 3)] == WriteDaq(p.layout[k - 3]);
      assert p.layout[..k - 3] + [p.layout[k - 3]] == p.layout[..k - 2];
    }
  }

  lemma SettingExecutes(s: System, job: Job, obliges: bool)
    requires Setting(s, job) && s.reply.None?
    ensures Setting(Executed(s, obliges), job)
  {
    hide CcpMemory.Reply, Programme, ToldFirst, Told, Open;
    if obliges { TellNext(job.plan, Place(job.plan, s.hub.inFlight.value.cont), s.slave); }
  }

  /** What the chain's commands are not. */
  lemma ChainCommands(p: Plan, k: nat)
    requires k < |Programme(p)|
    ensures Programme(p)[k] != Connect && Programme(p)[k] != Disconnect
  {
  }

  lemma SettingAnswered(s: System, job: Job, code: byte)
    requires JobOk(job) && Setting(s, job) && s.reply == Some(CcpMemory.Reply(code, s.hub.inFlight.value.ctr, []))
    requires code == 0 ==> ToldFirst(job.plan, Place(job.plan, s.hub.inFlight.value.cont), s.slave)
    ensures SysInv(After(s, Deliver), job)
  {
    var h, c := s.hub.(inFlight := None), s.hub.inFlight.value.cont;
    hide OnFrame, CcpMemory.Reply, Programme, ToldFirst, JobOk, Continue, SysInv;
    ChainCommands(job.plan, Place(job.plan, c) - 1);
    Answered(s.hub, code);
    assert After(s, Deliver) == s.(hub := Continue(h, c, code == 0, []), reply := None);
    hide After;
    if code == 0 { ChainGoesOn(s, job, h, c); } else { ChainBreaksOff(s, job, h, c); }
  }

  lemma ChainBreaksOff(s: System, job: Job, h: Hub, c: Cont)
    requires Open(h, job) && h.inFlight.None? && IsChain(c)
    ensures SysInv(s.(hub := Continue(h, c, false, []), reply := None), job)
  {
    ChainFails(h, c, []);
    hide Continue, Complete, Setting, Collecting;
    var step := FailStep(c);
    CompleteEnds(h, Some(step), job, s.shown);
    hide Ending, Open;
    assert Stopping(s.(hub := Complete(h, Some(step)), reply := None), job);
  }

  lemma SettingDelivers(s: System, job: Job)
    requires JobOk(job) && Setting(s, job) && s.reply.Some?
    ensures SysInv(After(s, Deliver), job)
  {
    var p := s.hub.inFlight.value;
    hide ToldFirst, Programme, After, SysInv;
    if s.reply.value == CcpMemory.Reply(0x10, p.ctr, []) { SettingAnswered(s, job, 0x10); } else { SettingAnswered(s, job, 0); }
  }

  lemma SettingGivesUp(s: System, job: Job)
    requires Setting(s, job)
    ensures SysInv(After(s, GiveUp), job)
  {
    var h, c := s.hub.(inFlight := None), s.hub.inFlight.value.cont;
    hide ToldFirst, Continue, Programme, Finish, SysInv;
    ChainCommands(job.plan, Place(job.plan, c) - 1);
    Finishes(s.hub, false, []);
    ChainBreaksOff(s, job, h, c);
  }

  lemma StoppingGoesOn(s: System, job: Job, ok: bool)
    requires Stopping(s, job) && s.hub.inFlight.Some? && s.hub.daq.active
    ensures Stopping(s.(hub := Continue(s.hub.(inFlight := None), s.hub.inFlight.value.cont, ok, []), reply := None), job)
  {
    var h := s.hub.(inFlight := None);
    hide ShownOnce, ClearStatus, Fire, CcpMemory.Reply;
    if s.hub.inFlight.value.cont.AllStopped? { ClearEnds(h, job, s.shown); } else { FireEnds(h, job, s.shown); }
  }

  lemma StoppingStep(s: System, job: Job, e: Event)
    requires Stopping(s, job) && Enabled(s, e) && !e.Sample? && !e.Noise?
    ensures Stopping(After(s, e), job)
  {
    match e
    case Execute(obliges) => hide CcpMemory.Reply, ShownOnce;
    case Deliver =>
      var code: byte :| s.reply.value == CcpMemory.Reply(code, s.hub.inFlight.value.ctr, []);
      Answered(s.hub, code);
      hide OnFrame, CcpMemory.Reply, Continue;
      StoppingGoesOn(s, job, code == 0);
      hide Stopping;
    case GiveUp =>
      Finishes(s.hub, false, []);
      hide Finish, Continue;
      StoppingGoesOn(s, job, false);
      hide Stopping;
  }

  lemma MoreShown(p: Plan, anchor: Option<Anchor>, shown: seq<Memory>, values: seq<Bytes>, m: Memory)
    requires ShownOnce(p, anchor, shown, values)
    ensures ShownOnce(p, anchor, shown + [m], values)
  {
    hide Shows;
    var k :| 0 <= k < |shown| && Shows(p, anchor, shown[k], values);
    assert (shown + [m])[k] == shown[k];
  }

  lemma NowShown(p: Plan, anchor: Option<Anchor>, shown: seq<Memory>, values: seq<Bytes>, m: Memory)
    requires Shows(p, anchor, m, values)
    ensures ShownOnce(p, anchor, shown + [m], values)
  {
    hide Shows;
    assert (shown + [m])[|shown|] == m;
  }

  lemma FrameReaches(h: Hub, slave: Slave, m: Memory, padding: Bytes)
    ensures OnFrame(h, SampleFrame(slave, m, padding), Silent) == HandleDaqFrame(h, SampleFrame(slave, m, padding))
  {
    hide HandleDaqFrame;
  }

  lemma SampleTaken(s: System, job: Job, m: Memory, padding: Bytes)
    requires JobOk(job) && Collecting(s, job) && Enabled(s, Sample(m, padding))
    ensures var d := Sampled(s.hub.daq, s.hub.anchor, SampleFrame(s.slave, m, padding));
      d.valid ==> ShownOnce(job.plan, job.anchor, s.shown + [m], d.values)
  {
    var frame, d := SampleFrame(s.slave, m, padding), s.hub.daq;
    hide CarriesAll, Anchored, Slices, ShownOnce, PlanOk, SampleFrame;
    if Anchored(job.plan, job.anchor, frame) && CarriesAll(job.plan, frame) {
      FrameShows(job.plan, job.anchor, m, padding, s.slave);
      NowShown(job.plan, job.anchor, s.shown, Slices(job.plan, frame), m);
    } else if d.valid {
      MoreShown(job.plan, job.anchor, s.shown, d.values, m);
    }
  }

  lemma CollectingSamples(s: System, job: Job, m: Memory, padding: Bytes)
    requires JobOk(job) && Collecting(s, job) && Enabled(s, Sample(m, padding))
    ensures SysInv(After(s, Sample(m, padding)), job)
  {
    var q, frame := After(s, Sample(m, padding)), SampleFrame(s.slave, m, padding);
    assert frame[0] == 0;
    FrameReaches(s.hub, s.slave, m, padding);
    SampleTaken(s, job, m, padding);
    SampledKeeps(s.hub.daq, s.hub.anchor, frame);
    hide OnFrame, Sampled, Complete, ShownOnce, JobOk, SampleFrame;
    var h1 := s.hub.(daq := Sampled(s.hub.daq, s.hub.anchor, frame));
    assert q.hub == HandleDaqFrame(s.hub, frame) && q.shown == s.shown + [m];
    if h1.daq.framesSeen >= h1.daq.plan.request.samples {
      CompleteEnds(h1, None, job, q.shown);
      assert Stopping(q, job);
    } else {
      assert Collecting(q, job);
    }
  }

  /** Frames do not concern a hub that is not collecting. */
  lemma SampleIgnored(s: System, job: Job, m: Memory, padding: Bytes)
    requires (Setting(s, job) || Stopping(s, job)) && Enabled(s, Sample(m, padding))
    ensures SysInv(After(s, Sample(m, padding)), job)
  {
    var q := After(s, Sample(m, padding));
    FrameReaches(s.hub, s.slave, m, padding);
    hide OnFrame, SampleFrame, CcpMemory.Reply, Programme, ToldFirst;
    assert q == s.(shown := s.shown + [m]);
    if Stopping(s, job) {
      StillHonest(s.hub, job, s.shown, m);
      hide Ending;
    }
  }

  lemma StillHonest(h: Hub, job: Job, shown: seq<Memory>, m: Memory)
    requires Ending(h, job, shown)
    ensures Ending(h, job, shown + [m])
  {
    var d := if h.daq.active then h.daq else h.fired[|job.fired|];
    if d.ok { MoreShown(job.plan, job.anchor, shown, d.values, m); }
    hide ShownOnce;
  }

  lemma NoiseIgnored(s: System, frame: Bytes)
    requires Enabled(s, Noise(frame))
    ensures After(s, Noise(frame)) == s
  {
  }

  lemma SysStep(s: System, job: Job, e: Event)
    requires JobOk(job) && SysInv(s, job) && Enabled(s, e)
    ensures SysInv(After(s, e), job)
  {
    match e
    case Noise(frame) => NoiseIgnored(s, frame); hide After, Enabled, SysInv;
    case Sample(m, padding) =>
      hide After, Setting, Collecting, Stopping, Enabled, JobOk;
      if Collecting(s, job) { CollectingSamples(s, job, m, padding); } else { SampleIgnored(s, job, m, padding); }
    case CollectTimeout =>
      assert Collecting(s, job) by { hide ShownOnce, Programme, CcpMemory.Reply; }
      CompleteEnds(s.hub, Some(AtCollect), job, s.shown);
      hide Complete, Ending, ShownOnce, JobOk;
      assert Stopping(After(s, e), job);
    case _ =>
      if Setting(s, job) {
        hide After, JobOk, SysInv, Programme;
        match e
        case Execute(obliges) => SettingStep(s, job, obliges);
        case Deliver => SettingDelivers(s, job);
        case GiveUp => SettingGivesUp(s, job);
      } else {
        assert Stopping(s, job);
        hide After, JobOk, Stopping, Setting, Collecting;
        StoppingStep(s, job, e);
      }
  }

  lemma SettingStep(s: System, job: Job, obliges: bool)
    requires Setting(s, job) && s.reply.None?
    ensures SysInv(After(s, Execute(obliges)), job)
  {
    SettingExecutes(s, job, obliges);
    hide Setting, Executed, Collecting, Stopping;
  }

  lemma {:induction false} SysRun(s: System, job: Job, es: seq<Event>, q: System)
    requires JobOk(job) && SysInv(s, job) && Reaches(s, es, q)
    ensures SysInv(q, job)
    decreases |es|
  {
    if es != [] {
      hide SysInv, After, JobOk;
      SysStep(s, job, es[0]);
      SysRun(After(s, es[0]), job, es[1..], q);
    }
  }

  /** Whatever the target refuses, and whatever is late or lost: the read's callback comes at most once, and if
      its result is good then each value is the target's memory at the field asked for, all values of
      one moment, at which a required anchor held what is expected of it. */
  lemma ValuesAreMemory(s: System, r: DaqRequest, es: seq<Event>, q: System)
    requires s.reply.None?
    requires var (h, accepted) := DaqRead(s.hub, r); accepted && Reaches(s.(hub := h), es, q)
    ensures |s.hub.fired| <= |q.hub.fired| <= |s.hub.fired| + 1 && q.hub.fired[..|s.hub.fired|] == s.hub.fired
    ensures |q.hub.fired| > |s.hub.fired| ==>
      var d := q.hub.fired[|s.hub.fired|];
      d.plan.request == r && (d.ok ==> ShownOnce(d.plan, s.hub.anchor, q.shown, d.values) && d.plan.anchored == r.requireAnchor)
  {
    var h := DaqRead(s.hub, r).0;
    var job := Job(h.daq.plan, s.hub.anchor, s.hub.fired);
    Accepted(s, r, job);
    SysRun(s.(hub := h), job, es, q);
    hide Reaches, DaqRead, ShownOnce, Programme, CcpMemory.Reply;
  }

  lemma Accepted(s: System, r: DaqRequest, job: Job)
    requires s.reply.None? && DaqRead(s.hub, r).1
    requires job == Job(DaqRead(s.hub, r).0.daq.plan, s.hub.anchor, s.hub.fired)
    ensures JobOk(job) && Setting(s.(hub := DaqRead(s.hub, r).0), job) && job.plan.request == r
    ensures job.plan.anchored == r.requireAnchor
  {
    DaqReadIs(s.hub, r);
    AcceptedPlan(s.hub, r);
    hide DaqRead, PlanOk, Setting;
    Begun(s.(hub := DaqRead(s.hub, r).0), job);
  }

  lemma AcceptedPlan(h: Hub, r: DaqRequest)
    requires DaqRead(h, r).1
    ensures var q := DaqRead(h, r).0;
      q != h && q.daq.active && PlanOk(q.daq.plan) && q.daq.failed.None? && !q.daq.valid && h.inFlight.None?
  {
    hide TotalSize;
  }

  lemma Begun(s: System, job: Job)
    requires Open(s.hub, job) && !s.hub.daq.collecting && !s.hub.daq.valid && s.hub.inFlight.Some? && s.reply.None?
    requires var p, r := s.hub.inFlight.value, job.plan.request; p.cont.SizeDone? && p.cro == GetDaqSize(r.list, r.dtoId)
    ensures Setting(s, job)
  {
    ProgrammeAt(job.plan);
    hide Programme, Open;
  }
}
