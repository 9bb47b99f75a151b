/** Memory transfers get done: with an idle hub, a port that takes every frame and a slave that obliges, a read
    delivers and a write reports success, in as many commands as its length says. */
module CcpTransfers {
  import opened Words
  import opened CcpHub
  import opened CcpMemory

  /** The slave answers well, and the port takes what the hub sends. */
  ghost predicate Willing(h: Hub) { h.enabled && forall i :: h.port(i) }

  /** The slave carries out the outstanding command, and its answer arrives. */
  function Exchange(s: System): System
    requires s.hub.inFlight.Some? && s.reply.None? && Executed(s, true).reply.Some?
  {
    After(Executed(s, true), Deliver)
  }

  lemma Exchanged(s: System)
    requires s.hub.inFlight.Some? && s.reply.None?
    ensures Executed(s, true).reply.Some? && Reaches(s, [Execute(true), Deliver], Exchange(s))
  {
    var s1 := Executed(s, true);
    assert [Execute(true), Deliver][1..] == [Deliver] && [Deliver][1..] == [];
    assert After(s, Execute(true)) == s1 && Enabled(s1, Deliver);
    hide After, Executed;
    assert Reaches(After(s1, Deliver), [], After(s1, Deliver));
    assert Reaches(s1, [Deliver], After(s1, Deliver));
  }

  lemma {:induction false} ReachesJoin(s: System, a: seq<Event>, q: System, b: seq<Event>, p: System)
    requires Reaches(s, a, q) && Reaches(q, b, p)
    ensures Reaches(s, a + b, p)
    decreases |a|
  {
    hide After, Enabled;
    if a == [] {
      assert a + b == b;
    } else {
      assert (a + b)[0] == a[0] && (a + b)[1..] == a[1..] + b;
      ReachesJoin(After(s, a[0]), a[1..], q, b, p);
    }
  }

  /** Commands a transfer takes beyond its SET_MTA. */
  function ReadFrames(len: nat): nat { (len + 4) / 5 }

  function WriteFrames(len: nat): nat { (len + 5) / 6 }

  lemma FramesLess(len: nat)
    ensures len > 5 ==> ReadFrames(len) == 1 + ReadFrames(len - 5)
    ensures len > 6 ==> WriteFrames(len) == 1 + WriteFrames(len - 6)
    ensures 0 < len <= 5 ==> ReadFrames(len) == 1
    ensures 0 < len <= 6 ==> WriteFrames(len) == 1
    ensures WriteFrames(0) == 0
  {
  }

  /** One exchange of a read: another chunk is asked for, or all is delivered. */
  lemma ReadExchange(s: System, job: ReadJob)
    requires Reading(s, job) && s.reply.None? && Willing(s.hub)
    ensures Executed(s, true).reply.Some?
    ensures var q, m := Exchange(s), s.hub.mem; var n := if s.hub.inFlight.value.cro.Upload? then ReadChunk(m.remaining) else 0;
      && Willing(q.hub) && q.reply.None? && q.memory == s.memory
      && (if m.remaining > n then
            Reading(q, job) && q.hub.mem.remaining == m.remaining - n && q.hub.inFlight.value.cro.Upload? &&
            |q.hub.sent| == |s.hub.sent| + 1
          else
            q.hub.delivered == job.delivered + [job.memory[job.at..job.at + job.len]] && q.hub.sent == s.hub.sent)
  {
    var m, p := s.hub.mem, s.hub.inFlight.value;
    var k := job.len - m.remaining;
    var n := if p.cro.Upload? then ReadChunk(m.remaining) else 0;
    var data := s.memory[job.at + k..job.at + k + n];
    var s1 := Executed(s, true);
    ReadExecutedWell(s, job);
    hide Executed, Reply, Willing;
    ReadTaken(s1, 0, data);
    hide After, Continue;
    ReadMoves(s1, job, Exchange(s), k, data);
  }

  lemma ReadExecutedWell(s: System, job: ReadJob)
    requires Reading(s, job) && s.reply.None?
    ensures var m, p := s.hub.mem, s.hub.inFlight.value; var k := job.len - m.remaining;
      var n := if p.cro.Upload? then ReadChunk(m.remaining) else 0; var q := Executed(s, true);
      && q.hub == s.hub && q.memory == s.memory && q.mta == job.at + k + n
      && q.reply == Some(Reply(0, p.ctr, s.memory[job.at + k..job.at + k + n]))
  {
    hide Reply;
    assert s.memory[job.at..job.at] == [];
  }

  lemma ReadMoves(s: System, job: ReadJob, q: System, k: nat, data: Bytes)
    requires s.hub.inFlight.Some? && s.hub.mem.reading && s.memory == job.memory && s.hub.delivered == job.delivered
    requires job.at + job.len <= |job.memory| && 0 < s.hub.mem.remaining <= job.len && k == job.len - s.hub.mem.remaining
    requires s.hub.mem.got == s.memory[job.at..job.at + k] && Willing(s.hub) && s.mta == job.at + k + |data|
    requires job.at + k + |data| <= |s.memory| && data == s.memory[job.at + k..job.at + k + |data|]
    requires var p := s.hub.inFlight.value;
      if p.cro.Upload? then p.cont.ReadDone? && |data| == ReadChunk(s.hub.mem.remaining) else p.cont.ReadMtaDone? && data == [] && k == 0
    requires q == s.(hub := Continue(s.hub.(inFlight := None), s.hub.inFlight.value.cont, true, data), reply := None)
    ensures Willing(q.hub) && q.reply.None? && q.memory == s.memory
    ensures if s.hub.mem.remaining > |data| then
        Reading(q, job) && q.hub.mem.remaining == s.hub.mem.remaining - |data| && q.hub.inFlight.value.cro.Upload? &&
        |q.hub.sent| == |s.hub.sent| + 1
      else
        q.hub.delivered == job.delivered + [job.memory[job.at..job.at + job.len]] && q.hub.sent == s.hub.sent
  {
    var m := s.hub.mem;
    assert m.got + data == s.memory[job.at..job.at + k + |data|];
    assert data[..|data|] == data;
    if m.remaining > |data| {
      assert q.hub.inFlight.value.cro == Upload(ReadChunk(m.remaining - |data|));
    }
  }

  lemma {:induction false} ReadRest(s: System, job: ReadJob) returns (es: seq<Event>, q: System)
    requires Reading(s, job) && s.reply.None? && Willing(s.hub) && s.hub.inFlight.value.cro.Upload?
    ensures Reaches(s, es, q) && |es| == 2 * ReadFrames(s.hub.mem.remaining)
    ensures q.hub.delivered == job.delivered + [job.memory[job.at..job.at + job.len]]
    ensures |q.hub.sent| == |s.hub.sent| + ReadFrames(s.hub.mem.remaining) - 1
    decreases s.hub.mem.remaining
  {
    assert s.hub.mem.remaining > 0;
    Exchanged(s);
    ReadExchange(s, job);
    FramesLess(s.hub.mem.remaining);
    hide Reading, Exchange, Executed, Reaches, Willing, ReadFrames;
    var q1 := Exchange(s);
    if s.hub.mem.remaining > MAX_TRANSFER {
      var more;
      more, q := ReadRest(q1, job);
      es := [Execute(true), Deliver] + more;
      ReachesJoin(s, [Execute(true), Deliver], q1, more, q);
    } else {
      es, q := [Execute(true), Deliver], q1;
    }
  }

  /** An idle hub, a port that takes what it sends and a slave that obliges: a read delivers, in one SET_MTA and
      one command for every five bytes. */
  lemma ReadDelivers(s: System, ext: byte, at: u32, len: nat) returns (es: seq<Event>, q: System)
    requires s.reply.None? && 0 < len && at + len <= |s.memory|
    requires Willing(s.hub) && s.hub.inFlight.None? && s.hub.mem.remaining == 0
    ensures var (h, accepted) := ReadMemory(s.hub, ext, at, len); accepted && Reaches(s.(hub := h), es, q)
    ensures |es| == 2 + 2 * ReadFrames(len) && |q.hub.sent| == |s.hub.sent| + 1 + ReadFrames(len)
    ensures q.hub.delivered == s.hub.delivered + [s.memory[at..at + len]]
  {
    var job := ReadJob(at, len, s.memory, s.hub.delivered);
    var s1 := s.(hub := ReadMemory(s.hub, ext, at, len).0);
    ReadStarts(s, ext, at, len);
    hide ReadMemory, Reading, Willing, ReadFrames, Exchange, Executed, Reaches;
    Exchanged(s1);
    ReadExchange(s1, job);
    var more;
    more, q := ReadRest(Exchange(s1), job);
    es := [Execute(true), Deliver] + more;
    ReachesJoin(s1, [Execute(true), Deliver], Exchange(s1), more, q);
  }

  lemma ReadStarts(s: System, ext: byte, at: u32, len: nat)
    requires s.reply.None? && 0 < len && at + len <= |s.memory|
    requires Willing(s.hub) && s.hub.inFlight.None? && s.hub.mem.remaining == 0
    ensures var (h, accepted) := ReadMemory(s.hub, ext, at, len);
      && accepted && Willing(h) && |h.sent| == |s.hub.sent| + 1 && h.mem.remaining == len
      && Reading(s.(hub := h), ReadJob(at, len, s.memory, s.hub.delivered)) && !h.inFlight.value.cro.Upload?
  {
    assert s.memory[at..at] == [];
  }

  lemma ExecutedWell(s: System, job: WriteJob, n: nat)
    requires s.hub.inFlight.Some? && Carries(job, s.hub.inFlight.value.cro, s.hub.mem.offset, n) && Placed(s, job, n)
    requires s.reply.None?
    ensures var q := Executed(s, true);
      && q.hub == s.hub && q.reply == Some(Reply(0, s.hub.inFlight.value.ctr, []))
      && q.mta == job.at + s.hub.mem.offset && q.memory == Patched(job.memory, job.at, job.data, s.hub.mem.offset)
  {
    PlacedStep(s, job, n, true);
    RepliesDiffer(s.hub.inFlight.value.ctr);
    hide Reply, Patched;
  }

  lemma RepliesDiffer(ctr: byte)
    ensures Reply(0, ctr, []) != Reply(0x10, ctr, [])
  {
    assert Reply(0, ctr, [])[1] == 0 && Reply(0x10, ctr, [])[1] == 0x10;
  }

  /** The hub's side of a good answer with a port that takes everything. */
  lemma WriteMoves(h: Hub)
    requires h.inFlight.Some? && Willing(h) && h.allowWrite && h.mem.writing && h.mem.offset <= |h.mem.toWrite|
    ensures var q, o := ContinueWrite(h.(inFlight := None), true), h.mem.offset;
      && Willing(q)
      && (if o < |h.mem.toWrite| then
            q.inFlight.Some? && q.mem.offset == o + Min(|h.mem.toWrite| - o, 6) && |q.sent| == |h.sent| + 1
          else q.written == h.written + [true] && q.sent == h.sent)
  {
  }

  /** One exchange of a write: the next chunk is sent, or success reported. */
  lemma WriteExchange(s: System, job: WriteJob)
    requires Writing(s, job) && s.reply.None? && Willing(s.hub)
    ensures s.hub.mem.offset <= |job.data| && Executed(s, true).reply.Some?
    ensures var q, o := Exchange(s), s.hub.mem.offset;
      && Willing(q.hub) && q.reply.None?
      && (if o < |job.data| then
            Writing(q, job) && q.hub.mem.offset == o + Min(|job.data| - o, 6) && |q.hub.sent| == |s.hub.sent| + 1
          else q.hub.written == job.written + [true] && q.hub.sent == s.hub.sent)
  {
    var p, o := s.hub.inFlight.value, s.hub.mem.offset;
    var n :| Carries(job, p.cro, o, n) && Placed(s, job, n);
    var s1 := Executed(s, true);
    ExecutedWell(s, job, n);
    hide Executed, Reply, Patched;
    AnswerTaken(s1, 0);
    WriteMoves(s.hub);
    hide After, ContinueWrite, Willing;
    var q := Exchange(s);
    if o < |job.data| { NextChunk(s1, job, q); }
    hide Carries, Placed;
  }

  lemma {:induction false} WriteRest(s: System, job: WriteJob) returns (es: seq<Event>, q: System)
    requires Writing(s, job) && s.reply.None? && Willing(s.hub)
    ensures s.hub.mem.offset <= |job.data|
    ensures Reaches(s, es, q) && |es| == 2 + 2 * WriteFrames(|job.data| - s.hub.mem.offset)
    ensures q.hub.written == job.written + [true]
    ensures |q.hub.sent| == |s.hub.sent| + WriteFrames(|job.data| - s.hub.mem.offset)
    decreases |job.data| - s.hub.mem.offset
  {
    Exchanged(s);
    WriteExchange(s, job);
    FramesLess(|job.data| - s.hub.mem.offset);
    hide Writing, Exchange, Executed, Reaches, Willing, WriteFrames;
    var q1 := Exchange(s);
    if s.hub.mem.offset < |job.data| {
      var more;
      more, q := WriteRest(q1, job);
      es := [Execute(true), Deliver] + more;
      ReachesJoin(s, [Execute(true), Deliver], q1, more, q);
    } else {
      es, q := [Execute(true), Deliver], q1;
    }
  }

  /** The same for a write: it reports success, after one SET_MTA and one command for every six bytes. */
  lemma WriteReports(s: System, ext: byte, at: u32, data: Bytes) returns (es: seq<Event>, q: System)
    requires s.reply.None? && data != [] && at + |data| <= |s.memory|
    requires Willing(s.hub) && s.hub.allowWrite && s.hub.inFlight.None?
    ensures var (h, accepted) := WriteMemory(s.hub, ext, at, data); accepted && Reaches(s.(hub := h), es, q)
    ensures |es| == 2 + 2 * WriteFrames(|data|) && |q.hub.sent| == |s.hub.sent| + 1 + WriteFrames(|data|)
    ensures q.hub.written == s.hub.written + [true]
    ensures q.memory == s.memory[..at] + data + s.memory[at + |data|..]
  {
    var h := WriteMemory(s.hub, ext, at, data).0;
    var job := WriteJob(at, data, s.memory, s.hub.written);
    var s1 := s.(hub := h);
    assert Patched(s.memory, at, data, 0) == s.memory;
    assert WriteMemory(s.hub, ext, at, data).1 && Willing(s1.hub) && |h.sent| == |s.hub.sent| + 1 && h.mem.offset == 0;
    assert Carries(job, h.inFlight.value.cro, 0, 0) && Placed(s1, job, 0) && Writing(s1, job);
    hide WriteMemory, Writing, Willing, Patched, Carries, Placed, Reaches;
    es, q := WriteRest(s1, job);
    WriteIsExact(s, ext, at, data, es, q);
  }
}
