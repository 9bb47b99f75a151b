/** Memory transfer against a slave whose transfer address advances by itself, with no other command in
    between: what a successful write has done to the memory and what a finished read delivers. */
module CcpMemory {
  import opened Words
  import opened CcpHub

  /** The slave, and its answer to the outstanding command once it has carried it out. */
  datatype System = System(hub: Hub, mta: nat, memory: Bytes, reply: Option<Bytes>)

  /** `Noise` is any frame that does not answer the outstanding command: late responses under another
      counter, DAQ frames of other lists, malformed frames. */
  datatype Event = Execute(obliges: bool) | Deliver | Noise(frame: Bytes) | GiveUp

  ghost predicate Enabled(s: System, e: Event) {
    match e
    case Execute(_) => s.hub.inFlight.Some? && s.reply.None?
    case Deliver => s.reply.Some?
    case Noise(frame) =>
      !s.hub.daq.collecting &&
      (var dto := DecodeDto(frame); dto.Response? && s.hub.inFlight.Some? ==> dto.ctr != s.hub.inFlight.value.ctr)
    case GiveUp => s.hub.inFlight.Some?
  }

  function Reply(code: byte, ctr: byte, data: Bytes): Bytes { [RESPONSE_MARKER, code, ctr] + data }

  /** A slave that does not oblige, or is asked beyond its memory, answers with an error. */
  function Executed(s: System, obliges: bool): System
    requires s.hub.inFlight.Some?
  {
    var p := s.hub.inFlight.value;
    var refused := s.(reply := Some(Reply(0x10, p.ctr, [])));
    if !obliges then refused
    else
      match p.cro
      case SetMta(_, address) => s.(mta := address, reply := Some(Reply(0, p.ctr, [])))
      case Upload(size) =>
        if s.mta + size > |s.memory| then refused
        else s.(mta := s.mta + size, reply := Some(Reply(0, p.ctr, s.memory[s.mta..s.mta + size])))
      case Dnload(data) =>
        if s.mta + |data| > |s.memory| then refused
        else
          s.(mta := s.mta + |data|, memory := s.memory[..s.mta] + data + s.memory[s.mta + |data|..],
             reply := Some(Reply(0, p.ctr, [])))
      case _ => s.(reply := Some(Reply(0, p.ctr, [])))
  }

  /** A response arrives once; what is still on its way when the hub gives up no longer answers anything. */
  function After(s: System, e: Event): System
    requires Enabled(s, e)
  {
    match e
    case Execute(obliges) => Executed(s, obliges)
    case Deliver => s.(hub := OnFrame(s.hub, s.reply.value, Silent), reply := None)
    case Noise(frame) => s.(hub := OnFrame(s.hub, frame, Silent))
    case GiveUp => s.(hub := Finish(s.hub, false, [], Silent), reply := None)
  }

  ghost predicate Reaches(s: System, es: seq<Event>, q: System)
    decreases |es|
  {
    if es == [] then q == s else Enabled(s, es[0]) && Reaches(After(s, es[0]), es[1..], q)
  }

  lemma ReplyDecodes(code: byte, ctr: byte, data: Bytes)
    ensures DecodeDto(Reply(code, ctr, data)) == Response(code, ctr, data)
  {
    assert Reply(code, ctr, data)[3..] == data;
  }

  // ----- write_memory -----

  /** The first `k` bytes of the data in place. */
  function Patched(memory: Bytes, at: nat, data: Bytes, k: nat): (m: Bytes)
    requires k <= |data| && at + k <= |memory|
    ensures |m| == |memory|
  {
    memory[..at] + data[..k] + memory[at + k..]
  }

  /** What a write was asked to do, and the memory and callback log it started from. */
  datatype WriteJob = WriteJob(at: u32, data: Bytes, memory: Bytes, written: seq<bool>)

  /** The size of the chunk that ends at offset `o`; the command that starts the chain carries none. */
  ghost predicate Carries(job: WriteJob, cro: Cro, o: nat, n: nat) {
    n <= o <= |job.data| &&
    match cro
    case SetMta(_, address) => o == 0 && n == 0 && address == job.at
    case Dnload(data) => n == Min(|job.data| - (o - n), 6) > 0 && data == job.data[o - n..o]
    case _ => false
  }

  ghost predicate Writing(s: System, job: WriteJob) {
    var m := s.hub.mem;
    && s.hub.inFlight.Some? && s.hub.inFlight.value.cont.WriteDone? && m.toWrite == job.data && m.writing
    && s.hub.written == job.written && s.hub.allowWrite
    && exists n :: Carries(job, s.hub.inFlight.value.cro, m.offset, n) && Placed(s, job, n)
  }

  /** How far the slave is: before or after the outstanding command, or it has refused it. */
  ghost predicate Placed(s: System, job: WriteJob, n: nat) {
    var o, p := s.hub.mem.offset, s.hub.inFlight;
    && p.Some? && n <= o <= |job.data| && job.at + |job.data| <= |job.memory|
    && match s.reply
       case None => s.memory == Patched(job.memory, job.at, job.data, o - n) && (o > 0 ==> s.mta == job.at + o - n)
       case Some(frame) =>
         (frame == Reply(0, p.value.ctr, []) && s.mta == job.at + o && s.memory == Patched(job.memory, job.at, job.data, o))
         || (frame == Reply(0x10, p.value.ctr, []) && s.memory == Patched(job.memory, job.at, job.data, o - n))
  }

  ghost predicate Prefixed(s: System, job: WriteJob) {
    exists k :: 0 <= k <= |job.data| && job.at + |job.data| <= |job.memory| && s.memory == Patched(job.memory, job.at, job.data, k)
  }

  /** Under way, or over: with every byte in place, with a failure reported, or abandoned without a word
      because the port refused a later command. */
  ghost predicate WriteInv(s: System, job: WriteJob) {
    || Writing(s, job)
    || (s.hub.inFlight.None? && s.reply.None? && job.at + |job.data| <= |job.memory| &&
        (  (s.hub.written == job.written + [true] && s.memory == Patched(job.memory, job.at, job.data, |job.data|))
        || (s.hub.written == job.written + [false] && Prefixed(s, job))
        || (s.hub.written == job.written && Prefixed(s, job))))
  }

  lemma PatchedMore(memory: Bytes, at: nat, data: Bytes, k: nat, n: nat)
    requires k + n <= |data| && at + |data| <= |memory|
    ensures var m := Patched(memory, at, data, k);
      m[..at + k] + data[k..k + n] + m[at + k + n..] == Patched(memory, at, data, k + n)
  {
    var m := Patched(memory, at, data, k);
    assert m[..at + k] == memory[..at] + data[..k];
    assert m[at + k + n..] == memory[at + k + n..];
    assert data[..k + n] == data[..k] + data[k..k + n];
  }

  lemma NoiseIgnored(h: Hub, frame: Bytes)
    requires !h.daq.collecting
    requires DecodeDto(frame).Response? && h.inFlight.Some? ==> DecodeDto(frame).ctr != h.inFlight.value.ctr
    ensures OnFrame(h, frame, Silent) == h
  {
  }

  lemma PlacedStep(s: System, job: WriteJob, n: nat, obliges: bool)
    requires s.hub.inFlight.Some? && Carries(job, s.hub.inFlight.value.cro, s.hub.mem.offset, n) && Placed(s, job, n)
    requires s.reply.None?
    ensures Placed(Executed(s, obliges), job, n)
  {
    hide Patched, Reply;
    if obliges && s.hub.inFlight.value.cro.Dnload? {
      DnloadPlaced(s, job, n);
      hide Placed, Executed;
    }
  }

  lemma DnloadPlaced(s: System, job: WriteJob, n: nat)
    requires s.hub.inFlight.Some? && Carries(job, s.hub.inFlight.value.cro, s.hub.mem.offset, n) && Placed(s, job, n)
    requires s.reply.None? && s.hub.inFlight.value.cro.Dnload?
    ensures Placed(Executed(s, true), job, n)
  {
    var o := s.hub.mem.offset;
    PatchedMore(job.memory, job.at, job.data, o - n, n);
    hide Patched, Reply;
    assert s.mta == job.at + (o - n) && s.mta + n <= |s.memory|;
  }

  lemma WriteExecutes(s: System, job: WriteJob, obliges: bool)
    requires Writing(s, job) && Enabled(s, Execute(obliges))
    ensures Writing(After(s, Execute(obliges)), job)
  {
    var q, p, o := Executed(s, obliges), s.hub.inFlight.value, s.hub.mem.offset;
    var n :| Carries(job, p.cro, o, n) && Placed(s, job, n);
    PlacedStep(s, job, n, obliges);
    assert q.hub == s.hub;
    hide Placed, Executed, Carries;
    assert Carries(job, q.hub.inFlight.value.cro, q.hub.mem.offset, n) && Placed(q, job, n);
  }

  /** The hub's side of an answer: the chain goes on, ends, or fails. */
  lemma WriteFinishes(h: Hub, ok: bool)
    requires h.inFlight.Some? && h.inFlight.value.cont.WriteDone? && h.inFlight.value.cro != Connect && h.inFlight.value.cro != Disconnect
    ensures Finish(h, ok, [], Silent) == ContinueWrite(h.(inFlight := None), ok)
  {
  }

  lemma AnswerTaken(s: System, code: byte)
    requires s.hub.inFlight.Some? && s.hub.inFlight.value.cont.WriteDone?
    requires s.hub.inFlight.value.cro != Connect && s.hub.inFlight.value.cro != Disconnect
    requires s.reply == Some(Reply(code, s.hub.inFlight.value.ctr, []))
    ensures After(s, Deliver) == s.(hub := ContinueWrite(s.hub.(inFlight := None), code == 0), reply := None)
  {
    ReplyDecodes(code, s.hub.inFlight.value.ctr, []);
    WriteFinishes(s.hub, code == 0);
    hide Finish, Reply, ContinueWrite;
  }

  lemma WriteAnswered(s: System, job: WriteJob)
    requires Writing(s, job) && s.reply.Some? && job.data != []
    ensures WriteInv(After(s, Deliver), job)
  {
    var h, p, o := s.hub, s.hub.inFlight.value, s.hub.mem.offset;
    var n :| Carries(job, p.cro, o, n) && Placed(s, job, n);
    var q := After(s, Deliver);
    hide After, Patched;
    if s.reply.value == Reply(0, p.ctr, []) && s.mta == job.at + o && s.memory == Patched(job.memory, job.at, job.data, o) {
      AnswerTaken(s, 0);
      hide Reply, Carries, Placed;
      if o < |job.data| { NextChunk(s, job, q); } else { LastChunk(s, job, q); }
    } else {
      AnswerTaken(s, 0x10);
      hide Reply, Carries;
      RefusedChunk(s, job, q, o - n);
    }
  }

  lemma LastChunk(s: System, job: WriteJob, q: System)
    requires s.hub.mem.toWrite == job.data && s.hub.mem.offset == |job.data| && s.hub.mem.writing
    requires s.hub.written == job.written && job.at + |job.data| <= |job.memory|
    requires s.memory == Patched(job.memory, job.at, job.data, |job.data|)
    requires q == s.(hub := ContinueWrite(s.hub.(inFlight := None), true), reply := None)
    ensures WriteInv(q, job)
  {
    hide Patched, Writing, Prefixed;
  }

  lemma RefusedChunk(s: System, job: WriteJob, q: System, k: nat)
    requires s.hub.mem.toWrite == job.data != [] && s.hub.mem.writing
    requires s.hub.written == job.written && job.at + |job.data| <= |job.memory| && k <= |job.data|
    requires s.memory == Patched(job.memory, job.at, job.data, k)
    requires q == s.(hub := ContinueWrite(s.hub.(inFlight := None), false), reply := None)
    ensures WriteInv(q, job)
  {
    hide Patched, Writing;
    assert Prefixed(q, job);
  }

  lemma NextChunk(s: System, job: WriteJob, q: System)
    requires s.hub.inFlight.Some? && s.hub.mem.toWrite == job.data && s.hub.mem.offset < |job.data|
    requires s.hub.mem.writing && s.hub.written == job.written && s.hub.allowWrite
    requires job.at + |job.data| <= |job.memory| && s.mta == job.at + s.hub.mem.offset
    requires s.memory == Patched(job.memory, job.at, job.data, s.hub.mem.offset)
    requires q == s.(hub := ContinueWrite(s.hub.(inFlight := None), true), reply := None)
    ensures WriteInv(q, job)
  {
    var o := s.hub.mem.offset;
    var n := Min(|job.data| - o, 6);
    hide Patched;
    if q.hub.inFlight.Some? {
      assert q.hub.inFlight.value.cro == Dnload(job.data[o..o + n]) && q.hub.mem.offset == o + n;
      assert Carries(job, q.hub.inFlight.value.cro, o + n, n) && Placed(q, job, n);
      assert Writing(q, job);
    } else {
      assert Prefixed(q, job);
    }
  }

  lemma WriteGivenUp(s: System, job: WriteJob)
    requires Writing(s, job) && job.data != []
    ensures WriteInv(After(s, GiveUp), job)
  {
    var p, o := s.hub.inFlight.value, s.hub.mem.offset;
    var n :| Carries(job, p.cro, o, n) && Placed(s, job, n);
    WriteFinishes(s.hub, false);
    hide Finish, Patched, Reply;
    assert Prefixed(s, job) by { assert 0 <= o - n; }
    var q := After(s, GiveUp);
    assert q.hub == ContinueWrite(s.hub.(inFlight := None), false);
    assert Prefixed(q, job);
  }

  lemma WriteStep(s: System, job: WriteJob, e: Event)
    requires WriteInv(s, job) && Enabled(s, e) && job.data != []
    ensures WriteInv(After(s, e), job)
  {
    hide OnFrame, Finish, Writing, Prefixed, Patched;
    match e
    case Noise(frame) => NoiseIgnored(s.hub, frame);
    case Execute(obliges) => WriteExecutes(s, job, obliges);
    case Deliver => if Writing(s, job) { WriteAnswered(s, job); }
    case GiveUp => WriteGivenUp(s, job);
  }

  lemma {:induction false} WriteRun(s: System, job: WriteJob, es: seq<Event>, q: System)
    requires WriteInv(s, job) && job.data != [] && Reaches(s, es, q)
    ensures WriteInv(q, job)
    decreases |es|
  {
    if es != [] {
      hide WriteInv, After;
      WriteStep(s, job, es[0]);
      WriteRun(After(s, es[0]), job, es[1..], q);
    }
  }

  /** However the slave answers and whatever late frames arrive: once the callback reports success the
      slave's memory is the old one with exactly the data written over [address, address + length). */
  lemma WriteIsExact(s: System, ext: byte, at: u32, data: Bytes, es: seq<Event>, q: System)
    requires s.reply.None? && at + |data| <= |s.memory|
    requires var (h, accepted) := WriteMemory(s.hub, ext, at, data); accepted && Reaches(s.(hub := h), es, q)
    ensures q.hub.written <= s.hub.written + [true] || q.hub.written == s.hub.written + [false]
    ensures q.hub.written == s.hub.written + [true] ==> q.memory == s.memory[..at] + data + s.memory[at + |data|..]
    ensures |q.memory| == |s.memory| && q.memory[..at] == s.memory[..at] && q.memory[at + |data|..] == s.memory[at + |data|..]
  {
    var h := WriteMemory(s.hub, ext, at, data).0;
    var job := WriteJob(at, data, s.memory, s.hub.written);
    var s1 := s.(hub := h);
    assert Patched(s.memory, at, data, 0) == s.memory;
    assert Carries(job, h.inFlight.value.cro, 0, 0) && Placed(s1, job, 0) && Writing(s1, job);
    WriteRun(s1, job, es, q);
    assert Patched(s.memory, at, data, |data|) == s.memory[..at] + data + s.memory[at + |data|..];
    InsideOnly(q, job);
    if q.hub.written == s.hub.written + [true] { SuccessMeansAll(q, job); }
    hide Reaches, Writing, WriteMemory, Patched, Prefixed, Carries, Placed;
  }

  lemma SuccessMeansAll(q: System, job: WriteJob)
    requires WriteInv(q, job) && q.hub.written == job.written + [true]
    ensures job.at + |job.data| <= |job.memory| && q.memory == Patched(job.memory, job.at, job.data, |job.data|)
  {
    hide Prefixed, Patched, Carries, Placed;
    assert (job.written + [true])[|job.written|] != (job.written + [false])[|job.written|];
    assert |job.written + [true]| == |job.written| + 1;
  }

  lemma InsideOnly(q: System, job: WriteJob)
    requires WriteInv(q, job)
    ensures |q.memory| == |job.memory| && job.at + |job.data| <= |job.memory|
    ensures q.memory[..job.at] == job.memory[..job.at]
    ensures q.memory[job.at + |job.data|..] == job.memory[job.at + |job.data|..]
    ensures Writing(q, job) ==> q.hub.written == job.written
  {
    hide Patched, Reply, Carries;
    if Writing(q, job) {
      var n :| Carries(job, q.hub.inFlight.value.cro, q.hub.mem.offset, n) && Placed(q, job, n);
      PatchedOutside(job.memory, job.at, job.data, q.hub.mem.offset);
      PatchedOutside(job.memory, job.at, job.data, q.hub.mem.offset - n);
    } else {
      PatchedOutside(job.memory, job.at, job.data, |job.data|);
      if Prefixed(q, job) {
        var k :| 0 <= k <= |job.data| && q.memory == Patched(job.memory, job.at, job.data, k);
        PatchedOutside(job.memory, job.at, job.data, k);
      }
    }
  }

  lemma PatchedOutside(memory: Bytes, at: nat, data: Bytes, k: nat)
    requires k <= |data| && at + |data| <= |memory|
    ensures Patched(memory, at, data, k)[..at] == memory[..at]
    ensures Patched(memory, at, data, k)[at + |data|..] == memory[at + |data|..]
  {
  }

  // ----- read_memory -----

  datatype ReadJob = ReadJob(at: u32, len: nat, memory: Bytes, delivered: seq<Bytes>)

  /** `k` bytes have arrived; the outstanding command asks for the next `n`, none at the start. */
  ghost predicate Reading(s: System, job: ReadJob) {
    var m := s.hub.mem;
    && s.hub.inFlight.Some? && m.reading && s.memory == job.memory && s.hub.delivered == job.delivered
    && job.at + job.len <= |job.memory| && 0 < m.remaining <= job.len && Fetching(s, job)
  }

  ghost predicate Fetching(s: System, job: ReadJob)
    requires s.hub.inFlight.Some? && s.hub.mem.remaining <= job.len && job.at + job.len <= |s.memory|
  {
    var m, p := s.hub.mem, s.hub.inFlight.value;
    var k := job.len - m.remaining;
    var n := if p.cro.Upload? then ReadChunk(m.remaining) else 0;
    && m.got == s.memory[job.at..job.at + k]
    && ((p.cont.ReadMtaDone? && p.cro.SetMta? && p.cro.address == job.at && k == 0) || (p.cont.ReadDone? && p.cro == Upload(n)))
    && match s.reply
       case None => p.cro.Upload? ==> s.mta == job.at + k
       case Some(frame) =>
         (s.mta == job.at + k + n && frame == Reply(0, p.ctr, s.memory[job.at + k..job.at + k + n]))
         || frame == Reply(0x10, p.ctr, [])
  }

  /** Under way, or over: delivered, failed, or abandoned because the port refused a later command. */
  ghost predicate ReadInv(s: System, job: ReadJob) {
    || Reading(s, job)
    || (s.hub.inFlight.None? && s.reply.None? && s.memory == job.memory && job.at + job.len <= |job.memory| &&
        (  s.hub.delivered == job.delivered + [job.memory[job.at..job.at + job.len]]
        || s.hub.delivered == job.delivered))
  }

  lemma ReadExecutes(s: System, job: ReadJob, obliges: bool)
    requires Reading(s, job) && s.reply.None?
    ensures Reading(Executed(s, obliges), job)
  {
    hide Reply;
    assert s.memory[job.at..job.at] == [];
  }

  lemma ReadFinishes(h: Hub, ok: bool, data: Bytes)
    requires h.inFlight.Some? && (h.inFlight.value.cont.ReadDone? || h.inFlight.value.cont.ReadMtaDone?)
    requires h.inFlight.value.cro.Upload? || h.inFlight.value.cro.SetMta?
    ensures Finish(h, ok, data, Silent) == Continue(h.(inFlight := None), h.inFlight.value.cont, ok, data)
  {
  }

  lemma ReadTaken(s: System, code: byte, data: Bytes)
    requires s.hub.inFlight.Some? && (s.hub.inFlight.value.cont.ReadDone? || s.hub.inFlight.value.cont.ReadMtaDone?)
    requires s.hub.inFlight.value.cro.Upload? || s.hub.inFlight.value.cro.SetMta?
    requires s.reply == Some(Reply(code, s.hub.inFlight.value.ctr, data))
    ensures After(s, Deliver) ==
      s.(hub := Continue(s.hub.(inFlight := None), s.hub.inFlight.value.cont, code == 0, data), reply := None)
  {
    ReplyDecodes(code, s.hub.inFlight.value.ctr, data);
    ReadFinishes(s.hub, code == 0, data);
    hide Finish, Reply, Continue;
  }

  lemma ReadAnswered(s: System, job: ReadJob)
    requires Reading(s, job) && s.reply.Some?
    ensures ReadInv(After(s, Deliver), job)
  {
    var p, m, q := s.hub.inFlight.value, s.hub.mem, After(s, Deliver);
    var k := job.len - m.remaining;
    var n := if p.cro.Upload? then ReadChunk(m.remaining) else 0;
    var data := s.memory[job.at + k..job.at + k + n];
    hide After, Reply;
    if s.reply.value == Reply(0x10, p.ctr, []) {
      ReadTaken(s, 0x10, []);
    } else {
      ReadTaken(s, 0, data);
      hide Continue;
      NextRead(s, job, q, k, data);
    }
  }

  /** A good answer: its bytes are appended, and the next chunk is asked for or the data delivered. */
  lemma NextRead(s: System, job: ReadJob, q: System, k: nat, data: Bytes)
    requires Reading(s, job) && k == job.len - s.hub.mem.remaining && job.at + k + |data| <= |s.memory|
    requires data == s.memory[job.at + k..job.at + k + |data|] && s.mta == job.at + k + |data|
    requires |data| == if s.hub.inFlight.value.cro.Upload? then ReadChunk(s.hub.mem.remaining) else 0
    requires q == s.(hub := Continue(s.hub.(inFlight := None), s.hub.inFlight.value.cont, true, data), reply := None)
    ensures ReadInv(q, job)
  {
    hide Reply;
    if s.hub.inFlight.value.cont.ReadMtaDone? {
      assert data == [];
    } else {
      assert s.hub.mem.got == s.memory[job.at..job.at + k] && |data| == ReadChunk(s.hub.mem.remaining);
      hide Fetching, ReadInv;
      ChunkRead(s, job, q, k, data);
    }
  }

  lemma ChunkRead(s: System, job: ReadJob, q: System, k: nat, data: Bytes)
    requires s.hub.mem.reading && s.memory == job.memory && s.hub.delivered == job.delivered
    requires 0 < s.hub.mem.remaining <= job.len && k == job.len - s.hub.mem.remaining && job.at + job.len <= |s.memory|
    requires |data| == ReadChunk(s.hub.mem.remaining) && data == s.memory[job.at + k..job.at + k + |data|]
    requires s.mta == job.at + k + |data| && s.hub.mem.got == s.memory[job.at..job.at + k]
    requires q == s.(hub := ContinueRead(s.hub.(inFlight := None), true, data), reply := None)
    ensures ReadInv(q, job)
  {
    hide Reply;
    var m := s.hub.mem;
    assert m.got + data == s.memory[job.at..job.at + k + |data|];
    assert data[..|data|] == data;
    if m.remaining > |data| {
      assert q.hub.mem.remaining == m.remaining - |data| && q.hub.mem.got == m.got + data;
    }
  }

  lemma ReadGivenUp(s: System, job: ReadJob)
    requires Reading(s, job)
    ensures ReadInv(After(s, GiveUp), job)
  {
    ReadFinishes(s.hub, false, []);
    hide Finish, Reply;
  }

  lemma ReadStep(s: System, job: ReadJob, e: Event)
    requires ReadInv(s, job) && Enabled(s, e)
    ensures ReadInv(After(s, e), job)
  {
    hide OnFrame, Finish, Reading, Executed;
    match e
    case Noise(frame) => NoiseIgnored(s.hub, frame);
    case Execute(obliges) => ReadExecutes(s, job, obliges);
    case Deliver => ReadAnswered(s, job);
    case GiveUp => ReadGivenUp(s, job);
  }

  lemma {:induction false} ReadRun(s: System, job: ReadJob, es: seq<Event>, q: System)
    requires ReadInv(s, job) && Reaches(s, es, q)
    ensures ReadInv(q, job)
    decreases |es|
  {
    if es != [] {
      hide ReadInv, After;
      ReadStep(s, job, es[0]);
      ReadRun(After(s, es[0]), job, es[1..], q);
    }
  }

  /** A read delivers at most once, and then exactly the memory over [address, address + length); the
      memory is never changed. */
  lemma ReadIsExact(s: System, ext: byte, at: u32, len: nat, es: seq<Event>, q: System)
    requires s.reply.None? && at + len <= |s.memory|
    requires var (h, accepted) := ReadMemory(s.hub, ext, at, len); accepted && Reaches(s.(hub := h), es, q)
    ensures q.memory == s.memory
    ensures q.hub.delivered == s.hub.delivered || q.hub.delivered == s.hub.delivered + [s.memory[at..at + len]]
  {
    var h := ReadMemory(s.hub, ext, at, len).0;
    var job := ReadJob(at, len, s.memory, s.hub.delivered);
    assert s.memory[at..at] == [];
    assert Reading(s.(hub := h), job);
    ReadRun(s.(hub := h), job, es, q);
    hide Reaches, Fetching, ReadMemory;
  }
}
