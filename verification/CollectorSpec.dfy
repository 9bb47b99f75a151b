/** One chunk name in the collector's archive: what each attempt, each pass and each crash leaves on disk.
    A pass is the list of durable states it goes through, so that a run cut anywhere is a prefix of it. */
module CollectorSpec {
  import opened Words

  type Bytes = seq<byte>

  const HEAD_WINDOW := 256
  const SEAM_WINDOW := 256
  const TORN_MAX_SIGHTINGS := 3

  /** What the chunk reader says of a file: intact, intact but for the closing line, or anything else. */
  datatype Verdict = Sound | Torn | Bad

  /** The reader's verdict, and whether sequence number and origin are those the index announced. */
  datatype Reader = Reader(judge: Bytes -> Verdict, seqOk: Bytes -> bool, originOk: Bytes -> bool)
  {
    /** A missing or empty file is never a chunk. */
    function Judge(b: Bytes): Verdict { if b == [] then Bad else judge(b) }
  }

  /** Length and hash of the last torn sighting, for which the bytes themselves stand, and the count. */
  datatype Meta = Meta(content: Bytes, seen: nat)

  /** `part` is empty when there is no partial. */
  datatype Disk = Disk(
    part: Bytes, archive: Option<Bytes>, candidate: Option<Bytes>, meta: Option<Meta>, sidecar: Option<Bytes>)

  /** Ways a request can fail: out of range, a race another run resolves, any other refusal, a busy
      answer outside the 5xx range, "not you", and the network or a 5xx. */
  datatype Fault = OutOfRange | Race | Denied | Busy | Unauthorized | Stumble

  datatype Probe = ProbeFault(fault: Fault) | Window(arrived: nat)
  datatype Reply = ReplyFault(fault: Fault) | Body(honoured: bool, arrived: nat)

  /** One attempt: the card in the device, and how far each of the two requests got. */
  datatype Attempt = Attempt(card: Bytes, probe: Probe, reply: Reply)

  // ----- identity -----

  datatype Proof = Proved | Mismatched | Unproved(fault: Option<Fault>)

  function ProveLocal(local: Bytes, size: nat, card: Bytes, probe: Probe): Proof {
    if local == [] || (size != 0 && |local| > size) then Mismatched
    else
      var want := Min(|local|, HEAD_WINDOW);
      var owed := Min(want, |card|);
      match probe
      case ProbeFault(f) => Unproved(Some(f))
      case Window(arrived) =>
        if arrived < owed then Unproved(None)
        else if owed < want || card[..owed] != local[..owed] then Mismatched
        else Proved
  }

  // ----- one attempt -----

  /** `Complete` says the partial holds every promised byte; `Stop` ends the pass for this chunk. */
  datatype End = Complete | Again | Stop(transient: bool) | Refused

  /** `b` one byte longer at a time, from length `n` on. */
  function Growing(b: Bytes, n: nat): (states: seq<Bytes>)
    requires n <= |b|
    ensures |states| == |b| - n
    ensures forall i :: 0 <= i < |states| ==> states[i] == b[..n + 1 + i]
  {
    seq(|b| - n, i requires 0 <= i < |b| - n => b[..n + 1 + i])
  }

  function FaultEnd(f: Fault): (seq<Bytes>, End) {
    match f
    case OutOfRange => ([[]], Again)
    case Race => ([], Stop(true))
    case Denied | Busy => ([], Stop(false))
    case Unauthorized => ([], Refused)
    case Stumble => ([], Again)
  }

  /** The states of the partial during one download, and how it ended. */
  function Downloaded(part: Bytes, a: Attempt): (seq<Bytes>, End) {
    match a.reply
    case ReplyFault(f) => FaultEnd(f)
    case Body(honoured, arrived) =>
      if part != [] && honoured then
        var overlap := Min(|part|, SEAM_WINDOW);
        var start := |part| - overlap;
        var body := if start <= |a.card| then a.card[start..] else [];
        var got := Min(arrived, |body|);
        if got < overlap then ([], Again)
        else if body[..overlap] != part[start..] then ([[]], Again)
        else (Growing(part + body[overlap..got], |part|), if got < |body| then Again else Complete)
      else
        var got := Min(arrived, |a.card|);
        ((if got == 0 then [] else [[]] + Growing(a.card[..got], 0)), if got < |a.card| then Again else Complete)
  }

  function Attempted(part: Bytes, size: nat, a: Attempt): (seq<Bytes>, End) {
    if part == [] then Downloaded(part, a)
    else
      match ProveLocal(part, size, a.card, a.probe)
      case Mismatched => ([[]], Again)
      case Unproved(None) => ([], Again)
      case Unproved(Some(f)) => FaultEnd(f)
      case Proved => if size != 0 && |part| == size then ([], Complete) else Downloaded(part, a)
  }

  // ----- a pass over one chunk -----

  /** `Confirming` is the licence to delete: `card` is what the device held while it was proved. */
  datatype Result = Confirming(card: Bytes) | Failed(transient: bool) | PassRefused

  function Last(d: Disk, states: seq<Disk>): Disk {
    if states == [] then d else states[|states| - 1]
  }

  function WithParts(d: Disk, parts: seq<Bytes>): (states: seq<Disk>)
    ensures |states| == |parts|
  {
    seq(|parts|, i requires 0 <= i < |parts| => d.(part := parts[i]))
  }

  /** Unlinking the torn candidate, then its note. */
  function Dropped(d: Disk): seq<Disk> {
    [d.(candidate := None), d.(candidate := None, meta := None)]
  }

  function Stored(d: Disk, torn: bool): seq<Disk> {
    if torn then
      var d1 := d.(sidecar := Some(d.part));
      var d2 := d1.(part := [], archive := Some(d.part));
      [d.(sidecar := None), d1, d2] + Dropped(d2)
    else [d.(part := [], archive := Some(d.part))]
  }

  /** This torn fetch equals the sighting on record. */
  predicate SeenBefore(d: Disk) {
    d.meta.Some? && d.meta.value.content == d.part && d.candidate.Some?
  }

  function TornSighted(d: Disk, r: Reader, card: Bytes): (seq<Disk>, Result) {
    var gone := d.(part := []);
    if !r.seqOk(d.part) || !r.originOk(d.part) then ([gone] + Dropped(gone), Failed(false))
    else if SeenBefore(d) then
      if d.archive.Some? then ([], Failed(false)) else (Stored(d, true), Confirming(card))
    else
      var seen := if d.meta.Some? then d.meta.value.seen + 1 else 1;
      if seen >= TORN_MAX_SIGHTINGS then ([gone] + Dropped(gone), Failed(false))
      else
        var kept := gone.(candidate := Some(d.part));
        ([kept, kept.(meta := None), kept.(meta := Some(Meta(d.part, seen)))], Failed(true))
  }

  function Finished(d: Disk, size: nat, r: Reader, card: Bytes): (seq<Disk>, Result) {
    match r.Judge(d.part)
    case Bad => ([d.(part := [])], Failed(false))
    case Sound => if d.archive.Some? then ([], Failed(false)) else (Stored(d, false), Confirming(card))
    case Torn =>
      if size == 0 || |d.part| != size then ([], Failed(true)) else TornSighted(d, r, card)
  }

  function Fetched(d: Disk, size: nat, r: Reader, attempts: seq<Attempt>): (seq<Disk>, Result)
    decreases |attempts|
  {
    if attempts == [] then ([], Failed(true))
    else
      var (parts, end) := Attempted(d.part, size, attempts[0]);
      var states := WithParts(d, parts);
      var d1 := Last(d, states);
      match end
      case Stop(transient) => (states, Failed(transient))
      case Refused => (states, PassRefused)
      case Complete => var (more, result) := Finished(d1, size, r, attempts[0].card); (states + more, result)
      case Again => var (more, result) := Fetched(d1, size, r, attempts[1..]); (states + more, result)
  }

  function Rechecked(local: Bytes, size: nat, attempts: seq<Attempt>): Result
    decreases |attempts|
  {
    if attempts == [] then Failed(true)
    else
      match ProveLocal(local, size, attempts[0].card, attempts[0].probe)
      case Mismatched => Failed(false)
      case Proved => Confirming(attempts[0].card)
      case Unproved(None) => Rechecked(local, size, attempts[1..])
      case Unproved(Some(f)) =>
        match f
        case Race => Failed(true)
        case OutOfRange | Denied => Failed(false)
        case Unauthorized => PassRefused
        case Busy | Stumble => Rechecked(local, size, attempts[1..])
  }

  /** The gate in front of the dedup skip. */
  function AlreadyHad(d: Disk, size: nat, r: Reader, attempts: seq<Attempt>): Result
    requires d.archive.Some?
  {
    var local := d.archive.value;
    var vouched := r.Judge(local) == Sound || (r.Judge(local) == Torn && d.sidecar == Some(local));
    if (size != 0 && |local| != size) || !vouched || !r.seqOk(local) then Failed(false)
    else Rechecked(local, size, attempts)
  }

  function Passed(d: Disk, size: nat, r: Reader, attempts: seq<Attempt>): (seq<Disk>, Result) {
    if d.archive.Some? then ([], AlreadyHad(d, size, r, attempts)) else Fetched(d, size, r, attempts)
  }
}
