/** What a LIN node makes of any wire: which responses end on it, which of them are accepted as frames, and when
    what it drove itself is found to have come back otherwise. */
module LinReception {
  import opened LinFrames
  import opened LinResponses
  import opened LinNode

  /** What the driver reports, in order: bytes, the inter-byte timeout, breaks and framing errors. */
  datatype Wire = Byte(b: bv8) | Timeout | Break | FrameError

  function After(n: Node, e: Wire): Node {
    match e
    case Byte(b) => Receive(n, b).0
    case Timeout => OnTimeout(n)
    case Break => OnBreak(n)
    case FrameError => OnFrameError(n)
  }

  function AfterAll(n: Node, es: seq<Wire>): Node
    decreases |es|
  {
    if es == [] then n else AfterAll(After(n, es[0]), es[1..])
  }

  // ----- the slots on the wire -----

  /** Where the wire is: between frames, behind a break, behind its sync byte, or in a response. */
  datatype Stage = Outside | Broken | Synced | Responding(pid: bv8, bytes: seq<bv8>)

  /** A response, with its checksum byte, that has come to its end. */
  datatype Response = Response(pid: bv8, bytes: seq<bv8>)

  /** The byte completes a response of known length. */
  predicate Fills(hint: bv8 -> nat, s: Stage)
    requires s.Responding?
  {
    |s.bytes| <= 8 && hint(IdOf(s.pid)) > 0 && |s.bytes| >= hint(IdOf(s.pid))
  }

  function Next(hint: bv8 -> nat, s: Stage, e: Wire): Stage {
    match e
    case Break => Broken
    case FrameError => if s.Broken? then Broken else Outside
    case Timeout => if s.Responding? then Outside else s
    case Byte(b) =>
      match s
      case Outside => if b == 0 then Broken else Outside
      case Broken => if b == 0x55 then Synced else if b == 0 then Broken else Outside
      case Synced => if PidOf(IdOf(b)) == b then Responding(b, []) else Outside
      case Responding(pid, bytes) => if |bytes| > 8 || Fills(hint, s) then Outside else Responding(pid, bytes + [b])
  }

  /** The response that the event ends: one of known length with its last byte, any other with whatever follows
      its ninth byte or with the silence or break behind it. A framing error drops it. */
  function Ends(hint: bv8 -> nat, s: Stage, e: Wire): seq<Response> {
    if !s.Responding? || e.FrameError? || (e.Byte? && |s.bytes| <= 8 && !Fills(hint, s)) then []
    else
      var bytes := if e.Byte? && |s.bytes| <= 8 then s.bytes + [e.b] else s.bytes;
      if |bytes| < 2 then [] else [Response(s.pid, bytes)]
  }

  function Responses(hint: bv8 -> nat, s: Stage, es: seq<Wire>): seq<Response>
    decreases |es|
  {
    if es == [] then [] else Ends(hint, s, es[0]) + Responses(hint, Next(hint, s, es[0]), es[1..])
  }

  /** An enhanced checksum covers the identifier as it is on the wire, but for the two of diagnosis. */
  function Covered(pid: bv8, enhanced: bool): nat {
    if enhanced && IdOf(pid) != 0x3C && IdOf(pid) != 0x3D then Val(pid) else 0
  }

  /** The sum over the identifier, if the type covers it, the payload and the checksum byte folds to 0xFF, and
      the checksum byte is not 0xFF over a sum that already does: zero has two forms, and the node takes
      the one that the publisher computes. */
  predicate Closes(r: Response, enhanced: bool)
    requires r.bytes != []
  {
    var k := |r.bytes| - 1;
    var sum, cs := Covered(r.pid, enhanced) + Sum(r.bytes[..k]), Val(r.bytes[k]);
    Fold(sum + cs) == 0xFF && (cs == 0xFF ==> sum == 0)
  }

  predicate Intact(r: Response)
    requires r.bytes != []
  {
    Closes(r, true) || Closes(r, false)
  }

  function FrameOf(r: Response): Frame
    requires r.bytes != []
  {
    Frame(IdOf(r.pid), r.bytes[..|r.bytes| - 1])
  }

  function FramesOf(rs: seq<Response>): seq<Frame>
    decreases |rs|
  {
    if rs == [] then []
    else (if rs[0].bytes != [] && Intact(rs[0]) then [FrameOf(rs[0])] else []) + FramesOf(rs[1..])
  }

  function Spoilt(rs: seq<Response>): nat
    decreases |rs|
  {
    if rs == [] then 0 else (if rs[0].bytes != [] && Intact(rs[0]) then 0 else 1) + Spoilt(rs[1..])
  }

  // ----- the node against it -----

  /** The node's decoder is where the wire is. */
  ghost predicate Follows(n: Node, s: Stage) {
    match s
    case Outside => n.state == AwaitBreak
    case Broken => n.state == AwaitSync
    case Synced => n.state == AwaitId
    case Responding(pid, bytes) =>
      n.state == InData && n.pid == pid && n.data == bytes && |bytes| <= MAX_DATA_SIZE + 1 && PidOf(IdOf(pid)) == pid
  }

  /** A checksum is right exactly when it closes the sum. */
  lemma RightIffCloses(r: Response, enhanced: bool)
    requires r.bytes != [] && PidOf(IdOf(r.pid)) == r.pid
    ensures var k := |r.bytes| - 1;
      r.bytes[k] == Checksum(r.pid, r.bytes[..k], enhanced) <==> Closes(r, enhanced)
  {
    hide PidOf, Fold, Sum, Val, Inverted;
    var k := |r.bytes| - 1;
    InvertedCloses(r.bytes[k], Start(IdOf(r.pid), enhanced) + Sum(r.bytes[..k]));
    assert Covered(r.pid, enhanced) == Start(IdOf(r.pid), enhanced);
    assert IdOf(IdOf(r.pid)) == IdOf(r.pid);
    hide Start, Covered;
  }

  lemma InvertedCloses(cs: bv8, s: nat)
    ensures cs == Inverted(Fold(s)) <==> Fold(s + Val(cs)) == 0xFF && (Val(cs) == 0xFF ==> s == 0)
  {
    FoldClosesIff(s, Val(cs));
    ByteIs(cs, Inverted(Fold(s)));
    hide Fold, Val, Inverted;
  }

  lemma ByteIs(a: bv8, b: bv8)
    ensures a == b <==> Val(a) == Val(b)
  {
  }

  lemma FoldClosesIff(s: nat, v: nat)
    requires v <= 0xFF
    ensures v == 0xFF - Fold(s) <==> Fold(s + v) == 0xFF && (v == 0xFF ==> s == 0)
  {
    assert Fold(0) == 0;
    hide Fold;
    FoldCloses(s);
    FoldResidue(s);
    if Fold(s + v) == 0xFF && (v == 0xFF ==> s == 0) {
      FoldResidue(s + v);
      NoResidue(s + v);
      SumsTo(s, v, Fold(s));
    }
  }

  lemma NoResidue(n: nat)
    requires Fold(n) == 0xFF && Fold(n) % 0xFF == n % 0xFF
    ensures n % 0xFF == 0 && n > 0
  {
  }

  lemma SumsTo(s: nat, v: nat, f: nat)
    requires f <= 0xFF && v <= 0xFF && f % 0xFF == s % 0xFF && (s + v) % 0xFF == 0 && s + v > 0
    requires (s > 0 ==> f > 0) && (s == 0 ==> f == 0) && (v == 0xFF ==> s == 0)
    ensures f + v == 0xFF
  {
    var q, p := s / 0xFF, f / 0xFF;
    assert s + v == 0xFF * q + (s % 0xFF + v) && f + v == 0xFF * p + (f % 0xFF + v);
    MultiplesDrop(q, s % 0xFF + v);
    MultiplesDrop(p, f % 0xFF + v);
    assert (f + v) % 0xFF == 0;
  }

  /** The type an identifier is first checked with: the one declared for it, else the one this node publishes it
      with, else the enhanced one. */
  ghost predicate FirstType(n: Node, id: bv8, enhanced: bool) {
    match n.declared(id)
    case Some(e) => enhanced == e
    case None =>
      if exists k :: Publishes(n.slots, id, k) then exists k :: Publishes(n.slots, id, k) && n.slots[k].enhanced == enhanced
      else enhanced
  }

  /** Slot `k` is the first that holds a response to the identifier. */
  ghost predicate Publishes(slots: seq<Slot>, id: bv8, k: int) {
    0 <= k < |slots| && slots[k].id == id && slots[k].bytes != [] && forall j :: 0 <= j < k ==> slots[j].id != id || slots[j].bytes == []
  }

  lemma LookupPublishes(slots: seq<Slot>, id: bv8)
    ensures Lookup(slots, id).Some? ==> exists k :: Publishes(slots, id, k) && slots[k] == Lookup(slots, id).value
    ensures Lookup(slots, id).None? ==> forall k :: !Publishes(slots, id, k)
  {
    var k := Find(slots, id, 0);
    if k < |slots| { assert Publishes(slots, id, k); }
    hide Find;
  }

  lemma PreferredIsFirst(n: Node, id: bv8)
    ensures forall e :: FirstType(n, id, e) <==> e == Preferred(n, id)
  {
    LookupPublishes(n.slots, id);
    hide Lookup;
    forall i, j | Publishes(n.slots, id, i) && Publishes(n.slots, id, j) ensures i == j { }
  }

  /** The verdict on a response. */
  lemma ResponseJudged(n: Node, r: Response, e: bool)
    requires 2 <= |r.bytes| <= 16 && FirstType(n, IdOf(r.pid), e) && PidOf(IdOf(r.pid)) == r.pid
    ensures OnData(n, r.pid, r.bytes) ==
      if Intact(r) then n.(frames := n.frames + [FrameOf(r)], fallbacks := n.fallbacks + if Closes(r, e) then 0 else 1)
      else n.(checksumErrors := n.checksumErrors + 1)
  {
    hide Closes, Checksum, Preferred, FirstType, IdOf;
    PreferredIsFirst(n, IdOf(r.pid));
    RightIffCloses(r, true);
    RightIffCloses(r, false);
  }

  lemma OneFrame(r: Response)
    requires r.bytes != []
    ensures FramesOf([r]) == (if Intact(r) then [FrameOf(r)] else []) && Spoilt([r]) == (if Intact(r) then 0 else 1)
    ensures FramesOf([]) == [] && Spoilt([]) == 0
  {
    hide Closes;
  }

  /** No response has ended, or this one, and the node's verdict on it is in. */
  ghost predicate Decided(n: Node, v: Node, rs: seq<Response>) {
    && v.hint == n.hint && v.slots == n.slots && v.declared == n.declared
    && if rs == [] then v.frames == n.frames && v.checksumErrors == n.checksumErrors && v.fallbacks == n.fallbacks
       else
         && |rs| == 1 && 2 <= |rs[0].bytes| <= 16
         && var q := OnData(n, rs[0].pid, rs[0].bytes);
            v.frames == q.frames && v.checksumErrors == q.checksumErrors && v.fallbacks == q.fallbacks
  }

  /** Breaks, framing errors and identifiers with wrong parity are counted. */
  ghost predicate Counted(n: Node, v: Node, s: Stage, e: Wire) {
    && v.breaks == n.breaks + (if e.Break? then 1 else 0)
    && v.frameErrors == n.frameErrors + (if e.FrameError? then 1 else 0)
    && v.pidErrors == n.pidErrors + (if e.Byte? && s.Synced? && PidOf(IdOf(e.b)) != e.b then 1 else 0)
  }

  /** The decoder goes where the wire goes, and takes what ends for what it is. */
  lemma EndsAsHeard(n: Node, e: Wire, s: Stage)
    requires Follows(n, s)
    ensures var v := After(n, e);
      Follows(v, Next(n.hint, s, e)) && Decided(n, v, Ends(n.hint, s, e)) && Counted(n, v, s, e)
  {
    hide OnData, PidOf, IdOf;
    match e
    case Byte(b) =>
      hide Receive, Follows;
      if s.Responding? { ResponseByte(n, b, s); } else if s.Synced? { IdByte(n, b, s); } else { OtherByte(n, b, s); }
    case Timeout =>
    case Break =>
      if s.Responding? {
        SameVerdict(n, n.(echo := if n.echo != [] && n.echo[0] == EchoBreak then n.echo[1..] else n.echo), s.pid, s.bytes);
      }
    case FrameError =>
  }

  /** The verdict depends on nothing of the echoes or the decoder. */
  lemma SameVerdict(n: Node, m: Node, pid: bv8, bytes: seq<bv8>)
    requires m == n.(echo := m.echo, collisions := m.collisions, data := m.data)
    ensures var p, q := OnData(n, pid, bytes), OnData(m, pid, bytes);
      q == m.(frames := p.frames, fallbacks := p.fallbacks, checksumErrors := p.checksumErrors)
  {
    hide Checksum, Lookup, IdOf;
  }

  lemma ResponseByte(n: Node, b: bv8, s: Stage)
    requires Follows(n, s) && s.Responding?
    ensures var e, v := Byte(b), Receive(n, b).0;
      Follows(v, Next(n.hint, s, e)) && Decided(n, v, Ends(n.hint, s, e)) && Counted(n, v, s, e)
  {
    hide PidOf, IdOf, OnData, CompareEcho;
    var n1 := CompareEcho(n, b);
    SameVerdict(n, n1, s.pid, s.bytes);
    SameVerdict(n, n1.(data := s.bytes + [b]), s.pid, s.bytes + [b]);
  }

  lemma IdByte(n: Node, b: bv8, s: Stage)
    requires Follows(n, s) && s.Synced?
    ensures var e, v := Byte(b), Receive(n, b).0;
      Follows(v, Next(n.hint, s, e)) && Decided(n, v, Ends(n.hint, s, e)) && Counted(n, v, s, e)
  {
    hide PidOf, IdOf, CompareEcho, PushBytes, Lookup, BeginTx;
    BeginsOnly(CompareEcho(n, b).(pid := b));
  }

  lemma BeginsOnly(n: Node)
    ensures BeginTx(n) == n.(echo := [], collisions := BeginTx(n).collisions)
  {
  }

  lemma OtherByte(n: Node, b: bv8, s: Stage)
    requires Follows(n, s) && !s.Responding? && !s.Synced?
    ensures var e, v := Byte(b), Receive(n, b).0;
      Follows(v, Next(n.hint, s, e)) && Decided(n, v, Ends(n.hint, s, e)) && Counted(n, v, s, e)
  {
    hide PidOf, IdOf, CompareEcho;
  }

  /** One event: a response that ends on it is accepted exactly when it is intact, under the type that closes it. */
  lemma HeardIffIntact(n: Node, e: Wire, s: Stage)
    requires Follows(n, s)
    ensures var v, rs := After(n, e), Ends(n.hint, s, e);
      && Follows(v, Next(n.hint, s, e)) && Counted(n, v, s, e)
      && v.frames == n.frames + FramesOf(rs) && v.checksumErrors == n.checksumErrors + Spoilt(rs)
      && v.hint == n.hint && v.slots == n.slots && v.declared == n.declared
      && v.fallbacks == n.fallbacks +
           if rs != [] && rs[0].bytes != [] && Intact(rs[0]) && (exists t :: FirstType(n, IdOf(rs[0].pid), t) && !Closes(rs[0], t)) then 1 else 0
  {
    var rs := Ends(n.hint, s, e);
    EndsAsHeard(n, e, s);
    hide After, Ends, Follows, Next, Counted;
    if rs != [] {
      var r := rs[0];
      var t := Preferred(n, IdOf(r.pid));
      PreferredIsFirst(n, IdOf(r.pid));
      hide Preferred, OnData, FirstType, Closes, Intact;
      ResponseJudged(n, r, t);
      OneFrame(r);
      assert rs == [r];
    }
  }

  /** Over any wire, from any point of it on: the frames accepted are those of the intact responses that ended, in
      their order, and every other response that ended is one checksum error. */
  lemma {:induction false} AcceptedIffIntact(n: Node, s: Stage, es: seq<Wire>)
    requires Follows(n, s)
    ensures var v, rs := AfterAll(n, es), Responses(n.hint, s, es);
      v.frames == n.frames + FramesOf(rs) && v.checksumErrors == n.checksumErrors + Spoilt(rs)
    decreases |es|
  {
    if es != [] {
      var v, rs, next := After(n, es[0]), Ends(n.hint, s, es[0]), Next(n.hint, s, es[0]);
      EndsOnce(n.hint, s, es[0]);
      hide After, Ends, Next, Follows, Intact, FirstType, FramesOf, Spoilt, Counted, Closes;
      HeardIffIntact(n, es[0], s);
      var later := Responses(n.hint, next, es[1..]);
      AcceptedIffIntact(v, next, es[1..]);
      Joined(rs, later);
      Regroup(n.frames, FramesOf(rs), FramesOf(later));
    }
  }

  lemma EndsOnce(hint: bv8 -> nat, s: Stage, e: Wire)
    ensures |Ends(hint, s, e)| <= 1
  {
  }

  lemma Regroup(a: seq<Frame>, b: seq<Frame>, c: seq<Frame>)
    ensures a + b + c == a + (b + c)
  {
  }

  lemma Joined(a: seq<Response>, b: seq<Response>)
    requires |a| <= 1
    ensures FramesOf(a + b) == FramesOf(a) + FramesOf(b) && Spoilt(a + b) == Spoilt(a) + Spoilt(b)
  {
    hide Intact;
    if a == [] {
      assert a + b == b;
    } else {
      assert (a + b)[1..] == b && a[1..] == [];
    }
  }

  /** Where the checksum byte alone decides: all of a payload of 0xFF and the byte 0xFF close the sum, and yet the
      node takes zero in its other form only. */
  lemma ClosedButRejected(id: bv8)
    requires id <= 0x3F && !IsDiagnostic(id)
    ensures var r := Response(PidOf(id), [0xFF, 0xFF]);
      Fold(Sum(r.bytes[..1]) + Val(r.bytes[1])) == 0xFF && !Intact(r)
  {
    var r := Response(PidOf(id), [0xFF, 0xFF]);
    IdOfPid(id);
    PidIsNotZero(id);
    assert r.bytes[..1] == [0xFF] && r.bytes[..1][..0] == [];
    assert Sum(r.bytes[..1]) == 0xFF;
    assert Fold(0x1FE) == 0xFF;
    hide PidOf, IdOf;
  }

  lemma PidIsNotZero(id: bv8)
    requires id <= 0x3F
    ensures PidOf(id) != 0
  {
  }

  // ----- what was driven and what came back -----

  /** The byte on the wire is not what was driven. A zero before a sync byte is the break still being heard. */
  predicate Unlike(e: Echo, b: bv8) {
    match e
    case EchoBreak => b != 0
    case EchoByte(driven) => b != driven && !StillBreak(e, b)
  }

  predicate StillBreak(e: Echo, b: bv8) { e == EchoByte(0x55) && b == 0 }

  /** A byte that does not answer a header: one expectation is met or one collision counted. */
  lemma ByteCompared(n: Node, b: bv8)
    requires n.state != AwaitId
    ensures var v := Receive(n, b).0;
      && v.collisions == n.collisions + (if n.echo != [] && Unlike(n.echo[0], b) then 1 else 0)
      && v.echo == if n.echo == [] || StillBreak(n.echo[0], b) then n.echo else n.echo[1..]
  {
    hide OnData;
  }

  function Driven(bytes: seq<bv8>): (es: seq<Echo>)
    ensures |es| == |bytes| && forall i :: 0 <= i < |es| ==> es[i] == EchoByte(bytes[i])
  {
    seq(|bytes|, i requires 0 <= i < |bytes| => EchoByte(bytes[i]))
  }

  function Heard(bytes: seq<bv8>): (es: seq<Wire>)
    ensures |es| == |bytes| && forall i :: 0 <= i < |es| ==> es[i] == Byte(bytes[i])
  {
    seq(|bytes|, i requires 0 <= i < |bytes| => Byte(bytes[i]))
  }

  /** Places at which the two differ. */
  function Differences(driven: seq<bv8>, heard: seq<bv8>): nat
    requires |heard| <= |driven|
    decreases |heard|
  {
    if heard == [] then 0 else (if driven[0] != heard[0] then 1 else 0) + Differences(driven[1..], heard[1..])
  }

  /** A node in a response of its own: every byte that comes back otherwise is one collision, and the bytes that do
      not come back at all are one more, counted at the silence behind them. */
  lemma {:induction false} EveryDifferenceIsCounted(n: Node, driven: seq<bv8>, heard: seq<bv8>)
    requires n.state == InData && n.echo == Driven(driven) && |heard| <= |driven|
    requires |n.data| + |heard| <= 9 && (n.hint(IdOf(n.pid)) == 0 || |n.data| + |heard| <= n.hint(IdOf(n.pid)) + 1)
    requires forall i :: 0 <= i < |heard| ==> !(driven[i] == 0x55 && heard[i] == 0)
    ensures var v := AfterAll(n, Heard(heard));
      && v.collisions == n.collisions + Differences(driven, heard) && v.echo == Driven(driven[|heard|..])
      && OnTimeout(v).collisions == v.collisions + (if |heard| < |driven| then 1 else 0) && OnTimeout(v).echo == []
    decreases |heard|
  {
    if heard == [] {
      assert driven[0..] == driven;
      SilenceCounted(n);
    } else {
      var v := Receive(n, heard[0]).0;
      ByteCompared(n, heard[0]);
      FirstHeard(n, heard);
      if |heard| > 1 { StillInResponse(n, heard[0]); }
      hide Receive, AfterAll, OnTimeout, Heard, IdOf;
      assert v.echo == Driven(driven[1..]);
      assert driven[1..][|heard| - 1..] == driven[|heard|..];
      if |heard| > 1 {
        forall i | 0 <= i < |heard[1..]| ensures !(driven[1..][i] == 0x55 && heard[1..][i] == 0) { assert heard[1..][i] == heard[i + 1]; }
        hide Driven;
        EveryDifferenceIsCounted(v, driven[1..], heard[1..]);
      } else {
        assert heard[1..] == [] && Differences(driven[1..], heard[1..]) == 0;
        SilenceCounted(v);
      }
    }
  }

  lemma FirstHeard(n: Node, heard: seq<bv8>)
    requires heard != []
    ensures AfterAll(n, Heard(heard)) == AfterAll(Receive(n, heard[0]).0, Heard(heard[1..]))
    ensures |heard| == 1 ==> AfterAll(n, Heard(heard)) == Receive(n, heard[0]).0
  {
    assert Heard(heard)[1..] == Heard(heard[1..]);
    hide Receive;
  }

  lemma StillInResponse(n: Node, b: bv8)
    requires n.state == InData && |n.data| < 8 && (n.hint(IdOf(n.pid)) == 0 || |n.data| < n.hint(IdOf(n.pid)))
    ensures var v := Receive(n, b).0; v.state == InData && v.pid == n.pid && v.hint == n.hint && |v.data| == |n.data| + 1
  {
    hide IdOf, CompareEcho;
  }

  lemma SilenceCounted(n: Node)
    ensures OnTimeout(n).collisions == n.collisions + (if n.echo != [] then 1 else 0) && OnTimeout(n).echo == []
  {
    hide OnData;
  }

  // ----- what is answered -----

  /** A header that is heard whole: any node but a listener answers it at once with the first response that it
      publishes under the identifier, and expects to hear that back; nothing else is ever driven. */
  lemma AnsweredIffPublished(n: Node, id: bv8)
    requires n.state == AwaitId && id <= 0x3F && forall k :: 0 <= k < |n.slots| ==> |n.slots[k].bytes| <= ECHO_FIFO_SIZE
    ensures var (v, driven) := Receive(n, PidOf(id));
      if n.mode != Listener && exists k :: Publishes(n.slots, id, k) then
        && (exists k :: Publishes(n.slots, id, k) && driven == n.slots[k].bytes)
        && v.echo == Driven(driven) && v.answered == n.answered + [Frame(id, driven[..|driven| - 1])]
      else driven == [] && v.answered == n.answered
  {
    IdOfPid(id);
    LookupPublishes(n.slots, id);
    var n1 := CompareEcho(n, PidOf(id)).(pid := PidOf(id));
    assert Receive(n, PidOf(id)) == (OnId(n1, id).0.(data := [], state := InData), OnId(n1, id).1);
    hide Receive, CompareEcho, PidOf, Publishes;
    if n.mode != Listener && Lookup(n.slots, id).Some? { Answered(n1, id); } else { hide Lookup; }
  }

  lemma Answered(n: Node, id: bv8)
    requires n.mode != Listener && Lookup(n.slots, id).Some? && |Lookup(n.slots, id).value.bytes| <= ECHO_FIFO_SIZE
    ensures var bytes := Lookup(n.slots, id).value.bytes; var (v, driven) := OnId(n, id);
      && bytes != [] && driven == bytes && v.echo == Driven(bytes)
      && v.answered == n.answered + [Frame(id, bytes[..|bytes| - 1])]
  {
    var bytes := Lookup(n.slots, id).value.bytes;
    assert bytes != [];
    hide Lookup, PushBytes, Driven;
    assert BeginTx(n).echo == [] && BeginTx(n).answered == n.answered;
    Expects(BeginTx(n), bytes);
    assert [] + Driven(bytes) == Driven(bytes);
  }

  /** Fewer bytes than the queue of expectations holds are all expected, in order. */
  lemma {:induction false} Expects(n: Node, bytes: seq<bv8>)
    requires |n.echo| + |bytes| <= ECHO_FIFO_SIZE
    ensures PushBytes(n, bytes) == n.(echo := n.echo + Driven(bytes))
    decreases |bytes|
  {
    if bytes == [] {
      assert n.echo + Driven(bytes) == n.echo;
    } else {
      Expects(PushEcho(n, EchoByte(bytes[0])), bytes[1..]);
      assert n.echo + [EchoByte(bytes[0])] + Driven(bytes[1..]) == n.echo + Driven(bytes);
    }
  }

  /** Nothing is driven on any other byte. */
  lemma DrivenOnlyAtId(n: Node, b: bv8)
    requires n.state != AwaitId || PidOf(IdOf(b)) != b
    ensures Receive(n, b).1 == []
  {
    hide PidOf, IdOf;
  }

  /** Whatever is still expected when a node starts to drive again has not come back: one collision. */
  lemma HeaderExpects(n: Node, id: bv8)
    ensures var v := SendHeader(n, id);
      && v.echo == [EchoBreak, EchoByte(0x55), EchoByte(PidOf(id))]
      && v.collisions == n.collisions + if n.echo != [] then 1 else 0
  {
    hide PidOf;
    var n0 := BeginTx(n);
    assert n0.echo == [];
    var n1 := PushEcho(n0, EchoBreak);
    assert n1 == n0.(echo := [EchoBreak]);
    var n2 := PushEcho(n1, EchoByte(0x55));
    assert n2 == n0.(echo := [EchoBreak, EchoByte(0x55)]);
  }

  /** More than the queue of expectations holds: it starts over, and that counts as one collision. */
  lemma OverflowIsCounted(n: Node, e: Echo)
    ensures var v := PushEcho(n, e);
      if |n.echo| < ECHO_FIFO_SIZE then v == n.(echo := n.echo + [e]) else v.echo == [e] && v.collisions == n.collisions + 1
  {
  }
}
