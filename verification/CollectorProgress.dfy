/** What a pass comes to, in terms of the disk and of what the device answers: an archived chunk is confirmed
    again exactly when it may be, a device that stumbles long enough and then answers gets its chunk fetched,
    and what is refused leaves the disk alone. */
module CollectorProgress {
  import opened Words
  import opened CollectorSpec
  import opened CollectorSafety

  // ----- a chunk that is archived -----

  /** The bytes that stand for the identity of a local copy. */
  function Head(b: Bytes): Bytes { b[..Min(|b|, HEAD_WINDOW)] }

  /** The attempt says nothing about the copy: network, busy device, or a window that arrived short. */
  predicate Silent(local: Bytes, a: Attempt) {
    match a.probe
    case ProbeFault(f) => f == Busy || f == Stumble
    case Window(arrived) => arrived < |Head(local)| && arrived < |a.card|
  }

  /** The device shows the head of the local copy. */
  predicate ShowsHead(local: Bytes, a: Attempt) {
    a.probe.Window? && a.probe.arrived >= |Head(local)| && Head(local) <= a.card
  }

  /** The archived file answers for itself: its length, its contents or its sidecar, and its number. */
  predicate Trustworthy(d: Disk, size: nat, r: Reader) {
    && d.archive.Some?
    && var local := d.archive.value;
       && (size == 0 || |local| == size)
       && (r.Judge(local) == Sound || (r.Judge(local) == Torn && d.sidecar == Some(local)))
       && r.seqOk(local)
  }

  /** Attempt `i` is the first that says anything, or there is none. */
  ghost predicate Speaks(local: Bytes, attempts: seq<Attempt>, i: nat) {
    i <= |attempts| && (i < |attempts| ==> !Silent(local, attempts[i])) && forall k :: 0 <= k < i ==> Silent(local, attempts[k])
  }

  /** What the first attempt to say anything decides about a trustworthy archive. */
  function Answer(local: Bytes, a: Attempt): Result {
    match a.probe
    case Window(_) => if ShowsHead(local, a) then Confirming(a.card) else Failed(false)
    case ProbeFault(Unauthorized) => PassRefused
    case ProbeFault(f) => Failed(f == Race)
  }

  lemma {:induction false} RecheckAnswers(local: Bytes, size: nat, attempts: seq<Attempt>, i: nat)
    requires local != [] && (size == 0 || |local| == size) && Speaks(local, attempts, i)
    ensures Rechecked(local, size, attempts) == if i == |attempts| then Failed(true) else Answer(local, attempts[i])
    decreases |attempts|
  {
    if attempts != [] {
      HeadDecides(local, size, attempts[0]);
      if i > 0 {
        assert Silent(local, attempts[0]);
        forall k | 0 <= k < i - 1 ensures Silent(local, attempts[1..][k]) { assert attempts[1..][k] == attempts[k + 1]; }
        hide Silent, Answer, ProveLocal;
        RecheckAnswers(local, size, attempts[1..], i - 1);
      }
    }
  }

  lemma HeadDecides(local: Bytes, size: nat, a: Attempt)
    requires local != [] && (size == 0 || |local| <= size)
    ensures match ProveLocal(local, size, a.card, a.probe)
      case Proved => ShowsHead(local, a)
      case Mismatched => a.probe.Window? && !Silent(local, a) && !ShowsHead(local, a)
      case Unproved(None) => a.probe.Window? && Silent(local, a)
      case Unproved(Some(f)) => a.probe == ProbeFault(f)
  {
    var want := Min(|local|, HEAD_WINDOW);
    if a.probe.Window? && |a.card| >= want {
      assert Head(local) <= a.card <==> a.card[..want] == local[..want];
    }
  }

  /** Every outcome of a pass over an archived chunk; the disk is never touched. */
  lemma ArchivedOutcome(d: Disk, size: nat, r: Reader, attempts: seq<Attempt>, i: nat)
    requires d.archive.Some? && Speaks(d.archive.value, attempts, i)
    ensures Passed(d, size, r, attempts) ==
      ([], if !Trustworthy(d, size, r) then Failed(false)
           else if i == |attempts| then Failed(true)
           else Answer(d.archive.value, attempts[i]))
  {
    if Trustworthy(d, size, r) {
      hide Answer, Rechecked, Speaks;
      RecheckAnswers(d.archive.value, size, attempts, i);
    }
  }

  lemma {:induction false} FirstToSpeak(local: Bytes, attempts: seq<Attempt>) returns (i: nat)
    ensures Speaks(local, attempts, i)
    decreases |attempts|
  {
    if attempts == [] || !Silent(local, attempts[0]) {
      i := 0;
    } else {
      var j := FirstToSpeak(local, attempts[1..]);
      i := j + 1;
      hide Silent;
      forall k | 0 <= k < i ensures Silent(local, attempts[k]) { if k > 0 { assert attempts[1..][k - 1] == attempts[k]; } }
    }
  }

  /** An archived chunk is confirmed for exactly the card shown by the first attempt to say anything, and
      exactly when the archived file is trustworthy and is what that attempt shows. */
  lemma ConfirmedAgainIff(d: Disk, r: Reader, p: Pass, card: Bytes)
    requires d.archive.Some?
    ensures var (d1, confirms) := AfterPass(d, r, p);
      && d1 == d
      && (confirms == [Confirm(card, d)] <==>
            && Trustworthy(d, p.size, r)
            && exists i :: 0 <= i < |p.attempts| && Speaks(d.archive.value, p.attempts, i)
                 && p.attempts[i].card == card && ShowsHead(d.archive.value, p.attempts[i]))
      && (confirms != [] ==> |confirms| == 1 && confirms[0].disk == d)
  {
    var local := d.archive.value;
    var i := FirstToSpeak(local, p.attempts);
    ArchivedOutcome(d, p.size, r, p.attempts, i);
    forall k | 0 <= k < |p.attempts| && Speaks(local, p.attempts, k) ensures k == i { }
    hide Passed, Silent, Head, Trustworthy, Speaks;
  }

  ghost predicate SilentUntil(local: Bytes, attempts: seq<Attempt>, i: nat)
    requires i <= |attempts|
  {
    forall k :: 0 <= k < i ==> Silent(local, attempts[k])
  }

  /** A confirm that did not stick: the next pass over the card as archived sends it again, however often the
      device stumbles first, and however little of a window arrives. */
  lemma ConfirmIsRepeated(d: Disk, r: Reader, p: Pass, card: Bytes)
    requires d.archive == Some(card) && r.seqOk(card) && p.size in {0, |card|}
    requires r.Judge(card) == Sound || (r.Judge(card) == Torn && d.sidecar == Some(card))
    requires exists i ::
      0 <= i < |p.attempts| && SilentUntil(card, p.attempts, i) && p.attempts[i].card == card &&
      p.attempts[i].probe.Window? && p.attempts[i].probe.arrived >= HEAD_WINDOW
    ensures AfterPass(d, r, p) == (d, [Confirm(card, d)])
  {
    ConfirmedAgainIff(d, r, p, card);
    hide AfterPass;
  }

  // ----- a chunk that is not -----

  /** The device offers this card all along and refuses nothing: requests may fail in the network, windows and
      bodies may be cut anywhere, and a partial may be found to reach beyond the card. */
  predicate Willing(card: Bytes, a: Attempt) {
    && a.card == card
    && (a.probe.ProbeFault? ==> a.probe.fault in {Stumble, OutOfRange})
    && (a.reply.ReplyFault? ==> a.reply.fault in {Stumble, OutOfRange})
  }

  /** Nothing of this attempt is cut. */
  predicate Undisturbed(card: Bytes, a: Attempt) {
    && a.card == card && a.probe.Window? && a.probe.arrived >= HEAD_WINDOW
    && a.reply.Body? && a.reply.arrived >= |card|
  }

  lemma BeginningsGrow(part: Bytes, card: Bytes, k: nat)
    requires part <= card && |part| <= k <= |card|
    ensures part + card[|part|..k] == card[..k]
    ensures forall b :: b in Growing(card[..k], |part|) ==> b <= card
  {
    forall b | b in Growing(card[..k], |part|) ensures b <= card {
      var i :| 0 <= i < k - |part| && b == Growing(card[..k], |part|)[i];
      assert b == card[..|part| + 1 + i];
    }
  }

  lemma Regrown(part: Bytes, a: Attempt)
    requires part != [] && part <= a.card && a.reply.Body? && a.reply.honoured
    ensures var (parts, end) := Downloaded(part, a);
      && (end == Again || end == Complete) && LastPart(part, parts) <= a.card
      && (end == Complete ==> LastPart(part, parts) == a.card)
      && (a.reply.arrived >= |a.card| ==> end == Complete)
  {
    var overlap := Min(|part|, SEAM_WINDOW);
    var start := |part| - overlap;
    var body := a.card[start..];
    var got := Min(a.reply.arrived, |body|);
    if got >= overlap {
      SeamHolds(part, a.card, start, overlap, got);
      BeginningsGrow(part, a.card, start + got);
      assert got == |body| ==> a.card[..start + got] == a.card;
    }
    hide Growing;
  }

  lemma SeamHolds(part: Bytes, card: Bytes, start: nat, overlap: nat, got: nat)
    requires part <= card && start + overlap == |part| && overlap <= got <= |card| - start
    ensures card[start..][..overlap] == part[start..] && card[start..][overlap..got] == card[|part|..start + got]
  {
    assert card[start..][..overlap] == card[start..|part|] == part[start..];
  }

  lemma Regrabbed(part: Bytes, a: Attempt)
    requires part <= a.card && a.reply.Body? && (part == [] || !a.reply.honoured) && a.card != []
    ensures var (parts, end) := Downloaded(part, a);
      && (end == Again || end == Complete) && LastPart(part, parts) <= a.card
      && (end == Complete ==> LastPart(part, parts) == a.card)
      && (a.reply.arrived >= |a.card| ==> end == Complete)
  {
    var got := Min(a.reply.arrived, |a.card|);
    BeginningsGrow([], a.card, got);
    assert got == |a.card| ==> a.card[..got] == a.card;
  }

  lemma AttemptProgress(part: Bytes, size: nat, card: Bytes, a: Attempt)
    requires card != [] && part <= card && (size == 0 || |card| <= size) && (Willing(card, a) || Undisturbed(card, a))
    ensures var (parts, end) := Attempted(part, size, a);
      && (end == Again || end == Complete) && LastPart(part, parts) <= card
      && (end == Complete ==> LastPart(part, parts) == card)
      && (Undisturbed(card, a) ==> end == Complete)
  {
    if part != [] { HeadDecides(part, size, a); assert Head(part) <= card; }
    if a.reply.Body? {
      if part != [] && a.reply.honoured { Regrown(part, a); } else { Regrabbed(part, a); }
    }
    if a.reply.ReplyFault? { assert Downloaded(part, a) == FaultEnd(a.reply.fault); }
    hide Downloaded, ProveLocal;
  }

  /** What a whole fetch of `card` makes of the disk `d`, and of the pass. */
  ghost predicate TakenAs(d: Disk, size: nat, r: Reader, card: Bytes, d1: Disk, result: Result) {
    var blank := d.(part := [], candidate := None, meta := None);
    match r.Judge(card)
    case Sound => d1 == d.(part := [], archive := Some(card)) && result == Confirming(card)
    case Bad => d1 == d.(part := []) && result == Failed(false)
    case Torn =>
      if size != |card| then d1 == d.(part := card) && result == Failed(true)
      else if !(r.seqOk(card) && r.originOk(card)) then d1 == blank && result == Failed(false)
      else if d.candidate.Some? && d.meta.Some? && d.meta.value.content == card then
        d1 == blank.(archive := Some(card), sidecar := Some(card)) && result == Confirming(card)
      else if d.meta.Some? && d.meta.value.seen >= 2 then d1 == blank && result == Failed(false)
      else
        && d1 == d.(part := [], candidate := Some(card),
                    meta := Some(Meta(card, if d.meta.Some? then d.meta.value.seen + 1 else 1)))
        && result == Failed(true)
  }

  lemma VerdictTakes(d: Disk, size: nat, r: Reader, card: Bytes)
    requires d.archive.None? && (size == 0 || |card| <= size)
    ensures var (states, result) := Finished(d.(part := card), size, r, card);
      TakenAs(d, size, r, card, Last(d.(part := card), states), result)
  {
  }

  lemma {:induction false} FetchTakes(d: Disk, d0: Disk, size: nat, r: Reader, card: Bytes, attempts: seq<Attempt>)
    requires d.archive.None? && card != [] && d.part <= card && (size == 0 || |card| <= size) && d0 == d.(part := d0.part)
    requires attempts != [] && Undisturbed(card, attempts[|attempts| - 1])
    requires forall i :: 0 <= i < |attempts| - 1 ==> Willing(card, attempts[i])
    ensures var (states, result) := Fetched(d, size, r, attempts); TakenAs(d0, size, r, card, Last(d, states), result)
    decreases |attempts|
  {
    var a := attempts[0];
    AttemptProgress(d.part, size, card, a);
    FetchStep(d, size, r, attempts);
    assert a.card == card;
    hide Attempted, Willing, Undisturbed, Finished, TakenAs, LastPart, Fetched;
    var (parts, end) := Attempted(d.part, size, a);
    var d1 := d.(part := LastPart(d.part, parts));
    if end == Complete {
      VerdictTakes(d, size, r, card);
      VerdictIgnoresPart(d, d0, size, r, card);
    } else {
      forall i | 0 <= i < |attempts[1..]| - 1 ensures Willing(card, attempts[1..][i]) { assert attempts[1..][i] == attempts[i + 1]; }
      FetchTakes(d1, d0, size, r, card, attempts[1..]);
    }
  }

  /** Nothing else of the first attempt matters to the rest. */
  lemma FetchStep(d: Disk, size: nat, r: Reader, attempts: seq<Attempt>)
    requires attempts != []
    ensures var (parts, end) := Attempted(d.part, size, attempts[0]);
      var d1 := d.(part := LastPart(d.part, parts));
      var (states, result) := Fetched(d, size, r, attempts);
      match end
      case Complete => var (more, verdict) := Finished(d1, size, r, attempts[0].card); Last(d, states) == Last(d1, more) && result == verdict
      case Again =>
        var (more, later) := Fetched(d1, size, r, attempts[1..]);
        Last(d, states) == Last(d1, more) && result == later && (parts == [] ==> states == more)
      case Stop(transient) => Last(d, states) == d1 && result == Failed(transient) && |states| == |parts|
      case Refused => Last(d, states) == d1 && result == PassRefused && |states| == |parts|
  {
    var (parts, end) := Attempted(d.part, size, attempts[0]);
    var states := WithParts(d, parts);
    assert Last(d, states) == d.(part := LastPart(d.part, parts));
    hide Attempted, Finished;
    var d1 := Last(d, states);
    if end == Complete { LastOfJoined(d, states, Finished(d1, size, r, attempts[0].card).0); }
    if end == Again {
      var more := Fetched(d1, size, r, attempts[1..]).0;
      LastOfJoined(d, states, more);
      if parts == [] { assert states + more == more; }
    }
  }

  lemma LastOfJoined(d: Disk, states: seq<Disk>, more: seq<Disk>)
    ensures Last(d, states + more) == Last(Last(d, states), more)
  {
  }

  lemma VerdictIgnoresPart(d: Disk, d0: Disk, size: nat, r: Reader, card: Bytes)
    requires d0 == d.(part := d0.part)
    ensures forall d1, result :: TakenAs(d, size, r, card, d1, result) ==> TakenAs(d0, size, r, card, d1, result)
  {
  }

  /** A chunk that is not archived, of which the partial holds a beginning: however often the device stumbles,
      and wherever its windows and bodies are cut, the first attempt that is not disturbed ends in the
      verdict on the whole card. */
  lemma FetchedAtLast(d: Disk, r: Reader, p: Pass, card: Bytes)
    requires d.archive.None? && card != [] && d.part <= card && (p.size == 0 || |card| <= p.size)
    requires p.attempts != [] && Undisturbed(card, p.attempts[|p.attempts| - 1])
    requires forall i :: 0 <= i < |p.attempts| - 1 ==> Willing(card, p.attempts[i])
    requires p.steps >= |Passed(d, p.size, r, p.attempts).0|
    ensures var (d1, confirms) := AfterPass(d, r, p);
      && TakenAs(d, p.size, r, card, d1, Passed(d, p.size, r, p.attempts).1)
      && (r.Judge(card) == Sound ==> d1.archive == Some(card) && confirms == [Confirm(card, d1)])
      && (r.Judge(card) == Bad ==> d1.archive == None && confirms == [])
  {
    FetchTakes(d, d, p.size, r, card, p.attempts);
    hide Fetched;
  }

  /** Not a beginning of the card, and seen not to be by this attempt: it is longer than the index says, its head is another,
      or the device resumes from it and the bytes at its end differ. */
  predicate Foreign(part: Bytes, size: nat, card: Bytes, a: Attempt) {
    && part != [] && Undisturbed(card, a)
    && (|| !(Head(part) <= card)
        || (size != 0 && |part| > size)
        || (|part| != size && |part| <= |card| && a.reply.honoured && !EndAgrees(part, card)))
  }

  predicate EndAgrees(part: Bytes, card: Bytes)
    requires |part| <= |card|
  {
    var start := |part| - Min(|part|, SEAM_WINDOW);
    part[start..] == card[start..|part|]
  }

  lemma ForeignIsDropped(part: Bytes, size: nat, card: Bytes, a: Attempt)
    requires Foreign(part, size, card, a)
    ensures Attempted(part, size, a) == ([[]], Again)
  {
    if size == 0 || |part| <= size {
      HeadDecides(part, size, a);
      if Head(part) <= card {
        SeamFails(part, a);
        hide Downloaded, ProveLocal;
      } else {
        hide Downloaded, ProveLocal;
      }
    }
  }

  lemma SeamFails(part: Bytes, a: Attempt)
    requires part != [] && |part| <= |a.card| && !EndAgrees(part, a.card)
    requires a.reply.Body? && a.reply.honoured && a.reply.arrived >= |a.card|
    ensures Downloaded(part, a) == ([[]], Again)
  {
    var start := |part| - Min(|part|, SEAM_WINDOW);
    assert a.card[start..][..|part| - start] == a.card[start..|part|];
    hide Growing;
  }

  /** A partial of another chunk costs one attempt: it is dropped, and the card fetched from the start. */
  lemma FetchedAfterAll(d: Disk, r: Reader, p: Pass, card: Bytes)
    requires d.archive.None? && card != [] && (p.size == 0 || |card| <= p.size)
    requires |p.attempts| >= 2 && Undisturbed(card, p.attempts[|p.attempts| - 1])
    requires Foreign(d.part, p.size, card, p.attempts[0])
    requires forall i :: 1 <= i < |p.attempts| - 1 ==> Willing(card, p.attempts[i])
    requires p.steps >= |Passed(d, p.size, r, p.attempts).0|
    ensures TakenAs(d, p.size, r, card, AfterPass(d, r, p).0, Passed(d, p.size, r, p.attempts).1)
  {
    var rest := p.attempts[1..];
    ForeignIsDropped(d.part, p.size, card, p.attempts[0]);
    FetchStep(d, p.size, r, p.attempts);
    forall i | 0 <= i < |rest| - 1 ensures Willing(card, rest[i]) { assert rest[i] == p.attempts[i + 1]; }
    FetchTakes(d.(part := []), d, p.size, r, card, rest);
    hide Fetched, TakenAs;
  }

  // ----- refusals -----

  /** The request that the attempt makes first fails this way. */
  predicate Meets(part: Bytes, a: Attempt, f: Fault) {
    if part == [] then a.reply == ReplyFault(f) else a.probe == ProbeFault(f)
  }

  /** A chunk that is not archived: stumbles leave the partial as it is for the next attempt; the first other
      refusal ends the pass, as transient only for a race, and as refused only for want of permission. */
  lemma {:induction false} RefusalEnds(d: Disk, size: nat, r: Reader, attempts: seq<Attempt>, i: nat, f: Fault)
    requires d.archive.None? && (size == 0 || |d.part| <= size) && i < |attempts| && f in {Race, Denied, Busy, Unauthorized}
    requires forall k :: 0 <= k < i ==> Meets(d.part, attempts[k], Stumble)
    requires Meets(d.part, attempts[i], f)
    ensures Passed(d, size, r, attempts) == ([], if f == Unauthorized then PassRefused else Failed(f == Race))
    decreases |attempts|
  {
    FetchStep(d, size, r, attempts);
    if i > 0 {
      forall k | 0 <= k < i - 1 ensures Meets(d.part, attempts[1..][k], Stumble) { assert attempts[1..][k] == attempts[k + 1]; }
      assert Meets(d.part, attempts[0], Stumble);
      assert Attempted(d.part, size, attempts[0]) == ([], Again);
      hide Meets, Attempted, Fetched;
      RefusalEnds(d, size, r, attempts[1..], i - 1, f);
    } else {
      assert Attempted(d.part, size, attempts[0]) == FaultEnd(f);
      hide Attempted, Fetched;
    }
  }

  /** Nothing but stumbles: the pass has failed for now, and the partial waits for the next. */
  lemma {:induction false} StumblesKeepThePartial(d: Disk, size: nat, r: Reader, attempts: seq<Attempt>)
    requires d.archive.None? && (size == 0 || |d.part| <= size)
    requires forall k :: 0 <= k < |attempts| ==> Meets(d.part, attempts[k], Stumble)
    ensures Passed(d, size, r, attempts) == ([], Failed(true))
    decreases |attempts|
  {
    if attempts != [] {
      FetchStep(d, size, r, attempts);
      forall k | 0 <= k < |attempts| - 1 ensures Meets(d.part, attempts[1..][k], Stumble) { assert attempts[1..][k] == attempts[k + 1]; }
      assert Meets(d.part, attempts[0], Stumble);
      assert Attempted(d.part, size, attempts[0]) == ([], Again);
      hide Meets, Attempted, Fetched;
      StumblesKeepThePartial(d, size, r, attempts[1..]);
    }
  }
}
