/** What holds of the archive over any number of collector passes, each cut off wherever it may be. */
module CollectorSafety {
  import opened Words
  import opened CollectorSpec

  /** Two different contents ever offered under this name differ early enough for the head window. */
  ghost predicate HeadsDiffer(offered: set<Bytes>) {
    forall x, y :: x in offered && y in offered && x != y ==>
      exists k :: 0 <= k < Min(|x|, |y|) && k < HEAD_WINDOW && x[k] != y[k]
  }

  /** `b` is the beginning of something a device offered under this name. */
  ghost predicate IsPrefix(b: Bytes, offered: set<Bytes>) {
    b == [] || exists x :: x in offered && b <= x
  }

  ghost predicate Whole(b: Option<Bytes>, offered: set<Bytes>) {
    b.Some? ==> b.value in offered
  }

  ghost predicate DiskOk(d: Disk, offered: set<Bytes>) {
    && IsPrefix(d.part, offered) && Whole(d.archive, offered) && Whole(d.candidate, offered) && Whole(d.sidecar, offered)
    && (d.meta.Some? ==> d.meta.value.content in offered)
  }

  /** A partial exactly as long as the index says is taken for complete without a download; this says
      the index is right when that happens. */
  ghost predicate ShortcutOk(part: Bytes, size: nat, a: Attempt) {
    part != [] && size != 0 && |part| == size ==> |a.card| == size
  }

  /** Local bytes whose head the card confirms begin the very card, given what else was ever offered. */
  lemma ProvedIsPrefix(local: Bytes, size: nat, card: Bytes, probe: Probe, offered: set<Bytes>)
    requires HeadsDiffer(offered) && card in offered && IsPrefix(local, offered)
    requires ProveLocal(local, size, card, probe) == Proved
    ensures local <= card
    ensures local in offered ==> local == card
  {
    var want := Min(|local|, HEAD_WINDOW);
    forall k | 0 <= k < want ensures local[k] == card[k] {
      assert card[..want][k] == local[..want][k];
    }
    var x :| x in offered && local <= x;
    if x != card {
      var k :| 0 <= k < Min(|x|, |card|) && k < HEAD_WINDOW && x[k] != card[k];
      assert k >= want;
    }
  }

  ghost predicate PartsOk(parts: seq<Bytes>, offered: set<Bytes>) {
    forall i :: 0 <= i < |parts| ==> IsPrefix(parts[i], offered)
  }

  function LastPart(part: Bytes, parts: seq<Bytes>): Bytes {
    if parts == [] then part else parts[|parts| - 1]
  }

  lemma ResumedOk(part: Bytes, a: Attempt, offered: set<Bytes>)
    requires a.card in offered && part <= a.card && part != [] && a.reply.Body? && a.reply.honoured
    ensures var (parts, end) := Downloaded(part, a);
      PartsOk(parts, offered) && (end == Complete ==> LastPart(part, parts) == a.card)
  {
    var overlap := Min(|part|, SEAM_WINDOW);
    var start := |part| - overlap;
    var body := a.card[start..];
    var got := Min(a.reply.arrived, |body|);
    if got >= overlap {
      assert body[..overlap] == part[start..];
      var b := part + body[overlap..got];
      assert b == a.card[..start + got];
      BeginningsOk(b, |part|, a.card, offered);
      assert got == |body| ==> b == a.card;
      assert b[..|b|] == b;
    }
  }

  lemma BeginningsOk(b: Bytes, n: nat, card: Bytes, offered: set<Bytes>)
    requires n <= |b| && b <= card && card in offered
    ensures PartsOk(Growing(b, n), offered)
  {
    forall i | 0 <= i < |b| - n ensures IsPrefix(Growing(b, n)[i], offered) {
      assert b[..n + 1 + i] <= card;
    }
  }

  lemma FreshOk(part: Bytes, a: Attempt, offered: set<Bytes>)
    requires a.card in offered && part <= a.card && a.reply.Body? && (part == [] || !a.reply.honoured)
    ensures var (parts, end) := Downloaded(part, a);
      PartsOk(parts, offered) && (end == Complete ==> LastPart(part, parts) == a.card)
  {
    var got := Min(a.reply.arrived, |a.card|);
    BeginningsOk(a.card[..got], 0, a.card, offered);
    hide IsPrefix;
    assert IsPrefix([], offered) by { NothingIsPrefix(offered); }
    assert a.card[..got][..got] == a.card[..got];
  }

  lemma NothingIsPrefix(offered: set<Bytes>)
    ensures IsPrefix([], offered)
  {
  }

  /** A download only ever extends a beginning of the card on offer, and ends complete only with all of it. */
  lemma DownloadedOk(part: Bytes, a: Attempt, offered: set<Bytes>)
    requires a.card in offered && part <= a.card
    ensures var (parts, end) := Downloaded(part, a);
      PartsOk(parts, offered) && (end == Complete ==> LastPart(part, parts) == a.card)
  {
    if a.reply.Body? && part != [] && a.reply.honoured {
      ResumedOk(part, a, offered);
    } else if a.reply.Body? {
      FreshOk(part, a, offered);
    }
  }

  lemma AttemptedOk(part: Bytes, size: nat, a: Attempt, offered: set<Bytes>)
    requires HeadsDiffer(offered) && a.card in offered && IsPrefix(part, offered) && ShortcutOk(part, size, a)
    ensures var (parts, end) := Attempted(part, size, a);
      PartsOk(parts, offered) && (end == Complete ==> LastPart(part, parts) == a.card)
  {
    if part == [] {
      DownloadedOk(part, a, offered);
    } else if ProveLocal(part, size, a.card, a.probe) == Proved {
      ProvedIsPrefix(part, size, a.card, a.probe, offered);
      hide HeadsDiffer, ProveLocal;
      DownloadedOk(part, a, offered);
    }
  }

  /** The shortcut is right exactly when the index is. */
  lemma ShortcutIff(part: Bytes, size: nat, a: Attempt, offered: set<Bytes>)
    requires HeadsDiffer(offered) && a.card in offered && IsPrefix(part, offered)
    requires part != [] && size != 0 && |part| == size && ProveLocal(part, size, a.card, a.probe) == Proved
    ensures Attempted(part, size, a) == ([], Complete)
    ensures part == a.card <==> |a.card| == size
  {
    ProvedIsPrefix(part, size, a.card, a.probe, offered);
  }

  ghost predicate StatesOk(states: seq<Disk>, offered: set<Bytes>) {
    forall i :: 0 <= i < |states| ==> DiskOk(states[i], offered)
  }

  /** The archived file is written once: every state keeps it, and only the last ones may have gained it. */
  ghost predicate AppendOnly(d: Disk, states: seq<Disk>) {
    && (d.archive.Some? ==> forall i :: 0 <= i < |states| ==> states[i].archive == d.archive)
    && (forall i, j :: 0 <= i < j < |states| && states[i].archive.Some? ==> states[j].archive == states[i].archive)
  }

  /** What a confirm vouches for. */
  ghost predicate Vouched(d: Disk, r: Reader, card: Bytes) {
    && d.archive == Some(card)
    && (r.Judge(card) == Sound || (r.Judge(card) == Torn && d.sidecar == Some(card)))
  }

  lemma StoredOk(d: Disk, torn: bool, offered: set<Bytes>)
    requires DiskOk(d, offered) && d.part in offered && d.archive.None?
    ensures var states := Stored(d, torn);
      && states != [] && StatesOk(states, offered) && AppendOnly(d, states)
      && Last(d, states).archive == Some(d.part) && (torn ==> Last(d, states).sidecar == Some(d.part))
  {
    NothingIsPrefix(offered);
    hide IsPrefix;
    if torn {
      var d1 := d.(sidecar := Some(d.part));
      var d2 := d1.(part := [], archive := Some(d.part));
      assert Stored(d, torn) == [d.(sidecar := None), d1, d2, d2.(candidate := None), d2.(candidate := None, meta := None)];
    }
  }

  lemma TornSightedOk(d: Disk, r: Reader, card: Bytes, offered: set<Bytes>)
    requires DiskOk(d, offered) && card in offered && d.part == card && d.archive.None? && r.Judge(card) == Torn
    ensures var (states, result) := TornSighted(d, r, card);
      && StatesOk(states, offered) && AppendOnly(d, states)
      && (result.Confirming? ==> result.card == card && Vouched(Last(d, states), r, card))
  {
    StoredOk(d, true, offered);
    NothingIsPrefix(offered);
    var gone, kept := d.(part := []), d.(part := [], candidate := Some(d.part));
    hide Stored, IsPrefix;
    assert [gone] + Dropped(gone) == [gone, gone.(candidate := None), gone.(candidate := None, meta := None)];
  }

  lemma FinishedOk(d: Disk, size: nat, r: Reader, card: Bytes, offered: set<Bytes>)
    requires DiskOk(d, offered) && card in offered && d.part == card && d.archive.None?
    ensures var (states, result) := Finished(d, size, r, card);
      && StatesOk(states, offered) && AppendOnly(d, states)
      && (result.Confirming? ==> result.card == card && Vouched(Last(d, states), r, card))
  {
    NothingIsPrefix(offered);
    hide IsPrefix, Stored, TornSighted;
    match r.Judge(d.part)
    case Bad =>
    case Sound => StoredOk(d, false, offered);
    case Torn => TornSightedOk(d, r, card, offered);
  }

  ghost predicate FreshIndex(d: Disk, size: nat, attempts: seq<Attempt>)
    decreases |attempts|
  {
    attempts == [] ||
    (ShortcutOk(d.part, size, attempts[0]) &&
     var (parts, end) := Attempted(d.part, size, attempts[0]);
     (end == Again ==> FreshIndex(Last(d, WithParts(d, parts)), size, attempts[1..])))
  }

  ghost predicate Offers(attempts: seq<Attempt>, offered: set<Bytes>) {
    forall i :: 0 <= i < |attempts| ==> attempts[i].card in offered
  }

  lemma {:induction false} FetchedOk(d: Disk, size: nat, r: Reader, attempts: seq<Attempt>, offered: set<Bytes>)
    requires HeadsDiffer(offered) && Offers(attempts, offered) && DiskOk(d, offered) && d.archive.None?
    requires FreshIndex(d, size, attempts)
    ensures var (states, result) := Fetched(d, size, r, attempts);
      && StatesOk(states, offered) && AppendOnly(d, states)
      && (result.Confirming? ==> result.card in offered && Vouched(Last(d, states), r, result.card))
    decreases |attempts|
  {
    if attempts != [] {
      var a := attempts[0];
      var (parts, end) := Attempted(d.part, size, a);
      AttemptedOk(d.part, size, a, offered);
      var states := WithParts(d, parts);
      var d1 := Last(d, states);
      PartStates(d, parts, offered);
      hide HeadsDiffer, Attempted, Finished, DiskOk, Vouched;
      if end == Again {
        FetchedOk(d1, size, r, attempts[1..], offered);
        var (more, result) := Fetched(d1, size, r, attempts[1..]);
        Joined(d, states, d1, more, offered);
      } else if end == Complete {
        FinishedOk(d1, size, r, a.card, offered);
        var (more, result) := Finished(d1, size, r, a.card);
        Joined(d, states, d1, more, offered);
      }
    }
  }

  lemma PartStates(d: Disk, parts: seq<Bytes>, offered: set<Bytes>)
    requires DiskOk(d, offered) && PartsOk(parts, offered)
    ensures var states := WithParts(d, parts);
      && StatesOk(states, offered) && AppendOnly(d, states)
      && Last(d, states) == d.(part := LastPart(d.part, parts)) && DiskOk(Last(d, states), offered)
  {
  }

  lemma Joined(d: Disk, states: seq<Disk>, d1: Disk, more: seq<Disk>, offered: set<Bytes>)
    requires StatesOk(states, offered) && AppendOnly(d, states) && d1 == Last(d, states)
    requires StatesOk(more, offered) && AppendOnly(d1, more) && d.archive == d1.archive
    ensures StatesOk(states + more, offered) && AppendOnly(d, states + more)
    ensures Last(d, states + more) == Last(d1, more)
  {
    hide DiskOk;
    var all := states + more;
    forall i, j | 0 <= i < j < |all| && all[i].archive.Some? ensures all[j].archive == all[i].archive {
      if i < |states| <= j {
        assert states[|states| - 1].archive == all[i].archive;
      }
    }
  }

  // ----- any number of passes, each cut anywhere -----

  /** One pass: the index's size, the attempts, and the number of durable steps it got to take. */
  datatype Pass = Pass(size: nat, attempts: seq<Attempt>, steps: nat)

  /** A confirm as it is sent: the card that was proved, and the disk at that moment. */
  datatype Confirm = Confirm(card: Bytes, disk: Disk)

  /** The disk after a pass, and the confirm it sent, if it lived to send one. */
  function AfterPass(d: Disk, r: Reader, p: Pass): (Disk, seq<Confirm>) {
    var (states, result) := Passed(d, p.size, r, p.attempts);
    if p.steps < |states| then (Last(d, states[..p.steps]), [])
    else (Last(d, states), if result.Confirming? then [Confirm(result.card, Last(d, states))] else [])
  }

  function AfterPasses(d: Disk, r: Reader, ps: seq<Pass>): (Disk, seq<Confirm>)
    decreases |ps|
  {
    if ps == [] then (d, [])
    else
      var (d1, c1) := AfterPass(d, r, ps[0]);
      var (d2, c2) := AfterPasses(d1, r, ps[1..]);
      (d2, c1 + c2)
  }

  ghost predicate PassFair(d: Disk, p: Pass, offered: set<Bytes>) {
    Offers(p.attempts, offered) && (d.archive.None? ==> FreshIndex(d, p.size, p.attempts))
  }

  ghost predicate PassesFair(d: Disk, r: Reader, ps: seq<Pass>, offered: set<Bytes>)
    decreases |ps|
  {
    ps == [] || (PassFair(d, ps[0], offered) && PassesFair(AfterPass(d, r, ps[0]).0, r, ps[1..], offered))
  }

  /** The sidecar keeps vouching for an archived torn file: nothing writes it once the archive is there. */
  lemma PassOk(d: Disk, r: Reader, p: Pass, offered: set<Bytes>)
    requires HeadsDiffer(offered) && DiskOk(d, offered) && PassFair(d, p, offered)
    ensures var (d1, confirms) := AfterPass(d, r, p);
      && DiskOk(d1, offered) && (d.archive.Some? ==> d1 == d)
      && forall c :: c in confirms ==> c.card in offered && Vouched(c.disk, r, c.card) && c.disk == d1
  {
    var (states, result) := Passed(d, p.size, r, p.attempts);
    if d.archive.None? {
      FetchedOk(d, p.size, r, p.attempts, offered);
    } else {
      AlreadyHadOk(d, p.size, r, p.attempts, offered);
    }
    hide DiskOk, Vouched, Passed, HeadsDiffer;
    assert p.steps < |states| && p.steps > 0 ==> states[..p.steps][p.steps - 1] == states[p.steps - 1];
  }

  lemma AlreadyHadOk(d: Disk, size: nat, r: Reader, attempts: seq<Attempt>, offered: set<Bytes>)
    requires HeadsDiffer(offered) && DiskOk(d, offered) && Offers(attempts, offered) && d.archive.Some?
    ensures var result := AlreadyHad(d, size, r, attempts);
      result.Confirming? ==> result.card in offered && Vouched(d, r, result.card)
  {
    RecheckedOk(d.archive.value, size, attempts, offered);
    hide HeadsDiffer, Rechecked;
  }

  lemma {:induction false} RecheckedOk(local: Bytes, size: nat, attempts: seq<Attempt>, offered: set<Bytes>)
    requires HeadsDiffer(offered) && local in offered && Offers(attempts, offered)
    ensures var result := Rechecked(local, size, attempts); result.Confirming? ==> result.card == local
    decreases |attempts|
  {
    if attempts != [] {
      if ProveLocal(local, size, attempts[0].card, attempts[0].probe) == Proved {
        assert IsPrefix(local, offered) by { assert local <= local; }
        ProvedIsPrefix(local, size, attempts[0].card, attempts[0].probe, offered);
      }
      hide ProveLocal, HeadsDiffer;
      RecheckedOk(local, size, attempts[1..], offered);
    }
  }

  /** Over any number of passes cut at any step: the partial stays the beginning of something that was
      offered, an archived file never changes, and every confirm is sent with the whole card that was
      on offer in the archive, found sound, or torn and vouched for by its sidecar. */
  lemma {:induction false} ConfirmIsSafe(d: Disk, r: Reader, ps: seq<Pass>, offered: set<Bytes>)
    requires HeadsDiffer(offered) && DiskOk(d, offered) && PassesFair(d, r, ps, offered)
    ensures var (d1, confirms) := AfterPasses(d, r, ps);
      && DiskOk(d1, offered) && (d.archive.Some? ==> d1.archive == d.archive)
      && forall c :: c in confirms ==> c.card in offered && Vouched(c.disk, r, c.card) && d1.archive == c.disk.archive
    decreases |ps|
  {
    if ps != [] {
      hide HeadsDiffer, DiskOk, PassFair;
      PassOk(d, r, ps[0], offered);
      ConfirmIsSafe(AfterPass(d, r, ps[0]).0, r, ps[1..], offered);
    }
  }

  /** The run that a stale index leads astray: the card holds more than `size` bytes, a cut leaves exactly
      `size` of them, and the next attempt takes the partial for complete. Twice over, its short copy
      is accepted as torn and the confirm lets the device delete the rest. */
  lemma StaleIndexConfirmsShortCopy(r: Reader, card: Bytes, size: nat)
    requires 0 < size < |card| && r.judge(card[..size]) == Torn && r.seqOk(card[..size]) && r.originOk(card[..size])
    ensures var cut, again := Attempt(card, Window(0), Body(false, size)), Attempt(card, Window(size), Body(true, 0));
      var p := Pass(size, [cut, again], size + 9);
      var (d, confirms) := AfterPasses(Disk([], None, None, None, None), r, [p, p]);
      |confirms| == 1 && confirms[0].card == card && d.archive == Some(card[..size]) && d.archive.value != card
  {
    var short := card[..size];
    var cut, again := Attempt(card, Window(0), Body(false, size)), Attempt(card, Window(size), Body(true, 0));
    var p := Pass(size, [cut, again], size + 9);
    var d0 := Disk([], None, None, None, None);
    var d1 := Disk([], None, Some(short), Some(Meta(short, 1)), None);
    CutThenShortcut(d0, r, card, size);
    CutThenShortcut(d1, r, card, size);
    var kept := d0.(candidate := Some(short));
    assert Finished(d0.(part := short), size, r, card) == ([kept, kept.(meta := None), d1], Failed(true));
    assert Finished(d1.(part := short), size, r, card) == (Stored(d1.(part := short), true), Confirming(card));
    hide Fetched, Finished;
    assert AfterPass(d0, r, p) == (d1, []);
    var d2 := AfterPass(d1, r, p).0;
    assert d2.archive == Some(short);
    assert AfterPass(d1, r, p).1 == [Confirm(card, d2)];
    hide AfterPass;
    TwicePassed(d0, r, p);
  }

  lemma TwicePassed(d: Disk, r: Reader, p: Pass)
    ensures var (d1, c1) := AfterPass(d, r, p); var (d2, c2) := AfterPass(d1, r, p);
      AfterPasses(d, r, [p, p]) == (d2, c1 + c2)
  {
    hide AfterPass;
    var (d1, c1) := AfterPass(d, r, p);
    var (d2, c2) := AfterPass(d1, r, p);
    assert [p, p][1..] == [p] && [p][1..] == [];
    assert AfterPasses(d2, r, []) == (d2, []);
    assert AfterPasses(d1, r, [p]) == (d2, c2 + []);
    assert c2 + [] == c2;
  }

  lemma CutThenShortcut(d: Disk, r: Reader, card: Bytes, size: nat)
    requires 0 < size < |card| && d.part == [] && d.archive.None?
    ensures var cut, again := Attempt(card, Window(0), Body(false, size)), Attempt(card, Window(size), Body(true, 0));
      var (states, result) := Fetched(d, size, r, [cut, again]);
      var (more, verdict) := Finished(d.(part := card[..size]), size, r, card);
      |states| == size + 1 + |more| && result == verdict && states[size + 1..] == more
      && Last(d.(part := card[..size]), more) == Last(d, states)
  {
    var short := card[..size];
    var cut, again := Attempt(card, Window(0), Body(false, size)), Attempt(card, Window(size), Body(true, 0));
    var (parts, end) := Attempted([], size, cut);
    assert end == Again && |parts| == size + 1 && parts[size] == card[..size][..size] == short;
    assert Attempted(short, size, again) == ([], Complete) by {
      assert card[..Min(size, HEAD_WINDOW)] == short[..Min(size, HEAD_WINDOW)];
    }
    hide Attempted, Finished;
    var states := WithParts(d, parts);
    var d1 := d.(part := short);
    assert Last(d, states) == d1 && [cut, again][1..] == [again];
    var (more, verdict) := Finished(d1, size, r, card);
    assert WithParts(d1, []) == [];
    assert Fetched(d1, size, r, [again]) == ([] + more, verdict);
    assert [] + more == more;
    assert Fetched(d, size, r, [cut, again]) == (states + more, verdict);
  }

  // ----- torn chunks -----

  /** The kept candidate is the sighting on record. */
  ghost predicate NoteMatches(d: Disk) {
    d.candidate.Some? && d.meta.Some? ==> d.candidate.value == d.meta.value.content
  }

  /** A stable card is taken on its second torn fetch: the first leaves a matching note about it. */
  lemma StableTornIsTaken(d: Disk, size: nat, r: Reader, card: Bytes)
    requires d.archive.None? && d.part == card && r.Judge(card) == Torn && |card| == size
    requires r.seqOk(card) && r.originOk(card) && (d.meta.Some? ==> d.meta.value.seen + 1 < TORN_MAX_SIGHTINGS)
    ensures var (states, result) := Finished(d, size, r, card);
      if SeenBefore(d) then result == Confirming(card)
      else NoteMatches(Last(d, states)) && SeenBefore(Last(d, states).(part := card))
  {
  }

  ghost predicate NotesOk(d: Disk, states: seq<Disk>) {
    NoteMatches(Last(d, states)) && forall i :: 0 <= i < |states| && !NoteMatches(states[i]) ==> i == |states| - 3
  }

  lemma FinishedNotes(d: Disk, size: nat, r: Reader, card: Bytes)
    requires NoteMatches(d)
    ensures NotesOk(d, Finished(d, size, r, card).0)
  {
    var gone := d.(part := []);
    assert [gone] + Dropped(gone) == [gone, gone.(candidate := None), gone.(candidate := None, meta := None)];
    var d1 := d.(sidecar := Some(d.part));
    var d2 := d1.(part := [], archive := Some(d.part));
    assert Stored(d, true) == [d.(sidecar := None), d1, d2, d2.(candidate := None), d2.(candidate := None, meta := None)];
  }

  lemma {:induction false} FetchedNotes(d: Disk, size: nat, r: Reader, attempts: seq<Attempt>)
    requires NoteMatches(d)
    ensures NotesOk(d, Fetched(d, size, r, attempts).0)
    decreases |attempts|
  {
    if attempts != [] {
      var a := attempts[0];
      var (parts, end) := Attempted(d.part, size, a);
      var states := WithParts(d, parts);
      var d1 := Last(d, states);
      assert NoteMatches(d1) && forall i :: 0 <= i < |states| ==> NoteMatches(states[i]);
      hide Attempted, Finished, NoteMatches, WithParts;
      if end == Again {
        FetchedNotes(d1, size, r, attempts[1..]);
      } else if end == Complete {
        FinishedNotes(d1, size, r, a.card);
      }
    }
  }

  /** A pass that is not cut leaves the note matching, and so does a cut anywhere but right after the
      bytes of a differing fetch were kept, three durable steps from the end. */
  lemma NoteKept(d: Disk, size: nat, r: Reader, attempts: seq<Attempt>)
    requires NoteMatches(d)
    ensures NotesOk(d, Passed(d, size, r, attempts).0)
  {
    if d.archive.None? {
      FetchedNotes(d, size, r, attempts);
    }
  }

  /** Where the note can stop matching: a cut between keeping the candidate and noting it. */
  lemma CutLeavesStaleNote(d: Disk, r: Reader, b: Bytes)
    requires d.archive.None? && d.part == b && r.Judge(b) == Torn && r.seqOk(b) && r.originOk(b)
    requires d.meta.Some? && d.meta.value.content != b && d.meta.value.seen + 1 < TORN_MAX_SIGHTINGS
    ensures var states := Finished(d, |b|, r, b).0;
      |states| == 3 && !NoteMatches(states[0]) && NoteMatches(states[1]) && NoteMatches(states[2])
  {
  }
}
