/** Torn chunks over whole runs: which full fetches were made, what became of each, and when the fetch that
    is taken equals the full fetch before it. */
module CollectorHistory {
  import opened Words
  import opened CollectorSpec
  import opened CollectorSafety

  /** What has become of a full fetch: no verdict has taken effect yet, the bytes did not parse, they were
      given up or named another chunk, they were kept but not noted, noted too, or archived. */
  datatype Fate = Open | Spoilt | Dismissed | Kept | Noted | Archived

  datatype Full = Full(content: Bytes, fate: Fate)

  function Latest(h: seq<Full>): Full
    requires h != []
  {
    h[|h| - 1]
  }

  // ----- the history of a pass -----

  /** Every promised byte has arrived and the last of them was written now. A partial that was whole already
      is still the same fetch. */
  predicate NewlyWhole(parts: seq<Bytes>, end: End) { end == Complete && parts != [] }

  /** The fate of the fetch under judgement once `m` steps of the verdict are durable. */
  function FateAfter(d: Disk, size: nat, r: Reader, m: nat): Fate {
    if m == 0 then Open
    else
      match r.Judge(d.part)
      case Bad => Spoilt
      case Sound => Archived
      case Torn =>
        if size == 0 || |d.part| != size then Open
        else if !r.seqOk(d.part) || !r.originOk(d.part) then Dismissed
        else if SeenBefore(d) then (if m >= 3 then Archived else Open)
        else if (if d.meta.Some? then d.meta.value.seen + 1 else 1) >= TORN_MAX_SIGHTINGS then Dismissed
        else if m >= 3 then Noted else Kept
  }

  function Judged(h: seq<Full>, d: Disk, size: nat, r: Reader, m: nat): seq<Full> {
    if h == [] || d.part == [] then h else h[|h| - 1 := Latest(h).(fate := FateAfter(d, size, r, m))]
  }

  /** The full fetches once `n` durable steps of a fetch are done. */
  function Fetches(h: seq<Full>, d: Disk, size: nat, r: Reader, attempts: seq<Attempt>, n: nat): seq<Full>
    decreases |attempts|
  {
    if attempts == [] then h
    else
      var (parts, end) := Attempted(d.part, size, attempts[0]);
      if n < |parts| then h
      else
        var d1 := Last(d, WithParts(d, parts));
        var h1 := if NewlyWhole(parts, end) then h + [Full(d1.part, Open)] else h;
        match end
        case Complete => Judged(h1, d1, size, r, n - |parts|)
        case Again => Fetches(h1, d1, size, r, attempts[1..], n - |parts|)
        case _ => h1
  }

  /** The disk with the full fetches made so far. */
  datatype Tracked = Tracked(d: Disk, h: seq<Full>)

  const Nothing := Tracked(Disk([], None, None, None, None), [])

  function TrackedPass(t: Tracked, r: Reader, p: Pass): Tracked {
    Tracked(AfterPass(t.d, r, p).0,
            if t.d.archive.Some? then t.h else Fetches(t.h, t.d, p.size, r, p.attempts, p.steps))
  }

  function TrackedPasses(t: Tracked, r: Reader, ps: seq<Pass>): Tracked
    decreases |ps|
  {
    if ps == [] then t else TrackedPasses(TrackedPass(t, r, ps[0]), r, ps[1..])
  }

  lemma {:induction false} SameDisk(t: Tracked, r: Reader, ps: seq<Pass>)
    ensures TrackedPasses(t, r, ps).d == AfterPasses(t.d, r, ps).0
    decreases |ps|
  {
    if ps != [] { SameDisk(TrackedPass(t, r, ps[0]), r, ps[1..]); }
  }

  // ----- the invariant -----

  /** The partial is the latest full fetch, or no card at all. */
  ghost predicate PartInv(d: Disk, h: seq<Full>, offered: set<Bytes>) {
    && (h != [] ==> Latest(h).content in offered)
    && (d.part == [] || d.part !in offered || (h != [] && Latest(h) == Full(d.part, Open)))
  }

  /** Bytes that may be noted. */
  predicate Notable(r: Reader, b: Bytes) { r.Judge(b) == Torn && r.seqOk(b) && r.originOk(b) }

  predicate OnRecord(d: Disk) { d.meta.Some? && d.candidate.Some? }

  /** How the fetch `e` stands to the sighting on record, as long as it is the latest. */
  ghost predicate StandsTo(e: Full, note: Bytes) {
    match e.fate
    case Noted => e.content == note
    case Spoilt | Dismissed => e.content != note
    case Archived => false
    case Open | Kept => true
  }

  ghost predicate HistoryInv(d: Disk, h: seq<Full>, r: Reader) {
    && (d.meta.Some? ==> Notable(r, d.meta.value.content))
    && (OnRecord(d) ==> h != [] && StandsTo(Latest(h), d.meta.value.content))
    && (OnRecord(d) && d.part != [] && Latest(h) == Full(d.part, Open) ==>
          |h| >= 2 && StandsTo(h[|h| - 2], d.meta.value.content))
  }

  ghost predicate Inv(d: Disk, h: seq<Full>, r: Reader, offered: set<Bytes>) {
    DiskOk(d, offered) && (d.archive.None? ==> PartInv(d, h, offered) && HistoryInv(d, h, r))
  }

  /** The disk after `n` of the states. */
  function DiskAt(d: Disk, states: seq<Disk>, n: nat): Disk {
    if n < |states| then Last(d, states[..n]) else Last(d, states)
  }

  lemma DiskAtJoin(d: Disk, a: seq<Disk>, b: seq<Disk>, n: nat)
    ensures n < |a| ==> DiskAt(d, a + b, n) == DiskAt(d, a, n)
    ensures n >= |a| ==> DiskAt(d, a + b, n) == DiskAt(Last(d, a), b, n - |a|)
  {
    if n < |a| {
      assert (a + b)[..n] == a[..n];
    } else if n < |a + b| {
      assert (a + b)[..n] == a + b[..n - |a|];
    }
  }

  /** A beginning of a card that is not all of it is itself no card. */
  lemma ProperBeginning(b: Bytes, card: Bytes, offered: set<Bytes>)
    requires HeadsDiffer(offered) && card in offered && b <= card && b != card
    ensures b !in offered
  {
  }

  /** The states of the partial on the way: beginnings only, and the whole card at the end of a download
      that completes. */
  ghost predicate OnTheWay(parts: seq<Bytes>, end: End, card: Bytes) {
    && (forall i :: 0 <= i < |parts| ==> parts[i] <= card)
    && (forall i :: 0 <= i < |parts| && parts[i] == card ==> card == [] || (i == |parts| - 1 && end == Complete))
  }

  lemma GrowingOnTheWay(b: Bytes, n: nat, card: Bytes, end: End)
    requires n <= |b| && b <= card && (b == card ==> end == Complete)
    ensures OnTheWay(Growing(b, n), end, card) && OnTheWay([[]] + Growing(b, 0), end, card)
  {
  }

  lemma ResumedOnTheWay(part: Bytes, a: Attempt)
    requires part != [] && part <= a.card && a.reply.Body? && a.reply.honoured
    ensures var (parts, end) := Downloaded(part, a); OnTheWay(parts, end, a.card)
  {
    var overlap := Min(|part|, SEAM_WINDOW);
    var start := |part| - overlap;
    var body := a.card[start..];
    var got := Min(a.reply.arrived, |body|);
    if got >= overlap {
      assert body[..overlap] == part[start..];
      assert part + body[overlap..got] == a.card[..start + got];
      GrowingOnTheWay(part + body[overlap..got], |part|, a.card, if got < |body| then Again else Complete);
      hide OnTheWay;
    }
  }

  lemma FreshOnTheWay(part: Bytes, a: Attempt)
    requires a.reply.Body? && (part == [] || !a.reply.honoured)
    ensures var (parts, end) := Downloaded(part, a); OnTheWay(parts, end, a.card)
  {
    var got := Min(a.reply.arrived, |a.card|);
    GrowingOnTheWay(a.card[..got], 0, a.card, if got < |a.card| then Again else Complete);
  }

  lemma AttemptOnTheWay(part: Bytes, size: nat, a: Attempt, offered: set<Bytes>)
    requires HeadsDiffer(offered) && a.card in offered && IsPrefix(part, offered) && ShortcutOk(part, size, a)
    ensures var (parts, end) := Attempted(part, size, a);
      OnTheWay(parts, end, a.card) && (end == Complete ==> LastPart(part, parts) == a.card)
  {
    AttemptedOk(part, size, a, offered);
    if part != [] && ProveLocal(part, size, a.card, a.probe) == Proved { ProvedIsPrefix(part, size, a.card, a.probe, offered); }
    hide HeadsDiffer, ProveLocal, IsPrefix, PartsOk, ShortcutOk, Attempted, OnTheWay, LastPart;
    AttemptGoes(part, size, a);
  }

  lemma AttemptGoes(part: Bytes, size: nat, a: Attempt)
    requires part == [] || ProveLocal(part, size, a.card, a.probe) == Proved ==> part <= a.card
    ensures var (parts, end) := Attempted(part, size, a); OnTheWay(parts, end, a.card)
  {
    if part == [] || ProveLocal(part, size, a.card, a.probe) == Proved { DownloadOnTheWay(part, a); }
    hide ProveLocal, Downloaded;
  }

  lemma DownloadOnTheWay(part: Bytes, a: Attempt)
    requires part <= a.card
    ensures var (parts, end) := Downloaded(part, a); OnTheWay(parts, end, a.card)
  {
    if a.reply.Body? && part != [] && a.reply.honoured {
      ResumedOnTheWay(part, a);
    } else if a.reply.Body? {
      FreshOnTheWay(part, a);
    }
  }

  // ----- the invariant is kept -----

  /** While a download is under way the history stands still. */
  lemma MidwayInv(d: Disk, h: seq<Full>, r: Reader, card: Bytes, parts: seq<Bytes>, end: End, n: nat, offered: set<Bytes>)
    requires Inv(d, h, r, offered) && HeadsDiffer(offered) && card in offered && d.archive.None?
    requires OnTheWay(parts, end, card) && PartsOk(parts, offered)
    requires n < |parts| || (n == |parts| && end != Complete)
    ensures Inv(DiskAt(d, WithParts(d, parts), n), h, r, offered)
  {
    var q := DiskAt(d, WithParts(d, parts), n);
    if n > 0 {
      var part := parts[n - 1];
      assert q == d.(part := part);
      assert IsPrefix(part, offered);
      if part != card { ProperBeginning(part, card, offered); }
      hide StandsTo, HeadsDiffer, DiskAt, WithParts, OnTheWay, PartsOk, IsPrefix;
    } else {
      assert q == d;
      hide Inv;
    }
  }

  /** The download is through: the partial is the latest full fetch, new or not. */
  lemma WholeInv(d: Disk, h: seq<Full>, r: Reader, card: Bytes, parts: seq<Bytes>, offered: set<Bytes>)
    requires Inv(d, h, r, offered) && card in offered && d.archive.None?
    requires PartsOk(parts, offered) && LastPart(d.part, parts) == card
    ensures var d1 := Last(d, WithParts(d, parts));
      var h1 := if parts != [] then h + [Full(d1.part, Open)] else h;
      Inv(d1, h1, r, offered) && d1 == d.(part := card) && (card != [] ==> h1 != [] && Latest(h1) == Full(card, Open))
  {
    hide StandsTo;
    assert h != [] ==> (h + [Full(card, Open)])[|h| - 1] == Latest(h);
    forall note ensures StandsTo(Full(card, Open), note) { OpenStandsTo(card, note); }
  }

  lemma OpenStandsTo(card: Bytes, note: Bytes)
    ensures StandsTo(Full(card, Open), note)
  {
  }

  /** Every step of a verdict keeps the invariant. */
  lemma VerdictInv(d: Disk, h: seq<Full>, size: nat, r: Reader, card: Bytes, m: nat, offered: set<Bytes>)
    requires Inv(d, h, r, offered) && d.archive.None? && d.part == card && card in offered
    requires card != [] ==> h != [] && Latest(h) == Full(card, Open)
    ensures Inv(DiskAt(d, Finished(d, size, r, card).0, m), Judged(h, d, size, r, m), r, offered)
  {
    var states := Finished(d, size, r, card).0;
    VerdictDiskOk(d, size, r, card, m, offered);
    hide DiskOk;
    match r.Judge(d.part)
    case Bad =>
    case Sound => hide StandsTo;
    case Torn =>
      if size != 0 && |d.part| == size { SightingInv(d, h, size, r, card, m, offered); }
      hide TornSighted;
  }

  lemma VerdictDiskOk(d: Disk, size: nat, r: Reader, card: Bytes, m: nat, offered: set<Bytes>)
    requires DiskOk(d, offered) && d.archive.None? && d.part == card && card in offered
    ensures DiskOk(DiskAt(d, Finished(d, size, r, card).0, m), offered)
  {
    var states := Finished(d, size, r, card).0;
    FinishedOk(d, size, r, card, offered);
    hide DiskOk, Finished;
    if 0 < m < |states| { assert states[..m][m - 1] == states[m - 1]; }
  }

  lemma SightingInv(d: Disk, h: seq<Full>, size: nat, r: Reader, card: Bytes, m: nat, offered: set<Bytes>)
    requires h != [] && Latest(h) == Full(card, Open) && card in offered && d.part == card && d.archive.None?
    requires PartInv(d, h, offered) && HistoryInv(d, h, r) && r.Judge(card) == Torn && size != 0 && |card| == size
    ensures var q := DiskAt(d, TornSighted(d, r, card).0, m);
      q.archive.None? ==> PartInv(q, Judged(h, d, size, r, m), offered) && HistoryInv(q, Judged(h, d, size, r, m), r)
  {
    var gone := d.(part := []);
    if SeenBefore(d) && Notable(r, d.part) {
      assert Stored(d, true)[..1] == [d.(sidecar := None)];
      if 0 < m < 5 { assert Stored(d, true)[..m][m - 1] == Stored(d, true)[m - 1]; }
    } else {
      hide Stored;
      assert [gone] + Dropped(gone) == [gone, gone.(candidate := None), gone.(candidate := None, meta := None)];
    }
  }

  /** A download that completes, and `m` steps of the verdict. */
  lemma CompletedInv(d: Disk, h: seq<Full>, size: nat, r: Reader, card: Bytes, parts: seq<Bytes>, m: nat, offered: set<Bytes>)
    requires Inv(d, h, r, offered) && card in offered && d.archive.None?
    requires PartsOk(parts, offered) && LastPart(d.part, parts) == card
    ensures var d1 := Last(d, WithParts(d, parts));
      var h1 := if parts != [] then h + [Full(d1.part, Open)] else h;
      Inv(DiskAt(d1, Finished(d1, size, r, card).0, m), Judged(h1, d1, size, r, m), r, offered)
  {
    var d1 := Last(d, WithParts(d, parts));
    var h1 := if parts != [] then h + [Full(d1.part, Open)] else h;
    WholeInv(d, h, r, card, parts, offered);
    hide Inv, Judged, Finished, PartsOk;
    VerdictInv(d1, h1, size, r, card, m, offered);
  }

  lemma DiskAtEnd(d: Disk, states: seq<Disk>, n: nat)
    requires n >= |states|
    ensures DiskAt(d, states, n) == DiskAt(d, states, |states|) == Last(d, states)
  {
  }

  /** What a fetch goes through after its first attempt. */
  function Afterwards(d1: Disk, size: nat, r: Reader, attempts: seq<Attempt>, end: End): seq<Disk>
    requires attempts != []
  {
    if end == Complete then Finished(d1, size, r, attempts[0].card).0
    else if end == Again then Fetched(d1, size, r, attempts[1..]).0
    else []
  }

  lemma FetchedUnfolds(d: Disk, h: seq<Full>, size: nat, r: Reader, attempts: seq<Attempt>, n: nat)
    requires attempts != []
    ensures var (parts, end) := Attempted(d.part, size, attempts[0]); var d1 := Last(d, WithParts(d, parts));
      && Fetched(d, size, r, attempts).0 == WithParts(d, parts) + Afterwards(d1, size, r, attempts, end)
      && (end == Again ==> Fetched(d, size, r, attempts).1 == Fetched(d1, size, r, attempts[1..]).1)
      && Fetches(h, d, size, r, attempts, n) ==
           if n < |parts| then h
           else if end == Complete then Judged(if parts != [] then h + [Full(d1.part, Open)] else h, d1, size, r, n - |parts|)
           else if end == Again then Fetches(h, d1, size, r, attempts[1..], n - |parts|)
           else h
  {
    hide Attempted, Finished, Judged;
  }

  lemma FirstAttempt(d: Disk, h: seq<Full>, size: nat, r: Reader, attempts: seq<Attempt>, offered: set<Bytes>)
    requires HeadsDiffer(offered) && Offers(attempts, offered) && FreshIndex(d, size, attempts) && attempts != []
    requires Inv(d, h, r, offered)
    ensures var a := attempts[0]; var (parts, end) := Attempted(d.part, size, a); var d1 := Last(d, WithParts(d, parts));
      && a.card in offered && OnTheWay(parts, end, a.card) && PartsOk(parts, offered) && d1.archive == d.archive
      && (end == Complete ==> LastPart(d.part, parts) == a.card)
      && (end == Again ==> Offers(attempts[1..], offered) && FreshIndex(d1, size, attempts[1..]))
  {
    var a := attempts[0];
    hide Attempted, HeadsDiffer, OnTheWay, PartsOk, ShortcutOk, IsPrefix;
    AttemptedOk(d.part, size, a, offered);
    AttemptOnTheWay(d.part, size, a, offered);
  }

  lemma NothingFetched(d: Disk, h: seq<Full>, size: nat, r: Reader, n: nat)
    ensures Fetched(d, size, r, []).0 == [] && Fetches(h, d, size, r, [], n) == h && DiskAt(d, [], n) == d
  {
  }

  /** At every durable step of a fetch. */
  lemma {:induction false} FetchesInv(d: Disk, h: seq<Full>, size: nat, r: Reader, attempts: seq<Attempt>, n: nat, offered: set<Bytes>)
    requires HeadsDiffer(offered) && Offers(attempts, offered) && FreshIndex(d, size, attempts)
    requires Inv(d, h, r, offered) && d.archive.None?
    ensures Inv(DiskAt(d, Fetched(d, size, r, attempts).0, n), Fetches(h, d, size, r, attempts, n), r, offered)
    decreases |attempts|
  {
    hide Attempted, Finished, Inv, HeadsDiffer, OnTheWay, PartsOk, FateAfter, DiskAt, ShortcutOk, Judged, Fetched, Fetches,
      FreshIndex, Offers, WithParts, Last;
    if attempts == [] {
      NothingFetched(d, h, size, r, n);
    } else {
      FetchedUnfolds(d, h, size, r, attempts, n);
      FirstAttempt(d, h, size, r, attempts, offered);
      var a := attempts[0];
      var (parts, end) := Attempted(d.part, size, a);
      var states := WithParts(d, parts);
      var d1 := Last(d, states);
      DiskAtJoin(d, states, Afterwards(d1, size, r, attempts, end), n);
      if n < |parts| {
        MidwayInv(d, h, r, a.card, parts, end, n, offered);
      } else if end == Complete {
        CompletedInv(d, h, size, r, a.card, parts, n - |parts|, offered);
      } else {
        MidwayInv(d, h, r, a.card, parts, end, |parts|, offered);
        DiskAtEnd(d, states, |parts|);
        if end == Again {
          FetchesInv(d1, h, size, r, attempts[1..], n - |parts|, offered);
        } else {
          NothingFetched(d1, h, size, r, n - |parts|);
        }
      }
    }
  }

  // ----- runs -----

  lemma PassTracked(t: Tracked, r: Reader, p: Pass, offered: set<Bytes>)
    requires HeadsDiffer(offered) && PassFair(t.d, p, offered) && Inv(t.d, t.h, r, offered)
    ensures var q := TrackedPass(t, r, p); Inv(q.d, q.h, r, offered)
  {
    if t.d.archive.None? {
      FetchesInv(t.d, t.h, p.size, r, p.attempts, p.steps, offered);
      assert AfterPass(t.d, r, p).0 == DiskAt(t.d, Fetched(t.d, p.size, r, p.attempts).0, p.steps) by { hide Fetched; }
    }
    hide Inv, Fetched, Fetches, HeadsDiffer;
  }

  lemma {:induction false} PassesTracked(t: Tracked, r: Reader, ps: seq<Pass>, offered: set<Bytes>)
    requires HeadsDiffer(offered) && PassesFair(t.d, r, ps, offered) && Inv(t.d, t.h, r, offered)
    ensures var q := TrackedPasses(t, r, ps); Inv(q.d, q.h, r, offered)
    decreases |ps|
  {
    if ps != [] {
      PassTracked(t, r, ps[0], offered);
      hide Inv, HeadsDiffer, PassFair, AfterPass, Fetches;
      PassesTracked(TrackedPass(t, r, ps[0]), r, ps[1..], offered);
    }
  }

  /** A torn chunk is taken: it is the latest full fetch, and the one before stands to the note. */
  ghost predicate TakenAfter(h: seq<Full>, card: Bytes) {
    |h| >= 2 && Latest(h) == Full(card, Archived) && StandsTo(h[|h| - 2], card)
  }

  lemma VerdictTakes(d: Disk, h: seq<Full>, size: nat, r: Reader, card: Bytes, m: nat)
    requires HistoryInv(d, h, r) && d.archive.None? && d.part == card && h != [] && Latest(h) == Full(card, Open)
    requires Finished(d, size, r, card).1.Confirming? && r.Judge(card) == Torn && m >= |Finished(d, size, r, card).0|
    ensures TakenAfter(Judged(h, d, size, r, m), card) && d.meta.Some? && d.meta.value.content == card
  {
    hide StandsTo;
  }

  lemma CompleteTakes(d: Disk, h: seq<Full>, size: nat, r: Reader, card: Bytes, parts: seq<Bytes>, m: nat, offered: set<Bytes>)
    requires Inv(d, h, r, offered) && card in offered && d.archive.None?
    requires PartsOk(parts, offered) && LastPart(d.part, parts) == card && r.Judge(card) == Torn
    requires var d1 := Last(d, WithParts(d, parts));
      Finished(d1, size, r, card).1.Confirming? && m >= |Finished(d1, size, r, card).0|
    ensures var d1 := Last(d, WithParts(d, parts));
      var k := Judged(if parts != [] then h + [Full(d1.part, Open)] else h, d1, size, r, m);
      && TakenAfter(k, card) && d.meta.Some? && d.meta.value.content == card
      && ((d.part != [] && d.part in offered) || k[..|k| - 1] == h)
  {
    var d1 := Last(d, WithParts(d, parts));
    var h1 := if parts != [] then h + [Full(d1.part, Open)] else h;
    WholeInv(d, h, r, card, parts, offered);
    assert d1.meta == d.meta;
    hide Finished, PartsOk, TakenAfter, FateAfter;
    VerdictTakes(d1, h1, size, r, card, m);
    var k := Judged(h1, d1, size, r, m);
    if parts != [] { assert k[..|k| - 1] == h; }
  }

  lemma ConfirmsTheCard(d: Disk, size: nat, r: Reader, card: Bytes)
    ensures Finished(d, size, r, card).1.Confirming? ==> Finished(d, size, r, card).1.card == card
  {
  }

  lemma NotWholeYet(d: Disk, parts: seq<Bytes>, end: End, card: Bytes, offered: set<Bytes>)
    requires HeadsDiffer(offered) && card in offered && OnTheWay(parts, end, card) && end != Complete
    ensures var d1 := Last(d, WithParts(d, parts)); d1.part != [] && d1.part in offered ==> d1.part == d.part
  {
    if parts != [] {
      var last := parts[|parts| - 1];
      if last != [] && last != card { ProperBeginning(last, card, offered); }
      hide HeadsDiffer;
    }
  }

  lemma {:induction false} FetchTakes(d: Disk, h: seq<Full>, size: nat, r: Reader, attempts: seq<Attempt>, n: nat, offered: set<Bytes>)
    requires HeadsDiffer(offered) && Offers(attempts, offered) && FreshIndex(d, size, attempts)
    requires Inv(d, h, r, offered) && d.archive.None?
    requires var (states, result) := Fetched(d, size, r, attempts);
      n >= |states| && result.Confirming? && r.Judge(result.card) == Torn
    ensures var card, k := Fetched(d, size, r, attempts).1.card, Fetches(h, d, size, r, attempts, n);
      && TakenAfter(k, card) && d.meta.Some? && d.meta.value.content == card
      && ((d.part != [] && d.part in offered) || k[..|k| - 1] == h)
    decreases |attempts|
  {
    hide Attempted, Finished, Inv, HeadsDiffer, OnTheWay, PartsOk, FateAfter, ShortcutOk, Judged, FreshIndex, Offers, TakenAfter;
    FirstAttempt(d, h, size, r, attempts, offered);
    var a := attempts[0];
    var (parts, end) := Attempted(d.part, size, a);
    var d1 := Last(d, WithParts(d, parts));
    if end == Complete {
      ConfirmsTheCard(d1, size, r, a.card);
      CompleteTakes(d, h, size, r, a.card, parts, n - |parts|, offered);
    } else {
      MidwayInv(d, h, r, a.card, parts, end, |parts|, offered);
      DiskAtEnd(d, WithParts(d, parts), |parts|);
      assert d1.meta == d.meta;
      NotWholeYet(d, parts, end, a.card, offered);
      FetchTakes(d1, h, size, r, attempts[1..], n - |parts|, offered);
    }
  }

  /** The pass takes a torn chunk: not archived before, it ends in a confirm of a card that is torn. */
  predicate TakesTorn(t: Tracked, r: Reader, p: Pass) {
    t.d.archive.None? && AfterPass(t.d, r, p).1 != [] && r.Judge(AfterPass(t.d, r, p).1[0].card) == Torn
  }

  lemma PassTakes(t: Tracked, r: Reader, p: Pass, offered: set<Bytes>)
    requires HeadsDiffer(offered) && PassFair(t.d, p, offered) && Inv(t.d, t.h, r, offered) && TakesTorn(t, r, p)
    ensures var card, k := AfterPass(t.d, r, p).1[0].card, TrackedPass(t, r, p).h;
      && TakenAfter(k, card) && t.d.meta.Some? && t.d.meta.value.content == card
      && ((t.d.part != [] && t.d.part in offered) || k[..|k| - 1] == t.h)
  {
    hide Inv, Fetched, Fetches, HeadsDiffer, TakenAfter;
    FetchTakes(t.d, t.h, p.size, r, p.attempts, p.steps, offered);
  }

  /** In every run from an empty disk: when a torn chunk is taken, the full fetch before it is equal exactly
      when it was noted, or when it was left without its verdict or without its note and equals the sighting
      noted last. One judged bad, or given up, never is. */
  lemma TornTakenIff(r: Reader, ps: seq<Pass>, p: Pass, offered: set<Bytes>)
    requires HeadsDiffer(offered) && PassesFair(Nothing.d, r, ps, offered)
    requires var t := TrackedPasses(Nothing, r, ps); PassFair(t.d, p, offered) && TakesTorn(t, r, p)
    ensures var t := TrackedPasses(Nothing, r, ps); var card, k := AfterPass(t.d, r, p).1[0].card, TrackedPass(t, r, p).h;
      && |k| >= 2 && Latest(k).content == card && t.d.meta.Some?
      && var before := k[|k| - 2];
         (before.content == card <==>
            before.fate == Noted || (before.fate in {Open, Kept} && before.content == t.d.meta.value.content))
  {
    hide *;
    NothingInv(r, offered);
    PassesTracked(Nothing, r, ps, offered);
    TakenStands(TrackedPasses(Nothing, r, ps), r, p, offered);
  }

  lemma TakenStands(t: Tracked, r: Reader, p: Pass, offered: set<Bytes>)
    requires HeadsDiffer(offered) && PassFair(t.d, p, offered) && Inv(t.d, t.h, r, offered) && TakesTorn(t, r, p)
    ensures var card, k := AfterPass(t.d, r, p).1[0].card, TrackedPass(t, r, p).h;
      && |k| >= 2 && Latest(k).content == card && t.d.meta.Some?
      && var before := k[|k| - 2];
         (before.content == card <==>
            before.fate == Noted || (before.fate in {Open, Kept} && before.content == t.d.meta.value.content))
  {
    hide Inv, HeadsDiffer, AfterPass, Fetches, PassFair;
    PassTakes(t, r, p, offered);
  }

  lemma NothingInv(r: Reader, offered: set<Bytes>)
    ensures Inv(Nothing.d, Nothing.h, r, offered) && Settled(Nothing.d, Nothing.h, offered)
  {
  }

  // ----- runs that are not cut -----

  /** The pass runs to its end, and the index has the length of every card met. */
  ghost predicate Uncut(d: Disk, r: Reader, p: Pass) {
    && p.steps >= |Passed(d, p.size, r, p.attempts).0|
    && forall i :: 0 <= i < |p.attempts| ==> |p.attempts[i].card| == p.size
  }

  ghost predicate AllUncut(d: Disk, r: Reader, ps: seq<Pass>)
    decreases |ps|
  {
    ps == [] || (Uncut(d, r, ps[0]) && AllUncut(AfterPass(d, r, ps[0]).0, r, ps[1..]))
  }

  /** Between uncut passes every full fetch has its verdict. */
  ghost predicate Settled(d: Disk, h: seq<Full>, offered: set<Bytes>) {
    d.archive.None? ==>
      && (d.part == [] || d.part !in offered)
      && (h != [] ==> Latest(h).fate in {Spoilt, Dismissed, Noted} && (Latest(h).fate == Dismissed ==> d.meta.None?))
  }

  lemma VerdictSettles(d: Disk, h: seq<Full>, size: nat, r: Reader, card: Bytes, m: nat, offered: set<Bytes>)
    requires d.archive.None? && d.part == card && |card| == size && m >= |Finished(d, size, r, card).0|
    requires if card == [] then Settled(d, h, offered) else h != []
    ensures Settled(Last(d, Finished(d, size, r, card).0), Judged(h, d, size, r, m), offered)
  {
    hide Stored;
    StoredArchives(d, r.Judge(card) == Torn);
  }

  lemma EmptyCard(part: Bytes, size: nat, a: Attempt)
    ensures a.card == [] && Attempted(part, size, a).1 == Complete ==> Attempted(part, size, a).0 == []
  {
  }

  lemma StoredArchives(d: Disk, torn: bool)
    ensures Stored(d, torn) != [] && Last(d, Stored(d, torn)).archive.Some?
  {
  }

  lemma {:induction false} FetchSettles(d: Disk, h: seq<Full>, size: nat, r: Reader, attempts: seq<Attempt>, n: nat, offered: set<Bytes>)
    requires HeadsDiffer(offered) && Offers(attempts, offered) && FreshIndex(d, size, attempts)
    requires Inv(d, h, r, offered) && Settled(d, h, offered) && d.archive.None?
    requires n >= |Fetched(d, size, r, attempts).0| && forall i :: 0 <= i < |attempts| ==> |attempts[i].card| == size
    ensures Settled(Last(d, Fetched(d, size, r, attempts).0), Fetches(h, d, size, r, attempts, n), offered)
    decreases |attempts|
  {
    hide Attempted, Finished, Inv, HeadsDiffer, OnTheWay, PartsOk, FateAfter, ShortcutOk, Judged, FreshIndex, Offers;
    if attempts != [] {
      FirstAttempt(d, h, size, r, attempts, offered);
      var a := attempts[0];
      var (parts, end) := Attempted(d.part, size, a);
      var states := WithParts(d, parts);
      var d1 := Last(d, states);
      if end == Complete {
        var h1 := if parts != [] then h + [Full(d1.part, Open)] else h;
        var more := Finished(d1, size, r, a.card).0;
        assert d1.part == a.card;
        EmptyCard(d.part, size, a);
        VerdictSettles(d1, h1, size, r, a.card, n - |parts|, offered);
        assert Last(d, states + more) == Last(d1, more);
      } else {
        MidwayInv(d, h, r, a.card, parts, end, |parts|, offered);
        DiskAtEnd(d, states, |parts|);
        NotWholeYet(d, parts, end, a.card, offered);
        assert d1.meta == d.meta && Settled(d1, h, offered);
        if end == Again {
          var more := Fetched(d1, size, r, attempts[1..]).0;
          FetchSettles(d1, h, size, r, attempts[1..], n - |parts|, offered);
          assert Last(d, states + more) == Last(d1, more);
        }
      }
    }
  }

  lemma PassSettles(t: Tracked, r: Reader, p: Pass, offered: set<Bytes>)
    requires HeadsDiffer(offered) && PassFair(t.d, p, offered) && Inv(t.d, t.h, r, offered)
    requires Settled(t.d, t.h, offered) && Uncut(t.d, r, p)
    ensures var q := TrackedPass(t, r, p); Settled(q.d, q.h, offered)
  {
    if t.d.archive.None? {
      hide Inv, Settled, Fetched, Fetches, HeadsDiffer;
      FetchSettles(t.d, t.h, p.size, r, p.attempts, p.steps, offered);
    }
  }

  lemma {:induction false} PassesSettle(t: Tracked, r: Reader, ps: seq<Pass>, offered: set<Bytes>)
    requires HeadsDiffer(offered) && PassesFair(t.d, r, ps, offered) && AllUncut(t.d, r, ps)
    requires Inv(t.d, t.h, r, offered) && Settled(t.d, t.h, offered)
    ensures var q := TrackedPasses(t, r, ps); Settled(q.d, q.h, offered) && Inv(q.d, q.h, r, offered)
    decreases |ps|
  {
    if ps != [] {
      PassTracked(t, r, ps[0], offered);
      PassSettles(t, r, ps[0], offered);
      hide Inv, HeadsDiffer, PassFair, AfterPass, Fetches, Settled, Uncut;
      PassesSettle(TrackedPass(t, r, ps[0]), r, ps[1..], offered);
    }
  }

  lemma SettledTakes(t: Tracked, r: Reader, p: Pass, offered: set<Bytes>)
    requires HeadsDiffer(offered) && PassFair(t.d, p, offered) && Inv(t.d, t.h, r, offered)
    requires Settled(t.d, t.h, offered) && TakesTorn(t, r, p)
    ensures var card, k := AfterPass(t.d, r, p).1[0].card, TrackedPass(t, r, p).h;
      && |k| >= 2 && Latest(k).content == card && k[|k| - 2].fate in {Noted, Spoilt}
      && (k[|k| - 2].content == card <==> k[|k| - 2].fate != Spoilt)
  {
    hide Inv, HeadsDiffer, AfterPass, Fetches, PassFair;
    PassTakes(t, r, p, offered);
    var k := TrackedPass(t, r, p).h;
    assert k[|k| - 2] == k[..|k| - 1][|k| - 2];
  }

  /** In every run from an empty disk none of whose passes is cut, with an index that has the length of every
      card: when a torn chunk is taken, the full fetch before it is equal exactly when it was not judged bad. */
  lemma UncutTakenIff(r: Reader, ps: seq<Pass>, p: Pass, offered: set<Bytes>)
    requires HeadsDiffer(offered) && PassesFair(Nothing.d, r, ps, offered) && AllUncut(Nothing.d, r, ps)
    requires var t := TrackedPasses(Nothing, r, ps); PassFair(t.d, p, offered) && TakesTorn(t, r, p)
    ensures var t := TrackedPasses(Nothing, r, ps); var card, k := AfterPass(t.d, r, p).1[0].card, TrackedPass(t, r, p).h;
      && |k| >= 2 && Latest(k).content == card
      && (k[|k| - 2].content == card <==> k[|k| - 2].fate != Spoilt)
  {
    hide *;
    NothingInv(r, offered);
    PassesSettle(Nothing, r, ps, offered);
    SettledTakes(TrackedPasses(Nothing, r, ps), r, p, offered);
  }

  // ----- three runs -----

  /** A pass over a chunk that is not archived, as its durable states. */
  lemma PassIs(t: Tracked, r: Reader, p: Pass)
    requires t.d.archive.None?
    ensures var (states, result) := Fetched(t.d, p.size, r, p.attempts);
      && TrackedPass(t, r, p) == Tracked(DiskAt(t.d, states, p.steps), Fetches(t.h, t.d, p.size, r, p.attempts, p.steps))
      && AfterPass(t.d, r, p).1 ==
           if p.steps >= |states| && result.Confirming? then [Confirm(result.card, Last(t.d, states))] else []
  {
    hide Fetched, Fetches;
  }

  /** One whole fetch over an empty partial, and `m` steps of its verdict. */
  function Fresh(card: Bytes, m: nat): Pass {
    Pass(|card|, [Attempt(card, Window(0), Body(true, |card|))], |card| + 1 + m)
  }

  lemma FreshFetch(d: Disk, h: seq<Full>, r: Reader, card: Bytes, m: nat) returns (first: seq<Disk>)
    requires d.part == [] && card != []
    ensures var p, d1 := Fresh(card, m), d.(part := card);
      var (more, result) := Finished(d1, |card|, r, card);
      && |first| == |card| + 1 && Last(d, first) == d1
      && Fetched(d, |card|, r, p.attempts) == (first + more, result)
      && Fetches(h, d, |card|, r, p.attempts, p.steps) == Judged(h + [Full(card, Open)], d1, |card|, r, m)
  {
    var a := Fresh(card, m).attempts[0];
    var (parts, end) := Attempted([], |card|, a);
    assert card[..|card|] == card && end == Complete && |parts| == |card| + 1 && parts[|card|] == card;
    hide Attempted, Finished, Judged;
    first := WithParts(d, parts);
  }

  /** The same as a pass. */
  lemma FreshPass(t: Tracked, r: Reader, card: Bytes, m: nat)
    requires t.d.part == [] && t.d.archive.None? && card != []
    ensures var d1 := t.d.(part := card);
      var (more, result) := Finished(d1, |card|, r, card);
      && TrackedPass(t, r, Fresh(card, m)) == Tracked(DiskAt(d1, more, m), Judged(t.h + [Full(card, Open)], d1, |card|, r, m))
      && AfterPass(t.d, r, Fresh(card, m)).1 ==
           (if m >= |more| && result.Confirming? then [Confirm(result.card, Last(d1, more))] else [])
  {
    hide Finished, Judged, Fetches, Fetched, AfterPass, TrackedPass, DiskAt;
    var first := FreshFetch(t.d, t.h, r, card, m);
    var d1 := t.d.(part := card);
    var more := Finished(d1, |card|, r, card).0;
    PassIs(t, r, Fresh(card, m));
    DiskAtJoin(t.d, first, more, |card| + 1 + m);
    LastJoin(t.d, first, more);
  }

  lemma LastJoin(d: Disk, a: seq<Disk>, b: seq<Disk>)
    ensures Last(d, a + b) == Last(Last(d, a), b)
  {
  }

  lemma ThreePasses(t: Tracked, r: Reader, p: Pass, q: Pass, s: Pass)
    ensures var t1 := TrackedPass(t, r, p); var t2 := TrackedPass(t1, r, q); var t3 := TrackedPass(t2, r, s);
      && TrackedPasses(t, r, [p, q, s]) == t3
      && AfterPasses(t.d, r, [p, q, s]) == (t3.d, AfterPass(t.d, r, p).1 + AfterPass(t1.d, r, q).1 + AfterPass(t2.d, r, s).1)
  {
    hide AfterPass, Fetches;
    var t1 := TrackedPass(t, r, p);
    var t2 := TrackedPass(t1, r, q);
    var t3 := TrackedPass(t2, r, s);
    assert [p, q, s][1..] == [q, s] && [q, s][1..] == [s] && [s][1..] == [];
    assert AfterPasses(t3.d, r, []) == (t3.d, []);
    var c1, c2, c3 := AfterPass(t.d, r, p).1, AfterPass(t1.d, r, q).1, AfterPass(t2.d, r, s).1;
    assert AfterPasses(t2.d, r, [s]) == (t3.d, c3 + []) && c3 + [] == c3;
    assert AfterPasses(t1.d, r, [q, s]) == (t3.d, c2 + c3);
    assert c1 + (c2 + c3) == c1 + c2 + c3;
    assert TrackedPasses(t2, r, [s]) == TrackedPasses(t3, r, []) == t3;
    assert TrackedPasses(t1, r, [q, s]) == t3;
  }

  function AfterSighting(a: Bytes): Tracked { Tracked(Disk([], None, Some(a), Some(Meta(a, 1)), None), [Full(a, Noted)]) }

  /** The first sighting of a torn chunk. */
  lemma FirstSighting(r: Reader, a: Bytes)
    requires Notable(r, a)
    ensures a != [] && TrackedPass(Nothing, r, Fresh(a, 9)) == AfterSighting(a)
    ensures AfterPass(Nothing.d, r, Fresh(a, 9)).1 == []
  {
    FreshPass(Nothing, r, a, 9);
    hide Fetches, Fetched, AfterPass, Stored, Dropped;
    assert [] + [Full(a, Open)] == [Full(a, Open)];
  }

  /** A fetch equal to the note is taken, whatever came before it. */
  lemma LastSighting(t: Tracked, r: Reader, a: Bytes)
    requires Notable(r, a) && t.d.part == [] && t.d.archive.None? && t.d.candidate.Some? && t.d.meta.Some? && t.d.meta.value.content == a
    ensures TrackedPass(t, r, Fresh(a, 9)).h == t.h + [Full(a, Archived)]
    ensures var q := TrackedPass(t, r, Fresh(a, 9)).d; q.archive == Some(a) && AfterPass(t.d, r, Fresh(a, 9)).1 == [Confirm(a, q)]
  {
    FreshPass(t, r, a, 9);
    hide Fetches, Fetched, AfterPass;
    assert (t.h + [Full(a, Open)])[|t.h| := Full(a, Archived)] == t.h + [Full(a, Archived)];
  }

  lemma FreshIsFair(d: Disk, card: Bytes, m: nat, offered: set<Bytes>)
    requires card in offered && d.part == []
    ensures PassFair(d, Fresh(card, m), offered)
  {
    hide Attempted;
    var p := Fresh(card, m);
    assert FreshIndex(Last(d, WithParts(d, Attempted(d.part, p.size, p.attempts[0]).0)), p.size, p.attempts[1..]);
  }

  lemma ThreeAreFair(d: Disk, r: Reader, p: Pass, q: Pass, s: Pass, offered: set<Bytes>)
    requires var d1 := AfterPass(d, r, p).0; var d2 := AfterPass(d1, r, q).0;
      PassFair(d, p, offered) && PassFair(d1, q, offered) && PassFair(d2, s, offered)
    ensures PassesFair(d, r, [p, q, s], offered)
  {
    hide AfterPass, PassFair;
    var d1 := AfterPass(d, r, p).0;
    var d2 := AfterPass(d1, r, q).0;
    assert [p, q, s][1..] == [q, s] && [q, s][1..] == [s] && [s][1..] == [];
    assert PassesFair(AfterPass(d2, r, s).0, r, [], offered);
    assert PassesFair(d2, r, [s], offered);
    assert PassesFair(d1, r, [q, s], offered);
  }

  /** `a` is noted, then some other full fetch leaves the note as it is, then `a` comes again. */
  lemma TakenAround(r: Reader, a: Bytes, q: Pass, other: Full, candidate: Bytes, offered: set<Bytes>)
    requires Notable(r, a) && a in offered
    requires var t1 := AfterSighting(a);
      && PassFair(t1.d, q, offered) && AfterPass(t1.d, r, q).1 == []
      && TrackedPass(t1, r, q) == Tracked(Disk([], None, Some(candidate), Some(Meta(a, 1)), None), [Full(a, Noted), other])
    ensures var ps := [Fresh(a, 9), q, Fresh(a, 9)]; var (d, confirms) := AfterPasses(Nothing.d, r, ps);
      && PassesFair(Nothing.d, r, ps, offered) && confirms == [Confirm(a, d)] && d.archive == Some(a)
      && TrackedPasses(Nothing, r, ps).h == [Full(a, Noted), other, Full(a, Archived)]
  {
    var p := Fresh(a, 9);
    FirstSighting(r, a);
    var t1 := TrackedPass(Nothing, r, p);
    var t2 := TrackedPass(t1, r, q);
    LastSighting(t2, r, a);
    FreshIsFair(Nothing.d, a, 9, offered);
    FreshIsFair(t2.d, a, 9, offered);
    hide Fetches, AfterPass, PassFair, Notable, Fresh;
    ThreeAreFair(Nothing.d, r, p, q, p, offered);
    ThreePasses(Nothing, r, p, q, p);
    assert [] + [] + [Confirm(a, TrackedPass(t2, r, p).d)] == [Confirm(a, TrackedPass(t2, r, p).d)];
    hide TrackedPasses, PassesFair, AfterPasses;
  }

  /** `a` noted, `b` kept but not noted, `a`: taken, although the fetch before was another. */
  lemma TakenAfterCut(r: Reader, a: Bytes, b: Bytes)
    requires Notable(r, a) && Notable(r, b) && a != b
    ensures var ps := [Fresh(a, 9), Fresh(b, 1), Fresh(a, 9)]; var (d, confirms) := AfterPasses(Nothing.d, r, ps);
      && PassesFair(Nothing.d, r, ps, {a, b}) && confirms == [Confirm(a, d)] && d.archive == Some(a)
      && TrackedPasses(Nothing, r, ps).h == [Full(a, Noted), Full(b, Kept), Full(a, Archived)]
  {
    var t1 := AfterSighting(a);
    FreshIsFair(t1.d, b, 1, {a, b});
    FreshPass(t1, r, b, 1);
    hide Fetches, Fetched, AfterPass, Stored, Dropped, PassFair, Fresh;
    assert ([Full(a, Noted)] + [Full(b, Open)])[1 := Full(b, Kept)] == [Full(a, Noted), Full(b, Kept)];
    TakenAround(r, a, Fresh(b, 1), Full(b, Kept), b, {a, b});
    hide PassesFair, AfterPasses, TrackedPasses, TrackedPass;
  }

  /** `a` noted, `x` judged bad, `a`: taken, with no pass cut. */
  lemma TakenAfterBad(r: Reader, a: Bytes, x: Bytes)
    requires Notable(r, a) && x != [] && r.Judge(x) == Bad
    ensures var ps := [Fresh(a, 9), Fresh(x, 9), Fresh(a, 9)]; var (d, confirms) := AfterPasses(Nothing.d, r, ps);
      && PassesFair(Nothing.d, r, ps, {a, x}) && confirms == [Confirm(a, d)] && d.archive == Some(a)
      && TrackedPasses(Nothing, r, ps).h == [Full(a, Noted), Full(x, Spoilt), Full(a, Archived)]
  {
    var t1 := AfterSighting(a);
    FreshIsFair(t1.d, x, 9, {a, x});
    FreshPass(t1, r, x, 9);
    hide Fetches, Fetched, AfterPass, Stored, Dropped, PassFair, Fresh;
    assert ([Full(a, Noted)] + [Full(x, Open)])[1 := Full(x, Spoilt)] == [Full(a, Noted), Full(x, Spoilt)];
    TakenAround(r, a, Fresh(x, 9), Full(x, Spoilt), a, {a, x});
    hide PassesFair, AfterPasses, TrackedPasses, TrackedPass;
  }

  /** Drops the partial at a head that does not match, then fetches afresh. */
  function DropAndFresh(card: Bytes, m: nat): Pass {
    Pass(|card|, [Attempt(card, Window(HEAD_WINDOW), ReplyFault(Stumble)), Attempt(card, Window(0), Body(true, |card|))], |card| + 2 + m)
  }

  lemma DropFetch(d: Disk, h: seq<Full>, r: Reader, card: Bytes, m: nat, offered: set<Bytes>)
    requires HeadsDiffer(offered) && d.part in offered && card in offered && d.part != card && d.part != []
    ensures var p, q, d1 := DropAndFresh(card, m), Fresh(card, m), d.(part := []);
      && Fetched(d, |card|, r, p.attempts) == ([d1] + Fetched(d1, |card|, r, q.attempts).0, Fetched(d1, |card|, r, q.attempts).1)
      && Fetches(h, d, |card|, r, p.attempts, p.steps) == Fetches(h, d1, |card|, r, q.attempts, q.steps)
  {
    var p, q, d1 := DropAndFresh(card, m), Fresh(card, m), d.(part := []);
    DropAttempt(d.part, card, offered);
    hide Attempted, HeadsDiffer, Finished, Fetched, Fetches;
    FetchedUnfolds(d, h, |card|, r, p.attempts, p.steps);
    assert p.attempts[1..] == q.attempts && p.steps == q.steps + 1;
    assert WithParts(d, [[]]) == [d1] && Last(d, [d1]) == d1;
  }

  lemma DropAttempt(part: Bytes, card: Bytes, offered: set<Bytes>)
    requires HeadsDiffer(offered) && part in offered && card in offered && part != card && part != []
    ensures Attempted(part, |card|, Attempt(card, Window(HEAD_WINDOW), ReplyFault(Stumble))) == ([[]], Again)
  {
    HeadMismatch(part, card, offered);
    hide HeadsDiffer;
  }

  lemma DropIsFair(d: Disk, card: Bytes, m: nat, offered: set<Bytes>)
    requires HeadsDiffer(offered) && d.part in offered && card in offered && d.part != card && d.part != []
    ensures PassFair(d, DropAndFresh(card, m), offered)
  {
    var p, q, d1 := DropAndFresh(card, m), Fresh(card, m), d.(part := []);
    DropAttempt(d.part, card, offered);
    assert p.attempts[1..] == q.attempts;
    FreshIsFair(d1, card, m, offered);
    hide Attempted, HeadsDiffer;
    assert WithParts(d, [[]]) == [d1] && Last(d, [d1]) == d1;
    assert d.archive.None? ==> FreshIndex(d1, |card|, q.attempts);
  }

  lemma DropFirst(t: Tracked, r: Reader, card: Bytes, m: nat, offered: set<Bytes>)
    requires HeadsDiffer(offered) && t.d.part in offered && card in offered && t.d.part != card && t.d.part != []
    requires t.d.archive.None? && card != []
    ensures var t1 := Tracked(t.d.(part := []), t.h);
      && TrackedPass(t, r, DropAndFresh(card, m)) == TrackedPass(t1, r, Fresh(card, m))
      && AfterPass(t.d, r, DropAndFresh(card, m)).1 == AfterPass(t1.d, r, Fresh(card, m)).1
  {
    var p, q, d1 := DropAndFresh(card, m), Fresh(card, m), t.d.(part := []);
    hide Fetched, Fetches, HeadsDiffer, AfterPass, TrackedPass, DiskAt;
    DropFetch(t.d, t.h, r, card, m, offered);
    PassIs(t, r, p);
    PassIs(Tracked(d1, t.h), r, q);
    var more := Fetched(d1, |card|, r, q.attempts).0;
    assert p.steps == q.steps + 1 && Last(t.d, [d1]) == d1;
    DiskAtJoin(t.d, [d1], more, p.steps);
    LastJoin(t.d, [d1], more);
  }

  lemma HeadMismatch(local: Bytes, card: Bytes, offered: set<Bytes>)
    requires HeadsDiffer(offered) && local in offered && card in offered && local != card && local != []
    ensures ProveLocal(local, |card|, card, Window(HEAD_WINDOW)) == Mismatched
  {
    var k :| 0 <= k < Min(|local|, |card|) && k < HEAD_WINDOW && local[k] != card[k];
    var owed := Min(Min(|local|, HEAD_WINDOW), |card|);
    assert card[..owed][k] != local[..owed][k];
  }

  /** `a` noted; `b` whole, but the pass cut before its verdict and the partial dropped by the next; `a`: taken. */
  lemma TakenAfterNoVerdict(r: Reader, a: Bytes, b: Bytes)
    requires Notable(r, a) && b != [] && HeadsDiffer({a, b}) && a != b
    ensures var ps := [Fresh(a, 9), Fresh(b, 0), DropAndFresh(a, 9)]; var (d, confirms) := AfterPasses(Nothing.d, r, ps);
      && PassesFair(Nothing.d, r, ps, {a, b}) && confirms == [Confirm(a, d)] && d.archive == Some(a)
      && TrackedPasses(Nothing, r, ps).h == [Full(a, Noted), Full(b, Open), Full(a, Archived)]
  {
    hide *;
    FirstSighting(r, a);
    NoVerdictYet(r, a, b);
    NoVerdictThen(r, a, b);
    NoVerdictRun(r, a, b);
  }

  /** With `b` whole on top of a first sighting. */
  function Undecided(a: Bytes, b: Bytes): Tracked {
    Tracked(Disk(b, None, Some(a), Some(Meta(a, 1)), None), [Full(a, Noted), Full(b, Open)])
  }

  lemma NoVerdictYet(r: Reader, a: Bytes, b: Bytes)
    requires b != []
    ensures var t := AfterSighting(a);
      && TrackedPass(t, r, Fresh(b, 0)) == Undecided(a, b) && AfterPass(t.d, r, Fresh(b, 0)).1 == []
      && PassFair(Nothing.d, Fresh(a, 9), {a, b}) && PassFair(t.d, Fresh(b, 0), {a, b})
  {
    var t := AfterSighting(a);
    hide AfterPass, PassFair, Fresh, TrackedPass;
    FreshIsFair(Nothing.d, a, 9, {a, b});
    FreshIsFair(t.d, b, 0, {a, b});
    NoVerdict(t, r, b);
    assert t.h + [Full(b, Open)] == [Full(a, Noted), Full(b, Open)];
  }

  lemma NoVerdictThen(r: Reader, a: Bytes, b: Bytes)
    requires Notable(r, a) && b != [] && HeadsDiffer({a, b}) && a != b
    ensures var t := Undecided(a, b); var q := TrackedPass(t, r, DropAndFresh(a, 9));
      && PassFair(t.d, DropAndFresh(a, 9), {a, b}) && q.d.archive == Some(a)
      && AfterPass(t.d, r, DropAndFresh(a, 9)).1 == [Confirm(a, q.d)] && q.h == t.h + [Full(a, Archived)]
  {
    var t := Undecided(a, b);
    var t1 := Tracked(t.d.(part := []), t.h);
    assert a != [];
    hide AfterPass, PassFair, Fresh, DropAndFresh, TrackedPass, HeadsDiffer, Notable;
    DropIsFair(t.d, a, 9, {a, b});
    DropFirst(t, r, a, 9, {a, b});
    LastSighting(t1, r, a);
  }

  lemma NoVerdictRun(r: Reader, a: Bytes, b: Bytes)
    requires var p, q, s, t1, t2 := Fresh(a, 9), Fresh(b, 0), DropAndFresh(a, 9), AfterSighting(a), Undecided(a, b);
      && TrackedPass(Nothing, r, p) == t1 && AfterPass(Nothing.d, r, p).1 == [] && PassFair(Nothing.d, p, {a, b})
      && TrackedPass(t1, r, q) == t2 && AfterPass(t1.d, r, q).1 == [] && PassFair(t1.d, q, {a, b})
      && var t3 := TrackedPass(t2, r, s);
         && t3.d.archive == Some(a) && AfterPass(t2.d, r, s).1 == [Confirm(a, t3.d)] && t3.h == t2.h + [Full(a, Archived)]
         && PassFair(t2.d, s, {a, b})
    ensures var ps := [Fresh(a, 9), Fresh(b, 0), DropAndFresh(a, 9)]; var (d, confirms) := AfterPasses(Nothing.d, r, ps);
      && PassesFair(Nothing.d, r, ps, {a, b}) && confirms == [Confirm(a, d)] && d.archive == Some(a)
      && TrackedPasses(Nothing, r, ps).h == [Full(a, Noted), Full(b, Open), Full(a, Archived)]
  {
    var p, q, s := Fresh(a, 9), Fresh(b, 0), DropAndFresh(a, 9);
    hide Fetches, AfterPass, PassFair, Fresh, DropAndFresh;
    ThreeAreFair(Nothing.d, r, p, q, s, {a, b});
    ThreePasses(Nothing, r, p, q, s);
    var last := [Confirm(a, TrackedPass(Undecided(a, b), r, s).d)];
    assert [] + [] + last == last;
    hide TrackedPasses, PassesFair, AfterPasses;
  }

  lemma NoVerdict(t: Tracked, r: Reader, b: Bytes)
    requires t.d.part == [] && t.d.archive.None? && b != []
    ensures TrackedPass(t, r, Fresh(b, 0)) == Tracked(t.d.(part := b), t.h + [Full(b, Open)])
    ensures AfterPass(t.d, r, Fresh(b, 0)).1 == []
  {
    FreshPass(t, r, b, 0);
    VerdictIsDurable(t.d.(part := b), r);
    hide Fetches, Fetched, AfterPass, Finished, Fresh, TrackedPass;
    var h := t.h + [Full(b, Open)];
    assert h[|h| - 1 := Full(b, Open)] == h;
    NoStatesYet(t.d.(part := b), Finished(t.d.(part := b), |b|, r, b).0);
  }

  lemma VerdictIsDurable(d: Disk, r: Reader)
    requires d.archive.None? && d.part != []
    ensures Finished(d, |d.part|, r, d.part).0 != []
  {
  }

  lemma NoStatesYet(d: Disk, states: seq<Disk>)
    ensures DiskAt(d, states, 0) == d
  {
  }
}
