/** The configuration step that accepts a patch and compiles its masks: the walk over a field's bits, the
    claim of every payload bit by at most one entry, and the packing. */
module PatchConfig {
  import opened Words
  import opened Bits
  import opened PatchRules
  import opened SignalGeometry
  import opened RulePatches
  import opened PatchBoot

  function PositionOf(f: Field, k: nat): nat
    requires Fits(f) && k < f.len
  {
    Position(BitOf(f, k))
  }

  /** One more step of the walk stays in the payload. */
  lemma InWalk(f: Field, step: nat)
    requires 0 < f.len <= MAX_FIELD_BITS && step < f.len && step <= Visits(f)
    ensures step < Visits(f) <==> Origin(f) + step < PAYLOAD_BITS
  {
    hide Origin;
  }

  lemma WalkPlace(f: Field, step: nat, byteIndex: nat, bit: nat)
    requires step < Visits(f) && bit < 8 && 8 * byteIndex + (if f.big then 7 - bit else bit) == Origin(f) + step
    ensures Position(VisitAt(f, step)) == 8 * byteIndex + bit
  {
    hide VisitAt, Origin, Visits;
    var v := VisitAt(f, step);
    SamePlace(v.byteIndex, if f.big then 7 - v.bit else v.bit, byteIndex, if f.big then 7 - bit else bit);
  }

  /** Intel: bit by bit upwards. */
  method CountUp(f: Field) returns (walked: Option<seq<nat>>)
    requires !f.big && 0 < f.len <= MAX_FIELD_BITS
    ensures walked.Some? <==> Fits(f)
    ensures walked.Some? ==> |walked.value| == f.len && forall s :: 0 <= s < f.len ==> walked.value[s] == Position(VisitAt(f, s))
  {
    assert Origin(f) == f.start;
    hide VisitAt, Visits, Origin, Position;
    var all: seq<nat>, k := [], 0;
    while k < f.len
      invariant 0 <= k <= f.len && |all| == k <= Visits(f)
      invariant forall s :: 0 <= s < k ==> all[s] == Position(VisitAt(f, s))
    {
      var pos := f.start + k;
      InWalk(f, k);
      if pos >= PAYLOAD_BITS {
        return None;
      }
      WalkPlace(f, k, pos / 8, pos % 8);
      all := all + [8 * (pos / 8) + pos % 8];
      k := k + 1;
    }
    walked := Some(all);
  }

  /** Motorola: down a byte, and on at bit 7 of the next. */
  method WalkDown(f: Field) returns (walked: Option<seq<nat>>)
    requires f.big && 0 < f.len <= MAX_FIELD_BITS
    ensures walked.Some? <==> Fits(f)
    ensures walked.Some? ==> |walked.value| == f.len && forall s :: 0 <= s < f.len ==> walked.value[s] == Position(VisitAt(f, s))
  {
    var byteIndex, bit, step, all: seq<nat> := f.start / 8, f.start % 8, 0, [];
    assert 8 * byteIndex + (7 - bit) == Origin(f);
    hide VisitAt, Visits, Origin, Position;
    while step < f.len
      invariant 0 <= step <= f.len && |all| == step <= Visits(f) && 0 <= bit < 8
      invariant 8 * byteIndex + (7 - bit) == Origin(f) + step
      invariant forall s :: 0 <= s < step ==> all[s] == Position(VisitAt(f, s))
    {
      InWalk(f, step);
      if byteIndex >= MAX_DATA {
        return None;
      }
      WalkPlace(f, step, byteIndex, bit);
      all := all + [8 * byteIndex + bit];
      if bit == 0 {
        byteIndex, bit := byteIndex + 1, 7;
      } else {
        bit := bit - 1;
      }
      step := step + 1;
    }
    walked := Some(all);
  }

  /** The field's cells by significance, or nothing when it leaves the payload: the cells the firmware's
      visitor goes through. The length is one the schema lets through. */
  method SignalBits(f: Field) returns (cells: Option<seq<nat>>)
    requires 0 < f.len <= MAX_FIELD_BITS
    ensures cells.Some? <==> Fits(f)
    ensures cells.Some? ==> |cells.value| == f.len && forall k :: 0 <= k < f.len ==> cells.value[k] == PositionOf(f, k)
  {
    hide VisitAt, Visits, Position;
    if !f.big {
      cells := CountUp(f);
      return;
    }
    var walked := WalkDown(f);
    if walked.None? {
      return None;
    }
    var w := walked.value;
    cells := Some(seq(|w|, k requires 0 <= k < |w| => w[|w| - 1 - k]));
  }

  ghost predicate DistinctCells(cells: seq<nat>) {
    forall i, j :: 0 <= i < j < |cells| ==> cells[i] != cells[j]
  }

  lemma FieldCells(f: Field, cells: seq<nat>)
    requires Fits(f) && |cells| == f.len && forall k :: 0 <= k < f.len ==> cells[k] == PositionOf(f, k)
    ensures DistinctCells(cells) && forall pos :: pos in cells <==> Covers(f, pos)
  {
    hide VisitAt, Position, Visits;
    forall i, j | 0 <= i < j < |cells| ensures cells[i] != cells[j] {
      NoBitTwice(f, StepOf(f, i), StepOf(f, j));
    }
    forall pos | Covers(f, pos) ensures pos in cells {
      var s :| 0 <= s < Visits(f) && Position(VisitAt(f, s)) == pos;
      var k := VisitAt(f, s).k;
      NoBitTwice(f, s, StepOf(f, k));
      assert cells[k] == pos;
    }
  }

  /** The bits of one masked byte. */
  method ByteCells(b: BytePatch) returns (cells: seq<nat>)
    requires b.index < MAX_DATA
    ensures DistinctCells(cells) && forall pos: nat :: pos in cells <==> ByteClaims(b, pos)
  {
    hide Bit;
    cells := [];
    var bit := 0;
    while bit < 8
      invariant 0 <= bit <= 8 && DistinctCells(cells)
      invariant forall pos: nat :: pos in cells <==> ByteClaims(b, pos) && pos % 8 < bit
    {
      PositionParts(b.index, bit);
      assert forall k :: 0 <= k < |cells| ==> cells[k] in cells;
      if Bit(b.mask, bit) {
        cells := cells + [8 * b.index + bit];
      }
      bit := bit + 1;
    }
  }

  /** One entry's cells are claimed; a cell somebody has already is an error. */
  method Claim(owner: set<nat>, cells: seq<nat>) returns (r: Option<set<nat>>)
    requires DistinctCells(cells)
    ensures r.Some? <==> forall pos :: pos in cells ==> pos !in owner
    ensures r.Some? ==> forall pos :: pos in r.value <==> pos in owner || pos in cells
  {
    var all, k := owner, 0;
    while k < |cells|
      invariant 0 <= k <= |cells|
      invariant forall i :: 0 <= i < k ==> cells[i] !in owner
      invariant forall pos :: pos in all <==> pos in owner || pos in cells[..k]
    {
      if cells[k] in all {
        return None;
      }
      all := all + {cells[k]};
      assert cells[..k + 1] == cells[..k] + [cells[k]];
      k := k + 1;
    }
    assert cells[..k] == cells;
    r := Some(all);
  }

  /** What the schema of the single entries guarantees. */
  ghost predicate InRange(r: PatchRule) {
    && (forall i :: 0 <= i < |r.bytes| ==> r.bytes[i].index < MAX_DATA)
    && (forall i :: 0 <= i < |r.signals| ==> Fits(r.signals[i].field))
  }

  /** No bit is claimed by two of the first `bytes` byte entries and `signals` signals. */
  ghost predicate Apart(r: PatchRule, bytes: nat, signals: nat)
    requires bytes <= |r.bytes| && signals <= |r.signals|
  {
    && (forall i, j, pos: nat :: 0 <= i < j < bytes && ByteClaims(r.bytes[i], pos) ==> !ByteClaims(r.bytes[j], pos))
    && (forall i, j, pos: nat :: 0 <= i < j < signals && Covers(r.signals[i].field, pos) ==> !Covers(r.signals[j].field, pos))
    && (forall i, j, pos: nat :: 0 <= i < bytes && 0 <= j < signals && ByteClaims(r.bytes[i], pos) ==>
          !Covers(r.signals[j].field, pos))
  }

  lemma ApartIsConfigOk(r: PatchRule)
    requires InRange(r)
    ensures Apart(r, |r.bytes|, |r.signals|) <==> ConfigOk(r)
  {
    hide Covers, ByteClaims, Fits;
    if Apart(r, |r.bytes|, |r.signals|) {
      forall i, j | 0 <= i < |r.signals| && 0 <= j < |r.signals| && i != j ensures Disjoint(r.signals[i].field, r.signals[j].field) {
        if i > j {
          forall pos: nat | Covers(r.signals[i].field, pos) ensures !Covers(r.signals[j].field, pos) {}
        }
      }
    }
    if ConfigOk(r) {
      forall i, j, pos: nat | 0 <= i < j < |r.signals| && Covers(r.signals[i].field, pos) ensures !Covers(r.signals[j].field, pos) {
        assert Disjoint(r.signals[i].field, r.signals[j].field);
      }
    }
  }

  lemma ApartByte(r: PatchRule, n: nat)
    requires n < |r.bytes|
    ensures Apart(r, n + 1, 0) <==> Apart(r, n, 0) && forall pos: nat :: ByteClaims(r.bytes[n], pos) ==> !Claimed(r, n, 0, pos)
  {
    hide ByteClaims, Covers;
  }

  lemma ApartSignal(r: PatchRule, n: nat)
    requires n < |r.signals|
    ensures Apart(r, |r.bytes|, n + 1) <==>
      Apart(r, |r.bytes|, n) && forall pos: nat :: Covers(r.signals[n].field, pos) ==> !Claimed(r, |r.bytes|, n, pos)
  {
    hide ByteClaims, Covers;
  }

  lemma NotApart(r: PatchRule, bytes: nat, signals: nat)
    requires InRange(r) && bytes <= |r.bytes| && signals <= |r.signals| && !Apart(r, bytes, signals)
    ensures !ConfigOk(r)
  {
    ApartIsConfigOk(r);
    hide ByteClaims, Covers, ConfigOk;
  }

  lemma ClaimedMore(r: PatchRule, bytes: nat, signals: nat, pos: nat)
    requires bytes <= |r.bytes| && signals <= |r.signals|
    ensures bytes < |r.bytes| ==> (Claimed(r, bytes + 1, signals, pos) <==> Claimed(r, bytes, signals, pos) || ByteClaims(r.bytes[bytes], pos))
    ensures signals < |r.signals| ==>
      (Claimed(r, bytes, signals + 1, pos) <==> Claimed(r, bytes, signals, pos) || Covers(r.signals[signals].field, pos))
  {
    hide ByteClaims, Covers;
  }

  /** The claims of the byte entries. */
  method ClaimBytes(r: PatchRule) returns (owner: Option<set<nat>>)
    requires InRange(r)
    ensures owner.Some? <==> Apart(r, |r.bytes|, 0)
    ensures owner.None? ==> !ConfigOk(r)
    ensures owner.Some? ==> forall pos: nat :: pos in owner.value <==> Claimed(r, |r.bytes|, 0, pos)
  {
    assert Apart(r, 0, 0);
    hide ConfigOk, ByteClaims, Covers, Fits, Apart;
    var all, i := {}, 0;
    while i < |r.bytes|
      invariant 0 <= i <= |r.bytes| && Apart(r, i, 0)
      invariant forall pos: nat :: pos in all <==> Claimed(r, i, 0, pos)
    {
      ApartByte(r, i);
      var cells := ByteCells(r.bytes[i]);
      var more := Claim(all, cells);
      forall pos: nat ensures Claimed(r, i + 1, 0, pos) <==> Claimed(r, i, 0, pos) || ByteClaims(r.bytes[i], pos) {
        ClaimedMore(r, i, 0, pos);
      }
      hide Claimed;
      if more.None? {
        NotApart(r, i + 1, 0);
        NeverApart(r, i + 1, 0, |r.bytes|, 0);
        return None;
      }
      all, i := more.value, i + 1;
    }
    owner := Some(all);
  }

  lemma NeverApart(r: PatchRule, bytes: nat, signals: nat, b: nat, s: nat)
    requires bytes <= b <= |r.bytes| && signals <= s <= |r.signals| && !Apart(r, bytes, signals)
    ensures !Apart(r, b, s)
  {
    hide ByteClaims, Covers;
  }

  /** The owner of every patched bit; refused exactly when two entries claim the same one. */
  method PayloadCells(r: PatchRule) returns (owner: Option<set<nat>>)
    requires InRange(r)
    ensures owner.Some? <==> ConfigOk(r)
    ensures owner.Some? ==> forall pos: nat :: pos in owner.value <==> Claimed(r, |r.bytes|, |r.signals|, pos)
  {
    ApartIsConfigOk(r);
    hide ConfigOk, ByteClaims, Covers, Fits, Apart, Claimed;
    owner := ClaimBytes(r);
    if owner.None? {
      return;
    }
    var all, j := owner.value, 0;
    while j < |r.signals|
      invariant 0 <= j <= |r.signals| && Apart(r, |r.bytes|, j)
      invariant forall pos: nat :: pos in all <==> Claimed(r, |r.bytes|, j, pos)
    {
      ApartSignal(r, j);
      FitsLength(r.signals[j].field);
      var cells := SignalBits(r.signals[j].field);
      FieldCells(r.signals[j].field, cells.value);
      var more := Claim(all, cells.value);
      forall pos: nat
        ensures Claimed(r, |r.bytes|, j + 1, pos) <==> Claimed(r, |r.bytes|, j, pos) || Covers(r.signals[j].field, pos) {
        ClaimedMore(r, |r.bytes|, j, pos);
      }
      if more.None? {
        NotApart(r, |r.bytes|, j + 1);
        return None;
      }
      all, j := more.value, j + 1;
    }
    owner := Some(all);
  }

  lemma FitsLength(f: Field)
    requires Fits(f)
    ensures 0 < f.len <= MAX_FIELD_BITS
  {
  }

  /** The masks packed entry by entry: a signal without a boot value is declared but passes through. */
  method PackedPatchMasks(r: PatchRule) returns (m: Masks)
    requires ConfigOk(r)
    ensures m == Packed(r, |r.bytes|, |r.signals|)
  {
    hide ConfigOk, WithSignalMask, WithByteMask;
    m := Masks(Identity8(), Blank(), Blank());
    var i := 0;
    while i < |r.bytes|
      invariant 0 <= i <= |r.bytes| && m == Packed(r, i, 0)
    {
      assert r.bytes[i].index < MAX_DATA by { ByteInRange(r, i); }
      m := WithByteMask(m, r.bytes[i]);
      i := i + 1;
    }
    var j := 0;
    while j < |r.signals|
      invariant 0 <= j <= |r.signals| && m == Packed(r, |r.bytes|, j)
    {
      m := WithSignalMask(m, r.signals[j]);
      j := j + 1;
    }
  }

  lemma ByteInRange(r: PatchRule, i: nat)
    requires ConfigOk(r) && i < |r.bytes|
    ensures r.bytes[i].index < MAX_DATA
  {
  }
}
