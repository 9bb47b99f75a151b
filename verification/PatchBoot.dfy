/** The masks that configuration compiles into a rule: the patch a runtime-updatable rule starts from
    and the bits it may ever touch. */
module PatchBoot {
  import opened Words
  import opened Bits
  import opened Binary
  import opened PatchRules
  import opened SignalGeometry
  import opened RulePatches

  datatype Masks = Masks(andMask: Payload, orValue: Payload, declared: Payload)

  function Identity8(): Payload { [0xFF, 0xFF, 0xFF, 0xFF, 0xFF, 0xFF, 0xFF, 0xFF] }

  ghost predicate ByteClaims(b: BytePatch, pos: nat) {
    pos / 8 == b.index && Bit(b.mask, pos % 8)
  }

  /** What configuration accepts: indices and fields inside the payload, no bit claimed twice. */
  ghost predicate ConfigOk(r: PatchRule) {
    && (forall i :: 0 <= i < |r.bytes| ==> r.bytes[i].index < MAX_DATA)
    && (forall i :: 0 <= i < |r.signals| ==> Fits(r.signals[i].field))
    && (forall i, j, pos: nat :: 0 <= i < j < |r.bytes| && ByteClaims(r.bytes[i], pos) ==> !ByteClaims(r.bytes[j], pos))
    && (forall i, j :: 0 <= i < |r.signals| && 0 <= j < |r.signals| && i != j ==>
          Disjoint(r.signals[i].field, r.signals[j].field))
    && (forall i, j, pos: nat :: 0 <= i < |r.bytes| && 0 <= j < |r.signals| && ByteClaims(r.bytes[i], pos) ==>
          !Covers(r.signals[j].field, pos))
  }

  function WithByteMask(m: Masks, b: BytePatch): Masks
    requires b.index < MAX_DATA
  {
    var i := b.index;
    Masks(m.andMask[i := Clear8(m.andMask[i], b.mask)],
          m.orValue[i := Raise8(m.orValue[i], Both8(b.value, b.mask))],
          m.declared[i := Raise8(m.declared[i], b.mask)])
  }

  function WithSignalMask(m: Masks, s: SignalPatch): Masks {
    var mask := FieldMask(s.field);
    var fence := seq(MAX_DATA, i requires 0 <= i < MAX_DATA => Raise8(m.declared[i], mask[i]));
    match s.boot
    case None => m.(declared := fence)
    case Some(raw) =>
      var bits := FieldBits(s.field, raw);
      Masks(seq(MAX_DATA, i requires 0 <= i < MAX_DATA => Clear8(m.andMask[i], mask[i])),
            seq(MAX_DATA, i requires 0 <= i < MAX_DATA => Raise8(m.orValue[i], bits[i])), fence)
  }

  ghost function Packed(r: PatchRule, bytes: nat, signals: nat): Masks
    requires ConfigOk(r) && bytes <= |r.bytes| && signals <= |r.signals|
  {
    if signals > 0 then WithSignalMask(Packed(r, bytes, signals - 1), r.signals[signals - 1])
    else if bytes > 0 then WithByteMask(Packed(r, bytes - 1, 0), r.bytes[bytes - 1])
    else Masks(Identity8(), Blank(), Blank())
  }

  function PatchOf(m: Masks): PatchData { PatchData(0, false, false, m.andMask, m.orValue) }

  ghost predicate Claimed(r: PatchRule, bytes: nat, signals: nat, pos: nat)
    requires bytes <= |r.bytes| && signals <= |r.signals|
  {
    (exists i :: 0 <= i < bytes && ByteClaims(r.bytes[i], pos)) ||
    (exists j :: 0 <= j < signals && Covers(r.signals[j].field, pos))
  }

  /** One bit of the compiled masks: values only under cleared mask bits, those only where declared,
      and declared exactly what some entry claims. */
  ghost predicate CellOk(m: Masks, r: PatchRule, bytes: nat, signals: nat, pos: nat)
    requires bytes <= |r.bytes| && signals <= |r.signals| && pos < PAYLOAD_BITS
  {
    && (BitAt(m.orValue, pos) ==> !BitAt(m.andMask, pos))
    && (!BitAt(m.andMask, pos) ==> BitAt(m.declared, pos))
    && (BitAt(m.declared, pos) <==> Claimed(r, bytes, signals, pos))
  }

  ghost predicate BootInv(m: Masks, r: PatchRule, bytes: nat, signals: nat)
    requires bytes <= |r.bytes| && signals <= |r.signals|
  {
    && (forall pos :: 0 <= pos < PAYLOAD_BITS ==> CellOk(m, r, bytes, signals, pos))
    && (forall j :: 0 <= j < signals ==> Shows(PatchOf(m), r.signals[j].field, r.signals[j].boot))
    && (forall i, pos :: 0 <= i < bytes && 0 <= pos < PAYLOAD_BITS && ByteClaims(r.bytes[i], pos) ==>
          CellAt(PatchOf(m), pos) == Stamp(Bit(r.bytes[i].value, pos % 8)))
  }

  lemma ByteMaskAt(m: Masks, b: BytePatch, pos: nat)
    requires b.index < MAX_DATA && pos < PAYLOAD_BITS
    ensures var q := WithByteMask(m, b); var hit := ByteClaims(b, pos);
      && BitAt(q.andMask, pos) == (BitAt(m.andMask, pos) && !hit)
      && BitAt(q.orValue, pos) == (BitAt(m.orValue, pos) || (hit && Bit(b.value, pos % 8)))
      && BitAt(q.declared, pos) == (BitAt(m.declared, pos) || hit)
  {
    var i, j := pos / 8, pos % 8;
    BitMasked(m.andMask[i], 0, b.mask, j);
    BitMasked(b.value, 0, b.mask, j);
    BitMasked(m.orValue[i], 0, Both8(b.value, b.mask), j);
    BitMasked(m.declared[i], 0, b.mask, j);
    hide Bit, Clear8, Raise8, Both8;
  }

  lemma SignalMaskAt(m: Masks, s: SignalPatch, pos: nat)
    requires pos < PAYLOAD_BITS
    ensures var q := WithSignalMask(m, s); var hit := Covers(s.field, pos);
      && BitAt(q.andMask, pos) == (BitAt(m.andMask, pos) && !(hit && s.boot.Some?))
      && BitAt(q.orValue, pos) == (BitAt(m.orValue, pos) || (s.boot.Some? && BitAt(FieldBits(s.field, s.boot.value), pos)))
      && BitAt(q.declared, pos) == (BitAt(m.declared, pos) || hit)
  {
    var i, j := pos / 8, pos % 8;
    var raw := if s.boot.Some? then s.boot.value else 0;
    EncodedField(s.field, raw, pos);
    BitMasked(m.andMask[i], 0, FieldMask(s.field)[i], j);
    BitMasked(m.orValue[i], 0, FieldBits(s.field, raw)[i], j);
    BitMasked(m.declared[i], 0, FieldMask(s.field)[i], j);
    hide Bit, Clear8, Raise8, FieldMask, FieldBits, Covers;
  }

  lemma ByteStep(m: Masks, r: PatchRule, n: nat)
    requires ConfigOk(r) && n < |r.bytes| && BootInv(m, r, n, 0)
    ensures BootInv(WithByteMask(m, r.bytes[n]), r, n + 1, 0)
  {
    var b, q, next := r.bytes[n], WithByteMask(m, r.bytes[n]), n + 1;
    hide WithByteMask, BitAt, Covers, Bit;
    forall pos | 0 <= pos < PAYLOAD_BITS ensures CellOk(q, r, next, 0, pos) {
      ByteMaskAt(m, b, pos);
      assert CellOk(m, r, n, 0, pos);
      hide ByteClaims;
    }
    forall i, pos | 0 <= i < next && 0 <= pos < PAYLOAD_BITS && ByteClaims(r.bytes[i], pos)
      ensures CellAt(PatchOf(q), pos) == Stamp(Bit(r.bytes[i].value, pos % 8)) {
      ByteMaskAt(m, b, pos);
      assert CellOk(m, r, n, 0, pos);
      if i < n {
        assert CellAt(PatchOf(m), pos) == Stamp(Bit(r.bytes[i].value, pos % 8));
        assert !ByteClaims(b, pos);
      } else {
        assert !Claimed(r, n, 0, pos);
      }
    }
  }

  lemma SignalStep(m: Masks, r: PatchRule, n: nat)
    requires ConfigOk(r) && n < |r.signals| && BootInv(m, r, |r.bytes|, n)
    ensures BootInv(WithSignalMask(m, r.signals[n]), r, |r.bytes|, n + 1)
  {
    var s, q, next := r.signals[n], WithSignalMask(m, r.signals[n]), n + 1;
    hide WithSignalMask, BitAt, Bit, FieldBits, RawBit;
    forall pos | 0 <= pos < PAYLOAD_BITS ensures CellOk(q, r, |r.bytes|, next, pos) {
      SignalMaskAt(m, s, pos);
      if s.boot.Some? { EncodedField(s.field, s.boot.value, pos); }
      assert CellOk(m, r, |r.bytes|, n, pos);
      hide Covers, ByteClaims;
    }
    forall j | 0 <= j < next ensures Shows(PatchOf(q), r.signals[j].field, r.signals[j].boot) {
      SignalShows(m, r, n, j);
    }
    forall i, pos | 0 <= i < |r.bytes| && 0 <= pos < PAYLOAD_BITS && ByteClaims(r.bytes[i], pos)
      ensures CellAt(PatchOf(q), pos) == Stamp(Bit(r.bytes[i].value, pos % 8)) {
      SignalMaskAt(m, s, pos);
      if s.boot.Some? { EncodedField(s.field, s.boot.value, pos); }
      assert CellAt(PatchOf(m), pos) == Stamp(Bit(r.bytes[i].value, pos % 8));
      assert !Covers(s.field, pos);
    }
  }

  lemma SignalShows(m: Masks, r: PatchRule, n: nat, j: nat)
    requires ConfigOk(r) && n < |r.signals| && BootInv(m, r, |r.bytes|, n) && j <= n
    ensures Shows(PatchOf(WithSignalMask(m, r.signals[n])), r.signals[j].field, r.signals[j].boot)
  {
    var s, g, q := r.signals[n], r.signals[j], WithSignalMask(m, r.signals[n]);
    hide WithSignalMask, BitAt, Bit, FieldBits, RawBit;
    forall t | 0 <= t < Visits(g.field)
      ensures CellAt(PatchOf(q), Position(VisitAt(g.field, t))) ==
        match g.boot case None => Pass case Some(raw) => Stamp(RawBit(raw, VisitAt(g.field, t).k)) {
      var pos := Position(VisitAt(g.field, t));
      assert Covers(g.field, pos);
      SignalMaskAt(m, s, pos);
      if s.boot.Some? { EncodedField(s.field, s.boot.value, pos); }
      assert CellOk(m, r, |r.bytes|, n, pos);
      if j < n {
        assert Disjoint(g.field, s.field);
        assert Shows(PatchOf(m), g.field, g.boot);
      } else {
        assert !Claimed(r, |r.bytes|, n, pos);
      }
    }
  }

  lemma {:induction false} PackedOk(r: PatchRule, bytes: nat, signals: nat)
    requires ConfigOk(r) && bytes <= |r.bytes| && signals <= |r.signals| && (signals > 0 ==> bytes == |r.bytes|)
    ensures BootInv(Packed(r, bytes, signals), r, bytes, signals)
  {
    if signals > 0 {
      PackedOk(r, bytes, signals - 1);
      SignalStep(Packed(r, bytes, signals - 1), r, signals - 1);
    } else if bytes > 0 {
      PackedOk(r, bytes - 1, 0);
      ByteStep(Packed(r, bytes - 1, 0), r, bytes - 1);
    } else {
      forall pos | 0 <= pos < PAYLOAD_BITS
        ensures !BitAt(Blank(), pos) && BitAt(Identity8(), pos) {
        BlankAt(pos);
        assert Identity8()[pos / 8] == 0xFF;
        BitOfZero(pos % 8);
      }
    }
  }

  function BootValues(r: PatchRule): (boot: seq<Option<nat>>)
    ensures |boot| == |r.signals|
    ensures forall i :: 0 <= i < |boot| ==> boot[i] == r.signals[i].boot
  {
    seq(|r.signals|, i requires 0 <= i < |r.signals| => r.signals[i].boot)
  }

  /** A rule starts with its signals showing their boot values, fenced by exactly the bits it declares:
      the start every run of the setters refines from. */
  lemma BootRefines(r: PatchRule, p: PatchData)
    requires ConfigOk(r)
    requires p.andMask == Packed(r, |r.bytes|, |r.signals|).andMask && p.orValue == Packed(r, |r.bytes|, |r.signals|).orValue
    ensures var declared := Packed(r, |r.bytes|, |r.signals|).declared;
      && RuleOk(r, declared) && Refines(Banks(p, p), Settings(BootValues(r), BootValues(r)), r, declared)
      && forall pos :: 0 <= pos < PAYLOAD_BITS ==> (BitAt(declared, pos) <==> Claimed(r, |r.bytes|, |r.signals|, pos))
  {
    var m := Packed(r, |r.bytes|, |r.signals|);
    PackedOk(r, |r.bytes|, |r.signals|);
    hide Packed, BitAt, Covers, ByteClaims, CellAt;
    BootFenced(m, r, p);
    BootShows(m, r, p);
    forall j | 0 <= j < |r.signals| ensures Declared(m.declared, r.signals[j].field) {
      ClaimedIsDeclared(m, r, j);
    }
    hide ShowsAll, Fenced, Claimed, Declared, BootInv, Disjoint;
  }

  lemma BootFenced(m: Masks, r: PatchRule, p: PatchData)
    requires BootInv(m, r, |r.bytes|, |r.signals|) && p.andMask == m.andMask && p.orValue == m.orValue
    ensures Fenced(p, m.declared)
    ensures forall pos :: 0 <= pos < PAYLOAD_BITS ==> (BitAt(m.declared, pos) <==> Claimed(r, |r.bytes|, |r.signals|, pos))
  {
    hide BitAt, Claimed, Shows;
    forall pos | 0 <= pos < PAYLOAD_BITS
      ensures BitAt(p.orValue, pos) ==> !BitAt(p.andMask, pos)
      ensures !BitAt(p.andMask, pos) ==> BitAt(m.declared, pos)
      ensures BitAt(m.declared, pos) <==> Claimed(r, |r.bytes|, |r.signals|, pos) {
      assert CellOk(m, r, |r.bytes|, |r.signals|, pos);
    }
  }

  lemma BootShows(m: Masks, r: PatchRule, p: PatchData)
    requires BootInv(m, r, |r.bytes|, |r.signals|) && p.andMask == m.andMask && p.orValue == m.orValue
    ensures ShowsAll(p, r, BootValues(r))
  {
    hide CellOk, Shows, ByteClaims;
    forall j | 0 <= j < |r.signals| ensures Shows(p, r.signals[j].field, r.signals[j].boot) {
      SamePatchShows(PatchOf(m), p, r.signals[j].field, r.signals[j].boot);
    }
  }

  lemma ClaimedIsDeclared(m: Masks, r: PatchRule, j: nat)
    requires BootInv(m, r, |r.bytes|, |r.signals|) && j < |r.signals|
    ensures Declared(m.declared, r.signals[j].field)
  {
    hide BitAt, Covers, CellAt, ByteClaims, Shows;
    forall pos | 0 <= pos < PAYLOAD_BITS && Covers(r.signals[j].field, pos) ensures BitAt(m.declared, pos) {
      assert CellOk(m, r, |r.bytes|, |r.signals|, pos);
      assert Claimed(r, |r.bytes|, |r.signals|, pos);
    }
  }

  lemma SamePatchShows(p: PatchData, q: PatchData, f: Field, setting: Option<nat>)
    requires Shows(p, f, setting) && p.andMask == q.andMask && p.orValue == q.orValue
    ensures Shows(q, f, setting)
  {
  }
}
