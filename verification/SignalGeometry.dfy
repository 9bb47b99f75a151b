/** Which payload bits a signal occupies: Intel fields count up from their least significant bit,
    Motorola fields walk down a byte and continue at bit 7 of the next one. Bits are numbered
    8 * byte + bit. */
module SignalGeometry {
  import opened Words
  import opened Bits
  import opened Binary
  import opened PatchRules

  const PAYLOAD_BITS := 64
  const MAX_FIELD_BITS := 32

  datatype Field = Field(start: byte, len: byte, big: bool)

  /** One call of the visitor: a bit of the payload and its significance in the field. */
  datatype Visit = Visit(byteIndex: nat, bit: nat, k: nat)

  /** Place of the first visited bit in visiting order. */
  function Origin(f: Field): nat {
    if f.big then f.start / 8 * 8 + (7 - f.start % 8) else f.start
  }

  function Visits(f: Field): (n: nat)
    ensures n <= f.len && n <= MAX_FIELD_BITS
    ensures n > 0 ==> Origin(f) + n <= PAYLOAD_BITS
  {
    if f.len == 0 || f.len > MAX_FIELD_BITS || Origin(f) >= PAYLOAD_BITS then 0
    else Min(f.len, PAYLOAD_BITS - Origin(f))
  }

  function VisitAt(f: Field, step: nat): (v: Visit)
    requires step < Visits(f)
    ensures v.byteIndex < MAX_DATA && v.bit < 8 && v.k < f.len
    ensures 8 * v.byteIndex + (if f.big then 7 - v.bit else v.bit) == Origin(f) + step
    ensures v.k == if f.big then f.len - 1 - step else step
  {
    var at := Origin(f) + step;
    if f.big then Visit(at / 8, 7 - at % 8, f.len - 1 - step) else Visit(at / 8, at % 8, step)
  }

  /** The whole field lies inside the payload. */
  predicate Fits(f: Field) {
    f.len > 0 && Visits(f) == f.len
  }

  function Position(v: Visit): nat { 8 * v.byteIndex + v.bit }

  /** The visitor's loops: an early return once the walk leaves the payload. */
  method ForEachSignalBit(f: Field) returns (visited: seq<Visit>)
    ensures |visited| == Visits(f)
    ensures forall s :: 0 <= s < |visited| ==> visited[s] == VisitAt(f, s)
  {
    visited := [];
    if f.len == 0 || f.len > MAX_FIELD_BITS {
      return;
    }
    if !f.big {
      var k := 0;
      while k < f.len
        invariant 0 <= k <= f.len && |visited| == k <= Visits(f)
        invariant forall s :: 0 <= s < k ==> visited[s] == VisitAt(f, s)
      {
        var pos := f.start + k;
        if pos >= PAYLOAD_BITS {
          return;
        }
        visited := visited + [Visit(pos / 8, pos % 8, k)];
        k := k + 1;
      }
      return;
    }
    var byteIndex, bit := f.start / 8, f.start % 8;
    var step := 0;
    while step < f.len
      invariant 0 <= step <= f.len && |visited| == step <= Visits(f) && 0 <= bit < 8
      invariant 8 * byteIndex + (7 - bit) == Origin(f) + step
      invariant forall s :: 0 <= s < step ==> visited[s] == VisitAt(f, s)
    {
      if byteIndex >= MAX_DATA {
        return;
      }
      visited := visited + [Visit(byteIndex, bit, f.len - 1 - step)];
      if bit == 0 {
        bit, byteIndex := 7, byteIndex + 1;
      } else {
        bit := bit - 1;
      }
      step := step + 1;
    }
  }

  /** The configuration-time check is the same question. */
  method SignalFitsFrame(f: Field) returns (fits: bool)
    ensures fits <==> Fits(f)
  {
    if f.len == 0 || f.len > MAX_FIELD_BITS || f.start >= PAYLOAD_BITS {
      return false;
    }
    var visited := ForEachSignalBit(f);
    fits := |visited| == f.len;
  }

  /** Payload bit `pos` belongs to the field. */
  ghost predicate Covers(f: Field, pos: nat) {
    exists s :: 0 <= s < Visits(f) && Position(VisitAt(f, s)) == pos
  }

  /** The walk visits no bit twice, and every significance of a fitting field exactly once. */
  lemma NoBitTwice(f: Field, s: nat, t: nat)
    requires s < Visits(f) && t < Visits(f)
    ensures Position(VisitAt(f, s)) == Position(VisitAt(f, t)) <==> s == t
    ensures VisitAt(f, s).k == VisitAt(f, t).k <==> s == t
  {
    hide VisitAt, Origin, Visits;
    var v, w := VisitAt(f, s), VisitAt(f, t);
    if Position(v) == Position(w) {
      SamePlace(v.byteIndex, v.bit, w.byteIndex, w.bit);
    }
  }

  lemma SamePlace(a: nat, x: nat, b: nat, y: nat)
    requires x < 8 && y < 8 && 8 * a + x == 8 * b + y
    ensures a == b && x == y
  {
  }

  function StepOf(f: Field, k: nat): (s: nat)
    requires Fits(f) && k < f.len
    ensures s < Visits(f) && VisitAt(f, s).k == k
  {
    if f.big then f.len - 1 - k else k
  }

  /** The payload bit that carries significance `k`. */
  function BitOf(f: Field, k: nat): (v: Visit)
    requires Fits(f) && k < f.len
    ensures v.byteIndex < MAX_DATA && v.bit < 8 && Covers(f, Position(v))
  {
    VisitAt(f, StepOf(f, k))
  }

  // ----- masks -----

  predicate BitAt(p: Payload, pos: nat)
    requires pos < PAYLOAD_BITS
  {
    Bit(p[pos / 8], pos % 8)
  }

  function Blank(): Payload { [0, 0, 0, 0, 0, 0, 0, 0] }

  function WithBit(p: Payload, v: Visit): Payload
    requires v.byteIndex < MAX_DATA && v.bit < 8
  {
    p[v.byteIndex := p[v.byteIndex] | Mask8(v.bit)]
  }

  /** The mask after the first `n` visits. */
  function MaskSoFar(f: Field, n: nat): Payload
    requires n <= Visits(f)
  {
    if n == 0 then Blank() else WithBit(MaskSoFar(f, n - 1), VisitAt(f, n - 1))
  }

  /** The bits of `raw` gathered by then. */
  function BitsSoFar(f: Field, raw: nat, n: nat): Payload
    requires n <= Visits(f)
  {
    if n == 0 then Blank()
    else
      var v := VisitAt(f, n - 1);
      if RawBit(raw, v.k) then WithBit(BitsSoFar(f, raw, n - 1), v) else BitsSoFar(f, raw, n - 1)
  }

  function FieldMask(f: Field): Payload { MaskSoFar(f, Visits(f)) }

  function FieldBits(f: Field, raw: nat): Payload { BitsSoFar(f, raw, Visits(f)) }

  lemma SetAt(p: Payload, v: Visit, pos: nat)
    requires v.byteIndex < MAX_DATA && v.bit < 8 && pos < PAYLOAD_BITS
    ensures BitAt(WithBit(p, v), pos) <==> Position(v) == pos || BitAt(p, pos)
  {
    BitSet(p[v.byteIndex], v.bit, pos % 8);
    hide Bit, Mask8;
  }

  /** One of the first `n` visits is to `pos`, and `raw` has that visit's bit set when `one` asks for it. */
  ghost predicate Hit(f: Field, raw: nat, n: nat, pos: nat, one: bool)
    requires n <= Visits(f)
  {
    exists s :: 0 <= s < n && Position(VisitAt(f, s)) == pos && (one ==> RawBit(raw, VisitAt(f, s).k))
  }

  lemma HitStep(f: Field, raw: nat, n: nat, pos: nat, one: bool)
    requires 0 < n <= Visits(f)
    ensures Hit(f, raw, n, pos, one) <==>
      Hit(f, raw, n - 1, pos, one) ||
      (Position(VisitAt(f, n - 1)) == pos && (one ==> RawBit(raw, VisitAt(f, n - 1).k)))
  {
    hide VisitAt, Position, RawBit, Visits;
  }

  lemma BlankAt(pos: nat)
    requires pos < PAYLOAD_BITS
    ensures !BitAt(Blank(), pos)
  {
    assert Blank()[pos / 8] == 0;
    BitOfZero(pos % 8);
  }

  lemma {:induction false} MaskAt(f: Field, n: nat, pos: nat)
    requires n <= Visits(f) && pos < PAYLOAD_BITS
    ensures BitAt(MaskSoFar(f, n), pos) <==> Hit(f, 0, n, pos, false)
  {
    if n == 0 {
      BlankAt(pos);
    } else {
      hide BitAt, Hit, VisitAt, Position, Visits, WithBit;
      MaskAt(f, n - 1, pos);
      SetAt(MaskSoFar(f, n - 1), VisitAt(f, n - 1), pos);
      HitStep(f, 0, n, pos, false);
    }
  }

  lemma {:induction false} BitsAt(f: Field, raw: nat, n: nat, pos: nat)
    requires n <= Visits(f) && pos < PAYLOAD_BITS
    ensures BitAt(BitsSoFar(f, raw, n), pos) <==> Hit(f, raw, n, pos, true)
  {
    if n == 0 {
      BlankAt(pos);
    } else {
      hide BitAt, Hit, VisitAt, Position, Visits, WithBit, RawBit;
      BitsAt(f, raw, n - 1, pos);
      SetAt(BitsSoFar(f, raw, n - 1), VisitAt(f, n - 1), pos);
      HitStep(f, raw, n, pos, true);
    }
  }

  /** The encoded mask is the field, and the encoded bits are the raw value's, bit for bit. */
  lemma EncodedField(f: Field, raw: nat, pos: nat)
    requires pos < PAYLOAD_BITS
    ensures BitAt(FieldMask(f), pos) <==> Covers(f, pos)
    ensures BitAt(FieldBits(f, raw), pos) ==> Covers(f, pos)
    ensures forall s :: 0 <= s < Visits(f) && Position(VisitAt(f, s)) == pos ==>
      (BitAt(FieldBits(f, raw), pos) <==> RawBit(raw, VisitAt(f, s).k))
  {
    MaskAt(f, Visits(f), pos);
    BitsAt(f, raw, Visits(f), pos);
    hide BitAt, RawBit;
    forall s, t | 0 <= s < Visits(f) && 0 <= t < Visits(f) && Position(VisitAt(f, s)) == Position(VisitAt(f, t))
      ensures s == t {
      NoBitTwice(f, s, t);
    }
  }

  method SetBit(p: array<bv8>, v: Visit)
    requires p.Length == MAX_DATA && v.byteIndex < MAX_DATA && v.bit < 8
    modifies p
    ensures p[..] == WithBit(old(p[..]), v)
  {
    p[v.byteIndex] := p[v.byteIndex] | Mask8(v.bit);
  }

  /** ORs the field's mask and bits into two eight-byte buffers. */
  method SignalEncode(f: Field, raw: u32, mask: array<bv8>, bits: array<bv8>)
    requires mask.Length == MAX_DATA && bits.Length == MAX_DATA && mask != bits
    requires mask[..] == Blank() && bits[..] == Blank()
    modifies mask, bits
    ensures mask[..] == FieldMask(f) && bits[..] == FieldBits(f, raw)
  {
    hide RawBit, VisitAt, Visits, WithBit;
    var visited := ForEachSignalBit(f);
    var n := 0;
    while n < |visited|
      invariant 0 <= n <= |visited|
      invariant mask[..] == MaskSoFar(f, n) && bits[..] == BitsSoFar(f, raw, n)
    {
      var v := visited[n];
      SetBit(mask, v);
      if RawBit(raw, v.k) {
        SetBit(bits, v);
      }
      n := n + 1;
    }
  }
}
