/** Reading a signal out of a payload. Both byte orders, computed in two quite different ways, give the
    number whose bit k is the payload bit that carries significance k. */
module SignalExtract {
  import opened Bits
  import opened Binary
  import opened PatchRules
  import opened SignalGeometry

  // ----- the value of a field -----

  predicate Present(data: Payload, dlc: nat, v: Visit)
    requires v.byteIndex < MAX_DATA && v.bit < 8
  {
    v.byteIndex < dlc && Bit(data[v.byteIndex], v.bit)
  }

  /** The field's bits by significance; bytes at or beyond the length read as zero. */
  function BitsOf(f: Field, data: Payload, dlc: nat): (bits: seq<bool>)
    requires Fits(f)
    ensures |bits| == f.len
  {
    seq(f.len, k requires 0 <= k < f.len => Present(data, dlc, BitOf(f, k)))
  }

  function ValueOf(f: Field, data: Payload, dlc: nat): nat
    requires Fits(f)
  {
    Number(BitsOf(f, data, dlc), 0)
  }

  /** Motorola: collect the bits from the most significant one down. */
  method ExtractBitsBe(data: Payload, dlc: nat, f: Field) returns (value: nat)
    requires f.big && Fits(f)
    ensures value == ValueOf(f, data, dlc)
  {
    hide ShiftLeft, RawBit, Bit, OrBit, Visits;
    var visited := ForEachSignalBit(f);
    ghost var bits := BitsOf(f, data, dlc);
    value := 0;
    var n := 0;
    assert ShiftLeft(0, f.len) == 0 by { LeftAdds(0, 0, f.len); }
    while n < |visited|
      invariant 0 <= n <= |visited| == f.len
      invariant value == ShiftLeft(Number(bits, f.len - n), f.len - n)
    {
      var v := visited[n];
      ghost var k := f.len - 1 - n;
      assert v == BitOf(f, k) && bits[k] == Present(data, dlc, v);
      LeftOfDouble(Number(bits, k + 1), k);
      if v.byteIndex < dlc && Bit(data[v.byteIndex], v.bit) {
        OrBelow(Number(bits, k + 1), k);
        value := OrBit(value, v.k);
      }
      n := n + 1;
    }
    NoShift(Number(bits, 0));
  }

  lemma NoShift(x: nat)
    ensures ShiftLeft(x, 0) == x && ShiftRight(x, 0) == x
  {
  }

  function BitsOfByte(b: bv8): (bits: seq<bool>)
    ensures |bits| == 8
  {
    seq(8, i requires 0 <= i < 8 => Bit(b, i))
  }

  function ByteValue(b: bv8): nat { Number(BitsOfByte(b), 0) }

  /** The first `n` bytes as bits, byte 0 lowest. */
  function BitsOfBytes(data: Payload, n: nat): (bits: seq<bool>)
    requires n <= MAX_DATA
    ensures |bits| == 8 * n
    ensures forall pos :: 0 <= pos < 8 * n ==> bits[pos] == Bit(data[pos / 8], pos % 8)
  {
    if n == 0 then [] else BitsOfBytes(data, n - 1) + BitsOfByte(data[n - 1])
  }

  /** Intel: the bytes as one little-endian word, shifted and masked. */
  method ExtractBits(data: Payload, dlc: nat, f: Field) returns (value: nat)
    requires !f.big && Fits(f)
    ensures value == ValueOf(f, data, dlc)
  {
    var word, i := 0, 0;
    var limit := Limit(dlc);
    while i < limit
      invariant 0 <= i <= limit && word == Number(BitsOfBytes(data, i), 0)
    {
      NumberJoin(BitsOfBytes(data, i), BitsOfByte(data[i]), 0);
      word := word + ShiftLeft(ByteValue(data[i]), 8 * i);
      i := i + 1;
    }
    value := ShiftRight(word, f.start) % Pow2(f.len);
    WordField(data, dlc, f);
  }

  lemma WordField(data: Payload, dlc: nat, f: Field)
    requires !f.big && Fits(f)
    ensures ShiftRight(Number(BitsOfBytes(data, Limit(dlc)), 0), f.start) % Pow2(f.len) == ValueOf(f, data, dlc)
  {
    hide ShiftRight, Pow2, Bit, BitsOfBytes;
    var bytes := BitsOfBytes(data, Limit(dlc));
    var word := Number(bytes, 0);
    var x := ShiftRight(word, f.start);
    NoShift(x);
    LowBitsValue(x, f.len, 0);
    assert LowBits(x, f.len) == BitsOf(f, data, dlc) by {
      forall k | 0 <= k < f.len ensures RawBit(x, k) == BitsOf(f, data, dlc)[k] {
        RightThenRight(word, f.start, k);
        NumberBit(bytes, 0, f.start + k);
      }
    }
  }

  /** Reading back an encoded value: the field of the encoded bits is the value modulo 2^len. */
  lemma RoundTrip(f: Field, raw: nat)
    requires Fits(f)
    ensures ValueOf(f, FieldBits(f, raw), MAX_DATA) == raw % Pow2(f.len)
  {
    hide ShiftRight, Pow2, RawBit, FieldBits;
    NoShift(raw);
    LowBitsValue(raw, f.len, 0);
    assert LowBits(raw, f.len) == BitsOf(f, FieldBits(f, raw), MAX_DATA) by {
      forall k | 0 <= k < f.len ensures RawBit(raw, k) == BitsOf(f, FieldBits(f, raw), MAX_DATA)[k] {
        EncodedBit(f, raw, k);
      }
    }
  }

  lemma EncodedBit(f: Field, raw: nat, k: nat)
    requires Fits(f) && k < f.len
    ensures Present(FieldBits(f, raw), MAX_DATA, BitOf(f, k)) <==> RawBit(raw, k)
  {
    hide RawBit, Visits, Bit, FieldBits, VisitAt;
    var v, s := BitOf(f, k), StepOf(f, k);
    assert s < Visits(f) && VisitAt(f, s) == v && v.k == k;
    SamePlace(Position(v) / 8, Position(v) % 8, v.byteIndex, v.bit);
    EncodedField(f, raw, Position(v));
  }
}
