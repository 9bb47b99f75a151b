/** LIN identifiers and checksums (sections 2.3.1.3 and 2.3.1.5 of the LIN 2.2A specification). */
module LinFrames {
  import opened Bits
  import Arithmetic

  const MAX_DATA_SIZE := 8

  /** Six identifier bits and the two parity bits above them. */
  function PidOf(id: bv8): bv8 {
    var p0 := (id ^ (id >> 1) ^ (id >> 2) ^ (id >> 4)) & 0x01;
    var p1 := !((id >> 1) ^ (id >> 3) ^ (id >> 4) ^ (id >> 5)) & 0x01;
    id | (p0 << 6) | (p1 << 7)
  }

  function IdOf(pid: bv8): bv8 { pid & 0x3F }

  lemma IdOfPid(id: bv8)
    requires id <= 0x3F
    ensures IdOf(PidOf(id)) == id
  {
  }

  /** Any single bit error in a protected identifier breaks its parity. */
  lemma ParityCatchesOneBit(id: bv8, bit: nat)
    requires id <= 0x3F && bit < 8
    ensures var bad := PidOf(id) ^ Mask8(bit); PidOf(IdOf(bad)) != bad
  {
  }

  /** How many of the identifier's bits at these places are set. */
  function Ones(id: bv8, places: seq<nat>): nat
    requires forall i :: 0 <= i < |places| ==> places[i] < 8
  {
    if places == [] then 0
    else Ones(id, places[..|places| - 1]) + if id & Mask8(places[|places| - 1]) != 0 then 1 else 0
  }

  lemma OneMorePlace(id: bv8, places: seq<nat>, k: nat)
    requires k < 8 && forall i :: 0 <= i < |places| ==> places[i] < 8
    ensures Ones(id, places + [k]) == Ones(id, places) + if id & Mask8(k) != 0 then 1 else 0
  {
    assert (places + [k])[..|places|] == places;
  }

  lemma FourOnes(id: bv8, a: nat, b: nat, c: nat, d: nat)
    requires a < 8 && b < 8 && c < 8 && d < 8
    ensures Ones(id, [a, b, c, d]) ==
      (if id & Mask8(a) != 0 then 1 else 0) + (if id & Mask8(b) != 0 then 1 else 0) +
      (if id & Mask8(c) != 0 then 1 else 0) + (if id & Mask8(d) != 0 then 1 else 0)
  {
    OneMorePlace(id, [], a);
    OneMorePlace(id, [a], b);
    OneMorePlace(id, [a, b], c);
    OneMorePlace(id, [a, b, c], d);
    assert [] + [a] == [a] && [a] + [b] == [a, b] && [a, b] + [c] == [a, b, c] && [a, b, c] + [d] == [a, b, c, d];
  }

  /** The two parity bits: even parity over bits 0, 1, 2 and 4, odd parity over bits 1, 3, 4 and 5. */
  lemma ParityIs(id: bv8)
    requires id <= 0x3F
    ensures PidOf(id) & 0x40 != 0 <==> Ones(id, [0, 1, 2, 4]) % 2 == 1
    ensures PidOf(id) & 0x80 != 0 <==> Ones(id, [1, 3, 4, 5]) % 2 == 0
  {
    FourOnes(id, 0, 1, 2, 4);
    FourOnes(id, 1, 3, 4, 5);
    hide Ones;
    assert Mask8(0) == 1 && Mask8(1) == 2 && Mask8(2) == 4 && Mask8(3) == 8 && Mask8(4) == 16 && Mask8(5) == 32;
    ParityBits(id);
  }

  lemma ParityBits(id: bv8)
    requires id <= 0x3F
    ensures PidOf(id) & 0x40 != 0 <==>
      ((id & 1 != 0) != (id & 2 != 0)) != ((id & 4 != 0) != (id & 16 != 0))
    ensures PidOf(id) & 0x80 != 0 <==>
      ((id & 2 != 0) != (id & 8 != 0)) == ((id & 16 != 0) != (id & 32 != 0))
  {
  }

  predicate IsDiagnostic(id: bv8) { id == 0x3C || id == 0x3D }

  function Val(b: bv8): (n: nat)
    ensures n <= 0xFF
  {
    b as nat
  }

  function Inverted(n: nat): (b: bv8)
    requires n <= 0xFF
    ensures Val(b) == 0xFF - n
  {
    (0xFF - n) as bv8
  }

  function Sum(data: seq<bv8>): nat {
    if data == [] then 0 else Sum(data[..|data| - 1]) + Val(data[|data| - 1])
  }

  /** Carries are folded back in until the sum fits a byte. */
  function Fold(sum: nat): (r: nat)
    ensures r <= 0xFF
    decreases sum
  {
    if sum <= 0xFF then sum else Fold(sum % 0x100 + sum / 0x100)
  }

  function Start(id: bv8, enhanced: bool): nat {
    if enhanced && !IsDiagnostic(id) then Val(PidOf(id)) else 0
  }

  function Checksum(pidOrId: bv8, data: seq<bv8>, enhanced: bool): bv8 {
    Inverted(Fold(Start(IdOf(pidOrId), enhanced) + Sum(data)))
  }

  lemma MultiplesDrop(q: nat, x: nat)
    ensures (0xFF * q + x) % 0xFF == x % 0xFF
  {
    var k, y := x / 0xFF, x % 0xFF;
    assert 0xFF * q + x == (q + k) * 0xFF + y;
    Arithmetic.ResidueOfSum(q + k, y, 0xFF);
  }

  lemma {:induction false} FoldResidue(sum: nat)
    ensures Fold(sum) % 0xFF == sum % 0xFF
    ensures sum > 0 ==> Fold(sum) > 0
    decreases sum
  {
    if sum > 0xFF {
      var q, r := sum / 0x100, sum % 0x100;
      assert sum == 0xFF * q + (r + q);
      FoldResidue(r + q);
      MultiplesDrop(q, r + q);
    }
  }

  /** The property a receiver can check: the sum of everything, checksum included, folds to 0xFF. */
  lemma ChecksumCloses(id: bv8, data: seq<bv8>, enhanced: bool)
    ensures Fold(Start(IdOf(id), enhanced) + Sum(data) + Val(Checksum(id, data, enhanced))) == 0xFF
  {
    hide Sum, Start, Val, Inverted;
    FoldCloses(Start(IdOf(id), enhanced) + Sum(data));
    hide Fold;
  }

  lemma FoldCloses(s: nat)
    ensures Fold(s + (0xFF - Fold(s))) == 0xFF
  {
    var f := Fold(s);
    FoldResidue(s);
    FoldResidue(s + (0xFF - f));
    hide Fold;
    var t, q := s + (0xFF - f), s / 0xFF;
    assert s % 0xFF == f % 0xFF;
    Closes(s, f);
    assert Fold(t) % 0xFF == 0 && Fold(t) > 0;
  }

  lemma Closes(s: nat, f: nat)
    requires s % 0xFF == f % 0xFF && f <= 0xFF && (s > 0 <==> f > 0)
    ensures (s + (0xFF - f)) % 0xFF == 0 && s + (0xFF - f) > 0
  {
    var q, r := s / 0xFF, s % 0xFF;
    assert s == q * 0xFF + r;
    if f == 0xFF {
      assert s + (0xFF - f) == q * 0xFF;
      Arithmetic.ResidueOfSum(q, 0, 0xFF);
    } else {
      assert f == r;
      assert s + (0xFF - f) == (q + 1) * 0xFF;
      Arithmetic.ResidueOfSum(q + 1, 0, 0xFF);
    }
  }

  /** A diagnostic identifier has one checksum, whatever mode is asked for. */
  lemma DiagnosticIsClassic(id: bv8, data: seq<bv8>)
    requires IsDiagnostic(IdOf(id))
    ensures Checksum(id, data, true) == Checksum(id, data, false)
  {
  }

  /** The loops as they run. */
  method CalculateChecksum(pidOrId: bv8, data: seq<bv8>, enhanced: bool) returns (cs: bv8)
    ensures cs == Checksum(pidOrId, data, enhanced)
  {
    hide PidOf, Val, Inverted, IdOf;
    var id := IdOf(pidOrId);
    var sum: nat := 0;
    if enhanced && !IsDiagnostic(id) {
      sum := Val(PidOf(id));
    }
    var i := 0;
    while i < |data|
      invariant 0 <= i <= |data| && sum == Start(id, enhanced) + Sum(data[..i])
    {
      assert data[..i + 1][..i] == data[..i];
      sum := sum + Val(data[i]);
      i := i + 1;
    }
    assert data[..i] == data;
    ghost var total := sum;
    hide Start, Sum;
    while sum > 0xFF
      invariant Fold(sum) == Fold(total)
    {
      sum := sum % 0x100 + sum / 0x100;
    }
    cs := Inverted(sum);
  }
}
