/** Identities of eight-bit words, each small enough for the solver to decide at once. `Xor8` is a name
    for exclusive or that longer proofs can treat as a black box. */
module Bits {
  function Xor8(x: bv8, y: bv8): bv8 { x ^ y }

  lemma ShiftXor(x: bv8, y: bv8)
    ensures Xor8(x, y) << 1 == Xor8(x << 1, y << 1)
  {
  }

  lemma TopXor(x: bv8, y: bv8)
    ensures (Xor8(x, y) & 0x80 != 0) == ((x & 0x80 != 0) != (y & 0x80 != 0))
  {
  }

  lemma XorCancel(a: bv8, b: bv8, p: bv8)
    ensures Xor8(Xor8(a, b), p) == Xor8(Xor8(a, p), b)
    ensures Xor8(Xor8(a, b), p) == Xor8(a, Xor8(b, p))
    ensures Xor8(Xor8(a, p), Xor8(b, p)) == Xor8(a, b)
  {
  }

  lemma XorAssociates(a: bv8, b: bv8, c: bv8)
    ensures Xor8(Xor8(a, b), c) == Xor8(a, Xor8(b, c))
    ensures Xor8(a, b) == Xor8(b, a)
  {
  }

  lemma XorSwap(a: bv8, b: bv8, c: bv8, d: bv8)
    ensures Xor8(Xor8(a, b), Xor8(c, d)) == Xor8(Xor8(a, c), Xor8(b, d))
  {
    hide Xor8;
    XorAssociates(a, b, Xor8(c, d));
    XorAssociates(b, c, d);
    XorAssociates(c, b, d);
    XorAssociates(a, c, Xor8(b, d));
  }

  lemma XorZero(x: bv8)
    ensures Xor8(x, 0) == x && Xor8(x, x) == 0
  {
  }

  lemma XorBetween(a: bv8, b: bv8, x: bv8)
    ensures Xor8(b, x) == Xor8(Xor8(a, x), Xor8(a, b))
  {
  }

  lemma OrZero(x: bv8, y: bv8)
    ensures x | y == 0 <==> x == 0 && y == 0
  {
  }

  lemma Identity(x: bv8)
    ensures (x & 0xFF) | 0 == x
  {
  }

  // ----- single bits -----

  /** The mask of bit `i`. */
  function Mask8(i: nat): bv8
    requires i < 8
  {
    match i
    case 0 => 0x01
    case 1 => 0x02
    case 2 => 0x04
    case 3 => 0x08
    case 4 => 0x10
    case 5 => 0x20
    case 6 => 0x40
    case _ => 0x80
  }

  predicate Bit(x: bv8, i: nat)
    requires i < 8
  {
    x & Mask8(i) != 0
  }

  lemma BitOfZero(i: nat)
    requires i < 8
    ensures !Bit(0, i) && Bit(0xFF, i)
  {
  }

  lemma BitSet(x: bv8, i: nat, j: nat)
    requires i < 8 && j < 8
    ensures Bit(x | Mask8(i), j) <==> i == j || Bit(x, j)
  {
  }

  lemma BitPatched(d: bv8, a: bv8, o: bv8, i: nat)
    requires i < 8
    ensures Bit((d & a) | o, i) <==> (Bit(d, i) && Bit(a, i)) || Bit(o, i)
  {
  }

  lemma BitAndNot(x: bv8, m: bv8, i: nat)
    requires i < 8
    ensures Bit(x & !m, i) <==> Bit(x, i) && !Bit(m, i)
  {
  }

  lemma BitAnd(x: bv8, m: bv8, i: nat)
    requires i < 8
    ensures Bit(x & m, i) <==> Bit(x, i) && Bit(m, i)
  {
  }

  lemma BitOr(x: bv8, m: bv8, i: nat)
    requires i < 8
    ensures Bit(x | m, i) <==> Bit(x, i) || Bit(m, i)
  {
  }

  /** Two bytes with the same bits are the same byte. */
  lemma SameBits(x: bv8, y: bv8)
    requires forall i :: 0 <= i < 8 ==> Bit(x, i) == Bit(y, i)
    ensures x == y
  {
    assert Bit(x, 0) == Bit(y, 0) && Bit(x, 1) == Bit(y, 1) && Bit(x, 2) == Bit(y, 2) && Bit(x, 3) == Bit(y, 3);
    assert Bit(x, 4) == Bit(y, 4) && Bit(x, 5) == Bit(y, 5) && Bit(x, 6) == Bit(y, 6) && Bit(x, 7) == Bit(y, 7);
  }

  // ----- masks, as names for longer proofs -----

  function Clear8(x: bv8, m: bv8): bv8 { x & !m }

  function Both8(x: bv8, m: bv8): bv8 { x & m }

  function Raise8(x: bv8, m: bv8): bv8 { x | m }

  /** The bits of `y` under the mask, those of `x` elsewhere. */
  function Merge8(x: bv8, y: bv8, m: bv8): bv8 { (x & !m) | (y & m) }

  lemma BitClear8(x: bv8, m: bv8, i: nat)
    requires i < 8
    ensures Bit(Clear8(x, m), i) <==> Bit(x, i) && !Bit(m, i)
  {
    BitAndNot(x, m, i);
    hide Bit;
  }

  lemma BitBoth8(x: bv8, m: bv8, i: nat)
    requires i < 8
    ensures Bit(Both8(x, m), i) <==> Bit(x, i) && Bit(m, i)
  {
    BitAnd(x, m, i);
    hide Bit;
  }

  lemma BitRaise8(x: bv8, m: bv8, i: nat)
    requires i < 8
    ensures Bit(Raise8(x, m), i) <==> Bit(x, i) || Bit(m, i)
  {
    BitOr(x, m, i);
    hide Bit;
  }

  lemma MergeParts(x: bv8, y: bv8, m: bv8)
    ensures Merge8(x, y, m) == Raise8(Clear8(x, m), Both8(y, m))
  {
  }

  lemma BitMasked(x: bv8, y: bv8, m: bv8, i: nat)
    requires i < 8
    ensures Bit(Clear8(x, m), i) <==> Bit(x, i) && !Bit(m, i)
    ensures Bit(Both8(x, m), i) <==> Bit(x, i) && Bit(m, i)
    ensures Bit(Raise8(x, m), i) <==> Bit(x, i) || Bit(m, i)
    ensures Bit(Merge8(x, y, m), i) <==> if Bit(m, i) then Bit(y, i) else Bit(x, i)
  {
    hide Bit, Clear8, Both8, Raise8, Merge8;
    BitClear8(x, m, i);
    BitBoth8(x, m, i);
    BitBoth8(y, m, i);
    BitRaise8(x, m, i);
    MergeParts(x, y, m);
    BitRaise8(Clear8(x, m), Both8(y, m), i);
  }
}
