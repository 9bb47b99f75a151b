/** Unsigned numbers bit by bit: shifts by halving and doubling, and a number written as its bits. */
module Binary {
  import Arithmetic

  function Pow2(n: nat): (p: nat)
    ensures p >= 1
  {
    if n == 0 then 1 else 2 * Pow2(n - 1)
  }

  function ShiftLeft(x: nat, n: nat): nat {
    if n == 0 then x else 2 * ShiftLeft(x, n - 1)
  }

  function ShiftRight(x: nat, n: nat): nat {
    if n == 0 then x else ShiftRight(x / 2, n - 1)
  }

  predicate RawBit(raw: nat, k: nat) {
    ShiftRight(raw, k) % 2 == 1
  }

  /** Sets bit `k`. */
  function OrBit(value: nat, k: nat): nat {
    if RawBit(value, k) then value else value + ShiftLeft(1, k)
  }

  /** The number written by bits `k` and up, least significant first. */
  function Number(bits: seq<bool>, k: nat): nat
    requires k <= |bits|
    decreases |bits| - k
  {
    if k == |bits| then 0 else (if bits[k] then 1 else 0) + 2 * Number(bits, k + 1)
  }

  function LowBits(x: nat, n: nat): (bits: seq<bool>)
    ensures |bits| == n
  {
    seq(n, k requires 0 <= k < n => RawBit(x, k))
  }

  lemma {:induction false} RightThenRight(x: nat, a: nat, b: nat)
    ensures ShiftRight(ShiftRight(x, a), b) == ShiftRight(x, a + b)
    decreases a
  {
    if a > 0 { RightThenRight(x / 2, a - 1, b); }
  }

  lemma {:induction false} LeftAdds(x: nat, y: nat, n: nat)
    ensures ShiftLeft(x, n) + ShiftLeft(y, n) == ShiftLeft(x + y, n)
  {
    if n > 0 { LeftAdds(x, y, n - 1); }
  }

  lemma {:induction false} LeftThenRight(x: nat, n: nat)
    ensures ShiftRight(ShiftLeft(x, n), n) == x
  {
    if n > 0 { LeftThenRight(x, n - 1); }
  }

  /** Setting a bit below everything shifted so far appends it. */
  lemma OrBelow(y: nat, k: nat)
    ensures OrBit(ShiftLeft(2 * y, k), k) == ShiftLeft(1 + 2 * y, k)
  {
    LeftThenRight(2 * y, k);
    LeftAdds(1, 2 * y, k);
  }

  lemma {:induction false} LeftOfDouble(y: nat, k: nat)
    ensures ShiftLeft(2 * y, k) == ShiftLeft(y, k + 1)
  {
    if k > 0 { LeftOfDouble(y, k - 1); }
  }

  /** A left shift multiplies and a right shift divides by the power of two. */
  lemma {:induction false} ShiftsArePowers(x: nat, n: nat)
    ensures ShiftLeft(x, n) == x * Pow2(n)
    ensures ShiftRight(x, n) == x / Pow2(n)
  {
    if n > 0 {
      var p := Pow2(n - 1);
      ShiftsArePowers(x, n - 1);
      ShiftsArePowers(x / 2, n - 1);
      Double(x, p);
      Halve(x, p);
    }
  }

  lemma Double(x: nat, p: nat)
    ensures x * (2 * p) == 2 * (x * p)
  {
  }

  lemma Halve(x: nat, p: nat)
    requires p >= 1
    ensures x / (2 * p) == (x / 2) / p
    ensures x % (2 * p) == x % 2 + 2 * ((x / 2) % p)
  {
    var y, c := x / 2, x % 2;
    var t, u := y / p, y % p;
    var z := t * p;
    assert y == z + u;
    assert t * (2 * p) == 2 * z;
    Arithmetic.QuotientFromBounds(x, 2 * p, t);
    Arithmetic.ResidueOfSum(t, 2 * u + c, 2 * p);
  }

  /** Bit `j` of a number is the bit it was written with. */
  lemma {:induction false} NumberBit(bits: seq<bool>, k: nat, j: nat)
    requires k <= |bits|
    ensures RawBit(Number(bits, k), j) <==> k + j < |bits| && bits[k + j]
    decreases |bits| - k
  {
    if k == |bits| {
      ZeroBits(j);
    } else if j > 0 {
      NumberBit(bits, k + 1, j - 1);
    }
  }

  lemma {:induction false} ZeroBits(j: nat)
    ensures !RawBit(0, j)
  {
    if j > 0 { ZeroBits(j - 1); }
  }

  /** The low bits of a number, read as a number, are the number modulo that power of two. */
  lemma {:induction false} LowBitsValue(x: nat, n: nat, k: nat)
    requires k <= n
    ensures Number(LowBits(x, n), k) == ShiftRight(x, k) % Pow2(n - k)
    decreases n - k
  {
    if k < n {
      LowBitsValue(x, n, k + 1);
      RightThenRight(x, k, 1);
      Halve(ShiftRight(x, k), Pow2(n - k - 1));
    }
  }

  lemma {:induction false} NumberJoin(a: seq<bool>, b: seq<bool>, k: nat)
    requires k <= |a|
    ensures Number(a + b, k) == Number(a, k) + ShiftLeft(Number(b, 0), |a| - k)
    decreases |a| - k
  {
    if k == |a| {
      NumberTail(a, b, 0);
    } else {
      NumberJoin(a, b, k + 1);
    }
  }

  lemma {:induction false} NumberTail(a: seq<bool>, b: seq<bool>, k: nat)
    requires k <= |b|
    ensures Number(a + b, |a| + k) == Number(b, k)
    decreases |b| - k
  {
    if k < |b| { NumberTail(a, b, k + 1); }
  }
}
