/** Bitwise operations on numbers, and what they come to for masks of consecutive bits. */
module Bits {
  import opened Bytes

  function Pow2(n: nat): (p: nat)
    ensures p >= 1
  {
    if n == 0 then 1 else 2 * Pow2(n - 1)
  }

  /** Bitwise exclusive or of the low `bits` bits. */
  function Xor(x: nat, y: nat, bits: nat): (r: nat)
    ensures r < Pow2(bits)
  {
    if bits == 0 then 0
    else 2 * Xor(x / 2, y / 2, bits - 1) + (if x % 2 != y % 2 then 1 else 0)
  }

  /** Bitwise and of the low `bits` bits. */
  function And(x: nat, y: nat, bits: nat): (r: nat)
    ensures r <= x
  {
    if bits == 0 then 0
    else 2 * And(x / 2, y / 2, bits - 1) + (if x % 2 == 1 && y % 2 == 1 then 1 else 0)
  }

  /** Bitwise or of the low `bits` bits. */
  function Or(x: nat, y: nat, bits: nat): (r: nat)
    ensures r < Pow2(bits)
  {
    if bits == 0 then 0
    else 2 * Or(x / 2, y / 2, bits - 1) + (if x % 2 == 1 || y % 2 == 1 then 1 else 0)
  }

  lemma {:induction false} Pow2Le(a: nat, b: nat)
    requires a <= b
    ensures Pow2(a) <= Pow2(b)
    ensures Pow2(8) == 256
    decreases b - a
  {
    assert Pow2(4) == 16 && Pow2(8) == 256;
    if a < b {
      Pow2Le(a, b - 1);
    }
  }

  /** Splitting a remainder by a power of two into its lowest bit and the rest. */
  lemma ModPow2Step(x: nat, j: nat)
    requires j > 0
    ensures x % Pow2(j) == 2 * (x / 2 % Pow2(j - 1)) + x % 2
  {
    var m := Pow2(j - 1);
    var h := x / 2;
    var k, r := h / m, h % m;
    assert h == k * m + r;
    assert x == k * (2 * m) + (2 * r + x % 2) by {
      assert 2 * (k * m) == k * (2 * m);
    }
    DivModUnique(x, 2 * m, k, 2 * r + x % 2);
  }

  lemma Pow2Double(n: nat)
    requires n > 0
    ensures Pow2(n) == 2 * Pow2(n - 1)
  {
  }

  lemma AndShift(x: nat, m: nat, b: nat, n: nat)
    requires n > 0 && b <= 1
    ensures And(x, 2 * m + b, n) == 2 * And(x / 2, m, n - 1) + b * (x % 2)
  {
    assert (2 * m + b) / 2 == m && (2 * m + b) % 2 == b;
  }

  lemma OrShift(x: nat, m: nat, b: nat, n: nat)
    requires n > 0 && b <= 1
    ensures Or(x, 2 * m + b, n) == 2 * Or(x / 2, m, n - 1) + (if b == 1 then 1 else x % 2)
  {
    assert (2 * m + b) / 2 == m && (2 * m + b) % 2 == b;
  }

  /** Masking with the ones from bit `j` up clears the low `j` bits. */
  lemma {:induction false} AndMask(x: nat, j: nat, n: nat)
    requires j <= n && x < Pow2(n) && Pow2(j) <= Pow2(n)
    ensures And(x, Pow2(n) - Pow2(j), n) == x - x % Pow2(j)
    decreases n
  {
    hide And;
    if n > 0 {
      Pow2Double(n);
      if j > 0 {
        Pow2Double(j);
        ModPow2Step(x, j);
        AndMask(x / 2, j - 1, n - 1);
        AndShift(x, Pow2(n - 1) - Pow2(j - 1), 0, n);
      } else {
        AndOnes(x, n);
      }
    } else {
      AndNone(x);
    }
  }

  lemma {:induction false} AndOnes(x: nat, n: nat)
    requires x < Pow2(n)
    ensures And(x, Pow2(n) - 1, n) == x
  {
    hide And;
    if n > 0 {
      Pow2Double(n);
      AndOnes(x / 2, n - 1);
      AndShift(x, Pow2(n - 1) - 1, 1, n);
    } else {
      AndNone(x);
    }
  }

  lemma AndNone(x: nat)
    requires x < Pow2(0)
    ensures And(x, 0, 0) == x
  {
  }

  /** Setting the low `j` bits of a number in which they are clear adds their value. */
  lemma {:induction false} OrLow(x: nat, j: nat, n: nat)
    requires j <= n && x < Pow2(n) && x % Pow2(j) == 0
    ensures Or(x, Pow2(j) - 1, n) == x + Pow2(j) - 1
    decreases n
  {
    hide Or;
    if n > 0 {
      Pow2Double(n);
      if j > 0 {
        Pow2Double(j);
        ModPow2Step(x, j);
        OrLow(x / 2, j - 1, n - 1);
        OrShift(x, Pow2(j - 1) - 1, 1, n);
      } else {
        OrLow(x / 2, 0, n - 1);
        OrShift(x, 0, 0, n);
      }
    } else {
      OrNone(x);
    }
  }

  lemma OrNone(x: nat)
    requires x < Pow2(0)
    ensures Or(x, 0, 0) == x
  {
  }

  lemma {:induction false} Pow2Sum(a: nat, b: nat)
    ensures Pow2(a + b) == Pow2(a) * Pow2(b)
  {
    if b > 0 {
      Pow2Sum(a, b - 1);
    }
  }
}
