/** Bytes, big-endian fields and concatenation, shared by the wire-format modules. */
module Bytes {

  type byte = x: int | 0 <= x < 256

  /** The 16-bit big-endian number in the first two bytes of `s`. */
  function Be16(s: seq<byte>): (n: nat)
    requires |s| >= 2
    ensures n < 0x1_0000
  {
    s[0] as int * 0x100 + s[1] as int
  }

  /** The 32-bit big-endian number in the first four bytes of `s`. */
  function Be32(s: seq<byte>): (n: nat)
    requires |s| >= 4
    ensures n < 0x1_0000_0000
  {
    s[0] as int * 0x100_0000 + s[1] as int * 0x1_0000 + s[2] as int * 0x100 + s[3] as int
  }

  /** The 64-bit big-endian number in the first eight bytes of `s`. */
  function Be64(s: seq<byte>): nat
    requires |s| >= 8
  {
    Be32(s) * 0x1_0000_0000 + Be32(s[4..])
  }

  /** The bytes of `n` modulo 2^16, most significant first. */
  function PutBe16(n: nat): (s: seq<byte>)
    ensures |s| == 2
  {
    [(n / 0x100) % 0x100, n % 0x100]
  }

  /** The bytes of `n` modulo 2^32, most significant first. */
  function PutBe32(n: nat): (s: seq<byte>)
    ensures |s| == 4
  {
    [(n / 0x100_0000) % 0x100, (n / 0x1_0000) % 0x100, (n / 0x100) % 0x100, n % 0x100]
  }

  /** The bytes of `n` modulo 2^64, most significant first. */
  function PutBe64(n: nat): (s: seq<byte>)
    ensures |s| == 8
  {
    PutBe32(n / 0x1_0000_0000) + PutBe32(n % 0x1_0000_0000)
  }

  /** The number a byte string of any length stands for, most significant byte first. */
  function Number(s: seq<byte>): nat {
    if s == [] then 0 else Number(s[..|s| - 1]) * 0x100 + s[|s| - 1]
  }

  lemma Be16IsNumber(s: seq<byte>)
    requires |s| == 2
    ensures Be16(s) == Number(s)
  {
    assert s[..1][..0] == [];
    assert Number(s[..1]) == s[0];
  }

  lemma NumberAppend(s: seq<byte>, t: seq<byte>)
    requires |t| == 4
    ensures Number(s + t) == Number(s) * 0x1_0000_0000 + Be32(t)
  {
    var u := s + t;
    NumberSnoc(s, t[0]);
    NumberSnoc(s + [t[0]], t[1]);
    NumberSnoc(s + [t[0]] + [t[1]], t[2]);
    NumberSnoc(s + [t[0]] + [t[1]] + [t[2]], t[3]);
    assert u == s + [t[0]] + [t[1]] + [t[2]] + [t[3]];
  }

  lemma NumberSnoc(s: seq<byte>, b: byte)
    ensures Number(s + [b]) == Number(s) * 0x100 + b
  {
    assert (s + [b])[..|s|] == s;
  }

  lemma Be32IsNumber(s: seq<byte>)
    requires |s| == 4
    ensures Be32(s) == Number(s)
  {
    NumberAppend([], s);
    assert [] + s == s;
  }

  lemma Be64IsNumber(s: seq<byte>)
    requires |s| == 8
    ensures Be64(s) == Number(s)
  {
    NumberAppend([], s[..4]);
    NumberAppend(s[..4], s[4..]);
    assert [] + s[..4] == s[..4] && s[..4] + s[4..] == s;
  }

  /** Splitting off the low byte of a remainder. */
  lemma ModStep(n: nat, m: nat)
    requires m > 0
    ensures n % (0x100 * m) == (n / 0x100 % m) * 0x100 + n % 0x100
  {
    var q, r := n / 0x100, n % 0x100;
    var k := q / m;
    assert q == k * m + q % m;
    assert n == k * (0x100 * m) + ((q % m) * 0x100 + r) by {
      assert k * m * 0x100 == k * (0x100 * m);
    }
    var low := (q % m) * 0x100 + r;
    assert 0 <= low < 0x100 * m by {
      assert (q % m) + 1 <= m;
    }
    DivModUnique(n, 0x100 * m, k, low);
  }

  /** The front of a slice is a shorter slice. */
  lemma SliceFront<T>(s: seq<T>, i: nat, n: nat, m: nat)
    requires n <= m && i + m <= |s|
    ensures s[i..i + m][..n] == s[i..i + n]
  {
  }

  lemma DivModUnique(n: nat, d: nat, q: nat, r: nat)
    requires d > 0 && r < d && n == q * d + r
    ensures n / d == q && n % d == r
  {
    MulBetween(n / d - q, d, r - n % d);
  }

  /** A multiple of `d` strictly between `-d` and `d` is zero. */
  lemma MulBetween(k: int, d: int, x: int)
    requires k * d == x && -d < x < d
    ensures k == 0
  {
    MulGrows(k, d);
  }

  lemma MulGrows(k: int, d: int)
    requires d > 0
    ensures k >= 1 ==> k * d >= d
    ensures k <= -1 ==> k * d <= -d
  {
    assert k >= 1 ==> (k - 1) * d >= 0;
    assert k <= -1 ==> (k + 1) * d <= 0;
  }

  lemma DivDiv(n: nat, a: nat)
    requires a > 0
    ensures n / 0x100 / a == n / (0x100 * a)
  {
    var q := n / 0x100;
    var k, r := q / a, q % a;
    assert n == k * (0x100 * a) + (r * 0x100 + n % 0x100) by {
      assert q == k * a + r;
      assert k * a * 0x100 == k * (0x100 * a);
    }
    assert r * 0x100 + n % 0x100 < 0x100 * a by {
      assert r + 1 <= a;
    }
    DivModUnique(n, 0x100 * a, k, r * 0x100 + n % 0x100);
  }

  lemma Be32OfPut(n: nat)
    ensures Be32(PutBe32(n)) == n % 0x1_0000_0000
  {
    var a := n / 0x100;
    DivDiv(n, 0x100);
    DivDiv(a, 0x100);
    DivDiv(n, 0x1_0000);
    ModStep(n, 0x100_0000);
    ModStep(a, 0x1_0000);
    ModStep(n / 0x1_0000, 0x100);
  }

  lemma Be64OfPut(n: nat)
    requires n < 0x1_0000_0000_0000_0000
    ensures Be64(PutBe64(n)) == n
  {
    hide Be32, PutBe32;
    var high, low := n / 0x1_0000_0000, n % 0x1_0000_0000;
    Be32OfPut(high);
    Be32OfPut(low);
    Be32Prefix(PutBe32(high), PutBe32(low));
    assert PutBe64(n) == PutBe32(high) + PutBe32(low);
    assert PutBe64(n)[4..] == PutBe32(low);
  }

  /** A field only depends on its own bytes, so a suffix may be ignored. */
  lemma Be32Prefix(s: seq<byte>, rest: seq<byte>)
    requires |s| >= 4
    ensures Be32(s + rest) == Be32(s)
  {
  }

  /** All parts joined in order. */
  function Concat<T>(parts: seq<seq<T>>): seq<T> {
    if parts == [] then [] else parts[0] + Concat(parts[1..])
  }

  // ----- filling a zeroed buffer from front to back

  function Zeros(n: nat): (z: seq<byte>)
    ensures |z| == n
  {
    seq(n, _ => 0)
  }

  /** The buffer holds `done` and is still zero behind it. */
  ghost predicate Written(buffer: seq<byte>, done: seq<byte>) {
    |done| <= |buffer| && buffer == done + Zeros(|buffer| - |done|)
  }

  /** `copy(dst[at:], src)`, in a buffer not yet written from `at` on. */
  method CopyField(dst: array<byte>, at: nat, src: seq<byte>, ghost done: seq<byte>)
    requires |done| <= at && at + |src| <= dst.Length && Written(dst[..], done)
    modifies dst
    ensures Written(dst[..], done + Zeros(at - |done|) + src)
  {
    forall i | 0 <= i < |src| {
      dst[at + i] := src[i];
    }
    assert dst[..] == done + Zeros(at - |done|) + src + Zeros(dst.Length - at - |src|);
  }

  /** The next field, directly behind what is written. */
  method AppendField(dst: array<byte>, src: seq<byte>, ghost done: seq<byte>, at: nat)
    requires at == |done| && at + |src| <= dst.Length && Written(dst[..], done)
    modifies dst
    ensures Written(dst[..], done + src)
  {
    CopyField(dst, at, src, done);
    assert done + Zeros(0) + src == done + src;
  }

  lemma WrittenFully(buffer: seq<byte>, done: seq<byte>)
    requires Written(buffer, done) && |done| == |buffer|
    ensures buffer == done
  {
  }
}
