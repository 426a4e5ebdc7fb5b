/**
 The checked header of a MoLive packet: which headers an assembler accepts, stated byte by byte, and that
 the check catches every change of a single byte.
 */
module LspHeader {
  import opened Bytes
  import opened Bits
  import opened LspAssembler
  import opened LspPacket

  function Xor8(a: byte, b: byte): byte {
    Pow2Le(8, 8);
    Xor(a, b, 8)
  }

  /** The two check bytes of an anchor of four words: each the exclusive or of its bytes and 0xAA. */
  function HeaderCheck(anchor: seq<byte>): (check: seq<byte>)
    requires |anchor| == 8
    ensures |check| == 2
  {
    [Xor8(Xor8(Xor8(Xor8(anchor[0] % 0x80, anchor[2]), anchor[4]), anchor[6]), 0xAA),
     Xor8(Xor8(Xor8(Xor8(anchor[1], anchor[3]), anchor[5]), anchor[7]), 0xAA)]
  }

  // ----- exclusive or

  /** The low `low` bits and the rest go separately. */
  lemma {:induction false} XorJoin(a: nat, b: nat, c: nat, d: nat, low: nat, high: nat)
    requires b < Pow2(low) && d < Pow2(low)
    ensures Xor(a * Pow2(low) + b, c * Pow2(low) + d, low + high) == Xor(a, c, high) * Pow2(low) + Xor(b, d, low)
    decreases low
  {
    if low > 0 {
      var p := Pow2(low - 1);
      XorJoin(a, b / 2, c, d / 2, low - 1, high);
      Halved(a, p, b);
      Halved(c, p, d);
      DoubledProduct(Xor(a, c, high), p);
      hide Pow2;
    }
  }

  lemma DoubledProduct(a: nat, p: nat)
    ensures a * (2 * p) == 2 * (a * p)
  {
  }

  lemma Halved(a: nat, p: nat, b: nat)
    ensures (a * (2 * p) + b) / 2 == a * p + b / 2 && (a * (2 * p) + b) % 2 == b % 2
  {
    DoubledProduct(a, p);
  }

  lemma XorWords(x: nat, y: nat)
    ensures Xor(x, y, 16) == Xor(x / 0x100, y / 0x100, 8) * 0x100 + Xor(x % 0x100, y % 0x100, 8)
  {
    Pow2Le(8, 8);
    XorJoin(x / 0x100, x % 0x100, y / 0x100, y % 0x100, 8, 8);
  }

  lemma {:induction false} XorInjective(x: nat, y: nat, z: nat, n: nat)
    requires y < Pow2(n) && z < Pow2(n) && Xor(x, y, n) == Xor(x, z, n)
    ensures y == z
    decreases n
  {
    if n > 0 {
      Pow2Double(n);
      XorInjective(x / 2, y / 2, z / 2, n - 1);
    }
  }

  lemma {:induction false} XorCommutes(x: nat, y: nat, n: nat)
    ensures Xor(x, y, n) == Xor(y, x, n)
    decreases n
  {
    if n > 0 {
      XorCommutes(x / 2, y / 2, n - 1);
    }
  }

  // ----- the check as the assembler makes it

  /** A word as its two bytes. */
  function Word(high: byte, low: byte): nat {
    high as int * 0x100 + low as int
  }

  lemma XorOfWords(a: byte, b: byte, c: byte, d: byte)
    ensures Xor(Word(a, b), Word(c, d), 16) == Word(Xor8(a, c), Xor8(b, d))
  {
    XorWords(Word(a, b), Word(c, d));
    hide Xor;
    assert Word(a, b) / 0x100 == a && Word(a, b) % 0x100 == b && Word(c, d) / 0x100 == c && Word(c, d) % 0x100 == d;
  }

  lemma ChecksumIsHeaderCheck(packet: seq<byte>)
    requires |packet| >= L2_HEADER_SIZE
    ensures var check := HeaderCheck(packet[4..12]); Checksum(packet) == Word(check[0], check[1])
  {
    hide Xor, Xor8;
    var p := packet;
    assert Be16(p[4..6]) % 0x8000 == Word(p[4] % 0x80, p[5]) && Be16(p[6..8]) == Word(p[6], p[7]);
    assert Be16(p[8..10]) == Word(p[8], p[9]) && Be16(p[10..12]) == Word(p[10], p[11]) && 0xAAAA == Word(0xAA, 0xAA);
    XorOfWords(p[4] % 0x80, p[5], p[6], p[7]);
    var h1, l1 := Xor8(p[4] % 0x80, p[6]), Xor8(p[5], p[7]);
    XorOfWords(h1, l1, p[8], p[9]);
    var h2, l2 := Xor8(h1, p[8]), Xor8(l1, p[9]);
    XorOfWords(h2, l2, p[10], p[11]);
    XorOfWords(Xor8(h2, p[10]), Xor8(l2, p[11]), 0xAA, 0xAA);
  }

  /** A header is accepted exactly if it begins with L2 and the check bytes are those of its anchor. */
  lemma AcceptedExactlyIf(packet: seq<byte>)
    requires |packet| >= L2_HEADER_SIZE
    ensures GoodL2Header(packet) <==> packet[..2] == [0x4C, 0x32] && packet[2..4] == HeaderCheck(packet[4..12])
  {
    hide Checksum, HeaderCheck;
    ChecksumIsHeaderCheck(packet);
    var check := HeaderCheck(packet[4..12]);
    assert Be16(packet[2..4]) == Word(packet[2], packet[3]);
    assert packet[2..4] == check <==> packet[2] == check[0] && packet[3] == check[1];
  }

  lemma Xor8Injective(a: byte, b: byte, c: byte)
    ensures Xor8(a, b) == Xor8(a, c) ==> b == c
    ensures Xor8(b, a) == Xor8(c, a) ==> b == c
  {
    Pow2Le(8, 8);
    XorCommutes(b, a, 8);
    XorCommutes(c, a, 8);
    if Xor8(a, b) == Xor8(a, c) {
      XorInjective(a, b, c, 8);
    }
  }

  /** One of the anchor's bytes changed, other than in the top bit of the first, changes the check. */
  lemma CheckSeesEveryByte(a: seq<byte>, i: nat, b: byte)
    requires |a| == 8 && i < 8 && (if i == 0 then b % 0x80 != a[0] % 0x80 else b != a[i])
    ensures HeaderCheck(a[i := b]) != HeaderCheck(a)
  {
    hide Xor8;
    if i % 2 == 0 {
      ChainSeesEveryByte(a[0] % 0x80, a[2], a[4], a[6], a[i := b][0] % 0x80, a[i := b][2], a[i := b][4], a[i := b][6]);
    } else {
      ChainSeesEveryByte(a[1], a[3], a[5], a[7], a[i := b][1], a[i := b][3], a[i := b][5], a[i := b][7]);
    }
  }

  /** Four bytes of which exactly one changes. */
  lemma ChainSeesEveryByte(a: byte, b: byte, c: byte, d: byte, a': byte, b': byte, c': byte, d': byte)
    requires (a != a' && b == b' && c == c' && d == d') || (a == a' && b != b' && c == c' && d == d')
          || (a == a' && b == b' && c != c' && d == d') || (a == a' && b == b' && c == c' && d != d')
    ensures Xor8(Xor8(Xor8(Xor8(a, b), c), d), 0xAA) != Xor8(Xor8(Xor8(Xor8(a', b'), c'), d'), 0xAA)
  {
    hide Xor8;
    Xor8Injective(a, b, b');
    Xor8Injective(b, a, a');
    Xor8Injective(c, Xor8(a, b), Xor8(a', b'));
    Xor8Injective(Xor8(a, b), c, c');
    Xor8Injective(d, Xor8(Xor8(a, b), c), Xor8(Xor8(a', b'), c'));
    Xor8Injective(Xor8(Xor8(a, b), c), d, d');
    Xor8Injective(0xAA, Xor8(Xor8(Xor8(a, b), c), d), Xor8(Xor8(Xor8(a', b'), c'), d'));
  }

  /**
   In an accepted packet any change of a single byte of the check or of the anchor gets it rejected, except for
   the top bit of the anchor's first byte, which is not checked.
   */
  lemma EveryChangeIsCaught(packet: seq<byte>, i: nat, b: byte)
    requires |packet| >= L2_HEADER_SIZE && GoodL2Header(packet) && 2 <= i < 12 && b != packet[i]
    ensures GoodL2Header(packet[i := b]) <==> i == 4 && b % 0x80 == packet[4] % 0x80
  {
    hide GoodL2Header, HeaderCheck;
    AcceptedExactlyIf(packet);
    AcceptedExactlyIf(packet[i := b]);
    var p := packet[i := b];
    if i < 4 {
      assert p[4..12] == packet[4..12] && p[2..4][i - 2] != packet[2..4][i - 2];
    } else {
      assert p[4..12] == packet[4..12][i - 4 := b] && p[2..4] == packet[2..4] && p[..2] == packet[..2];
      if i == 4 && b % 0x80 == packet[4] % 0x80 {
        TopBitUnchecked(packet[4..12], b);
      } else {
        CheckSeesEveryByte(packet[4..12], i - 4, b);
      }
    }
  }

  lemma TopBitUnchecked(a: seq<byte>, b: byte)
    requires |a| == 8 && b % 0x80 == a[0] % 0x80
    ensures HeaderCheck(a[0 := b]) == HeaderCheck(a)
  {
    hide Xor8;
  }

  const EXAMPLE: seq<byte> := [0x4C, 0x32, 0xAA, 0xAB, 0, 0, 0, 0, 0, 0, 0, 1, 0x05, 0x77]

  /** Only the first fourteen bytes decide. */
  lemma HeaderDecides(header: seq<byte>, rest: seq<byte>)
    requires |header| == L2_HEADER_SIZE
    ensures GoodL2Header(header + rest) <==> GoodL2Header(header)
  {
    hide HeaderCheck, GoodL2Header;
    var packet := header + rest;
    AcceptedExactlyIf(packet);
    AcceptedExactlyIf(header);
    assert packet[..2] == header[..2] && packet[2..4] == header[2..4] && packet[4..12] == header[4..12];
  }

  /** A header with check bytes AA AB: the anchor's words are 0, 0, 0 and 1. */
  lemma AcceptedExample(rest: seq<byte>)
    ensures GoodL2Header(EXAMPLE + rest)
  {
    hide HeaderCheck, GoodL2Header;
    HeaderDecides(EXAMPLE, rest);
    AcceptedExactlyIf(EXAMPLE);
    ExampleCheck();
    assert EXAMPLE[4..12] == [0, 0, 0, 0, 0, 0, 0, 1] && EXAMPLE[2..4] == [0xAA, 0xAB];
    assert EXAMPLE[..2] == [0x4C, 0x32];
  }

  lemma ExampleCheck()
    ensures HeaderCheck([0, 0, 0, 0, 0, 0, 0, 1]) == [0xAA, 0xAB]
  {
    ZeroAndOne();
    hide Xor8;
  }

  lemma {:induction false} XorZero(y: nat, n: nat)
    requires y < Pow2(n)
    ensures Xor(0, y, n) == y
    decreases n
  {
    if n > 0 {
      Pow2Double(n);
      XorZero(y / 2, n - 1);
    }
  }

  lemma ZeroAndOne()
    ensures Xor8(0, 0) == 0 && Xor8(0, 1) == 1 && Xor8(0, 0xAA) == 0xAA && Xor8(1, 0xAA) == 0xAB
  {
    Pow2Le(8, 8);
    XorZero(0, 8);
    XorZero(1, 8);
    XorZero(0xAA, 8);
    Pow2Double(8);
    XorZero(0x55, 7);
    assert Xor(1, 0xAA, 8) == 2 * Xor(0, 0x55, 7) + 1;
  }
}
