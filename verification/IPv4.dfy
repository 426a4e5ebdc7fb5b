/**
 IPv4 addresses byte by byte, as the lease server handles them, and what the byte-wise operations mean
 for the number an address stands for.
 */
module IPv4 {
  import opened Bytes
  import opened Bits

  type Address = s: seq<byte> | |s| == 4 witness [0, 0, 0, 0]

  const SPACE: nat := 0x1_0000_0000

  /** The address as a 32-bit number. */
  function Val(a: Address): (v: nat)
    ensures v < SPACE
  {
    Be32(a)
  }

  lemma ValOfPut(v: nat)
    requires v < SPACE
    ensures Val(PutBe32(v)) == v
  {
    hide Be32, PutBe32;
    Be32OfPut(v);
  }

  function FromVal(v: nat): (a: Address)
    requires v < SPACE
    ensures Val(a) == v
  {
    ValOfPut(v);
    PutBe32(v)
  }

  /** Different addresses are different numbers. */
  lemma ValInjective(a: Address, b: Address)
    requires Val(a) == Val(b)
    ensures a == b
  {
    Be32Digits(a[0], a[1], a[2], a[3], b[0], b[1], b[2], b[3]);
  }

  lemma Be32Digits(a: int, b: int, c: int, d: int, x: int, y: int, z: int, w: int)
    requires 0 <= a < 256 && 0 <= b < 256 && 0 <= c < 256 && 0 <= d < 256
    requires 0 <= x < 256 && 0 <= y < 256 && 0 <= z < 256 && 0 <= w < 256
    requires a * 0x100_0000 + b * 0x1_0000 + c * 0x100 + d == x * 0x100_0000 + y * 0x1_0000 + z * 0x100 + w
    ensures a == x && b == y && c == z && d == w
  {
  }

  // ----- masks

  /** The byte with the top `8 - free` bits set. */
  function MaskByte(free: nat): byte
    requires free <= 8
  {
    Pow2Le(free, 8);
    256 - Pow2(free)
  }

  function AndByte(x: byte, y: byte): byte {
    And(x, y, 8)
  }

  function OrByte(x: byte, y: byte): byte {
    Pow2Le(8, 8);
    Or(x, y, 8)
  }

  // ----- subnets

  datatype Subnet = Subnet(ip: Address, mask: Address)

  /** How many low bits of byte `i` a prefix of the given length leaves free. */
  function FreeBits(prefix: nat, i: nat): nat
    requires i < 4
  {
    if prefix >= 8 * i + 8 then 0 else if prefix <= 8 * i then 8 else 8 * i + 8 - prefix
  }

  function PrefixMask(prefix: nat): Address {
    [MaskByte(FreeBits(prefix, 0)), MaskByte(FreeBits(prefix, 1)), MaskByte(FreeBits(prefix, 2)),
        MaskByte(FreeBits(prefix, 3))]
  }

  /** As the configuration builds it: a contiguous mask, and a network address with no host bits. */
  predicate WellFormed(s: Subnet, prefix: nat) {
    && prefix <= 32
    && s.mask == PrefixMask(prefix)
    && forall i :: 0 <= i < 4 ==> AndByte(s.ip[i], s.mask[i]) == s.ip[i]
  }

  predicate Contains(s: Subnet, a: Address) {
    forall i :: 0 <= i < 4 ==> AndByte(s.ip[i], s.mask[i]) == AndByte(a[i], s.mask[i])
  }

  function Broadcast(s: Subnet): Address {
    [OrByte(s.ip[0], 255 - s.mask[0]), OrByte(s.ip[1], 255 - s.mask[1]),
     OrByte(s.ip[2], 255 - s.mask[2]), OrByte(s.ip[3], 255 - s.mask[3])]
  }

  /** How many addresses a prefix of the given length leaves. */
  function Size(prefix: nat): nat
    requires prefix <= 32
  {
    Pow2(32 - prefix)
  }

  /** One byte of the containment test. */
  lemma MaskedByte(x: byte, free: nat)
    requires free <= 8
    ensures AndByte(x, MaskByte(free)) == x - x % Pow2(free)
    ensures x % Pow2(free) == 0 ==> OrByte(x, 255 - MaskByte(free)) == x + Pow2(free) - 1
  {
    Pow2Le(free, 8);
    AndMask(x, free, 8);
    if x % Pow2(free) == 0 {
      OrLow(x, free, 8);
    }
  }

  /** Having the multiple `b` of `m` as the part above the remainder is a range of length `m`. */
  lemma MaskedRange(b: nat, x: nat, m: nat)
    requires m > 0 && b % m == 0
    ensures x - x % m == b <==> b <= x < b + m
  {
    if b <= x < b + m {
      DivModUnique(x, m, b / m, x - b);
    }
  }

  lemma ByteContains(s: Subnet, prefix: nat, a: Address, i: nat)
    requires WellFormed(s, prefix) && i < 4
    ensures s.ip[i] % Pow2(FreeBits(prefix, i)) == 0
    ensures AndByte(s.ip[i], s.mask[i]) == AndByte(a[i], s.mask[i]) <==>
            s.ip[i] <= a[i] < s.ip[i] + Pow2(FreeBits(prefix, i))
    ensures OrByte(s.ip[i], 255 - s.mask[i]) == s.ip[i] + Pow2(FreeBits(prefix, i)) - 1
  {
    var free := FreeBits(prefix, i);
    assert s.mask[i] == MaskByte(free);
    MaskedByte(s.ip[i], free);
    MaskedByte(a[i], free);
    MaskedRange(s.ip[i], a[i], Pow2(free));
  }

  /** Where the free bits start: whole bytes in front, `free` bits in byte `q`, everything behind. */
  lemma SizeOfBlock(prefix: nat, q: nat, free: nat)
    requires prefix <= 32 && q < 4 && free == FreeBits(prefix, q) && 8 * q <= prefix <= 8 * q + 8
    ensures Size(prefix) == Pow2(free) * (if q == 0 then 0x100_0000 else if q == 1 then 0x1_0000
                                          else if q == 2 then 0x100 else 1)
  {
    hide Pow2;
    var shift := 8 * (3 - q);
    assert 32 - prefix == free + shift;
    Pow2Sum(free, shift);
    ShiftValues();
  }

  lemma ShiftValues()
    ensures Pow2(0) == 1 && Pow2(8) == 256 && Pow2(16) == 0x1_0000 && Pow2(24) == 0x100_0000
  {
    Pow2Values();
    hide Pow2;
    Pow2Sum(8, 8);
    Pow2Sum(16, 8);
  }

  lemma ContainsByValue(s: Subnet, prefix: nat, a: Address)
    requires WellFormed(s, prefix)
    ensures Contains(s, a) <==> Val(s.ip) <= Val(a) < Val(s.ip) + Size(prefix)
  {
    hide Broadcast, AndByte, OrByte, MaskByte, Pow2;
    ByteContains(s, prefix, a, 0);
    ByteContains(s, prefix, a, 1);
    ByteContains(s, prefix, a, 2);
    ByteContains(s, prefix, a, 3);
    Pow2Values();
    var q := if prefix < 8 then 0 else if prefix < 16 then 1 else if prefix < 24 then 2 else 3;
    SizeOfBlock(prefix, q, FreeBits(prefix, q));
    HighByteAligned(s, prefix, q);
  }

  lemma BroadcastIsLast(s: Subnet, prefix: nat)
    requires WellFormed(s, prefix)
    ensures Val(Broadcast(s)) == Val(s.ip) + Size(prefix) - 1
  {
    hide Contains, AndByte, OrByte, MaskByte, Pow2;
    ByteContains(s, prefix, s.ip, 0);
    ByteContains(s, prefix, s.ip, 1);
    ByteContains(s, prefix, s.ip, 2);
    ByteContains(s, prefix, s.ip, 3);
    Pow2Values();
    var q := if prefix < 8 then 0 else if prefix < 16 then 1 else if prefix < 24 then 2 else 3;
    SizeOfBlock(prefix, q, FreeBits(prefix, q));
    HighByteAligned(s, prefix, q);
  }

  /** The byte-wise test is a range test on the numbers, and the broadcast address is the last in it. */
  lemma ContainsIsRange(s: Subnet, prefix: nat, a: Address)
    requires WellFormed(s, prefix)
    ensures Contains(s, a) <==> Val(s.ip) <= Val(a) < Val(s.ip) + Size(prefix)
    ensures Val(Broadcast(s)) == Val(s.ip) + Size(prefix) - 1
  {
    hide Val, Contains, Broadcast, WellFormed;
    ContainsByValue(s, prefix, a);
    BroadcastIsLast(s, prefix);
  }

  lemma Pow2Values()
    ensures Pow2(0) == 1 && Pow2(8) == 256
  {
    Pow2Le(8, 8);
  }

  /** All bytes behind byte `q` of the network address are zero. */
  lemma HighByteAligned(s: Subnet, prefix: nat, q: nat)
    requires WellFormed(s, prefix) && q < 4 && prefix <= 8 * q + 8
    ensures forall i :: q < i < 4 ==> s.ip[i] == 0
  {
    forall i | q < i < 4
      ensures s.ip[i] == 0
    {
      ByteContains(s, prefix, s.ip, i);
      Pow2Values();
    }
  }

  // ----- stepping

  /** One more, as an eight-bit counter. */
  function Increment(x: byte): byte {
    if x == 255 then 0 else x + 1
  }

  /** The next address, carrying from byte to byte. */
  method NextIPv4(ip: Address) returns (next: Address)
    ensures Val(next) == (Val(ip) + 1) % SPACE
  {
    var b := new byte[4](i requires 0 <= i < 4 => ip[i]);
    b[3] := Increment(b[3]);
    var i := 3;
    while i > 0 && b[i] == 0
      invariant 0 <= i <= 3
      invariant forall k :: 0 <= k < i ==> b[k] == ip[k]
      invariant b[i] == Increment(ip[i])
      invariant forall k :: i < k < 4 ==> ip[k] == 255 && b[k] == 0
    {
      b[i - 1] := Increment(b[i - 1]);
      i := i - 1;
    }
    next := b[..];
  }

  method IsBroadcast(ip: Address, s: Subnet) returns (r: bool)
    ensures r <==> ip == Broadcast(s)
  {
    var broadcast := new byte[4](i requires 0 <= i < 4 => s.ip[i]);
    var i := 0;
    while i < 4
      invariant 0 <= i <= 4
      invariant forall k :: 0 <= k < i ==> broadcast[k] == Broadcast(s)[k]
      invariant forall k :: i <= k < 4 ==> broadcast[k] == s.ip[k]
    {
      broadcast[i] := OrByte(broadcast[i], 255 - s.mask[i]);
      i := i + 1;
    }
    assert broadcast[..] == Broadcast(s);
    r := broadcast[..] == ip;
  }
}
