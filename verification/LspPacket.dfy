/** The wire formats of the live video: EC-C1 datagrams, base-128 numbers and media entry headers. */
module LspPacket {
  import opened Bytes
  import opened Options

  const DATAGRAM_SIZE: nat := 1416
  const NIFFIN_HEADER_SIZE: nat := 8
  const PACKET_SIZE: nat := 1400
  const SEQUENCE_SPACE: nat := 0x80_0000

  // ----- datagrams

  datatype Niffin = Niffin(sequence: nat, generation: byte, sourceCount: byte, index: byte, packet: seq<byte>)
  datatype Datagram = Source(niffin: Niffin) | Parity | Invalid

  function ParseNiffin(d: seq<byte>): (r: Datagram)
    ensures r.Source? ==>
              && r.niffin.index < r.niffin.sourceCount && |r.niffin.packet| == PACKET_SIZE
              && r.niffin.sequence < SEQUENCE_SPACE
  {
    if |d| != DATAGRAM_SIZE then Invalid
    else if d[0] as int * 16 + d[1] / 16 != 0xECC || d[1] % 16 != 1 then Invalid
    else if d[6] == 0 then Invalid
    else if d[2] >= 0x80 then Parity
    else if d[7] >= d[6] then Invalid
    else Source(Niffin((d[2] % 0x80) as int * 0x1_0000 + d[3] as int * 0x100 + d[4], d[5], d[6], d[7],
                       d[NIFFIN_HEADER_SIZE..NIFFIN_HEADER_SIZE + PACKET_SIZE]))
  }

  /** A source datagram as a sender lays it out, with any trailer. */
  function NiffinBytes(n: Niffin, trailer: seq<byte>): seq<byte>
    requires n.sequence < SEQUENCE_SPACE
  {
    [0xEC, 0xC1, n.sequence / 0x1_0000, n.sequence / 0x100 % 0x100, n.sequence % 0x100, n.generation, n.sourceCount,
        n.index]
    + n.packet + trailer
  }

  /** Every well-formed source datagram is read back as it was written. */
  lemma NiffinRoundTrip(n: Niffin, trailer: seq<byte>)
    requires n.sequence < SEQUENCE_SPACE && n.index < n.sourceCount
    requires |n.packet| == PACKET_SIZE && |trailer| == 8
    ensures ParseNiffin(NiffinBytes(n, trailer)) == Source(n)
  {
    var d := NiffinBytes(n, trailer);
    assert d[NIFFIN_HEADER_SIZE..NIFFIN_HEADER_SIZE + PACKET_SIZE] == n.packet;
    assert n.sequence / 0x1_0000 < 0x80;
    assert n.sequence == n.sequence / 0x1_0000 * 0x1_0000 + n.sequence / 0x100 % 0x100 * 0x100 + n.sequence % 0x100;
  }

  // ----- base-128 numbers

  /** `v << 7 | c` for a whole byte `c`, whose top bit falls on the lowest bit of `v`. */
  function ShiftOr(v: nat, c: byte): nat {
    if c < 0x80 then v * 0x80 + c
    else if v % 2 == 1 then v * 0x80 + (c - 0x80)
    else v * 0x80 + c
  }

  /** The number at `cursor` and the position behind it, after `count` bytes worth `value`. */
  function Base128From(data: seq<byte>, cursor: nat, count: nat, value: nat): (r: Option<(nat, nat)>)
    requires count < 4
    ensures r.Some? ==> cursor < r.value.1 <= |data|
    decreases 4 - count
  {
    if cursor >= |data| then None
    else if count == 3 then Some((ShiftOr(value, data[cursor]), cursor + 1))
    else if data[cursor] < 0x80 then Some((value * 0x80 + data[cursor], cursor + 1))
    else Base128From(data, cursor + 1, count + 1, value * 0x80 + (data[cursor] - 0x80))
  }

  function Base128(data: seq<byte>, cursor: nat): (r: Option<(nat, nat)>)
    ensures r.Some? ==> cursor < r.value.1 <= |data|
  {
    Base128From(data, cursor, 0, 0)
  }

  lemma Base128Step(data: seq<byte>, cursor: nat, count: nat, value: nat)
    requires count < 4 && cursor < |data|
    ensures var b := data[cursor];
      Base128From(data, cursor, count, value) ==
        if count == 3 then Some((ShiftOr(value, b), cursor + 1))
        else if b < 0x80 then Some((value * 0x80 + b % 0x80, cursor + 1))
        else Base128From(data, cursor + 1, count + 1, value * 0x80 + b % 0x80)
  {
    hide ShiftOr;
  }

  method ReadBase128(data: seq<byte>, start: nat) returns (r: Option<(nat, nat)>)
    ensures r == Base128(data, start)
  {
    hide ShiftOr;
    var cursor: nat, value: nat, count: nat := start, 0, 0;
    while count < 4
      invariant 0 <= count <= 3
      invariant Base128(data, start) == Base128From(data, cursor, count, value)
      decreases 4 - count
    {
      if cursor >= |data| {
        return None;
      }
      Base128Step(data, cursor, count, value);
      var current := data[cursor];
      cursor := cursor + 1;
      if count == 3 {
        return Some((ShiftOr(value, current), cursor));
      }
      value := value * 0x80 + (current as int % 0x80);
      if current < 0x80 {
        return Some((value, cursor));
      }
      count := count + 1;
    }
  }

  /** The writer for `n` bytes: a continuation bit on all but the last, seven bits in each. */
  function WriteBase128(v: nat, n: nat): (s: seq<byte>)
    requires n > 0
    ensures |s| == n
  {
    if n == 1 then [v % 0x80] else Continue(v / 0x80, n - 1) + [v % 0x80]
  }

  function Continue(v: nat, n: nat): (s: seq<byte>)
    requires n > 0
    ensures |s| == n
  {
    if n == 1 then [0x80 + v % 0x80] else Continue(v / 0x80, n - 1) + [0x80 + v % 0x80]
  }

  lemma ReadTwo(data: seq<byte>, k: nat, c: nat, d: nat)
    requires k + 2 <= |data| && c < 0x80 && d < 0x80 && data[k] == 0x80 + c && data[k + 1] == d
    ensures Base128(data, k) == Some((c * 0x80 + d, k + 2))
  {
    assert Base128(data, k) == Base128From(data, k + 1, 1, c);
  }

  lemma ReadThree(data: seq<byte>, k: nat, b: nat, c: nat, d: nat)
    requires k + 3 <= |data| && b < 0x80 && c < 0x80 && d < 0x80
    requires data[k] == 0x80 + b && data[k + 1] == 0x80 + c && data[k + 2] == d
    ensures Base128(data, k) == Some(((b * 0x80 + c) * 0x80 + d, k + 3))
  {
    assert Base128(data, k) == Base128From(data, k + 1, 1, b) == Base128From(data, k + 2, 2, b * 0x80 + c);
  }

  lemma ReadFour(data: seq<byte>, k: nat, a: nat, b: nat, c: nat, d: nat)
    requires k + 4 <= |data| && a < 0x80 && b < 0x80 && c < 0x80 && d < 0x80
    requires data[k] == 0x80 + a && data[k + 1] == 0x80 + b && data[k + 2] == 0x80 + c && data[k + 3] == d
    ensures Base128(data, k) == Some((((a * 0x80 + b) * 0x80 + c) * 0x80 + d, k + 4))
  {
    assert Base128(data, k) == Base128From(data, k + 1, 1, a);
    assert Base128From(data, k + 1, 1, a) == Base128From(data, k + 2, 2, a * 0x80 + b);
    assert Base128From(data, k + 2, 2, a * 0x80 + b) == Base128From(data, k + 3, 3, (a * 0x80 + b) * 0x80 + c);
  }

  /** The written bytes, digit by digit. */
  lemma WrittenDigits(v: nat, n: nat)
    requires 1 <= n <= 4
    ensures var a, b, c, d := v / 0x80 / 0x80 / 0x80 % 0x80, v / 0x80 / 0x80 % 0x80, v / 0x80 % 0x80, v % 0x80;
            WriteBase128(v, n) ==
            if n == 1 then [d] else if n == 2 then [0x80 + c, d] else if n == 3 then [0x80 + b, 0x80 + c, d]
            else [0x80 + a, 0x80 + b, 0x80 + c, d]
  {
    var b, c := v / 0x80 / 0x80, v / 0x80;
    assert Continue(b, 2) == Continue(b / 0x80, 1) + [0x80 + b % 0x80];
    assert Continue(c, 3) == Continue(b, 2) + [0x80 + c % 0x80];
    assert Continue(c, 2) == Continue(b, 1) + [0x80 + c % 0x80];
  }

  /** The number can be written in so many bytes. */
  predicate FitsIn(v: nat, n: nat) {
    1 <= n <= 4 && v < (if n == 1 then 0x80 else if n == 2 then 0x4000 else if n == 3 then 0x20_0000 else 0x1000_0000)
  }

  /** Reading undoes writing for every number that fits, in one to four bytes and before anything. */
  lemma Base128RoundTrip(v: nat, n: nat, before: seq<byte>, behind: seq<byte>)
    requires FitsIn(v, n)
    ensures Base128(before + WriteBase128(v, n) + behind, |before|) == Some((v, |before| + n))
  {
    hide WriteBase128, Base128;
    WrittenDigits(v, n);
    var data, k, w := before + WriteBase128(v, n) + behind, |before|, WriteBase128(v, n);
    assert forall i :: 0 <= i < n ==> data[k + i] == w[i];
    var a, b, c, d := v / 0x80 / 0x80 / 0x80 % 0x80, v / 0x80 / 0x80 % 0x80, v / 0x80 % 0x80, v % 0x80;
    assert data[k + 0] == w[0];
    if n == 1 {
      ReadOne(data, k, d);
    } else if n == 2 {
      ReadTwo(data, k, c, d);
    } else if n == 3 {
      ReadThree(data, k, b, c, d);
    } else {
      ReadFour(data, k, a, b, c, d);
    }
  }

  lemma ReadOne(data: seq<byte>, k: nat, d: nat)
    requires k < |data| && d < 0x80 && data[k] == d
    ensures Base128(data, k) == Some((d, k + 1))
  {
  }

  /**
   A fourth byte is the last whatever its top bit, which is not masked and so falls on the lowest bit of the digit
   before: set there already or not, the number is the one with that bit set.
   */
  lemma FourthByteOverlaps(data: seq<byte>, k: nat)
    requires k + 4 <= |data| && forall i :: k <= i < k + 4 ==> data[i] >= 0x80
    ensures var third := if data[k + 2] % 2 == 0 then data[k + 2] + 1 else data[k + 2];
            Base128(data, k) == Base128(data[k + 2 := third][k + 3 := data[k + 3] - 0x80], k)
  {
    hide Base128;
    var a, b, c, d := data[k] - 0x80, data[k + 1] - 0x80, data[k + 2] - 0x80, data[k + 3] - 0x80;
    var third := if c % 2 == 0 then c + 1 else c;
    ReadFour(data[k + 2 := 0x80 + third][k + 3 := d], k, a, b, third, d);
    ReadFourWhole(data, k, a, b, c);
  }

  lemma ReadFourWhole(data: seq<byte>, k: nat, a: nat, b: nat, c: nat)
    requires k + 4 <= |data| && a < 0x80 && b < 0x80 && c < 0x80
    requires data[k] == 0x80 + a && data[k + 1] == 0x80 + b && data[k + 2] == 0x80 + c
    ensures Base128(data, k) == Some((ShiftOr((a * 0x80 + b) * 0x80 + c, data[k + 3]), k + 4))
  {
    hide ShiftOr;
    assert Base128(data, k) == Base128From(data, k + 1, 1, a);
    assert Base128From(data, k + 1, 1, a) == Base128From(data, k + 2, 2, a * 0x80 + b);
    assert Base128From(data, k + 2, 2, a * 0x80 + b) == Base128From(data, k + 3, 3, (a * 0x80 + b) * 0x80 + c);
  }

  // ----- media entries

  datatype EntryHeader = EntryHeader(complete: bool, payloadStart: nat, payloadLength: nat)

  /** A continuing entry has a two-byte header, a completing one six; both end in a 13-bit length less one. */
  function ParseEntryHeader(packet: seq<byte>, cursor: nat): (r: Option<EntryHeader>)
    requires cursor < |packet|
    ensures r.Some? ==> cursor < r.value.payloadStart <= |packet| && r.value.payloadLength >= 1
  {
    var kind := packet[cursor] / 0x20;
    if kind != 4 && kind != 5 then None
    else
      var headerSize := if kind == 4 then 2 else 6;
      if cursor + headerSize > |packet| then None
      else Some(EntryHeader(kind == 5, cursor + headerSize,
                            Be16(packet[cursor + headerSize - 2..cursor + headerSize]) % 0x2000 + 1))
  }

  // ----- H.264

  /** A NAL of the given type starts at `i`; a long start code is preferred to a short one. */
  predicate NalAt(payload: seq<byte>, i: nat, target: byte) {
    && i + 4 < |payload| && payload[i] == 0 && payload[i + 1] == 0
    && (if payload[i + 2] == 1 then payload[i + 3] % 0x20 == target
        else payload[i + 2] == 0 && payload[i + 3] == 1 && payload[i + 4] % 0x20 == target)
  }

  predicate ContainsNal(payload: seq<byte>, target: byte) {
    exists i :: 0 <= i < |payload| && NalAt(payload, i, target)
  }

  method ContainsNALType(payload: seq<byte>, target: byte) returns (found: bool)
    ensures found <==> ContainsNal(payload, target)
  {
    var index := 0;
    while index + 4 < |payload|
      invariant 0 <= index
      invariant forall i :: 0 <= i < index ==> !NalAt(payload, i, target)
    {
      var header := -1;
      if payload[index] == 0 && payload[index + 1] == 0 && payload[index + 2] == 1 {
        header := index + 3;
      }
      if payload[index] == 0 && payload[index + 1] == 0 && payload[index + 2] == 0 && payload[index + 3] == 1 {
        header := index + 4;
      }
      if header >= 0 && payload[header] % 0x20 == target {
        assert NalAt(payload, index, target);
        return true;
      }
      index := index + 1;
    }
    return false;
  }
}
