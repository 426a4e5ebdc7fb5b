/**
 Whole MoLive packets as a sender writes them: an L2 header, descriptors, section control and then the
 pieces of records; or, once synchronized, three bytes and then pieces.
 */
module LspContainer {
  import opened Bytes
  import opened Bits
  import opened LspPacket
  import opened LspAssembler
  import opened LspFragments
  import opened LspHeader
  import opened Options

  /** A descriptor: the bytes its tag and its length are written in, and its data. */
  datatype Descriptor = Descriptor(tagBytes: nat, lengthBytes: nat, data: seq<byte>)

  /** What stands between the L2 header and the media entries. */
  datatype Section = Section(descriptors: seq<Descriptor>, closing: Descriptor, control: byte, serial: nat)

  predicate DescriptorOk(tag: nat, d: Descriptor) {
    FitsIn(tag, d.tagBytes) && FitsIn(|d.data|, d.lengthBytes)
  }

  /** The one kind of descriptor the assembler reads over. */
  predicate Supported(d: Descriptor) {
    DescriptorOk(1, d) && |d.data| == 12 && d.data[0] == 0
  }

  predicate SectionOk(s: Section) {
    && (forall i :: 0 <= i < |s.descriptors| ==> Supported(s.descriptors[i]))
    && DescriptorOk(0, s.closing) && s.serial < 0x1_0000
  }

  predicate HasSerial(s: Section) {
    s.control / 2 % 2 == 1
  }

  function DescriptorBytes(tag: nat, d: Descriptor): seq<byte>
    requires DescriptorOk(tag, d)
  {
    WriteBase128(tag, d.tagBytes) + WriteBase128(|d.data|, d.lengthBytes) + d.data
  }

  function ListBytes(descriptors: seq<Descriptor>): seq<byte>
    requires forall i :: 0 <= i < |descriptors| ==> Supported(descriptors[i])
  {
    if descriptors == [] then []
    else
      assert Supported(descriptors[0]);
      DescriptorBytes(1, descriptors[0]) + ListBytes(descriptors[1..])
  }

  function SectionBytes(s: Section): seq<byte>
    requires SectionOk(s)
  {
    ListBytes(s.descriptors) + DescriptorBytes(0, s.closing)
    + ([s.control] + if HasSerial(s) then PutBe16(s.serial) else [])
  }

  /** The header for an anchor of eight bytes and a declared size. */
  function L2Header(anchor: seq<byte>, size: nat): (h: seq<byte>)
    requires |anchor| == 8 && size > 0
    ensures |h| == L2_HEADER_SIZE
  {
    [0x4C, 0x32] + HeaderCheck(anchor) + anchor + PutBe16(size - 1)
  }

  lemma Be16OfPutSmall(n: nat)
    requires n < 0x1_0000
    ensures Be16(PutBe16(n)) == n
  {
  }

  /** The header is accepted and declares its size, whatever follows. */
  lemma HeaderAccepted(anchor: seq<byte>, size: nat, rest: seq<byte>)
    requires |anchor| == 8 && 0 < size <= 0x1_0000
    ensures GoodL2Header(L2Header(anchor, size) + rest)
    ensures Be16((L2Header(anchor, size) + rest)[12..14]) + 1 == size
  {
    hide HeaderCheck, PutBe16, Be16, GoodL2Header;
    var packet := L2Header(anchor, size) + rest;
    assert packet[4..12] == anchor && packet[2..4] == HeaderCheck(anchor) && packet[..2] == [0x4C, 0x32];
    assert packet[12..14] == PutBe16(size - 1);
    AcceptedExactlyIf(packet);
    Be16OfPutSmall(size - 1);
  }

  /** A written descriptor is read back: its tag, its length, and where its data lies. */
  lemma DescriptorRead(before: seq<byte>, tag: nat, d: Descriptor, rest: seq<byte>)
    requires DescriptorOk(tag, d)
    ensures var p, k := before + DescriptorBytes(tag, d) + rest, |before| + d.tagBytes;
            && Base128(p, |before|) == Some((tag, k)) && Base128(p, k) == Some((|d.data|, k + d.lengthBytes))
            && k + d.lengthBytes + |d.data| <= |p| && |DescriptorBytes(tag, d)| == d.tagBytes + d.lengthBytes + |d.data|
            && p[k + d.lengthBytes..k + d.lengthBytes + |d.data|] == d.data
  {
    hide WriteBase128, Base128;
    var t, l := WriteBase128(tag, d.tagBytes), WriteBase128(|d.data|, d.lengthBytes);
    var p := before + DescriptorBytes(tag, d) + rest;
    assert p == before + t + (l + d.data + rest);
    Base128RoundTrip(tag, d.tagBytes, before, l + d.data + rest);
    assert p == (before + t) + l + (d.data + rest);
    Base128RoundTrip(|d.data|, d.lengthBytes, before + t, d.data + rest);
  }

  lemma OneDescriptor(before: seq<byte>, d: Descriptor, rest: seq<byte>)
    requires Supported(d)
    ensures var p := before + DescriptorBytes(1, d) + rest;
            Descriptors(p, |before|) == Descriptors(p, |before + DescriptorBytes(1, d)|)
  {
    hide Base128, DescriptorBytes, FitsIn;
    DescriptorRead(before, 1, d, rest);
    var p, start := before + DescriptorBytes(1, d) + rest, |before| + d.tagBytes + d.lengthBytes;
    assert p[start..start + |d.data|][0] == d.data[0];
  }

  lemma ClosingDescriptor(before: seq<byte>, d: Descriptor, rest: seq<byte>)
    requires DescriptorOk(0, d)
    ensures Descriptors(before + DescriptorBytes(0, d) + rest, |before|) == Some(|before + DescriptorBytes(0, d)|)
  {
    hide Base128, DescriptorBytes, FitsIn;
    DescriptorRead(before, 0, d, rest);
  }

  /** Good descriptors are skipped, whatever follows. */
  lemma {:induction false} DescriptorsReach(before: seq<byte>, descriptors: seq<Descriptor>, rest: seq<byte>)
    requires forall i :: 0 <= i < |descriptors| ==> Supported(descriptors[i])
    ensures var p := before + ListBytes(descriptors) + rest;
            Descriptors(p, |before|) == Descriptors(p, |before + ListBytes(descriptors)|)
    decreases |descriptors|
  {
    hide Descriptors, DescriptorBytes, Supported, DescriptorOk;
    if descriptors != [] {
      var d, more := descriptors[0], descriptors[1..];
      SupportedIsOk(d);
      var before' := before + DescriptorBytes(1, d);
      var p := before + ListBytes(descriptors) + rest;
      assert p == before' + ListBytes(more) + rest;
      assert p == before + DescriptorBytes(1, d) + (ListBytes(more) + rest);
      OneDescriptor(before, d, ListBytes(more) + rest);
      DescriptorsReach(before', more, rest);
      assert before' + ListBytes(more) == before + ListBytes(descriptors);
    }
  }

  /** The descriptor list is skipped to its end. */
  lemma DescriptorsSkipped(before: seq<byte>, descriptors: seq<Descriptor>, closing: Descriptor, rest: seq<byte>)
    requires (forall i :: 0 <= i < |descriptors| ==> Supported(descriptors[i])) && DescriptorOk(0, closing)
    ensures Descriptors(before + (ListBytes(descriptors) + DescriptorBytes(0, closing)) + rest, |before|) ==
            Some(|before| + |ListBytes(descriptors) + DescriptorBytes(0, closing)|)
  {
    hide Descriptors, DescriptorBytes, Supported, DescriptorOk, ListBytes;
    var list, end := ListBytes(descriptors), DescriptorBytes(0, closing);
    DescriptorsReach(before, descriptors, end + rest);
    ClosingDescriptor(before + list, closing, rest);
    assert before + (list + end) + rest == before + list + (end + rest);
    assert before + list + end + rest == before + list + (end + rest);
  }

  lemma SupportedIsOk(d: Descriptor)
    requires Supported(d)
    ensures DescriptorOk(1, d)
  {
  }

  /** The assembler once it has read the section of a packet of the given size. */
  function InSection(a: Assembler, size: nat, s: Section): Assembler {
    var synced := a.(packetSize := size, synchronized := true);
    if HasSerial(s) then synced.(serial := s.serial, serialInitialized := true) else synced
  }

  lemma SectionRead(a: Assembler, header: seq<byte>, s: Section, body: seq<byte>)
    requires SectionOk(s) && |header| == L2_HEADER_SIZE && !a.serialInitialized
    ensures ConsumeSection(a, header + SectionBytes(s) + body) ==
            ConsumeEntries(if HasSerial(s) then a.(serial := s.serial, serialInitialized := true) else a,
                           header + SectionBytes(s) + body, L2_HEADER_SIZE + |SectionBytes(s)|)
  {
    hide ConsumeEntries, Descriptors, Be16, PutBe16, DescriptorBytes, ListBytes, DescriptorOk, Supported;
    var list := ListBytes(s.descriptors) + DescriptorBytes(0, s.closing);
    var control := [s.control] + if HasSerial(s) then PutBe16(s.serial) else [];
    var p, k := header + SectionBytes(s) + body, L2_HEADER_SIZE + |list|;
    assert p == header + list + (control + body);
    DescriptorsSkipped(header, s.descriptors, s.closing, control + body);
    assert p[k] == s.control;
    if HasSerial(s) {
      assert p[k + 1..k + 3] == PutBe16(s.serial);
      Be16OfPutSmall(s.serial);
    }
  }

  /**
   A packet an unsynchronized assembler meets first: it synchronizes, reads over the section, and its
   entries are exactly the pieces in it.
   */
  lemma FirstPacketRead(a: Assembler, anchor: seq<byte>, s: Section, pieces: seq<Piece>, tail: seq<byte>,
                        filler: seq<byte>)
    requires LspAssembler.Valid(a) && !a.synchronized && |anchor| == 8 && SectionOk(s) && PiecesOk(pieces)
        && EndsSection(tail)
    requires |SectionBytes(s) + (EncodePieces(pieces) + tail)| + L2_HEADER_SIZE + |filler| == PACKET_SIZE
    ensures var content := SectionBytes(s) + (EncodePieces(pieces) + tail);
            var size := L2_HEADER_SIZE + |content|;
            Consume(a, L2Header(anchor, size) + content + filler) == FoldPieces(InSection(a, size, s), pieces)
  {
    hide ConsumeEntries, ConsumeSection, GoodL2Header, Be16, PutBe16, SectionBytes, L2Header, EncodePieces,
        FoldPieces, ActiveValid, PiecesOk, SectionOk;
    var body := EncodePieces(pieces) + tail;
    var content := SectionBytes(s) + body;
    var size := L2_HEADER_SIZE + |content|;
    var header := L2Header(anchor, size);
    var packet := header + content + filler;
    SectionNotEmpty(s);
    HeaderAccepted(anchor, size, content + filler);
    assert packet == header + (content + filler);
    assert packet[..size] == header + SectionBytes(s) + body;
    var synced := a.(packetSize := size, synchronized := true);
    assert SyncHeader(a, packet) == (synced, true);
    SectionRead(synced, header, s, body);
    PacketIsItsPieces(InSection(a, size, s), pieces, header + SectionBytes(s), tail);
    assert header + SectionBytes(s) + EncodePieces(pieces) + tail == header + SectionBytes(s) + body;
  }

  lemma SectionNotEmpty(s: Section)
    requires SectionOk(s)
    ensures |SectionBytes(s)| >= 3
  {
  }

  /** A later packet: three bytes, then pieces up to the synchronized size. */
  lemma LaterPacketRead(a: Assembler, before: seq<byte>, pieces: seq<Piece>, tail: seq<byte>, filler: seq<byte>)
    requires LspAssembler.Valid(a) && a.synchronized && |before| == 3 && PiecesOk(pieces) && EndsSection(tail)
    requires |before + EncodePieces(pieces) + tail| == a.packetSize && a.packetSize + |filler| == PACKET_SIZE
    ensures Consume(a, before + EncodePieces(pieces) + tail + filler) == FoldPieces(a, pieces)
  {
    hide ConsumeEntries, EncodePieces, FoldPieces, ActiveValid, PiecesOk;
    var content := before + EncodePieces(pieces) + tail;
    assert (content + filler)[..a.packetSize] == content;
    PacketIsItsPieces(a, pieces, before, tail);
  }
}
