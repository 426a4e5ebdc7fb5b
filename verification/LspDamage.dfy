/** What the assembler makes of packets and records that are not as a sender writes them. */
module LspDamage {
  import opened Bytes
  import opened Frames
  import opened LspPacket
  import opened LspAssembler
  import opened LspFragments
  import opened LspHeader
  import opened LspContainer
  import opened Options

  // ----- records

  /** A piece that can open a record. */
  predicate Opens(p: Piece) {
    !p.complete && |p.payload| == 32 && p.payload[..4] == [0x46, 0x52, 0x41, 0x4D]
  }

  function DeclaredTotal(p: Piece): nat
    requires Opens(p)
  {
    Number(p.payload[4..8])
  }

  function DeclaredRecord(p: Piece, data: seq<byte>): Record
    requires Opens(p)
  {
    Record(Number(p.payload[8..16]), Number(p.payload[16..24]), Number(p.payload[24..32]), data)
  }

  /** Between records any other piece is passed over, and a record that declares too little is an error. */
  lemma BetweenRecords(a: Assembler, p: Piece)
    requires a.active.None?
    ensures !Opens(p) ==> FoldPieces(a, [p]) == Outcome(a, [], true)
    ensures Opens(p) && DeclaredTotal(p) < 32 ==> FoldPieces(a, [p]) == Outcome(a, [], false)
  {
    if Opens(p) {
      Be32IsNumber(p.payload[4..8]);
    }
    hide Be32, Number;
    var step := EntryStep(a, p.complete, p.payload);
    assert [p][1..] == [] && FoldPieces(step.after, []) == Outcome(step.after, [], true);
  }

  /** Pieces of which none is complete only add to the record. */
  lemma {:induction false} Collects(a: Assembler, pieces: seq<Piece>)
    requires a.active.Some? && forall i :: 0 <= i < |pieces| ==> !pieces[i].complete
    ensures var f := a.active.value;
            FoldPieces(a, pieces) == Outcome(a.(active := Some(f.(data := f.data + Payloads(pieces)))), [], true)
    decreases |pieces|
  {
    var f := a.active.value;
    if pieces == [] {
      assert f.data + [] == f.data;
    } else {
      var step := EntryStep(a, false, pieces[0].payload);
      Collects(step.after, pieces[1..]);
      assert f.data + pieces[0].payload + Payloads(pieces[1..]) == f.data + Payloads(pieces);
    }
  }

  lemma ClosesRecord(a: Assembler, p: Piece)
    requires a.active.Some? && p.complete && |a.active.value.data| >= 32
    ensures var f := a.active.value;
            var whole := f.(data := f.data + p.payload);
            FoldPieces(a, [p]) ==
            if |whole.data| == whole.total
            then Outcome(Discarded(a).(sequence := a.sequence + 1), [Emitted(a, whole)], true)
            else Outcome(Discarded(a), [], true)
  {
    hide ContainsNal;
    var step := EntryStep(a, true, p.payload);
    assert [p][1..] == [] && FoldPieces(step.after, []) == Outcome(step.after, [], true);
    assert step.frames + [] == step.frames;
  }

  lemma OpensRecord(a: Assembler, p: Piece)
    requires a.active.None? && Opens(p) && DeclaredTotal(p) >= 32
    ensures FoldPieces(a, [p]) == Outcome(a.(active := Some(Opened(p.payload))), [], true)
  {
    Be32IsNumber(p.payload[4..8]);
    hide Be32, Number;
    var step := EntryStep(a, false, p.payload);
    assert [p][1..] == [] && FoldPieces(step.after, []) == Outcome(step.after, [], true);
  }

  lemma OpenedIs(p: Piece)
    requires Opens(p)
    ensures IsFramHeader(p.payload)
    ensures var r := DeclaredRecord(p, []);
            Opened(p.payload) == Active(DeclaredTotal(p), r.metadata0, r.metadata1, r.metadata2, p.payload)
  {
    hide Be32, Be64, Number;
    Be32IsNumber(p.payload[4..8]);
    Be64IsNumber(p.payload[8..16]);
    Be64IsNumber(p.payload[16..24]);
    Be64IsNumber(p.payload[24..32]);
  }

  /**
   A record, whatever total it declares and however its data is cut: it becomes its frame exactly if the total is
   right, and otherwise nothing. Either way the next record starts afresh.
   */
  lemma RecordCounted(a: Assembler, head: Piece, body: seq<Piece>, last: Piece)
    requires a.active.None? && Opens(head) && DeclaredTotal(head) >= 32
    requires (forall i :: 0 <= i < |body| ==> !body[i].complete) && last.complete
    ensures var data := Payloads(body) + last.payload;
            FoldPieces(a, [head] + body + [last]) ==
            if DeclaredTotal(head) == 32 + |data|
            then Outcome(a.(sequence := a.sequence + 1),
                         [FrameOf(a.deviceID, DeclaredRecord(head, data), a.sequence + 1)], true)
            else Outcome(a, [], true)
  {
    hide FoldPieces, Emitted, FrameOf, Opened, Opens;
    OpenedIs(head);
    var data := Payloads(body) + last.payload;
    var f := Opened(head.payload);
    RecordFolds(a, head, body, last);
    EmittedIs(a, f.(data := head.payload + data), head, data);
  }

  lemma EmittedIs(a: Assembler, whole: Active, head: Piece, data: seq<byte>)
    requires Opens(head) && whole == Opened(head.payload).(data := head.payload + data)
    ensures Emitted(a, whole) == FrameOf(a.deviceID, DeclaredRecord(head, data), a.sequence + 1)
  {
    hide ContainsNal, HasIdrSlice, Be32, Be64, Number;
    OpenedIs(head);
    assert (head.payload + data)[32..] == data;
    KeyFrameExactlyIf(data);
  }

  /** The same in terms of the record as it was opened. */
  lemma RecordFolds(a: Assembler, head: Piece, body: seq<Piece>, last: Piece)
    requires a.active.None? && Opens(head) && DeclaredTotal(head) >= 32
    requires (forall i :: 0 <= i < |body| ==> !body[i].complete) && last.complete
    ensures var f, data := Opened(head.payload), Payloads(body) + last.payload;
            FoldPieces(a, [head] + body + [last]) ==
            if f.total == 32 + |data|
            then Outcome(a.(sequence := a.sequence + 1), [Emitted(a, f.(data := head.payload + data))], true)
            else Outcome(a, [], true)
  {
    hide FoldPieces, EntryStep, ContainsNal, HasIdrSlice, Be32, Be64;
    var begun := a.(active := Some(Opened(head.payload)));
    OpenedIs(head);
    OpensRecord(a, head);
    Collects(begun, body);
    var f := begun.active.value;
    var grown := begun.(active := Some(f.(data := f.data + Payloads(body))));
    ClosesRecord(grown, last);
    FoldAppend(begun, body, [last]);
    FoldAppend(a, [head], body + [last]);
    assert [head] + body + [last] == [head] + (body + [last]);
    assert f.data + Payloads(body) + last.payload == head.payload + (Payloads(body) + last.payload);
    assert Discarded(grown) == a;
  }

  /** A record whose last piece has not come gives nothing yet. */
  lemma RecordPending(a: Assembler, head: Piece, body: seq<Piece>)
    requires a.active.None? && Opens(head) && DeclaredTotal(head) >= 32
    requires forall i :: 0 <= i < |body| ==> !body[i].complete
    ensures FoldPieces(a, [head] + body).frames == [] && FoldPieces(a, [head] + body).ok
  {
    hide FoldPieces, EntryStep;
    OpensRecord(a, head);
    Collects(a.(active := Some(Opened(head.payload))), body);
    FoldAppend(a, [head], body);
  }

  // ----- entries

  /** Bytes that are not the end of a section and cannot be read as an entry: of no known kind, or cut short. */
  predicate NoEntry(junk: seq<byte>) {
    && junk != [] && junk[0] != 0
    && match junk[0] / 0x20
       case 4 => |junk| < 2 || |junk| < 2 + (junk[0] as int * 0x100 + junk[1] as int) % 0x2000 + 1
       case 5 => |junk| < 6 || |junk| < 6 + (junk[4] as int * 0x100 + junk[5] as int) % 0x2000 + 1
       case _ => true
  }

  lemma NoEntryParse(packet: seq<byte>, k: nat)
    requires k <= |packet| && NoEntry(packet[k..])
    ensures packet[k] != 0
    ensures var h := ParseEntryHeader(packet, k);
            h.Some? ==> h.value.payloadStart + h.value.payloadLength > |packet|
  {
    var junk := packet[k..];
    assert packet[k] == junk[0];
    var size := if junk[0] / 0x20 == 4 then 2 else 6;
    if |junk| >= size {
      assert packet[k + size - 2..k + size][0] == junk[size - 2] && packet[k + size - 2..k + size][1] == junk[size - 1];
    }
  }

  lemma NoEntryFails(a: Assembler, before: seq<byte>, junk: seq<byte>)
    requires NoEntry(junk)
    ensures ConsumeEntries(a, before + junk, |before|) == Outcome(Discarded(a), [], false)
  {
    assert (before + junk)[|before|..] == junk;
    NoEntryParse(before + junk, |before|);
    hide NoEntry, ParseEntryHeader;
  }

  /** The result when something unreadable follows: the record under way is lost, and nothing else. */
  function CutShort(o: Outcome): Outcome {
    if !o.ok then o else Outcome(Discarded(o.after), o.frames, false)
  }

  /** The entries in front of damage count, and the damage ends the packet. */
  lemma {:induction false} EntriesUpToDamage(a: Assembler, pieces: seq<Piece>, before: seq<byte>, junk: seq<byte>)
    requires PiecesOk(pieces) && NoEntry(junk)
    ensures ConsumeEntries(a, before + EncodePieces(pieces) + junk, |before|) == CutShort(FoldPieces(a, pieces))
    decreases |pieces|
  {
    hide EntryStep, ParseEntryHeader, EncodePiece, NoEntry, ConsumeEntries;
    if pieces == [] {
      assert before + EncodePieces(pieces) + junk == before + junk;
      NoEntryFails(a, before, junk);
    } else {
      var p, more := pieces[0], pieces[1..];
      var behind := EncodePieces(more) + junk;
      assert before + EncodePieces(pieces) + junk == before + EncodePiece(p) + behind;
      assert before + EncodePiece(p) + behind == (before + EncodePiece(p)) + EncodePieces(more) + junk;
      FirstPieceIsNextEntry(a, p, before, behind);
      var step := EntryStep(a, p.complete, p.payload);
      if step.ok {
        EntriesUpToDamage(step.after, more, before + EncodePiece(p), junk);
      }
    }
  }

  // ----- packets

  /** No synchronization, no record, no frame, an error; the count of frames goes on. */
  predicate StartsOver(a: Assembler, o: Outcome) {
    && !o.ok && o.frames == []
    && !o.after.synchronized && o.after.active.None? && !o.after.serialInitialized
    && o.after.sequence == a.sequence && o.after.deviceID == a.deviceID
  }

  lemma WrongLength(a: Assembler, packet: seq<byte>)
    requires |packet| != 1400
    ensures StartsOver(a, Consume(a, packet))
  {
  }

  /** Without a header that is accepted and declares 16 to 1400 bytes, the assembler goes on waiting. */
  lemma NoHeader(a: Assembler, packet: seq<byte>)
    requires LspAssembler.Valid(a) && !a.synchronized && |packet| == 1400
    requires !(packet[..2] == [0x4C, 0x32] && packet[2..4] == HeaderCheck(packet[4..12])
               && 16 <= packet[12] as int * 0x100 + packet[13] as int + 1 <= 1400)
    ensures StartsOver(a, Consume(a, packet))
  {
    hide HeaderCheck, GoodL2Header, ConsumeSection, ActiveValid;
    AcceptedExactlyIf(packet);
    assert Be16(packet[12..14]) == packet[12] as int * 0x100 + packet[13] as int;
  }

  /** A packet that is damaged behind its pieces, taken by a synchronized assembler: it stays synchronized. */
  lemma LaterPacketDamaged(a: Assembler, before: seq<byte>, pieces: seq<Piece>, junk: seq<byte>, filler: seq<byte>)
    requires LspAssembler.Valid(a) && a.synchronized && |before| == 3 && PiecesOk(pieces) && NoEntry(junk)
    requires |before + EncodePieces(pieces) + junk| == a.packetSize && a.packetSize + |filler| == 1400
    ensures Consume(a, before + EncodePieces(pieces) + junk + filler) == CutShort(FoldPieces(a, pieces))
    ensures CutShort(FoldPieces(a, pieces)).after.synchronized
  {
    hide ConsumeEntries, EncodePieces, FoldPieces, ActiveValid, PiecesOk, NoEntry;
    var content := before + EncodePieces(pieces) + junk;
    assert (content + filler)[..a.packetSize] == content;
    EntriesUpToDamage(a, pieces, before, junk);
    StaysSynchronized(a, pieces);
  }

  lemma {:induction false} StaysSynchronized(a: Assembler, pieces: seq<Piece>)
    ensures FoldPieces(a, pieces).after.synchronized == a.synchronized
    decreases |pieces|
  {
    hide IsFramHeader, Opened, Emitted, Be32;
    if pieces != [] {
      StaysSynchronized(EntryStep(a, pieces[0].complete, pieces[0].payload).after, pieces[1..]);
    }
  }

  // ----- sections

  /**
   What may stand behind good descriptors without being a section: a descriptor of another kind, one with less data
   than it declares, a number that runs out, a list without a control byte, or a control byte without its serial.
   */
  datatype Fault =
    | Unknown(tag: nat, descriptor: Descriptor, more: seq<byte>)
    | CutData(tag: nat, tagBytes: nat, length: nat, lengthBytes: nat, data: seq<byte>)
    | CutTag(digits: seq<byte>)
    | CutLength(tag: nat, tagBytes: nat, digits: seq<byte>)
    | NoControl(closing: Descriptor)
    | CutSerial(closing: Descriptor, control: byte, serial: seq<byte>)

  /** Fewer than four bytes, each of which says that more follow. */
  predicate Unfinished(digits: seq<byte>) {
    |digits| < 4 && forall i :: 0 <= i < |digits| ==> digits[i] >= 0x80
  }

  predicate FaultOk(f: Fault) {
    match f
    case Unknown(tag, d, more) => DescriptorOk(tag, d) && tag != 0 && !(tag == 1 && |d.data| == 12 && d.data[0] == 0)
    case CutData(tag, tagBytes, length, lengthBytes, data) =>
      FitsIn(tag, tagBytes) && FitsIn(length, lengthBytes) && |data| < length
    case CutTag(digits) => Unfinished(digits)
    case CutLength(tag, tagBytes, digits) => FitsIn(tag, tagBytes) && Unfinished(digits)
    case NoControl(d) => DescriptorOk(0, d)
    case CutSerial(d, control, serial) => DescriptorOk(0, d) && control / 2 % 2 == 1 && |serial| < 2
  }

  function FaultBytes(f: Fault): seq<byte>
    requires FaultOk(f)
  {
    match f
    case Unknown(tag, d, more) => DescriptorBytes(tag, d) + more
    case CutData(tag, tagBytes, length, lengthBytes, data) =>
      WriteBase128(tag, tagBytes) + WriteBase128(length, lengthBytes) + data
    case CutTag(digits) => digits
    case CutLength(tag, tagBytes, digits) => WriteBase128(tag, tagBytes) + digits
    case NoControl(d) => DescriptorBytes(0, d)
    case CutSerial(d, control, serial) => DescriptorBytes(0, d) + [control] + serial
  }

  lemma {:induction false} UnfinishedFails(data: seq<byte>, cursor: nat, count: nat, value: nat)
    requires count < 4 && cursor <= |data| && |data| - cursor < 4 - count
    requires forall i :: cursor <= i < |data| ==> data[i] >= 0x80
    ensures Base128From(data, cursor, count, value).None?
    decreases 4 - count
  {
    if cursor < |data| {
      UnfinishedFails(data, cursor + 1, count + 1, value * 0x80 + (data[cursor] - 0x80));
    }
  }

  lemma UnknownFails(before: seq<byte>, tag: nat, d: Descriptor, more: seq<byte>)
    requires FaultOk(Unknown(tag, d, more))
    ensures Descriptors(before + FaultBytes(Unknown(tag, d, more)), |before|) == None
  {
    hide Base128, DescriptorBytes, FitsIn;
    DescriptorRead(before, tag, d, more);
    var p, start := before + DescriptorBytes(tag, d) + more, |before| + d.tagBytes + d.lengthBytes;
    assert before + FaultBytes(Unknown(tag, d, more)) == p;
    assert |d.data| > 0 ==> p[start] == p[start..start + |d.data|][0];
  }

  lemma CutDataFails(before: seq<byte>, tag: nat, tagBytes: nat, length: nat, lengthBytes: nat, data: seq<byte>)
    requires FaultOk(CutData(tag, tagBytes, length, lengthBytes, data))
    ensures Descriptors(before + FaultBytes(CutData(tag, tagBytes, length, lengthBytes, data)), |before|) == None
  {
    hide WriteBase128, Base128;
    var t, l := WriteBase128(tag, tagBytes), WriteBase128(length, lengthBytes);
    var p := before + FaultBytes(CutData(tag, tagBytes, length, lengthBytes, data));
    assert p == before + t + (l + data);
    Base128RoundTrip(tag, tagBytes, before, l + data);
    assert p == (before + t) + l + data;
    Base128RoundTrip(length, lengthBytes, before + t, data);
  }

  lemma CutNumberFails(before: seq<byte>, digits: seq<byte>)
    requires Unfinished(digits)
    ensures Base128(before + digits, |before|) == None
  {
    UnfinishedFails(before + digits, |before|, 0, 0);
  }

  lemma CutLengthFails(before: seq<byte>, tag: nat, tagBytes: nat, digits: seq<byte>)
    requires FaultOk(CutLength(tag, tagBytes, digits))
    ensures Descriptors(before + FaultBytes(CutLength(tag, tagBytes, digits)), |before|) == None
  {
    hide WriteBase128, Base128;
    var t := WriteBase128(tag, tagBytes);
    var p := before + FaultBytes(CutLength(tag, tagBytes, digits));
    assert p == before + t + digits;
    Base128RoundTrip(tag, tagBytes, before, digits);
    CutNumberFails(before + t, digits);
  }

  lemma NoListFails(a: Assembler, p: seq<byte>)
    requires Descriptors(p, L2_HEADER_SIZE).None?
    ensures ConsumeSection(a, p) == Outcome(Reset(a), [], false)
  {
    hide Descriptors;
  }

  lemma NoControlFails(a: Assembler, before: seq<byte>, d: Descriptor)
    requires DescriptorOk(0, d) && var p := before + DescriptorBytes(0, d);
             Descriptors(p, L2_HEADER_SIZE) == Descriptors(p, |before|)
    ensures ConsumeSection(a, before + DescriptorBytes(0, d)) == Outcome(Reset(a), [], false)
  {
    hide Descriptors, DescriptorBytes, DescriptorOk, ConsumeEntries, Be16;
    ClosingDescriptor(before, d, []);
    assert before + DescriptorBytes(0, d) + [] == before + DescriptorBytes(0, d);
  }

  lemma CutSerialFails(a: Assembler, before: seq<byte>, d: Descriptor, control: byte, serial: seq<byte>)
    requires DescriptorOk(0, d) && control / 2 % 2 == 1 && |serial| < 2
    requires var p := before + DescriptorBytes(0, d) + ([control] + serial);
             Descriptors(p, L2_HEADER_SIZE) == Descriptors(p, |before|)
    ensures ConsumeSection(a, before + DescriptorBytes(0, d) + ([control] + serial)) == Outcome(Reset(a), [], false)
  {
    hide Descriptors, DescriptorBytes, DescriptorOk, ConsumeEntries, Be16;
    ClosingDescriptor(before, d, [control] + serial);
    var p, k := before + DescriptorBytes(0, d) + ([control] + serial), |before + DescriptorBytes(0, d)|;
    assert p[k] == ([control] + serial)[0];
  }

  lemma FaultAt(a: Assembler, before: seq<byte>, f: Fault, p: seq<byte>)
    requires FaultOk(f) && p == before + FaultBytes(f) && |before| >= L2_HEADER_SIZE
    requires Descriptors(p, L2_HEADER_SIZE) == Descriptors(p, |before|)
    ensures ConsumeSection(a, p) == Outcome(Reset(a), [], false)
  {
    hide Descriptors, ConsumeSection, DescriptorBytes, DescriptorOk, FitsIn, WriteBase128;
    match f {
      case Unknown(tag, d, more) =>
        UnknownFails(before, tag, d, more);
        NoListFails(a, p);
      case CutData(tag, tagBytes, length, lengthBytes, data) =>
        CutDataFails(before, tag, tagBytes, length, lengthBytes, data);
        NoListFails(a, p);
      case CutTag(digits) =>
        CutTagFails(before, digits);
        NoListFails(a, p);
      case CutLength(tag, tagBytes, digits) =>
        CutLengthFails(before, tag, tagBytes, digits);
        NoListFails(a, p);
      case NoControl(d) => NoControlFails(a, before, d);
      case CutSerial(d, control, serial) =>
        assert p == before + DescriptorBytes(0, d) + ([control] + serial);
        CutSerialFails(a, before, d, control, serial);
    }
  }

  lemma CutTagFails(before: seq<byte>, digits: seq<byte>)
    requires Unfinished(digits)
    ensures Descriptors(before + digits, |before|) == None
  {
    hide Base128;
    CutNumberFails(before, digits);
  }

  lemma FaultySection(a: Assembler, header: seq<byte>, descriptors: seq<Descriptor>, f: Fault)
    requires (forall i :: 0 <= i < |descriptors| ==> Supported(descriptors[i])) && FaultOk(f)
    requires |header| == L2_HEADER_SIZE
    ensures ConsumeSection(a, header + ListBytes(descriptors) + FaultBytes(f)) == Outcome(Reset(a), [], false)
  {
    hide Descriptors, Supported, FaultOk, FaultBytes, ConsumeSection, ListBytes;
    var before := header + ListBytes(descriptors);
    DescriptorsReach(header, descriptors, FaultBytes(f));
    FaultAt(a, before, f, before + FaultBytes(f));
  }

  /** A packet with a good header and a faulty section: nothing of it counts, and the assembler waits again. */
  lemma FirstPacketFaulty(a: Assembler, anchor: seq<byte>, descriptors: seq<Descriptor>, f: Fault, filler: seq<byte>)
    requires LspAssembler.Valid(a) && !a.synchronized && |anchor| == 8 && FaultOk(f)
    requires forall i :: 0 <= i < |descriptors| ==> Supported(descriptors[i])
    requires var size := 14 + |ListBytes(descriptors) + FaultBytes(f)|; size >= 16 && size + |filler| == 1400
    ensures var content := ListBytes(descriptors) + FaultBytes(f);
            StartsOver(a, Consume(a, L2Header(anchor, 14 + |content|) + content + filler))
  {
    hide ConsumeSection, GoodL2Header, Be16, L2Header, ListBytes, FaultBytes, FaultOk, Supported, ActiveValid;
    var content := ListBytes(descriptors) + FaultBytes(f);
    var size := 14 + |content|;
    var header := L2Header(anchor, size);
    var packet := header + content + filler;
    HeaderAccepted(anchor, size, content + filler);
    assert packet == header + (content + filler);
    assert packet[..size] == header + content;
    var synced := a.(packetSize := size, synchronized := true);
    assert SyncHeader(a, packet) == (synced, true);
    assert header + content == header + ListBytes(descriptors) + FaultBytes(f);
    FaultySection(synced, header, descriptors, f);
  }

  /** A packet that synchronizes and is damaged behind its pieces: it has synchronized all the same. */
  lemma FirstPacketDamaged(a: Assembler, anchor: seq<byte>, s: Section, pieces: seq<Piece>, junk: seq<byte>,
                           filler: seq<byte>)
    requires LspAssembler.Valid(a) && !a.synchronized && |anchor| == 8 && SectionOk(s) && PiecesOk(pieces)
    requires NoEntry(junk)
    requires 14 + |SectionBytes(s) + (EncodePieces(pieces) + junk)| + |filler| == 1400
    ensures var content := SectionBytes(s) + (EncodePieces(pieces) + junk);
            var size := 14 + |content|;
            && Consume(a, L2Header(anchor, size) + content + filler) ==
                 CutShort(FoldPieces(InSection(a, size, s), pieces))
            && CutShort(FoldPieces(InSection(a, size, s), pieces)).after.synchronized
  {
    hide ConsumeEntries, ConsumeSection, GoodL2Header, Be16, PutBe16, SectionBytes, L2Header, EncodePieces,
        FoldPieces, ActiveValid, PiecesOk, SectionOk, NoEntry;
    var body := EncodePieces(pieces) + junk;
    var content := SectionBytes(s) + body;
    var size := 14 + |content|;
    var header := L2Header(anchor, size);
    var packet := header + content + filler;
    SectionNotEmpty(s);
    HeaderAccepted(anchor, size, content + filler);
    assert packet == header + (content + filler);
    assert packet[..size] == header + SectionBytes(s) + body;
    var synced := a.(packetSize := size, synchronized := true);
    assert SyncHeader(a, packet) == (synced, true);
    SectionRead(synced, header, s, body);
    EntriesUpToDamage(InSection(a, size, s), pieces, header + SectionBytes(s), junk);
    assert header + SectionBytes(s) + EncodePieces(pieces) + junk == header + SectionBytes(s) + body;
    StaysSynchronized(InSection(a, size, s), pieces);
  }
}
