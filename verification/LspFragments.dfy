/**
 The sender's side of the media entries: cutting FRAM records into pieces and placing the pieces into
 packets. However that is done, the assembler puts the same frames together again.
 */
module LspFragments {
  import opened Bytes
  import opened Frames
  import opened LspPacket
  import opened LspAssembler
  import opened Options

  /** A piece of a record. `spare` are the bits of its header the assembler does not look at. */
  datatype Piece = Piece(complete: bool, payload: seq<byte>, spare: seq<byte>)

  predicate PieceOk(p: Piece) {
    && 1 <= |p.payload| <= 0x2000
    && (p.complete ==> |p.spare| == 5 && p.spare[0] < 0x20 && p.spare[4] < 8)
  }

  predicate PiecesOk(pieces: seq<Piece>) {
    forall i :: 0 <= i < |pieces| ==> PieceOk(pieces[i])
  }

  function PieceHeader(p: Piece): (h: seq<byte>)
    requires PieceOk(p)
    ensures |h| == if p.complete then 6 else 2
  {
    var n := |p.payload| - 1;
    if p.complete then [0xA0 + p.spare[0], p.spare[1], p.spare[2], p.spare[3], p.spare[4] * 0x20 + n / 0x100, n % 0x100]
    else [0x80 + n / 0x100, n % 0x100]
  }

  function EncodePiece(p: Piece): seq<byte>
    requires PieceOk(p)
  {
    PieceHeader(p) + p.payload
  }

  function EncodePieces(pieces: seq<Piece>): seq<byte>
    requires PiecesOk(pieces)
  {
    if pieces == [] then [] else EncodePiece(pieces[0]) + EncodePieces(pieces[1..])
  }

  /** The pieces taken one after the other, with no packet around them. */
  function FoldPieces(a: Assembler, pieces: seq<Piece>): Outcome
    decreases |pieces|
  {
    if pieces == [] then Outcome(a, [], true)
    else
      var step := EntryStep(a, pieces[0].complete, pieces[0].payload);
      if !step.ok then step else Prepend(step.frames, FoldPieces(step.after, pieces[1..]))
  }

  // ----- a packet of pieces

  /** The section ends with the packet, or with a zero byte and anything behind it. */
  predicate EndsSection(tail: seq<byte>) {
    tail == [] || tail[0] == 0
  }

  lemma HeaderParses(p: Piece, before: seq<byte>, behind: seq<byte>)
    requires PieceOk(p)
    ensures var packet, k := before + EncodePiece(p) + behind, |before|;
            && k < |packet| && packet[k] != 0
            && ParseEntryHeader(packet, k) == Some(EntryHeader(p.complete, k + |PieceHeader(p)|, |p.payload|))
  {
    var packet, k, h := before + EncodePiece(p) + behind, |before|, PieceHeader(p);
    assert forall i :: 0 <= i < |h| ==> packet[k + i] == h[i];
    assert packet[k + 0] == h[0];
    var n := |p.payload| - 1;
    var field := packet[k + |h| - 2..k + |h|];
    assert field[0] == h[|h| - 2] && field[1] == h[|h| - 1];
    if p.complete {
      LengthField(p.spare[4], n);
    } else {
      LengthField(4, n);
    }
  }

  /** The low 13 bits of a length field. */
  lemma LengthField(top: nat, n: nat)
    requires n < 0x2000
    ensures ((top * 0x20 + n / 0x100) * 0x100 + n % 0x100) % 0x2000 == n
  {
    assert (top * 0x20 + n / 0x100) * 0x100 + n % 0x100 == top * 0x2000 + n;
    DivModUnique(top * 0x2000 + n, 0x2000, top, n);
  }

  /** The first piece of a packet is its next entry. */
  lemma FirstPieceIsNextEntry(a: Assembler, p: Piece, before: seq<byte>, behind: seq<byte>)
    requires PieceOk(p)
    ensures var step := EntryStep(a, p.complete, p.payload);
            ConsumeEntries(a, before + EncodePiece(p) + behind, |before|) ==
            if !step.ok then step
            else
              var next := before + EncodePiece(p);
              Prepend(step.frames, ConsumeEntries(step.after, next + behind, |next|))
  {
    hide EntryStep, ParseEntryHeader, ConsumeEntries;
    HeaderParses(p, before, behind);
    var packet, start := before + EncodePiece(p) + behind, |before| + |PieceHeader(p)|;
    var h := EntryHeader(p.complete, start, |p.payload|);
    assert packet[start..start + |p.payload|] == p.payload;
    ConsumeEntriesStep(a, packet, |before|, h, EntryStep(a, p.complete, p.payload));
  }

  /** A packet's entries are exactly its pieces, whatever stands before and behind them. */
  lemma {:induction false} PacketIsItsPieces(a: Assembler, pieces: seq<Piece>, before: seq<byte>, tail: seq<byte>)
    requires PiecesOk(pieces) && EndsSection(tail)
    ensures ConsumeEntries(a, before + EncodePieces(pieces) + tail, |before|) == FoldPieces(a, pieces)
    decreases |pieces|
  {
    hide EntryStep, ParseEntryHeader, EncodePiece;
    if pieces == [] {
      assert before + EncodePieces(pieces) + tail == before + tail;
    } else {
      hide ConsumeEntries;
      var p, more := pieces[0], pieces[1..];
      var behind := EncodePieces(more) + tail;
      assert before + EncodePieces(pieces) + tail == before + EncodePiece(p) + behind;
      assert before + EncodePiece(p) + behind == (before + EncodePiece(p)) + EncodePieces(more) + tail;
      FirstPieceIsNextEntry(a, p, before, behind);
      var step := EntryStep(a, p.complete, p.payload);
      if step.ok {
        PacketIsItsPieces(step.after, more, before + EncodePiece(p), tail);
      }
    }
  }

  // ----- packets, one after the other

  /** A packet as the assembler sees it: some bytes, then the pieces, then the end of the section. */
  datatype Placed = Placed(before: seq<byte>, pieces: seq<Piece>, tail: seq<byte>)

  predicate PlacedOk(p: Placed) {
    PiecesOk(p.pieces) && EndsSection(p.tail)
  }

  /** The packets consumed in order, stopping at an error. */
  function ConsumePackets(a: Assembler, packets: seq<Placed>): Outcome
    requires forall i :: 0 <= i < |packets| ==> PlacedOk(packets[i])
    decreases |packets|
  {
    if packets == [] then Outcome(a, [], true)
    else
      var p := packets[0];
      assert PlacedOk(p);
      var first := ConsumeEntries(a, p.before + EncodePieces(p.pieces) + p.tail, |p.before|);
      if !first.ok then first else Prepend(first.frames, ConsumePackets(first.after, packets[1..]))
  }

  function AllPieces(packets: seq<Placed>): seq<Piece> {
    if packets == [] then [] else packets[0].pieces + AllPieces(packets[1..])
  }

  lemma {:induction false} FoldAppend(a: Assembler, p: seq<Piece>, q: seq<Piece>)
    ensures FoldPieces(a, p + q) ==
            var first := FoldPieces(a, p);
            if !first.ok then first else Prepend(first.frames, FoldPieces(first.after, q))
    decreases |p|
  {
    hide EntryStep;
    if p == [] {
      assert p + q == q;
      assert [] + FoldPieces(a, q).frames == FoldPieces(a, q).frames;
    } else {
      assert (p + q)[0] == p[0] && (p + q)[1..] == p[1..] + q;
      var step := EntryStep(a, p[0].complete, p[0].payload);
      if step.ok {
        FoldAppend(step.after, p[1..], q);
        var first := FoldPieces(step.after, p[1..]);
        if first.ok {
          FramesAssociate(step.frames, first.frames, FoldPieces(first.after, q).frames);
        }
      }
    }
  }

  lemma FramesAssociate(x: seq<VideoFrame>, y: seq<VideoFrame>, z: seq<VideoFrame>)
    ensures x + (y + z) == x + y + z
  {
  }

  /** Packet boundaries do not matter: only the pieces in their order do. */
  lemma {:induction false} BoundariesDoNotMatter(a: Assembler, packets: seq<Placed>)
    requires forall i :: 0 <= i < |packets| ==> PlacedOk(packets[i])
    ensures ConsumePackets(a, packets) == FoldPieces(a, AllPieces(packets))
    decreases |packets|
  {
    hide EntryStep, ConsumeEntries;
    if packets != [] {
      var p := packets[0];
      PacketIsItsPieces(a, p.pieces, p.before, p.tail);
      FoldAppend(a, p.pieces, AllPieces(packets[1..]));
      BoundariesDoNotMatter(FoldPieces(a, p.pieces).after, packets[1..]);
    }
  }

  // ----- records and their fragmentations

  datatype Record = Record(metadata0: nat, metadata1: nat, metadata2: nat, data: seq<byte>)

  predicate RecordOk(r: Record) {
    && 1 <= |r.data| < 0x1_0000_0000 - FRAM_HEADER_SIZE
    && r.metadata0 < 0x1_0000_0000_0000_0000 && r.metadata1 < 0x1_0000_0000_0000_0000
    && r.metadata2 < 0x1_0000_0000_0000_0000
  }

  function RecordHeader(r: Record): (h: seq<byte>)
    ensures |h| == FRAM_HEADER_SIZE
  {
    FRAM + PutBe32(FRAM_HEADER_SIZE + |r.data|) + PutBe64(r.metadata0) + PutBe64(r.metadata1) + PutBe64(r.metadata2)
  }

  function Payloads(pieces: seq<Piece>): seq<byte> {
    if pieces == [] then [] else pieces[0].payload + Payloads(pieces[1..])
  }

  /** The bare header first, then the data in any number of pieces of which the last alone is complete. */
  predicate Fragments(r: Record, pieces: seq<Piece>) {
    && |pieces| >= 2
    && !pieces[0].complete && pieces[0].payload == RecordHeader(r)
    && Payloads(pieces[1..]) == r.data
    && (forall i :: 1 <= i < |pieces| ==> (pieces[i].complete <==> i == |pieces| - 1))
  }

  /** A start code, the header of a slice of type 5, and something behind it. */
  predicate BeginsIdrSlice(s: seq<byte>) {
    |s| >= 5 && ((s[..3] == [0, 0, 1] && s[3] % 32 == 5) || (s[..4] == [0, 0, 0, 1] && s[4] % 32 == 5))
  }

  predicate HasIdrSlice(data: seq<byte>) {
    exists i :: 0 <= i <= |data| && BeginsIdrSlice(data[i..])
  }

  lemma IdrBegins(data: seq<byte>, i: nat)
    requires i <= |data|
    ensures BeginsIdrSlice(data[i..]) <==> i < |data| && NalAt(data, i, IDR)
  {
    var s := data[i..];
    if |s| >= 5 {
      assert s[..3] == [s[0], s[1], s[2]] && s[..4] == [s[0], s[1], s[2], s[3]];
    }
  }

  /** The assembler's test finds exactly these. */
  lemma KeyFrameExactlyIf(data: seq<byte>)
    ensures ContainsNal(data, IDR) <==> HasIdrSlice(data)
  {
    hide NalAt, BeginsIdrSlice;
    forall i | 0 <= i <= |data|
      ensures BeginsIdrSlice(data[i..]) <==> i < |data| && NalAt(data, i, IDR)
    {
      IdrBegins(data, i);
    }
  }

  /** The frame a record becomes, as the n-th of its stream. */
  function FrameOf(deviceID: string, r: Record, sequence: nat): VideoFrame {
    VideoFrame(deviceID, sequence, r.metadata0, r.metadata1, r.metadata2, HasIdrSlice(r.data), false, r.data)
  }

  lemma HeaderOpens(r: Record)
    requires RecordOk(r)
    ensures IsFramHeader(RecordHeader(r))
    ensures Opened(RecordHeader(r)) == Active(FRAM_HEADER_SIZE + |r.data|, r.metadata0, r.metadata1, r.metadata2,
                                              RecordHeader(r))
  {
    hide PutBe32, PutBe64, Be32, Be64;
    var h := RecordHeader(r);
    assert h[4..8] == PutBe32(FRAM_HEADER_SIZE + |r.data|);
    assert h[8..16] == PutBe64(r.metadata0) && h[16..24] == PutBe64(r.metadata1) && h[24..32] == PutBe64(r.metadata2);
    Be32OfPut(FRAM_HEADER_SIZE + |r.data|);
    Be64OfPut(r.metadata0);
    Be64OfPut(r.metadata1);
    Be64OfPut(r.metadata2);
  }

  /** Collecting the data pieces of a record closes it with everything it was given. */
  lemma {:induction false} CollectData(a: Assembler, pieces: seq<Piece>)
    requires a.active.Some? && |pieces| >= 1 && |a.active.value.data| >= FRAM_HEADER_SIZE
    requires forall i :: 0 <= i < |pieces| ==> (pieces[i].complete <==> i == |pieces| - 1)
    requires a.active.value.total == |a.active.value.data| + |Payloads(pieces)|
    ensures var f := a.active.value;
            var whole := f.(data := f.data + Payloads(pieces));
            FoldPieces(a, pieces) == Outcome(Discarded(a).(sequence := a.sequence + 1), [Emitted(a, whole)], true)
    decreases |pieces|
  {
    hide ContainsNal;
    var f, p, more := a.active.value, pieces[0], pieces[1..];
    var step := EntryStep(a, p.complete, p.payload);
    if more == [] {
      assert p.payload + [] == p.payload;
      assert step.frames + [] == step.frames;
      assert FoldPieces(step.after, []) == Outcome(step.after, [], true);
    } else {
      assert f.data + p.payload + Payloads(more) == f.data + Payloads(pieces);
      CollectData(step.after, more);
      var whole := f.(data := f.data + Payloads(pieces));
      assert Emitted(step.after, whole) == Emitted(a, whole);
    }
  }

  /** One fragmented record, taken by an assembler that is not collecting any, becomes its frame. */
  lemma RecordReassembled(a: Assembler, r: Record, pieces: seq<Piece>)
    requires a.active.None? && RecordOk(r) && Fragments(r, pieces)
    ensures FoldPieces(a, pieces) == Outcome(a.(sequence := a.sequence + 1), [FrameOf(a.deviceID, r, a.sequence + 1)],
                                             true)
  {
    hide ContainsNal, HasIdrSlice, RecordHeader, IsFramHeader, Opened;
    HeaderOpens(r);
    KeyFrameExactlyIf(r.data);
    var header, more := RecordHeader(r), pieces[1..];
    OpenStep(a, r);
    var begun := a.(active := Some(Opened(header)));
    CollectData(begun, more);
    var f := begun.active.value;
    var whole := f.(data := f.data + Payloads(more));
    assert whole.data[FRAM_HEADER_SIZE..] == r.data;
    assert Discarded(begun).(sequence := a.sequence + 1) == a.(sequence := a.sequence + 1);
    assert [] + [Emitted(begun, whole)] == [FrameOf(a.deviceID, r, a.sequence + 1)];
  }

  lemma OpenStep(a: Assembler, r: Record)
    requires a.active.None? && RecordOk(r) && IsFramHeader(RecordHeader(r))
    requires Opened(RecordHeader(r)).total == FRAM_HEADER_SIZE + |r.data|
    ensures EntryStep(a, false, RecordHeader(r)) == Outcome(a.(active := Some(Opened(RecordHeader(r)))), [], true)
  {
    hide RecordHeader, IsFramHeader;
  }

  function JoinPieces(fragmented: seq<seq<Piece>>): seq<Piece> {
    if fragmented == [] then [] else fragmented[0] + JoinPieces(fragmented[1..])
  }

  function FramesOf(deviceID: string, records: seq<Record>, sequence: nat): (frames: seq<VideoFrame>)
    ensures |frames| == |records|
    ensures forall i :: 0 <= i < |records| ==> frames[i] == FrameOf(deviceID, records[i], sequence + i)
  {
    if records == [] then []
    else [FrameOf(deviceID, records[0], sequence)] + FramesOf(deviceID, records[1..], sequence + 1)
  }

  predicate FragmentsAll(records: seq<Record>, fragmented: seq<seq<Piece>>) {
    && |records| == |fragmented|
    && (forall i :: 0 <= i < |records| ==> RecordOk(records[i]) && Fragments(records[i], fragmented[i]))
  }

  lemma FragmentsAllRest(records: seq<Record>, fragmented: seq<seq<Piece>>)
    requires FragmentsAll(records, fragmented) && records != []
    ensures RecordOk(records[0]) && Fragments(records[0], fragmented[0])
    ensures FragmentsAll(records[1..], fragmented[1..])
  {
    hide Fragments, RecordOk;
  }

  lemma {:induction false} RecordsReassembled(a: Assembler, records: seq<Record>, fragmented: seq<seq<Piece>>)
    requires a.active.None? && FragmentsAll(records, fragmented)
    ensures FoldPieces(a, JoinPieces(fragmented)) ==
            Outcome(a.(sequence := a.sequence + |records|), FramesOf(a.deviceID, records, a.sequence + 1), true)
    decreases |records|
  {
    hide FragmentsAll, Fragments, RecordOk, FrameOf, FoldPieces;
    SameLength(records, fragmented);
    if records == [] {
      FoldNone(a);
    } else {
      FragmentsAllRest(records, fragmented);
      var next := a.(sequence := a.sequence + 1);
      RecordReassembled(a, records[0], fragmented[0]);
      FoldAppend(a, fragmented[0], JoinPieces(fragmented[1..]));
      RecordsReassembled(next, records[1..], fragmented[1..]);
      assert next.(sequence := next.sequence + |records[1..]|) == a.(sequence := a.sequence + |records|);
    }
  }

  lemma SameLength(records: seq<Record>, fragmented: seq<seq<Piece>>)
    requires FragmentsAll(records, fragmented)
    ensures |records| == |fragmented|
  {
    hide Fragments, RecordOk;
  }

  lemma FoldNone(a: Assembler)
    ensures FoldPieces(a, []) == Outcome(a, [], true)
  {
  }

  /**
   Reassembly undoes fragmentation: for every list of records with data, every way of cutting them into
   pieces and every placement of the pieces into packets, exactly their frames come out, in order.
   */
  lemma ReassemblyUndoesFragmentation(a: Assembler, records: seq<Record>, fragmented: seq<seq<Piece>>,
                                      packets: seq<Placed>)
    requires a.active.None? && FragmentsAll(records, fragmented)
    requires (forall i :: 0 <= i < |packets| ==> PlacedOk(packets[i])) && AllPieces(packets) == JoinPieces(fragmented)
    ensures ConsumePackets(a, packets) ==
            Outcome(a.(sequence := a.sequence + |records|), FramesOf(a.deviceID, records, a.sequence + 1), true)
  {
    hide FoldPieces, ConsumePackets, FragmentsAll, PlacedOk;
    BoundariesDoNotMatter(a, packets);
    RecordsReassembled(a, records, fragmented);
  }
}
