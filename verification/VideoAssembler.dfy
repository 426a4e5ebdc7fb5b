/** The assembler object: it consumes packets in place, with exactly the effect `LspAssembler` gives it. */
module VideoAssembler {
  import opened Bytes
  import opened Frames
  import opened LspPacket
  import opened LspAssembler
  import opened Options

  class VideoAssembler {
    const deviceID: string
    var synchronized: bool
    var packetSize: nat
    var serialInitialized: bool
    var serial: nat
    var activeFrame: Option<Active>
    var sequence: nat

    ghost function State(): Assembler
      reads this
    {
      Assembler(deviceID, synchronized, packetSize, serialInitialized, serial, activeFrame, sequence)
    }

    constructor (deviceID: string)
      ensures State() == NewAssembler(deviceID) && Valid(State())
    {
      this.deviceID := deviceID;
      synchronized, packetSize, serialInitialized, serial, activeFrame, sequence := false, 0, false, 0, None, 0;
    }

    method DiscardActiveFrame()
      modifies this
      ensures State() == Discarded(old(State()))
    {
      activeFrame := None;
    }

    method ResetAll()
      modifies this
      ensures State() == Reset(old(State()))
    {
      synchronized, packetSize, serialInitialized, activeFrame := false, 0, false, None;
    }

    /** An entry outside a record: the bare header opens one, anything else is skipped. */
    method OpenRecord(complete: bool, payload: seq<byte>) returns (ok: bool)
      requires activeFrame.None?
      modifies this`activeFrame
      ensures Outcome(State(), [], ok) == EntryStep(old(State()), complete, payload)
    {
      hide ContainsNal, Be32, Be64, ActiveValid;
      if complete || |payload| != FRAM_HEADER_SIZE || payload[..4] != FRAM {
        return true;
      }
      var total := Be32(payload[4..8]);
      if total < FRAM_HEADER_SIZE {
        return false;
      }
      activeFrame := Some(Active(total, Be64(payload[8..16]), Be64(payload[16..24]), Be64(payload[24..32]), payload));
      return true;
    }

    /** An entry inside a record: extend it, and hand out its frame if that completes it. */
    method GrowRecord(complete: bool, payload: seq<byte>) returns (frames: seq<VideoFrame>)
      requires activeFrame.Some?
      modifies this`activeFrame, this`sequence
      ensures Outcome(State(), frames, true) == EntryStep(old(State()), complete, payload)
    {
      hide ContainsNal, Be32, Be64, ActiveValid;
      activeFrame := Some(activeFrame.value.(data := activeFrame.value.data + payload));
      if !complete {
        return [];
      }
      var frame := activeFrame.value;
      activeFrame := None;
      if |frame.data| != frame.total || frame.total < FRAM_HEADER_SIZE {
        return [];
      }
      var encoded := frame.data[FRAM_HEADER_SIZE..];
      sequence := sequence + 1;
      var keyFrame := ContainsNALType(encoded, IDR);
      return [VideoFrame(deviceID, sequence, frame.metadata0, frame.metadata1, frame.metadata2, keyFrame, false,
                         encoded)];
    }

    /** One media entry. */
    method TakeEntry(complete: bool, payload: seq<byte>) returns (frames: seq<VideoFrame>, ok: bool)
      requires Valid(State()) && synchronized && |payload| >= 1
      modifies this
      ensures Outcome(State(), frames, ok) == EntryStep(old(State()), complete, payload)
      ensures Valid(State()) && synchronized
    {
      EntryStepGood(State(), complete, payload);
      hide EntryStep, LspAssembler.Valid;
      frames, ok := [], true;
      if activeFrame.None? {
        ok := OpenRecord(complete, payload);
      } else {
        frames := GrowRecord(complete, payload);
      }
    }

    method ConsumeMediaEntries(packet: seq<byte>, start: nat) returns (frames: seq<VideoFrame>, ok: bool)
      requires Valid(State()) && synchronized
      modifies this
      ensures Outcome(State(), frames, ok) == ConsumeEntries(old(State()), packet, start)
      ensures Valid(State())
    {
      ghost var goal := ConsumeEntries(State(), packet, start);
      hide EntryStep, LspAssembler.Valid;
      frames, ok := [], true;
      var cursor := start;
      while cursor < |packet|
        invariant Valid(State()) && synchronized && ok
        invariant goal == Prepend(frames, ConsumeEntries(State(), packet, cursor))
        decreases |packet| - cursor
      {
        if packet[cursor] == 0 {
          return;
        }
        var header := ParseEntryHeader(packet, cursor);
        ghost var before := State();
        if header.None? || header.value.payloadStart + header.value.payloadLength > |packet| {
          DiscardedValid(State());
          DiscardActiveFrame();
          return frames, false;
        }
        var h := header.value;
        var end := h.payloadStart + h.payloadLength;
        var emitted, good := TakeEntry(h.complete, packet[h.payloadStart..end]);
        ConsumeEntriesStep(before, packet, cursor, h, Outcome(State(), emitted, good));
        PrependTwice(frames, emitted, ConsumeEntries(State(), packet, end));
        frames := frames + emitted;
        if !good {
          return frames, false;
        }
        cursor := end;
      }
    }

    /** The descriptor list: where it ends, when it is supported. */
    method SkipDescriptors(p: seq<byte>) returns (r: Option<nat>)
      ensures r == Descriptors(p, L2_HEADER_SIZE)
    {
      hide Base128;
      var cursor := L2_HEADER_SIZE;
      while true
        invariant Descriptors(p, L2_HEADER_SIZE) == Descriptors(p, cursor)
        decreases |p| - cursor
      {
        var tag := ReadBase128(p, cursor);
        if tag.None? {
          return None;
        }
        var length := ReadBase128(p, tag.value.1);
        if length.None? {
          return None;
        }
        var payloadStart := length.value.1;
        var payloadEnd := payloadStart + length.value.0;
        if payloadEnd > |p| {
          return None;
        }
        if tag.value.0 == 0 {
          return Some(payloadEnd);
        }
        if tag.value.0 != 1 || length.value.0 != 12 || p[payloadStart] != 0 {
          return None;
        }
        cursor := payloadEnd;
      }
    }

    /** The serial number of a section. */
    method NoteSerial(received: nat)
      requires Valid(State()) && synchronized && received < 0x1_0000
      modifies this
      ensures synchronized && Valid(State())
      ensures State() == SerialNoted(old(State()), received)
    {
      hide ActiveValid;
      if serialInitialized && received != (serial + 1) % 0x1_0000 {
        activeFrame := None;
      }
      serial := received;
      serialInitialized := true;
    }

    method TakeSection(p: seq<byte>) returns (frames: seq<VideoFrame>, ok: bool)
      requires Valid(State()) && synchronized
      modifies this
      ensures Outcome(State(), frames, ok) == ConsumeSection(old(State()), p)
      ensures Valid(State())
    {
      ghost var a := State();
      ConsumeSectionGood(a, p);
      SectionCases(a, p);
      hide ConsumeEntries, ConsumeSection, Descriptors, LspAssembler.Valid, FramesNumbered, Be16;
      var list := SkipDescriptors(p);
      if list.None? || list.value >= |p| {
        ResetAll();
        return [], false;
      }
      var cursor := list.value;
      var control := p[cursor];
      cursor := cursor + 1;
      if control / 2 % 2 == 1 {
        if cursor + 2 > |p| {
          ResetAll();
          return [], false;
        }
        NoteSerial(Be16(p[cursor..cursor + 2]));
        cursor := cursor + 2;
      }
      frames, ok := ConsumeMediaEntries(p, cursor);
    }

    /** Synchronize on the header of a packet, when it is a good one. */
    method Synchronize(packet: seq<byte>) returns (good: bool)
      requires |packet| == PACKET_SIZE
      modifies this
      ensures (State(), good) == SyncHeader(old(State()), packet)
    {
      hide Checksum, Be16;
      if packet[0] != 0x4C || packet[1] != 0x32 {
        return false;
      }
      if Checksum(packet) != Be16(packet[2..4]) {
        return false;
      }
      packetSize := Be16(packet[12..14]) + 1;
      if packetSize < 16 || packetSize > |packet| {
        return false;
      }
      synchronized := true;
      return true;
    }

    /** One packet, whatever its length and content. */
    method Consume(packet: seq<byte>) returns (frames: seq<VideoFrame>, ok: bool)
      requires Valid(State())
      modifies this
      ensures Outcome(State(), frames, ok) == LspAssembler.Consume(old(State()), packet)
      ensures GoodOutcome(old(State()), Outcome(State(), frames, ok))
    {
      hide ConsumeEntries, ConsumeSection, SyncHeader, ActiveValid, FramesNumbered;
      ConsumeGood(State(), packet);
      if |packet| != PACKET_SIZE {
        ResetAll();
        return [], false;
      }
      if synchronized {
        frames, ok := ConsumeMediaEntries(packet[..packetSize], 3);
      } else {
        SyncValid(State(), packet);
        var good := Synchronize(packet);
        if !good {
          return [], false;
        }
        frames, ok := TakeSection(packet[..packetSize]);
      }
    }
  }

  lemma PrependTwice(a: seq<VideoFrame>, b: seq<VideoFrame>, o: Outcome)
    ensures Prepend(a, Prepend(b, o)) == Prepend(a + b, o)
  {
    assert a + (b + o.frames) == a + b + o.frames;
  }

  lemma SyncValid(a: Assembler, packet: seq<byte>)
    requires Valid(a) && |packet| == PACKET_SIZE
    ensures Valid(SyncHeader(a, packet).0) || !SyncHeader(a, packet).1
  {
    hide ActiveValid, GoodL2Header;
  }

  lemma DiscardedValid(a: Assembler)
    requires Valid(a)
    ensures Valid(Discarded(a))
  {
  }

  /** A serial number that does not follow on the last one ends the record under way. */
  function SerialNoted(a: Assembler, received: nat): Assembler {
    var kept := if a.serialInitialized && received != (a.serial + 1) % 0x1_0000 then Discarded(a) else a;
    kept.(serial := received, serialInitialized := true)
  }

  lemma SectionCases(a: Assembler, p: seq<byte>)
    ensures var list, out := Descriptors(p, L2_HEADER_SIZE), ConsumeSection(a, p);
            if list.None? || list.value >= |p| then out == Outcome(Reset(a), [], false)
            else if p[list.value] / 2 % 2 != 1 then out == ConsumeEntries(a, p, list.value + 1)
            else if list.value + 3 > |p| then out == Outcome(Reset(a), [], false)
            else out == ConsumeEntries(SerialNoted(a, Be16(p[list.value + 1..list.value + 3])), p, list.value + 3)
  {
    hide ConsumeEntries, Descriptors, Be16;
  }
}
