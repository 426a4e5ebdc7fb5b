/** The video assembler as a value: what one MoLive packet does to it and which frames come out. */
module LspAssembler {
  import opened Bytes
  import opened Bits
  import opened Frames
  import opened LspPacket
  import opened Options

  const L2_HEADER_SIZE: nat := 14
  const FRAM_HEADER_SIZE: nat := 32
  const FRAM: seq<byte> := [0x46, 0x52, 0x41, 0x4D]
  const IDR: byte := 5

  /** A FRAM record being collected: its declared total, its metadata, and its bytes so far. */
  datatype Active = Active(total: nat, metadata0: nat, metadata1: nat, metadata2: nat, data: seq<byte>)

  datatype Assembler = Assembler(
    deviceID: string,
    synchronized: bool,
    packetSize: nat,
    serialInitialized: bool,
    serial: nat,
    active: Option<Active>,
    sequence: nat)

  /** The frames that came out, the assembler afterwards, and whether there was no error. */
  datatype Outcome = Outcome(after: Assembler, frames: seq<VideoFrame>, ok: bool)

  function NewAssembler(deviceID: string): Assembler {
    Assembler(deviceID, false, 0, false, 0, None, 0)
  }

  function Discarded(a: Assembler): Assembler {
    a.(active := None)
  }

  function Reset(a: Assembler): Assembler {
    a.(synchronized := false, packetSize := 0, serialInitialized := false, active := None)
  }

  // ----- media entries

  predicate IsFramHeader(payload: seq<byte>) {
    |payload| == FRAM_HEADER_SIZE && payload[..4] == FRAM
  }

  function Opened(payload: seq<byte>): Active
    requires IsFramHeader(payload)
  {
    Active(Be32(payload[4..8]), Be64(payload[8..16]), Be64(payload[16..24]), Be64(payload[24..32]), payload)
  }

  function Emitted(a: Assembler, f: Active): VideoFrame
    requires |f.data| >= FRAM_HEADER_SIZE
  {
    var encoded := f.data[FRAM_HEADER_SIZE..];
    VideoFrame(a.deviceID, a.sequence + 1, f.metadata0, f.metadata1, f.metadata2, ContainsNal(encoded, IDR), false,
               encoded)
  }

  /** One media entry. A record that ends with the wrong length is dropped. */
  function EntryStep(a: Assembler, complete: bool, payload: seq<byte>): Outcome {
    match a.active
    case None =>
      if complete || !IsFramHeader(payload) then Outcome(a, [], true)
      else if Be32(payload[4..8]) < FRAM_HEADER_SIZE then Outcome(a, [], false)
      else Outcome(a.(active := Some(Opened(payload))), [], true)
    case Some(f) =>
      var grown := f.(data := f.data + payload);
      if !complete then Outcome(a.(active := Some(grown)), [], true)
      else if |grown.data| != grown.total || grown.total < FRAM_HEADER_SIZE then Outcome(Discarded(a), [], true)
      else Outcome(Discarded(a).(sequence := a.sequence + 1), [Emitted(a, grown)], true)
  }

  /** The entries of a packet from `cursor` on, up to a zero byte, an error or the end. */
  function ConsumeEntries(a: Assembler, packet: seq<byte>, cursor: nat): Outcome
    decreases |packet| - cursor
  {
    if cursor >= |packet| || packet[cursor] == 0 then Outcome(a, [], true)
    else
      match ParseEntryHeader(packet, cursor)
      case None => Outcome(Discarded(a), [], false)
      case Some(h) =>
        var end := h.payloadStart + h.payloadLength;
        if end > |packet| then Outcome(Discarded(a), [], false)
        else
          var step := EntryStep(a, h.complete, packet[h.payloadStart..end]);
          if !step.ok then step
          else
            Prepend(step.frames, ConsumeEntries(step.after, packet, end))
  }

  /** The frames that came out earlier, in front. */
  function Prepend(frames: seq<VideoFrame>, o: Outcome): Outcome {
    o.(frames := frames + o.frames)
  }

  /** One turn of the loop in terms of the outcome still to come. */
  lemma ConsumeEntriesStep(a: Assembler, packet: seq<byte>, cursor: nat, h: EntryHeader, step: Outcome)
    requires cursor < |packet| && packet[cursor] != 0 && ParseEntryHeader(packet, cursor) == Some(h)
    requires h.payloadStart + h.payloadLength <= |packet|
    requires step == EntryStep(a, h.complete, packet[h.payloadStart..h.payloadStart + h.payloadLength])
    ensures ConsumeEntries(a, packet, cursor) ==
            if !step.ok then step
            else Prepend(step.frames, ConsumeEntries(step.after, packet, h.payloadStart + h.payloadLength))
  {
    hide EntryStep;
  }

  // ----- packets

  /** Where the descriptor list that starts at `cursor` ends, when it is one the assembler supports. */
  function Descriptors(p: seq<byte>, cursor: nat): (r: Option<nat>)
    ensures r.Some? ==> cursor < r.value <= |p|
    decreases |p| - cursor
  {
    match Base128(p, cursor)
    case None => None
    case Some((tag, next)) =>
      match Base128(p, next)
      case None => None
      case Some((length, payloadStart)) =>
        var end := payloadStart + length;
        if end > |p| then None
        else if tag == 0 then Some(end)
        else if tag != 1 || length != 12 || p[payloadStart] != 0 then None
        else Descriptors(p, end)
  }

  function Checksum(packet: seq<byte>): nat
    requires |packet| >= L2_HEADER_SIZE
  {
    Xor(Xor(Xor(Xor(Be16(packet[4..6]) % 0x8000, Be16(packet[6..8]), 16), Be16(packet[8..10]), 16),
            Be16(packet[10..12]), 16), 0xAAAA, 16)
  }

  predicate GoodL2Header(packet: seq<byte>) {
    && |packet| >= L2_HEADER_SIZE && packet[0] == 0x4C && packet[1] == 0x32
    && Checksum(packet) == Be16(packet[2..4])
  }

  /** The section control byte and the optional serial behind the descriptors, and then the entries. */
  function ConsumeSection(a: Assembler, p: seq<byte>): Outcome {
    match Descriptors(p, L2_HEADER_SIZE)
    case None => Outcome(Reset(a), [], false)
    case Some(cursor) =>
      if cursor >= |p| then Outcome(Reset(a), [], false)
      else if p[cursor] / 2 % 2 == 0 then ConsumeEntries(a, p, cursor + 1)
      else if cursor + 3 > |p| then Outcome(Reset(a), [], false)
      else
        var serial := Be16(p[cursor + 1..cursor + 3]);
        var kept := if a.serialInitialized && serial != (a.serial + 1) % 0x1_0000 then Discarded(a) else a;
        ConsumeEntries(kept.(serial := serial, serialInitialized := true), p, cursor + 3)
  }

  /** Synchronizing on an L2 header; a size out of bounds is remembered but does not synchronize. */
  function SyncHeader(a: Assembler, packet: seq<byte>): (r: (Assembler, bool))
    requires |packet| == PACKET_SIZE
    ensures r.1 ==> r.0.synchronized && 16 <= r.0.packetSize <= PACKET_SIZE
  {
    if !GoodL2Header(packet) then (a, false)
    else
      var sized := a.(packetSize := Be16(packet[12..14]) + 1);
      if sized.packetSize < 16 || sized.packetSize > |packet| then (sized, false)
      else (sized.(synchronized := true), true)
  }

  function Consume(a: Assembler, packet: seq<byte>): Outcome {
    if |packet| != PACKET_SIZE then Outcome(Reset(a), [], false)
    else if a.synchronized then
      ConsumeEntries(a, if a.packetSize <= |packet| then packet[..a.packetSize] else packet, 3)
    else
      var (s, good) := SyncHeader(a, packet);
      if good then ConsumeSection(s, packet[..s.packetSize]) else Outcome(s, [], false)
  }

  // ----- the invariant

  predicate ActiveValid(f: Active) {
    && |f.data| >= FRAM_HEADER_SIZE && IsFramHeader(f.data[..FRAM_HEADER_SIZE])
    && f.total == Be32(f.data[4..8]) >= FRAM_HEADER_SIZE
    && f.(data := f.data[..FRAM_HEADER_SIZE]) == Opened(f.data[..FRAM_HEADER_SIZE])
  }

  /** A record is only being collected while synchronized, to a packet size that fits. */
  predicate Valid(a: Assembler) {
    && (a.synchronized ==> 16 <= a.packetSize <= PACKET_SIZE)
    && (a.active.Some? ==> a.synchronized && ActiveValid(a.active.value))
    && (a.serialInitialized ==> a.synchronized)
  }

  /** Frames come with consecutive numbers and with at least one byte of data. */
  predicate FramesNumbered(frames: seq<VideoFrame>, first: nat) {
    forall i :: 0 <= i < |frames| ==> frames[i].sequence == first + i && |frames[i].data| >= 1
  }

  predicate GoodOutcome(a: Assembler, o: Outcome) {
    Valid(o.after) && o.after.sequence == a.sequence + |o.frames| && FramesNumbered(o.frames, a.sequence + 1)
  }

  lemma EntryStepGood(a: Assembler, complete: bool, payload: seq<byte>)
    requires Valid(a) && a.synchronized && |payload| >= 1
    ensures GoodOutcome(a, EntryStep(a, complete, payload)) && EntryStep(a, complete, payload).after.synchronized
  {
    hide ContainsNal, Be32, Be64;
    if a.active.Some? {
      var f := a.active.value;
      assert (f.data + payload)[..FRAM_HEADER_SIZE] == f.data[..FRAM_HEADER_SIZE];
      assert (f.data + payload)[4..8] == f.data[4..8];
    } else if IsFramHeader(payload) {
      assert payload[..FRAM_HEADER_SIZE] == payload;
    }
  }

  lemma NumberedAppend(a: seq<VideoFrame>, b: seq<VideoFrame>, first: nat)
    requires FramesNumbered(a, first) && FramesNumbered(b, first + |a|)
    ensures FramesNumbered(a + b, first)
  {
  }

  lemma {:induction false} ConsumeEntriesGood(a: Assembler, packet: seq<byte>, cursor: nat)
    requires Valid(a) && a.synchronized
    ensures GoodOutcome(a, ConsumeEntries(a, packet, cursor))
    decreases |packet| - cursor
  {
    hide EntryStep, ActiveValid;
    if cursor < |packet| && packet[cursor] != 0 && ParseEntryHeader(packet, cursor).Some? {
      var h := ParseEntryHeader(packet, cursor).value;
      var end := h.payloadStart + h.payloadLength;
      if end <= |packet| {
        var payload := packet[h.payloadStart..end];
        EntryStepGood(a, h.complete, payload);
        var step := EntryStep(a, h.complete, payload);
        if step.ok {
          ConsumeEntriesGood(step.after, packet, end);
          NumberedAppend(step.frames, ConsumeEntries(step.after, packet, end).frames, a.sequence + 1);
        }
      }
    }
  }

  /** From every reachable state and on every packet: the invariant holds on, and frames are numbered in turn. */
  lemma ConsumeGood(a: Assembler, packet: seq<byte>)
    requires Valid(a)
    ensures GoodOutcome(a, Consume(a, packet))
  {
    hide ConsumeEntries, ConsumeSection, GoodL2Header, ActiveValid;
    if |packet| == PACKET_SIZE {
      if a.synchronized {
        ConsumeEntriesGood(a, packet[..a.packetSize], 3);
      } else if SyncHeader(a, packet).1 {
        var s := SyncHeader(a, packet).0;
        ConsumeSectionGood(s, packet[..s.packetSize]);
      }
    }
  }

  lemma ConsumeSectionGood(a: Assembler, p: seq<byte>)
    requires Valid(a) && a.synchronized
    ensures GoodOutcome(a, ConsumeSection(a, p))
  {
    hide ConsumeEntries, Descriptors, ActiveValid;
    if Descriptors(p, L2_HEADER_SIZE).Some? {
      var cursor := Descriptors(p, L2_HEADER_SIZE).value;
      if cursor < |p| {
        ConsumeEntriesGood(a, p, cursor + 1);
        if cursor + 3 <= |p| {
          var serial := Be16(p[cursor + 1..cursor + 3]);
          ConsumeEntriesGood(a.(serial := serial, serialInitialized := true), p, cursor + 3);
          ConsumeEntriesGood(Discarded(a).(serial := serial, serialInitialized := true), p, cursor + 3);
        }
      }
    }
  }

  // ----- the check of the serial

  /** `ConsumeSection` without comparing the serial to the previous one. */
  function SectionUnchecked(a: Assembler, p: seq<byte>): Outcome {
    match Descriptors(p, L2_HEADER_SIZE)
    case None => Outcome(Reset(a), [], false)
    case Some(cursor) =>
      if cursor >= |p| then Outcome(Reset(a), [], false)
      else if p[cursor] / 2 % 2 == 0 then ConsumeEntries(a, p, cursor + 1)
      else if cursor + 3 > |p| then Outcome(Reset(a), [], false)
      else ConsumeEntries(a.(serial := Be16(p[cursor + 1..cursor + 3]), serialInitialized := true), p, cursor + 3)
  }

  function ConsumeUnchecked(a: Assembler, packet: seq<byte>): Outcome {
    if |packet| == PACKET_SIZE && !a.synchronized && SyncHeader(a, packet).1 then
      var s := SyncHeader(a, packet).0;
      SectionUnchecked(s, packet[..s.packetSize])
    else Consume(a, packet)
  }

  /** What the receive loop does with its assembler. */
  datatype Use = Packet(packet: seq<byte>) | Discard | StartOver

  /** The frames and the state after a list of uses, with the check of the serial or without it. */
  function Used(a: Assembler, uses: seq<Use>, checked: bool): Outcome
    decreases |uses|
  {
    if uses == [] then Outcome(a, [], true)
    else
      match uses[0]
      case Packet(packet) =>
        var o := if checked then Consume(a, packet) else ConsumeUnchecked(a, packet);
        Prepend(o.frames, Used(o.after, uses[1..], checked))
      case Discard => Used(Discarded(a), uses[1..], checked)
      case StartOver => Used(Reset(a), uses[1..], checked)
  }

  lemma CheckPasses(a: Assembler, packet: seq<byte>)
    requires Valid(a)
    ensures Consume(a, packet) == ConsumeUnchecked(a, packet)
  {
    hide ConsumeEntries, Descriptors, GoodL2Header, ActiveValid;
  }

  /** The check of the serial is idle: whatever an assembler is given, nothing would change without it. */
  lemma {:induction false} SerialCheckIdle(a: Assembler, uses: seq<Use>)
    requires Valid(a)
    ensures Used(a, uses, true) == Used(a, uses, false)
    decreases |uses|
  {
    hide Consume, ConsumeUnchecked, ActiveValid;
    if uses != [] {
      match uses[0] {
        case Packet(packet) =>
          CheckPasses(a, packet);
          ConsumeGood(a, packet);
          SerialCheckIdle(Consume(a, packet).after, uses[1..]);
        case Discard => SerialCheckIdle(Discarded(a), uses[1..]);
        case StartOver => SerialCheckIdle(Reset(a), uses[1..]);
      }
    }
  }
}
