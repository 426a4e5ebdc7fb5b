/**
 The receive loop for live video: datagrams are grouped into generations under a wrapping sequence
 number, and complete generations go through the assembler. One step of the loop as a function.
 */
module LspReceiver {
  import opened Bytes
  import opened Frames
  import opened LspPacket
  import opened LspAssembler

  /** A datagram read from the socket, and whether it came from the device's address. */
  datatype Arrival = Arrival(fromDevice: bool, data: seq<byte>)

  datatype Receiver = Receiver(
    assembler: Assembler,
    haveGeneration: bool,
    generation: byte,
    sourceCount: byte,
    sources: map<nat, seq<byte>>,
    haveSequence: bool,
    previous: nat)

  function NewReceiver(deviceID: string): Receiver {
    Receiver(NewAssembler(deviceID), false, 0, 0, map[], false, 0)
  }

  /** The generation is given up, and with it the record being collected. */
  function Abandoned(r: Receiver): Receiver {
    r.(assembler := Discarded(r.assembler), haveGeneration := false)
  }

  /** A datagram that does not parse: synchronization starts over. */
  function Broken(r: Receiver): Receiver {
    r.(assembler := Reset(r.assembler), haveGeneration := false)
  }

  predicate Gap(r: Receiver, n: Niffin) {
    r.haveSequence && n.sequence != (r.previous + 1) % SEQUENCE_SPACE
  }

  /** The bookkeeping of the sequence number: a gap abandons what was begun. */
  function Sequenced(r: Receiver, n: Niffin): Receiver {
    (if Gap(r, n) then Abandoned(r) else r).(haveSequence := true, previous := n.sequence)
  }

  /** A datagram of another generation starts that one, abandoning a record when the last was incomplete. */
  function InGeneration(r: Receiver, n: Niffin): Receiver {
    if r.haveGeneration && n.generation == r.generation then r
    else
      var kept := if r.haveGeneration && |r.sources| != r.sourceCount then Discarded(r.assembler) else r.assembler;
      r.(assembler := kept, haveGeneration := true, generation := n.generation, sourceCount := n.sourceCount,
          sources := map[])
  }

  /** The packets of a complete generation, in index order from `i` on; an error ends it. */
  function ConsumeFrom(a: Assembler, sources: map<nat, seq<byte>>, count: nat, i: nat): (Assembler, seq<VideoFrame>)
    requires forall k :: i <= k < count ==> k in sources
    decreases count - i
  {
    if i >= count then (a, [])
    else
      var o := Consume(a, sources[i]);
      if !o.ok then (Discarded(o.after), [])
      else
        var (after, frames) := ConsumeFrom(o.after, sources, count, i + 1);
        (after, o.frames + frames)
  }

  predicate Complete(r: Receiver) {
    |r.sources| == r.sourceCount
  }

  /** The datagram put in its place. */
  function Placed(r: Receiver, n: Niffin): Receiver {
    r.(sources := r.sources[n.index as nat := n.packet])
  }

  /** A source datagram, and the frames of the generation it completes, if it does. */
  function OnSource(r: Receiver, n: Niffin): (Receiver, seq<VideoFrame>) {
    var g := InGeneration(Sequenced(r, n), n);
    if n.sourceCount != g.sourceCount then (Abandoned(g), [])
    else
      var p := Placed(g, n);
      if !Complete(p) || !(forall k :: 0 <= k < p.sourceCount ==> k in p.sources) then (p, [])
      else
        var (after, frames) := ConsumeFrom(p.assembler, p.sources, p.sourceCount, 0);
        (p.(assembler := after, haveGeneration := false), frames)
  }

  function OnArrival(r: Receiver, arrival: Arrival): (Receiver, seq<VideoFrame>) {
    if !arrival.fromDevice then (r, [])
    else
      match ParseNiffin(arrival.data)
      case Parity => (r, [])
      case Invalid => (Broken(r), [])
      case Source(n) => OnSource(r, n)
  }

  // ----- the invariant of the loop's own variables

  /** While a generation is open its packets have indices below its count, and are whole packets. */
  ghost predicate GenerationOk(r: Receiver) {
    r.haveGeneration ==> forall k :: k in r.sources ==> k < r.sourceCount && |r.sources[k]| == PACKET_SIZE
  }

  ghost predicate ReceiverOk(r: Receiver) {
    && LspAssembler.Valid(r.assembler) && GenerationOk(r)
    && (r.haveSequence ==> r.previous < SEQUENCE_SPACE)
  }

  /** A set of `n` numbers below `n` is all of them. */
  lemma {:induction false} FullSet(s: set<nat>, n: nat)
    requires (forall k :: k in s ==> k < n) && |s| == n
    ensures forall k :: 0 <= k < n ==> k in s
    decreases n
  {
    if n > 0 {
      if n - 1 in s {
        FullSet(s - {n - 1}, n - 1);
        forall k | 0 <= k < n
          ensures k in s
        {
          assert k == n - 1 || k in s - {n - 1};
        }
      } else {
        BelowCount(s, n - 1);
      }
    }
  }

  lemma {:induction false} BelowCount(s: set<nat>, n: nat)
    requires forall k :: k in s ==> k < n
    ensures |s| <= n
    decreases n
  {
    if n == 0 {
      assert s == {};
    } else {
      BelowCount(s - {n - 1}, n - 1);
      assert s <= (s - {n - 1}) + {n - 1};
    }
  }

  /** When as many packets as the count are there, they are those with index 0 to count - 1. */
  lemma CompleteHasAll(r: Receiver)
    requires GenerationOk(r) && r.haveGeneration && Complete(r)
    ensures forall k :: 0 <= k < r.sourceCount ==> k in r.sources
    ensures forall k :: k in r.sources ==> 0 <= k < r.sourceCount
  {
    assert |r.sources.Keys| == |r.sources|;
    FullSet(r.sources.Keys, r.sourceCount);
  }

  lemma SequencedOk(r: Receiver, n: Niffin)
    requires ReceiverOk(r) && n.sequence < SEQUENCE_SPACE
    ensures ReceiverOk(Sequenced(r, n)) && Sequenced(r, n).haveSequence
  {
    hide ActiveValid;
  }

  lemma InGenerationOk(r: Receiver, n: Niffin)
    requires ReceiverOk(r)
    ensures ReceiverOk(InGeneration(r, n)) && InGeneration(r, n).haveGeneration
    ensures InGeneration(r, n).generation == n.generation
  {
    hide ActiveValid;
  }

  lemma PlacedOk(r: Receiver, n: Niffin)
    requires ReceiverOk(r) && n.sourceCount == r.sourceCount && n.index < n.sourceCount && |n.packet| == PACKET_SIZE
    ensures ReceiverOk(Placed(r, n))
  {
    hide ActiveValid;
  }

  lemma DiscardedOk(a: Assembler)
    requires LspAssembler.Valid(a)
    ensures LspAssembler.Valid(Discarded(a))
  {
  }

  lemma {:induction false} ConsumeFromOk(a: Assembler, sources: map<nat, seq<byte>>, count: nat, i: nat)
    requires LspAssembler.Valid(a) && forall k :: i <= k < count ==> k in sources
    ensures LspAssembler.Valid(ConsumeFrom(a, sources, count, i).0)
    decreases count - i
  {
    hide LspAssembler.Valid, Consume;
    if i < count {
      ConsumeValid(a, sources[i]);
      var o := Consume(a, sources[i]);
      if o.ok {
        ConsumeFromOk(o.after, sources, count, i + 1);
      } else {
        DiscardedOk(o.after);
      }
    }
  }

  lemma ConsumeValid(a: Assembler, packet: seq<byte>)
    requires LspAssembler.Valid(a)
    ensures LspAssembler.Valid(Consume(a, packet).after)
  {
    ConsumeGood(a, packet);
  }

  lemma OnArrivalOk(r: Receiver, arrival: Arrival)
    requires ReceiverOk(r)
    ensures ReceiverOk(OnArrival(r, arrival).0)
  {
    hide ParseNiffin, Sequenced, InGeneration, ConsumeFrom, ActiveValid;
    if arrival.fromDevice && ParseNiffin(arrival.data).Source? {
      var n := ParseNiffin(arrival.data).niffin;
      SequencedOk(r, n);
      InGenerationOk(Sequenced(r, n), n);
      var g := InGeneration(Sequenced(r, n), n);
      if n.sourceCount == g.sourceCount {
        PlacedOk(g, n);
        var p := Placed(g, n);
        if Complete(p) {
          CompleteHasAll(p);
          ConsumeFromOk(p.assembler, p.sources, p.sourceCount, 0);
        }
      }
    }
  }
}
