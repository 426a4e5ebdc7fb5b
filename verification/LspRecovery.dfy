/**
 What disturbs the receive loop and what does not: which datagrams count, and that after lost ones everything
 sent from then on is recovered.
 */
module LspRecovery {
  import opened Bytes
  import opened Frames
  import opened LspPacket
  import opened LspAssembler
  import opened LspFragments
  import opened LspContainer
  import opened LspReceiver
  import opened LspServer
  import opened LspRuns
  import opened LspStream
  import opened Options

  // ----- which datagrams count

  predicate Sendable(n: Niffin, trailer: seq<byte>) {
    n.sequence < SEQUENCE_SPACE && n.sourceCount >= 1 && |n.packet| == PACKET_SIZE && |trailer| == 8
  }

  /** A parity datagram: laid out like a source datagram, with the top bit of the third byte set. */
  function ParityBytes(n: Niffin, trailer: seq<byte>): seq<byte>
    requires Sendable(n, trailer)
  {
    var d := NiffinBytes(n, trailer);
    d[2 := d[2] + 0x80]
  }

  lemma ParityParses(n: Niffin, trailer: seq<byte>)
    requires Sendable(n, trailer)
    ensures ParseNiffin(ParityBytes(n, trailer)) == Parity
  {
  }

  /** What a datagram of the right size and kind says, field by field. */
  function Fields(d: seq<byte>): Niffin
    requires |d| == DATAGRAM_SIZE
  {
    Niffin((d[2] % 0x80) as int * 0x1_0000 + d[3] as int * 0x100 + d[4], d[5], d[6], d[7], d[8..1408])
  }

  lemma FieldsRead(d: seq<byte>)
    requires |d| == DATAGRAM_SIZE && d[0] == 0xEC && d[1] == 0xC1 && d[6] >= 1
    ensures Sendable(Fields(d), d[1408..])
    ensures NiffinBytes(Fields(d), d[1408..]) == d[2 := d[2] % 0x80]
  {
    var n, t := Fields(d), d[1408..];
    var s := NiffinBytes(n, t);
    SequenceDigits(d[2] % 0x80, d[3], d[4]);
    assert |s| == |d|;
    assert d == d[..8] + d[8..1408] + d[1408..];
    assert s[..8] == d[..8][2 := d[2] % 0x80];
  }

  lemma SequenceDigits(a: nat, b: byte, c: byte)
    requires a < 0x80
    ensures var s := a * 0x1_0000 + b as int * 0x100 + c as int;
            s / 0x1_0000 == a && s / 0x100 % 0x100 == b && s % 0x100 == c && s < SEQUENCE_SPACE
  {
  }

  /** A datagram counts exactly if it is a source datagram as a sender lays it out. */
  lemma SourceExactlyIf(d: seq<byte>)
    ensures ParseNiffin(d).Source? <==>
            exists n, trailer :: Sendable(n, trailer) && n.index < n.sourceCount && d == NiffinBytes(n, trailer)
  {
    if ParseNiffin(d).Source? {
      FieldsRead(d);
      assert d[2 := d[2] % 0x80] == d;
    }
    forall n, trailer | Sendable(n, trailer) && n.index < n.sourceCount && d == NiffinBytes(n, trailer)
      ensures ParseNiffin(d).Source?
    {
      NiffinRoundTrip(n, trailer);
    }
  }

  /** It is passed over exactly if it is a parity datagram, and anything else is an error. */
  lemma ParityExactlyIf(d: seq<byte>)
    ensures ParseNiffin(d).Parity? <==> exists n, trailer :: Sendable(n, trailer) && d == ParityBytes(n, trailer)
  {
    if ParseNiffin(d).Parity? {
      FieldsRead(d);
      assert d == ParityBytes(Fields(d), d[1408..]);
    }
    forall n, trailer | Sendable(n, trailer) && d == ParityBytes(n, trailer)
      ensures ParseNiffin(d).Parity?
    {
      ParityParses(n, trailer);
    }
  }

  /** Datagrams from elsewhere and parity datagrams change nothing. */
  lemma PassedOver(r: Receiver, arrival: Arrival)
    requires !arrival.fromDevice ||
             exists n, trailer :: Sendable(n, trailer) && arrival.data == ParityBytes(n, trailer)
    ensures OnArrival(r, arrival) == (r, [])
  {
    hide ParityBytes, Sendable, ParseNiffin;
    ParityExactlyIf(arrival.data);
  }

  /** A datagram of the device that is neither makes the receiver wait for a header, and gives nothing. */
  lemma BrokenOff(r: Receiver, arrival: Arrival)
    requires arrival.fromDevice
    requires forall n, trailer :: Sendable(n, trailer) ==>
               arrival.data != ParityBytes(n, trailer)
               && (n.index < n.sourceCount ==> arrival.data != NiffinBytes(n, trailer))
    ensures var (after, frames) := OnArrival(r, arrival);
            && frames == [] && !after.assembler.synchronized && after.assembler.active.None? && !after.haveGeneration
            && after.assembler.sequence == r.assembler.sequence && after.assembler.deviceID == r.assembler.deviceID
            && (ReceiverOk(r) ==> ReceiverOk(after))
  {
    SourceExactlyIf(arrival.data);
    ParityExactlyIf(arrival.data);
    OnArrivalOkIf(r, arrival);
    hide ParityBytes, NiffinBytes, Sendable, ParseNiffin, ReceiverOk;
  }

  lemma OnArrivalOkIf(r: Receiver, arrival: Arrival)
    ensures ReceiverOk(r) ==> ReceiverOk(OnArrival(r, arrival).0)
  {
    hide ReceiverOk, OnArrival;
    if ReceiverOk(r) {
      OnArrivalOk(r, arrival);
    }
  }

  // ----- after lost datagrams and bad packets

  /** This datagram shows that others are missing: there is a gap, or the generation before it is not whole. */
  predicate Missed(r: Receiver, n: Niffin) {
    Gap(r, n) || (r.haveGeneration && n.generation != r.generation && |r.sources| != r.sourceCount)
  }

  lemma MissedAbandons(r: Receiver, n: Niffin)
    requires Missed(r, n)
    ensures OnSource(r, n) == OnSource(Abandoned(r), n)
  {
    hide ConsumeFrom, LspReceiver.Placed, Complete;
    assert Abandoned(Abandoned(r)) == Abandoned(r);
    SameEntered(r, n);
  }

  lemma SameEntered(r: Receiver, n: Niffin)
    requires Missed(r, n)
    ensures InGeneration(Sequenced(r, n), n) == InGeneration(Sequenced(Abandoned(r), n), n)
  {
  }

  lemma {:induction false} ReceivedAfterLoss(r: Receiver, ns: seq<Niffin>)
    requires ns != [] && Missed(r, ns[0])
    ensures Received(r, ns) == Received(Abandoned(r), ns)
    decreases |ns|
  {
    hide OnSource, Missed, Abandoned;
    var front := ns[..|ns| - 1];
    if front == [] {
      MissedAbandons(r, ns[0]);
      NothingReceived(r);
      NothingReceived(Abandoned(r));
    } else {
      ReceivedAfterLoss(r, front);
    }
  }

  /** The packets behind the first of a stream, fed to an assembler synchronized to their size. */
  lemma LaterIsFrames(a: Assembler, records: seq<Record>, fragmented: seq<seq<Piece>>, later: seq<Later>)
    requires LspAssembler.Valid(a) && a.synchronized && a.active.None?
    requires FragmentsAll(records, fragmented) && AllLaterOk(later, a.packetSize)
    requires LaterPieces(later) == JoinPieces(fragmented)
    ensures var out := Feed(a, LaterBytes(later, a.packetSize));
            out.ok && out.frames == FramesOf(a.deviceID, records, a.sequence + 1)
  {
    hide FragmentsAll, LaterPieces, JoinPieces, FoldPieces, ActiveValid, AllLaterOk, FramesOf, Feed;
    RecordsReassembled(a, records, fragmented);
    LaterFed(a, later, a.packetSize);
  }

  lemma AbandonedOk(r: Receiver)
    requires ReceiverOk(r)
    ensures LspAssembler.Valid(Abandoned(r).assembler)
  {
  }

  /**
   A synchronized receiver that has missed datagrams, whatever it had begun, or that has nothing begun, recovers
   every record sent from then on in whole generations: it waits for no header.
   */
  lemma RecoversAfterLoss(r: Receiver, records: seq<Record>, fragmented: seq<seq<Piece>>, later: seq<Later>,
                          grouped: seq<seq<seq<byte>>>, gens: seq<seq<Niffin>>, arrivals: seq<Arrival>)
    requires ReceiverOk(r) && r.assembler.synchronized
    requires FragmentsAll(records, fragmented) && AllLaterOk(later, r.assembler.packetSize)
    requires LaterPieces(later) == JoinPieces(fragmented)
    requires Concat(grouped) == LaterBytes(later, r.assembler.packetSize) && AllSent(gens, grouped)
    requires Consecutively(Concat(gens)) && Logged(Log(arrivals), Concat(gens))
    requires Blank(r) || (Concat(gens) != [] && Missed(r, Concat(gens)[0]))
    ensures Recovered(r, arrivals) == FramesOf(r.assembler.deviceID, records, r.assembler.sequence + 1)
  {
    hide FragmentsAll, LaterPieces, JoinPieces, AllSent, Consecutively, Logged, FoldPieces, ActiveValid, LaterBytes,
         Feed, Received, Recovered, Log, LspAssembler.Valid, AllLaterOk, Gap, Missed, FramesOf, Concat, ReceiverOk;
    AbandonedOk(r);
    LaterIsFrames(Abandoned(r).assembler, records, fragmented, later);
    if Blank(r) {
      BlankAbandoned(r);
    } else {
      ReceivedAfterLoss(r, Concat(gens));
    }
    StreamGives(Abandoned(r), gens, grouped);
    ArrivalsReceived(r, arrivals, Concat(gens));
  }

  lemma BlankAbandoned(r: Receiver)
    requires Blank(r)
    ensures Abandoned(r) == r
  {
  }

  /** A datagram that contradicts the count of its generation ends that generation and the record, and no more. */
  lemma CountContradicted(r: Receiver, n: Niffin)
    requires r.haveGeneration && !Gap(r, n) && n.generation == r.generation && n.sourceCount != r.sourceCount
    ensures var (after, frames) := OnSource(r, n);
            && frames == [] && Blank(after) && after.haveSequence && after.previous == n.sequence
            && after.assembler == r.assembler.(active := None)
  {
  }

  /** A datagram that leaves its generation incomplete is kept under its index, in place of an earlier one there. */
  lemma DatagramKept(r: Receiver, n: Niffin)
    requires r.haveGeneration && !Gap(r, n) && n.generation == r.generation && n.sourceCount == r.sourceCount
    requires |r.sources.Keys + {n.index as nat}| != r.sourceCount
    ensures var (after, frames) := OnSource(r, n);
            && frames == [] && after.assembler == r.assembler && after.haveSequence && after.previous == n.sequence
            && after.haveGeneration && after.generation == r.generation && after.sourceCount == r.sourceCount
            && after.sources.Keys == r.sources.Keys + {n.index as nat}
            && forall k :: k in after.sources ==> after.sources[k] == if k == n.index then n.packet else r.sources[k]
  {
    hide ConsumeFrom;
    var sources := r.sources[n.index as nat := n.packet];
    assert sources.Keys == r.sources.Keys + {n.index as nat} && |sources.Keys| == |sources|;
  }

  /** A packet of a generation that the assembler refuses, behind others that it takes. */
  predicate FailsAt(a: Assembler, packets: seq<seq<byte>>, k: nat) {
    k < |packets| && Feed(a, packets[..k]).ok && !Consume(Feed(a, packets[..k]).after, packets[k]).ok
  }

  lemma {:induction false} ConsumedUpTo(start: Assembler, sources: map<nat, seq<byte>>, packets: seq<seq<byte>>,
                                        i: nat, k: nat)
    requires FailsAt(start, packets, k) && i <= k
    requires forall j :: 0 <= j < |packets| ==> j in sources && sources[j] == packets[j]
    requires Feed(start, packets[..i]).ok
    ensures var (after, frames) := ConsumeFrom(Feed(start, packets[..i]).after, sources, |packets|, i);
            && after == Discarded(Consume(Feed(start, packets[..k]).after, packets[k]).after)
            && Feed(start, packets[..i]).frames + frames == Feed(start, packets[..k]).frames
    decreases k - i
  {
    hide Consume, Feed;
    if i == k {
      assert Feed(start, packets[..k]).frames + [] == Feed(start, packets[..k]).frames;
    } else {
      assert packets[..i + 1] == packets[..i] + [packets[i]];
      assert packets[..k] == packets[..i + 1] + packets[i + 1..k];
      FeedAppend(start, packets[..i + 1], packets[i + 1..k]);
      FeedNext(start, packets[..i], packets[i]);
      ConsumedUpTo(start, sources, packets, i + 1, k);
      var o := Consume(Feed(start, packets[..i]).after, packets[i]);
      FramesAssociate(Feed(start, packets[..i]).frames, o.frames, ConsumeFrom(o.after, sources, |packets|, i + 1).1);
    }
  }

  /**
   A whole generation of which the assembler refuses a packet gives what the packets before it give. That packet
   and those behind it give nothing, the record under way is lost, and the next generation starts afresh.
   */
  lemma GenerationBrokenOff(r: Receiver, ns: seq<Niffin>, packets: seq<seq<byte>>, k: nat)
    requires GenerationSent(ns, packets) && Consecutively(ns) && ReadyFor(r, r.assembler, ns, 0)
    requires FailsAt(r.assembler, packets, k)
    ensures var (after, frames) := Received(r, ns);
            && frames == Feed(r.assembler, packets[..k]).frames && Blank(after)
            && after.assembler == Consume(Feed(r.assembler, packets[..k]).after, packets[k]).after.(active := None)
  {
    hide OnSource, GenerationSent, Consecutively, ReadyFor, Feed, Consume;
    SentSome(ns, packets);
    var n := |ns|;
    GenerationReceived(r, r.assembler, ns, packets, n - 1);
    LastBreaksOff(Received(r, ns[..n - 1]).0, r.assembler, ns, packets, k);
  }

  lemma SentSome(ns: seq<Niffin>, packets: seq<seq<byte>>)
    requires GenerationSent(ns, packets)
    ensures |ns| >= 1
  {
  }

  lemma LastBreaksOff(r: Receiver, a: Assembler, ns: seq<Niffin>, packets: seq<seq<byte>>, k: nat)
    requires GenerationSent(ns, packets) && Consecutively(ns) && ReadyFor(r, a, ns, |ns| - 1) && FailsAt(a, packets, k)
    ensures var (after, frames) := OnSource(r, ns[|ns| - 1]);
            && frames == Feed(a, packets[..k]).frames && Blank(after)
            && after.assembler == Discarded(Consume(Feed(a, packets[..k]).after, packets[k]).after)
  {
    hide InGeneration, Sequenced, LspStream.Kept, ConsumeFrom, Feed, Consume, FailsAt;
    var n := |ns|;
    PlacedNext(r, a, ns, packets, n - 1);
    KeptIsSent(ns, packets, n);
    assert ns[..n] == ns;
    var p := Ready(r, ns[n - 1]);
    AllKept(p, ns, packets);
    FeedNothing(a);
    assert packets[..0] == [];
    ConsumedUpTo(a, p.sources, packets, 0, k);
  }
}
