/**
 The whole way of the video, from the records a sender has to the frames the receiver recovers: records are cut
 into pieces, pieces placed into packets, packets grouped into generations, and each packet sent in a datagram.
 */
module LspStream {
  import opened Bytes
  import opened Frames
  import opened LspPacket
  import opened LspAssembler
  import opened LspFragments
  import opened LspContainer
  import opened LspReceiver
  import opened LspServer
  import opened LspRuns
  import opened Options

  // ----- packets

  /** The packet that synchronizes the receiver, and one after it. */
  datatype First = First(anchor: seq<byte>, section: Section, pieces: seq<Piece>, tail: seq<byte>, filler: seq<byte>)
  datatype Later = Later(before: seq<byte>, pieces: seq<Piece>, tail: seq<byte>, filler: seq<byte>)

  function Content(f: First): seq<byte>
    requires SectionOk(f.section) && PiecesOk(f.pieces)
  {
    SectionBytes(f.section) + (EncodePieces(f.pieces) + f.tail)
  }

  function SizeOf(f: First): nat
    requires SectionOk(f.section) && PiecesOk(f.pieces)
  {
    L2_HEADER_SIZE + |Content(f)|
  }

  predicate FirstOk(f: First) {
    && |f.anchor| == 8 && SectionOk(f.section) && PiecesOk(f.pieces) && EndsSection(f.tail)
    && SizeOf(f) + |f.filler| == PACKET_SIZE
  }

  function FirstBytes(f: First): seq<byte>
    requires FirstOk(f)
  {
    L2Header(f.anchor, SizeOf(f)) + Content(f) + f.filler
  }

  predicate LaterOk(p: Later, size: nat) {
    && |p.before| == 3 && PiecesOk(p.pieces) && EndsSection(p.tail)
    && |p.before + EncodePieces(p.pieces) + p.tail| == size && size + |p.filler| == PACKET_SIZE
  }

  function OneLater(p: Later, size: nat): seq<byte>
    requires LaterOk(p, size)
  {
    p.before + EncodePieces(p.pieces) + p.tail + p.filler
  }

  predicate AllLaterOk(later: seq<Later>, size: nat) {
    forall i :: 0 <= i < |later| ==> LaterOk(later[i], size)
  }

  function LaterBytes(later: seq<Later>, size: nat): seq<seq<byte>>
    requires AllLaterOk(later, size)
  {
    if later == [] then []
    else
      assert LaterOk(later[|later| - 1], size);
      LaterBytes(later[..|later| - 1], size) + [OneLater(later[|later| - 1], size)]
  }

  function LaterPieces(later: seq<Later>): seq<Piece> {
    if later == [] then [] else LaterPieces(later[..|later| - 1]) + later[|later| - 1].pieces
  }

  predicate PacketsOk(f: First, later: seq<Later>) {
    FirstOk(f) && AllLaterOk(later, SizeOf(f))
  }

  function PacketBytes(f: First, later: seq<Later>): seq<seq<byte>>
    requires PacketsOk(f, later)
  {
    [FirstBytes(f)] + LaterBytes(later, SizeOf(f))
  }

  /** Pieces change neither whether an assembler is synchronized nor to which size. */
  lemma {:induction false} FoldKeepsSize(a: Assembler, pieces: seq<Piece>)
    ensures var after := FoldPieces(a, pieces).after;
            after.synchronized == a.synchronized && after.packetSize == a.packetSize
    decreases |pieces|
  {
    hide IsFramHeader, Opened, Emitted, Be32;
    if pieces != [] {
      FoldKeepsSize(EntryStep(a, pieces[0].complete, pieces[0].payload).after, pieces[1..]);
    }
  }

  lemma {:induction false} LaterFed(a: Assembler, later: seq<Later>, size: nat)
    requires AllLaterOk(later, size) && LspAssembler.Valid(a) && a.synchronized && a.packetSize == size
    requires FoldPieces(a, LaterPieces(later)).ok
    ensures Feed(a, LaterBytes(later, size)) == FoldPieces(a, LaterPieces(later))
    ensures LspAssembler.Valid(FoldPieces(a, LaterPieces(later)).after)
    decreases |later|
  {
    hide FoldPieces, LspAssembler.Valid, Consume, LaterOk, OneLater;
    if later == [] {
      FoldNone(a);
    } else {
      var before, p := later[..|later| - 1], later[|later| - 1];
      assert LaterOk(p, size);
      FoldAppend(a, LaterPieces(before), p.pieces);
      LaterFed(a, before, size);
      var o := FoldPieces(a, LaterPieces(before));
      FoldKeepsSize(a, LaterPieces(before));
      OneLaterFed(o.after, p, size);
      FeedNext(a, LaterBytes(before, size), OneLater(p, size));
    }
  }

  lemma OneLaterFed(a: Assembler, p: Later, size: nat)
    requires LaterOk(p, size) && LspAssembler.Valid(a) && a.synchronized && a.packetSize == size
    ensures Consume(a, OneLater(p, size)) == FoldPieces(a, p.pieces)
    ensures LspAssembler.Valid(FoldPieces(a, p.pieces).after)
  {
    hide FoldPieces, LspAssembler.Valid, Consume, PiecesOk, EncodePieces;
    LaterPacketRead(a, p.before, p.pieces, p.tail, p.filler);
    ConsumeValid(a, OneLater(p, size));
  }

  lemma {:induction false} FeedAppend(a: Assembler, p: seq<seq<byte>>, q: seq<seq<byte>>)
    ensures Feed(a, p + q) ==
            (var o := Feed(a, p); if !o.ok then o else Prepend(o.frames, Feed(o.after, q)))
    decreases |q|
  {
    hide Consume;
    var o := Feed(a, p);
    if q == [] {
      assert p + q == p && o.frames + [] == o.frames;
    } else {
      var front, last := q[..|q| - 1], q[|q| - 1];
      FeedAppend(a, p, front);
      assert (p + q)[..|p + q| - 1] == p + front && (p + q)[|p + q| - 1] == last;
      if o.ok && Feed(o.after, front).ok {
        var more := Consume(Feed(o.after, front).after, last);
        FramesAssociate(o.frames, Feed(o.after, front).frames, more.frames);
      }
    }
  }

  lemma FeedOne(a: Assembler, packet: seq<byte>)
    ensures Feed(a, [packet]) == Consume(a, packet)
  {
    hide Consume;
    assert [packet][..0] == [] && [] + Consume(a, packet).frames == Consume(a, packet).frames;
  }

  /** The packets of a stream, fed to an assembler that has yet to synchronize, are the pieces in them. */
  lemma StreamFed(a: Assembler, f: First, later: seq<Later>)
    requires PacketsOk(f, later) && LspAssembler.Valid(a) && !a.synchronized
    requires var s := InSection(a, SizeOf(f), f.section); FoldPieces(s, f.pieces + LaterPieces(later)).ok
    ensures var s := InSection(a, SizeOf(f), f.section);
            Feed(a, PacketBytes(f, later)) == FoldPieces(s, f.pieces + LaterPieces(later))
  {
    hide FoldPieces, LspAssembler.Valid, Consume, PiecesOk, EncodePieces, SectionOk, SectionBytes, L2Header,
        LaterBytes, LaterPieces, Feed;
    var s := InSection(a, SizeOf(f), f.section);
    FirstPacketRead(a, f.anchor, f.section, f.pieces, f.tail, f.filler);
    FoldAppend(s, f.pieces, LaterPieces(later));
    FoldKeepsSize(s, f.pieces);
    ConsumeValid(a, FirstBytes(f));
    FeedOne(a, FirstBytes(f));
    FeedAppend(a, [FirstBytes(f)], LaterBytes(later, SizeOf(f)));
    LaterFed(FoldPieces(s, f.pieces).after, later, SizeOf(f));
  }

  // ----- generations

  /** The receiver after some source datagrams, and the frames they completed. */
  function Received(r: Receiver, ns: seq<Niffin>): (Receiver, seq<VideoFrame>) {
    if ns == [] then (r, [])
    else
      var (before, frames) := Received(r, ns[..|ns| - 1]);
      var (after, more) := OnSource(before, ns[|ns| - 1]);
      (after, frames + more)
  }

  lemma {:induction false} ReceivedAppend(r: Receiver, x: seq<Niffin>, y: seq<Niffin>)
    ensures Received(r, x + y) ==
            (Received(Received(r, x).0, y).0, Received(r, x).1 + Received(Received(r, x).0, y).1)
    decreases |y|
  {
    hide OnSource;
    if y == [] {
      assert x + y == x && Received(r, x).1 + [] == Received(r, x).1;
    } else {
      var front, last := y[..|y| - 1], y[|y| - 1];
      ReceivedAppend(r, x, front);
      assert (x + y)[..|x + y| - 1] == x + front && (x + y)[|x + y| - 1] == last;
      var before := Received(r, x);
      FramesAssociate(before.1, Received(before.0, front).1, OnSource(Received(before.0, front).0, last).1);
    }
  }

  /** The packets of a generation, each in one datagram under its index, in any order. */
  predicate GenerationSent(ns: seq<Niffin>, packets: seq<seq<byte>>) {
    && 1 <= |packets| == |ns| < 256
    && (forall i :: 0 <= i < |ns| ==>
          && ns[i].index < |ns| && ns[i].packet == packets[ns[i].index]
          && ns[i].generation == ns[0].generation && ns[i].sourceCount == |ns|)
    && (forall i, j :: 0 <= i < j < |ns| ==> ns[i].index != ns[j].index)
  }

  /** The sequence numbers go up by one, modulo 2^23. */
  predicate Consecutively(ns: seq<Niffin>) {
    forall i :: 0 < i < |ns| ==> ns[i].sequence == (ns[i - 1].sequence + 1) % SEQUENCE_SPACE
  }

  function Kept(ns: seq<Niffin>): map<nat, seq<byte>> {
    if ns == [] then map[] else Kept(ns[..|ns| - 1])[ns[|ns| - 1].index as nat := ns[|ns| - 1].packet]
  }

  lemma {:induction false} KeptIsSent(ns: seq<Niffin>, packets: seq<seq<byte>>, j: nat)
    requires GenerationSent(ns, packets) && j <= |ns|
    ensures |Kept(ns[..j])| == j
    ensures forall i :: j <= i < |ns| ==> ns[i].index !in Kept(ns[..j])
    ensures forall k :: k in Kept(ns[..j]) ==> k < |packets| && Kept(ns[..j])[k] == packets[k]
    decreases j
  {
    if j > 0 {
      KeptIsSent(ns, packets, j - 1);
      KeptNext(ns, j);
      hide Kept;
    }
  }

  lemma KeptNext(ns: seq<Niffin>, j: nat)
    requires 0 < j <= |ns|
    ensures Kept(ns[..j]) == Kept(ns[..j - 1])[ns[j - 1].index as nat := ns[j - 1].packet]
  {
    assert ns[..j][..j - 1] == ns[..j - 1];
  }

  /** The receiver has taken the first `j` datagrams of the generation and is ready for the next. */
  ghost predicate ReadyFor(r: Receiver, a: Assembler, ns: seq<Niffin>, j: nat)
    requires j < |ns|
  {
    && r.assembler == a
    && if j == 0 then !r.haveGeneration && (Gap(r, ns[0]) ==> a.active.None?)
       else
         && r.haveGeneration && r.generation == ns[0].generation && r.sourceCount == |ns| && r.sources == Kept(ns[..j])
         && r.haveSequence && r.previous == ns[j - 1].sequence
  }

  lemma PlacedNext(r: Receiver, a: Assembler, ns: seq<Niffin>, packets: seq<seq<byte>>, j: nat)
    requires GenerationSent(ns, packets) && Consecutively(ns) && j < |ns| && ReadyFor(r, a, ns, j)
    ensures var p := Ready(r, ns[j]);
            && p.assembler == a && p.haveGeneration && p.generation == ns[0].generation && p.sourceCount == |ns|
            && p.sources == Kept(ns[..j + 1]) && p.haveSequence && p.previous == ns[j].sequence
    ensures InGeneration(Sequenced(r, ns[j]), ns[j]).sourceCount == ns[j].sourceCount
  {
    assert ns[..j + 1][..j] == ns[..j];
    var a' := a.(active := None);
    assert a.active.None? ==> a' == a;
  }

  lemma NextIsReady(r: Receiver, a: Assembler, ns: seq<Niffin>, packets: seq<seq<byte>>, j: nat)
    requires GenerationSent(ns, packets) && Consecutively(ns) && j + 1 < |ns| && ReadyFor(r, a, ns, j)
    ensures OnSource(r, ns[j]).1 == [] && ReadyFor(OnSource(r, ns[j]).0, a, ns, j + 1)
  {
    hide InGeneration, Sequenced, Kept, ConsumeFrom;
    PlacedNext(r, a, ns, packets, j);
    KeptIsSent(ns, packets, j + 1);
  }

  /** Consuming in index order is feeding the packets. */
  lemma {:induction false} ConsumedIsFed(start: Assembler, sources: map<nat, seq<byte>>, packets: seq<seq<byte>>,
                                         i: nat)
    requires i <= |packets| && (forall k :: 0 <= k < |packets| ==> k in sources && sources[k] == packets[k])
    requires Feed(start, packets).ok && Feed(start, packets[..i]).ok
    ensures var (after, frames) := ConsumeFrom(Feed(start, packets[..i]).after, sources, |packets|, i);
            && after == Feed(start, packets).after
            && Feed(start, packets[..i]).frames + frames == Feed(start, packets).frames
    decreases |packets| - i
  {
    hide Consume, Feed;
    if i == |packets| {
      assert packets[..i] == packets;
      assert Feed(start, packets).frames + [] == Feed(start, packets).frames;
    } else {
      assert packets[..i + 1] == packets[..i] + [packets[i]];
      assert packets == packets[..i + 1] + packets[i + 1..];
      FeedAppend(start, packets[..i + 1], packets[i + 1..]);
      FeedNext(start, packets[..i], packets[i]);
      ConsumedIsFed(start, sources, packets, i + 1);
      var o := Consume(Feed(start, packets[..i]).after, packets[i]);
      FramesAssociate(Feed(start, packets[..i]).frames, o.frames, ConsumeFrom(o.after, sources, |packets|, i + 1).1);
    }
  }

  lemma LastCompletes(r: Receiver, a: Assembler, ns: seq<Niffin>, packets: seq<seq<byte>>)
    requires GenerationSent(ns, packets) && Consecutively(ns) && ReadyFor(r, a, ns, |ns| - 1) && Feed(a, packets).ok
    ensures var (after, frames) := OnSource(r, ns[|ns| - 1]);
            && frames == Feed(a, packets).frames && after.assembler == Feed(a, packets).after
            && !after.haveGeneration && after.haveSequence && after.previous == ns[|ns| - 1].sequence
  {
    hide InGeneration, Sequenced, Kept, ConsumeFrom, Feed;
    var n := |ns|;
    PlacedNext(r, a, ns, packets, n - 1);
    KeptIsSent(ns, packets, n);
    assert ns[..n] == ns;
    var p := Ready(r, ns[n - 1]);
    AllKept(p, ns, packets);
    FeedNothing(a);
    assert packets[..0] == [];
    ConsumedIsFed(a, p.sources, packets, 0);
  }

  lemma FeedNothing(a: Assembler)
    ensures Feed(a, []) == Outcome(a, [], true)
  {
  }

  lemma AllKept(p: Receiver, ns: seq<Niffin>, packets: seq<seq<byte>>)
    requires GenerationSent(ns, packets) && p.sources == Kept(ns) && p.sourceCount == |ns| && |Kept(ns)| == |ns|
    requires forall k :: k in Kept(ns) ==> k < |packets| && Kept(ns)[k] == packets[k]
    ensures forall k :: 0 <= k < |packets| ==> k in p.sources && p.sources[k] == packets[k]
  {
    hide Kept;
    assert |p.sources.Keys| == |p.sources|;
    FullSet(p.sources.Keys, |ns|);
  }

  /** A whole generation: nothing until its last datagram, then what its packets give in index order. */
  lemma {:induction false} GenerationReceived(r: Receiver, a: Assembler, ns: seq<Niffin>, packets: seq<seq<byte>>,
                                              j: nat)
    requires GenerationSent(ns, packets) && Consecutively(ns) && ReadyFor(r, a, ns, 0) && j < |ns|
    ensures Received(r, ns[..j]).1 == [] && ReadyFor(Received(r, ns[..j]).0, a, ns, j)
    decreases j
  {
    hide OnSource, GenerationSent, Consecutively, ReadyFor;
    if j > 0 {
      GenerationReceived(r, a, ns, packets, j - 1);
      assert ns[..j][..j - 1] == ns[..j - 1];
      NextIsReady(Received(r, ns[..j - 1]).0, a, ns, packets, j - 1);
    }
  }

  lemma GenerationGives(r: Receiver, ns: seq<Niffin>, packets: seq<seq<byte>>)
    requires GenerationSent(ns, packets) && Consecutively(ns) && ReadyFor(r, r.assembler, ns, 0)
    requires Feed(r.assembler, packets).ok
    ensures var (after, frames) := Received(r, ns);
            && frames == Feed(r.assembler, packets).frames && after.assembler == Feed(r.assembler, packets).after
            && !after.haveGeneration && after.haveSequence && after.previous == ns[|ns| - 1].sequence
  {
    assert |ns| >= 1;
    hide OnSource, GenerationSent, Consecutively, ReadyFor, Feed;
    var n := |ns|;
    GenerationReceived(r, r.assembler, ns, packets, n - 1);
    LastCompletes(Received(r, ns[..n - 1]).0, r.assembler, ns, packets);
  }

  // ----- the whole stream

  /** The packets go out in order, some generation after the other. */
  predicate AllSent(gens: seq<seq<Niffin>>, grouped: seq<seq<seq<byte>>>) {
    |gens| == |grouped| && forall i :: 0 <= i < |gens| ==> GenerationSent(gens[i], grouped[i])
  }

  /** Nothing is open, and the next datagram follows on, unless there is no record to lose. */
  predicate Between(r: Receiver, ns: seq<Niffin>) {
    !r.haveGeneration && (ns != [] && Gap(r, ns[0]) ==> r.assembler.active.None?)
  }

  lemma {:induction false} StreamGives(r: Receiver, gens: seq<seq<Niffin>>, grouped: seq<seq<seq<byte>>>)
    requires AllSent(gens, grouped) && Consecutively(Concat(gens)) && Between(r, Concat(gens))
    requires Feed(r.assembler, Concat(grouped)).ok
    ensures Received(r, Concat(gens)).1 == Feed(r.assembler, Concat(grouped)).frames
    decreases |gens|
  {
    hide GenerationSent, Received, Feed;
    if gens == [] {
      NothingReceived(r);
      FeedNothing(r.assembler);
    } else {
      var ns, packets := gens[0], grouped[0];
      assert GenerationSent(ns, packets);
      var rest, more := Concat(gens[1..]), Concat(grouped[1..]);
      assert Concat(gens) == ns + rest && Concat(grouped) == packets + more;
      FirstOfStream(r, ns, packets, rest);
      FeedAppend(r.assembler, packets, more);
      GenerationGives(r, ns, packets);
      ReceivedAppend(r, ns, rest);
      var after := Received(r, ns).0;
      RestFollowsOn(after, ns, rest);
      assert AllSent(gens[1..], grouped[1..]);
      StreamGives(after, gens[1..], grouped[1..]);
    }
  }

  lemma NothingReceived(r: Receiver)
    ensures Received(r, []) == (r, [])
  {
  }

  lemma FirstOfStream(r: Receiver, ns: seq<Niffin>, packets: seq<seq<byte>>, rest: seq<Niffin>)
    requires GenerationSent(ns, packets) && Consecutively(ns + rest) && Between(r, ns + rest)
    ensures |ns| >= 1 && Consecutively(ns) && ReadyFor(r, r.assembler, ns, 0)
  {
    assert forall i :: 0 <= i < |ns| ==> (ns + rest)[i] == ns[i];
  }

  lemma RestFollowsOn(after: Receiver, ns: seq<Niffin>, rest: seq<Niffin>)
    requires ns != [] && Consecutively(ns + rest)
    requires !after.haveGeneration && after.haveSequence && after.previous == ns[|ns| - 1].sequence
    ensures Consecutively(rest) && Between(after, rest)
  {
    var all := ns + rest;
    assert forall i :: 0 <= i < |rest| ==> all[|ns| + i] == rest[i];
    assert all[|ns| - 1] == ns[|ns| - 1];
    forall i | 0 < i < |rest|
      ensures rest[i].sequence == (rest[i - 1].sequence + 1) % SEQUENCE_SPACE
    {
      assert all[|ns| + i].sequence == (all[|ns| + i - 1].sequence + 1) % SEQUENCE_SPACE;
    }
    if rest != [] {
      assert all[|ns|].sequence == (all[|ns| - 1].sequence + 1) % SEQUENCE_SPACE;
    }
  }

  // ----- what arrives

  /** The log consists of exactly these source datagrams; strangers and parity may have come in between. */
  predicate Logged(log: seq<Entry>, ns: seq<Niffin>) {
    |log| == |ns| && forall i :: 0 <= i < |ns| ==> log[i] == Good(ns[i])
  }

  lemma {:induction false} ArrivalsReceived(r: Receiver, arrivals: seq<Arrival>, ns: seq<Niffin>)
    requires Logged(Log(arrivals), ns)
    ensures Served(r, arrivals) == Received(r, ns).0 && Recovered(r, arrivals) == Received(r, ns).1
    decreases |arrivals|
  {
    hide OnSource, ParseNiffin;
    if arrivals != [] {
      var before, last := arrivals[..|arrivals| - 1], arrivals[|arrivals| - 1];
      if EntryOf(last) == [] {
        assert Log(arrivals) == Log(before);
        ArrivalsReceived(r, before, ns);
      } else {
        LastLogged(Log(before), EntryOf(last)[0], ns);
        ArrivalsReceived(r, before, ns[..|ns| - 1]);
      }
    }
  }

  lemma LastLogged(log: seq<Entry>, entry: Entry, ns: seq<Niffin>)
    requires Logged(log + [entry], ns)
    ensures ns != [] && Logged(log, ns[..|ns| - 1]) && entry == Good(ns[|ns| - 1])
  {
    var all := log + [entry];
    assert all[|all| - 1] == entry;
    assert forall i :: 0 <= i < |log| ==> all[i] == log[i];
  }

  /** The datagrams themselves, sent from the device with any trailers, are logged so. */
  lemma {:induction false} SentIsLogged(arrivals: seq<Arrival>, ns: seq<Niffin>, trailers: seq<seq<byte>>)
    requires |arrivals| == |ns| == |trailers|
    requires forall i :: 0 <= i < |ns| ==>
               && ns[i].sequence < SEQUENCE_SPACE && ns[i].index < ns[i].sourceCount && |ns[i].packet| == PACKET_SIZE
               && |trailers[i]| == 8 && arrivals[i] == Arrival(true, NiffinBytes(ns[i], trailers[i]))
    ensures Logged(Log(arrivals), ns)
    decreases |ns|
  {
    hide NiffinBytes, ParseNiffin;
    if arrivals != [] {
      var n := |ns| - 1;
      SentIsLogged(arrivals[..n], ns[..n], trailers[..n]);
      NiffinRoundTrip(ns[n], trailers[n]);
    }
  }

  /** The packets of a stream give the frames of the records whose pieces are in them. */
  lemma StreamIsFrames(a: Assembler, records: seq<Record>, fragmented: seq<seq<Piece>>, f: First, later: seq<Later>)
    requires LspAssembler.Valid(a) && !a.synchronized
    requires FragmentsAll(records, fragmented) && PacketsOk(f, later)
    requires f.pieces + LaterPieces(later) == JoinPieces(fragmented)
    ensures var out := Feed(a, PacketBytes(f, later));
            out.ok && out.frames == FramesOf(a.deviceID, records, a.sequence + 1)
  {
    hide FragmentsAll, PacketsOk, LaterPieces, JoinPieces, FoldPieces, ActiveValid, LspAssembler.Valid, AllLaterOk,
         FramesOf, InSection, PacketBytes, Feed;
    SizeIsKnown(f, later);
    var s := InSection(a, SizeOf(f), f.section);
    SectionStartsAfresh(a, SizeOf(f), f.section);
    RecordsReassembled(s, records, fragmented);
    StreamFed(a, f, later);
  }

  lemma SectionStartsAfresh(a: Assembler, size: nat, section: Section)
    requires LspAssembler.Valid(a) && !a.synchronized
    ensures var s := InSection(a, size, section);
            s.active.None? && s.deviceID == a.deviceID && s.sequence == a.sequence
  {
  }

  /**
   The whole way: records with data, cut into pieces in any way, placed into packets of which the first synchronizes
   the receiver, grouped into generations whose packets come in any order, sent under consecutive sequence numbers
   and mixed with datagrams that do not count, come out as exactly their frames, in order.
   */
  lemma EveryRecordArrives(r: Receiver, records: seq<Record>, fragmented: seq<seq<Piece>>, f: First, later: seq<Later>,
                           grouped: seq<seq<seq<byte>>>, gens: seq<seq<Niffin>>, arrivals: seq<Arrival>)
    requires ReceiverOk(r) && !r.assembler.synchronized && !r.haveGeneration
    requires FragmentsAll(records, fragmented) && PacketsOk(f, later)
    requires f.pieces + LaterPieces(later) == JoinPieces(fragmented)
    requires Concat(grouped) == PacketBytes(f, later) && AllSent(gens, grouped)
    requires Consecutively(Concat(gens)) && Logged(Log(arrivals), Concat(gens))
    ensures Recovered(r, arrivals) == FramesOf(r.assembler.deviceID, records, r.assembler.sequence + 1)
  {
    hide FragmentsAll, PacketsOk, LaterPieces, JoinPieces, AllSent, Consecutively, Logged, FoldPieces, ActiveValid,
         PacketBytes, Feed, Received, Recovered, Log, LspAssembler.Valid, AllLaterOk, Gap, FramesOf, InSection, Concat,
         Between, ReceiverOk;
    StartsBetween(r, Concat(gens));
    StreamIsFrames(r.assembler, records, fragmented, f, later);
    StreamGives(r, gens, grouped);
    ArrivalsReceived(r, arrivals, Concat(gens));
  }

  lemma StartsBetween(r: Receiver, ns: seq<Niffin>)
    requires ReceiverOk(r) && !r.assembler.synchronized && !r.haveGeneration
    ensures Between(r, ns) && LspAssembler.Valid(r.assembler)
  {
    hide ActiveValid, Gap;
  }

  lemma SizeIsKnown(f: First, later: seq<Later>)
    requires PacketsOk(f, later)
    ensures FirstOk(f)
  {
  }
}
