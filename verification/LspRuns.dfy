/**
 Runs of the receive loop: whatever datagrams arrive, a frame is only ever built from packets of one
 unbroken run of sequence numbers.
 */
module LspRuns {
  import opened Bytes
  import opened Frames
  import opened LspPacket
  import opened LspAssembler
  import opened LspReceiver
  import opened LspServer
  import opened Options

  // ----- the log of datagrams that count

  datatype Entry = Good(niffin: Niffin) | Bad

  /** What the loop makes of one arrival: strangers and parity leave no trace. */
  function EntryOf(arrival: Arrival): seq<Entry> {
    if !arrival.fromDevice then []
    else
      match ParseNiffin(arrival.data)
      case Parity => []
      case Invalid => [Bad]
      case Source(n) => [Good(n)]
  }

  function Log(arrivals: seq<Arrival>): seq<Entry> {
    if arrivals == [] then [] else Log(arrivals[..|arrivals| - 1]) + EntryOf(arrivals[|arrivals| - 1])
  }

  predicate Consecutive(a: Entry, b: Entry) {
    a.Good? && b.Good? && b.niffin.sequence == (a.niffin.sequence + 1) % SEQUENCE_SPACE
  }

  /** Where the unbroken run at the end of the log begins. */
  function RunStart(log: seq<Entry>): (lo: nat)
    ensures lo <= |log|
  {
    var last := |log| - 1;
    if log == [] then 0
    else if log[last].Bad? then |log|
    else if last > 0 && Consecutive(log[last - 1], log[last]) then RunStart(log[..last])
    else last
  }

  /** It is unbroken: valid source datagrams only, each one up from the one before, modulo 2^23. */
  lemma {:induction false} RunIsUnbroken(log: seq<Entry>)
    ensures forall i :: RunStart(log) <= i < |log| ==> log[i].Good?
    ensures forall i :: RunStart(log) < i < |log| ==> Consecutive(log[i - 1], log[i])
    decreases |log|
  {
    if log != [] && log[|log| - 1].Good? {
      RunIsUnbroken(log[..|log| - 1]);
      forall i | RunStart(log) < i < |log|
        ensures Consecutive(log[i - 1], log[i])
      {
        if i < |log| - 1 {
          assert Consecutive(log[..|log| - 1][i - 1], log[..|log| - 1][i]);
        }
      }
    }
  }

  // ----- what a frame is built from

  /** One complete generation: the positions in the log of its packets, by index, all within `from..to`. */
  datatype Generation = Generation(from: nat, to: nat, picks: seq<nat>)

  function PacketAt(log: seq<Entry>, i: nat): seq<byte> {
    if i < |log| && log[i].Good? then log[i].niffin.packet else []
  }

  function PacketsAt(log: seq<Entry>, picks: seq<nat>): (packets: seq<seq<byte>>)
    ensures |packets| == |picks|
  {
    if picks == [] then [] else PacketsAt(log, picks[..|picks| - 1]) + [PacketAt(log, picks[|picks| - 1])]
  }

  /** The entry is a source datagram with this index, of a generation with this number and count. */
  predicate Fits(entry: Entry, index: nat, generation: byte, count: nat) {
    && entry.Good? && entry.niffin.index == index
    && entry.niffin.generation == generation && entry.niffin.sourceCount == count
  }

  ghost predicate PicksOk(log: seq<Entry>, picks: seq<nat>, from: nat, to: nat, generation: byte, count: nat) {
    to <= |log| && forall k :: 0 <= k < |picks| ==> from <= picks[k] < to && Fits(log[picks[k]], k, generation, count)
  }

  /** Every index of the generation once, in index order. */
  ghost predicate GenerationOk(log: seq<Entry>, g: Generation) {
    g.picks != [] && g.from <= g.to && exists number :: PicksOk(log, g.picks, g.from, g.to, number, |g.picks|)
  }

  /** Complete generations one after the other, within `lo..hi`. */
  ghost predicate InOrder(log: seq<Entry>, gens: seq<Generation>, lo: nat, hi: nat) {
    && (forall i :: 0 <= i < |gens| ==> GenerationOk(log, gens[i]) && lo <= gens[i].from && gens[i].to <= hi)
    && (forall i :: 0 < i < |gens| ==> gens[i - 1].to <= gens[i].from)
  }

  function PacketsOf(log: seq<Entry>, gens: seq<Generation>): seq<seq<byte>> {
    if gens == [] then [] else PacketsOf(log, gens[..|gens| - 1]) + PacketsAt(log, gens[|gens| - 1].picks)
  }

  /** Packets through the assembler one by one, up to an error. */
  function Feed(a: Assembler, packets: seq<seq<byte>>): Outcome {
    if packets == [] then Outcome(a, [], true)
    else
      var o := Feed(a, packets[..|packets| - 1]);
      if !o.ok then o else Prepend(o.frames, Consume(o.after, packets[|packets| - 1]))
  }

  lemma FeedNext(start: Assembler, packets: seq<seq<byte>>, packet: seq<byte>)
    requires Feed(start, packets).ok
    ensures Feed(start, packets + [packet]) == Prepend(Feed(start, packets).frames,
                                                       Consume(Feed(start, packets).after, packet))
  {
    assert (packets + [packet])[..|packets|] == packets;
  }

  /** The assembler got to its state from one without a record, on whole generations of the run alone. */
  ghost predicate Reaches(start: Assembler, gens: seq<Generation>, a: Assembler, log: seq<Entry>, lo: nat, hi: nat) {
    && start.active.None? && InOrder(log, gens, lo, hi)
    && Feed(start, PacketsOf(log, gens)).ok && Feed(start, PacketsOf(log, gens)).after == a
  }

  ghost predicate BuiltFrom(a: Assembler, log: seq<Entry>, lo: nat, hi: nat) {
    exists start, gens :: Reaches(start, gens, a, log, lo, hi)
  }

  /** Of whole generations, the last of them up to its first `n` packets. */
  function PartlyOf(log: seq<Entry>, gens: seq<Generation>, n: nat): seq<seq<byte>>
    requires gens != [] && n <= |gens[|gens| - 1].picks|
  {
    PacketsOf(log, gens[..|gens| - 1]) + PacketsAt(log, gens[|gens| - 1].picks[..n])
  }

  /**
   The frame comes out when an assembler without a record is fed complete generations of the run, one after the
   other, each packet once and in index order, until some packet of the last one.
   */
  ghost predicate ComesOut(frame: VideoFrame, start: Assembler, gens: seq<Generation>, n: nat, log: seq<Entry>,
                           lo: nat) {
    && start.active.None? && gens != [] && n <= |gens[|gens| - 1].picks| && InOrder(log, gens, lo, |log|)
    && Feed(start, PartlyOf(log, gens, n)).ok && frame in Feed(start, PartlyOf(log, gens, n)).frames
  }

  ghost predicate FrameFrom(frame: VideoFrame, log: seq<Entry>, lo: nat) {
    exists start: Assembler, gens, n :: ComesOut(frame, start, gens, n, log, lo)
  }

  lemma WithoutRecord(a: Assembler, log: seq<Entry>, lo: nat, hi: nat)
    requires a.active.None?
    ensures BuiltFrom(a, log, lo, hi)
  {
    assert Reaches(a, [], a, log, lo, hi);
  }

  // ----- the log grows

  lemma {:induction false} PacketsAtMore(log: seq<Entry>, picks: seq<nat>, entry: Entry)
    requires forall k :: 0 <= k < |picks| ==> picks[k] < |log|
    ensures PacketsAt(log + [entry], picks) == PacketsAt(log, picks)
    decreases |picks|
  {
    if picks != [] {
      PacketsAtMore(log, picks[..|picks| - 1], entry);
    }
  }

  lemma GenerationOkMore(log: seq<Entry>, g: Generation, entry: Entry)
    requires GenerationOk(log, g)
    ensures GenerationOk(log + [entry], g) && PacketsAt(log + [entry], g.picks) == PacketsAt(log, g.picks)
  {
    var number :| PicksOk(log, g.picks, g.from, g.to, number, |g.picks|);
    assert PicksOk(log + [entry], g.picks, g.from, g.to, number, |g.picks|);
    PacketsAtMore(log, g.picks, entry);
  }

  lemma {:induction false} PacketsOfMore(log: seq<Entry>, gens: seq<Generation>, entry: Entry)
    requires forall i :: 0 <= i < |gens| ==> GenerationOk(log, gens[i])
    ensures PacketsOf(log + [entry], gens) == PacketsOf(log, gens)
    decreases |gens|
  {
    hide GenerationOk;
    if gens != [] {
      PacketsOfMore(log, gens[..|gens| - 1], entry);
      GenerationOkMore(log, gens[|gens| - 1], entry);
    }
  }

  lemma BuiltFromMore(a: Assembler, log: seq<Entry>, lo: nat, hi: nat, entry: Entry)
    requires BuiltFrom(a, log, lo, hi)
    ensures BuiltFrom(a, log + [entry], lo, hi)
  {
    hide GenerationOk, Feed;
    var start, gens :| Reaches(start, gens, a, log, lo, hi);
    forall i | 0 <= i < |gens|
      ensures GenerationOk(log + [entry], gens[i])
    {
      GenerationOkMore(log, gens[i], entry);
    }
    PacketsOfMore(log, gens, entry);
    assert Reaches(start, gens, a, log + [entry], lo, hi);
  }

  // ----- consuming a generation

  /** Where the assembler is after the first `i` packets of the generation under way. */
  ghost predicate PartWay(start: Assembler, gens: seq<Generation>, a: Assembler, i: nat, log: seq<Entry>, lo: nat) {
    && start.active.None? && gens != [] && i <= |gens[|gens| - 1].picks| && InOrder(log, gens, lo, |log|)
    && Feed(start, PartlyOf(log, gens, i)).ok && Feed(start, PartlyOf(log, gens, i)).after == a
  }

  lemma PartlyNext(log: seq<Entry>, gens: seq<Generation>, i: nat)
    requires gens != [] && i < |gens[|gens| - 1].picks|
    ensures PartlyOf(log, gens, i + 1) == PartlyOf(log, gens, i) + [PacketAt(log, gens[|gens| - 1].picks[i])]
  {
    var picks := gens[|gens| - 1].picks;
    assert picks[..i + 1][..i] == picks[..i];
  }

  lemma PartlyAll(log: seq<Entry>, gens: seq<Generation>)
    requires gens != []
    ensures PartlyOf(log, gens, |gens[|gens| - 1].picks|) == PacketsOf(log, gens)
    ensures PartlyOf(log, gens, 0) == PacketsOf(log, gens[..|gens| - 1])
  {
    var picks := gens[|gens| - 1].picks;
    assert picks[..|picks|] == picks && picks[..0] == [];
  }

  lemma ConsumeNext(start: Assembler, gens: seq<Generation>, a: Assembler, i: nat, log: seq<Entry>, lo: nat)
    requires PartWay(start, gens, a, i, log, lo) && i < |gens[|gens| - 1].picks|
    requires Consume(a, PacketAt(log, gens[|gens| - 1].picks[i])).ok
    ensures var o := Consume(a, PacketAt(log, gens[|gens| - 1].picks[i]));
            && PartWay(start, gens, o.after, i + 1, log, lo)
            && forall f :: f in o.frames ==> FrameFrom(f, log, lo)
  {
    hide Consume, InOrder, PartlyOf;
    var packet := PacketAt(log, gens[|gens| - 1].picks[i]);
    FeedNext(start, PartlyOf(log, gens, i), packet);
    PartlyNext(log, gens, i);
    forall f | f in Consume(a, packet).frames
      ensures FrameFrom(f, log, lo)
    {
      assert ComesOut(f, start, gens, i + 1, log, lo);
    }
  }

  /** The packets kept under their indices are those the picks name. */
  ghost predicate Picked(sources: map<nat, seq<byte>>, log: seq<Entry>, picks: seq<nat>) {
    forall k :: 0 <= k < |picks| ==> k in sources && sources[k] == PacketAt(log, picks[k])
  }

  lemma {:induction false} ConsumeFromInRun(start: Assembler, gens: seq<Generation>, a: Assembler,
                                            sources: map<nat, seq<byte>>, i: nat, log: seq<Entry>, lo: nat)
    requires PartWay(start, gens, a, i, log, lo) && Picked(sources, log, gens[|gens| - 1].picks)
    ensures var (after, frames) := ConsumeFrom(a, sources, |gens[|gens| - 1].picks|, i);
            BuiltFrom(after, log, lo, |log|) && forall f :: f in frames ==> FrameFrom(f, log, lo)
    decreases |gens[|gens| - 1].picks| - i
  {
    hide Consume, FrameFrom, InOrder, PartlyOf, PacketsOf, Feed, BuiltFrom;
    var picks := gens[|gens| - 1].picks;
    if i < |picks| {
      var o := Consume(a, sources[i]);
      if o.ok {
        ConsumeNext(start, gens, a, i, log, lo);
        ConsumeFromInRun(start, gens, o.after, sources, i + 1, log, lo);
      } else {
        WithoutRecord(Discarded(o.after), log, lo, |log|);
      }
    } else {
      PartlyAll(log, gens);
      ReachedIsBuilt(start, gens, a, log, lo);
    }
  }

  lemma ReachedIsBuilt(start: Assembler, gens: seq<Generation>, a: Assembler, log: seq<Entry>, lo: nat)
    requires Reaches(start, gens, a, log, lo, |log|)
    ensures BuiltFrom(a, log, lo, |log|)
  {
  }

  // ----- the invariant of the loop

  function LastSequence(log: seq<Entry>): Option<nat> {
    if log == [] then None
    else if log[|log| - 1].Good? then Some(log[|log| - 1].niffin.sequence)
    else LastSequence(log[..|log| - 1])
  }

  /** The packet kept under index `k` came with a datagram from `lo` on, for this index and generation. */
  ghost predicate KeptFromRun(r: Receiver, k: nat, log: seq<Entry>, lo: nat)
    requires k in r.sources
  {
    exists i :: lo <= i < |log| && Fits(log[i], k, r.generation, r.sourceCount) && log[i].niffin.packet == r.sources[k]
  }

  ghost predicate GenerationFromRun(r: Receiver, log: seq<Entry>, mid: nat) {
    r.haveGeneration ==> forall k :: k in r.sources ==> KeptFromRun(r, k, log, mid)
  }

  /** Up to `mid` the run has gone through the assembler; the generation under way came after it. */
  ghost predicate InRunAt(r: Receiver, log: seq<Entry>, lo: nat, mid: nat) {
    lo <= mid <= |log| && BuiltFrom(r.assembler, log, lo, mid) && GenerationFromRun(r, log, mid)
  }

  ghost predicate Inv(r: Receiver, log: seq<Entry>) {
    && ReceiverOk(r) && (exists mid :: InRunAt(r, log, RunStart(log), mid))
    && LastSequence(log) == (if r.haveSequence then Some(r.previous) else None)
  }

  /** Nothing is kept: no record and no generation. */
  predicate Blank(r: Receiver) {
    r.assembler.active.None? && !r.haveGeneration
  }

  lemma BlankInRun(r: Receiver, log: seq<Entry>, lo: nat)
    requires Blank(r) && lo <= |log|
    ensures InRunAt(r, log, lo, lo)
  {
    WithoutRecord(r.assembler, log, lo, lo);
  }

  lemma InRunMore(r: Receiver, log: seq<Entry>, lo: nat, mid: nat, entry: Entry)
    requires InRunAt(r, log, lo, mid)
    ensures InRunAt(r, log + [entry], lo, mid)
  {
    hide BuiltFrom;
    BuiltFromMore(r.assembler, log, lo, mid, entry);
    if r.haveGeneration {
      forall k | k in r.sources
        ensures KeptFromRun(r, k, log + [entry], mid)
      {
        assert KeptFromRun(r, k, log, mid);
        var i :| mid <= i < |log| && Fits(log[i], k, r.generation, r.sourceCount)
            && log[i].niffin.packet == r.sources[k];
        assert (log + [entry])[i] == log[i];
      }
    }
  }

  /** Without a gap the run goes on from where it began. */
  lemma RunGoesOn(r: Receiver, log: seq<Entry>, n: Niffin)
    requires LastSequence(log) == (if r.haveSequence then Some(r.previous) else None) && !Gap(r, n)
    ensures RunStart(log + [Good(n)]) == RunStart(log)
  {
    var log' := log + [Good(n)];
    assert log'[..|log|] == log;
    if log != [] {
      assert log'[|log| - 1] == log[|log| - 1];
    }
  }

  /** After the sequence number was looked at; whatever is kept came before this datagram. */
  lemma SequencedInRun(r: Receiver, log: seq<Entry>, mid: nat, n: Niffin) returns (mid': nat)
    requires InRunAt(r, log, RunStart(log), mid)
    requires LastSequence(log) == (if r.haveSequence then Some(r.previous) else None)
    ensures mid' <= |log| && InRunAt(Sequenced(r, n), log + [Good(n)], RunStart(log + [Good(n)]), mid')
  {
    hide BuiltFrom, RunStart;
    var log' := log + [Good(n)];
    RunIncludesNewest(log, n);
    if Gap(r, n) {
      mid' := RunStart(log');
      BlankInRun(Sequenced(r, n), log', mid');
    } else {
      mid' := mid;
      RunGoesOn(r, log, n);
      InRunMore(r, log, RunStart(log), mid, Good(n));
      SameParts(r, Sequenced(r, n), log', RunStart(log), mid);
    }
  }

  lemma SameParts(r: Receiver, r': Receiver, log: seq<Entry>, lo: nat, mid: nat)
    requires InRunAt(r, log, lo, mid)
    requires r'.assembler == r.assembler && r'.haveGeneration == r.haveGeneration && r'.sources == r.sources
    requires r'.generation == r.generation && r'.sourceCount == r.sourceCount
    ensures InRunAt(r', log, lo, mid)
  {
    hide BuiltFrom;
    if r'.haveGeneration {
      forall k | k in r'.sources
        ensures KeptFromRun(r', k, log, mid)
      {
        assert KeptFromRun(r, k, log, mid);
      }
    }
  }

  lemma InGenerationInRun(r: Receiver, n: Niffin, log: seq<Entry>, lo: nat, mid: nat)
    requires InRunAt(r, log, lo, mid)
    ensures InRunAt(InGeneration(r, n), log, lo, mid)
  {
    hide Reaches, KeptFromRun;
    var g := InGeneration(r, n);
    if g.assembler != r.assembler {
      WithoutRecord(g.assembler, log, lo, mid);
    }
  }

  lemma PlacedInRun(g: Receiver, n: Niffin, log: seq<Entry>, lo: nat, mid: nat)
    requires InRunAt(g, log, lo, mid) && g.haveGeneration && g.generation == n.generation
        && g.sourceCount == n.sourceCount
    requires mid < |log| && log[|log| - 1] == Good(n)
    ensures InRunAt(Placed(g, n), log, lo, mid)
  {
    hide BuiltFrom;
    var p := Placed(g, n);
    forall k | k in p.sources
      ensures KeptFromRun(p, k, log, mid)
    {
      if k == n.index {
        assert Fits(log[|log| - 1], k, p.generation, p.sourceCount);
      } else {
        assert KeptFromRun(g, k, log, mid);
      }
    }
  }

  /** The positions the packets of an open generation came from, for its first `n` indices. */
  lemma {:induction false} PicksExist(p: Receiver, log: seq<Entry>, mid: nat, n: nat) returns (picks: seq<nat>)
    requires GenerationFromRun(p, log, mid) && p.haveGeneration && forall k :: 0 <= k < n ==> k in p.sources
    ensures |picks| == n && PicksOk(log, picks, mid, |log|, p.generation, p.sourceCount)
    ensures Picked(p.sources, log, picks)
    decreases n
  {
    picks := [];
    if n > 0 {
      picks := PicksExist(p, log, mid, n - 1);
      assert KeptFromRun(p, n - 1, log, mid);
      var i :| mid <= i < |log| && Fits(log[i], n - 1, p.generation, p.sourceCount)
               && log[i].niffin.packet == p.sources[n - 1];
      picks := picks + [i];
    }
  }

  /** The receiver just before a datagram that fits completes, or not, its generation. */
  function Ready(r: Receiver, n: Niffin): Receiver {
    Placed(InGeneration(Sequenced(r, n), n), n)
  }

  lemma RunIncludesNewest(log: seq<Entry>, n: Niffin)
    ensures RunStart(log + [Good(n)]) <= |log|
  {
    assert (log + [Good(n)])[..|log|] == log;
  }

  lemma ReadyInRun(r: Receiver, log: seq<Entry>, n: Niffin) returns (mid: nat)
    requires Inv(r, log) && n.index < n.sourceCount && |n.packet| == PACKET_SIZE && n.sequence < SEQUENCE_SPACE
    requires InGeneration(Sequenced(r, n), n).sourceCount == n.sourceCount
    ensures var log' := log + [Good(n)];
            InRunAt(Ready(r, n), log', RunStart(log'), mid) && ReceiverOk(Ready(r, n)) && Ready(r, n).haveGeneration
    ensures Ready(r, n).generation == n.generation && Ready(r, n).sourceCount == n.sourceCount
  {
    hide InRunAt, ReceiverOk, Sequenced, InGeneration, RunStart;
    var log' := log + [Good(n)];
    var before :| InRunAt(r, log, RunStart(log), before);
    mid := SequencedInRun(r, log, before, n);
    SequencedOk(r, n);
    InGenerationInRun(Sequenced(r, n), n, log', RunStart(log'), mid);
    InGenerationOk(Sequenced(r, n), n);
    PlacedInRun(InGeneration(Sequenced(r, n), n), n, log', RunStart(log'), mid);
    LspReceiver.PlacedOk(InGeneration(Sequenced(r, n), n), n);
  }

  /** A complete generation goes through the assembler. */
  lemma CompletedInRun(p: Receiver, log: seq<Entry>, lo: nat, mid: nat)
    requires InRunAt(p, log, lo, mid) && p.haveGeneration && p.sourceCount > 0
    requires forall k :: 0 <= k < p.sourceCount ==> k in p.sources
    ensures var (after, frames) := ConsumeFrom(p.assembler, p.sources, p.sourceCount, 0);
            BuiltFrom(after, log, lo, |log|) && forall f :: f in frames ==> FrameFrom(f, log, lo)
  {
    hide ConsumeFrom, Feed, FrameFrom;
    var picks := PicksExist(p, log, mid, p.sourceCount);
    var start, gens :| Reaches(start, gens, p.assembler, log, lo, mid);
    var g := Generation(mid, |log|, picks);
    assert GenerationOk(log, g);
    NextInOrder(log, gens, g, lo, mid);
    var more := gens + [g];
    assert more[..|more| - 1] == gens;
    PartlyAll(log, more);
    assert PartWay(start, more, p.assembler, 0, log, lo);
    ConsumeFromInRun(start, more, p.assembler, p.sources, 0, log, lo);
  }

  lemma NextInOrder(log: seq<Entry>, gens: seq<Generation>, g: Generation, lo: nat, mid: nat)
    requires InOrder(log, gens, lo, mid) && GenerationOk(log, g) && lo <= mid == g.from <= g.to == |log|
    ensures InOrder(log, gens + [g], lo, |log|)
  {
    hide GenerationOk;
  }

  /** What a datagram does keeps everything within the run, and so do the frames it completes. */
  lemma OnSourceInRun(r: Receiver, log: seq<Entry>, n: Niffin)
    requires Inv(r, log) && n.index < n.sourceCount && |n.packet| == PACKET_SIZE && n.sequence < SEQUENCE_SPACE
    ensures var log' := log + [Good(n)];
            && (exists mid :: InRunAt(OnSource(r, n).0, log', RunStart(log'), mid))
            && forall f :: f in OnSource(r, n).1 ==> FrameFrom(f, log', RunStart(log'))
  {
    hide Inv, InRunAt, ReceiverOk, Sequenced, InGeneration, RunStart, ConsumeFrom, FrameFrom, Placed;
    var log' := log + [Good(n)];
    var g := InGeneration(Sequenced(r, n), n);
    RunIncludesNewest(log, n);
    if n.sourceCount != g.sourceCount {
      BlankInRun(Abandoned(g), log', RunStart(log'));
      assert InRunAt(OnSource(r, n).0, log', RunStart(log'), RunStart(log'));
    } else {
      var mid := ReadyInRun(r, log, n);
      var p := Ready(r, n);
      if Complete(p) {
        GenerationComplete(p);
        CompletedInRun(p, log', RunStart(log'), mid);
        ClosedInRun(OnSource(r, n).0, log', RunStart(log'));
        assert InRunAt(OnSource(r, n).0, log', RunStart(log'), |log'|);
      } else {
        assert OnSource(r, n) == (p, []);
      }
    }
  }

  lemma ClosedInRun(p: Receiver, log: seq<Entry>, lo: nat)
    requires BuiltFrom(p.assembler, log, lo, |log|) && !p.haveGeneration && lo <= |log|
    ensures InRunAt(p, log, lo, |log|)
  {
    hide BuiltFrom;
  }

  lemma OnSourceSequence(r: Receiver, n: Niffin)
    ensures OnSource(r, n).0.haveSequence && OnSource(r, n).0.previous == n.sequence
  {
    hide ConsumeFrom;
  }

  /** Every arrival keeps the invariant, and the frames it completes come from the run at that moment. */
  lemma ArrivalInRun(r: Receiver, log: seq<Entry>, arrival: Arrival)
    requires Inv(r, log)
    ensures var log' := log + EntryOf(arrival);
            && Inv(OnArrival(r, arrival).0, log')
            && forall f :: f in OnArrival(r, arrival).1 ==> FrameFrom(f, log', RunStart(log'))
  {
    OnArrivalOk(r, arrival);
    hide ReceiverOk, InRunAt, OnSource, FrameFrom, ParseNiffin;
    var log' := log + EntryOf(arrival);
    if EntryOf(arrival) == [] {
      assert log' == log;
    } else if EntryOf(arrival)[0].Bad? {
      assert log'[..|log|] == log;
      BlankInRun(Broken(r), log', RunStart(log'));
    } else {
      var n := EntryOf(arrival)[0].niffin;
      assert EntryOf(arrival) == [Good(n)];
      ParsedBounds(arrival.data);
      OnSourceInRun(r, log, n);
      OnSourceSequence(r, n);
    }
  }

  lemma ParsedBounds(data: seq<byte>)
    requires ParseNiffin(data).Source?
    ensures var n := ParseNiffin(data).niffin;
            n.index < n.sourceCount && |n.packet| == PACKET_SIZE && n.sequence < SEQUENCE_SPACE
  {
  }

  lemma StartInv(deviceID: string)
    ensures Inv(NewReceiver(deviceID), [])
  {
    BlankInRun(NewReceiver(deviceID), [], 0);
    assert InRunAt(NewReceiver(deviceID), [], RunStart([]), 0);
  }

  lemma {:induction false} ServedInv(deviceID: string, arrivals: seq<Arrival>)
    ensures Inv(Served(NewReceiver(deviceID), arrivals), Log(arrivals))
    decreases |arrivals|
  {
    hide Inv, OnArrival, EntryOf;
    if arrivals == [] {
      StartInv(deviceID);
    } else {
      var before := arrivals[..|arrivals| - 1];
      ServedInv(deviceID, before);
      ArrivalInRun(Served(NewReceiver(deviceID), before), Log(before), arrivals[|arrivals| - 1]);
    }
  }

  /**
   Gap-free frames: every frame recovered at the last of some arrivals comes from feeding an assembler without a
   record with complete generations of one unbroken run of datagrams, the one that ends there, in order and each
   packet once.
   */
  lemma EveryFrameGapFree(deviceID: string, arrivals: seq<Arrival>, arrival: Arrival, frame: VideoFrame)
    requires frame in OnArrival(Served(NewReceiver(deviceID), arrivals), arrival).1
    ensures var log := Log(arrivals) + EntryOf(arrival);
            && FrameFrom(frame, log, RunStart(log))
            && (forall i :: RunStart(log) <= i < |log| ==> log[i].Good?)
            && (forall i :: RunStart(log) < i < |log| ==> Consecutive(log[i - 1], log[i]))
  {
    hide Inv, OnArrival, FrameFrom, EntryOf, RunStart;
    ServedInv(deviceID, arrivals);
    ArrivalInRun(Served(NewReceiver(deviceID), arrivals), Log(arrivals), arrival);
    RunIsUnbroken(Log(arrivals) + EntryOf(arrival));
  }

  /**
   Whenever a generation is complete and so consumed: its packets are exactly those with index 0 to
   count - 1, each from a datagram of the unbroken run, for that index, generation and count.
   */
  lemma ConsumedGenerationIsWhole(deviceID: string, arrivals: seq<Arrival>, n: Niffin)
    requires n.index < n.sourceCount && |n.packet| == PACKET_SIZE && n.sequence < SEQUENCE_SPACE
    requires var r := Served(NewReceiver(deviceID), arrivals);
             InGeneration(Sequenced(r, n), n).sourceCount == n.sourceCount && Complete(Ready(r, n))
    ensures var p, log := Ready(Served(NewReceiver(deviceID), arrivals), n), Log(arrivals) + [Good(n)];
            && (forall k :: k in p.sources <==> 0 <= k < n.sourceCount)
            && p.generation == n.generation && p.sourceCount == n.sourceCount
            && (forall k :: k in p.sources ==> KeptFromRun(p, k, log, RunStart(log)))
  {
    hide Inv, ReceiverOk, Sequenced, InGeneration, Placed, BuiltFrom, KeptFromRun, RunStart, Served, Log;
    var r := Served(NewReceiver(deviceID), arrivals);
    ServedInv(deviceID, arrivals);
    var mid := ReadyInRun(r, Log(arrivals), n);
    KeptSinceStart(Ready(r, n), Log(arrivals) + [Good(n)], RunStart(Log(arrivals) + [Good(n)]), mid);
    CompleteKeys(Ready(r, n));
  }

  lemma KeptSinceStart(p: Receiver, log: seq<Entry>, lo: nat, mid: nat)
    requires InRunAt(p, log, lo, mid) && p.haveGeneration
    ensures forall k :: k in p.sources ==> KeptFromRun(p, k, log, lo)
  {
    hide BuiltFrom, Fits;
    forall k | k in p.sources
      ensures KeptFromRun(p, k, log, lo)
    {
      assert KeptFromRun(p, k, log, mid);
    }
  }

  lemma CompleteKeys(p: Receiver)
    requires ReceiverOk(p) && p.haveGeneration && Complete(p)
    ensures forall k :: k in p.sources <==> 0 <= k < p.sourceCount
  {
    hide ActiveValid;
    CompleteHasAll(p);
  }
}
