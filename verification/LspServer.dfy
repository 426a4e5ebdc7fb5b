/** The loop that serves the live video of one device, on its local variables and the assembler object. */
module LspServer {
  import opened Bytes
  import opened Frames
  import opened LspPacket
  import opened LspAssembler
  import opened LspReceiver
  import A = VideoAssembler

  /** The receiver after some arrivals. */
  function Served(r: Receiver, arrivals: seq<Arrival>): Receiver {
    if arrivals == [] then r else OnArrival(Served(r, arrivals[..|arrivals| - 1]), arrivals[|arrivals| - 1]).0
  }

  /** The frames recovered from them, in order. */
  function Recovered(r: Receiver, arrivals: seq<Arrival>): seq<VideoFrame> {
    if arrivals == [] then []
    else
      var before := arrivals[..|arrivals| - 1];
      Recovered(r, before) + OnArrival(Served(r, before), arrivals[|arrivals| - 1]).1
  }

  lemma ServedNext(r: Receiver, arrivals: seq<Arrival>, n: nat)
    requires n < |arrivals|
    ensures Served(r, arrivals[..n + 1]) == OnArrival(Served(r, arrivals[..n]), arrivals[n]).0
    ensures Recovered(r, arrivals[..n + 1]) ==
            Recovered(r, arrivals[..n]) + OnArrival(Served(r, arrivals[..n]), arrivals[n]).1
  {
    assert arrivals[..n + 1][..n] == arrivals[..n];
  }

  class LSPVideoServer {
    const assembler: A.VideoAssembler
    var haveGeneration: bool
    var generation: byte
    var sourceCount: byte
    var sourcePackets: map<nat, seq<byte>>
    var haveSequence: bool
    var previousSequence: nat
    /** The frames written to the transcoder, and the discontinuities published to the hub. */
    var written: seq<VideoFrame>
    var discontinuities: nat

    ghost function State(): Receiver
      reads this, assembler
    {
      Receiver(assembler.State(), haveGeneration, generation, sourceCount, sourcePackets, haveSequence,
               previousSequence)
    }

    constructor (deviceID: string)
      ensures State() == NewReceiver(deviceID) && written == [] && discontinuities == 0 && fresh(assembler)
    {
      assembler := new A.VideoAssembler(deviceID);
      haveGeneration, generation, sourceCount, sourcePackets := false, 0, 0, map[];
      haveSequence, previousSequence, written, discontinuities := false, 0, [], 0;
    }

    method Abandon()
      modifies this`haveGeneration, assembler
      ensures State() == Abandoned(old(State()))
    {
      assembler.DiscardActiveFrame();
      haveGeneration := false;
    }

    method TrackSequence(n: Niffin)
      modifies this`haveGeneration, this`haveSequence, this`previousSequence, assembler
      ensures State() == Sequenced(old(State()), n)
    {
      if haveSequence && n.sequence != (previousSequence + 1) % SEQUENCE_SPACE {
        Abandon();
      }
      previousSequence := n.sequence;
      haveSequence := true;
    }

    method EnterGeneration(n: Niffin)
      modifies this`haveGeneration, this`generation, this`sourceCount, this`sourcePackets, assembler
      ensures State() == InGeneration(old(State()), n)
    {
      if !haveGeneration || n.generation != generation {
        if haveGeneration && |sourcePackets| != sourceCount {
          assembler.DiscardActiveFrame();
        }
        generation := n.generation;
        sourceCount := n.sourceCount;
        sourcePackets := map[];
        haveGeneration := true;
      }
    }

    /** The complete generation through the assembler: the frames of the packets before the first error. */
    method ConsumeGeneration() returns (frames: seq<VideoFrame>)
      requires ReceiverOk(State()) && forall k :: 0 <= k < sourceCount ==> k in sourcePackets
      modifies assembler
      ensures (assembler.State(), frames) == ConsumeFrom(old(assembler.State()), sourcePackets, sourceCount, 0)
    {
      ghost var goal := ConsumeFrom(assembler.State(), sourcePackets, sourceCount, 0);
      hide Consume, ActiveValid;
      frames := [];
      assert [] + goal.1 == goal.1;
      var sourceIndex := 0;
      while sourceIndex < sourceCount
        invariant 0 <= sourceIndex <= sourceCount && LspAssembler.Valid(assembler.State())
        invariant goal == Before(frames, ConsumeFrom(assembler.State(), sourcePackets, sourceCount, sourceIndex))
      {
        ghost var a := assembler.State();
        var more, ok := assembler.Consume(sourcePackets[sourceIndex]);
        if !ok {
          assembler.DiscardActiveFrame();
          assert frames + [] == frames;
          return;
        }
        BeforeTwice(frames, more, ConsumeFrom(assembler.State(), sourcePackets, sourceCount, sourceIndex + 1));
        frames := frames + more;
        sourceIndex := sourceIndex + 1;
      }
      assert frames + [] == frames;
    }

    /** One source datagram: the frames it completes. */
    method TakeSource(n: Niffin) returns (frames: seq<VideoFrame>)
      requires ReceiverOk(State())
      requires n.index < n.sourceCount && |n.packet| == PACKET_SIZE && n.sequence < SEQUENCE_SPACE
      modifies this`haveGeneration, this`generation, this`sourceCount, this`sourcePackets, this`haveSequence,
               this`previousSequence, assembler
      ensures (State(), frames) == OnSource(old(State()), n)
    {
      SequencedOk(State(), n);
      InGenerationOk(Sequenced(State(), n), n);
      hide ReceiverOk, Sequenced, InGeneration, ConsumeFrom;
      TrackSequence(n);
      EnterGeneration(n);
      if n.sourceCount != sourceCount {
        Abandon();
        return [];
      }
      PlacedOk(State(), n);
      sourcePackets := sourcePackets[n.index as nat := n.packet];
      if |sourcePackets| != sourceCount {
        return [];
      }
      GenerationComplete(State());
      frames := ConsumeGeneration();
      haveGeneration := false;
    }

    /** One read from the socket. */
    method Take(arrival: Arrival) returns (frames: seq<VideoFrame>)
      requires ReceiverOk(State())
      modifies this`haveGeneration, this`generation, this`sourceCount, this`sourcePackets, this`haveSequence,
               this`previousSequence, assembler
      ensures (State(), frames) == OnArrival(old(State()), arrival) && ReceiverOk(State())
    {
      OnArrivalOk(State(), arrival);
      hide ReceiverOk, OnSource;
      frames := [];
      if !arrival.fromDevice {
        return;
      }
      var packet := ParseNiffin(arrival.data);
      match packet
      case Parity =>
      case Invalid =>
        assembler.ResetAll();
        haveGeneration := false;
      case Source(n) =>
        frames := TakeSource(n);
    }

    /**
     The loop over everything read, until a write to the transcoder fails: what was written is what the
     arrivals so far recover, or, after the failing write, the part of it up to that frame. The subscribers are
     told of a failed write, and only of that.
     */
    method Serve(arrivals: seq<Arrival>, writeOk: nat -> bool) returns (used: nat, failed: bool)
      requires ReceiverOk(State()) && written == []
      modifies this, assembler
      ensures used <= |arrivals| && (!failed ==> used == |arrivals|)
      ensures !failed ==> State() == Served(old(State()), arrivals) && written == Recovered(old(State()), arrivals)
      ensures failed ==> written < Recovered(old(State()), arrivals[..used]) && !writeOk(|written|)
      ensures forall i :: 0 <= i < |written| ==> writeOk(i)
      ensures discontinuities == old(discontinuities) + (if failed then 1 else 0)
    {
      ghost var r0 := State();
      hide ReceiverOk, OnArrival;
      used, failed := 0, false;
      while used < |arrivals|
        invariant used <= |arrivals| && !failed && ReceiverOk(State())
        invariant State() == Served(r0, arrivals[..used]) && written == Recovered(r0, arrivals[..used])
        invariant forall i :: 0 <= i < |written| ==> writeOk(i)
        invariant discontinuities == old(discontinuities)
      {
        ServedNext(r0, arrivals, used);
        var frames := Take(arrivals[used]);
        used := used + 1;
        ghost var before := written;
        var i := 0;
        while i < |frames|
          invariant 0 <= i <= |frames| && written == before + frames[..i] && ReceiverOk(State())
          invariant State() == Served(r0, arrivals[..used])
          invariant forall k :: 0 <= k < |written| ==> writeOk(k)
          invariant discontinuities == old(discontinuities)
        {
          if !writeOk(|written|) {
            discontinuities := discontinuities + 1;
            assert before + frames == written + frames[i..];
            return used, true;
          }
          written := written + [frames[i]];
          i := i + 1;
        }
        assert frames[..i] == frames;
      }
      assert arrivals[..used] == arrivals;
    }
  }

  ghost function Before(frames: seq<VideoFrame>, r: (Assembler, seq<VideoFrame>)): (Assembler, seq<VideoFrame>) {
    (r.0, frames + r.1)
  }

  lemma BeforeTwice(a: seq<VideoFrame>, b: seq<VideoFrame>, r: (Assembler, seq<VideoFrame>))
    ensures Before(a, Before(b, r)) == Before(a + b, r)
  {
    assert a + (b + r.1) == a + b + r.1;
  }

  lemma GenerationComplete(r: Receiver)
    requires ReceiverOk(r) && r.haveGeneration && Complete(r)
    ensures forall k :: 0 <= k < r.sourceCount ==> k in r.sources
  {
    hide ActiveValid;
    CompleteHasAll(r);
  }
}
