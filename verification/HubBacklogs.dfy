/**
 What a publish does for the backlog and for every subscriber, from the frames themselves, and what the
 backlog is after any run.
 */
module HubBacklogs {
  import opened Frames
  import opened HubState
  import opened HubRuns
  import opened HubUndisturbed

  const CAP: nat := 128 * 1024 * 1024

  /** The frames a publish adds to: none for a key frame, the backlog for any other. */
  function GroupBefore(h: Hub, frame: VideoFrame): seq<VideoFrame> {
    if frame.keyFrame then [] else StreamOf(h, frame.deviceID).backlog
  }

  /** The frame has a key frame to go back to: itself, or the one the backlog begins with. */
  predicate InGroup(h: Hub, frame: VideoFrame) {
    frame.keyFrame || StreamOf(h, frame.deviceID).backlog != []
  }

  /** The frame is sent to the subscriber, or would be if its queue had room. */
  predicate Wanted(h: Hub, frame: VideoFrame, id: nat) {
    && InGroup(h, frame) && TotalBytes(GroupBefore(h, frame) + [frame]) <= CAP
    && Subscribed(h, frame.deviceID, id) && (frame.keyFrame || Ready(h, frame.deviceID, id))
  }

  lemma RecordedIs(s: Stream, frame: VideoFrame)
    requires BacklogValid(s)
    ensures var group := if frame.keyFrame then [] else s.backlog;
            var fits := (frame.keyFrame || s.backlog != []) && TotalBytes(group + [frame]) <= CAP;
            && Recorded(s, frame).backlog == (if fits then group + [frame] else [])
            && Recorded(s, frame).hasKeyFrame == fits
            && forall id :: id in s.ready ==>
                 Recorded(s, frame).ready[id] == (fits && (frame.keyFrame || s.ready[id]))
  {
    TotalBytesSnoc(s.backlog, frame);
    TotalBytesSnoc([], frame);
  }

  /**
   The backlog after a publish: the group with the frame while the bytes are within the cap, and otherwise, or
   without a key frame to go back to, nothing.
   */
  lemma PublishedBacklog(h: Hub, frame: VideoFrame)
    requires Valid(h)
    ensures StreamOf(Publish(h, frame), frame.deviceID).backlog ==
            if InGroup(h, frame) && TotalBytes(GroupBefore(h, frame) + [frame]) <= CAP
            then GroupBefore(h, frame) + [frame] else []
    ensures forall d :: d != frame.deviceID ==> StreamOf(Publish(h, frame), d) == StreamOf(h, d)
  {
    BacklogOfValid(h, frame.deviceID);
    RecordedIs(StreamOf(h, frame.deviceID), frame);
    hide Recorded, TotalBytes;
  }

  lemma BacklogOfValid(h: Hub, d: string)
    requires Valid(h)
    ensures BacklogValid(StreamOf(h, d))
  {
    hide ChannelValid;
  }

  /** Who wants the frame is who recording it leaves ready. */
  lemma WantedIsReady(h: Hub, frame: VideoFrame, id: nat)
    requires Valid(h)
    ensures var d := frame.deviceID;
            Subscribed(h, d, id) ==>
              id in StreamOf(h, d).ready && Recorded(StreamOf(h, d), frame).ready[id] == Wanted(h, frame, id)
    ensures !Subscribed(h, frame.deviceID, id) ==> !Wanted(h, frame, id) && id !in StreamOf(h, frame.deviceID).ready
  {
    BacklogOfValid(h, frame.deviceID);
    RecordedIs(StreamOf(h, frame.deviceID), frame);
    hide Recorded, TotalBytes, Valid, BacklogValid;
  }

  lemma PublishedReady(h: Hub, frame: VideoFrame, id: nat)
    requires Valid(h)
    ensures Ready(Publish(h, frame), frame.deviceID, id) <==> Wanted(h, frame, id) && |QueueOf(h.channels, id)| < 4
  {
    WantedIsReady(h, frame, id);
    PublishReady(h, frame, frame.deviceID, id);
    hide Recorded, Publish, Wanted, Valid, Ready, Subscribed, StreamOf, QueueOf;
  }

  lemma PublishedNext(h: Hub, frame: VideoFrame, id: nat)
    requires Valid(h) && id in h.channels && id in h.snapshots
    ensures NextFor(Publish(h, frame), id) ==
            (if !Wanted(h, frame, id) then NextFor(h, id)
             else if |h.channels[id].queue| < 4 then NextFor(h, id) + [frame]
             else h.snapshots[id] + [Marker(frame.deviceID)])
  {
    WantedIsReady(h, frame, id);
    PublishNext(h, frame, id);
    hide Recorded, Publish, Wanted, Valid, Subscribed, StreamOf, Marker;
    var q := h.channels[id].queue;
    assert h.snapshots[id] + (q + [frame]) == h.snapshots[id] + q + [frame];
  }

  /**
   Every subscriber after a publish: who wants the frame and has room is ready and gets exactly it; who has no
   room finds a marker in place of its queue and waits; nobody else of the device is ready, and nobody else gets
   anything.
   */
  lemma PublishedTo(h: Hub, frame: VideoFrame, id: nat)
    requires Valid(h) && id in h.channels && id in h.snapshots
    ensures var h', room := Publish(h, frame), |h.channels[id].queue| < 4;
            && (Ready(h', frame.deviceID, id) <==> Wanted(h, frame, id) && room)
            && NextFor(h', id) ==
                 (if !Wanted(h, frame, id) then NextFor(h, id)
                  else if room then NextFor(h, id) + [frame]
                  else h.snapshots[id] + [VideoFrame(frame.deviceID, 0, 0, 0, 0, false, true, [])])
  {
    PublishedReady(h, frame, id);
    PublishedNext(h, frame, id);
    hide Publish, Wanted, Valid, NextFor, Ready;
  }

  // ----- over runs

  /** The frames published since the last key frame, with it; nothing before the first one. */
  function LastGroup(published: seq<VideoFrame>): seq<VideoFrame> {
    if published == [] then []
    else
      var last := published[|published| - 1];
      if last.keyFrame then [last]
      else
        var group := LastGroup(published[..|published| - 1]);
        if group == [] then [] else group + [last]
  }

  /** No discontinuity and no removal of the device came since its last key frame. */
  predicate Intact(ops: seq<Op>, deviceID: string) {
    if ops == [] then true
    else
      match ops[|ops| - 1]
      case OpPublish(frame) => (frame.deviceID == deviceID && frame.keyFrame) || Intact(ops[..|ops| - 1], deviceID)
      case OpDiscontinue(d) => d != deviceID && Intact(ops[..|ops| - 1], deviceID)
      case OpRemove(d) => d != deviceID && Intact(ops[..|ops| - 1], deviceID)
      case _ => Intact(ops[..|ops| - 1], deviceID)
  }

  /** What the backlog is when `group` is what was published since the last key frame. */
  function Kept(intact: bool, group: seq<VideoFrame>): seq<VideoFrame> {
    if intact && TotalBytes(group) <= CAP then group else []
  }

  lemma {:induction false} RunSnoc(w: World, ops: seq<Op>, op: Op)
    ensures Run(w, ops + [op]) == Step(Run(w, ops), op)
    decreases |ops|
  {
    hide Step;
    if ops == [] {
      assert [] + [op] == [op] && [op][1..] == [];
      assert Run(Step(w, op), []) == Step(w, op);
    } else {
      assert (ops + [op])[0] == ops[0] && (ops + [op])[1..] == ops[1..] + [op];
      RunSnoc(Step(w, ops[0]), ops[1..], op);
    }
  }

  lemma GroupSnoc(published: seq<VideoFrame>, frame: VideoFrame)
    ensures LastGroup(published + [frame]) ==
            if frame.keyFrame then [frame]
            else if LastGroup(published) == [] then []
            else LastGroup(published) + [frame]
  {
    assert (published + [frame])[..|published|] == published;
  }

  lemma KeptGrows(intact: bool, group: seq<VideoFrame>, frame: VideoFrame)
    ensures var before := if frame.keyFrame then [] else Kept(intact, group);
            var fits := (frame.keyFrame || Kept(intact, group) != []) && TotalBytes(before + [frame]) <= CAP;
            Kept(frame.keyFrame || intact,
                 if frame.keyFrame then [frame] else if group == [] then [] else group + [frame]) ==
            if fits then before + [frame] else []
  {
    TotalBytesSnoc(group, frame);
    assert [] + [frame] == [frame];
  }

  lemma QuietBacklog(w: World, op: Op, d: string)
    requires !op.OpPublish?
    ensures StreamOf(Step(w, op).hub, d).backlog ==
            if op == OpDiscontinue(d) || op == OpRemove(d) then [] else StreamOf(w.hub, d).backlog
    ensures PublishedFor(Step(w, op), d) == PublishedFor(w, d)
  {
    hide Unsubscribe, Discontinue, Remove, Subscribe, StreamOf;
    match op {
      case OpUnsubscribe(e, k) => OtherBacklogs(w.hub, e, d, k, false);
      case OpDiscontinue(e) => OtherBacklogs(w.hub, e, d, 0, false);
      case OpRemove(e) => OtherBacklogs(w.hub, e, d, 0, false);
      case OpSubscribe(e, skip) => OtherBacklogs(w.hub, e, d, 0, skip);
      case OpReceive(k) => SameStreamsBehind(w.hub, Receive(w.hub, k), d);
    }
  }

  lemma SameStreamsBehind(h: Hub, h': Hub, d: string)
    requires h'.streams == h.streams
    ensures StreamOf(h', d) == StreamOf(h, d)
  {
  }

  /**
   After any run the backlog of a device is exactly the frames published since its last key frame if these are
   within the cap and neither a discontinuity nor a removal came since, and otherwise empty.
   */
  lemma {:induction false} BacklogIsLastGroup(ops: seq<Op>, d: string)
    ensures var w := Run(START, ops);
            StreamOf(w.hub, d).backlog == Kept(Intact(ops, d), LastGroup(PublishedFor(w, d)))
    decreases |ops|
  {
    if ops == [] {
      assert TotalBytes([]) == 0;
    } else {
      var before, op := ops[..|ops| - 1], ops[|ops| - 1];
      assert ops == before + [op];
      BacklogIsLastGroup(before, d);
      RunSnoc(START, before, op);
      var w := Run(START, before);
      hide Run, StreamOf, Kept, LastGroup, Step;
      if op.OpPublish? {
        EveryRunValid(before);
        PublishStep(w, op.frame, d);
        PublishedBacklog(w.hub, op.frame);
        GroupSnoc(PublishedFor(w, d), op.frame);
        KeptGrows(Intact(before, d), LastGroup(PublishedFor(w, d)), op.frame);
      } else {
        QuietBacklog(w, op, d);
      }
    }
  }

  lemma PublishStep(w: World, frame: VideoFrame, d: string)
    ensures Step(w, OpPublish(frame)).hub == Publish(w.hub, frame)
    ensures PublishedFor(Step(w, OpPublish(frame)), d) ==
            if d == frame.deviceID then PublishedFor(w, d) + [frame] else PublishedFor(w, d)
  {
    hide Publish;
  }
}
