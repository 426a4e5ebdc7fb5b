/**
 The runs in which a publish is one step are among the runs in which it is taken apart: those in which
 no reader receives while a publish holds the lock.
 */
module HubUndisturbed {
  import opened Frames
  import opened HubRuns
  import opened HubState
  import opened HubDrains
  import opened HubDrainLaws
  import opened HubDrainRuns

  predicate NoTakes(actions: seq<Action>) {
    forall i :: 0 <= i < |actions| ==> !actions[i].Take?
  }

  lemma MoveAlone(f: Fine, a: Action)
    ensures Moves(f, [a]) == Move(f, a)
  {
    hide Move;
    assert [a][1..] == [];
    assert Moves(Move(f, a), []) == Move(f, a);
  }

  // ----- one subscriber

  /** The hub after the frame went to one subscriber. */
  function ServedOne(h: Hub, frame: VideoFrame, id: nat): Hub
    requires Subscribed(h, frame.deviceID, id) && id in h.channels
  {
    var d := frame.deviceID;
    var s := h.streams[d];
    var (c, ready) := Delivered(h.channels[id], s.ready[id], frame);
    h.(streams := h.streams[d := s.(ready := s.ready[id := ready])], channels := h.channels[id := c])
  }

  /** The world after a subscriber's queue became `queue` and its reader got `more`. */
  function Drained(w: World, id: nat, queue: seq<VideoFrame>, more: seq<VideoFrame>): World
    requires id in w.received
  {
    w.(hub := WithQueue(w.hub, id, queue), received := w.received[id := w.received[id] + more])
  }

  lemma DrainedNothing(w: World, id: nat)
    requires id in w.received && id in w.hub.channels
    ensures Drained(w, id, QueueOf(w.hub.channels, id), []) == w
  {
    assert w.received[id] + [] == w.received[id];
    assert w.received[id := w.received[id]] == w.received;
    assert WithQueue(w.hub, id, QueueOf(w.hub.channels, id)).channels == w.hub.channels;
  }

  lemma DrainedTwice(w: World, id: nat, queue: seq<VideoFrame>, more: seq<VideoFrame>, after: seq<VideoFrame>,
                     rest: seq<VideoFrame>)
    requires id in w.received && id in w.hub.channels
    ensures Drained(Drained(w, id, queue, more), id, after, rest) == Drained(w, id, after, more + rest)
  {
    assert w.received[id] + more + rest == w.received[id] + (more + rest);
  }

  lemma DrainedOnly(w: World, id: nat, queue: seq<VideoFrame>)
    requires id in w.received
    ensures Drained(w, id, queue, []) == w.(hub := WithQueue(w.hub, id, queue))
  {
    assert w.received[id] + [] == w.received[id];
    assert w.received[id := w.received[id]] == w.received;
  }

  /** A drain of `n` frames with a reader that is first wherever `readerFirst` says so. */
  function Draining(n: nat, readerFirst: seq<bool>, id: nat): seq<Action> {
    if n == 0 then []
    else if readerFirst == [] then [Pop] + Draining(n - 1, [], id)
    else [if readerFirst[0] then Take(id) else Pop] + Draining(n - 1, readerFirst[1..], id)
  }

  lemma {:induction false} DrainingAlone(n: nat, id: nat)
    ensures NoTakes(Draining(n, [], id))
  {
    if n > 0 {
      DrainingAlone(n - 1, id);
    }
  }

  /** Whoever is first, the queue is empty in the end, and the reader has what it was first for. */
  lemma {:induction false} DrainedWithReader(f: Fine, readerFirst: seq<bool>)
    requires f.phase.Draining? && f.phase.id in f.w.hub.channels && f.phase.id in f.w.received
    requires f.phase.id in f.w.hub.snapshots && (readerFirst != [] ==> f.w.hub.snapshots[f.phase.id] == [])
    ensures var queue := QueueOf(f.w.hub.channels, f.phase.id);
            var f' := Moves(f, Draining(|queue|, readerFirst, f.phase.id));
            && f'.w == Drained(f.w, f.phase.id, [], Taken(queue, readerFirst))
            && f'.phase.Draining? && f'.phase.(skipped := false) == f.phase.(skipped := false)
    decreases |QueueOf(f.w.hub.channels, f.phase.id)|
  {
    var id := f.phase.id;
    var queue := QueueOf(f.w.hub.channels, id);
    if queue == [] {
      DrainedNothing(f.w, id);
    } else {
      var first := Draining(|queue|, readerFirst, id)[0];
      var rest := if readerFirst == [] then [] else readerFirst[1..];
      var got := if first.Take? then [queue[0]] else [];
      DrainStep(f, first);
      DrainedHas(f.w, id, queue[1..], got);
      hide Move, Drained, QueueOf;
      DrainedWithReader(Move(f, first), rest);
      DrainedTwice(f.w, id, queue[1..], got, [], Taken(queue[1..], rest));
      assert Draining(|queue|, readerFirst, id)[1..] == Draining(|queue| - 1, rest, id);
      assert Taken(queue, readerFirst) == got + Taken(queue[1..], rest);
    }
  }

  lemma DrainedHas(w: World, id: nat, queue: seq<VideoFrame>, more: seq<VideoFrame>)
    requires id in w.received
    ensures var w' := Drained(w, id, queue, more);
            && id in w'.received && id in w'.hub.channels && w'.hub.snapshots == w.hub.snapshots
            && QueueOf(w'.hub.channels, id) == queue
  {
  }

  lemma DrainStep(f: Fine, a: Action)
    requires f.phase.Draining? && f.phase.id in f.w.hub.channels && f.phase.id in f.w.received
    requires f.phase.id in f.w.hub.snapshots && QueueOf(f.w.hub.channels, f.phase.id) != []
    requires a == Pop || (a == Take(f.phase.id) && f.w.hub.snapshots[f.phase.id] == [])
    ensures var queue, f' := QueueOf(f.w.hub.channels, f.phase.id), Move(f, a);
            && f'.w == Drained(f.w, f.phase.id, queue[1..], if a.Take? then [queue[0]] else [])
            && f'.phase.Draining? && f'.phase.(skipped := false) == f.phase.(skipped := false)
  {
    var queue := QueueOf(f.w.hub.channels, f.phase.id);
    if a.Take? {
      assert [] + queue == queue;
    } else {
      DrainedOnly(f.w, f.phase.id, queue[1..]);
    }
  }

  /** The hub while one subscriber's queue was full and is now empty, with the marker behind it. */
  lemma ServedFull(h: Hub, frame: VideoFrame, id: nat)
    requires Ready(h, frame.deviceID, id) && Full(h, id) && id in h.channels
    ensures NotReady(WithQueue(WithQueue(h, id, []), id, [Marker(frame.deviceID)]), frame.deviceID, id) ==
            ServedOne(h, frame, id)
  {
    var h1 := WithQueue(h, id, [Marker(frame.deviceID)]);
    assert WithQueue(WithQueue(h, id, []), id, [Marker(frame.deviceID)]) == h1;
  }

  lemma ServedNotReady(h: Hub, frame: VideoFrame, id: nat)
    requires Subscribed(h, frame.deviceID, id) && !Ready(h, frame.deviceID, id) && id in h.channels
    ensures ServedOne(h, frame, id) == h
  {
    var d := frame.deviceID;
    var s := h.streams[d];
    assert s.ready[id := false] == s.ready && s.(ready := s.ready) == s && h.streams[d := s] == h.streams;
    assert h.channels[id := h.channels[id]] == h.channels;
  }

  lemma ServedRoom(h: Hub, frame: VideoFrame, id: nat)
    requires Ready(h, frame.deviceID, id) && !Full(h, id) && id in h.channels
    ensures ServedOne(h, frame, id) == WithQueue(h, id, QueueOf(h.channels, id) + [frame])
  {
    var d := frame.deviceID;
    var s := h.streams[d];
    assert s.ready[id := true] == s.ready && s.(ready := s.ready) == s && h.streams[d := s] == h.streams;
  }

  lemma ServesFull(f: Fine, id: nat) returns (actions: seq<Action>)
    requires Enabled(f, Offer(id)) && id in f.w.hub.channels && id in f.w.hub.snapshots && id in f.w.received
    requires Ready(f.w.hub, f.phase.frame.deviceID, id) && Full(f.w.hub, id)
    ensures NoTakes(actions)
    ensures Moves(f, actions).w == f.w.(hub := ServedOne(f.w.hub, f.phase.frame, id))
    ensures Moves(f, actions).phase == Offering(f.phase.frame, f.phase.todo - {id})
  {
    hide WithQueue, NotReady, ServedOne, Delivered;
    var f1 := Move(f, Offer(id));
    var pops := Draining(|QueueOf(f1.w.hub.channels, id)|, [], id);
    DrainingAlone(|QueueOf(f1.w.hub.channels, id)|, id);
    DrainedWithReader(f1, []);
    var f2 := Moves(f1, pops);
    DrainedOnly(f1.w, id, []);
    ServedFull(f.w.hub, f.phase.frame, id);
    OtherQueue(f.w.hub, id, [], id);
    assert Move(f2, EndDrain) == EndsDrain(f2);
    actions := [Offer(id)] + (pops + [EndDrain]);
    hide Move, EndsDrain;
    MoveAlone(f, Offer(id));
    MoveAlone(f2, EndDrain);
    MovesAppend(f1, pops, [EndDrain]);
    MovesAppend(f, [Offer(id)], pops + [EndDrain]);
  }

  lemma ServesOne(f: Fine, id: nat) returns (actions: seq<Action>)
    requires Enabled(f, Offer(id)) && id in f.w.hub.channels && id in f.w.hub.snapshots && id in f.w.received
    requires Subscribed(f.w.hub, f.phase.frame.deviceID, id)
    ensures NoTakes(actions)
    ensures Moves(f, actions).w == f.w.(hub := ServedOne(f.w.hub, f.phase.frame, id))
    ensures Moves(f, actions).phase == Offering(f.phase.frame, f.phase.todo - {id})
  {
    hide WithQueue, ServedOne, Full, Ready;
    if !Ready(f.w.hub, f.phase.frame.deviceID, id) {
      ServedNotReady(f.w.hub, f.phase.frame, id);
      MoveAlone(f, Offer(id));
      actions := [Offer(id)];
    } else if Full(f.w.hub, id) {
      actions := ServesFull(f, id);
    } else {
      ServedRoom(f.w.hub, f.phase.frame, id);
      MoveAlone(f, Offer(id));
      actions := [Offer(id)];
    }
  }

  // ----- all subscribers

  /** The hub after the frame went to all subscribers in `todo`. */
  function ServedAll(h: Hub, frame: VideoFrame, todo: set<nat>): Hub
    requires frame.deviceID in h.streams
  {
    var d := frame.deviceID;
    var s := h.streams[d];
    h.(streams := h.streams[d := s.(ready := OfferedReadyTo(s.ready, h.channels, frame, todo))],
       channels := OfferedChannelsTo(s.ready, h.channels, frame, todo))
  }

  lemma ServedNone(h: Hub, frame: VideoFrame)
    requires frame.deviceID in h.streams
    ensures ServedAll(h, frame, {}) == h
  {
    var d := frame.deviceID;
    var s := h.streams[d];
    assert OfferedReadyTo(s.ready, h.channels, frame, {}) == s.ready;
    assert s.(ready := s.ready) == s && h.streams[d := s] == h.streams;
    assert OfferedChannelsTo(s.ready, h.channels, frame, {}) == h.channels;
  }

  lemma ServedNext(h: Hub, frame: VideoFrame, todo: set<nat>, id: nat)
    requires Subscribed(h, frame.deviceID, id) && id in h.channels && id in todo
    ensures ServedAll(ServedOne(h, frame, id), frame, todo - {id}) == ServedAll(h, frame, todo)
  {
    hide Delivered;
    var d := frame.deviceID;
    var s, h1 := h.streams[d], ServedOne(h, frame, id);
    var s1 := h1.streams[d];
    DeliveredWhateverOpen(h.channels[id], s.ready[id], frame);
    assert OfferedReadyTo(s1.ready, h1.channels, frame, todo - {id}) ==
           OfferedReadyTo(s.ready, h.channels, frame, todo);
    assert OfferedChannelsTo(s1.ready, h1.channels, frame, todo - {id}) ==
           OfferedChannelsTo(s.ready, h.channels, frame, todo);
  }

  lemma ServedEverybody(h: Hub, frame: VideoFrame)
    ensures ServedAll(Begun(h, frame), frame, StreamOf(h, frame.deviceID).ready.Keys) == Publish(h, frame)
  {
    hide Delivered, Recorded;
    var s, todo := Recorded(StreamOf(h, frame.deviceID), frame), StreamOf(h, frame.deviceID).ready.Keys;
    assert OfferedReadyTo(s.ready, h.channels, frame, todo) == OfferedReady(s.ready, h.channels, frame);
    assert OfferedChannelsTo(s.ready, h.channels, frame, todo) == OfferedChannels(s.ready, h.channels, frame);
  }

  lemma ServedOneSubscribed(h: Hub, frame: VideoFrame, id: nat)
    requires Subscribed(h, frame.deviceID, id) && id in h.channels
    ensures frame.deviceID in ServedOne(h, frame, id).streams
  {
    hide Delivered;
  }

  lemma {:induction false} ServesAll(f: Fine) returns (actions: seq<Action>)
    requires FineInv(f) && f.phase.Offering? && f.phase.frame.deviceID in f.w.hub.streams
    ensures NoTakes(actions)
    ensures Moves(f, actions).w == f.w.(hub := ServedAll(f.w.hub, f.phase.frame, f.phase.todo))
    ensures Moves(f, actions).phase == Offering(f.phase.frame, {})
    decreases |f.phase.todo|
  {
    hide FineInv, HubOk, ServedOne, ServedAll, Move, Whole, Undisturbed;
    var h, frame, todo := f.w.hub, f.phase.frame, f.phase.todo;
    if todo == {} {
      ServedNone(h, frame);
      actions := [];
    } else {
      var id :| id in todo;
      InvParts(f);
      SubscribedHasChannel(f, frame.deviceID, id);
      var first := ServesOne(f, id);
      var f1 := Moves(f, first);
      RunKeepsFineInv(f, first, id);
      ServedOneSubscribed(h, frame, id);
      var rest := ServesAll(f1);
      ServedNext(h, frame, todo, id);
      MovesAppend(f, first, rest);
      actions := first + rest;
    }
  }

  /** A publish nobody interferes with ends where the publish in one step does. */
  lemma PublishesWhole(f: Fine, frame: VideoFrame) returns (actions: seq<Action>)
    requires FineInv(f) && f.phase.Idle?
    ensures NoTakes(actions)
    ensures Moves(f, actions).w == Step(f.w, OpPublish(frame)) && Moves(f, actions).phase.Idle?
  {
    hide FineInv, ServedAll, Begun, Publish, OneOk, Whole;
    var f1 := Move(f, Begin(frame));
    BeginKeepsInv(f, frame);
    BegunStream(f.w.hub, frame);
    var serves := ServesAll(f1);
    var f2 := Moves(f1, serves);
    ServedEverybody(f.w.hub, frame);
    assert Move(f2, EndPublish) == f2.(phase := Idle);
    actions := [Begin(frame)] + (serves + [EndPublish]);
    assert f1.w == f.w.(hub := Begun(f.w.hub, frame), published := f1.w.published);
    hide Move;
    MoveAlone(f, Begin(frame));
    MoveAlone(f2, EndPublish);
    MovesAppend(f1, serves, [EndPublish]);
    MovesAppend(f, [Begin(frame)], serves + [EndPublish]);
  }

  lemma BegunStream(h: Hub, frame: VideoFrame)
    ensures frame.deviceID in Begun(h, frame).streams
  {
    hide Recorded;
  }

  // ----- whole runs

  lemma {:induction false} NoTakesUndisturbed(f: Fine, actions: seq<Action>, id: nat)
    requires NoTakes(actions)
    ensures Undisturbed(f, actions, id)
    decreases |actions|
  {
    hide Move;
    if actions != [] {
      NoTakesUndisturbed(Move(f, actions[0]), actions[1..], id);
    }
  }

  lemma {:induction false} UndisturbedAppend(f: Fine, a: seq<Action>, b: seq<Action>, id: nat)
    ensures Undisturbed(f, a + b, id) <==> Undisturbed(f, a, id) && Undisturbed(Moves(f, a), b, id)
    decreases |a|
  {
    hide Move, BadTake;
    if a == [] {
      assert a + b == b;
    } else {
      assert (a + b)[0] == a[0] && (a + b)[1..] == a[1..] + b;
      UndisturbedAppend(Move(f, a[0]), a[1..], b, id);
    }
  }

  lemma QuietMove(f: Fine, a: Action)
    requires f.phase.Idle? && (a.Take? || (a.Locked? && WaitsForLock(a.op)))
    ensures Moves(f, [a]).w == Step(f.w, if a.Take? then OpReceive(a.reader) else a.op)
    ensures Moves(f, [a]).phase.Idle? && forall id :: Undisturbed(f, [a], id)
  {
    hide Step, LockedPlaces;
    MoveAlone(f, a);
    forall id
      ensures Undisturbed(f, [a], id)
    {
      assert [a][1..] == [] && Undisturbed(Move(f, a), [], id);
    }
  }

  lemma StepInWhole(f: Fine, op: Op) returns (actions: seq<Action>)
    requires FineInv(f) && f.phase.Idle?
    ensures Moves(f, actions).w == Step(f.w, op) && Moves(f, actions).phase.Idle?
    ensures forall id :: Undisturbed(f, actions, id)
  {
    hide FineInv, Step, Undisturbed, Moves;
    if op.OpPublish? {
      actions := PublishesWhole(f, op.frame);
      forall id
        ensures Undisturbed(f, actions, id)
      {
        NoTakesUndisturbed(f, actions, id);
      }
    } else if op.OpReceive? {
      actions := [Take(op.reader)];
      QuietMove(f, Take(op.reader));
    } else {
      actions := [Locked(op)];
      QuietMove(f, Locked(op));
    }
  }

  /** A run whose publishes are single steps is an undisturbed run of those taken apart. */
  lemma {:induction false} RunInWhole(f: Fine, ops: seq<Op>) returns (actions: seq<Action>)
    requires FineInv(f) && f.phase.Idle?
    ensures Moves(f, actions).w == Run(f.w, ops) && Moves(f, actions).phase.Idle?
    ensures forall id :: Undisturbed(f, actions, id)
    decreases |ops|
  {
    hide FineInv, Step, Move, BadTake, Whole;
    if ops == [] {
      actions := [];
    } else {
      var first := StepInWhole(f, ops[0]);
      var f1 := Moves(f, first);
      RunKeepsFineInv(f, first, 0);
      var rest := RunInWhole(f1, ops[1..]);
      hide Undisturbed;
      MovesAppend(f, first, rest);
      actions := first + rest;
      forall id
        ensures Undisturbed(f, actions, id)
      {
        UndisturbedAppend(f, first, rest, id);
      }
    }
  }

  /** In a run in which no receive falls into a publish, whatever a subscriber received is decodable. */
  lemma EveryRunDecodable(ops: seq<Op>, id: nat)
    requires id in Run(START, ops).received
    ensures var w := Run(START, ops);
            Decodable(PublishedFor(w, DeviceOf(w, id)), w.received[id])
  {
    hide Moves, Run, Undisturbed, Follows, FineInv, Whole, ReceivedPlaces;
    FreshInv(id);
    var actions := RunInWhole(FRESH, ops);
    DecodableIffUndisturbed(actions, id);
  }

  /** In every such run the hub's own invariant holds, and whoever is subscribed has a channel. */
  lemma EveryRunValid(ops: seq<Op>)
    ensures Valid(Run(START, ops).hub) && KeysOk(Run(START, ops))
  {
    hide Moves, Run, Undisturbed, Valid, FineInv, Whole;
    FreshInv(0);
    var actions := RunInWhole(FRESH, ops);
    RunKeepsFineInv(FRESH, actions, 0);
    InvParts(Moves(FRESH, actions));
  }

  /** A key frame within the cap reaches every subscriber with room in its queue and makes it ready. */
  lemma KeyFrameResumes(ops: seq<Op>, frame: VideoFrame, id: nat)
    requires var h := Run(START, ops).hub; Subscribed(h, frame.deviceID, id) && !Full(h, id)
    requires frame.keyFrame && |frame.data| <= MAX_BACKLOG_BYTES
    ensures var h := Run(START, ops).hub;
            && Ready(Publish(h, frame), frame.deviceID, id)
            && NextFor(Publish(h, frame), id) == NextFor(h, id) + [frame]
  {
    hide Run, Publish, Recorded, Full, BacklogValid, ChannelValid;
    EveryRunValid(ops);
    KeyFrameServes(Run(START, ops).hub, frame, id);
  }

  lemma KeyFrameServes(h: Hub, frame: VideoFrame, id: nat)
    requires Subscribed(h, frame.deviceID, id) && !Full(h, id) && id in h.channels && id in h.snapshots
    requires frame.keyFrame && |frame.data| <= MAX_BACKLOG_BYTES
    ensures Ready(Publish(h, frame), frame.deviceID, id)
    ensures NextFor(Publish(h, frame), id) == NextFor(h, id) + [frame]
  {
    hide Publish, Recorded;
    PublishNext(h, frame, id);
    PublishReady(h, frame, frame.deviceID, id);
    RecordedKeyFrame(StreamOf(h, frame.deviceID), frame, id);
    assert h.snapshots[id] + (h.channels[id].queue + [frame]) == h.snapshots[id] + h.channels[id].queue + [frame];
  }

  lemma RecordedKeyFrame(s: Stream, frame: VideoFrame, id: nat)
    requires id in s.ready && frame.keyFrame && |frame.data| <= MAX_BACKLOG_BYTES
    ensures id in Recorded(s, frame).ready && Recorded(s, frame).ready[id]
  {
  }
}
