/**
 The hub object. Its operations change the streams and the subscribers' channels in place; each is
 proved to have exactly the effect `HubState` gives it. Sending on or closing a closed channel would
 panic in Go, so both demand an open one.
 */
module VideoHub {
  import opened Frames
  import opened HubState
  import opened Options

  class VideoHub {
    var streams: map<string, Stream>
    var channels: map<nat, Channel>
    var snapshots: map<nat, seq<VideoFrame>>
    var nextSubscriberID: nat

    ghost function State(): Hub
      reads this
    {
      Hub(streams, channels, snapshots, nextSubscriberID)
    }

    constructor ()
      ensures State() == NEW_HUB && Valid(State())
    {
      streams, channels, snapshots, nextSubscriberID := map[], map[], map[], 0;
    }

    // ----- channels

    /** A send that gives up when the buffer is full. */
    method TrySend(id: nat, frame: VideoFrame) returns (sent: bool)
      requires id in channels && channels[id].open
      modifies this`channels
      ensures sent == (|old(channels)[id].queue| < SUBSCRIBER_BUFFER)
      ensures channels == if sent then old(channels)[id := Channel(old(channels)[id].queue + [frame], true)]
                          else old(channels)
    {
      sent := |channels[id].queue| < SUBSCRIBER_BUFFER;
      if sent {
        channels := channels[id := Channel(channels[id].queue + [frame], true)];
      }
    }

    /** A send that would wait for room: the caller has made sure there is some. */
    method Send(id: nat, frame: VideoFrame)
      requires id in channels && channels[id].open && |channels[id].queue| < SUBSCRIBER_BUFFER
      modifies this`channels
      ensures channels == old(channels)[id := Channel(old(channels)[id].queue + [frame], true)]
    {
      var sent := TrySend(id, frame);
    }

    method Close(id: nat)
      requires id in channels && channels[id].open
      modifies this`channels
      ensures channels == old(channels)[id := Channel(old(channels)[id].queue, false)]
    {
      channels := channels[id := channels[id].(open := false)];
    }

    /**
     Take frames until none is left. The reader does not wait for the lock: before each removal it is
     first, and receives the frame, wherever `readerFirst` says so.
     */
    method Drain(id: nat, readerFirst: seq<bool>) returns (taken: seq<VideoFrame>)
      requires id in channels
      modifies this`channels
      ensures channels == old(channels)[id := Channel([], old(channels)[id].open)]
      ensures taken == Taken(old(channels)[id].queue, readerFirst)
    {
      taken := [];
      var turns := readerFirst;
      while channels[id].queue != []
        invariant id in channels && channels == old(channels)[id := Channel(channels[id].queue, old(channels)[id].open)]
        invariant taken + Taken(channels[id].queue, turns) == Taken(old(channels)[id].queue, readerFirst)
        decreases |channels[id].queue|
      {
        if turns != [] {
          if turns[0] {
            taken := taken + [channels[id].queue[0]];
          }
          turns := turns[1..];
        }
        channels := channels[id := channels[id].(queue := channels[id].queue[1..])];
      }
    }

    // ----- publishing

    /** Mark every subscriber of a stream as ready, or as waiting for a key frame. */
    method SetReady(deviceID: string, value: bool)
      requires deviceID in streams
      modifies this`streams
      ensures var s := old(streams)[deviceID];
              streams == old(streams)[deviceID := s.(ready := AllReady(s.ready, value))]
    {
      ghost var before := streams[deviceID];
      var todo := streams[deviceID].ready.Keys;
      while todo != {}
        invariant deviceID in streams && todo <= before.ready.Keys
        invariant streams == old(streams)[deviceID := before.(ready := streams[deviceID].ready)]
        invariant streams[deviceID].ready.Keys == before.ready.Keys
        invariant forall id :: id in before.ready && id !in todo ==> streams[deviceID].ready[id] == value
        decreases todo
      {
        var id :| id in todo;
        streams := streams[deviceID := streams[deviceID].(ready := streams[deviceID].ready[id := value])];
        todo := todo - {id};
      }
      assert streams[deviceID].ready == AllReady(before.ready, value);
    }

    /** The stream of a device, created when there is none. */
    method OpenStream(deviceID: string) returns (s: Stream)
      modifies this`streams
      ensures s == StreamOf(old(State()), deviceID) && streams == old(streams)[deviceID := s]
    {
      if deviceID !in streams {
        streams := streams[deviceID := NEW_STREAM];
      }
      s := streams[deviceID];
    }

    /** The key frame and backlog part of publishing. */
    method Record(frame: VideoFrame)
      modifies this`streams
      ensures streams == old(streams)[frame.deviceID := Recorded(StreamOf(old(State()), frame.deviceID), frame)]
    {
      var d := frame.deviceID;
      var created := OpenStream(d);
      if frame.keyFrame {
        streams := streams[d := Stream([], 0, true, streams[d].ready)];
        SetReady(d, true);
      }
      if streams[d].hasKeyFrame {
        var s := streams[d];
        streams := streams[d := s.(backlog := s.backlog + [frame], backlogBytes := s.backlogBytes + |frame.data|)];
        if streams[d].backlogBytes > MAX_BACKLOG_BYTES {
          streams := streams[d := Stream([], 0, false, streams[d].ready)];
          SetReady(d, false);
        }
      }
    }

    /** Offer the frame to one subscriber, whose reader may receive while its queue is emptied. */
    method Offer(id: nat, frame: VideoFrame, readerFirst: seq<bool>) returns (taken: seq<VideoFrame>)
      requires frame.deviceID in streams && id in streams[frame.deviceID].ready
      requires id in channels && channels[id].open
      modifies this`streams, this`channels
      ensures var s, result := old(streams)[frame.deviceID],
          Delivered(old(channels)[id], old(streams)[frame.deviceID].ready[id], frame);
              && channels == old(channels)[id := result.0]
              && streams == old(streams)[frame.deviceID := s.(ready := s.ready[id := result.1])]
      ensures taken == TakenFrom(old(channels)[id], old(streams)[frame.deviceID].ready[id], readerFirst)
    {
      hide Taken;
      var s := streams[frame.deviceID];
      assert s.(ready := s.ready[id := s.ready[id]]) == s && streams[frame.deviceID := s] == streams;
      taken := [];
      if !s.ready[id] {
        return;
      }
      var sent := TrySend(id, frame);
      if !sent {
        taken := Drain(id, readerFirst);
        streams := streams[frame.deviceID := s.(ready := s.ready[id := false])];
        Send(id, Marker(frame.deviceID));
        assert [] + [Marker(frame.deviceID)] == [Marker(frame.deviceID)];
        assert channels == old(channels)[id := Channel([Marker(frame.deviceID)], true)];
      }
    }

    /** Offer the frame to all subscribers of its stream. */
    method OfferAll(frame: VideoFrame, readers: map<nat, seq<bool>>) returns (taken: map<nat, seq<VideoFrame>>)
      requires frame.deviceID in streams
      requires forall id :: id in streams[frame.deviceID].ready ==> id in channels && channels[id].open
      modifies this`streams, this`channels
      ensures var s := old(streams)[frame.deviceID];
              && streams == old(streams)[frame.deviceID := s.(ready := OfferedReady(s.ready, old(channels), frame))]
              && channels == OfferedChannels(s.ready, old(channels), frame)
              && taken == TakenByAll(s.ready, old(channels), readers)
    {
      hide Delivered, TakenFrom, OfferedReady, OfferedChannels, TakenByAll, OfferedReadyTo, OfferedChannelsTo, TakenSo;
      var d := frame.deviceID;
      ghost var s, channels0, done := streams[d], channels, {};
      OfferedNone(s.ready, channels0, frame, readers);
      assert streams == streams[d := s.(ready := s.ready)];
      var todo := streams[d].ready.Keys;
      taken := map[];
      while todo != {}
        invariant todo !! done && todo + done == s.ready.Keys
        invariant streams == old(streams)[d := s.(ready := OfferedReadyTo(s.ready, channels0, frame, done))]
        invariant channels == OfferedChannelsTo(s.ready, channels0, frame, done)
        invariant taken == TakenSo(s.ready, channels0, readers, done)
        decreases todo
      {
        var id :| id in todo;
        OfferedNext(s.ready, channels0, frame, readers, done, id);
        var got := Offer(id, frame, TurnsOf(readers, id));
        taken := taken[id := got];
        todo, done := todo - {id}, done + {id};
      }
      assert done == s.ready.Keys;
      OfferedAllOf(s.ready, channels0, frame, readers);
    }

    /** The readers named in `readers` receive during the publish as that schedule says, and get `taken`. */
    method Publish(frame: VideoFrame, readers: map<nat, seq<bool>>) returns (taken: map<nat, seq<VideoFrame>>)
      requires Valid(State())
      modifies this
      ensures State() == HubState.Publish(old(State()), frame) && Valid(State())
      ensures var s := Recorded(StreamOf(old(State()), frame.deviceID), frame);
              taken == TakenByAll(s.ready, old(channels), readers)
    {
      hide Valid, Recorded, OfferedReady, OfferedChannels, TakenByAll;
      SubscribersOpen(State(), frame.deviceID);
      PublishValid(State(), frame);
      Record(frame);
      taken := OfferAll(frame, readers);
    }

    // ----- the other operations

    method Unsubscribe(deviceID: string, subscriberID: nat)
      requires Valid(State())
      modifies this
      ensures State() == HubState.Unsubscribe(old(State()), deviceID, subscriberID) && Valid(State())
    {
      UnsubscribeValid(State(), deviceID, subscriberID);
      SubscribersOpen(State(), deviceID);
      hide Valid;
      if deviceID !in streams {
        return;
      }
      if subscriberID in streams[deviceID].ready {
        Close(subscriberID);
        var s := streams[deviceID];
        streams := streams[deviceID := s.(ready := s.ready - {subscriberID})];
      }
    }

    /** Queue a marker for one subscriber, or cut it off when it has no room. */
    method MarkOne(deviceID: string, id: nat)
      requires deviceID in streams && id in streams[deviceID].ready && id in channels && channels[id].open
      modifies this`streams, this`channels
      ensures channels == old(channels)[id := Marked(old(channels)[id], Marker(deviceID))]
      ensures var s := old(streams)[deviceID];
              streams == old(streams)[deviceID := s.(ready :=
                           if |old(channels)[id].queue| < SUBSCRIBER_BUFFER then s.ready[id := false]
                           else s.ready - {id})]
    {
      var s := streams[deviceID];
      streams := streams[deviceID := s.(ready := s.ready[id := false])];
      var sent := TrySend(id, Marker(deviceID));
      if !sent {
        Close(id);
        streams := streams[deviceID := s.(ready := s.ready - {id})];
      }
    }

    /** Queue a marker for every subscriber of a stream. */
    method MarkAll(deviceID: string)
      requires deviceID in streams
      requires forall id :: id in streams[deviceID].ready ==> id in channels && channels[id].open
      modifies this`streams, this`channels
      ensures var s := old(streams)[deviceID];
              && streams == old(streams)[deviceID := s.(ready := MarkedReady(s.ready, old(channels)))]
              && channels == MarkedChannels(s.ready, old(channels), Marker(deviceID))
    {
      hide Marked, MarkedReady, MarkedChannels, ReadyMarkedSo, ChannelsMarkedSo;
      ghost var s, channels0, marker, done := streams[deviceID], channels, Marker(deviceID), {};
      MarkedNone(s.ready, channels0, marker);
      assert streams == streams[deviceID := s.(ready := s.ready)];
      var todo := streams[deviceID].ready.Keys;
      while todo != {}
        invariant todo !! done && todo + done == s.ready.Keys
        invariant streams == old(streams)[deviceID := s.(ready := ReadyMarkedSo(s.ready, channels0, done))]
        invariant channels == ChannelsMarkedSo(channels0, marker, done)
        decreases todo
      {
        var id :| id in todo;
        MarkedNext(s.ready, channels0, marker, done, id);
        MarkOne(deviceID, id);
        todo, done := todo - {id}, done + {id};
      }
      assert done == s.ready.Keys;
      MarkedAllOf(s.ready, channels0, marker);
    }

    method PublishDiscontinuity(deviceID: string)
      requires Valid(State())
      modifies this
      ensures State() == HubState.Discontinue(old(State()), deviceID) && Valid(State())
    {
      hide Valid, MarkedReady, MarkedChannels;
      DiscontinueValid(State(), deviceID);
      SubscribersOpen(State(), deviceID);
      if deviceID !in streams {
        return;
      }
      streams := streams[deviceID := Stream([], 0, false, streams[deviceID].ready)];
      MarkAll(deviceID);
    }

    method Remove(deviceID: string)
      requires Valid(State())
      modifies this
      ensures State() == HubState.Remove(old(State()), deviceID) && Valid(State())
    {
      hide Valid, ClosedChannels;
      RemoveValid(State(), deviceID);
      SubscribersOpen(State(), deviceID);
      if deviceID !in streams {
        return;
      }
      CloseAll(deviceID);
      streams := streams - {deviceID};
    }

    /** Close and forget every subscriber of a stream. */
    method CloseAll(deviceID: string)
      requires deviceID in streams
      requires forall id :: id in streams[deviceID].ready ==> id in channels && channels[id].open
      modifies this`streams, this`channels
      ensures deviceID in streams && streams == old(streams)[deviceID := streams[deviceID]]
      ensures channels == ClosedChannels(old(streams)[deviceID].ready, old(channels))
    {
      ghost var ready, channels0 := streams[deviceID].ready, channels;
      var todo := streams[deviceID].ready.Keys;
      while todo != {}
        invariant todo <= ready.Keys && channels.Keys == channels0.Keys
        invariant deviceID in streams && streams == old(streams)[deviceID := streams[deviceID]]
        invariant forall id :: id in channels0 && (id !in ready || id in todo) ==> channels[id] == channels0[id]
        invariant forall id :: id in ready && id !in todo ==> channels[id] == channels0[id].(open := false)
        decreases todo
      {
        var id :| id in todo;
        Close(id);
        var s := streams[deviceID];
        streams := streams[deviceID := s.(ready := s.ready - {id})];
        todo := todo - {id};
      }
      assert channels == ClosedChannels(ready, channels0);
    }

    method Subscribe(deviceID: string, freshKeyFrame: bool) returns (subscriberID: nat)
      requires Valid(State())
      modifies this
      ensures State() == HubState.Subscribe(old(State()), deviceID, freshKeyFrame) && Valid(State())
      ensures subscriberID == nextSubscriberID && subscriberID !in old(channels)
    {
      hide Valid, HubState.Subscribe;
      ghost var h := State();
      SubscribeValid(h, deviceID, freshKeyFrame);
      NextIDIsNew(h);
      var s := OpenStream(deviceID);
      var snapshot: seq<VideoFrame> := [];
      var ready := s.hasKeyFrame;
      if freshKeyFrame {
        ready := false;
      } else {
        snapshot := s.backlog;
      }
      nextSubscriberID := nextSubscriberID + 1;
      subscriberID := nextSubscriberID;
      channels := channels[subscriberID := Channel([], true)];
      snapshots := snapshots[subscriberID := snapshot];
      streams := streams[deviceID := s.(ready := s.ready[subscriberID := ready])];
      assert streams == h.streams[deviceID := s.(ready := s.ready[subscriberID := ready])];
      SubscribeGives(h, deviceID, freshKeyFrame);
    }

    /** One receive of the subscriber's reader: its snapshot first, then its channel. */
    method Receive(subscriberID: nat) returns (frame: Option<VideoFrame>)
      requires Valid(State())
      modifies this
      ensures State() == HubState.Receive(old(State()), subscriberID) && Valid(State())
      ensures var next := NextFor(old(State()), subscriberID);
              frame == if next == [] then None else Some(next[0])
    {
      ReceiveValid(State(), subscriberID);
      hide Valid;
      if subscriberID !in channels || subscriberID !in snapshots {
        return None;
      }
      var snapshot, queue := snapshots[subscriberID], channels[subscriberID].queue;
      if snapshot != [] {
        frame := Some(snapshot[0]);
        snapshots := snapshots[subscriberID := snapshot[1..]];
      } else if queue != [] {
        frame := Some(queue[0]);
        channels := channels[subscriberID := channels[subscriberID].(queue := queue[1..])];
      } else {
        frame := None;
      }
    }
  }

  lemma SubscribeGives(h: Hub, deviceID: string, freshKeyFrame: bool)
    ensures var s, id := StreamOf(h, deviceID), h.nextSubscriberID + 1;
            HubState.Subscribe(h, deviceID, freshKeyFrame) ==
            Hub(h.streams[deviceID := s.(ready := s.ready[id := s.hasKeyFrame && !freshKeyFrame])],
                h.channels[id := Channel([], true)],
                h.snapshots[id := if freshKeyFrame then [] else s.backlog],
                id)
  {
  }

  // ----- half-way through offering a frame to all subscribers

  ghost function TakenSo(ready: map<nat, bool>, channels: map<nat, Channel>, readers: map<nat, seq<bool>>,
                         done: set<nat>): map<nat, seq<VideoFrame>>
  {
    map id | id in ready && id in done ::
      if id in channels then TakenFrom(channels[id], ready[id], TurnsOf(readers, id)) else []
  }

  lemma OfferedNone(ready: map<nat, bool>, channels: map<nat, Channel>, frame: VideoFrame,
                    readers: map<nat, seq<bool>>)
    ensures OfferedReadyTo(ready, channels, frame, {}) == ready && TakenSo(ready, channels, readers, {}) == map[]
    ensures OfferedChannelsTo(ready, channels, frame, {}) == channels
  {
    hide Delivered, TakenFrom;
  }

  lemma OfferedNext(ready: map<nat, bool>, channels: map<nat, Channel>, frame: VideoFrame,
                    readers: map<nat, seq<bool>>, done: set<nat>, id: nat)
    requires id in ready && id !in done && id in channels && channels[id].open
    ensures var r, c := OfferedReadyTo(ready, channels, frame, done), OfferedChannelsTo(ready, channels, frame, done);
            && id in r && id in c && c[id] == channels[id] && r[id] == ready[id]
            && OfferedReadyTo(ready, channels, frame, done + {id}) == r[id := Delivered(c[id], r[id], frame).1]
            && OfferedChannelsTo(ready, channels, frame, done + {id}) == c[id := Delivered(c[id], r[id], frame).0]
    ensures TakenSo(ready, channels, readers, done + {id}) ==
            TakenSo(ready, channels, readers, done)[id := TakenFrom(channels[id], ready[id], TurnsOf(readers, id))]
  {
    hide Delivered, TakenFrom, TurnsOf;
    DeliveredWhateverOpen(channels[id], ready[id], frame);
  }

  lemma OfferedAllOf(ready: map<nat, bool>, channels: map<nat, Channel>, frame: VideoFrame,
                     readers: map<nat, seq<bool>>)
    ensures OfferedReadyTo(ready, channels, frame, ready.Keys) == OfferedReady(ready, channels, frame)
    ensures OfferedChannelsTo(ready, channels, frame, ready.Keys) == OfferedChannels(ready, channels, frame)
    ensures TakenSo(ready, channels, readers, ready.Keys) == TakenByAll(ready, channels, readers)
  {
    hide Delivered, TakenFrom;
  }

  // ----- half-way through marking all subscribers

  ghost function ReadyMarkedSo(ready: map<nat, bool>, channels: map<nat, Channel>, done: set<nat>): map<nat, bool> {
    map id | id in ready && (id in done ==> |QueueOf(channels, id)| < SUBSCRIBER_BUFFER) :: id !in done && ready[id]
  }

  ghost function ChannelsMarkedSo(channels: map<nat, Channel>, marker: VideoFrame, done: set<nat>): map<nat, Channel> {
    map id | id in channels :: if id in done then Marked(channels[id], marker) else channels[id]
  }

  lemma MarkedNone(ready: map<nat, bool>, channels: map<nat, Channel>, marker: VideoFrame)
    ensures ReadyMarkedSo(ready, channels, {}) == ready && ChannelsMarkedSo(channels, marker, {}) == channels
  {
  }

  lemma MarkedNext(ready: map<nat, bool>, channels: map<nat, Channel>, marker: VideoFrame, done: set<nat>, id: nat)
    requires id in ready && id !in done && id in channels
    ensures var r, c := ReadyMarkedSo(ready, channels, done), ChannelsMarkedSo(channels, marker, done);
            && id in r && id in c && c[id] == channels[id]
            && ReadyMarkedSo(ready, channels, done + {id}) ==
                 (if |channels[id].queue| < SUBSCRIBER_BUFFER then r[id := false] else r - {id})
            && ChannelsMarkedSo(channels, marker, done + {id}) == c[id := Marked(channels[id], marker)]
  {
    hide Marked;
  }

  lemma MarkedAllOf(ready: map<nat, bool>, channels: map<nat, Channel>, marker: VideoFrame)
    ensures ReadyMarkedSo(ready, channels, ready.Keys) == MarkedReady(ready, channels)
    ensures ChannelsMarkedSo(channels, marker, ready.Keys) == MarkedChannels(ready, channels, marker)
  {
    hide Marked;
  }

  /** The channel of every current subscriber is open. */
  lemma SubscribersOpen(h: Hub, deviceID: string)
    requires Valid(h)
    ensures forall id :: id in StreamOf(h, deviceID).ready ==> id in h.channels && h.channels[id].open
  {
    forall id | id in StreamOf(h, deviceID).ready
      ensures id in h.channels && h.channels[id].open
    {
      assert Subscribed(h, deviceID, id);
      assert ChannelValid(h, id);
    }
  }
}
