/**
 The state of the video hub as a value and the effect of each of its operations. A subscriber's
 channel is looked up by its ID; it outlives the subscription, because a reader may still drain it.
 */
module HubState {
  import opened Frames

  const MAX_BACKLOG_BYTES: nat := 0x800_0000
  const SUBSCRIBER_BUFFER: nat := 4

  datatype Channel = Channel(queue: seq<VideoFrame>, open: bool)

  /** `ready` has one entry for each current subscriber. */
  datatype Stream = Stream(backlog: seq<VideoFrame>, backlogBytes: nat, hasKeyFrame: bool, ready: map<nat, bool>)

  /** `snapshots` holds what each reader still has to hand over before it turns to its channel. */
  datatype Hub = Hub(
    streams: map<string, Stream>,
    channels: map<nat, Channel>,
    snapshots: map<nat, seq<VideoFrame>>,
    nextSubscriberID: nat)

  const NEW_STREAM := Stream([], 0, false, map[])
  const NEW_HUB := Hub(map[], map[], map[], 0)

  function StreamOf(h: Hub, deviceID: string): Stream {
    if deviceID in h.streams then h.streams[deviceID] else NEW_STREAM
  }

  function ChannelOf(h: Hub, id: nat): Channel {
    if id in h.channels then h.channels[id] else Channel([], false)
  }

  function TotalBytes(frames: seq<VideoFrame>): nat {
    if frames == [] then 0 else TotalBytes(frames[..|frames| - 1]) + |frames[|frames| - 1].data|
  }

  // ----- the invariant

  /** The backlog is empty, or it is a key frame and the frames published since, within the cap. */
  ghost predicate BacklogValid(s: Stream) {
    && s.backlogBytes == TotalBytes(s.backlog) <= MAX_BACKLOG_BYTES
    && (s.hasKeyFrame <==> s.backlog != [])
    && (forall i :: 0 <= i < |s.backlog| ==> (s.backlog[i].keyFrame <==> i == 0))
    && (!s.hasKeyFrame ==> forall id :: id in s.ready ==> !s.ready[id])
  }

  ghost predicate ChannelValid(h: Hub, id: nat)
    requires id in h.channels
  {
    && |h.channels[id].queue| <= SUBSCRIBER_BUFFER
    && 0 < id <= h.nextSubscriberID
    && (h.channels[id].open <==> exists d :: Subscribed(h, d, id))
  }

  predicate Subscribed(h: Hub, deviceID: string, id: nat) {
    deviceID in h.streams && id in h.streams[deviceID].ready
  }

  ghost predicate Valid(h: Hub) {
    && (forall d :: d in h.streams ==> BacklogValid(h.streams[d]))
    && h.channels.Keys == h.snapshots.Keys
    && (forall d, id :: Subscribed(h, d, id) ==> id in h.channels)
    && (forall d, e, id :: Subscribed(h, d, id) && Subscribed(h, e, id) ==> d == e)
    && (forall id :: id in h.channels ==> ChannelValid(h, id))
  }

  // ----- effects

  function AllReady(ready: map<nat, bool>, value: bool): (r: map<nat, bool>)
    ensures r.Keys == ready.Keys
  {
    map id | id in ready :: value
  }

  /** The backlog side of publishing a frame. */
  function Recorded(s: Stream, frame: VideoFrame): (r: Stream)
    ensures r.ready.Keys == s.ready.Keys
  {
    var restarted := if frame.keyFrame then Stream([], 0, true, AllReady(s.ready, true)) else s;
    if !restarted.hasKeyFrame then restarted
    else
      var bytes := restarted.backlogBytes + |frame.data|;
      if bytes > MAX_BACKLOG_BYTES then Stream([], 0, false, AllReady(s.ready, false))
      else restarted.(backlog := restarted.backlog + [frame], backlogBytes := bytes)
  }

  /** What a reader gets of a queue being emptied, when at each removal it is the first or the drain is. */
  function Taken(queue: seq<VideoFrame>, readerFirst: seq<bool>): seq<VideoFrame> {
    if queue == [] || readerFirst == [] then []
    else (if readerFirst[0] then [queue[0]] else []) + Taken(queue[1..], readerFirst[1..])
  }

  /** What the reader of a channel gets while a frame is offered to it. */
  function TakenFrom(c: Channel, ready: bool, readerFirst: seq<bool>): seq<VideoFrame> {
    if ready && |c.queue| >= SUBSCRIBER_BUFFER then Taken(c.queue, readerFirst) else []
  }

  /** A subscriber that is ready gets the frame; one whose queue is full gets a marker instead of it. */
  function Delivered(c: Channel, ready: bool, frame: VideoFrame): (r: (Channel, bool)) {
    if !ready then (c, false)
    else if |c.queue| < SUBSCRIBER_BUFFER then (c.(queue := c.queue + [frame]), true)
    else (c.(queue := [Marker(frame.deviceID)]), false)
  }

  lemma DeliveredWhateverOpen(c: Channel, ready: bool, frame: VideoFrame)
    ensures Delivered(Channel(c.queue, true), ready, frame).1 == Delivered(c, ready, frame).1
  {
  }

  function QueueOf(channels: map<nat, Channel>, id: nat): seq<VideoFrame> {
    if id in channels then channels[id].queue else []
  }

  /** The frame offered to every subscriber in `ready`: who is ready afterwards, and all channels. */
  function OfferedReady(ready: map<nat, bool>, channels: map<nat, Channel>, frame: VideoFrame): map<nat, bool> {
    map id | id in ready :: Delivered(Channel(QueueOf(channels, id), true), ready[id], frame).1
  }

  function OfferedChannels(ready: map<nat, bool>, channels: map<nat, Channel>, frame: VideoFrame): map<nat, Channel> {
    map id | id in channels :: if id in ready then Delivered(channels[id], ready[id], frame).0 else channels[id]
  }

  /** The same while the frame went to the subscribers in `done` alone. */
  function OfferedReadyTo(ready: map<nat, bool>, channels: map<nat, Channel>, frame: VideoFrame, done: set<nat>)
    : map<nat, bool>
  {
    map id | id in ready ::
      if id in done then Delivered(Channel(QueueOf(channels, id), true), ready[id], frame).1 else ready[id]
  }

  function OfferedChannelsTo(ready: map<nat, bool>, channels: map<nat, Channel>, frame: VideoFrame, done: set<nat>)
    : map<nat, Channel>
  {
    map id | id in channels ::
      if id in done && id in ready then Delivered(channels[id], ready[id], frame).0 else channels[id]
  }

  function TurnsOf(readers: map<nat, seq<bool>>, id: nat): seq<bool> {
    if id in readers then readers[id] else []
  }

  /** What each subscriber's reader gets while the frame is offered to all. */
  function TakenByAll(ready: map<nat, bool>, channels: map<nat, Channel>, readers: map<nat, seq<bool>>)
    : map<nat, seq<VideoFrame>>
  {
    map id | id in ready ::
      if id in channels then TakenFrom(channels[id], ready[id], TurnsOf(readers, id)) else []
  }

  function Publish(h: Hub, frame: VideoFrame): Hub {
    var s := Recorded(StreamOf(h, frame.deviceID), frame);
    h.(streams := h.streams[frame.deviceID := s.(ready := OfferedReady(s.ready, h.channels, frame))],
       channels := OfferedChannels(s.ready, h.channels, frame))
  }

  function Unsubscribe(h: Hub, deviceID: string, id: nat): Hub {
    if !Subscribed(h, deviceID, id) then h
    else
      var s := h.streams[deviceID];
      h.(streams := h.streams[deviceID := s.(ready := s.ready - {id})],
         channels := h.channels[id := ChannelOf(h, id).(open := false)])
  }

  /** A marker is queued for everyone; a subscriber without room for it is cut off. */
  function MarkedReady(ready: map<nat, bool>, channels: map<nat, Channel>): map<nat, bool> {
    map id | id in ready && |QueueOf(channels, id)| < SUBSCRIBER_BUFFER :: false
  }

  function Marked(c: Channel, marker: VideoFrame): Channel {
    if |c.queue| < SUBSCRIBER_BUFFER then c.(queue := c.queue + [marker]) else c.(open := false)
  }

  function MarkedChannels(ready: map<nat, bool>, channels: map<nat, Channel>, marker: VideoFrame): map<nat, Channel> {
    map id | id in channels :: if id in ready then Marked(channels[id], marker) else channels[id]
  }

  function Discontinue(h: Hub, deviceID: string): Hub {
    if deviceID !in h.streams then h
    else
      var ready := h.streams[deviceID].ready;
      h.(streams := h.streams[deviceID := Stream([], 0, false, MarkedReady(ready, h.channels))],
         channels := MarkedChannels(ready, h.channels, Marker(deviceID)))
  }

  function ClosedChannels(ready: map<nat, bool>, channels: map<nat, Channel>): map<nat, Channel> {
    map id | id in channels :: if id in ready then channels[id].(open := false) else channels[id]
  }

  function Remove(h: Hub, deviceID: string): Hub {
    if deviceID !in h.streams then h
    else
      h.(streams := h.streams - {deviceID}, channels := ClosedChannels(h.streams[deviceID].ready, h.channels))
  }

  function Subscribe(h: Hub, deviceID: string, freshKeyFrame: bool): Hub {
    var s := StreamOf(h, deviceID);
    var id := h.nextSubscriberID + 1;
    Hub(h.streams[deviceID := s.(ready := s.ready[id := s.hasKeyFrame && !freshKeyFrame])],
        h.channels[id := Channel([], true)],
        h.snapshots[id := if freshKeyFrame then [] else s.backlog],
        id)
  }

  /** What a reader takes next: the rest of its snapshot, then its channel. */
  function NextFor(h: Hub, id: nat): seq<VideoFrame> {
    if id !in h.channels || id !in h.snapshots then []
    else h.snapshots[id] + h.channels[id].queue
  }

  function Receive(h: Hub, id: nat): Hub {
    if NextFor(h, id) == [] then h
    else if h.snapshots[id] != [] then h.(snapshots := h.snapshots[id := h.snapshots[id][1..]])
    else h.(channels := h.channels[id := h.channels[id].(queue := h.channels[id].queue[1..])])
  }

  // ----- every operation keeps the invariant

  lemma TotalBytesSnoc(frames: seq<VideoFrame>, frame: VideoFrame)
    ensures TotalBytes(frames + [frame]) == TotalBytes(frames) + |frame.data|
  {
    assert (frames + [frame])[..|frames|] == frames;
  }

  lemma RecordedValid(s: Stream, frame: VideoFrame)
    requires BacklogValid(s)
    ensures BacklogValid(Recorded(s, frame))
  {
    TotalBytesSnoc(s.backlog, frame);
    TotalBytesSnoc([], frame);
  }

  /** Changing queues but neither subscriptions nor openness keeps the channel side of the invariant. */
  lemma SameSubscriptions(h: Hub, h': Hub)
    requires Valid(h)
    requires h'.channels.Keys == h.channels.Keys == h'.snapshots.Keys
    requires h'.nextSubscriberID == h.nextSubscriberID
    requires forall d, id :: Subscribed(h', d, id) <==> Subscribed(h, d, id)
    requires forall id :: id in h.channels ==> h'.channels[id].open == h.channels[id].open
    requires forall id :: id in h.channels ==> |h'.channels[id].queue| <= SUBSCRIBER_BUFFER
    requires forall d :: d in h'.streams ==> BacklogValid(h'.streams[d])
    ensures Valid(h')
  {
    forall id | id in h'.channels
      ensures ChannelValid(h', id)
    {
      assert ChannelValid(h, id);
    }
  }

  /** Ending some subscriptions of one device while closing exactly their channels keeps it too. */
  lemma FewerSubscriptions(h: Hub, h': Hub, deviceID: string, gone: set<nat>)
    requires Valid(h) && forall id :: id in gone ==> Subscribed(h, deviceID, id)
    requires h'.channels.Keys == h.channels.Keys == h'.snapshots.Keys
    requires h'.nextSubscriberID == h.nextSubscriberID
    requires forall d, id :: Subscribed(h', d, id) <==> Subscribed(h, d, id) && id !in gone
    requires forall id :: id in h.channels ==> h'.channels[id].open == (h.channels[id].open && id !in gone)
    requires forall id :: id in h.channels ==> |h'.channels[id].queue| <= SUBSCRIBER_BUFFER
    requires forall d :: d in h'.streams ==> BacklogValid(h'.streams[d])
    ensures Valid(h')
  {
    forall id | id in h'.channels
      ensures ChannelValid(h', id)
    {
      assert ChannelValid(h, id);
      if h'.channels[id].open {
        var d :| Subscribed(h, d, id);
        assert Subscribed(h', d, id);
      }
    }
  }

  lemma PublishSubscriptions(h: Hub, frame: VideoFrame, deviceID: string, id: nat)
    ensures Subscribed(Publish(h, frame), deviceID, id) <==> Subscribed(h, deviceID, id)
  {
  }

  lemma PublishChannel(h: Hub, frame: VideoFrame, id: nat)
    requires Valid(h) && id in h.channels
    ensures Publish(h, frame).channels[id].open == h.channels[id].open
    ensures |Publish(h, frame).channels[id].queue| <= SUBSCRIBER_BUFFER
  {
    assert ChannelValid(h, id);
  }

  lemma PublishBacklogs(h: Hub, frame: VideoFrame, deviceID: string)
    requires Valid(h) && deviceID in Publish(h, frame).streams
    ensures BacklogValid(Publish(h, frame).streams[deviceID])
  {
    if deviceID == frame.deviceID {
      RecordedValid(StreamOf(h, deviceID), frame);
    }
  }

  lemma PublishValid(h: Hub, frame: VideoFrame)
    requires Valid(h)
    ensures Valid(Publish(h, frame))
  {
    var h' := Publish(h, frame);
    forall id | id in h.channels
      ensures h'.channels[id].open == h.channels[id].open && |h'.channels[id].queue| <= SUBSCRIBER_BUFFER
    {
      PublishChannel(h, frame, id);
    }
    forall d, id
      ensures Subscribed(h', d, id) <==> Subscribed(h, d, id)
    {
      PublishSubscriptions(h, frame, d, id);
    }
    forall d | d in h'.streams
      ensures BacklogValid(h'.streams[d])
    {
      PublishBacklogs(h, frame, d);
    }
    hide Publish;
    SameSubscriptions(h, h');
  }

  lemma UnsubscribeValid(h: Hub, deviceID: string, id: nat)
    requires Valid(h)
    ensures Valid(Unsubscribe(h, deviceID, id))
  {
    if Subscribed(h, deviceID, id) {
      var h' := Unsubscribe(h, deviceID, id);
      forall k | k in h.channels
        ensures h'.channels[k].open == (h.channels[k].open && k !in {id})
        ensures |h'.channels[k].queue| <= SUBSCRIBER_BUFFER
      {
        assert ChannelValid(h, k);
      }
      assert BacklogValid(h.streams[deviceID]);
      FewerSubscriptions(h, h', deviceID, {id});
    }
  }

  predicate Full(h: Hub, id: nat) {
    |QueueOf(h.channels, id)| >= SUBSCRIBER_BUFFER
  }

  lemma DiscontinueSubscriptions(h: Hub, deviceID: string, d: string, id: nat)
    ensures Subscribed(Discontinue(h, deviceID), d, id) <==>
            Subscribed(h, d, id) && !(d == deviceID && Full(h, id))
  {
  }

  lemma DiscontinueChannel(h: Hub, deviceID: string, id: nat)
    requires Valid(h) && id in h.channels
    ensures Discontinue(h, deviceID).channels[id].open ==
            (h.channels[id].open && !(Subscribed(h, deviceID, id) && Full(h, id)))
    ensures |Discontinue(h, deviceID).channels[id].queue| <= SUBSCRIBER_BUFFER
  {
    assert ChannelValid(h, id);
  }

  lemma DiscontinueValid(h: Hub, deviceID: string)
    requires Valid(h)
    ensures Valid(Discontinue(h, deviceID))
  {
    if deviceID in h.streams {
      var h' := Discontinue(h, deviceID);
      var gone := set id | id in h.streams[deviceID].ready && Full(h, id);
      forall id | id in h.channels
        ensures h'.channels[id].open == (h.channels[id].open && id !in gone)
        ensures |h'.channels[id].queue| <= SUBSCRIBER_BUFFER
      {
        DiscontinueChannel(h, deviceID, id);
      }
      forall d, id
        ensures Subscribed(h', d, id) <==> Subscribed(h, d, id) && id !in gone
      {
        DiscontinueSubscriptions(h, deviceID, d, id);
        assert id in gone ==> Subscribed(h, deviceID, id);
      }
      FewerSubscriptions(h, h', deviceID, gone);
    }
  }

  lemma RemoveValid(h: Hub, deviceID: string)
    requires Valid(h)
    ensures Valid(Remove(h, deviceID))
  {
    if deviceID in h.streams {
      var h' := Remove(h, deviceID);
      var gone := h.streams[deviceID].ready.Keys;
      forall k | k in h.channels
        ensures h'.channels[k].open == (h.channels[k].open && k !in gone)
        ensures |h'.channels[k].queue| <= SUBSCRIBER_BUFFER
      {
        assert ChannelValid(h, k);
      }
      forall d, id
        ensures Subscribed(h', d, id) <==> Subscribed(h, d, id) && id !in gone
      {
        if Subscribed(h, d, id) && id in gone {
          assert Subscribed(h, deviceID, id);
        }
      }
      FewerSubscriptions(h, h', deviceID, gone);
    }
  }

  lemma NextIDIsNew(h: Hub)
    requires Valid(h)
    ensures h.nextSubscriberID + 1 !in h.channels
    ensures forall d, id :: Subscribed(h, d, id) ==> id != h.nextSubscriberID + 1
  {
    assert h.nextSubscriberID + 1 in h.channels ==> ChannelValid(h, h.nextSubscriberID + 1);
  }

  lemma SubscribeSubscriptions(h: Hub, deviceID: string, freshKeyFrame: bool, d: string, id: nat)
    ensures Subscribed(Subscribe(h, deviceID, freshKeyFrame), d, id) <==>
            Subscribed(h, d, id) || (d == deviceID && id == h.nextSubscriberID + 1)
  {
  }

  lemma SubscribeBacklogs(h: Hub, deviceID: string, freshKeyFrame: bool, d: string)
    requires Valid(h) && d in Subscribe(h, deviceID, freshKeyFrame).streams
    ensures BacklogValid(Subscribe(h, deviceID, freshKeyFrame).streams[d])
  {
    assert BacklogValid(StreamOf(h, d));
  }

  /** Adding one subscription under the next ID, with an open channel, keeps the invariant. */
  lemma OneMoreSubscription(h: Hub, h': Hub, deviceID: string, id: nat)
    requires Valid(h) && id == h.nextSubscriberID + 1 == h'.nextSubscriberID
    requires h'.channels.Keys == h'.snapshots.Keys == h.channels.Keys + {id}
    requires h'.channels[id] == Channel([], true)
    requires forall k :: k in h.channels && k != id ==> h'.channels[k] == h.channels[k]
    requires forall d, k :: Subscribed(h', d, k) <==> Subscribed(h, d, k) || (d == deviceID && k == id)
    requires forall d :: d in h'.streams ==> BacklogValid(h'.streams[d])
    ensures Valid(h')
  {
    NextIDIsNew(h);
    forall k | k in h'.channels
      ensures ChannelValid(h', k)
    {
      if k == id {
        assert Subscribed(h', deviceID, id);
      } else {
        assert ChannelValid(h, k);
        assert forall d :: Subscribed(h', d, k) <==> Subscribed(h, d, k);
      }
    }
  }

  lemma SubscribeValid(h: Hub, deviceID: string, freshKeyFrame: bool)
    requires Valid(h)
    ensures Valid(Subscribe(h, deviceID, freshKeyFrame))
  {
    var h', id := Subscribe(h, deviceID, freshKeyFrame), h.nextSubscriberID + 1;
    forall d, k
      ensures Subscribed(h', d, k) <==> Subscribed(h, d, k) || (d == deviceID && k == id)
    {
      SubscribeSubscriptions(h, deviceID, freshKeyFrame, d, k);
    }
    forall d | d in h'.streams
      ensures BacklogValid(h'.streams[d])
    {
      SubscribeBacklogs(h, deviceID, freshKeyFrame, d);
    }
    OneMoreSubscription(h, h', deviceID, id);
  }

  lemma ReceiveValid(h: Hub, id: nat)
    requires Valid(h)
    ensures Valid(Receive(h, id))
  {
    forall k | k in h.channels
      ensures |Receive(h, id).channels[k].queue| <= SUBSCRIBER_BUFFER
    {
      assert ChannelValid(h, k);
    }
    SameSubscriptions(h, Receive(h, id));
  }

  // ----- what each operation leaves for a reader to take

  lemma PublishNext(h: Hub, frame: VideoFrame, id: nat)
    requires id in h.channels && id in h.snapshots
    ensures NextFor(Publish(h, frame), id) == h.snapshots[id] +
              if Subscribed(h, frame.deviceID, id)
              then Delivered(h.channels[id], Recorded(StreamOf(h, frame.deviceID), frame).ready[id], frame).0.queue
              else h.channels[id].queue
  {
    hide Recorded;
  }

  // ----- who is subscribed and ready afterwards

  predicate Ready(h: Hub, deviceID: string, id: nat) {
    Subscribed(h, deviceID, id) && h.streams[deviceID].ready[id]
  }

  /** Between `h` and `h'` the subscriber neither joined a stream nor became ready. */
  ghost predicate Quieter(h: Hub, h': Hub, id: nat) {
    forall d :: (Subscribed(h', d, id) ==> Subscribed(h, d, id)) && (Ready(h', d, id) ==> Ready(h, d, id))
  }

  lemma UnsubscribeQuieter(h: Hub, deviceID: string, k: nat, id: nat)
    ensures Quieter(h, Unsubscribe(h, deviceID, k), id)
  {
  }

  lemma DiscontinueQuieter(h: Hub, deviceID: string, id: nat)
    ensures Quieter(h, Discontinue(h, deviceID), id) && !Ready(Discontinue(h, deviceID), deviceID, id)
  {
  }

  lemma RemoveQuieter(h: Hub, deviceID: string, id: nat)
    ensures Quieter(h, Remove(h, deviceID), id)
  {
  }

  lemma SubscribeQuieter(h: Hub, deviceID: string, freshKeyFrame: bool, id: nat)
    requires id != h.nextSubscriberID + 1
    ensures Quieter(h, Subscribe(h, deviceID, freshKeyFrame), id)
  {
  }

  lemma PublishReady(h: Hub, frame: VideoFrame, deviceID: string, id: nat)
    ensures Ready(Publish(h, frame), deviceID, id) <==>
            if deviceID == frame.deviceID
            then Subscribed(h, deviceID, id) &&
                 Delivered(Channel(QueueOf(h.channels, id), true), Recorded(StreamOf(h, deviceID), frame).ready[id],
                           frame).1
            else Ready(h, deviceID, id)
  {
    hide Recorded;
  }

  // ----- what each operation does to a backlog

  lemma OtherBacklogs(h: Hub, deviceID: string, d: string, k: nat, freshKeyFrame: bool)
    ensures StreamOf(Unsubscribe(h, deviceID, k), d).backlog == StreamOf(h, d).backlog
    ensures StreamOf(Subscribe(h, deviceID, freshKeyFrame), d).backlog == StreamOf(h, d).backlog
    ensures StreamOf(Discontinue(h, deviceID), d).backlog == if d == deviceID then [] else StreamOf(h, d).backlog
    ensures StreamOf(Remove(h, deviceID), d).backlog == if d == deviceID then [] else StreamOf(h, d).backlog
  {
  }
}
