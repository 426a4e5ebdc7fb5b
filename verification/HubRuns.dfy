/**
 Runs of the hub: any sequence of publish, subscribe, unsubscribe, discontinuity, remove and receive
 steps, and what it means that a subscriber can decode what it receives. Here a publish is one step;
 `HubDrains` takes it apart.
 */
module HubRuns {
  import opened Frames
  import opened HubState

  datatype Op =
    | OpPublish(frame: VideoFrame)
    | OpUnsubscribe(unsubscribed: string, subscriber: nat)
    | OpDiscontinue(interrupted: string)
    | OpRemove(removed: string)
    | OpSubscribe(watched: string, freshKeyFrame: bool)
    | OpReceive(reader: nat)

  /** The hub, every frame ever published for a device, and every frame each subscriber received. */
  datatype World = World(
    hub: Hub,
    published: map<string, seq<VideoFrame>>,
    device: map<nat, string>,
    received: map<nat, seq<VideoFrame>>)

  const START := World(NEW_HUB, map[], map[], map[])

  function PublishedFor(w: World, deviceID: string): seq<VideoFrame> {
    if deviceID in w.published then w.published[deviceID] else []
  }

  function Step(w: World, op: Op): World {
    match op
    case OpPublish(frame) =>
      w.(hub := Publish(w.hub, frame),
         published := w.published[frame.deviceID := PublishedFor(w, frame.deviceID) + [frame]])
    case OpUnsubscribe(deviceID, id) => w.(hub := Unsubscribe(w.hub, deviceID, id))
    case OpDiscontinue(deviceID) => w.(hub := Discontinue(w.hub, deviceID))
    case OpRemove(deviceID) => w.(hub := Remove(w.hub, deviceID))
    case OpSubscribe(deviceID, skip) =>
      var id := w.hub.nextSubscriberID + 1;
      w.(hub := Subscribe(w.hub, deviceID, skip), device := w.device[id := deviceID], received := w.received[id := []])
    case OpReceive(id) =>
      if NextFor(w.hub, id) == [] || id !in w.received then w
      else w.(hub := Receive(w.hub, id), received := w.received[id := w.received[id] + [NextFor(w.hub, id)[0]]])
  }

  function Run(w: World, ops: seq<Op>): World
    decreases |ops|
  {
    if ops == [] then w else Run(Step(w, ops[0]), ops[1..])
  }

  // ----- decodability of a received sequence

  /** The frame at `i` needs no earlier one, or directly follows the frame received before it. */
  predicate DecodableAt(items: seq<VideoFrame>, place: seq<int>, i: nat)
    requires |items| == |place| && i < |items|
  {
    items[i].keyFrame || (i > 0 && place[i - 1] >= 0 && place[i - 1] + 1 == place[i])
  }

  /**
   `place` gives, for each item, its index among the published frames, or -1 for a marker of the hub.
   Frames come in publish order, each once.
   */
  ghost predicate Placed(published: seq<VideoFrame>, items: seq<VideoFrame>, place: seq<int>) {
    && |items| == |place|
    && (forall i :: 0 <= i < |place| ==> -1 <= place[i] < |published|)
    && (forall i :: 0 <= i < |place| && place[i] >= 0 ==> published[place[i]] == items[i])
    && (forall i :: 0 <= i < |place| && place[i] < 0 ==> items[i] == Marker(items[i].deviceID))
    && (forall i, j :: 0 <= i < j < |place| && place[j] >= 0 ==> place[i] < place[j])
  }

  /** Moreover each frame is decodable when it comes. */
  ghost predicate Follows(published: seq<VideoFrame>, items: seq<VideoFrame>, place: seq<int>) {
    && Placed(published, items, place)
    && (forall i :: 0 <= i < |place| && place[i] >= 0 ==> DecodableAt(items, place, i))
  }

  ghost predicate Decodable(published: seq<VideoFrame>, items: seq<VideoFrame>) {
    exists place :: Follows(published, items, place)
  }

  // ----- what a world consists of

  function DeviceOf(w: World, id: nat): string {
    if id in w.device then w.device[id] else ""
  }

  /** A subscriber is subscribed to its own device alone. */
  ghost predicate DeviceOk(w: World, id: nat) {
    forall d :: Subscribed(w.hub, d, id) ==> d == DeviceOf(w, id)
  }

  ghost predicate IsTail<T>(part: seq<T>, whole: seq<T>) {
    |part| <= |whole| && part == whole[|whole| - |part|..]
  }

  /** The backlog is the last frames published for the device. */
  ghost predicate BacklogOk(w: World, deviceID: string) {
    IsTail(StreamOf(w.hub, deviceID).backlog, PublishedFor(w, deviceID))
  }

  ghost predicate KeysOk(w: World) {
    w.received.Keys == w.device.Keys == w.hub.channels.Keys == w.hub.snapshots.Keys
  }

  /** No operation changes who has a channel, except that subscribing adds the new ID. */
  lemma StepKeys(w: World, op: Op)
    requires Valid(w.hub) && KeysOk(w) && !op.OpSubscribe?
    ensures KeysOk(Step(w, op)) && Step(w, op).received.Keys == w.received.Keys && Step(w, op).device == w.device
  {
    hide BacklogOk, ChannelValid, BacklogValid;
  }

  lemma SubscribeKeys(w: World, deviceID: string, skip: bool)
    requires KeysOk(w)
    ensures KeysOk(Step(w, OpSubscribe(deviceID, skip)))
    ensures Step(w, OpSubscribe(deviceID, skip)).received.Keys == w.received.Keys + {w.hub.nextSubscriberID + 1}
  {
  }
}
