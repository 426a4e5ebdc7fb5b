/**
 The hub with the steps of a publish apart. A publish holds the lock from its first step to its last,
 which keeps the other operations out; readers receive without the lock, so a receive can fall between
 any two of its steps, also between two frames taken by a drain. The other operations touch each channel
 at most once, so a receive comes before or after them; they stay single steps.
 */
module HubDrains {
  import opened Frames
  import opened HubRuns
  import opened HubState
  import opened HubViews

  /** Who holds the lock: nobody, a publish offering its frame, or one emptying the queue of `id`. */
  datatype Phase =
    | Idle
    | Offering(frame: VideoFrame, todo: set<nat>)
    | Draining(frame: VideoFrame, todo: set<nat>, id: nat, skipped: bool)

  /** `place` records the publish index of every item a subscriber received or has pending. */
  datatype Fine = Fine(w: World, phase: Phase, place: map<nat, seq<int>>)

  datatype Action =
    | Locked(op: Op)
    | Begin(frame: VideoFrame)
    | Offer(subscriber: nat)
    | Pop
    | EndDrain
    | EndPublish
    | Take(reader: nat)

  const FRESH := Fine(START, Idle, map[])

  function ReceivedBy(w: World, id: nat): seq<VideoFrame> {
    if id in w.received then w.received[id] else []
  }

  function SnapshotOf(h: Hub, id: nat): seq<VideoFrame> {
    if id in h.snapshots then h.snapshots[id] else []
  }

  function PlaceOf(f: Fine, id: nat): seq<int> {
    if id in f.place then f.place[id] else []
  }

  predicate Awaits(p: Phase, id: nat) {
    !p.Idle? && id in p.todo
  }

  predicate Drains(p: Phase, id: nat) {
    p.Draining? && p.id == id
  }

  // ----- the steps

  function Begun(h: Hub, frame: VideoFrame): Hub {
    h.(streams := h.streams[frame.deviceID := Recorded(StreamOf(h, frame.deviceID), frame)])
  }

  function WithQueue(h: Hub, id: nat, queue: seq<VideoFrame>): Hub {
    h.(channels := h.channels[id := ChannelOf(h, id).(queue := queue)])
  }

  function NotReady(h: Hub, deviceID: string, id: nat): Hub {
    var s := StreamOf(h, deviceID);
    h.(streams := h.streams[deviceID := s.(ready := s.ready[id := false])])
  }

  function Without(place: seq<int>, k: nat): seq<int> {
    if k < |place| then place[..k] + place[k + 1..] else place
  }

  function Before(place: seq<int>, k: nat): seq<int> {
    if k < |place| then place[..k] else place
  }

  function IndexRange(from: nat, n: nat): (r: seq<int>)
    ensures |r| == n && forall i :: 0 <= i < n ==> r[i] == from + i
  {
    seq(n, i => from + i)
  }

  function MarkedPlaces(f: Fine, deviceID: string): map<nat, seq<int>> {
    map id | id in f.place ::
      if Subscribed(f.w.hub, deviceID, id) && !Full(f.w.hub, id) then f.place[id] + [-1] else f.place[id]
  }

  /** The places of a snapshot: the last frames published. */
  function SnapshotPlaces(w: World, deviceID: string, freshKeyFrame: bool): seq<int> {
    var n, m := |StreamOf(w.hub, deviceID).backlog|, |PublishedFor(w, deviceID)|;
    if freshKeyFrame || n > m then [] else IndexRange(m - n, n)
  }

  function LockedPlaces(f: Fine, op: Op): map<nat, seq<int>> {
    match op
    case OpDiscontinue(deviceID) => MarkedPlaces(f, deviceID)
    case OpSubscribe(deviceID, skip) =>
      f.place[f.w.hub.nextSubscriberID + 1 := SnapshotPlaces(f.w, deviceID, skip)]
    case _ => f.place
  }

  /** The first item of the subscriber's queue, among all it received or has pending. */
  function QueueStart(f: Fine, id: nat): nat {
    |ReceivedBy(f.w, id)| + |SnapshotOf(f.w.hub, id)|
  }

  predicate WaitsForLock(op: Op) {
    !op.OpPublish? && !op.OpReceive?
  }

  predicate Enabled(f: Fine, a: Action) {
    match a
    case Locked(op) => f.phase.Idle? && WaitsForLock(op)
    case Begin(frame) => f.phase.Idle?
    case Offer(id) => f.phase.Offering? && id in f.phase.todo
    case Pop => f.phase.Draining? && QueueOf(f.w.hub.channels, f.phase.id) != []
    case EndDrain => f.phase.Draining? && QueueOf(f.w.hub.channels, f.phase.id) == []
    case EndPublish => f.phase.Offering? && f.phase.todo == {}
    case Take(id) => true
  }

  function Begins(f: Fine, frame: VideoFrame): Fine {
    var d := frame.deviceID;
    Fine(f.w.(hub := Begun(f.w.hub, frame), published := f.w.published[d := PublishedFor(f.w, d) + [frame]]),
         Offering(frame, StreamOf(f.w.hub, d).ready.Keys),
         f.place)
  }

  function Offers(f: Fine, id: nat): Fine
    requires Enabled(f, Offer(id))
  {
    var h, frame, todo := f.w.hub, f.phase.frame, f.phase.todo - {id};
    if !Ready(h, frame.deviceID, id) then f.(phase := Offering(frame, todo))
    else if Full(h, id) then f.(phase := Draining(frame, todo, id, false))
    else
      Fine(f.w.(hub := WithQueue(h, id, QueueOf(h.channels, id) + [frame])),
           Offering(frame, todo),
           f.place[id := PlaceOf(f, id) + [|PublishedFor(f.w, frame.deviceID)| - 1]])
  }

  function Pops(f: Fine): Fine
    requires Enabled(f, Pop)
  {
    var h, id := f.w.hub, f.phase.id;
    Fine(f.w.(hub := WithQueue(h, id, QueueOf(h.channels, id)[1..])),
         f.phase.(skipped := true),
         f.place[id := Without(PlaceOf(f, id), QueueStart(f, id))])
  }

  /** The subscriber is no longer ready and finds a marker. */
  function EndsDrain(f: Fine): Fine
    requires f.phase.Draining?
  {
    var d, id := f.phase.frame.deviceID, f.phase.id;
    Fine(f.w.(hub := NotReady(WithQueue(f.w.hub, id, [Marker(d)]), d, id)),
         Offering(f.phase.frame, f.phase.todo),
         f.place[id := Before(PlaceOf(f, id), QueueStart(f, id)) + [-1]])
  }

  /** A receive takes from the queue when the snapshot is used up. */
  predicate FromQueue(f: Fine, id: nat) {
    SnapshotOf(f.w.hub, id) == [] && QueueOf(f.w.hub.channels, id) != []
  }

  function Takes(f: Fine, id: nat): Fine {
    f.(w := Step(f.w, OpReceive(id)),
       phase := if Drains(f.phase, id) && FromQueue(f, id) then f.phase.(skipped := false) else f.phase)
  }

  /** One step of some party; an action that is not possible leaves everything as it is. */
  function Move(f: Fine, a: Action): Fine {
    if !Enabled(f, a) then f
    else
      match a
      case Locked(op) => f.(w := Step(f.w, op), place := LockedPlaces(f, op))
      case Begin(frame) => Begins(f, frame)
      case Offer(id) => Offers(f, id)
      case Pop => Pops(f)
      case EndDrain => EndsDrain(f)
      case EndPublish => f.(phase := Idle)
      case Take(id) => Takes(f, id)
  }

  function Moves(f: Fine, actions: seq<Action>): Fine
    decreases |actions|
  {
    if actions == [] then f else Moves(Move(f, actions[0]), actions[1..])
  }

  lemma {:induction false} MovesAppend(f: Fine, a: seq<Action>, b: seq<Action>)
    ensures Moves(f, a + b) == Moves(Moves(f, a), b)
    decreases |a|
  {
    hide Move;
    if a == [] {
      assert a + b == b;
    } else {
      assert (a + b)[0] == a[0] && (a + b)[1..] == a[1..] + b;
      MovesAppend(Move(f, a[0]), a[1..], b);
    }
  }

  // ----- one subscriber's view

  /** The frames published for the subscriber's device, without the one still to be offered to it. */
  function Offered(f: Fine, id: nat): seq<VideoFrame> {
    var published := PublishedFor(f.w, DeviceOf(f.w, id));
    if Awaits(f.phase, id) && published != [] then published[..|published| - 1] else published
  }

  predicate Current(f: Fine, id: nat) {
    && Ready(f.w.hub, DeviceOf(f.w, id), id)
    && !Drains(f.phase, id)
    && !(Awaits(f.phase, id) && f.phase.frame.keyFrame)
  }

  function ViewOf(f: Fine, id: nat): View {
    View(Offered(f, id), ReceivedBy(f.w, id), SnapshotOf(f.w.hub, id), QueueOf(f.w.hub.channels, id),
         PlaceOf(f, id), Current(f, id), Drains(f.phase, id), Drains(f.phase, id) && f.phase.skipped)
  }

  // ----- the invariant

  ghost predicate PhaseOk(f: Fine) {
    f.phase.Idle? ||
    (var d, frame := f.phase.frame.deviceID, f.phase.frame;
     var published := PublishedFor(f.w, d);
     && published != [] && published[|published| - 1] == frame
     && (forall id :: id in f.phase.todo ==> Subscribed(f.w.hub, d, id))
     && (f.phase.Draining? ==> f.phase.id !in f.phase.todo && Subscribed(f.w.hub, d, f.phase.id)))
  }

  ghost predicate OneOk(f: Fine, id: nat) {
    DeviceOk(f.w, id) && ViewOk(ViewOf(f, id))
  }

  ghost predicate HubOk(f: Fine) {
    Valid(f.w.hub) && KeysOk(f.w) && f.place.Keys == f.w.received.Keys
  }

  ghost predicate FineInv(f: Fine) {
    && HubOk(f)
    && PhaseOk(f)
    && (forall id :: id in f.w.received ==> OneOk(f, id))
    && (forall d :: BacklogOk(f.w, d))
  }

  /** All frames the subscriber received so far were decodable when they came. */
  ghost predicate Whole(f: Fine, id: nat) {
    Sized(ViewOf(f, id)) ==> ReceivedWhole(ViewOf(f, id))
  }

  /** The reader receives a frame, not a key frame, right after a drain of its queue took one. */
  predicate BadTake(f: Fine, a: Action, id: nat) {
    && a == Take(id)
    && Drains(f.phase, id) && f.phase.skipped
    && FromQueue(f, id) && !QueueOf(f.w.hub.channels, id)[0].keyFrame
    && |ReceivedBy(f.w, id)| < |PlaceOf(f, id)| && PlaceOf(f, id)[|ReceivedBy(f.w, id)|] >= 0
  }

  /** The subscriber is ready and its queue is not being emptied. */
  predicate StaysReady(f: Fine, id: nat) {
    Ready(f.w.hub, DeviceOf(f.w, id), id) && !Drains(f.phase, id)
  }

  /** A subscriber that is still ready got exactly the frames offered since. */
  ghost predicate KeptIfReady(f: Fine, f': Fine, id: nat) {
    && id in f'.w.received && DeviceOf(f'.w, id) == DeviceOf(f.w, id)
    && (StaysReady(f', id) ==> Gained(ViewOf(f, id), ViewOf(f', id)))
  }

  /** What a step means for one subscriber. */
  ghost predicate StepOk(f: Fine, a: Action, id: nat) {
    && (id in Move(f, a).w.received ==> OneOk(Move(f, a), id))
    && (Whole(Move(f, a), id) <==> Whole(f, id) && !BadTake(f, a, id))
    && (id in f.w.received ==> KeptIfReady(f, Move(f, a), id))
  }
}
