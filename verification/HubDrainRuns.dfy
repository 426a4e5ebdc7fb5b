/**
 Runs of the hub whose publishes are taken apart: the operations that wait for the lock, the induction
 over all runs, and the results.
 */
module HubDrainRuns {
  import opened Frames
  import opened HubRuns
  import opened HubState
  import opened HubViews
  import opened HubDrains
  import opened HubDrainLaws

  // ----- operations that hold the lock throughout

  lemma UnsubscribeParts(h: Hub, deviceID: string, k: nat, id: nat)
    requires Subscribed(h, deviceID, k) ==> k in h.channels
    ensures var h' := Unsubscribe(h, deviceID, k);
            h'.snapshots == h.snapshots && QueueOf(h'.channels, id) == QueueOf(h.channels, id)
  {
  }

  lemma RemoveParts(h: Hub, deviceID: string, id: nat)
    ensures var h' := Remove(h, deviceID);
            h'.snapshots == h.snapshots && QueueOf(h'.channels, id) == QueueOf(h.channels, id)
  {
  }

  lemma DiscontinueParts(h: Hub, deviceID: string, id: nat)
    requires id in h.channels
    ensures var h' := Discontinue(h, deviceID);
            && h'.snapshots == h.snapshots
            && QueueOf(h'.channels, id) == QueueOf(h.channels, id) +
                 if Subscribed(h, deviceID, id) && !Full(h, id) then [Marker(deviceID)] else []
  {
    assert QueueOf(h.channels, id) + [] == QueueOf(h.channels, id);
  }

  lemma SubscribeParts(h: Hub, deviceID: string, skip: bool, id: nat)
    ensures var h', added := Subscribe(h, deviceID, skip), h.nextSubscriberID + 1;
            && SnapshotOf(h', id) ==
                 (if id != added then SnapshotOf(h, id) else if skip then [] else StreamOf(h, deviceID).backlog)
            && QueueOf(h'.channels, id) == if id != added then QueueOf(h.channels, id) else []
  {
  }

  lemma SubscribeReady(h: Hub, deviceID: string, skip: bool)
    ensures Ready(Subscribe(h, deviceID, skip), deviceID, h.nextSubscriberID + 1) <==>
            StreamOf(h, deviceID).hasKeyFrame && !skip
  {
  }

  /** An operation that at most makes a subscriber wait, or unsubscribes it. */
  lemma QuietStepOk(f: Fine, op: Op, id: nat)
    requires f.phase.Idle? && WaitsForLock(op) && id in f.w.received && OneOk(f, id)
    requires var f' := Move(f, Locked(op));
             && f'.w.published == f.w.published && DeviceOf(f'.w, id) == DeviceOf(f.w, id) && id in f'.w.received
             && ReceivedBy(f'.w, id) == ReceivedBy(f.w, id) && SnapshotOf(f'.w.hub, id) == SnapshotOf(f.w.hub, id)
             && QueueOf(f'.w.hub.channels, id) == QueueOf(f.w.hub.channels, id) && PlaceOf(f', id) == PlaceOf(f, id)
             && Quieter(f.w.hub, f'.w.hub, id)
    ensures StepOk(f, Locked(op), id)
  {
    hide Step, ViewOk, ReceivedWhole, LockedPlaces, QueueOf, SnapshotOf, Ready, Subscribed;
    var f' := Move(f, Locked(op));
    assert ViewOf(f', id) == ViewOf(f, id).(current := Current(f', id));
    QuietOk(ViewOf(f, id), Current(f', id));
    Kept(f, f', id);
  }

  lemma UnsubscribeOne(f: Fine, deviceID: string, k: nat, id: nat)
    requires FineInv(f) && f.phase.Idle? && id in f.w.received
    ensures StepOk(f, Locked(OpUnsubscribe(deviceID, k)), id)
  {
    hide FineInv, Quieter, Unsubscribe, OneOk, StepOk, Valid;
    InvParts(f);
    InvOne(f, id);
    if Subscribed(f.w.hub, deviceID, k) {
      SubscribedHasChannel(f, deviceID, k);
    }
    UnsubscribeParts(f.w.hub, deviceID, k, id);
    UnsubscribeQuieter(f.w.hub, deviceID, k, id);
    QuietStepOk(f, OpUnsubscribe(deviceID, k), id);
  }

  lemma RemoveOne(f: Fine, deviceID: string, id: nat)
    requires FineInv(f) && f.phase.Idle? && id in f.w.received
    ensures StepOk(f, Locked(OpRemove(deviceID)), id)
  {
    hide FineInv, Quieter, Remove, OneOk, StepOk;
    InvOne(f, id);
    RemoveParts(f.w.hub, deviceID, id);
    RemoveQuieter(f.w.hub, deviceID, id);
    QuietStepOk(f, OpRemove(deviceID), id);
  }

  lemma DiscontinueOne(f: Fine, deviceID: string, id: nat)
    requires FineInv(f) && f.phase.Idle? && id in f.w.received
    ensures StepOk(f, Locked(OpDiscontinue(deviceID)), id)
  {
    hide FineInv, Quieter, Discontinue, ViewOk, ReceivedWhole, Full, QueueOf;
    InvOne(f, id);
    var f', h := Move(f, Locked(OpDiscontinue(deviceID))), f.w.hub;
    DiscontinueParts(h, deviceID, id);
    DiscontinueQuieter(h, deviceID, id);
    if Subscribed(h, deviceID, id) && !Full(h, id) {
      InterruptedOk(ViewOf(f, id), deviceID);
      DiscontinueDevice(f, deviceID, id);
      assert ViewOf(f', id) == Interrupted(ViewOf(f, id), Marker(deviceID));
      Kept(f, f', id);
    } else {
      assert QueueOf(h.channels, id) + [] == QueueOf(h.channels, id);
      QuietStepOk(f, OpDiscontinue(deviceID), id);
    }
  }

  lemma DiscontinueDevice(f: Fine, deviceID: string, id: nat)
    requires DeviceOk(f.w, id)
    ensures DeviceOk(Step(f.w, OpDiscontinue(deviceID)), id)
  {
    hide Discontinue, Ready, Subscribed;
    DiscontinueQuieter(f.w.hub, deviceID, id);
  }

  lemma OldSubscriber(f: Fine, deviceID: string, skip: bool, id: nat)
    requires FineInv(f) && f.phase.Idle? && id in f.w.received && id != f.w.hub.nextSubscriberID + 1
    ensures StepOk(f, Locked(OpSubscribe(deviceID, skip)), id)
  {
    hide FineInv, Quieter, Subscribe, OneOk, StepOk, SnapshotPlaces, SnapshotOf, QueueOf;
    InvOne(f, id);
    SubscribeParts(f.w.hub, deviceID, skip, id);
    SubscribeQuieter(f.w.hub, deviceID, skip, id);
    QuietStepOk(f, OpSubscribe(deviceID, skip), id);
  }

  lemma TailPlaced(published: seq<VideoFrame>, part: seq<VideoFrame>, place: seq<int>)
    requires IsTail(part, published) && place == IndexRange(|published| - |part|, |part|)
    ensures Placed(published, part, place)
  {
    forall i | 0 <= i < |place|
      ensures 0 <= place[i] < |published| && published[place[i]] == part[i]
    {
      assert part[i] == published[|published| - |part|..][i];
    }
  }

  lemma RangeWhole(items: seq<VideoFrame>, from: nat)
    requires items != [] ==> items[0].keyFrame
    ensures WholeUpTo(items, IndexRange(from, |items|), |items|)
  {
  }

  lemma BacklogPlaced(published: seq<VideoFrame>, s: Stream, place: seq<int>)
    requires BacklogValid(s) && IsTail(s.backlog, published)
    requires place == IndexRange(|published| - |s.backlog|, |s.backlog|)
    ensures Placed(published, s.backlog, place) && WholeUpTo(s.backlog, place, |place|)
    ensures |place| == |s.backlog|
    ensures s.hasKeyFrame ==> place != [] && place[|place| - 1] == |published| - 1 >= 0
  {
    hide Placed, WholeUpTo;
    TailPlaced(published, s.backlog, place);
    RangeWhole(s.backlog, |published| - |s.backlog|);
  }

  lemma WholeIsPending(items: seq<VideoFrame>, place: seq<int>, head: nat)
    requires |items| == |place| && WholeUpTo(items, place, |place|)
    ensures PendingOk(items, place, 0, head, false) && DamageMarked(items, place, 0)
  {
  }

  /** A new subscriber starts with the tail of the published frames, from a key frame on. */
  lemma NewView(published: seq<VideoFrame>, s: Stream, place: seq<int>, current: bool)
    requires BacklogValid(s) && IsTail(s.backlog, published) && (current ==> s.hasKeyFrame)
    requires place == IndexRange(|published| - |s.backlog|, |s.backlog|)
    ensures ViewOk(View(published, [], s.backlog, [], place, current, false, false))
  {
    hide BacklogValid, Placed, IsTail, IndexRange, PendingOk, WholeUpTo, DamageMarked;
    BacklogPlaced(published, s, place);
    WholeIsPending(s.backlog, place, |s.backlog|);
    var v := View(published, [], s.backlog, [], place, current, false, false);
    assert ItemsOf(v) == s.backlog;
  }

  lemma EmptyView(published: seq<VideoFrame>)
    ensures ViewOk(View(published, [], [], [], [], false, false, false))
  {
  }

  lemma NewSubscriber(f: Fine, deviceID: string, skip: bool)
    requires FineInv(f) && f.phase.Idle?
    ensures OneOk(Move(f, Locked(OpSubscribe(deviceID, skip))), f.w.hub.nextSubscriberID + 1)
    ensures Whole(Move(f, Locked(OpSubscribe(deviceID, skip))), f.w.hub.nextSubscriberID + 1)
  {
    hide FineInv, Valid, ViewOk, BacklogValid, Subscribe, Subscribed, Ready, HubOk, SnapshotOf, QueueOf, IsTail;
    var f', id := Move(f, Locked(OpSubscribe(deviceID, skip))), f.w.hub.nextSubscriberID + 1;
    InvParts(f);
    InvBacklogOf(f, deviceID);
    NextIsNew(f, id);
    SubscribeParts(f.w.hub, deviceID, skip, id);
    SubscribeReady(f.w.hub, deviceID, skip);
    forall d
      ensures Subscribed(f'.w.hub, d, id) ==> d == deviceID
    {
      SubscribeSubscriptions(f.w.hub, deviceID, skip, d, id);
    }
    NewSubscriberView(f, deviceID, skip);
  }

  lemma NextIsNew(f: Fine, id: nat)
    requires HubOk(f) && id == f.w.hub.nextSubscriberID + 1
    ensures id !in f.w.received && forall d :: !Subscribed(f.w.hub, d, id)
  {
    NextIDIsNew(f.w.hub);
  }

  lemma NewSubscriberView(f: Fine, deviceID: string, skip: bool)
    requires f.phase.Idle? && BacklogOk(f.w, deviceID) && BacklogValid(StreamOf(f.w.hub, deviceID))
    ensures var v := ViewOf(Move(f, Locked(OpSubscribe(deviceID, skip))), f.w.hub.nextSubscriberID + 1);
            ViewOk(v) && v.received == []
  {
    hide ViewOk, BacklogValid;
    var f', id := Move(f, Locked(OpSubscribe(deviceID, skip))), f.w.hub.nextSubscriberID + 1;
    var published, s := PublishedFor(f.w, deviceID), StreamOf(f.w.hub, deviceID);
    NewSubscriberParts(f, deviceID, skip);
    hide Move, ViewOf, StreamOf, PublishedFor, IndexRange;
    if skip {
      EmptyView(published);
    } else {
      NewView(published, s, SnapshotPlaces(f.w, deviceID, skip), Current(f', id));
    }
  }

  lemma NewSubscriberParts(f: Fine, deviceID: string, skip: bool)
    requires f.phase.Idle?
    ensures var f', id := Move(f, Locked(OpSubscribe(deviceID, skip))), f.w.hub.nextSubscriberID + 1;
            && ViewOf(f', id) == View(PublishedFor(f.w, deviceID), [],
                                      if skip then [] else StreamOf(f.w.hub, deviceID).backlog, [],
                                      SnapshotPlaces(f.w, deviceID, skip), Current(f', id), false, false)
            && (Current(f', id) ==> StreamOf(f.w.hub, deviceID).hasKeyFrame && !skip)
  {
    hide Subscribe, Ready, SnapshotOf, QueueOf, SnapshotPlaces, StreamOf;
    SubscribeParts(f.w.hub, deviceID, skip, f.w.hub.nextSubscriberID + 1);
    SubscribeReady(f.w.hub, deviceID, skip);
  }

  lemma OneLocked(f: Fine, op: Op, id: nat)
    requires FineInv(f) && f.phase.Idle? && WaitsForLock(op) && id in f.w.received
    ensures StepOk(f, Locked(op), id)
  {
    hide FineInv, StepOk;
    match op {
      case OpUnsubscribe(deviceID, k) => UnsubscribeOne(f, deviceID, k, id);
      case OpDiscontinue(deviceID) => DiscontinueOne(f, deviceID, id);
      case OpRemove(deviceID) => RemoveOne(f, deviceID, id);
      case OpSubscribe(deviceID, skip) =>
        InvParts(f);
        NextIsNew(f, f.w.hub.nextSubscriberID + 1);
        OldSubscriber(f, deviceID, skip, id);
    }
  }

  lemma LockedHubOk(f: Fine, op: Op)
    requires HubOk(f) && f.phase.Idle? && WaitsForLock(op)
    ensures HubOk(Move(f, Locked(op)))
    ensures Move(f, Locked(op)).w.received.Keys ==
            f.w.received.Keys + if op.OpSubscribe? then {f.w.hub.nextSubscriberID + 1} else {}
  {
    hide Valid, Unsubscribe, Discontinue, Remove, Subscribe, KeysOk, Full;
    match op {
      case OpUnsubscribe(deviceID, k) => UnsubscribeValid(f.w.hub, deviceID, k);
      case OpDiscontinue(deviceID) => DiscontinueValid(f.w.hub, deviceID);
      case OpRemove(deviceID) => RemoveValid(f.w.hub, deviceID);
      case OpSubscribe(deviceID, skip) => SubscribeValid(f.w.hub, deviceID, skip);
    }
    if op.OpSubscribe? {
      SubscribeKeys(f.w, op.watched, op.freshKeyFrame);
    } else {
      StepKeys(f.w, op);
    }
  }

  lemma LockedOne(f: Fine, op: Op, id: nat)
    requires FineInv(f) && Enabled(f, Locked(op))
    ensures StepOk(f, Locked(op), id)
  {
    hide FineInv, HubOk, OneOk, Whole, Move, BadTake;
    InvParts(f);
    if id in f.w.received {
      OneLocked(f, op, id);
    } else {
      NobodyWhole(f, id);
      LockedHubOk(f, op);
      if op.OpSubscribe? && id == f.w.hub.nextSubscriberID + 1 {
        NewSubscriber(f, op.watched, op.freshKeyFrame);
      } else {
        NobodyWhole(Move(f, Locked(op)), id);
      }
      NotATake(f, op, id);
    }
  }

  lemma NotATake(f: Fine, op: Op, id: nat)
    ensures !BadTake(f, Locked(op), id)
  {
  }

  lemma LockedBacklog(f: Fine, op: Op, d: string)
    requires FineInv(f) && f.phase.Idle? && WaitsForLock(op)
    ensures BacklogOk(Move(f, Locked(op)).w, d)
  {
    hide FineInv, BacklogValid, Unsubscribe, Discontinue, Remove, Subscribe, LockedPlaces, StreamOf;
    InvBacklogOf(f, d);
    match op {
      case OpUnsubscribe(deviceID, k) => OtherBacklogs(f.w.hub, deviceID, d, k, false);
      case OpDiscontinue(deviceID) => OtherBacklogs(f.w.hub, deviceID, d, 0, false);
      case OpRemove(deviceID) => OtherBacklogs(f.w.hub, deviceID, d, 0, false);
      case OpSubscribe(deviceID, skip) => OtherBacklogs(f.w.hub, deviceID, d, 0, skip);
    }
  }

  lemma LockedKeepsInv(f: Fine, op: Op)
    requires FineInv(f) && Enabled(f, Locked(op))
    ensures FineInv(Move(f, Locked(op))) && forall id :: StepOk(f, Locked(op), id)
  {
    hide FineInv, HubOk, StepOk, BacklogOk, Step, LockedPlaces;
    InvParts(f);
    LockedHubOk(f, op);
    forall id
      ensures StepOk(f, Locked(op), id)
    {
      LockedOne(f, op, id);
    }
    forall d
      ensures BacklogOk(Move(f, Locked(op)).w, d)
    {
      LockedBacklog(f, op, d);
    }
    InvFromSteps(f, Locked(op));
  }

  // ----- all runs

  lemma DisabledStep(f: Fine, a: Action)
    requires FineInv(f) && !Enabled(f, a)
    ensures FineInv(Move(f, a)) && forall id :: StepOk(f, a, id)
  {
    hide FineInv, OneOk, Whole;
    forall id
      ensures StepOk(f, a, id)
    {
      if id in f.w.received {
        InvOne(f, id);
      }
    }
  }

  lemma MoveKeepsInv(f: Fine, a: Action)
    requires FineInv(f)
    ensures FineInv(Move(f, a)) && forall id :: StepOk(f, a, id)
  {
    hide FineInv, StepOk, Move, Enabled;
    if !Enabled(f, a) {
      DisabledStep(f, a);
    } else {
      match a
      case Locked(op) => LockedKeepsInv(f, op);
      case Begin(frame) => BeginKeepsInv(f, frame);
      case Offer(id) => OfferKeepsInv(f, id);
      case Pop => PopKeepsInv(f);
      case EndDrain => EndDrainKeepsInv(f);
      case EndPublish => EndPublishKeepsInv(f);
      case Take(id) => TakeKeepsInv(f, id);
    }
  }

  /** In the run no frame but a key frame is received directly after a drain of the same queue took one. */
  predicate Undisturbed(f: Fine, actions: seq<Action>, id: nat)
    decreases |actions|
  {
    actions != [] ==> !BadTake(f, actions[0], id) && Undisturbed(Move(f, actions[0]), actions[1..], id)
  }

  lemma {:induction false} RunKeepsFineInv(f: Fine, actions: seq<Action>, id: nat)
    requires FineInv(f)
    ensures FineInv(Moves(f, actions))
    ensures Whole(Moves(f, actions), id) <==> Whole(f, id) && Undisturbed(f, actions, id)
    decreases |actions|
  {
    hide FineInv, Move, Whole, BadTake, OneOk;
    if actions != [] {
      MoveKeepsInv(f, actions[0]);
      assert StepOk(f, actions[0], id);
      RunKeepsFineInv(Move(f, actions[0]), actions[1..], id);
    }
  }

  lemma FreshInv(id: nat)
    ensures FineInv(FRESH) && Whole(FRESH, id)
  {
  }

  // ----- the results

  /** Wherever a run stops, half-way through a drain included, the hub's own invariant holds. */
  lemma EveryMoveValid(actions: seq<Action>)
    ensures Valid(Moves(FRESH, actions).w.hub)
  {
    hide Whole, Moves, PhaseOk, OneOk, BacklogOk, Valid;
    FreshInv(0);
    RunKeepsFineInv(FRESH, actions, 0);
  }

  /** The publish indices of the items received. */
  function ReceivedPlaces(f: Fine, id: nat): seq<int> {
    Before(PlaceOf(f, id), |ReceivedBy(f.w, id)|)
  }

  function DevicePublished(f: Fine, id: nat): seq<VideoFrame> {
    PublishedFor(f.w, DeviceOf(f.w, id))
  }

  lemma ViewParts(f: Fine, id: nat)
    requires id in f.w.received
    ensures ViewOf(f, id).received == f.w.received[id] && ViewOf(f, id).place == PlaceOf(f, id)
    ensures ViewOf(f, id).published == Offered(f, id) && ViewOf(f, id).draining == Drains(f.phase, id)
    ensures Offered(f, id) == DevicePublished(f, id) ||
            (DevicePublished(f, id) != [] && Offered(f, id) == DevicePublished(f, id)[..|DevicePublished(f, id)| - 1])
  {
    hide Current, QueueOf, SnapshotOf;
  }

  lemma ViewIs(f: Fine, id: nat)
    requires FineInv(f) && id in f.w.received
    ensures ViewOk(ViewOf(f, id)) && |f.w.received[id]| <= |PlaceOf(f, id)|
    ensures ReceivedPlaces(f, id) == PlaceOf(f, id)[..|f.w.received[id]|]
  {
    hide FineInv, ViewOf, DeviceOk, Placed, PendingOk, DamageMarked;
    InvOne(f, id);
    ViewParts(f, id);
  }

  lemma ReceivedPlaced(f: Fine, id: nat)
    requires FineInv(f) && id in f.w.received
    ensures Placed(DevicePublished(f, id), f.w.received[id], ReceivedPlaces(f, id))
    ensures Whole(f, id) <==> Follows(DevicePublished(f, id), f.w.received[id], ReceivedPlaces(f, id))
  {
    hide FineInv, Placed, Follows, ViewOf, DevicePublished, Offered, ReceivedWhole, PendingOk, DamageMarked;
    ViewIs(f, id);
    ViewParts(f, id);
    ReceivedOfView(ViewOf(f, id), DevicePublished(f, id));
  }

  /** In every run a subscriber receives frames in publish order, each at most once, and markers. */
  lemma AlwaysInPublishOrder(actions: seq<Action>, id: nat)
    requires id in Moves(FRESH, actions).w.received
    ensures var f := Moves(FRESH, actions);
            Placed(DevicePublished(f, id), f.w.received[id], ReceivedPlaces(f, id))
  {
    hide FineInv, Moves, Placed;
    FreshInv(id);
    RunKeepsFineInv(FRESH, actions, id);
    ReceivedPlaced(Moves(FRESH, actions), id);
  }

  /** In a run what a subscriber received is decodable exactly if no drain disturbed it. */
  lemma DecodableIffUndisturbed(actions: seq<Action>, id: nat)
    requires id in Moves(FRESH, actions).w.received
    ensures var f := Moves(FRESH, actions);
            Follows(DevicePublished(f, id), f.w.received[id], ReceivedPlaces(f, id)) <==>
            Undisturbed(FRESH, actions, id)
  {
    hide FineInv, Moves, Follows, Undisturbed, Whole;
    FreshInv(id);
    RunKeepsFineInv(FRESH, actions, id);
    ReceivedPlaced(Moves(FRESH, actions), id);
  }

  /** A frame can be told from every other frame published and from a marker. */
  ghost predicate Distinct(published: seq<VideoFrame>) {
    && (forall i, j :: 0 <= i < j < |published| ==> published[i] != published[j])
    && (forall i :: 0 <= i < |published| ==> published[i] != Marker(published[i].deviceID))
  }

  lemma OnlyPlaces(published: seq<VideoFrame>, items: seq<VideoFrame>, place: seq<int>, other: seq<int>)
    requires Distinct(published) && Placed(published, items, place) && Placed(published, items, other)
    ensures place == other
  {
    forall i | 0 <= i < |place|
      ensures place[i] == other[i]
    {
      assert place[i] >= 0 ==> published[place[i]] == items[i];
      assert other[i] >= 0 ==> published[other[i]] == items[i];
    }
  }

  /** The same on the frames alone, when no two of those published are the same. */
  lemma DecodableOnSight(actions: seq<Action>, id: nat)
    requires id in Moves(FRESH, actions).w.received && Distinct(DevicePublished(Moves(FRESH, actions), id))
    ensures var f := Moves(FRESH, actions);
            Decodable(DevicePublished(f, id), f.w.received[id]) <==> Undisturbed(FRESH, actions, id)
  {
    hide Moves, Placed, Undisturbed, Distinct, DevicePublished, ReceivedPlaces;
    var f := Moves(FRESH, actions);
    var published := DevicePublished(f, id);
    AlwaysInPublishOrder(actions, id);
    DecodableIffUndisturbed(actions, id);
    if place :| Follows(published, f.w.received[id], place) {
      OnlyPlaces(published, f.w.received[id], place, ReceivedPlaces(f, id));
    }
  }

  /**
   Unless its queue is being drained, a subscriber that received a frame without the one before it
   has received a marker since, or has one pending.
   */
  lemma DamageIsMarked(actions: seq<Action>, id: nat, i: nat)
    requires var f := Moves(FRESH, actions);
             && id in f.w.received && i < |f.w.received[id]| && !Drains(f.phase, id)
             && |ReceivedPlaces(f, id)| == |f.w.received[id]| && ReceivedPlaces(f, id)[i] >= 0
             && !DecodableAt(f.w.received[id], ReceivedPlaces(f, id), i)
    ensures MarkedAfter(PlaceOf(Moves(FRESH, actions), id), i)
  {
    var f := Moves(FRESH, actions);
    hide Whole, Moves, ViewOk, ViewOf, DecodableAt, MarkedAfter;
    FreshInv(id);
    RunKeepsFineInv(FRESH, actions, id);
    hide FineInv, ReceivedPlaces, Drains, PlaceOf;
    ViewIs(f, id);
    ViewParts(f, id);
    ReceivedDamage(ViewOf(f, id), i);
  }

  /** After every step the subscriber is ready and its queue is not being emptied. */
  predicate ReadyThroughout(f: Fine, actions: seq<Action>, id: nat)
    decreases |actions|
  {
    actions != [] ==> StaysReady(Move(f, actions[0]), id) && ReadyThroughout(Move(f, actions[0]), actions[1..], id)
  }

  lemma {:induction false} ReadyRunGains(f: Fine, actions: seq<Action>, id: nat)
    requires FineInv(f) && id in f.w.received && ReadyThroughout(f, actions, id)
    ensures Gained(ViewOf(f, id), ViewOf(Moves(f, actions), id))
    decreases |actions|
  {
    hide FineInv, Move, ViewOf, Gained, Whole, OneOk, StaysReady, BadTake;
    if actions == [] {
      NothingNew(ViewOf(f, id), ViewOf(f, id));
    } else {
      var f1 := Move(f, actions[0]);
      MoveKeepsInv(f, actions[0]);
      assert StepOk(f, actions[0], id);
      ReadyRunGains(f1, actions[1..], id);
      GainedTransitive(ViewOf(f, id), ViewOf(f1, id), ViewOf(Moves(f, actions), id));
    }
  }

  /**
   Over any part of a run in which a subscriber stays ready, what it received and has pending grows by
   exactly the frames offered to it, in order.
   */
  lemma ReadyRunLosesNothing(before: seq<Action>, actions: seq<Action>, id: nat)
    requires id in Moves(FRESH, before).w.received && ReadyThroughout(Moves(FRESH, before), actions, id)
    ensures Gained(ViewOf(Moves(FRESH, before), id), ViewOf(Moves(Moves(FRESH, before), actions), id))
  {
    hide FineInv, Moves, ViewOf, Gained, Whole, ReadyThroughout;
    FreshInv(id);
    RunKeepsFineInv(FRESH, before, id);
    ReadyRunGains(Moves(FRESH, before), actions, id);
  }
}
