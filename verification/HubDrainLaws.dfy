/**
 What holds over every run of the hub whose publishes are taken apart, and exactly when what a
 subscriber receives can be decoded.
 */
module HubDrainLaws {
  import opened Frames
  import opened HubRuns
  import opened HubState
  import opened HubViews
  import opened HubDrains

  lemma RecordedReady(s: Stream, frame: VideoFrame, id: nat)
    requires id in s.ready
    ensures id in Recorded(s, frame).ready
    ensures Recorded(s, frame).ready[id] ==> s.ready[id] || frame.keyFrame
  {
  }

  /** Adding a frame to a backlog that is a tail of the published frames, or restarting it there. */
  lemma RecordedBacklog(published: seq<VideoFrame>, s: Stream, frame: VideoFrame)
    requires BacklogValid(s) && IsTail(s.backlog, published)
    ensures IsTail(Recorded(s, frame).backlog, published + [frame])
  {
    assert s.backlog + [frame] == (published + [frame])[|published| - |s.backlog|..];
    assert [] + [frame] == (published + [frame])[|published|..];
  }

  // ----- the hub's own invariant

  lemma WithQueueValid(h: Hub, id: nat, queue: seq<VideoFrame>)
    requires Valid(h) && id in h.channels && |queue| <= SUBSCRIBER_BUFFER
    ensures Valid(WithQueue(h, id, queue))
  {
    forall k | k in h.channels
      ensures |WithQueue(h, id, queue).channels[k].queue| <= SUBSCRIBER_BUFFER
    {
      assert ChannelValid(h, k);
    }
    SameSubscriptions(h, WithQueue(h, id, queue));
  }

  lemma QueuesBounded(h: Hub, id: nat)
    requires Valid(h) && id in h.channels
    ensures |h.channels[id].queue| <= SUBSCRIBER_BUFFER
  {
    assert ChannelValid(h, id);
  }

  lemma NotReadyValid(h: Hub, deviceID: string, id: nat)
    requires Valid(h) && Subscribed(h, deviceID, id)
    ensures Valid(NotReady(h, deviceID, id))
  {
    forall k | k in h.channels
      ensures |h.channels[k].queue| <= SUBSCRIBER_BUFFER
    {
      QueuesBounded(h, k);
    }
    SameSubscriptions(h, NotReady(h, deviceID, id));
  }

  lemma BegunValid(h: Hub, frame: VideoFrame)
    requires Valid(h)
    ensures Valid(Begun(h, frame))
  {
    forall k | k in h.channels
      ensures |h.channels[k].queue| <= SUBSCRIBER_BUFFER
    {
      QueuesBounded(h, k);
    }
    assert BacklogValid(StreamOf(h, frame.deviceID));
    RecordedValid(StreamOf(h, frame.deviceID), frame);
    hide Recorded;
    SameSubscriptions(h, Begun(h, frame));
  }

  // ----- the invariant from its parts, and its parts from it

  lemma InvParts(f: Fine)
    requires FineInv(f)
    ensures HubOk(f) && PhaseOk(f)
  {
    hide HubOk, PhaseOk, OneOk, BacklogOk;
  }

  lemma InvOne(f: Fine, id: nat)
    requires FineInv(f) && id in f.w.received
    ensures OneOk(f, id) && id in f.w.hub.channels && id in f.w.hub.snapshots && id in f.w.device && id in f.place
  {
    hide Valid, PhaseOk, OneOk, BacklogOk;
  }

  lemma InvBacklogOf(f: Fine, d: string)
    requires FineInv(f)
    ensures BacklogOk(f.w, d) && BacklogValid(StreamOf(f.w.hub, d))
  {
    hide ChannelValid, PhaseOk, OneOk, BacklogOk;
  }

  lemma MakeFineInv(f: Fine)
    requires HubOk(f) && PhaseOk(f)
    requires forall id :: id in f.w.received ==> OneOk(f, id)
    requires forall d :: BacklogOk(f.w, d)
    ensures FineInv(f)
  {
    hide HubOk, PhaseOk, OneOk, BacklogOk;
  }

  /** A subscriber has a channel, and what it received is recorded. */
  lemma SubscribedHasChannel(f: Fine, d: string, id: nat)
    requires HubOk(f) && Subscribed(f.w.hub, d, id)
    ensures id in f.w.hub.channels && id in f.w.hub.snapshots && id in f.w.received && id in f.place
  {
    hide BacklogValid, ChannelValid;
  }

  lemma Kept(f: Fine, f': Fine, id: nat)
    requires id in f'.w.received && DeviceOf(f'.w, id) == DeviceOf(f.w, id)
    requires ViewOf(f', id) == ViewOf(f, id) || Gained(ViewOf(f, id), ViewOf(f', id)) || !StaysReady(f', id)
    ensures KeptIfReady(f, f', id)
  {
    hide ViewOf, StaysReady, ItemsOf;
    NothingNew(ViewOf(f, id), ViewOf(f', id));
  }

  // ----- offering the frame

  lemma SameStreams(h: Hub, h': Hub, d: string, id: nat)
    requires h'.streams == h.streams
    ensures Ready(h', d, id) == Ready(h, d, id) && Subscribed(h', d, id) == Subscribed(h, d, id)
    ensures StreamOf(h', d) == StreamOf(h, d)
  {
  }

  /** A step that leaves alone all that the view of a subscriber is made of. */
  lemma ViewUnchanged(f: Fine, f': Fine, id: nat)
    requires f'.w.published == f.w.published && f'.w.device == f.w.device && f'.w.received == f.w.received
    requires f'.w.hub.snapshots == f.w.hub.snapshots && PlaceOf(f', id) == PlaceOf(f, id)
    requires QueueOf(f'.w.hub.channels, id) == QueueOf(f.w.hub.channels, id)
    requires Ready(f'.w.hub, DeviceOf(f.w, id), id) == Ready(f.w.hub, DeviceOf(f.w, id), id)
    requires Awaits(f'.phase, id) == Awaits(f.phase, id) && (Awaits(f.phase, id) ==> f'.phase.frame == f.phase.frame)
    requires !Drains(f.phase, id) && !Drains(f'.phase, id)
    ensures ViewOf(f', id) == ViewOf(f, id)
  {
    hide QueueOf, Ready;
  }

  lemma OffersElsewhere(f: Fine, k: nat, id: nat)
    requires Enabled(f, Offer(k)) && id != k
    ensures var f' := Offers(f, k);
            && f'.w.hub.snapshots == f.w.hub.snapshots && PlaceOf(f', id) == PlaceOf(f, id)
            && QueueOf(f'.w.hub.channels, id) == QueueOf(f.w.hub.channels, id)
            && Awaits(f'.phase, id) == Awaits(f.phase, id) && f'.phase.frame == f.phase.frame
            && !Drains(f'.phase, id)
  {
    hide Full, Ready;
  }

  lemma OfferOther(f: Fine, k: nat, id: nat)
    requires Enabled(f, Offer(k)) && id != k
    ensures ViewOf(Offers(f, k), id) == ViewOf(f, id)
  {
    hide ViewOf, Full, Ready, QueueOf, WithQueue, Offers, DeviceOf;
    OffersSame(f, k);
    OffersElsewhere(f, k, id);
    SameStreams(f.w.hub, Offers(f, k).w.hub, DeviceOf(f.w, id), id);
    ViewUnchanged(f, Offers(f, k), id);
  }

  lemma OtherQueue(h: Hub, k: nat, queue: seq<VideoFrame>, id: nat)
    ensures QueueOf(WithQueue(h, k, queue).channels, id) == if id == k then queue else QueueOf(h.channels, id)
    ensures var h' := WithQueue(h, k, queue); h'.streams == h.streams && h'.snapshots == h.snapshots
    ensures WithQueue(h, k, queue).channels.Keys == h.channels.Keys + {k}
  {
  }

  lemma OfferView(f: Fine, id: nat)
    requires HubOk(f) && PhaseOk(f) && Enabled(f, Offer(id)) && id in f.w.received && DeviceOk(f.w, id)
    ensures var frame, v := f.phase.frame, ViewOf(f, id);
            && (v.current || frame.keyFrame || !Ready(f.w.hub, frame.deviceID, id))
            && (v.current ==> Ready(f.w.hub, frame.deviceID, id))
            && !v.draining
            && ViewOf(Offers(f, id), id) ==
               if !Ready(f.w.hub, frame.deviceID, id) then Missed(v, frame)
               else if Full(f.w.hub, id) then DrainBegun(v, frame)
               else Appended(v, frame)
  {
    hide Valid, Full;
    var d := f.phase.frame.deviceID;
    var published := PublishedFor(f.w, d);
    assert Subscribed(f.w.hub, d, id);
    assert published == published[..|published| - 1] + [f.phase.frame];
  }

  lemma OfferReady(f: Fine, id: nat)
    requires PhaseOk(f) && Enabled(f, Offer(id)) && DeviceOk(f.w, id)
    ensures StaysReady(Offers(f, id), id) ==> Ready(f.w.hub, f.phase.frame.deviceID, id) && !Full(f.w.hub, id)
  {
    hide Full, WithQueue, Ready;
    assert Subscribed(f.w.hub, f.phase.frame.deviceID, id);
    OffersSame(f, id);
    SameStreams(f.w.hub, Offers(f, id).w.hub, f.phase.frame.deviceID, id);
  }

  lemma OfferOne(f: Fine, k: nat, id: nat)
    requires FineInv(f) && Enabled(f, Offer(k))
    ensures StepOk(f, Offer(k), id)
  {
    hide FineInv, ViewOk, ViewOf, HubOk, PhaseOk, Offers, ReceivedWhole, StaysReady, KeptIfReady, Gained;
    InvParts(f);
    OffersSame(f, k);
    if id in f.w.received {
      InvOne(f, id);
      SameDevice(f, Offers(f, k), id);
      if id != k {
        OfferOther(f, k, id);
      } else {
        OfferView(f, id);
        var v, frame := ViewOf(f, id), f.phase.frame;
        if !Ready(f.w.hub, frame.deviceID, id) {
          MissedOk(v, frame);
        } else if Full(f.w.hub, id) {
          DrainBegunOk(v, frame);
        } else {
          AppendedOk(v, frame);
        }
        OfferReady(f, id);
      }
      Kept(f, Offers(f, k), id);
    } else {
      OffersHubOk(f, k);
      NobodyWhole(f, id);
      NobodyWhole(Offers(f, k), id);
    }
  }

  /** Nothing is damaged for an ID that nobody has. */
  lemma NobodyWhole(f: Fine, id: nat)
    requires HubOk(f) && id !in f.w.received
    ensures Whole(f, id)
  {
  }

  lemma SameDevice(f: Fine, f': Fine, id: nat)
    requires DeviceOk(f.w, id) && f'.w.hub.streams == f.w.hub.streams && f'.w.device == f.w.device
    ensures DeviceOk(f'.w, id)
  {
    forall d | Subscribed(f'.w.hub, d, id)
      ensures d == DeviceOf(f'.w, id)
    {
      SameStreams(f.w.hub, f'.w.hub, d, id);
    }
  }

  lemma OffersSame(f: Fine, k: nat)
    requires Enabled(f, Offer(k))
    ensures var f' := Offers(f, k);
            && f'.w.received == f.w.received && f'.w.device == f.w.device && f'.w.published == f.w.published
            && f'.w.hub.streams == f.w.hub.streams
  {
  }

  lemma OffersHubOk(f: Fine, k: nat)
    requires HubOk(f) && PhaseOk(f) && Enabled(f, Offer(k))
    ensures HubOk(Offers(f, k))
  {
    hide Valid, Ready, WithQueue;
    assert Subscribed(f.w.hub, f.phase.frame.deviceID, k);
    SubscribedHasChannel(f, f.phase.frame.deviceID, k);
    if !Full(f.w.hub, k) {
      var queue := QueueOf(f.w.hub.channels, k) + [f.phase.frame];
      WithQueueValid(f.w.hub, k, queue);
      OtherQueue(f.w.hub, k, queue, k);
    }
  }

  lemma OffersPhaseOk(f: Fine, k: nat)
    requires PhaseOk(f) && Enabled(f, Offer(k))
    ensures PhaseOk(Offers(f, k))
  {
    hide Ready, Full, WithQueue;
    var d, f' := f.phase.frame.deviceID, Offers(f, k);
    OffersSame(f, k);
    SameStreams(f.w.hub, f'.w.hub, d, k);
    assert Subscribed(f.w.hub, d, k);
    assert f'.phase.frame == f.phase.frame && f'.phase.todo == f.phase.todo - {k};
    forall id | id in f.phase.todo
      ensures Subscribed(f'.w.hub, d, id)
    {
      SameStreams(f.w.hub, f'.w.hub, d, id);
    }
  }

  lemma SameStreamsBacklog(w: World, w': World, d: string)
    requires BacklogOk(w, d) && w'.hub.streams == w.hub.streams && w'.published == w.published
    ensures BacklogOk(w', d)
  {
  }

  /** The invariant after a step that publishes nothing and leaves the streams alone, from what it means for each. */
  lemma InvFromSteps(f: Fine, a: Action)
    requires FineInv(f) && HubOk(Move(f, a)) && PhaseOk(Move(f, a))
    requires forall id :: StepOk(f, a, id)
    requires forall d :: BacklogOk(Move(f, a).w, d)
    ensures FineInv(Move(f, a))
  {
    hide HubOk, PhaseOk, OneOk, BacklogOk, Whole, BadTake, Move, FineInv;
    forall id | id in Move(f, a).w.received
      ensures OneOk(Move(f, a), id)
    {
      assert StepOk(f, a, id);
    }
    MakeFineInv(Move(f, a));
  }

  lemma OfferKeepsInv(f: Fine, k: nat)
    requires FineInv(f) && Enabled(f, Offer(k))
    ensures FineInv(Move(f, Offer(k))) && forall id :: StepOk(f, Offer(k), id)
  {
    hide FineInv, HubOk, PhaseOk, BacklogOk, StepOk, Offers;
    InvParts(f);
    OffersHubOk(f, k);
    OffersPhaseOk(f, k);
    OffersSame(f, k);
    forall id
      ensures StepOk(f, Offer(k), id)
    {
      OfferOne(f, k, id);
    }
    forall d
      ensures BacklogOk(Offers(f, k).w, d)
    {
      InvBacklogOf(f, d);
      SameStreamsBacklog(f.w, Offers(f, k).w, d);
    }
    InvFromSteps(f, Offer(k));
  }

  // ----- a drain taking the head of a queue

  lemma PopsSame(f: Fine)
    requires Enabled(f, Pop)
    ensures var f' := Pops(f);
            && f'.w.received == f.w.received && f'.w.device == f.w.device && f'.w.published == f.w.published
            && f'.w.hub.streams == f.w.hub.streams
  {
  }

  lemma PopsHubOk(f: Fine)
    requires HubOk(f) && PhaseOk(f) && Enabled(f, Pop)
    ensures HubOk(Pops(f))
  {
    hide Valid, WithQueue;
    var k := f.phase.id;
    SubscribedHasChannel(f, f.phase.frame.deviceID, k);
    QueuesBounded(f.w.hub, k);
    var queue := QueueOf(f.w.hub.channels, k)[1..];
    WithQueueValid(f.w.hub, k, queue);
    OtherQueue(f.w.hub, k, queue, k);
  }

  lemma PopsPhaseOk(f: Fine)
    requires PhaseOk(f) && Enabled(f, Pop)
    ensures PhaseOk(Pops(f))
  {
    hide WithQueue;
    var d, f' := f.phase.frame.deviceID, Pops(f);
    PopsSame(f);
    SameStreams(f.w.hub, f'.w.hub, d, f.phase.id);
    forall id | id in f.phase.todo
      ensures Subscribed(f'.w.hub, d, id)
    {
      SameStreams(f.w.hub, f'.w.hub, d, id);
    }
  }

  lemma PopView(f: Fine, id: nat)
    requires Enabled(f, Pop) && Sized(ViewOf(f, id))
    ensures ViewOf(Pops(f), id) == if id == f.phase.id then HeadPopped(ViewOf(f, id)) else ViewOf(f, id)
  {
    hide WithQueue, QueueOf, Ready;
    var k, f' := f.phase.id, Pops(f);
    OtherQueue(f.w.hub, k, QueueOf(f.w.hub.channels, k)[1..], id);
    SameStreams(f.w.hub, f'.w.hub, DeviceOf(f.w, id), id);
  }

  lemma PopOne(f: Fine, id: nat)
    requires FineInv(f) && Enabled(f, Pop)
    ensures StepOk(f, Pop, id)
  {
    hide FineInv, ViewOf, HubOk, PhaseOk, Pops, ReceivedWhole, Placed, PendingOk, DamageMarked;
    hide StaysReady, KeptIfReady, Gained;
    InvParts(f);
    PopsSame(f);
    if id in f.w.received {
      InvOne(f, id);
      SameDevice(f, Pops(f), id);
      PopView(f, id);
      if id == f.phase.id {
        DrainingView(f);
        HeadPoppedOk(ViewOf(f, id));
      }
      Kept(f, Pops(f), id);
    } else {
      PopsHubOk(f);
      NobodyWhole(f, id);
      NobodyWhole(Pops(f), id);
    }
  }

  lemma DrainingView(f: Fine)
    requires f.phase.Draining?
    ensures var v := ViewOf(f, f.phase.id);
            v.draining && v.queue == QueueOf(f.w.hub.channels, f.phase.id)
    ensures Enabled(f, Pop) ==> !StaysReady(Pops(f), f.phase.id)
  {
  }

  lemma PopKeepsInv(f: Fine)
    requires FineInv(f) && Enabled(f, Pop)
    ensures FineInv(Move(f, Pop)) && forall id :: StepOk(f, Pop, id)
  {
    hide FineInv, HubOk, PhaseOk, BacklogOk, StepOk, Pops;
    InvParts(f);
    PopsHubOk(f);
    PopsPhaseOk(f);
    PopsSame(f);
    forall id
      ensures StepOk(f, Pop, id)
    {
      PopOne(f, id);
    }
    forall d
      ensures BacklogOk(Pops(f).w, d)
    {
      InvBacklogOf(f, d);
      SameStreamsBacklog(f.w, Pops(f).w, d);
    }
    InvFromSteps(f, Pop);
  }

  // ----- the end of a drain

  lemma NotReadySame(h: Hub, deviceID: string, k: nat, d: string, id: nat)
    requires Subscribed(h, deviceID, k)
    ensures var h' := NotReady(h, deviceID, k);
            && (Subscribed(h', d, id) <==> Subscribed(h, d, id))
            && (Ready(h', d, id) <==> Ready(h, d, id) && !(d == deviceID && id == k))
            && StreamOf(h', d).backlog == StreamOf(h, d).backlog
            && h'.channels == h.channels && h'.snapshots == h.snapshots
  {
  }

  lemma EndsDrainHub(f: Fine, d: string, id: nat)
    requires PhaseOk(f) && f.phase.Draining?
    ensures var h, h', k := f.w.hub, EndsDrain(f).w.hub, f.phase.id;
            && (Subscribed(h', d, id) <==> Subscribed(h, d, id))
            && (Ready(h', d, id) <==> Ready(h, d, id) && !(d == f.phase.frame.deviceID && id == k))
            && StreamOf(h', d).backlog == StreamOf(h, d).backlog
            && h'.snapshots == h.snapshots && h'.channels.Keys == h.channels.Keys + {k}
            && QueueOf(h'.channels, id) == if id == k then [Marker(f.phase.frame.deviceID)] else QueueOf(h.channels, id)
  {
    hide WithQueue, NotReady, QueueOf, Ready, Subscribed, StreamOf;
    var e, k := f.phase.frame.deviceID, f.phase.id;
    var h1 := WithQueue(f.w.hub, k, [Marker(e)]);
    OtherQueue(f.w.hub, k, [Marker(e)], id);
    SameStreams(f.w.hub, h1, d, id);
    SameStreams(f.w.hub, h1, e, k);
    NotReadySame(h1, e, k, d, id);
  }

  lemma EndsDrainHubOk(f: Fine)
    requires HubOk(f) && PhaseOk(f) && f.phase.Draining?
    ensures HubOk(EndsDrain(f))
  {
    hide Valid, WithQueue, NotReady, Subscribed;
    var e, k := f.phase.frame.deviceID, f.phase.id;
    var h1 := WithQueue(f.w.hub, k, [Marker(e)]);
    SubscribedHasChannel(f, e, k);
    WithQueueValid(f.w.hub, k, [Marker(e)]);
    OtherQueue(f.w.hub, k, [Marker(e)], k);
    SameStreams(f.w.hub, h1, e, k);
    NotReadyValid(h1, e, k);
    NotReadySame(h1, e, k, e, k);
  }

  lemma EndsDrainSame(f: Fine)
    requires f.phase.Draining?
    ensures var w' := EndsDrain(f).w;
            w'.received == f.w.received && w'.device == f.w.device && w'.published == f.w.published
  {
  }

  lemma EndsDrainPhaseOk(f: Fine)
    requires PhaseOk(f) && f.phase.Draining?
    ensures PhaseOk(EndsDrain(f))
  {
    hide WithQueue, NotReady, Subscribed;
    forall id | id in f.phase.todo
      ensures Subscribed(EndsDrain(f).w.hub, f.phase.frame.deviceID, id)
    {
      EndsDrainHub(f, f.phase.frame.deviceID, id);
    }
  }

  lemma EndsDrainView(f: Fine, id: nat)
    requires PhaseOk(f) && Enabled(f, EndDrain) && Sized(ViewOf(f, id)) && DeviceOk(f.w, id)
    ensures ViewOf(EndsDrain(f), id) ==
            if id == f.phase.id then DrainEnded(ViewOf(f, id), Marker(f.phase.frame.deviceID)) else ViewOf(f, id)
  {
    hide WithQueue, NotReady, QueueOf, Ready, Subscribed;
    EndsDrainHub(f, DeviceOf(f.w, id), id);
  }

  lemma EndDrainOne(f: Fine, id: nat)
    requires FineInv(f) && Enabled(f, EndDrain)
    ensures StepOk(f, EndDrain, id)
  {
    hide FineInv, ViewOf, HubOk, EndsDrain, ReceivedWhole, Placed, PendingOk, DamageMarked;
    hide KeptIfReady, Gained, Subscribed, Ready;
    InvParts(f);
    EndsDrainSame(f);
    if id in f.w.received {
      InvOne(f, id);
      forall d | Subscribed(EndsDrain(f).w.hub, d, id)
        ensures d == DeviceOf(f.w, id)
      {
        EndsDrainHub(f, d, id);
      }
      EndsDrainView(f, id);
      if id == f.phase.id {
        DrainingView(f);
        DrainEndedOk(ViewOf(f, id), f.phase.frame.deviceID);
        EndsDrainHub(f, DeviceOf(f.w, id), id);
        assert Subscribed(f.w.hub, f.phase.frame.deviceID, id);
      }
      Kept(f, EndsDrain(f), id);
    } else {
      EndsDrainHubOk(f);
      NobodyWhole(f, id);
      NobodyWhole(EndsDrain(f), id);
    }
  }

  lemma EndDrainKeepsInv(f: Fine)
    requires FineInv(f) && Enabled(f, EndDrain)
    ensures FineInv(Move(f, EndDrain)) && forall id :: StepOk(f, EndDrain, id)
  {
    hide FineInv, HubOk, PhaseOk, StepOk, EndsDrain, StreamOf;
    InvParts(f);
    EndsDrainHubOk(f);
    EndsDrainPhaseOk(f);
    EndsDrainSame(f);
    forall id
      ensures StepOk(f, EndDrain, id)
    {
      EndDrainOne(f, id);
    }
    forall d
      ensures BacklogOk(EndsDrain(f).w, d)
    {
      InvBacklogOf(f, d);
      EndsDrainHub(f, d, f.phase.id);
    }
    InvFromSteps(f, EndDrain);
  }

  // ----- the end of a publish

  lemma SameHubOk(f: Fine, f': Fine)
    requires HubOk(f) && f'.w == f.w && f'.place == f.place
    ensures HubOk(f')
  {
  }

  lemma EndPublishKeepsInv(f: Fine)
    requires FineInv(f) && Enabled(f, EndPublish)
    ensures FineInv(Move(f, EndPublish)) && forall id :: StepOk(f, EndPublish, id)
  {
    hide FineInv, HubOk, BacklogOk, ViewOf, ViewOk, ReceivedWhole, StaysReady, KeptIfReady, Gained;
    InvParts(f);
    var f' := Move(f, EndPublish);
    SameHubOk(f, f');
    forall id
      ensures StepOk(f, EndPublish, id)
    {
      ViewUnchanged(f, f', id);
      if id in f.w.received {
        InvOne(f, id);
        Kept(f, f', id);
      }
    }
    forall d
      ensures BacklogOk(f'.w, d)
    {
      InvBacklogOf(f, d);
    }
    InvFromSteps(f, EndPublish);
  }

  // ----- the start of a publish

  lemma BegunSame(h: Hub, frame: VideoFrame, d: string, id: nat)
    ensures var h' := Begun(h, frame);
            && (Subscribed(h', d, id) <==> Subscribed(h, d, id))
            && (Ready(h', d, id) ==> Ready(h, d, id) || (d == frame.deviceID && frame.keyFrame))
            && (d != frame.deviceID ==> Ready(h', d, id) == Ready(h, d, id) && StreamOf(h', d) == StreamOf(h, d))
            && h'.channels == h.channels && h'.snapshots == h.snapshots
            && StreamOf(h', frame.deviceID) == Recorded(StreamOf(h, frame.deviceID), frame)
  {
    if id in StreamOf(h, frame.deviceID).ready {
      RecordedReady(StreamOf(h, frame.deviceID), frame, id);
    }
    hide Recorded;
  }

  lemma BeginsPublished(f: Fine, frame: VideoFrame, d: string)
    ensures PublishedFor(Begins(f, frame).w, d) ==
            PublishedFor(f.w, d) + if d == frame.deviceID then [frame] else []
    ensures var w' := Begins(f, frame).w; w'.received == f.w.received && w'.device == f.w.device
  {
    assert PublishedFor(f.w, d) + [] == PublishedFor(f.w, d);
  }

  lemma BeginsHubOk(f: Fine, frame: VideoFrame)
    requires HubOk(f)
    ensures HubOk(Begins(f, frame))
  {
    hide Valid, Begun;
    BegunValid(f.w.hub, frame);
    BegunSame(f.w.hub, frame, "", 0);
  }

  lemma BeginsPhaseOk(f: Fine, frame: VideoFrame)
    requires f.phase.Idle?
    ensures PhaseOk(Begins(f, frame))
  {
    hide Begun;
    var f' := Begins(f, frame);
    BeginsPublished(f, frame, frame.deviceID);
    forall id | id in f'.phase.todo
      ensures Subscribed(f'.w.hub, frame.deviceID, id)
    {
      BegunSame(f.w.hub, frame, frame.deviceID, id);
    }
  }

  lemma BeginView(f: Fine, frame: VideoFrame, id: nat)
    requires f.phase.Idle? && DeviceOk(f.w, id)
    ensures var v, v' := ViewOf(f, id), ViewOf(Begins(f, frame), id);
            && (v'.current ==> v.current)
            && (v' == v.(current := v'.current) ||
                (!v.current && !v'.current && v' == Missed(v, frame) && !StaysReady(Begins(f, frame), id)))
  {
    hide Begun, QueueOf;
    var d, f' := DeviceOf(f.w, id), Begins(f, frame);
    BegunSame(f.w.hub, frame, d, id);
    BeginsPublished(f, frame, d);
    assert Awaits(f'.phase, id) <==> Subscribed(f.w.hub, frame.deviceID, id);
    assert (PublishedFor(f.w, d) + [frame])[..|PublishedFor(f.w, d)|] == PublishedFor(f.w, d);
    assert PublishedFor(f.w, d) + [] == PublishedFor(f.w, d);
  }

  /** Being told to wait changes nothing else about a subscriber. */
  lemma QuietOk(v: View, current: bool)
    requires ViewOk(v) && (current ==> v.current)
    ensures ViewOk(v.(current := current)) && Gained(v, v.(current := current))
    ensures ReceivedWhole(v.(current := current)) <==> ReceivedWhole(v)
  {
    hide Placed, PendingOk, DamageMarked, WholeUpTo;
    NothingNew(v, v.(current := current));
  }

  lemma BeginOne(f: Fine, frame: VideoFrame, id: nat)
    requires FineInv(f) && Enabled(f, Begin(frame))
    ensures StepOk(f, Begin(frame), id)
  {
    hide FineInv, ViewOf, HubOk, Begins, ReceivedWhole, Placed, PendingOk, DamageMarked;
    hide StaysReady, KeptIfReady, Gained;
    InvParts(f);
    BeginsPublished(f, frame, frame.deviceID);
    if id in f.w.received {
      InvOne(f, id);
      BeginsDevice(f, frame, id);
      BeginView(f, frame, id);
      var v, v' := ViewOf(f, id), ViewOf(Begins(f, frame), id);
      if v' == v.(current := v'.current) {
        QuietOk(v, v'.current);
      } else {
        MissedOk(v, frame);
      }
      Kept(f, Begins(f, frame), id);
    } else {
      BeginsHubOk(f, frame);
      NobodyWhole(f, id);
      NobodyWhole(Begins(f, frame), id);
    }
  }

  lemma BeginsDevice(f: Fine, frame: VideoFrame, id: nat)
    requires DeviceOk(f.w, id)
    ensures DeviceOk(Begins(f, frame).w, id)
  {
    hide Begun;
    forall d | Subscribed(Begins(f, frame).w.hub, d, id)
      ensures d == DeviceOf(f.w, id)
    {
      BegunSame(f.w.hub, frame, d, id);
    }
  }

  lemma BeginsBacklog(f: Fine, frame: VideoFrame, d: string)
    requires BacklogOk(f.w, d) && BacklogValid(StreamOf(f.w.hub, d))
    ensures BacklogOk(Begins(f, frame).w, d)
  {
    hide Begun, Recorded, BacklogValid, IsTail, StreamOf;
    BegunSame(f.w.hub, frame, d, 0);
    BeginsPublished(f, frame, d);
    if d == frame.deviceID {
      RecordedBacklog(PublishedFor(f.w, d), StreamOf(f.w.hub, d), frame);
    } else {
      assert PublishedFor(f.w, d) + [] == PublishedFor(f.w, d);
    }
  }

  lemma BeginKeepsInv(f: Fine, frame: VideoFrame)
    requires FineInv(f) && Enabled(f, Begin(frame))
    ensures FineInv(Move(f, Begin(frame))) && forall id :: StepOk(f, Begin(frame), id)
  {
    hide FineInv, HubOk, PhaseOk, StepOk, Begins, BacklogOk;
    InvParts(f);
    BeginsHubOk(f, frame);
    BeginsPhaseOk(f, frame);
    forall id
      ensures StepOk(f, Begin(frame), id)
    {
      BeginOne(f, frame, id);
    }
    forall d
      ensures BacklogOk(Begins(f, frame).w, d)
    {
      InvBacklogOf(f, d);
      BeginsBacklog(f, frame, d);
    }
    InvFromSteps(f, Begin(frame));
  }

  // ----- receiving

  lemma ReceiveParts(h: Hub, k: nat, id: nat)
    requires h.channels.Keys == h.snapshots.Keys
    ensures var h', s, q := Receive(h, k), SnapshotOf(h, id), QueueOf(h.channels, id);
            && h'.streams == h.streams
            && SnapshotOf(h', id) == (if k == id && s != [] then s[1..] else s)
            && QueueOf(h'.channels, id) == (if k == id && s == [] && q != [] then q[1..] else q)
            && (NextFor(h, id) == [] <==> s == [] && q == [])
            && (s != [] ==> NextFor(h, id) != [] && NextFor(h, id)[0] == s[0])
            && (s == [] && q != [] ==> NextFor(h, id) != [] && NextFor(h, id)[0] == q[0])
  {
  }

  lemma TakesSame(f: Fine, k: nat)
    requires HubOk(f)
    ensures var w' := Takes(f, k).w;
            && w'.device == f.w.device && w'.published == f.w.published && w'.received.Keys == f.w.received.Keys
            && w'.hub.streams == f.w.hub.streams
  {
    hide Valid, NextFor;
    ReceiveParts(f.w.hub, k, k);
  }

  lemma TakesHubOk(f: Fine, k: nat)
    requires HubOk(f)
    ensures HubOk(Takes(f, k))
  {
    hide Valid, NextFor;
    ReceiveValid(f.w.hub, k);
  }

  lemma TakesPhaseOk(f: Fine, k: nat)
    requires HubOk(f) && PhaseOk(f)
    ensures PhaseOk(Takes(f, k))
  {
    hide HubOk, Step, Takes, FromQueue;
    var f' := Takes(f, k);
    TakesSame(f, k);
    TakesPhase(f, k);
    if !f.phase.Idle? {
      var d := f.phase.frame.deviceID;
      forall id | Subscribed(f.w.hub, d, id)
        ensures Subscribed(f'.w.hub, d, id)
      {
        SameStreams(f.w.hub, f'.w.hub, d, id);
      }
    }
  }

  lemma TakesPhase(f: Fine, k: nat)
    ensures var p, p' := f.phase, Takes(f, k).phase;
            && p'.Idle? == p.Idle? && p'.Draining? == p.Draining?
            && (!p.Idle? ==> p'.frame == p.frame && p'.todo == p.todo)
            && (p.Draining? ==> p'.id == p.id && p'.skipped == (p.skipped && !(k == p.id && FromQueue(f, k))))
  {
    hide FromQueue;
  }

  lemma TakeView(f: Fine, k: nat, id: nat)
    requires HubOk(f) && id in f.w.received
    ensures var v := ViewOf(f, id);
            ViewOf(Takes(f, k), id) ==
            if id != k then v
            else if v.snapshot != [] then SnapshotTaken(v)
            else if v.queue != [] then QueueTaken(v)
            else v
  {
    hide Valid, NextFor, QueueOf, SnapshotOf, Ready, Receive;
    TakesPhase(f, k);
    TakesSame(f, k);
    ReceiveParts(f.w.hub, k, id);
    SameStreams(f.w.hub, Takes(f, k).w.hub, DeviceOf(f.w, id), id);
  }

  lemma TakeOne(f: Fine, k: nat, id: nat)
    requires FineInv(f)
    ensures StepOk(f, Take(k), id)
  {
    hide FineInv, HubOk, PhaseOk, Takes, ReceivedWhole, Placed, PendingOk, DamageMarked, Offered, Current, QueueOf;
    hide StaysReady, KeptIfReady, Gained;
    InvParts(f);
    TakesSame(f, k);
    if id in f.w.received {
      InvOne(f, id);
      SameDevice(f, Takes(f, k), id);
      TakeView(f, k, id);
      var v := ViewOf(f, id);
      if id == k && v.snapshot != [] {
        SnapshotTakenOk(v);
      } else if id == k && v.queue != [] {
        QueueTakenOk(v);
      }
      Kept(f, Takes(f, k), id);
    } else {
      TakesHubOk(f, k);
      NobodyWhole(f, id);
      NobodyWhole(Takes(f, k), id);
      NobodyQueues(f, id);
    }
  }

  lemma NobodyQueues(f: Fine, id: nat)
    requires HubOk(f) && id !in f.w.received
    ensures QueueOf(f.w.hub.channels, id) == []
  {
  }

  lemma TakeKeepsInv(f: Fine, k: nat)
    requires FineInv(f)
    ensures FineInv(Move(f, Take(k))) && forall id :: StepOk(f, Take(k), id)
  {
    hide FineInv, HubOk, PhaseOk, StepOk, Takes, BacklogOk;
    InvParts(f);
    TakesHubOk(f, k);
    TakesPhaseOk(f, k);
    TakesSame(f, k);
    forall id
      ensures StepOk(f, Take(k), id)
    {
      TakeOne(f, k, id);
    }
    forall d
      ensures BacklogOk(Takes(f, k).w, d)
    {
      InvBacklogOf(f, d);
      SameStreamsBacklog(f.w, Takes(f, k).w, d);
    }
    InvFromSteps(f, Take(k));
  }
}
