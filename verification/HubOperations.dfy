/**
 What the other operations of the hub mean for each subscriber: whether it is subscribed and ready, what it
 still has to receive, and whether its channel is open.
 */
module HubOperations {
  import opened Frames
  import opened HubState
  import opened HubDrains
  import opened HubDrainRuns

  predicate Open(h: Hub, id: nat) {
    id in h.channels && h.channels[id].open
  }

  /** Unsubscribing ends the subscription and closes its channel, which can still be read to the end; once. */
  lemma UnsubscribeEnds(h: Hub, deviceID: string, id: nat)
    requires Valid(h)
    ensures var h' := Unsubscribe(h, deviceID, id);
            && !Subscribed(h', deviceID, id) && (Subscribed(h, deviceID, id) ==> !Open(h', id))
            && (forall k :: NextFor(h', k) == NextFor(h, k))
            && (forall d, k :: d != deviceID || k != id ==>
                  (Subscribed(h', d, k) <==> Subscribed(h, d, k)) && (Ready(h', d, k) <==> Ready(h, d, k)))
            && (forall k :: k != id || !Subscribed(h, deviceID, id) ==> (Open(h', k) <==> Open(h, k)))
            && (forall d :: StreamOf(h', d).backlog == StreamOf(h, d).backlog)
            && Unsubscribe(h', deviceID, id) == h'
  {
  }

  /**
   A discontinuity empties the backlog and makes everybody of the device wait: who has room gets a marker, and
   who has none is unsubscribed.
   */
  lemma DiscontinueDoes(h: Hub, deviceID: string, id: nat)
    requires Valid(h) && id in h.channels
    ensures var h', here, room := Discontinue(h, deviceID), Subscribed(h, deviceID, id), |h.channels[id].queue| < 4;
            && StreamOf(h', deviceID).backlog == [] && !Ready(h', deviceID, id)
            && (Subscribed(h', deviceID, id) <==> here && room)
            && (Open(h', id) <==> Open(h, id) && !(here && !room))
            && NextFor(h', id) == NextFor(h, id) + (if here && room then [Marker(deviceID)] else [])
            && forall d :: d != deviceID ==>
                 StreamOf(h', d) == StreamOf(h, d) && (Subscribed(h', d, id) <==> Subscribed(h, d, id))
  {
    DiscontinueParts(h, deviceID, id);
  }

  /** Removing a device ends all its subscriptions, forgets its backlog and touches no other device. */
  lemma RemoveDoes(h: Hub, deviceID: string, id: nat)
    requires Valid(h)
    ensures var h' := Remove(h, deviceID);
            && StreamOf(h', deviceID).backlog == [] && !Subscribed(h', deviceID, id)
            && (Open(h', id) <==> Open(h, id) && !Subscribed(h, deviceID, id))
            && NextFor(h', id) == NextFor(h, id)
            && forall d :: d != deviceID ==>
                 StreamOf(h', d) == StreamOf(h, d) && (Subscribed(h', d, id) <==> Subscribed(h, d, id))
  {
  }

  /**
   A new subscription gets an ID never used before, an open channel, and the backlog to read first, and takes
   part from the next frame on exactly if there is a backlog; one that skips the backlog waits for a key frame.
   */
  lemma SubscribeDoes(h: Hub, deviceID: string, skip: bool)
    requires Valid(h)
    ensures var h', id := Subscribe(h, deviceID, skip), h.nextSubscriberID + 1;
            && id !in h.channels && Subscribed(h', deviceID, id) && Open(h', id)
            && NextFor(h', id) == (if skip then [] else StreamOf(h, deviceID).backlog)
            && (Ready(h', deviceID, id) <==> !skip && StreamOf(h, deviceID).backlog != [])
  {
    NextIDIsNew(h);
    assert BacklogValid(StreamOf(h, deviceID));
    hide Valid, BacklogValid;
  }

  /** A new subscription changes nothing for anybody else. */
  lemma SubscribeLeaves(h: Hub, deviceID: string, skip: bool, d: string, k: nat)
    requires Valid(h) && k != h.nextSubscriberID + 1
    ensures var h' := Subscribe(h, deviceID, skip);
            && StreamOf(h', d).backlog == StreamOf(h, d).backlog
            && NextFor(h', k) == NextFor(h, k) && (Open(h', k) <==> Open(h, k))
            && (Subscribed(h', d, k) <==> Subscribed(h, d, k)) && (Ready(h', d, k) <==> Ready(h, d, k))
  {
  }

  /** A reader takes the oldest of what it has still to receive, and nobody else notices. */
  lemma ReceiveDoes(h: Hub, id: nat)
    requires Valid(h)
    ensures var h', next := Receive(h, id), NextFor(h, id);
            && NextFor(h', id) == (if next == [] then [] else next[1..])
            && (forall k :: k != id ==> NextFor(h', k) == NextFor(h, k))
            && h'.streams == h.streams && forall k :: Open(h', k) <==> Open(h, k)
  {
    if NextFor(h, id) != [] {
      var s, q := h.snapshots[id], h.channels[id].queue;
      assert s != [] ==> (s + q)[1..] == s[1..] + q;
      assert s == [] ==> s + q == q && s + q[1..] == q[1..];
    }
  }
}
