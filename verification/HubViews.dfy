/**
 One subscriber's side of the hub: what it has received, what is pending, and the publish index of
 each item. A drain takes frames out of the queue one at a time, and the reader may receive between
 two of them.
 */
module HubViews {
  import opened Frames
  import opened HubRuns

  /**
   `place` gives, for each item received or pending, its index among the frames published for the
   device, or -1 for a marker of the hub. `current` says that the next frame may follow the last item;
   `skipped`, that a drain under way took the last frame that left the queue.
   */
  datatype View = View(
    published: seq<VideoFrame>,
    received: seq<VideoFrame>,
    snapshot: seq<VideoFrame>,
    queue: seq<VideoFrame>,
    place: seq<int>,
    current: bool,
    draining: bool,
    skipped: bool)

  function ItemsOf(v: View): seq<VideoFrame> {
    v.received + (v.snapshot + v.queue)
  }

  /** Where the queue begins among the items. */
  function Head(v: View): nat {
    |v.received| + |v.snapshot|
  }

  predicate Sized(v: View) {
    |v.received| + |v.snapshot| + |v.queue| == |v.place|
  }

  ghost predicate MarkedAfter(place: seq<int>, i: nat) {
    exists j :: i < j < |place| && place[j] == -1
  }

  /** Of the items from `from` on, all frames are decodable, except that the one at `head` may need its past. */
  ghost predicate PendingOk(items: seq<VideoFrame>, place: seq<int>, from: nat, head: nat, skipped: bool)
    requires |items| == |place|
  {
    forall i :: from <= i < |place| && place[i] >= 0 ==>
      (DecodableAt(items, place, i) <==> i != head || !skipped || items[i].keyFrame)
  }

  /** Each of the first `n` items that cannot be decoded has a marker behind it. */
  ghost predicate DamageMarked(items: seq<VideoFrame>, place: seq<int>, n: nat)
    requires n <= |items| == |place|
  {
    forall i :: 0 <= i < n && place[i] >= 0 && !DecodableAt(items, place, i) ==> MarkedAfter(place, i)
  }

  /** All frames among the first `n` items are decodable. */
  ghost predicate WholeUpTo(items: seq<VideoFrame>, place: seq<int>, n: nat)
    requires n <= |items| == |place|
  {
    forall i :: 0 <= i < n && place[i] >= 0 ==> DecodableAt(items, place, i)
  }

  ghost predicate ViewOk(v: View) {
    && Sized(v)
    && Placed(v.published, ItemsOf(v), v.place)
    && PendingOk(ItemsOf(v), v.place, |v.received|, Head(v), v.skipped)
    && (v.current ==> v.place != [] && v.place[|v.place| - 1] == |v.published| - 1 >= 0)
    && (v.draining ==> !v.current)
    && (v.skipped ==> v.draining)
    && (!v.draining ==> DamageMarked(ItemsOf(v), v.place, |v.received|))
  }

  ghost predicate ReceivedWhole(v: View)
    requires Sized(v)
  {
    WholeUpTo(ItemsOf(v), v.place, |v.received|)
  }

  /** Between two views the items grew by exactly the frames published. */
  ghost predicate Gained(v: View, v': View) {
    && |v.published| <= |v'.published| && v.published == v'.published[..|v.published|]
    && ItemsOf(v') == ItemsOf(v) + v'.published[|v.published|..]
  }

  // ----- what can happen to a subscriber

  function Appended(v: View, frame: VideoFrame): View {
    v.(published := v.published + [frame], queue := v.queue + [frame], place := v.place + [|v.published|],
       current := true)
  }

  function Missed(v: View, frame: VideoFrame): View {
    v.(published := v.published + [frame])
  }

  function Interrupted(v: View, marker: VideoFrame): View {
    v.(queue := v.queue + [marker], place := v.place + [-1], current := false)
  }

  function DrainBegun(v: View, frame: VideoFrame): View {
    v.(published := v.published + [frame], current := false, draining := true)
  }

  function HeadPopped(v: View): View
    requires v.queue != [] && Sized(v)
  {
    v.(queue := v.queue[1..], place := v.place[..Head(v)] + v.place[Head(v) + 1..], skipped := true)
  }

  function DrainEnded(v: View, marker: VideoFrame): View
    requires Sized(v)
  {
    v.(queue := [marker], place := v.place[..Head(v)] + [-1], draining := false, skipped := false)
  }

  function SnapshotTaken(v: View): View
    requires v.snapshot != []
  {
    v.(received := v.received + [v.snapshot[0]], snapshot := v.snapshot[1..])
  }

  function QueueTaken(v: View): View
    requires v.queue != []
  {
    v.(received := v.received + [v.queue[0]], queue := v.queue[1..], skipped := false)
  }

  // ----- one more item, or one fewer

  /** Items added at the end change nothing about those before them. */
  lemma DecodableOnPrefix(items: seq<VideoFrame>, place: seq<int>, n: nat, i: nat)
    requires i < n <= |items| == |place|
    ensures DecodableAt(items[..n], place[..n], i) <==> DecodableAt(items, place, i)
  {
  }

  /** What is said of the first items survives a change behind them that leaves or adds a marker. */
  lemma SameStart(items: seq<VideoFrame>, place: seq<int>, items': seq<VideoFrame>, place': seq<int>, n: nat)
    requires n <= |items| == |place| && n <= |items'| == |place'|
    requires items[..n] == items'[..n] && place[..n] == place'[..n]
    ensures WholeUpTo(items, place, n) <==> WholeUpTo(items', place', n)
    ensures -1 in place'[n..] ==> DamageMarked(items', place', n)
    ensures place <= place' && DamageMarked(items, place, n) ==> DamageMarked(items', place', n)
  {
    forall i: nat | i < n
      ensures place[i] == place'[i] && (DecodableAt(items, place, i) <==> DecodableAt(items', place', i))
    {
      DecodableOnPrefix(items, place, n, i);
      DecodableOnPrefix(items', place', n, i);
    }
    if -1 in place'[n..] {
      var k :| 0 <= k < |place'| - n && place'[n..][k] == -1;
      assert place'[n + k] == -1;
    }
  }

  lemma SnocSameStart(items: seq<VideoFrame>, place: seq<int>, item: VideoFrame, at: int, n: nat)
    requires n <= |items| == |place|
    ensures WholeUpTo(items, place, n) <==> WholeUpTo(items + [item], place + [at], n)
    ensures DamageMarked(items, place, n) ==> DamageMarked(items + [item], place + [at], n)
  {
    hide WholeUpTo, DamageMarked;
    assert items[..n] == (items + [item])[..n] && place[..n] == (place + [at])[..n];
    SameStart(items, place, items + [item], place + [at], n);
  }

  lemma PlacedSnoc(published: seq<VideoFrame>, items: seq<VideoFrame>, place: seq<int>, frame: VideoFrame)
    requires Placed(published, items, place)
    ensures Placed(published + [frame], items + [frame], place + [|published|])
  {
  }

  lemma PlacedMarker(published: seq<VideoFrame>, items: seq<VideoFrame>, place: seq<int>, deviceID: string)
    requires Placed(published, items, place)
    ensures Placed(published, items + [Marker(deviceID)], place + [-1])
  {
  }

  lemma PlacedMore(published: seq<VideoFrame>, items: seq<VideoFrame>, place: seq<int>, frame: VideoFrame)
    requires Placed(published, items, place)
    ensures Placed(published + [frame], items, place)
  {
  }

  lemma PlacedPrefix(published: seq<VideoFrame>, items: seq<VideoFrame>, place: seq<int>, n: nat)
    requires Placed(published, items, place) && n <= |place|
    ensures Placed(published, items[..n], place[..n])
  {
  }

  lemma PlacedWithout(published: seq<VideoFrame>, items: seq<VideoFrame>, place: seq<int>, k: nat)
    requires Placed(published, items, place) && k < |place|
    ensures Placed(published, items[..k] + items[k + 1..], place[..k] + place[k + 1..])
  {
  }

  lemma PendingSnoc(items: seq<VideoFrame>, place: seq<int>, from: nat, head: nat, skipped: bool,
                    item: VideoFrame, at: int)
    requires |items| == |place| && PendingOk(items, place, from, head, skipped) && from <= |items|
    requires at >= 0 ==> !skipped && DecodableAt(items + [item], place + [at], |items|)
    ensures PendingOk(items + [item], place + [at], from, head, skipped)
  {
    forall i: nat | from <= i < |items|
      ensures DecodableAt(items + [item], place + [at], i) <==> DecodableAt(items, place, i)
    {
      assert (items + [item])[..|items|] == items && (place + [at])[..|items|] == place;
      DecodableOnPrefix(items + [item], place + [at], |items|, i);
    }
  }

  lemma PendingPrefix(items: seq<VideoFrame>, place: seq<int>, from: nat, head: nat, skipped: bool)
    requires from <= head <= |items| == |place| && PendingOk(items, place, from, head, skipped)
    ensures PendingOk(items[..head], place[..head], from, head, false)
  {
    forall i: nat | from <= i < head
      ensures DecodableAt(items[..head], place[..head], i) <==> DecodableAt(items, place, i)
    {
      DecodableOnPrefix(items, place, head, i);
    }
  }

  /** What receiving the first pending item does to what is said of the items received. */
  lemma NextReceived(items: seq<VideoFrame>, place: seq<int>, n: nat, head: nat, skipped: bool)
    requires n < |items| == |place| && n <= head && PendingOk(items, place, n, head, skipped)
    ensures var whole := n != head || !skipped || items[n].keyFrame || place[n] < 0;
            && (WholeUpTo(items, place, n + 1) <==> WholeUpTo(items, place, n) && whole)
            && (DamageMarked(items, place, n) && whole ==> DamageMarked(items, place, n + 1))
            && PendingOk(items, place, n + 1, if n == head then n + 1 else head, skipped && n != head)
  {
    assert place[n] >= 0 ==> (DecodableAt(items, place, n) <==> n != head || !skipped || items[n].keyFrame);
  }

  /** Taking the frame at the head away leaves the next one without its past, unless that is a key frame. */
  lemma PendingWithout(published: seq<VideoFrame>, items: seq<VideoFrame>, place: seq<int>, from: nat, head: nat,
                       skipped: bool)
    requires Placed(published, items, place) && from <= head < |place| && PendingOk(items, place, from, head, skipped)
    ensures PendingOk(items[..head] + items[head + 1..], place[..head] + place[head + 1..], from, head, true)
  {
    var items', place' := items[..head] + items[head + 1..], place[..head] + place[head + 1..];
    forall i: nat | from <= i < |place'| && place'[i] >= 0
      ensures DecodableAt(items', place', i) <==> i != head || items'[i].keyFrame
    {
      if i < head {
        assert DecodableAt(items, place, i);
      } else {
        assert place'[i] == place[i + 1] && items'[i] == items[i + 1];
        assert DecodableAt(items, place, i + 1);
      }
    }
  }

  lemma NothingNew(v: View, v': View)
    ensures v'.published == v.published && ItemsOf(v') == ItemsOf(v) ==> Gained(v, v')
  {
    assert v.published[|v.published|..] == [];
  }

  lemma GainedTransitive(v: View, v1: View, v2: View)
    requires Gained(v, v1) && Gained(v1, v2)
    ensures Gained(v, v2)
  {
    hide ItemsOf;
    var m, n := |v.published|, |v1.published|;
    assert v2.published[..m] == v2.published[..n][..m];
    assert v2.published[m..] == v2.published[..n][m..] + v2.published[n..];
  }

  // ----- each keeps the view in order, and only one kind of receive damages what was received

  lemma AppendedGains(v: View, frame: VideoFrame)
    ensures ItemsOf(Appended(v, frame)) == ItemsOf(v) + [frame] && Gained(v, Appended(v, frame))
  {
    assert Appended(v, frame).published[|v.published|..] == [frame];
    assert ItemsOf(Appended(v, frame)) == ItemsOf(v) + [frame];
  }

  /** The frame follows the last item, or needs nothing before it. */
  lemma AppendedDecodable(v: View, frame: VideoFrame)
    requires Sized(v) && (v.current || frame.keyFrame)
    requires v.current ==> v.place != [] && v.place[|v.place| - 1] == |v.published| - 1 >= 0
    ensures DecodableAt(ItemsOf(v) + [frame], v.place + [|v.published|], |ItemsOf(v)|)
  {
  }

  lemma AppendedHead(v: View, frame: VideoFrame)
    requires Sized(v)
    ensures |ItemsOf(v)| == |v.place| && |v.received| <= Head(v) <= |ItemsOf(v)|
    ensures Sized(Appended(v, frame)) && Head(Appended(v, frame)) == Head(v)
  {
  }

  lemma AppendedOk(v: View, frame: VideoFrame)
    requires ViewOk(v) && !v.draining && (v.current || frame.keyFrame)
    ensures ViewOk(Appended(v, frame)) && Gained(v, Appended(v, frame))
    ensures ReceivedWhole(Appended(v, frame)) <==> ReceivedWhole(v)
  {
    hide Placed, PendingOk, WholeUpTo, DamageMarked, DecodableAt, Gained, ItemsOf;
    AppendedHead(v, frame);
    AppendedGains(v, frame);
    AppendedDecodable(v, frame);
    PlacedSnoc(v.published, ItemsOf(v), v.place, frame);
    PendingSnoc(ItemsOf(v), v.place, |v.received|, Head(v), v.skipped, frame, |v.published|);
    SnocSameStart(ItemsOf(v), v.place, frame, |v.published|, |v.received|);
  }

  lemma MissedOk(v: View, frame: VideoFrame)
    requires ViewOk(v) && !v.current
    ensures ViewOk(Missed(v, frame))
    ensures ReceivedWhole(Missed(v, frame)) <==> ReceivedWhole(v)
  {
    hide PendingOk, WholeUpTo, DamageMarked;
    PlacedMore(v.published, ItemsOf(v), v.place, frame);
  }

  lemma InterruptedOk(v: View, deviceID: string)
    requires ViewOk(v) && !v.draining
    ensures ViewOk(Interrupted(v, Marker(deviceID)))
    ensures ReceivedWhole(Interrupted(v, Marker(deviceID))) <==> ReceivedWhole(v)
  {
    hide Placed, PendingOk, WholeUpTo, DamageMarked;
    var v' := Interrupted(v, Marker(deviceID));
    assert ItemsOf(v') == ItemsOf(v) + [Marker(deviceID)];
    PlacedMarker(v.published, ItemsOf(v), v.place, deviceID);
    PendingSnoc(ItemsOf(v), v.place, |v.received|, Head(v), v.skipped, Marker(deviceID), -1);
    SnocSameStart(ItemsOf(v), v.place, Marker(deviceID), -1, |v.received|);
  }

  lemma DrainBegunOk(v: View, frame: VideoFrame)
    requires ViewOk(v) && !v.draining
    ensures ViewOk(DrainBegun(v, frame))
    ensures ReceivedWhole(DrainBegun(v, frame)) <==> ReceivedWhole(v)
  {
    hide PendingOk, WholeUpTo, DamageMarked;
    PlacedMore(v.published, ItemsOf(v), v.place, frame);
  }

  lemma HeadPoppedOk(v: View)
    requires ViewOk(v) && v.draining && v.queue != []
    ensures ViewOk(HeadPopped(v))
    ensures ReceivedWhole(HeadPopped(v)) <==> ReceivedWhole(v)
  {
    hide Placed, PendingOk, WholeUpTo, DamageMarked, MarkedAfter;
    var v', items := HeadPopped(v), ItemsOf(v);
    assert ItemsOf(v') == items[..Head(v)] + items[Head(v) + 1..];
    PlacedWithout(v.published, items, v.place, Head(v));
    PendingWithout(v.published, items, v.place, |v.received|, Head(v), v.skipped);
    SameStart(items, v.place, ItemsOf(v'), v'.place, |v.received|);
  }

  lemma DrainEndedOk(v: View, deviceID: string)
    requires ViewOk(v) && v.draining
    ensures ViewOk(DrainEnded(v, Marker(deviceID)))
    ensures ReceivedWhole(DrainEnded(v, Marker(deviceID))) <==> ReceivedWhole(v)
  {
    hide Placed, PendingOk, WholeUpTo, DamageMarked;
    var v', items := DrainEnded(v, Marker(deviceID)), ItemsOf(v);
    assert ItemsOf(v') == items[..Head(v)] + [Marker(deviceID)];
    PlacedPrefix(v.published, items, v.place, Head(v));
    PlacedMarker(v.published, items[..Head(v)], v.place[..Head(v)], deviceID);
    PendingPrefix(items, v.place, |v.received|, Head(v), v.skipped);
    PendingSnoc(items[..Head(v)], v.place[..Head(v)], |v.received|, Head(v), false, Marker(deviceID), -1);
    assert v'.place[Head(v)] == -1 && v'.place[|v.received|..][|v.snapshot|] == -1;
    SameStart(items, v.place, ItemsOf(v'), v'.place, |v.received|);
  }

  lemma SnapshotTakenOk(v: View)
    requires ViewOk(v) && v.snapshot != []
    ensures ViewOk(SnapshotTaken(v)) && Gained(v, SnapshotTaken(v))
    ensures ReceivedWhole(SnapshotTaken(v)) <==> ReceivedWhole(v)
  {
    hide Placed, PendingOk, WholeUpTo, DamageMarked;
    NothingNew(v, SnapshotTaken(v));
    assert ItemsOf(SnapshotTaken(v)) == ItemsOf(v);
    NextReceived(ItemsOf(v), v.place, |v.received|, Head(v), v.skipped);
  }

  /** Receiving a frame other than a key frame right after the drain took one is what does the damage. */
  lemma QueueTakenOk(v: View)
    requires ViewOk(v) && v.snapshot == [] && v.queue != []
    ensures ViewOk(QueueTaken(v)) && Gained(v, QueueTaken(v))
    ensures ReceivedWhole(QueueTaken(v)) <==>
            ReceivedWhole(v) && !(v.skipped && v.place[|v.received|] >= 0 && !v.queue[0].keyFrame)
  {
    hide Placed, PendingOk, WholeUpTo, DamageMarked;
    NothingNew(v, QueueTaken(v));
    assert ItemsOf(QueueTaken(v)) == ItemsOf(v) && ItemsOf(v)[|v.received|] == v.queue[0];
    NextReceived(ItemsOf(v), v.place, |v.received|, Head(v), v.skipped);
  }

  // ----- what the view says of the items received

  lemma OfferedPlaced(published: seq<VideoFrame>, offered: seq<VideoFrame>, items: seq<VideoFrame>, place: seq<int>)
    requires Placed(offered, items, place)
    requires offered == published || (published != [] && offered == published[..|published| - 1])
    ensures Placed(published, items, place)
  {
    hide Placed;
    if offered != published {
      PlacedMore(offered, items, place, published[|published| - 1]);
      assert offered + [published[|published| - 1]] == published;
    }
  }

  lemma ReceivedOfView(v: View, published: seq<VideoFrame>)
    requires ViewOk(v)
    requires v.published == published || (published != [] && v.published == published[..|published| - 1])
    ensures Placed(published, v.received, v.place[..|v.received|])
    ensures ReceivedWhole(v) <==> Follows(published, v.received, v.place[..|v.received|])
  {
    hide Placed, PendingOk, DamageMarked;
    var n, items := |v.received|, ItemsOf(v);
    OfferedPlaced(published, v.published, items, v.place);
    PlacedPrefix(published, items, v.place, n);
    assert items[..n] == v.received;
    SameStart(items, v.place, v.received, v.place[..n], n);
  }

  lemma ReceivedDamage(v: View, i: nat)
    requires ViewOk(v) && !v.draining && i < |v.received| && v.place[i] >= 0
    requires !DecodableAt(v.received, v.place[..|v.received|], i)
    ensures MarkedAfter(v.place, i)
  {
    hide Placed, PendingOk, MarkedAfter, DecodableAt;
    assert ItemsOf(v)[..|v.received|] == v.received;
    DecodableOnPrefix(ItemsOf(v), v.place, |v.received|, i);
  }
}
