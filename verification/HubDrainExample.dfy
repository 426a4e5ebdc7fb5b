/** A run in which a reader is handed a frame without the one before it: a receive falls into a drain. */
module HubDrainExample {
  import opened Frames
  import opened HubRuns
  import opened HubState
  import opened HubDrains
  import opened HubDrainRuns

  const DEVICE := "camera"

  /** Frame 1 is a key frame; the others need the one before. */
  function Numbered(n: nat): VideoFrame {
    VideoFrame(DEVICE, n, 0, 0, 0, n == 1, false, [])
  }

  /** A hub with one device and one subscriber, whose snapshot was empty. */
  function Watched(published: seq<VideoFrame>, received: seq<VideoFrame>, queue: seq<VideoFrame>, place: seq<int>,
                   ready: bool, phase: Phase): Fine {
    Fine(World(Hub(map[DEVICE := Stream(published, 0, true, map[1 := ready])],
                   map[1 := Channel(queue, true)], map[1 := []], 1),
               map[DEVICE := published], map[1 := DEVICE], map[1 := received]),
         phase, map[1 := place])
  }

  lemma BeginStep(published: seq<VideoFrame>, received: seq<VideoFrame>, queue: seq<VideoFrame>, place: seq<int>,
                  n: nat)
    requires n > 1
    ensures Move(Watched(published, received, queue, place, true, Idle), Begin(Numbered(n))) ==
            Watched(published + [Numbered(n)], received, queue, place, true, Offering(Numbered(n), {1}))
  {
    var s := Stream(published, 0, true, map[1 := true]);
    assert s.ready.Keys == {1};
    assert Recorded(s, Numbered(n)) == s.(backlog := published + [Numbered(n)]);
    assert map[DEVICE := s][DEVICE := Recorded(s, Numbered(n))] == map[DEVICE := Recorded(s, Numbered(n))];
  }

  lemma OfferStep(published: seq<VideoFrame>, received: seq<VideoFrame>, queue: seq<VideoFrame>, place: seq<int>,
                  n: nat)
    ensures Move(Watched(published, received, queue, place, true, Offering(Numbered(n), {1})), Offer(1)) ==
            if |queue| < SUBSCRIBER_BUFFER
            then Watched(published, received, queue + [Numbered(n)], place + [|published| - 1], true,
                         Offering(Numbered(n), {}))
            else Watched(published, received, queue, place, true, Draining(Numbered(n), {}, 1, false))
  {
    assert {1} - {1} == {};
  }

  lemma PublishSteps(published: seq<VideoFrame>, received: seq<VideoFrame>, queue: seq<VideoFrame>, place: seq<int>,
                     n: nat)
    requires n > 1 && |queue| < SUBSCRIBER_BUFFER
    ensures Moves(Watched(published, received, queue, place, true, Idle),
                  [Begin(Numbered(n)), Offer(1), EndPublish]) ==
            Watched(published + [Numbered(n)], received, queue + [Numbered(n)], place + [|published|], true, Idle)
  {
    hide Move;
    BeginStep(published, received, queue, place, n);
    OfferStep(published + [Numbered(n)], received, queue, place, n);
    EndStep(published + [Numbered(n)], received, queue + [Numbered(n)], place + [|published|], true, n);
    ThreeMoves(Watched(published, received, queue, place, true, Idle), Begin(Numbered(n)), Offer(1), EndPublish);
  }

  lemma EndStep(published: seq<VideoFrame>, received: seq<VideoFrame>, queue: seq<VideoFrame>, place: seq<int>,
                ready: bool, n: nat)
    ensures Move(Watched(published, received, queue, place, ready, Offering(Numbered(n), {})), EndPublish) ==
            Watched(published, received, queue, place, ready, Idle)
  {
  }

  lemma ThreeMoves(f: Fine, a: Action, b: Action, c: Action)
    ensures Moves(f, [a, b, c]) == Move(Move(Move(f, a), b), c)
  {
    hide Move;
    assert [a, b, c][1..] == [b, c] && [b, c][1..] == [c] && [c][1..] == [];
    assert Moves(Move(Move(f, a), b), [c]) == Move(Move(Move(f, a), b), c);
  }

  lemma PopStep(published: seq<VideoFrame>, received: seq<VideoFrame>, queue: seq<VideoFrame>, place: seq<int>,
                skipped: bool)
    requires queue != [] && |place| == |received| + |queue|
    ensures Move(Watched(published, received, queue, place, true, Draining(Numbered(6), {}, 1, skipped)), Pop) ==
            Watched(published, received, queue[1..], place[..|received|] + place[|received| + 1..], true,
                    Draining(Numbered(6), {}, 1, true))
  {
  }

  lemma TakeStep(published: seq<VideoFrame>, received: seq<VideoFrame>, queue: seq<VideoFrame>, place: seq<int>,
                 ready: bool, phase: Phase)
    requires queue != []
    ensures Move(Watched(published, received, queue, place, ready, phase), Take(1)) ==
            Watched(published, received + [queue[0]], queue[1..], place, ready,
                    if Drains(phase, 1) then phase.(skipped := false) else phase)
  {
    hide NextFor, Receive;
    ReceivedFromQueue(Watched(published, received, queue, place, ready, phase).w.hub, queue);
  }

  lemma ReceivedFromQueue(h: Hub, queue: seq<VideoFrame>)
    requires h.channels == map[1 := Channel(queue, true)] && h.snapshots == map[1 := []] && queue != []
    ensures NextFor(h, 1) == queue && Receive(h, 1) == h.(channels := map[1 := Channel(queue[1..], true)])
  {
    assert [] + queue == queue;
  }

  lemma EndDrainStep(published: seq<VideoFrame>, received: seq<VideoFrame>, place: seq<int>)
    requires |received| <= |place|
    ensures Move(Watched(published, received, [], place, true, Draining(Numbered(6), {}, 1, true)), EndDrain) ==
            Watched(published, received, [Marker(DEVICE)], place[..|received|] + [-1], false, Offering(Numbered(6), {}))
  {
    hide EndsDrain;
    DrainEnds(published, received, place);
  }

  lemma DrainEnds(published: seq<VideoFrame>, received: seq<VideoFrame>, place: seq<int>)
    requires |received| <= |place|
    ensures EndsDrain(Watched(published, received, [], place, true, Draining(Numbered(6), {}, 1, true))) ==
            Watched(published, received, [Marker(DEVICE)], place[..|received|] + [-1], false, Offering(Numbered(6), {}))
  {
    assert map[1 := true][1 := false] == map[1 := false];
    var s := Stream(published, 0, true, map[1 := true]);
    assert map[DEVICE := s][DEVICE := s.(ready := map[1 := false])] == map[DEVICE := s.(ready := map[1 := false])];
    assert Before(place, |received|) == place[..|received|];
  }

  // ----- the run

  function FirstKeyFrame(): seq<Action> {
    [Locked(OpSubscribe(DEVICE, false)), Begin(Numbered(1))] + [Offer(1), EndPublish, Take(1)]
  }

  function Publishing(n: nat): seq<Action> {
    [Begin(Numbered(n)), Offer(1), EndPublish]
  }

  function Overflow(): seq<Action> {
    [Begin(Numbered(6)), Offer(1), Pop] + [Take(1), Pop, Pop] + [EndDrain, Take(1), EndPublish]
  }

  function Disturbed(): seq<Action> {
    FirstKeyFrame() + (Publishing(2) + (Publishing(3) + (Publishing(4) + (Publishing(5) + Overflow()))))
  }

  lemma Subscribes()
    ensures Move(Move(FRESH, Locked(OpSubscribe(DEVICE, false))), Begin(Numbered(1))) ==
            Watched([Numbered(1)], [], [], [], true, Offering(Numbered(1), {1}))
  {
    var f := Move(FRESH, Locked(OpSubscribe(DEVICE, false)));
    assert f.w.hub == Hub(map[DEVICE := Stream([], 0, false, map[1 := false])], map[1 := Channel([], true)],
                          map[1 := []], 1);
    assert f.place == map[1 := []] && f.phase == Idle && f.w.published == map[];
    var s := Stream([], 0, false, map[1 := false]);
    assert AllReady(s.ready, true) == map[1 := true] && s.ready.Keys == {1};
    assert [] + [Numbered(1)] == [Numbered(1)];
    assert Recorded(s, Numbered(1)) == Stream([Numbered(1)], 0, true, map[1 := true]);
  }

  lemma TakesKeyFrame()
    ensures Moves(FRESH, FirstKeyFrame()) == Watched([Numbered(1)], [Numbered(1)], [], [0], true, Idle)
  {
    hide Move, Watched, Numbered, Moves;
    var k := Numbered(1);
    var f := Watched([k], [], [], [], true, Offering(k, {1}));
    Subscribes();
    TwoMoves(FRESH, Locked(OpSubscribe(DEVICE, false)), Begin(k));
    MovesAppend(FRESH, [Locked(OpSubscribe(DEVICE, false)), Begin(k)], [Offer(1), EndPublish, Take(1)]);
    OfferStep([k], [], [], [], 1);
    assert [] + [k] == [k] && [] + [0] == [0] && [k][1..] == [];
    EndStep([k], [], [k], [0], true, 1);
    TakeStep([k], [], [k], [0], true, Idle);
    ThreeMoves(f, Offer(1), EndPublish, Take(1));
  }

  lemma TwoMoves(f: Fine, a: Action, b: Action)
    ensures Moves(f, [a, b]) == Move(Move(f, a), b)
  {
    hide Move;
    assert [a, b][1..] == [b] && [b][1..] == [];
    assert Moves(Move(f, a), [b]) == Move(Move(f, a), b);
  }

  lemma FirstPop(p: seq<VideoFrame>, k: VideoFrame, q: seq<VideoFrame>)
    requires |q| == 4
    ensures Moves(Watched(p, [k], q, [0, 1, 2, 3, 4], true, Idle), [Begin(Numbered(6)), Offer(1), Pop]) ==
            Watched(p + [Numbered(6)], [k], q[1..], [0, 2, 3, 4], true, Draining(Numbered(6), {}, 1, true))
  {
    hide Move, Watched;
    var all, place := p + [Numbered(6)], [0, 1, 2, 3, 4];
    BeginStep(p, [k], q, place, 6);
    OfferStep(all, [k], q, place, 6);
    PopStep(all, [k], q, place, false);
    assert place[..1] + place[2..] == [0, 2, 3, 4];
    ThreeMoves(Watched(p, [k], q, place, true, Idle), Begin(Numbered(6)), Offer(1), Pop);
  }

  lemma TakeBetweenPops(all: seq<VideoFrame>, k: VideoFrame, x: VideoFrame, y: VideoFrame, z: VideoFrame)
    ensures Moves(Watched(all, [k], [x, y, z], [0, 2, 3, 4], true, Draining(Numbered(6), {}, 1, true)),
                  [Take(1), Pop, Pop]) ==
            Watched(all, [k, x], [], [0, 2], true, Draining(Numbered(6), {}, 1, true))
  {
    hide Move, Watched;
    var p := Draining(Numbered(6), {}, 1, true);
    TakeStep(all, [k], [x, y, z], [0, 2, 3, 4], true, p);
    assert [k] + [x] == [k, x] && [x, y, z][1..] == [y, z];
    PopStep(all, [k, x], [y, z], [0, 2, 3, 4], false);
    assert [0, 2, 3, 4][..2] + [0, 2, 3, 4][3..] == [0, 2, 4] && [y, z][1..] == [z];
    PopStep(all, [k, x], [z], [0, 2, 4], true);
    assert [0, 2, 4][..2] + [0, 2, 4][3..] == [0, 2] && [z][1..] == [];
    ThreeMoves(Watched(all, [k], [x, y, z], [0, 2, 3, 4], true, p), Take(1), Pop, Pop);
  }

  lemma MarkerTaken(all: seq<VideoFrame>, k: VideoFrame, x: VideoFrame)
    ensures Moves(Watched(all, [k, x], [], [0, 2], true, Draining(Numbered(6), {}, 1, true)),
                  [EndDrain, Take(1), EndPublish]) ==
            Watched(all, [k, x, Marker(DEVICE)], [], [0, 2, -1], false, Idle)
  {
    hide Move;
    var p, m := Draining(Numbered(6), {}, 1, true), Marker(DEVICE);
    EndDrainStep(all, [k, x], [0, 2]);
    assert [0, 2][..2] + [-1] == [0, 2, -1];
    TakeStep(all, [k, x], [m], [0, 2, -1], false, Offering(Numbered(6), {}));
    assert [k, x] + [m] == [k, x, m] && [m][1..] == [];
    EndStep(all, [k, x, m], [], [0, 2, -1], false, 6);
    hide Watched;
    ThreeMoves(Watched(all, [k, x], [], [0, 2], true, p), EndDrain, Take(1), EndPublish);
  }

  /** The queue is full when the last frame comes; the reader takes the second of four while it is emptied. */
  lemma ReceivesDuringDrain(p: seq<VideoFrame>, k: VideoFrame, w: VideoFrame, x: VideoFrame, y: VideoFrame,
                            z: VideoFrame)
    ensures Moves(Watched(p, [k], [w, x, y, z], [0, 1, 2, 3, 4], true, Idle), Overflow()) ==
            Watched(p + [Numbered(6)], [k, x, Marker(DEVICE)], [], [0, 2, -1], false, Idle)
  {
    hide Move, Watched;
    var all := p + [Numbered(6)];
    FirstPop(p, k, [w, x, y, z]);
    assert [w, x, y, z][1..] == [x, y, z];
    TakeBetweenPops(all, k, x, y, z);
    MarkerTaken(all, k, x);
    MovesAppend(Watched(all, [k], [x, y, z], [0, 2, 3, 4], true, Draining(Numbered(6), {}, 1, true)),
                [Take(1), Pop, Pop], [EndDrain, Take(1), EndPublish]);
    MovesAppend(Watched(p, [k], [w, x, y, z], [0, 1, 2, 3, 4], true, Idle),
                [Begin(Numbered(6)), Offer(1), Pop], [Take(1), Pop, Pop] + [EndDrain, Take(1), EndPublish]);
  }

  /** Frame n is the next one published, and everything published after the key frame is queued. */
  lemma PublishThen(published: seq<VideoFrame>, queue: seq<VideoFrame>, place: seq<int>, n: nat, rest: seq<Action>)
    requires n > 1 && |queue| < SUBSCRIBER_BUFFER
    ensures Moves(Watched(published, [Numbered(1)], queue, place, true, Idle), Publishing(n) + rest) ==
            Moves(Watched(published + [Numbered(n)], [Numbered(1)], queue + [Numbered(n)], place + [|published|], true,
                          Idle), rest)
  {
    PublishSteps(published, [Numbered(1)], queue, place, n);
    hide Move, Watched, Moves;
    MovesAppend(Watched(published, [Numbered(1)], queue, place, true, Idle), Publishing(n), rest);
  }

  lemma HalfFilled(rest: seq<Action>)
    ensures Moves(FRESH, FirstKeyFrame() + (Publishing(2) + (Publishing(3) + rest))) ==
            Moves(Watched([Numbered(1), Numbered(2), Numbered(3)], [Numbered(1)], [Numbered(2), Numbered(3)],
                          [0, 1, 2], true, Idle), rest)
  {
    hide Move, Watched, Numbered, Moves, Publishing, FirstKeyFrame;
    var k, w, x := Numbered(1), Numbered(2), Numbered(3);
    TakesKeyFrame();
    MovesAppend(FRESH, FirstKeyFrame(), Publishing(2) + (Publishing(3) + rest));
    PublishThen([k], [], [0], 2, Publishing(3) + rest);
    assert [k] + [w] == [k, w] && [] + [w] == [w] && [0] + [1] == [0, 1];
    PublishThen([k, w], [w], [0, 1], 3, rest);
    assert [k, w] + [x] == [k, w, x] && [w] + [x] == [w, x] && [0, 1] + [2] == [0, 1, 2];
  }

  lemma QueueFilled()
    ensures Moves(FRESH, Disturbed()) ==
            Moves(Watched([Numbered(1), Numbered(2), Numbered(3), Numbered(4), Numbered(5)], [Numbered(1)],
                          [Numbered(2), Numbered(3), Numbered(4), Numbered(5)], [0, 1, 2, 3, 4], true, Idle),
                  Overflow())
  {
    hide Move, Watched, Numbered, Moves, Publishing, FirstKeyFrame, Overflow;
    var k, w, x, y, z := Numbered(1), Numbered(2), Numbered(3), Numbered(4), Numbered(5);
    HalfFilled(Publishing(4) + (Publishing(5) + Overflow()));
    PublishThen([k, w, x], [w, x], [0, 1, 2], 4, Publishing(5) + Overflow());
    assert [k, w, x] + [y] == [k, w, x, y] && [w, x] + [y] == [w, x, y] && [0, 1, 2] + [3] == [0, 1, 2, 3];
    PublishThen([k, w, x, y], [w, x, y], [0, 1, 2, 3], 5, Overflow());
    assert [k, w, x, y] + [z] == [k, w, x, y, z] && [w, x, y] + [z] == [w, x, y, z];
    assert [0, 1, 2, 3] + [4] == [0, 1, 2, 3, 4];
  }

  lemma WatchedHas(published: seq<VideoFrame>, received: seq<VideoFrame>, queue: seq<VideoFrame>, place: seq<int>,
                   ready: bool, phase: Phase)
    ensures var f := Watched(published, received, queue, place, ready, phase);
            DevicePublished(f, 1) == published && ReceivedBy(f.w, 1) == received
  {
  }

  /** With frames 1 to 6 published the reader is handed frames 1 and 3, and only then a marker. */
  lemma DisturbedRun()
    ensures var f := Moves(FRESH, Disturbed());
            && DevicePublished(f, 1) == [Numbered(1), Numbered(2), Numbered(3), Numbered(4), Numbered(5), Numbered(6)]
            && ReceivedBy(f.w, 1) == [Numbered(1), Numbered(3), Marker(DEVICE)]
            && !Decodable(DevicePublished(f, 1), ReceivedBy(f.w, 1))
  {
    hide Move, Moves, Numbered, Overflow, Disturbed, Decodable, Watched, DevicePublished, ReceivedBy;
    DisturbedEnd();
    WatchedHas([Numbered(1), Numbered(2), Numbered(3), Numbered(4), Numbered(5), Numbered(6)],
               [Numbered(1), Numbered(3), Marker(DEVICE)], [], [0, 2, -1], false, Idle);
    NotDecodable();
  }

  lemma DisturbedEnd()
    ensures Moves(FRESH, Disturbed()) ==
            Watched([Numbered(1), Numbered(2), Numbered(3), Numbered(4), Numbered(5), Numbered(6)],
                    [Numbered(1), Numbered(3), Marker(DEVICE)], [], [0, 2, -1], false, Idle)
  {
    hide Move, Moves, Numbered, Overflow, Disturbed, Watched;
    var k, w, x, y, z := Numbered(1), Numbered(2), Numbered(3), Numbered(4), Numbered(5);
    QueueFilled();
    ReceivesDuringDrain([k, w, x, y, z], k, w, x, y, z);
    assert [k, w, x, y, z] + [Numbered(6)] == [k, w, x, y, z, Numbered(6)];
  }

  lemma NotDecodable()
    ensures !Decodable([Numbered(1), Numbered(2), Numbered(3), Numbered(4), Numbered(5), Numbered(6)],
                       [Numbered(1), Numbered(3), Marker(DEVICE)])
  {
    var p := [Numbered(1), Numbered(2), Numbered(3), Numbered(4), Numbered(5), Numbered(6)];
    var r := [Numbered(1), Numbered(3), Marker(DEVICE)];
    if place :| Follows(p, r, place) {
      assert place[1] >= 0 && p[place[1]] == r[1] && place[1] == 2;
      assert DecodableAt(r, place, 1);
      assert place[0] >= 0 && p[place[0]] == r[0];
    }
  }
}
