/** Runs of the handshake: any messages, in any order, valid or not. */
module RcdRuns {
  import opened Bytes
  import opened RcdTranscript
  import opened RcdHandshake
  import opened Options

  datatype Input = Input(command: nat, data: seq<byte>, entropy: Option<Digest>)

  /** One accepted message and its response. */
  datatype Step = Step(command: nat, request: seq<byte>, response: seq<byte>)

  datatype World = World(s: Service, accepted: seq<Step>)

  function Start(info: ServerInfo, pairing: bool): World {
    World(NewService(info, pairing), [])
  }

  function Advance(h: Hashes, w: World, input: Input): (w': World)
    requires DeviceKnown(w.s)
    ensures DeviceKnown(w'.s)
  {
    HandleKeepsDeviceKnown(h, w.s, input.command, input.data, input.entropy);
    var (s, reply) := Handle(h, w.s, input.command, input.data, input.entropy);
    World(s, if reply.Accepted? then w.accepted + [Step(input.command, input.data, reply.response)] else w.accepted)
  }

  function Run(h: Hashes, w: World, inputs: seq<Input>): (w': World)
    requires DeviceKnown(w.s)
    ensures DeviceKnown(w'.s)
    decreases |inputs|
  {
    if inputs == [] then w else Run(h, Advance(h, w, inputs[0]), inputs[1..])
  }

  function Commands(steps: seq<Step>): (c: seq<nat>)
    ensures |c| == |steps|
    ensures forall i :: 0 <= i < |c| ==> c[i] == steps[i].command
  {
    if steps == [] then [] else Commands(steps[..|steps| - 1]) + [steps[|steps| - 1].command]
  }

  /** The bytes of all exchanges, in order. */
  function Transcribed(steps: seq<Step>): seq<byte> {
    if steps == [] then []
    else
      var last := steps[|steps| - 1];
      Transcribed(steps[..|steps| - 1]) + last.request + last.response
  }

  lemma Snoc(steps: seq<Step>, step: Step)
    ensures Commands(steps + [step]) == Commands(steps) + [step.command]
    ensures Transcribed(steps + [step]) == Transcribed(steps) + step.request + step.response
  {
    assert (steps + [step])[..|steps|] == steps;
  }

  // ----- the invariant

  /** Which commands have been accepted, given the one expected next. */
  predicate InOrder(commands: seq<nat>, nextCmd: nat, pairing: bool) {
    match nextCmd
    case 1 => commands == []
    case 2 => commands == [1]
    case 3 => commands == [1, 2] && pairing
    case 4 => commands == [1, 2] || (commands == [1, 2, 3] && pairing)
    case 0 => commands == [1, 2, 4] || (commands == [1, 2, 3, 4] && pairing)
    case _ => false
  }

  /** A negotiate names the pairing ID that its response begins with. */
  predicate NamesItsID(negotiate: Step) {
    && |negotiate.request| >= 0x20 && |negotiate.response| >= 0x20
    && negotiate.request[..0x20] == negotiate.response[..0x20]
  }

  /** The device is the one of the accepted begin, and what a negotiate hands out begins with its pairing ID. */
  predicate DeviceOk(h: Hashes, w: World) {
    && (w.accepted != [] ==>
          && w.s.device.Some? && |w.accepted[0].request| == 0x50
          && w.s.device.value.(version := 0) == DeviceIn(h, w.s.info, w.accepted[0].request))
    && (|w.accepted| >= 2 ==>
          && w.s.device.Some? && |w.accepted[1].request| >= 0x20 && |w.accepted[1].response| >= 0x20
          && w.accepted[1].response[..0x20] == w.s.device.value.pairingID)
  }

  /** The key is released, as command 3, exactly when the negotiate did not name the pairing ID. */
  predicate KeyOk(w: World) {
    |w.accepted| >= 2 ==>
      (NamesItsID(w.accepted[1]) <==> w.s.nextCmd != 3 && (|w.accepted| == 2 || w.accepted[2].command == 4))
  }

  /** The closing exchange carries the digest of the exchanges before it, and answers with the full one. */
  predicate Closed(h: Hashes, steps: seq<Step>) {
    && |steps| > 0
    && var before, last := Transcribed(steps[..|steps| - 1]), steps[|steps| - 1];
    last.request == h.sha256(Flushed(before)) && last.response == h.sha256(before + last.request)
  }

  predicate DoneOk(h: Hashes, w: World) {
    && (w.s.nextCmd == 0 <==> w.s.done)
    && (if w.s.done then Closed(h, w.accepted) && w.s.device.Some? && w.s.announced == [w.s.device.value]
        else w.s.announced == [])
  }

  predicate Inv(h: Hashes, w: World) {
    && InOrder(Commands(w.accepted), w.s.nextCmd, w.s.pairing)
    && w.s.exchanged == Transcribed(w.accepted)
    && DeviceOk(h, w) && KeyOk(w) && DoneOk(h, w)
  }

  lemma StartInv(h: Hashes, info: ServerInfo, pairing: bool)
    ensures Inv(h, Start(info, pairing))
  {
  }

  /** The world after an accepted command. */
  function Accepting(w: World, after: Service, step: Step): World {
    World(after.(exchanged := after.exchanged + step.request + step.response), w.accepted + [step])
  }

  lemma AcceptedAdvance(h: Hashes, w: World, input: Input)
    requires DeviceKnown(w.s) && Command(h, w.s, input.command, input.data, input.entropy).1.Accepted?
    ensures var (after, reply) := Command(h, w.s, input.command, input.data, input.entropy);
            Advance(h, w, input) == Accepting(w, after, Step(input.command, input.data, reply.response))
  {
    hide Command;
  }

  /** The part of the invariant about the commands and the transcript. */
  lemma OrderKept(h: Hashes, w: World, after: Service, step: Step)
    requires Inv(h, w) && after.exchanged == w.s.exchanged && after.pairing == w.s.pairing
    requires InOrder(Commands(w.accepted) + [step.command], after.nextCmd, after.pairing)
    ensures var w' := Accepting(w, after, step);
            InOrder(Commands(w'.accepted), w'.s.nextCmd, w'.s.pairing) && w'.s.exchanged == Transcribed(w'.accepted)
  {
    hide DeviceOk, KeyOk, DoneOk;
    Snoc(w.accepted, step);
    hide InOrder, Commands, Transcribed;
  }

  lemma DeviceHasNoVersion(h: Hashes, info: ServerInfo, data: seq<byte>)
    requires |data| == 0x50
    ensures DeviceIn(h, info, data).(version := 0) == DeviceIn(h, info, data)
  {
  }

  lemma BeginKeepsInv(h: Hashes, w: World, data: seq<byte>, entropy: Option<Digest>)
    requires Inv(h, w) && entropy.Some? && DeviceKnown(w.s) && Begin(h, w.s, data, entropy).1.Accepted?
    ensures var (after, reply) := Begin(h, w.s, data, entropy);
            Inv(h, Accepting(w, after, Step(1, data, reply.response)))
  {
    hide DeviceIn, PadTo, Transcribed, Commands;
    DeviceHasNoVersion(h, w.s.info, data);
    var (after, reply) := Begin(h, w.s, data, entropy);
    assert |w.accepted| == 0;
    OrderKept(h, w, after, Step(1, data, reply.response));
  }

  lemma NegotiateKeepsInv(h: Hashes, w: World, data: seq<byte>, entropy: Option<Digest>)
    requires Inv(h, w) && DeviceKnown(w.s) && Negotiate(w.s, data).1.Accepted?
    ensures var (after, reply) := Negotiate(w.s, data);
            Inv(h, Accepting(w, after, Step(2, data, reply.response)))
  {
    hide DeviceIn, PadTo, SelectVersion, Transcribed, Commands;
    var (after, reply) := Negotiate(w.s, data);
    assert |w.accepted| == 1;
    OrderKept(h, w, after, Step(2, data, reply.response));
  }

  lemma GetSecretKeyKeepsInv(h: Hashes, w: World, data: seq<byte>, entropy: Option<Digest>)
    requires Inv(h, w) && DeviceKnown(w.s) && GetSecretKey(w.s, data).1.Accepted?
    ensures var (after, reply) := GetSecretKey(w.s, data);
            Inv(h, Accepting(w, after, Step(3, data, reply.response)))
  {
    hide DeviceIn, Transcribed, Commands, NamesItsID;
    var (after, reply) := GetSecretKey(w.s, data);
    assert |w.accepted| == 2;
    OrderKept(h, w, after, Step(3, data, reply.response));
  }

  lemma FinalizeKeepsInv(h: Hashes, w: World, data: seq<byte>, entropy: Option<Digest>)
    requires Inv(h, w) && DeviceKnown(w.s) && Finalize(h, w.s, data).1.Accepted?
    ensures var (after, reply) := Finalize(h, w.s, data);
            Inv(h, Accepting(w, after, Step(4, data, reply.response)))
  {
    hide DeviceIn, Flushed, Transcribed, Commands, NamesItsID;
    var (after, reply) := Finalize(h, w.s, data);
    var step := Step(4, data, reply.response);
    OrderKept(h, w, after, step);
    if |w.accepted| > 2 {
      ThirdCommand(h, w);
    }
    assert (w.accepted + [step])[..|w.accepted|] == w.accepted;
  }

  lemma ThirdCommand(h: Hashes, w: World)
    requires Inv(h, w) && |w.accepted| > 2
    ensures w.accepted[2].command == Commands(w.accepted)[2]
  {
    hide DeviceOk, KeyOk, DoneOk, InOrder;
  }

  lemma AdvanceKeepsInv(h: Hashes, w: World, input: Input)
    requires Inv(h, w) && DeviceKnown(w.s) && input.entropy.Some?
    ensures Inv(h, Advance(h, w, input))
  {
    hide Inv, Begin, Negotiate, GetSecretKey, Finalize, Accepting;
    if Command(h, w.s, input.command, input.data, input.entropy).1.Accepted? {
      AcceptedAdvance(h, w, input);
      match input.command
      case 1 => BeginKeepsInv(h, w, input.data, input.entropy);
      case 2 => NegotiateKeepsInv(h, w, input.data, input.entropy);
      case 3 => GetSecretKeyKeepsInv(h, w, input.data, input.entropy);
      case 4 => FinalizeKeepsInv(h, w, input.data, input.entropy);
    } else {
      RejectedLeavesUnchanged(h, w.s, input.command, input.data, input.entropy);
    }
  }

  lemma {:induction false} RunKeepsInv(h: Hashes, w: World, inputs: seq<Input>)
    requires Inv(h, w) && DeviceKnown(w.s) && forall i :: i in inputs ==> i.entropy.Some?
    ensures Inv(h, Run(h, w, inputs))
    decreases |inputs|
  {
    hide Inv, Advance;
    if inputs != [] {
      AdvanceKeepsInv(h, w, inputs[0]);
      RunKeepsInv(h, Advance(h, w, inputs[0]), inputs[1..]);
    }
  }

  // ----- safety

  /** The accepted commands are always a prefix of 1, 2, 4 or, only when pairing, of 1, 2, 3, 4. */
  lemma AcceptedCommandsInOrder(h: Hashes, info: ServerInfo, pairing: bool, inputs: seq<Input>)
    requires forall i :: i in inputs ==> i.entropy.Some?
    ensures var c := Commands(Run(h, Start(info, pairing), inputs).accepted);
            c <= [1, 2, 4] || (pairing && c <= [1, 2, 3, 4])
  {
    hide Advance, DeviceOk, Closed;
    StartInv(h, info, pairing);
    RunKeepsInv(h, Start(info, pairing), inputs);
    RunKeepsConfig(h, Start(info, pairing), inputs);
  }

  lemma {:induction false} RunKeepsConfig(h: Hashes, w: World, inputs: seq<Input>)
    requires DeviceKnown(w.s)
    ensures Run(h, w, inputs).s.info == w.s.info && Run(h, w, inputs).s.pairing == w.s.pairing
    decreases |inputs|
  {
    if inputs != [] {
      AdvanceKeepsConfig(h, w, inputs[0]);
      hide Advance;
      RunKeepsConfig(h, Advance(h, w, inputs[0]), inputs[1..]);
    }
  }

  lemma AdvanceKeepsConfig(h: Hashes, w: World, input: Input)
    requires DeviceKnown(w.s)
    ensures Advance(h, w, input).s.info == w.s.info && Advance(h, w, input).s.pairing == w.s.pairing
  {
    hide DeviceIn, PadTo, SelectVersion, Flushed;
  }

  /**
   A device is announced at most once, and only when a finalize was accepted whose digest is that of
   exactly the exchanges accepted before it; the device is the one that began the handshake.
   */
  lemma AnnouncedOnlyWhenMatched(h: Hashes, info: ServerInfo, pairing: bool, inputs: seq<Input>)
    requires forall i :: i in inputs ==> i.entropy.Some?
    ensures var w := Run(h, Start(info, pairing), inputs);
            && |w.s.announced| == (if w.s.done then 1 else 0)
            && (w.s.done ==>
                  && Closed(h, w.accepted) && w.accepted[|w.accepted| - 1].command == 4
                  && |w.accepted[0].request| == 0x50
                  && w.s.announced[0].(version := 0) == DeviceIn(h, info, w.accepted[0].request))
  {
    hide Advance, Closed, DeviceIn, Run;
    StartInv(h, info, pairing);
    RunKeepsInv(h, Start(info, pairing), inputs);
    RunKeepsConfig(h, Start(info, pairing), inputs);
  }

  /** In normal mode a completed handshake offered exactly the pairing ID derived from its own begin. */
  lemma NormalModeRecognizes(h: Hashes, info: ServerInfo, inputs: seq<Input>)
    requires forall i :: i in inputs ==> i.entropy.Some?
    ensures var w := Run(h, Start(info, false), inputs);
            w.s.done ==>
              && |w.accepted| == 3 && |w.accepted[0].request| == 0x50 && |w.accepted[1].request| >= 0x20
              && w.accepted[1].request[..0x20] == DeviceIn(h, info, w.accepted[0].request).pairingID
  {
    hide Advance, Closed, DeviceIn, Run;
    StartInv(h, info, false);
    RunKeepsInv(h, Start(info, false), inputs);
    RunKeepsConfig(h, Start(info, false), inputs);
  }

  /**
   A begin that fails for want of random bytes still moves on: in either mode a negotiate with the pairing ID
   derived from it and a common version is accepted next, as the first command.
   */
  lemma EntropyFailureSkipsBegin(h: Hashes, info: ServerInfo, pairing: bool, begin: seq<byte>, versions: seq<byte>)
    requires |begin| == 0x50 && begin[0] == 1
    requires |versions| < 256 && exists v :: v in info.versions && v in versions
    ensures var negotiate := DeviceIn(h, info, begin).pairingID + [|versions|] + versions;
            var inputs := [Input(1, begin, None), Input(2, negotiate, None)];
            Commands(Run(h, Start(info, pairing), inputs).accepted) == [2]
  {
    hide DeviceIn, PadTo;
    var negotiate := DeviceIn(h, info, begin).pairingID + [|versions|] + versions;
    var inputs := [Input(1, begin, None), Input(2, negotiate, None)];
    var w1 := Advance(h, Start(info, pairing), inputs[0]);
    NegotiateAccepted(h, w1.s, DeviceIn(h, info, begin).pairingID, versions, None);
    RunTwo(h, Start(info, pairing), inputs[0], inputs[1]);
  }

  lemma RunTwo(h: Hashes, w: World, first: Input, second: Input)
    requires DeviceKnown(w.s)
    ensures Run(h, w, [first, second]) == Advance(h, Advance(h, w, first), second)
  {
    hide Advance;
    var w1 := Advance(h, w, first);
    var w2 := Advance(h, w1, second);
    assert [first, second][1..] == [second] && [second][1..] == [];
    assert Run(h, w2, []) == w2;
    assert Run(h, w1, [second]) == w2;
  }

  // ----- liveness: pairing, then reconnecting

  lemma NegotiateAccepted(h: Hashes, s: Service, pairingID: seq<byte>, versions: seq<byte>, entropy: Option<Digest>)
    requires s.nextCmd == 2 && s.device.Some? && |versions| < 256 && pairingID == s.device.value.pairingID
    requires exists v :: v in s.info.versions && v in versions
    ensures Handle(h, s, 2, pairingID + [|versions|] + versions, entropy).1.Accepted?
  {
    hide PadTo;
    var request := pairingID + [|versions|] + versions;
    assert request[..0x20] == pairingID && request[0x20] == |versions| && request[0x21..] == versions;
    SelectsCommonVersion(s.info.versions, versions);
  }

  /** What a client can see: finalize is due once the key was released, or was not needed. */
  predicate FinalizeDue(accepted: seq<Step>) {
    || Commands(accepted) == [1, 2, 3]
    || (Commands(accepted) == [1, 2] && NamesItsID(accepted[1]))
  }

  /** The digest a client computes from the exchanges it saw accepted. */
  function SeenDigest(h: Hashes, accepted: seq<Step>): Digest {
    h.sha256(Flushed(Transcribed(accepted)))
  }

  /**
   Whatever was sent before, rejected messages included: when finalize is due, a client that hashes the
   accepted exchanges it saw completes the handshake, and the answer is the digest of all of them.
   */
  lemma HonestClientCompletes(h: Hashes, info: ServerInfo, pairing: bool, inputs: seq<Input>, entropy: Option<Digest>)
    requires forall i :: i in inputs ==> i.entropy.Some?
    requires FinalizeDue(Run(h, Start(info, pairing), inputs).accepted)
    ensures var w := Run(h, Start(info, pairing), inputs);
            var digest := SeenDigest(h, w.accepted);
            var after := Advance(h, w, Input(4, digest, entropy));
            && after.s.done && |after.s.announced| == 1
            && after.accepted == w.accepted + [Step(4, digest, h.sha256(Transcribed(w.accepted) + digest))]
  {
    hide Run, Flushed, Advance, Transcribed;
    var w := Run(h, Start(info, pairing), inputs);
    StartInv(h, info, pairing);
    RunKeepsInv(h, Start(info, pairing), inputs);
    DueIsFour(h, w);
    FinalizeAccepted(h, w, entropy);
  }

  lemma DueIsFour(h: Hashes, w: World)
    requires Inv(h, w) && FinalizeDue(w.accepted)
    ensures w.s.nextCmd == 4 && w.s.device.Some?
  {
    hide Transcribed, DeviceIn;
  }

  lemma FinalizeAccepted(h: Hashes, w: World, entropy: Option<Digest>)
    requires Inv(h, w) && w.s.nextCmd == 4 && w.s.device.Some?
    ensures var digest := SeenDigest(h, w.accepted);
            var after := Advance(h, w, Input(4, digest, entropy));
            && after.s.done && |after.s.announced| == 1
            && after.accepted == w.accepted + [Step(4, digest, h.sha256(Transcribed(w.accepted) + digest))]
  {
    hide Flushed, Transcribed, DeviceOk, KeyOk, InOrder, Commands;
  }

  /** The begin requests name the same device. */
  predicate SameDevice(a: seq<byte>, b: seq<byte>) {
    |a| == |b| == 0x50 && a[0x20..0x30] == b[0x20..0x30] && UpToZero(a[0x10..0x20]) == UpToZero(b[0x10..0x20])
  }

  lemma SameDeviceSameID(h: Hashes, info: ServerInfo, a: seq<byte>, b: seq<byte>)
    requires SameDevice(a, b)
    ensures |a| == |b| == 0x50 && DeviceIn(h, info, a) == DeviceIn(h, info, b)
  {
  }

  /** In any run the accepted negotiate hands out the pairing ID derived from the accepted begin. */
  lemma PairingIDHandedOut(h: Hashes, info: ServerInfo, pairing: bool, inputs: seq<Input>)
    requires forall i :: i in inputs ==> i.entropy.Some?
    ensures var accepted := Run(h, Start(info, pairing), inputs).accepted;
            |accepted| >= 2 ==>
              && |accepted[0].request| == 0x50 && |accepted[1].response| >= 0x20
              && accepted[1].response[..0x20] == DeviceIn(h, info, accepted[0].request).pairingID
  {
    hide Advance, Closed, DeviceIn, Run;
    StartInv(h, info, pairing);
    RunKeepsInv(h, Start(info, pairing), inputs);
    RunKeepsConfig(h, Start(info, pairing), inputs);
  }

  lemma {:induction false} RunAppend(h: Hashes, w: World, a: seq<Input>, b: seq<Input>)
    requires DeviceKnown(w.s)
    ensures Run(h, w, a + b) == Run(h, Run(h, w, a), b)
    decreases |a|
  {
    hide Advance;
    if a == [] {
      assert a + b == b;
    } else {
      assert (a + b)[1..] == a[1..] + b;
      RunAppend(h, Advance(h, w, a[0]), a[1..], b);
    }
  }

  lemma RunOne(h: Hashes, w: World, input: Input)
    requires DeviceKnown(w.s)
    ensures Run(h, w, [input]) == Advance(h, w, input)
  {
    hide Advance;
    assert [input][1..] == [];
    assert Run(h, Advance(h, w, input), []) == Advance(h, w, input);
  }

  /** The negotiate of a device that reconnects: the pairing ID it was handed, and its versions. */
  function Reconnecting(handedOut: seq<byte>, versions: seq<byte>): seq<byte>
    requires |handedOut| >= 0x20 && |versions| < 256
  {
    handedOut[..0x20] + [|versions|] + versions
  }

  /**
   Pair, then reconnect. Take any pairing-mode run `p` that accepted a negotiate, and any normal-mode run `q`
   that has accepted just the begin of the same device. The ID handed out in `p` is recognised after `q`, and
   after whatever follows that is not accepted, `noise`, the honest digest completes the handshake.
   */
  lemma PairThenReconnect(h: Hashes, info: ServerInfo, p: seq<Input>, q: seq<Input>, versions: seq<byte>,
                          random: Digest, noise: seq<Input>)
    requires forall i :: i in p || i in q || i in noise ==> i.entropy.Some?
    requires var paired, begun := Run(h, Start(info, true), p).accepted, Run(h, Start(info, false), q).accepted;
             |paired| >= 2 && |begun| == 1 && SameDevice(paired[0].request, begun[0].request)
    requires |versions| < 256 && exists v :: v in info.versions && v in versions
    ensures var paired, begun := Run(h, Start(info, true), p).accepted, Run(h, Start(info, false), q).accepted;
            && |paired[1].response| >= 0x20
            && var negotiate := Input(2, Reconnecting(paired[1].response, versions), Some(random));
            var known := Run(h, Start(info, false), q + [negotiate]).accepted;
            && |known| == 2 && known[0] == begun[0] && known[1].request == negotiate.data
            && var w := Run(h, Start(info, false), q + [negotiate] + noise);
            w.accepted == known ==>
              var digest := SeenDigest(h, known);
              var after := Advance(h, w, Input(4, digest, Some(random)));
              && after.s.done && |after.s.announced| == 1
              && after.accepted == known + [Step(4, digest, h.sha256(Transcribed(known) + digest))]
  {
    hide Run, Advance, SeenDigest, Transcribed, SameDevice, DeviceIn;
    PairingIDHandedOut(h, info, true, p);
    var handedOut := Run(h, Start(info, true), p).accepted[1].response;
    SameDeviceSameID(h, info, Run(h, Start(info, true), p).accepted[0].request,
                     Run(h, Start(info, false), q).accepted[0].request);
    var negotiate := Input(2, Reconnecting(handedOut, versions), Some(random));
    Recognised(h, info, q, handedOut, versions, random);
    var all := q + [negotiate] + noise;
    if Run(h, Start(info, false), all).accepted == Run(h, Start(info, false), q + [negotiate]).accepted {
      HonestClientCompletes(h, info, false, all, Some(random));
    }
  }

  /** The recognition half: a negotiate with the derived pairing ID is accepted and leads to finalize. */
  lemma Recognised(h: Hashes, info: ServerInfo, q: seq<Input>, handedOut: seq<byte>, versions: seq<byte>,
                   random: Digest)
    requires forall i :: i in q ==> i.entropy.Some?
    requires |versions| < 256 && exists v :: v in info.versions && v in versions
    requires |handedOut| >= 0x20
    requires var begun := Run(h, Start(info, false), q).accepted;
             |begun| == 1 && |begun[0].request| == 0x50
             && handedOut[..0x20] == DeviceIn(h, info, begun[0].request).pairingID
    ensures var begun := Run(h, Start(info, false), q).accepted;
            var negotiate := Input(2, Reconnecting(handedOut, versions), Some(random));
            var known := Run(h, Start(info, false), q + [negotiate]).accepted;
            && |known| == 2 && known[0] == begun[0] && known[1].request == negotiate.data && FinalizeDue(known)
  {
    hide Run, Advance, DeviceIn, Transcribed, Closed;
    var w := Run(h, Start(info, false), q);
    StartInv(h, info, false);
    RunKeepsInv(h, Start(info, false), q);
    RunKeepsConfig(h, Start(info, false), q);
    BegunIsTwo(h, w);
    var negotiate := Input(2, Reconnecting(handedOut, versions), Some(random));
    NegotiateAccepted(h, w.s, handedOut[..0x20], versions, Some(random));
    RunAppend(h, Start(info, false), q, [negotiate]);
    RunOne(h, w, negotiate);
    NegotiateRecorded(h, w, negotiate);
  }

  lemma BegunIsTwo(h: Hashes, w: World)
    requires Inv(h, w) && |w.accepted| == 1
    ensures w.s.nextCmd == 2 && Commands(w.accepted) == [1]
  {
    hide Transcribed, DeviceOk, KeyOk, DoneOk;
  }

  lemma NegotiateRecorded(h: Hashes, w: World, negotiate: Input)
    requires Inv(h, w) && DeviceKnown(w.s) && |w.accepted| == 1 && Commands(w.accepted) == [1] && w.s.nextCmd == 2
    requires negotiate.command == 2 && w.s.device.Some?
    requires |negotiate.data| >= 0x20 && negotiate.data[..0x20] == w.s.device.value.pairingID
    requires Handle(h, w.s, 2, negotiate.data, negotiate.entropy).1.Accepted?
    ensures var known := Advance(h, w, negotiate).accepted;
            && |known| == 2 && known[0] == w.accepted[0] && known[1].request == negotiate.data && FinalizeDue(known)
  {
    hide PadTo, Transcribed, DeviceOk, KeyOk, DoneOk, SelectVersion, Commands;
    var step := Step(2, negotiate.data, Handle(h, w.s, 2, negotiate.data, negotiate.entropy).1.response);
    Snoc(w.accepted, step);
    assert [1] + [2] == [1, 2];
  }
}
