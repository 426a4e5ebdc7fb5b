/** What the bytes received on one connection can bring about. */
module RcdConnection {
  import opened Bytes
  import opened RcdMessage
  import opened RcdTranscript
  import opened RcdHandshake
  import opened RcdRuns
  import opened RcdServer
  import opened Options

  /** What reaches the handshake service of the first `n` messages. */
  function Requests(messages: seq<Message>, entropy: Entropy, n: nat): seq<Input>
    requires n <= |messages|
  {
    if n == 0 then []
    else
      var msg := messages[n - 1];
      Requests(messages, entropy, n - 1) +
      if Routable(msg) then [Input(msg.command, msg.data, entropy(n - 1))] else []
  }

  lemma {:induction false} RequestsDraw(messages: seq<Message>, entropy: Entropy, n: nat)
    requires n <= |messages| && forall i :: 0 <= i < n ==> entropy(i).Some?
    ensures forall x :: x in Requests(messages, entropy, n) ==> x.entropy.Some?
    decreases n
  {
    if n > 0 {
      RequestsDraw(messages, entropy, n - 1);
    }
  }

  lemma RespondAdvances(h: Hashes, w: World, msg: Message, entropy: Option<Digest>)
    requires DeviceKnown(w.s)
    ensures Respond(h, w.s, msg, entropy).0 ==
            if Routable(msg) then Advance(h, w, Input(msg.command, msg.data, entropy)).s else w.s
  {
    hide Handle, Routable, Response;
  }

  lemma RequestAdded(h: Hashes, w: World, before: seq<Input>, msg: Message, entropy: Option<Digest>)
    requires DeviceKnown(w.s)
    ensures var more := if Routable(msg) then [Input(msg.command, msg.data, entropy)] else [];
            Run(h, w, before + more).s == Respond(h, Run(h, w, before).s, msg, entropy).0
  {
    hide Respond, Advance, Run, Routable;
    RespondAdvances(h, Run(h, w, before), msg, entropy);
    if Routable(msg) {
      var input := Input(msg.command, msg.data, entropy);
      RunAppend(h, w, before, [input]);
      RunOne(h, Run(h, w, before), input);
    } else {
      assert before + [] == before;
    }
  }

  /** The service that answers a connection goes through the run of the requests routed to it. */
  lemma {:induction false} ServiceAfterIsRun(h: Hashes, info: ServerInfo, pairing: bool, messages: seq<Message>,
                                              entropy: Entropy, n: nat)
    requires n <= |messages|
    ensures ServiceAfter(h, NewService(info, pairing), messages, entropy, n) ==
            Run(h, Start(info, pairing), Requests(messages, entropy, n)).s
    decreases n
  {
    hide Respond, Advance, Routable;
    if n > 0 {
      ServiceAfterIsRun(h, info, pairing, messages, entropy, n - 1);
      RequestAdded(h, Start(info, pairing), Requests(messages, entropy, n - 1), messages[n - 1], entropy(n - 1));
      hide Run;
    }
  }

  /** Every exchange the service accepted was asked for by a message on the connection. */
  lemma {:induction false} AcceptedWasRequested(h: Hashes, w: World, inputs: seq<Input>, step: Step)
    requires DeviceKnown(w.s) && step in Run(h, w, inputs).accepted
    ensures step in w.accepted || exists x :: x in inputs && x.command == step.command && x.data == step.request
    decreases |inputs|
  {
    hide Handle;
    if inputs != [] {
      var w1 := Advance(h, w, inputs[0]);
      AcceptedWasRequested(h, w1, inputs[1..], step);
      if step in w1.accepted && step !in w.accepted {
        assert inputs[0] in inputs && inputs[0].command == step.command && inputs[0].data == step.request;
      }
    }
  }

  /**
   Whatever bytes arrive on a connection served from a new service, a device is announced, and reported as
   gone at the end, only if the messages in them carried a handshake whose last digest matches exactly the
   exchanges accepted before it, begun by that device.
   */
  lemma AnnouncedByBytes(h: Hashes, info: ServerInfo, pairing: bool, bytes: seq<byte>, entropy: Entropy)
    requires forall i :: 0 <= i < |ReadAll(bytes).0| ==> entropy(i).Some?
    ensures var messages := ReadAll(bytes).0;
            var s := ServiceAfter(h, NewService(info, pairing), messages, entropy, |messages|);
            var requests := Requests(messages, entropy, |messages|);
            var accepted := Run(h, Start(info, pairing), requests).accepted;
            && |s.announced| == (if s.done then 1 else 0)
            && (s.done ==>
                  && Closed(h, accepted) && accepted[|accepted| - 1].command == 4
                  && |accepted[0].request| == 0x50
                  && s.device == Some(s.announced[0])
                  && s.announced[0].(version := 0) == DeviceIn(h, info, accepted[0].request))
            && (forall step :: step in accepted ==>
                  exists x :: x in requests && x.command == step.command && x.data == step.request)
  {
    var messages := ReadAll(bytes).0;
    var requests := Requests(messages, entropy, |messages|);
    RequestsDraw(messages, entropy, |messages|);
    ServiceAfterIsRun(h, info, pairing, messages, entropy, |messages|);
    hide Advance, Closed, DeviceIn, Run, ServiceAfter, Requests, ReadAll;
    AnnouncedOnlyWhenMatched(h, info, pairing, requests);
    AnnouncedIsDevice(h, info, pairing, requests);
    forall step | step in Run(h, Start(info, pairing), requests).accepted
      ensures exists x :: x in requests && x.command == step.command && x.data == step.request
    {
      AcceptedWasRequested(h, Start(info, pairing), requests, step);
    }
  }

  lemma AnnouncedIsDevice(h: Hashes, info: ServerInfo, pairing: bool, inputs: seq<Input>)
    requires forall i :: i in inputs ==> i.entropy.Some?
    ensures var s := Run(h, Start(info, pairing), inputs).s;
            s.done ==> s.device.Some? && s.announced == [s.device.value]
  {
    hide Advance, Closed, DeviceIn, Run;
    StartInv(h, info, pairing);
    RunKeepsInv(h, Start(info, pairing), inputs);
  }
}
