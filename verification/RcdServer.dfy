/** Serving one RCD connection: every message read is answered, in order, until reading fails. */
module RcdServer {
  import opened Bytes
  import opened RcdMessage
  import opened RcdTranscript
  import opened RcdHandshake
  import opened RcdService
  import opened Options

  const HANDSHAKE_SERVICE_ID: u16 := 1

  /** What the random source yields for the n-th message. */
  type Entropy = nat -> Option<Digest>

  function Status(code: Code): u32 {
    match code
    case MissizedPayload => 0x708e8
    case BadRequest => 0x710e8
    case VersionMismatch => 0x800e8
    case Sequence => 0x810e8
    case BadVersions => 0x820e8
    case BadHash => 0x830e8
    case UnrecognizedDevice => 0x850e8
  }

  /** Only requests for the handshake service are routed to it. */
  predicate Routable(msg: Message) {
    !msg.isResponse && msg.service == HANDSHAKE_SERVICE_ID
  }

  function Response(msg: Message, reply: Reply): Message {
    Message(msg.service, msg.command, if reply.Rejected? then Status(reply.code) else 0, true,
            if reply.Accepted? then reply.response else [])
  }

  function Respond(h: Hashes, s: Service, msg: Message, entropy: Option<Digest>): (r: (Service, Message))
    requires DeviceKnown(s)
    ensures DeviceKnown(r.0)
  {
    HandleKeepsDeviceKnown(h, s, msg.command, msg.data, entropy);
    if !Routable(msg) then (s, Response(msg, Rejected(BadRequest)))
    else
      var (after, reply) := Handle(h, s, msg.command, msg.data, entropy);
      (after, Response(msg, reply))
  }

  /** The service after the first `n` messages. */
  function ServiceAfter(h: Hashes, s: Service, messages: seq<Message>, entropy: Entropy, n: nat): (r: Service)
    requires DeviceKnown(s) && n <= |messages|
    ensures DeviceKnown(r)
  {
    if n == 0 then s else Respond(h, ServiceAfter(h, s, messages, entropy, n - 1), messages[n - 1], entropy(n - 1)).0
  }

  /** The answers to the first `n` messages. */
  function Responses(h: Hashes, s: Service, messages: seq<Message>, entropy: Entropy, n: nat): (r: seq<Message>)
    requires DeviceKnown(s) && n <= |messages|
    ensures |r| == n
  {
    if n == 0 then []
    else Responses(h, s, messages, entropy, n - 1)
         + [Respond(h, ServiceAfter(h, s, messages, entropy, n - 1), messages[n - 1], entropy(n - 1)).1]
  }

  /** Earlier messages decide what was answered so far, whatever follows. */
  lemma {:induction false} PrefixDecides(h: Hashes, s: Service, messages: seq<Message>, more: seq<Message>,
                                         entropy: Entropy, n: nat)
    requires DeviceKnown(s) && n <= |messages|
    ensures ServiceAfter(h, s, messages + more, entropy, n) == ServiceAfter(h, s, messages, entropy, n)
    ensures Responses(h, s, messages + more, entropy, n) == Responses(h, s, messages, entropy, n)
    decreases n
  {
    if n > 0 {
      PrefixDecides(h, s, messages, more, entropy, n - 1);
      assert (messages + more)[n - 1] == messages[n - 1];
    }
  }

  lemma {:induction false} EncodedAllSnoc(messages: seq<Message>, msg: Message)
    ensures EncodedAll(messages + [msg]) == EncodedAll(messages) + Encoded(msg)
  {
    hide Encoded;
    if messages == [] {
      assert [msg][1..] == [];
      assert EncodedAll([msg]) == Encoded(msg) + [];
      assert [] + [msg] == [msg];
    } else {
      assert (messages + [msg])[1..] == messages[1..] + [msg];
      EncodedAllSnoc(messages[1..], msg);
    }
  }

  class Server {
    const conn: Conn
    const service: HandshakeService
    /** The bytes written to the peer. */
    var output: seq<byte>
    /** The devices whose disconnection was reported. */
    var disconnected: seq<Device>

    constructor (conn: Conn, service: HandshakeService)
      ensures this.conn == conn && this.service == service && output == [] && disconnected == []
    {
      this.conn, this.service, output, disconnected := conn, service, [], [];
    }

    /** Answer one message. */
    method Answer(msg: Message, entropy: Option<Digest>)
      requires service.Ok()
      modifies this`output, service, service.transcript
      ensures service.Ok()
      ensures var r := Respond(service.h, old(service.State()), msg, entropy);
              service.State() == r.0 && output == old(output) + Encoded(r.1)
    {
      hide Encoded, Handle;
      var reply := Rejected(BadRequest);
      if Routable(msg) {
        reply := service.Handle(msg.command, msg.data, entropy);
      }
      var bytes := EncodeMessage(Response(msg, reply));
      output := output + bytes;
    }

    /**
     Until reading fails, each message on the connection is answered by exactly one response, in order. A
     device announced on the way is reported as gone at the end.
     */
    method Serve(entropy: Entropy) returns (error: Error)
      requires service.Ok() && output == [] && disconnected == []
      requires service.announced == [] && !service.done
      modifies this, conn, service, service.transcript
      ensures service.Ok()
      ensures var (messages, e) := ReadAll(old(conn.pending));
              && error == e
              && service.State() == ServiceAfter(service.h, old(service.State()), messages, entropy, |messages|)
              && output == EncodedAll(Responses(service.h, old(service.State()), messages, entropy, |messages|))
      ensures disconnected == if service.done && service.device.Some? then [service.device.value] else []
    {
      ghost var s0, all, failure := service.State(), ReadAll(conn.pending).0, ReadAll(conn.pending).1;
      ghost var handled: seq<Message> := [];
      var count := 0;
      hide ReadNext, Encoded, Respond;
      while true
        invariant count == |handled|
        invariant service.Ok() && disconnected == []
        invariant all == handled + ReadAll(conn.pending).0 && failure == ReadAll(conn.pending).1
        invariant service.State() == ServiceAfter(service.h, s0, handled, entropy, |handled|)
        invariant output == EncodedAll(Responses(service.h, s0, handled, entropy, |handled|))
        decreases |conn.pending|
      {
        ReadIsBounded(conn.pending);
        var msg := conn.ReadMessage();
        if msg.Err? {
          error := msg.error;
          break;
        }
        ghost var now := handled + [msg.value];
        PrefixDecides(service.h, s0, handled, [msg.value], entropy, |handled|);
        EncodedAllSnoc(Responses(service.h, s0, now, entropy, |handled|),
                       Respond(service.h, service.State(), msg.value, entropy(|handled|)).1);
        Answer(msg.value, entropy(count));
        count := count + 1;
        handled := now;
        Regroup(all, now, msg.value, ReadAll(conn.pending).0);
      }
      assert handled + [] == handled;
      if service.done && service.device.Some? {
        disconnected := [service.device.value];
      }
    }
  }

  lemma Regroup<T>(all: seq<T>, now: seq<T>, x: T, rest: seq<T>)
    requires |now| > 0 && now[|now| - 1] == x && all == now[..|now| - 1] + ([x] + rest)
    ensures all == now + rest
  {
  }

  // ----- the peer's side

  lemma ResponseBounded(h: Hashes, s: Service, msg: Message, entropy: Option<Digest>)
    requires DeviceKnown(s) && ValidInfo(s.info)
    ensures |Respond(h, s, msg, entropy).1.data| <= 0x50
    ensures Respond(h, s, msg, entropy).0.info == s.info
  {
    hide DeviceIn, SelectVersion, Flushed;
  }

  lemma ResponseEchoes(h: Hashes, s: Service, msg: Message, entropy: Option<Digest>)
    requires DeviceKnown(s)
    ensures var r := Respond(h, s, msg, entropy).1;
            r.isResponse && r.service == msg.service && r.command == msg.command && (r.status != 0 ==> r.data == [])
  {
    hide Handle;
  }

  lemma {:induction false} InfoKept(h: Hashes, s: Service, messages: seq<Message>, entropy: Entropy, n: nat)
    requires DeviceKnown(s) && ValidInfo(s.info) && n <= |messages|
    ensures ServiceAfter(h, s, messages, entropy, n).info == s.info
    decreases n
  {
    hide Respond;
    if n > 0 {
      InfoKept(h, s, messages, entropy, n - 1);
      ResponseBounded(h, ServiceAfter(h, s, messages, entropy, n - 1), messages[n - 1], entropy(n - 1));
    }
  }

  /** The i-th response answers the i-th message: it echoes its service and command. */
  lemma {:induction false} ResponseAnswersMessage(h: Hashes, s: Service, messages: seq<Message>, entropy: Entropy,
                                                  n: nat, i: nat)
    requires DeviceKnown(s) && ValidInfo(s.info) && i < n <= |messages|
    ensures var r := Responses(h, s, messages, entropy, n)[i];
            && r.isResponse && r.service == messages[i].service && r.command == messages[i].command
            && |r.data| <= 0x50 && (r.status != 0 ==> r.data == [])
    decreases n
  {
    hide Respond;
    if i < n - 1 {
      ResponseAnswersMessage(h, s, messages, entropy, n - 1, i);
    } else {
      InfoKept(h, s, messages, entropy, n - 1);
      ResponseBounded(h, ServiceAfter(h, s, messages, entropy, n - 1), messages[n - 1], entropy(n - 1));
      ResponseEchoes(h, ServiceAfter(h, s, messages, entropy, n - 1), messages[n - 1], entropy(n - 1));
    }
  }

  /** A peer with a valid configuration reads back from the output exactly the responses, one per message. */
  lemma OutputIsReadable(h: Hashes, s: Service, messages: seq<Message>, entropy: Entropy)
    requires DeviceKnown(s) && ValidInfo(s.info)
    ensures var responses := Responses(h, s, messages, entropy, |messages|);
            ReadAll(EncodedAll(responses)) == (responses, EndOfFile)
  {
    hide Respond;
    var responses := Responses(h, s, messages, entropy, |messages|);
    forall r | r in responses
      ensures |r.data| <= MAX_PAYLOAD_SIZE
    {
      var i :| 0 <= i < |responses| && responses[i] == r;
      ResponseAnswersMessage(h, s, messages, entropy, |messages|, i);
    }
    FramingRoundTrip(responses);
  }
}
