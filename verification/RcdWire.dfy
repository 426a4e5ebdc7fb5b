/**
 What goes over an RCD connection, byte by byte: when a message is read and what it says, what is written for
 one, and the answer to every message of a connection.
 */
module RcdWire {
  import opened Bytes
  import opened RcdMessage
  import opened RcdTranscript
  import opened RcdHandshake
  import opened RcdRuns
  import opened RcdServer
  import opened RcdConnection
  import opened RcdProtocol
  import opened Options

  // ----- messages

  /** The header's fields, and the data behind it. */
  predicate Says(bytes: seq<byte>, msg: Message)
    requires |bytes| >= 16
  {
    && msg.service == Number(bytes[0..2]) && msg.command == Number(bytes[2..4]) && msg.status == Number(bytes[8..12])
    && msg.isResponse == (bytes[12] % 2 == 1) && msg.data == bytes[16..]
  }

  /**
   Reading the next message: a whole header first, then as many bytes as it declares, if these are at most 4096.
   Nothing behind the message is taken, and of a stream that ends too early nothing is left.
   */
  lemma ReadsExactly(stream: seq<byte>)
    ensures var (r, rest) := ReadNext(stream);
            if stream == [] then r == Err(EndOfFile) && rest == []
            else if |stream| < 16 then r == Err(UnexpectedEOF) && rest == []
            else
              var n := Number(stream[4..8]);
              if n > 4096 then r == Err(PayloadTooLarge) && rest == stream[16..]
              else if |stream| < 16 + n then
                r == Err(if |stream| == 16 then EndOfFile else UnexpectedEOF) && rest == []
              else r.Ok? && Says(stream[..16 + n], r.value) && rest == stream[16 + n..]
  {
    if |stream| >= 16 {
      Be32IsNumber(stream[4..8]);
      assert stream[..16][4..8] == stream[4..8];
      var n := Be32(stream[4..8]);
      if n <= 4096 && 16 + n <= |stream| {
        DecodedSays(stream[..16 + n]);
        assert stream[..16] + stream[16..][..n] == stream[..16 + n];
        assert stream[16..][n..] == stream[16 + n..];
        assert stream[..16 + n][4..8] == stream[4..8];
      }
      hide Be16, Be32, Number, DecodeMessage;
    }
  }

  lemma DecodedSays(bytes: seq<byte>)
    requires |bytes| >= 16 && Be32(bytes[4..8]) <= 4096 && |bytes| == 16 + Be32(bytes[4..8])
    ensures DecodeMessage(bytes).Ok? && Says(bytes, DecodeMessage(bytes).value)
  {
    Be16IsNumber(bytes[0..2]);
    Be16IsNumber(bytes[2..4]);
    Be32IsNumber(bytes[8..12]);
    hide Be16, Be32, Number;
    assert bytes[16..|bytes|] == bytes[16..];
  }

  /** What is written for a message: its fields, the length of its data, and zeros where nothing is defined. */
  lemma WritesExactly(msg: Message)
    ensures var b := Encoded(msg);
            && |b| == 16 + |msg.data| && Says(b, msg) && Number(b[4..8]) == |msg.data| % 0x1_0000_0000
            && b[12..16] == [if msg.isResponse then 1 else 0, 0, 0, 0]
  {
    var b := Encoded(msg);
    HeaderFields(msg, msg.data);
    Be16IsNumber(b[0..2]);
    Be16IsNumber(b[2..4]);
    Be32IsNumber(b[4..8]);
    Be32IsNumber(b[8..12]);
    hide Be16, Be32, Number, PutBe16, PutBe32;
    assert b[16..] == msg.data;
    assert b[12..16] == Header(msg)[12..];
  }

  // ----- answers

  /** A response carries an answer: status zero and the data, or the status of the refusal and nothing. */
  predicate Carries(r: Message, reply: Reply) {
    match reply
    case Accepted(data) => r.status == 0 && r.data == data
    case Rejected(code) =>
      r.data == [] && r.status == (
        match code
        case MissizedPayload => 0x708E8
        case BadRequest => 0x710E8
        case VersionMismatch => 0x800E8
        case Sequence => 0x810E8
        case BadVersions => 0x820E8
        case BadHash => 0x830E8
        case UnrecognizedDevice => 0x850E8)
  }

  /** What a message is answered with after the exchanges `accepted`: requests for service 1 alone are handshake. */
  ghost predicate AnsweredBy(h: Hashes, info: ServerInfo, pairing: bool, accepted: seq<Step>, msg: Message,
                             entropy: Option<Digest>, r: Message)
    requires Sized(accepted) && |info.name| < 16
  {
    && r.isResponse && r.service == msg.service && r.command == msg.command
    && exists reply ::
         && Carries(r, reply)
         && if msg.isResponse || msg.service != 1 then reply == Rejected(BadRequest)
            else Answered(h, info, pairing, accepted, Input(msg.command, msg.data, entropy), reply)
  }

  lemma {:induction false} ResponseAt(h: Hashes, s: Service, messages: seq<Message>, entropy: Entropy, n: nat, i: nat)
    requires DeviceKnown(s) && i < n <= |messages|
    ensures Responses(h, s, messages, entropy, n)[i] ==
            Respond(h, ServiceAfter(h, s, messages, entropy, i), messages[i], entropy(i)).1
    decreases n
  {
    hide Respond, ServiceAfter;
    if i < n - 1 {
      ResponseAt(h, s, messages, entropy, n - 1, i);
    }
  }

  lemma RespondCarries(h: Hashes, s: Service, msg: Message, entropy: Option<Digest>)
    requires DeviceKnown(s)
    ensures var r := Respond(h, s, msg, entropy).1;
            && r.isResponse && r.service == msg.service && r.command == msg.command
            && Carries(r, if msg.isResponse || msg.service != 1 then Rejected(BadRequest)
                          else Handle(h, s, msg.command, msg.data, entropy).1)
  {
    hide Handle;
  }

  /**
   Every message on a connection gets the answer that follows from its bytes and the exchanges accepted before it,
   in a response that echoes its service and command.
   */
  lemma EveryMessageAnswered(h: Hashes, info: ServerInfo, pairing: bool, messages: seq<Message>, entropy: Entropy,
                             i: nat)
    requires |info.name| < 16 && i < |messages| && forall k :: 0 <= k < i ==> entropy(k).Some?
    ensures var accepted := Run(h, Start(info, pairing), Requests(messages, entropy, i)).accepted;
            && Sized(accepted)
            && AnsweredBy(h, info, pairing, accepted, messages[i], entropy(i),
                          Responses(h, NewService(info, pairing), messages, entropy, |messages|)[i])
  {
    hide Run, Requests, Answered, Handle, Respond, Responses, ServiceAfter, Sized;
    var msg, s := messages[i], ServiceAfter(h, NewService(info, pairing), messages, entropy, i);
    RequestsDraw(messages, entropy, i);
    ServiceAfterIsRun(h, info, pairing, messages, entropy, i);
    ResponseAt(h, NewService(info, pairing), messages, entropy, |messages|, i);
    RespondCarries(h, s, msg, entropy(i));
    EveryAnswerIsRight(h, info, pairing, Requests(messages, entropy, i), Input(msg.command, msg.data, entropy(i)));
    var reply := if msg.isResponse || msg.service != 1 then Rejected(BadRequest)
                 else Handle(h, s, msg.command, msg.data, entropy(i)).1;
    assert Carries(Responses(h, NewService(info, pairing), messages, entropy, |messages|)[i], reply);
  }
}
