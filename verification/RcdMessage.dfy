/** RCD messages: a 16-byte header and a bounded payload, read from a byte stream one after the other. */
module RcdMessage {
  import opened Bytes

  const HEADER_SIZE: nat := 16
  const MAX_PAYLOAD_SIZE: nat := 0x1000

  type u16 = x: int | 0 <= x < 0x1_0000
  type u32 = x: int | 0 <= x < 0x1_0000_0000

  datatype Message = Message(service: u16, command: u16, status: u32, isResponse: bool, data: seq<byte>)

  /** `EndOfFile` when nothing at all was left to read, `UnexpectedEOF` when something was. */
  datatype Error = EndOfFile | UnexpectedEOF | PayloadTooLarge
  datatype Result<+T> = Ok(value: T) | Err(error: Error)

  // ----- one message

  function MessageSize(buf: seq<byte>): Result<nat> {
    if |buf| < HEADER_SIZE then Err(UnexpectedEOF)
    else if Be32(buf[4..8]) > MAX_PAYLOAD_SIZE then Err(PayloadTooLarge)
    else Ok(HEADER_SIZE + Be32(buf[4..8]))
  }

  function DecodeMessage(buf: seq<byte>): Result<Message> {
    match MessageSize(buf)
    case Err(e) => Err(e)
    case Ok(size) =>
      if |buf| < size then Err(UnexpectedEOF)
      else Ok(Message(Be16(buf[0..2]), Be16(buf[2..4]), Be32(buf[8..12]), buf[12] % 2 == 1, buf[HEADER_SIZE..size]))
  }

  /** The header; a length beyond 32 bits is cut to its low 32. */
  function Header(msg: Message): (h: seq<byte>)
    ensures |h| == HEADER_SIZE
  {
    PutBe16(msg.service) + PutBe16(msg.command) + PutBe32(|msg.data|) + PutBe32(msg.status)
    + [if msg.isResponse then 1 else 0, 0, 0, 0]
  }

  function Encoded(msg: Message): seq<byte> {
    Header(msg) + msg.data
  }

  /** A zeroed buffer, with the fields written into it one by one. */
  method EncodeMessage(msg: Message) returns (r: seq<byte>)
    ensures r == Encoded(msg)
  {
    var buf := new byte[HEADER_SIZE + |msg.data|](_ => 0);
    assert Written(buf[..], []);
    hide Written, PutBe16, PutBe32;
    ghost var d1, d2 := PutBe16(msg.service), PutBe16(msg.service) + PutBe16(msg.command);
    ghost var d3 := d2 + PutBe32(|msg.data|);
    ghost var d4 := d3 + PutBe32(msg.status);
    ghost var flag: seq<byte> := [if msg.isResponse then 1 else 0];
    AppendField(buf, PutBe16(msg.service), [], 0);
    assert [] + d1 == d1;
    AppendField(buf, PutBe16(msg.command), d1, 2);
    AppendField(buf, PutBe32(|msg.data|), d2, 4);
    AppendField(buf, PutBe32(msg.status), d3, 8);
    AppendField(buf, if msg.isResponse then [1] else [0], d4, 12);
    CopyField(buf, HEADER_SIZE, msg.data, d4 + flag);
    r := buf[..];
    WrittenFully(r, d4 + flag + Zeros(3) + msg.data);
    assert flag + Zeros(3) == [if msg.isResponse then 1 else 0, 0, 0, 0];
    assert d4 + flag + Zeros(3) == d4 + (flag + Zeros(3));
  }

  lemma Be16OfPut(n: u16)
    ensures Be16(PutBe16(n)) == n
  {
  }

  lemma HeaderFields(msg: Message, rest: seq<byte>)
    ensures var b := Header(msg) + rest;
            && Be16(b[0..2]) == msg.service && Be16(b[2..4]) == msg.command
            && Be32(b[4..8]) == |msg.data| % 0x1_0000_0000 && Be32(b[8..12]) == msg.status
            && (b[12] % 2 == 1 <==> msg.isResponse)
  {
    hide PutBe16, PutBe32, Be16, Be32;
    var b := Header(msg) + rest;
    assert b[0..2] == PutBe16(msg.service) && b[2..4] == PutBe16(msg.command);
    assert b[4..8] == PutBe32(|msg.data|) && b[8..12] == PutBe32(msg.status);
    Be16OfPut(msg.service);
    Be16OfPut(msg.command);
    Be32OfPut(|msg.data|);
    Be32OfPut(msg.status);
  }

  /** Decoding an encoded message gives it back exactly when its payload is within the bound. */
  lemma DecodeEncoded(msg: Message)
    ensures DecodeMessage(Encoded(msg)) == Ok(msg) <==> |msg.data| <= MAX_PAYLOAD_SIZE
  {
    hide Header, Be16, Be32;
    HeaderFields(msg, msg.data);
    var buf := Encoded(msg);
    if |msg.data| <= MAX_PAYLOAD_SIZE {
      assert buf[HEADER_SIZE..HEADER_SIZE + |msg.data|] == msg.data;
    }
  }

  // ----- the stream

  /** `io.ReadFull`: all of the next `n` bytes, or an error and nothing left. */
  function ReadFull(stream: seq<byte>, n: nat): (Result<seq<byte>>, seq<byte>) {
    if n <= |stream| then (Ok(stream[..n]), stream[n..])
    else if stream == [] then (Err(EndOfFile), [])
    else (Err(UnexpectedEOF), [])
  }

  /** The next message of a stream, and the stream behind what was read for it. */
  function ReadNext(stream: seq<byte>): (Result<Message>, seq<byte>) {
    var (header, behind) := ReadFull(stream, HEADER_SIZE);
    if header.Err? then (Err(header.error), behind)
    else
      match MessageSize(header.value)
      case Err(e) => (Err(e), behind)
      case Ok(size) =>
        var (payload, rest) := ReadFull(behind, size - HEADER_SIZE);
        if payload.Err? then (Err(payload.error), rest)
        else (DecodeMessage(header.value + payload.value), rest)
  }

  class Conn {
    var pending: seq<byte>

    constructor (pending: seq<byte>)
      ensures this.pending == pending
    {
      this.pending := pending;
    }

    method Fill(n: nat) returns (r: Result<seq<byte>>)
      modifies this
      ensures (r, pending) == ReadFull(old(pending), n)
    {
      if n <= |pending| {
        r := Ok(pending[..n]);
        pending := pending[n..];
      } else {
        r := Err(if pending == [] then EndOfFile else UnexpectedEOF);
        pending := [];
      }
    }

    method ReadMessage() returns (r: Result<Message>)
      modifies this
      ensures (r, pending) == ReadNext(old(pending))
    {
      var header := Fill(HEADER_SIZE);
      if header.Err? {
        return Err(header.error);
      }
      var buf := header.value;
      var size := MessageSize(buf);
      if size.Err? {
        return Err(size.error);
      }
      if size.value > HEADER_SIZE {
        var payload := Fill(size.value - HEADER_SIZE);
        if payload.Err? {
          return Err(payload.error);
        }
        buf := buf + payload.value;
      } else {
        assert buf + [] == buf && pending[0..] == pending;
      }
      r := DecodeMessage(buf);
    }
  }

  /** A declared length above the bound is refused with only the header taken off the stream. */
  lemma OversizedReadsNoPayload(stream: seq<byte>)
    requires |stream| >= HEADER_SIZE && Be32(stream[4..8]) > MAX_PAYLOAD_SIZE
    ensures ReadNext(stream) == (Err(PayloadTooLarge), stream[HEADER_SIZE..])
  {
    assert stream[..HEADER_SIZE][4..8] == stream[4..8];
  }

  /** Whatever is on the stream, at most a header and a payload within the bound are taken for one message. */
  lemma ReadIsBounded(stream: seq<byte>)
    ensures var (r, rest) := ReadNext(stream);
            && |rest| <= |stream| <= |rest| + HEADER_SIZE + MAX_PAYLOAD_SIZE
            && (r.Ok? ==> |r.value.data| <= MAX_PAYLOAD_SIZE && |stream| == |rest| + HEADER_SIZE + |r.value.data|)
  {
    hide Be16, Be32;
    if |stream| >= HEADER_SIZE && MessageSize(stream[..HEADER_SIZE]).Ok? {
      var size, behind := MessageSize(stream[..HEADER_SIZE]).value, stream[HEADER_SIZE..];
      if size - HEADER_SIZE <= |behind| {
        var buf := stream[..HEADER_SIZE] + behind[..size - HEADER_SIZE];
        assert buf[4..8] == stream[..HEADER_SIZE][4..8];
      }
    }
  }

  lemma ReadEncoded(msg: Message, rest: seq<byte>)
    requires |msg.data| <= MAX_PAYLOAD_SIZE
    ensures ReadNext(Encoded(msg) + rest) == (Ok(msg), rest)
  {
    hide Header, Be16, Be32, DecodeMessage;
    var stream, header := Encoded(msg) + rest, Header(msg);
    assert stream[..HEADER_SIZE] == header;
    assert stream[HEADER_SIZE..] == msg.data + rest;
    HeaderFields(msg, []);
    assert header + [] == header;
    assert (msg.data + rest)[..|msg.data|] == msg.data && (msg.data + rest)[|msg.data|..] == rest;
    DecodeEncoded(msg);
  }

  /** Reading until the first failure: the messages, and why it stopped. */
  function ReadAll(stream: seq<byte>): (seq<Message>, Error)
    decreases |stream|
  {
    ReadIsBounded(stream);
    var (r, rest) := ReadNext(stream);
    match r
    case Err(e) => ([], e)
    case Ok(msg) =>
      var (more, e) := ReadAll(rest);
      ([msg] + more, e)
  }

  function EncodedAll(messages: seq<Message>): seq<byte> {
    if messages == [] then [] else Encoded(messages[0]) + EncodedAll(messages[1..])
  }

  /** Framing is self-delimiting: joined encodings are read back as the same list, down to the last byte. */
  lemma {:induction false} FramingRoundTrip(messages: seq<Message>)
    requires forall m :: m in messages ==> |m.data| <= MAX_PAYLOAD_SIZE
    ensures ReadAll(EncodedAll(messages)) == (messages, EndOfFile)
  {
    hide Encoded, ReadNext;
    if messages == [] {
      EmptyStream();
    } else {
      var rest := EncodedAll(messages[1..]);
      ReadEncoded(messages[0], rest);
      FramingRoundTrip(messages[1..]);
      assert [messages[0]] + messages[1..] == messages;
    }
  }

  lemma EmptyStream()
    ensures ReadNext([]) == (Err(EndOfFile), [])
  {
  }
}
