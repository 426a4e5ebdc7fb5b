/** DHCP packets: the parser for what clients send and the writer for what the server answers. */
module DhcpWire {
  import opened Bytes
  import opened IPv4
  import opened Leases

  const BOOT_REPLY: byte := 2
  const DISCOVER: byte := 1
  const OFFER: byte := 2
  const REQUEST: byte := 3
  const DECLINE: byte := 4
  const ACK: byte := 5
  const NAK: byte := 6
  const RELEASE: byte := 7
  const COOKIE: seq<byte> := [99, 130, 83, 99]

  datatype Packet = Packet(
    htype: byte,
    hlen: byte,
    xid: seq<byte>,
    chaddr: seq<byte>,
    clientHWAddr: seq<byte>,
    options: map<byte, seq<byte>>)

  datatype ParseError = TooShort | NoCookie | BadHardwareLength
  datatype ParseResult = Parsed(packet: Packet) | Malformed(error: ParseError)

  /** What every successfully parsed packet satisfies. */
  predicate WellFormedPacket(p: Packet) {
    |p.xid| == 4 && |p.chaddr| == 16 && 0 < p.hlen <= 16 && p.clientHWAddr == p.chaddr[..p.hlen]
  }

  // ----- options

  /** The option list from position `i` on, added to the options found so far; a later one replaces an earlier. */
  function ParseOptions(options: seq<byte>, i: nat, found: map<byte, seq<byte>>): map<byte, seq<byte>>
    decreases |options| - i
  {
    if i >= |options| then found
    else if options[i] == 0 then ParseOptions(options, i + 1, found)
    else if options[i] == 255 || i + 1 >= |options| then found
    else
      var end := i + 2 + options[i + 1];
      if end > |options| then found
      else ParseOptions(options, end, found[options[i] := options[i + 2..end]])
  }

  /** A well-formed option list, item by item. */
  datatype Item = Pad | Opt(code: byte, data: seq<byte>)

  predicate ItemOk(item: Item) {
    item.Opt? ==> item.code != 0 && item.code != 255 && |item.data| < 256
  }

  function EncodeItem(item: Item): seq<byte>
    requires ItemOk(item)
  {
    match item
    case Pad => [0]
    case Opt(code, data) => [code, |data|] + data
  }

  function EncodeItems(items: seq<Item>): seq<byte>
    requires forall i :: 0 <= i < |items| ==> ItemOk(items[i])
  {
    if items == [] then [] else EncodeItem(items[0]) + EncodeItems(items[1..])
  }

  /** For each code, the data of the last item with it. */
  function LastWins(items: seq<Item>, found: map<byte, seq<byte>>): map<byte, seq<byte>> {
    if items == [] then found
    else LastWins(items[1..], if items[0].Opt? then found[items[0].code := items[0].data] else found)
  }

  /** Where reading stops: at the end, at an end marker, or before an option cut short. */
  predicate Stops(tail: seq<byte>) {
    || tail == []
    || tail[0] == 255
    || (tail[0] != 0 && (|tail| < 2 || 2 + tail[1] > |tail|))
  }

  /** Reading does not look back, so what lies before the position may be dropped. */
  lemma {:induction false} ParseShift(options: seq<byte>, k: nat, i: nat, found: map<byte, seq<byte>>)
    requires k <= |options|
    ensures ParseOptions(options, k + i, found) == ParseOptions(options[k..], i, found)
    decreases |options| - i
  {
    var t := options[k..];
    if i < |t| {
      assert t[i] == options[k + i];
      if t[i] == 0 {
        ParseShift(options, k, i + 1, found);
      } else if t[i] != 255 && i + 1 < |t| {
        var end := i + 2 + t[i + 1];
        if end <= |t| {
          assert t[i + 2..end] == options[k + i + 2..k + end];
          ParseShift(options, k, end, found[t[i] := t[i + 2..end]]);
        }
      }
    }
  }

  lemma ParseOne(s: seq<byte>, n: nat, found: map<byte, seq<byte>>)
    requires |s| >= 2 && s[0] != 0 && s[0] != 255 && n == 2 + s[1] <= |s|
    ensures ParseOptions(s, 0, found) == ParseOptions(s, n, found[s[0] := s[2..n]])
  {
  }

  lemma ParsePad(s: seq<byte>, found: map<byte, seq<byte>>)
    requires s != [] && s[0] == 0
    ensures ParseOptions(s, 0, found) == ParseOptions(s, 1, found)
  {
  }

  lemma ParseItem(item: Item, rest: seq<byte>, found: map<byte, seq<byte>>)
    requires ItemOk(item)
    ensures ParseOptions(EncodeItem(item) + rest, 0, found) ==
            ParseOptions(rest, 0, if item.Opt? then found[item.code := item.data] else found)
  {
    hide ParseOptions;
    var s, n := EncodeItem(item) + rest, |EncodeItem(item)|;
    assert s[n..] == rest;
    match item
    case Pad =>
      ParsePad(s, found);
      ParseShift(s, 1, 0, found);
    case Opt(code, data) =>
      assert s[0] == code && s[1] == |data| && s[2..n] == data;
      ParseOne(s, n, found);
      ParseShift(s, n, 0, found[code := data]);
  }

  /** On every well-formed list, however the rest breaks off, the parser computes the last-wins map. */
  lemma {:induction false} ParseIsLastWins(items: seq<Item>, tail: seq<byte>, found: map<byte, seq<byte>>)
    requires (forall i :: 0 <= i < |items| ==> ItemOk(items[i])) && Stops(tail)
    ensures ParseOptions(EncodeItems(items) + tail, 0, found) == LastWins(items, found)
    decreases |items|
  {
    if items == [] {
      assert EncodeItems(items) + tail == tail;
    } else {
      var rest := EncodeItems(items[1..]) + tail;
      assert EncodeItems(items) + tail == EncodeItem(items[0]) + rest;
      ParseItem(items[0], rest, found);
      ParseIsLastWins(items[1..], tail, if items[0].Opt? then found[items[0].code := items[0].data] else found);
    }
  }

  /** Every byte string is such a list followed by a place where reading stops. */
  lemma {:induction false} EveryInputIsAList(options: seq<byte>) returns (items: seq<Item>, tail: seq<byte>)
    ensures (forall i :: 0 <= i < |items| ==> ItemOk(items[i])) && Stops(tail)
    ensures options == EncodeItems(items) + tail
    decreases |options|
  {
    if Stops(options) {
      items, tail := [], options;
    } else {
      var item := if options[0] == 0 then Pad else Opt(options[0], options[2..2 + options[1]]);
      var n := |EncodeItem(item)|;
      FirstItem(options, item);
      var more;
      more, tail := EveryInputIsAList(options[n..]);
      items := [item] + more;
      assert items[1..] == more;
      ConcatAssoc(EncodeItem(item), EncodeItems(more), tail);
    }
  }

  lemma FirstItem(options: seq<byte>, item: Item)
    requires !Stops(options)
    requires item == if options[0] == 0 then Pad else Opt(options[0], options[2..2 + options[1]])
    ensures ItemOk(item) && |EncodeItem(item)| <= |options|
        && options == EncodeItem(item) + options[|EncodeItem(item)|..]
  {
  }

  lemma ConcatAssoc(a: seq<byte>, b: seq<byte>, c: seq<byte>)
    ensures a + (b + c) == a + b + c
  {
  }

  // ----- packets

  function Parse(data: seq<byte>): (r: ParseResult) {
    if |data| < 240 then Malformed(TooShort)
    else if data[236..240] != COOKIE then Malformed(NoCookie)
    else if data[2] == 0 || data[2] > 16 then Malformed(BadHardwareLength)
    else Parsed(Packet(data[1], data[2], data[4..8], data[28..44], data[28..28 + data[2]],
                       ParseOptions(data[240..], 0, map[])))
  }

  lemma ParsedIsWellFormed(data: seq<byte>)
    requires Parse(data).Parsed?
    ensures WellFormedPacket(Parse(data).packet)
  {
    hide ParseOptions;
    SliceFront(data, 28, data[2], 16);
  }

  method ParseDHCPPacket(data: seq<byte>) returns (r: ParseResult)
    ensures r == Parse(data)
  {
    if |data| < 240 {
      return Malformed(TooShort);
    }
    if data[236..240] != COOKIE {
      return Malformed(NoCookie);
    }
    var hlen := data[2];
    if hlen <= 0 || hlen > 16 {
      return Malformed(BadHardwareLength);
    }
    var found: map<byte, seq<byte>> := map[];
    var options := data[240..];
    var i := 0;
    while i < |options|
      invariant 0 <= i <= |options|
      invariant ParseOptions(options, i, found) == ParseOptions(options, 0, map[])
      decreases |options| - i
    {
      var code := options[i];
      i := i + 1;
      if code == 0 {
        continue;
      }
      if code == 255 {
        break;
      }
      if i >= |options| {
        break;
      }
      var length := options[i];
      i := i + 1;
      if i + length > |options| {
        break;
      }
      found := found[code := options[i..i + length]];
      i := i + length;
    }
    r := Parsed(Packet(data[1], hlen, data[4..8], data[28..44], data[28..28 + hlen], found));
  }

  // ----- replies

  function CommonItems(cfg: Config, msgType: byte): seq<Item> {
    [Opt(53, [msgType]), Opt(54, cfg.serverIP)]
  }

  /** The lease parameters: mask, broadcast address, MTU 1500, lease time, and zero renewal times. */
  function LeaseItems(cfg: Config): seq<Item> {
    [Opt(1, cfg.subnet.mask), Opt(28, Broadcast(cfg.subnet))]
    + [Opt(26, [5, 220]), Opt(51, PutBe32(LEASE_DURATION))]
    + [Opt(58, [0, 0, 0, 0]), Opt(59, [0, 0, 0, 0])]
  }

  /** The options a reply carries; a NAK only its type and the server. */
  function ReplyOptions(cfg: Config, msgType: byte): map<byte, seq<byte>> {
    var common := map[53 := [msgType], 54 := cfg.serverIP];
    if msgType == NAK then common
    else common + map[
      1 := cfg.subnet.mask, 28 := Broadcast(cfg.subnet), 26 := [5, 220],
      51 := PutBe32(LEASE_DURATION), 58 := [0, 0, 0, 0], 59 := [0, 0, 0, 0]]
  }

  function ReplyHeader(cfg: Config, req: Packet, yourIP: Address): seq<byte> {
    [BOOT_REPLY, req.htype, req.hlen, 0] + req.xid + Zeros(8) + yourIP + cfg.serverIP + Zeros(4)
    + req.chaddr + Zeros(192) + COOKIE
  }

  function CommonBytes(cfg: Config, msgType: byte): seq<byte> {
    [53, 1, msgType] + ([54, 4] + cfg.serverIP)
  }

  function LeaseBytes(cfg: Config): seq<byte> {
    ([1, 4] + cfg.subnet.mask + ([28, 4] + Broadcast(cfg.subnet)))
    + ([26, 2, 5, 220] + ([51, 4] + PutBe32(LEASE_DURATION)))
    + ([58, 4, 0, 0, 0, 0] + [59, 4, 0, 0, 0, 0])
  }

  function OptionBytes(cfg: Config, msgType: byte): (s: seq<byte>)
    ensures |s| == if msgType == NAK then 9 else 43
  {
    CommonBytes(cfg, msgType) + if msgType == NAK then [] else LeaseBytes(cfg)
  }

  /** The fixed part, the options, the end marker, and padding up to the BOOTP minimum of 300 bytes. */
  function ReplyBytes(cfg: Config, req: Packet, msgType: byte, yourIP: Address): seq<byte> {
    var body := ReplyHeader(cfg, req, yourIP) + OptionBytes(cfg, msgType) + [255];
    body + (if |body| < 300 then Zeros(300 - |body|) else [])
  }

  lemma EncodeTwo(x: Item, y: Item)
    requires ItemOk(x) && ItemOk(y)
    ensures EncodeItems([x, y]) == EncodeItem(x) + EncodeItem(y)
  {
    assert [x, y][1..] == [y] && [y][1..] == [];
    assert EncodeItems([y]) == EncodeItem(y);
  }

  lemma {:induction false} EncodeAppend(a: seq<Item>, b: seq<Item>)
    requires (forall i :: 0 <= i < |a| ==> ItemOk(a[i])) && (forall i :: 0 <= i < |b| ==> ItemOk(b[i]))
    ensures EncodeItems(a + b) == EncodeItems(a) + EncodeItems(b)
  {
    if a == [] {
      assert a + b == b;
    } else {
      assert (a + b)[1..] == a[1..] + b;
      EncodeAppend(a[1..], b);
    }
  }

  lemma LastWinsTwo(x: Item, y: Item, found: map<byte, seq<byte>>)
    requires x.Opt? && y.Opt?
    ensures LastWins([x, y], found) == found[x.code := x.data][y.code := y.data]
  {
    assert [x, y][1..] == [y] && [y][1..] == [];
    assert LastWins([y], found[x.code := x.data]) == found[x.code := x.data][y.code := y.data];
  }

  lemma {:induction false} LastWinsAppend(a: seq<Item>, b: seq<Item>, found: map<byte, seq<byte>>)
    ensures LastWins(a + b, found) == LastWins(b, LastWins(a, found))
    decreases |a|
  {
    if a == [] {
      assert a + b == b;
    } else {
      assert (a + b)[1..] == a[1..] + b;
      LastWinsAppend(a[1..], b, if a[0].Opt? then found[a[0].code := a[0].data] else found);
    }
  }

  lemma CommonMatches(cfg: Config, msgType: byte)
    ensures EncodeItems(CommonItems(cfg, msgType)) == CommonBytes(cfg, msgType)
    ensures LastWins(CommonItems(cfg, msgType), map[]) == map[53 := [msgType], 54 := cfg.serverIP]
  {
    var x, y := Opt(53, [msgType]), Opt(54, cfg.serverIP);
    EncodeTwo(x, y);
    LastWinsTwo(x, y, map[]);
    assert EncodeItem(x) == [53, 1, msgType];
  }

  lemma LeaseEncoded(cfg: Config)
    ensures EncodeItems(LeaseItems(cfg)) == LeaseBytes(cfg)
  {
    hide PutBe32, EncodeItems;
    var a, b := Opt(1, cfg.subnet.mask), Opt(28, Broadcast(cfg.subnet));
    var c, d := Opt(26, [5, 220]), Opt(51, PutBe32(LEASE_DURATION));
    var e, f := Opt(58, [0, 0, 0, 0]), Opt(59, [0, 0, 0, 0]);
    EncodeTwo(a, b);
    EncodeTwo(c, d);
    EncodeTwo(e, f);
    EncodeAppend([a, b], [c, d]);
    EncodeAppend([a, b] + [c, d], [e, f]);
    assert EncodeItem(c) == [26, 2, 5, 220];
    assert EncodeItem(e) == [58, 4, 0, 0, 0, 0] && EncodeItem(f) == [59, 4, 0, 0, 0, 0];
  }

  lemma LeaseFound(cfg: Config, msgType: byte)
    ensures LastWins(LeaseItems(cfg), map[53 := [msgType], 54 := cfg.serverIP]) ==
            map[53 := [msgType], 54 := cfg.serverIP] + map[
              1 := cfg.subnet.mask, 28 := Broadcast(cfg.subnet), 26 := [5, 220],
              51 := PutBe32(LEASE_DURATION), 58 := [0, 0, 0, 0], 59 := [0, 0, 0, 0]]
  {
    hide PutBe32, LastWins;
    var a, b := Opt(1, cfg.subnet.mask), Opt(28, Broadcast(cfg.subnet));
    var c, d := Opt(26, [5, 220]), Opt(51, PutBe32(LEASE_DURATION));
    var e, f := Opt(58, [0, 0, 0, 0]), Opt(59, [0, 0, 0, 0]);
    var m0 := map[53 := [msgType], 54 := cfg.serverIP];
    var m1 := m0[1 := a.data][28 := b.data];
    var m2 := m1[26 := c.data][51 := d.data];
    LastWinsTwo(a, b, m0);
    LastWinsTwo(c, d, m1);
    LastWinsTwo(e, f, m2);
    LastWinsAppend([a, b], [c, d], m0);
    LastWinsAppend([a, b] + [c, d], [e, f], m0);
  }

  /** The options of a reply are read back as exactly the map meant. */
  lemma ReplyOptionsParse(cfg: Config, msgType: byte, padding: seq<byte>)
    ensures ParseOptions(OptionBytes(cfg, msgType) + ([255] + padding), 0, map[]) == ReplyOptions(cfg, msgType)
  {
    hide LeaseItems, LeaseBytes, CommonItems, CommonBytes, ParseOptions, PutBe32, LastWins;
    var common, lease, tail := CommonItems(cfg, msgType), LeaseItems(cfg), [255] + padding;
    CommonMatches(cfg, msgType);
    LeaseEncoded(cfg);
    LeaseFound(cfg, msgType);
    ReplyItemsOk(cfg, msgType);
    if msgType == NAK {
      ParseIsLastWins(common, tail, map[]);
      assert OptionBytes(cfg, msgType) == CommonBytes(cfg, msgType);
    } else {
      EncodeAppend(common, lease);
      LastWinsAppend(common, lease, map[]);
      ParseIsLastWins(common + lease, tail, map[]);
    }
  }

  lemma ReplyItemsOk(cfg: Config, msgType: byte)
    ensures forall i :: 0 <= i < |CommonItems(cfg, msgType)| ==> ItemOk(CommonItems(cfg, msgType)[i])
    ensures forall i :: 0 <= i < |LeaseItems(cfg)| ==> ItemOk(LeaseItems(cfg)[i])
  {
  }

  /** Where the parts of a concatenation of seven lie. */
  lemma Parts(a: seq<byte>, b: seq<byte>, c: seq<byte>, d: seq<byte>, e: seq<byte>, f: seq<byte>, g: seq<byte>)
    requires |a| == 4 && |b| == 4 && |c| == 8 && |d| == 4 && |e| == 4 && |f| == 4
    ensures var s := a + b + c + d + e + f + g;
            s[..4] == a && s[4..8] == b && s[16..20] == d && s[20..24] == e && s[28..] == g
  {
  }

  lemma ReplyHeaderFields(cfg: Config, req: Packet, yourIP: Address)
    requires WellFormedPacket(req)
    ensures var h := ReplyHeader(cfg, req, yourIP);
            && |h| == 240 && h[0] == BOOT_REPLY && h[1] == req.htype && h[2] == req.hlen && h[4..8] == req.xid
            && h[16..20] == yourIP && h[20..24] == cfg.serverIP && h[28..44] == req.chaddr && h[236..240] == COOKIE
  {
    hide Zeros;
    var start: seq<byte> := [BOOT_REPLY, req.htype, req.hlen, 0];
    var front := start + req.xid + Zeros(8) + yourIP + cfg.serverIP + Zeros(4);
    var rest := req.chaddr + Zeros(192) + COOKIE;
    var h := ReplyHeader(cfg, req, yourIP);
    assert h == front + rest;
    Parts(start, req.xid, Zeros(8), yourIP, cfg.serverIP, Zeros(4), rest);
    SliceFront(h, 28, 16, 212);
    assert h[28..240] == rest && rest[..16] == req.chaddr && rest[208..] == COOKIE;
    assert h[..4][0] == h[0] && h[..4][1] == h[1] && h[..4][2] == h[2];
    assert h[236..240] == h[28..][208..];
  }

  lemma ReplySplits(cfg: Config, req: Packet, msgType: byte, yourIP: Address)
    requires WellFormedPacket(req)
    ensures var r, header := ReplyBytes(cfg, req, msgType, yourIP), ReplyHeader(cfg, req, yourIP);
            && |r| == 300 && |header| == 240 && r[..240] == header
            && r[240..] == OptionBytes(cfg, msgType) + ([255] + Zeros(59 - |OptionBytes(cfg, msgType)|))
  {
    hide ReplyHeader, OptionBytes, Zeros;
    ReplyHeaderFields(cfg, req, yourIP);
    var header, options := ReplyHeader(cfg, req, yourIP), OptionBytes(cfg, msgType);
    var pad := Zeros(59 - |options|);
    assert ReplyBytes(cfg, req, msgType, yourIP) == header + options + [255] + pad;
    assert header + options + [255] + pad == header + (options + ([255] + pad));
  }

  lemma SliceOfFirst(s: seq<byte>, n: nat, i: nat, j: nat)
    requires i <= j <= n <= |s|
    ensures s[..n][i..j] == s[i..j]
  {
  }

  /**
   The client's view of a reply: 300 bytes, read back with the identity of the request, the address and
   exactly the intended options.
   */
  lemma ReplyParses(cfg: Config, req: Packet, msgType: byte, yourIP: Address)
    requires WellFormedPacket(req)
    ensures var r := ReplyBytes(cfg, req, msgType, yourIP);
            && |r| == 300 && r[16..20] == yourIP && r[20..24] == cfg.serverIP
            && Parse(r) == Parsed(req.(options := ReplyOptions(cfg, msgType)))
  {
    hide ReplyBytes, ReplyHeader, OptionBytes, ParseOptions, Zeros, ReplyOptions;
    var r, h := ReplyBytes(cfg, req, msgType, yourIP), ReplyHeader(cfg, req, yourIP);
    ReplySplits(cfg, req, msgType, yourIP);
    ReplyHeaderFields(cfg, req, yourIP);
    ReplyOptionsParse(cfg, msgType, Zeros(59 - |OptionBytes(cfg, msgType)|));
    SliceOfFirst(r, 240, 4, 8);
    SliceOfFirst(r, 240, 16, 20);
    SliceOfFirst(r, 240, 20, 24);
    SliceOfFirst(r, 240, 28, 44);
    SliceOfFirst(r, 240, 236, 240);
    assert r[1] == h[1] && r[2] == h[2];
    assert r[4..8] == h[4..8] && r[28..44] == h[28..44] && r[236..240] == h[236..240];
    assert r[28..28 + req.hlen] == h[28..44][..req.hlen];
  }

  /** Append an option that holds an address. */
  method AppendIPOption(options: seq<byte>, code: byte, ip: Address) returns (r: seq<byte>)
    ensures r == options + ([code, 4] + ip)
  {
    r := options + [code, 4];
    r := r + ip;
  }

  /** The options of a lease: mask, broadcast address, MTU and the three times. */
  method AppendLease(cfg: Config, common: seq<byte>) returns (options: seq<byte>)
    ensures options == common + LeaseBytes(cfg)
  {
    hide PutBe32, Broadcast;
    options := AppendIPOption(common, 1, cfg.subnet.mask);
    options := AppendIPOption(options, 28, Broadcast(cfg.subnet));
    assert options == common + ([1, 4] + cfg.subnet.mask + ([28, 4] + Broadcast(cfg.subnet)));
    options := AppendTimes(options);
  }

  method AppendTimes(addresses: seq<byte>) returns (options: seq<byte>)
    ensures options ==
            addresses + (([26, 2, 5, 220] + ([51, 4] + PutBe32(LEASE_DURATION)))
                         + ([58, 4, 0, 0, 0, 0] + [59, 4, 0, 0, 0, 0]))
  {
    hide PutBe32;
    options := addresses + [26, 2, 0x05, 0xdc];
    var lease := PutBe32(LEASE_DURATION);
    options := options + [51, 4];
    options := options + lease;
    options := options + [58, 4, 0, 0, 0, 0];
    options := options + [59, 4, 0, 0, 0, 0];
  }

  method WriteOptions(cfg: Config, msgType: byte) returns (options: seq<byte>)
    ensures options == OptionBytes(cfg, msgType) + [255]
  {
    hide LeaseBytes;
    options := [53, 1, msgType];
    options := AppendIPOption(options, 54, cfg.serverIP);
    if msgType != NAK {
      options := AppendLease(cfg, options);
    }
    options := options + [255];
  }

  /** The fixed part, written into a zeroed buffer. */
  method WriteHeader(cfg: Config, req: Packet, yourIP: Address) returns (header: seq<byte>)
    requires WellFormedPacket(req)
    ensures header == ReplyHeader(cfg, req, yourIP)
  {
    var resp := new byte[240](_ => 0);
    resp[0] := BOOT_REPLY;
    resp[1] := req.htype;
    resp[2] := req.hlen;
    ghost var d0 := [BOOT_REPLY, req.htype, req.hlen, 0];
    assert Written(resp[..], d0);
    hide Written;
    CopyField(resp, 4, req.xid, d0);
    ghost var d1 := d0 + Zeros(0) + req.xid;
    CopyField(resp, 16, yourIP, d1);
    ghost var d2 := d1 + Zeros(8) + yourIP;
    CopyField(resp, 20, cfg.serverIP, d2);
    ghost var d3 := d2 + Zeros(0) + cfg.serverIP;
    CopyField(resp, 28, req.chaddr, d3);
    ghost var d4 := d3 + Zeros(4) + req.chaddr;
    CopyField(resp, 236, COOKIE, d4);
    header := resp[..];
    WrittenFully(header, d4 + Zeros(192) + COOKIE);
    assert d1 == d0 + req.xid && d3 == d2 + cfg.serverIP;
  }

  method PadTo300(body: seq<byte>) returns (r: seq<byte>)
    ensures r == body + (if |body| < 300 then Zeros(300 - |body|) else [])
  {
    r := body;
    while |r| < 300
      invariant |body| <= |r| && (|r| <= 300 || r == body)
      invariant r == body + Zeros(|r| - |body|)
    {
      r := r + [0];
    }
  }

  method Reply(cfg: Config, req: Packet, msgType: byte, yourIP: Address) returns (r: seq<byte>)
    requires WellFormedPacket(req)
    ensures r == ReplyBytes(cfg, req, msgType, yourIP)
  {
    hide ReplyHeader, OptionBytes, Zeros;
    var resp := WriteHeader(cfg, req, yourIP);
    var options := WriteOptions(cfg, msgType);
    resp := resp + options;
    assert resp == ReplyHeader(cfg, req, yourIP) + OptionBytes(cfg, msgType) + [255];
    r := PadTo300(resp);
  }
}
