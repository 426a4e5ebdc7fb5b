/**
 The DHCP server object: it changes its three tables in place, one packet at a time, and answers with
 the bytes of a reply. Every operation is proved to have the effect `Leases` gives it.
 */
module DhcpServer {
  import opened Bytes
  import opened Bits
  import opened IPv4
  import opened Leases
  import opened DhcpWire
  import opened Options

  datatype Decision = Silent | Offered(offer: Address) | Acked(ack: Address) | Refused

  /** The message type of a packet, when it has one. */
  function MessageType(p: Packet): Option<byte> {
    if 53 in p.options && |p.options[53]| > 0 then Some(p.options[53][0]) else None
  }

  /** The address named in option 50, when it is four bytes long. */
  function RequestedIP(p: Packet): Option<Address> {
    if 50 in p.options && |p.options[50]| == 4 then var ip: Address := p.options[50]; Some(ip) else None
  }

  /** What a packet does to the tables and what is answered. */
  function Decide(cfg: Config, t: Table, p: Packet, clock: Clock): (Table, Decision) {
    var c := p.clientHWAddr;
    match MessageType(p)
    case None => (t, Silent)
    case Some(msgType) =>
      if msgType == DISCOVER then
        var (after, ip) := Leases.Allocate(cfg, t, c, clock.first, clock.second);
        (after, if ip.None? then Silent else Offered(ip.value))
      else if msgType == REQUEST then
        var (after, ip) := Leases.Claim(cfg, t, c, RequestedIP(p), clock);
        (after, if ip.None? then Refused else Acked(ip.value))
      else if msgType == RELEASE || msgType == DECLINE then (Leases.Release(t, c), Silent)
      else (t, Silent)
  }

  function Answer(cfg: Config, p: Packet, d: Decision): seq<byte> {
    match d
    case Silent => []
    case Offered(ip) => ReplyBytes(cfg, p, OFFER, ip)
    case Acked(ip) => ReplyBytes(cfg, p, ACK, ip)
    case Refused => ReplyBytes(cfg, p, NAK, [0, 0, 0, 0])
  }

  // ----- what the scan depends on

  /** A candidate that passes every test. */
  predicate Hit(cfg: Config, t: Table, a: Address) {
    a != cfg.gateway && a != Broadcast(cfg.subnet) && a !in t.inUse
  }

  ghost predicate Room(cfg: Config, t: Table) {
    exists a :: Hit(cfg, t, a)
  }

  /** The scan ends: it can leave the subnet, or find an address (see `ScanEnds`). */
  ghost predicate Scannable(cfg: Config, t: Table) {
    Whole(cfg.subnet) ==> Room(cfg, t)
  }

  /** The packet makes the server look for a new address. */
  predicate Scans(t: Table, p: Packet, clock: Clock) {
    && p.clientHWAddr !in Expire(t, clock.first).leases
    && (MessageType(p) == Some(DISCOVER) || (MessageType(p) == Some(REQUEST) && RequestedIP(p) == None))
  }

  /** Two is added to the last byte, without a carry. */
  function FirstCandidate(s: Subnet): Address {
    s.ip[3 := (s.ip[3] as int + 2) % 256]
  }

  class DHCPServer {
    const cfg: Config
    ghost const prefix: nat
    var leases: map<ClientID, Address>
    var inUse: map<Address, ClientID>
    var expiry: map<ClientID, int>

    ghost function State(): Table
      reads this
    {
      Table(leases, inUse, expiry)
    }

    /** The configuration has a contiguous mask, and the tables are consistent. */
    ghost predicate Ok()
      reads this
    {
      WellFormed(cfg.subnet, prefix) && Valid(cfg, State())
    }

    constructor (cfg: Config, ghost prefix: nat)
      requires WellFormed(cfg.subnet, prefix)
      ensures Ok() && State() == NO_LEASES && this.cfg == cfg && this.prefix == prefix
    {
      this.cfg, this.prefix := cfg, prefix;
      leases, inUse, expiry := map[], map[], map[];
    }

    /** Drop one lapsed client. */
    method Drop(c: ClientID)
      modifies this`leases, this`inUse, this`expiry
      ensures State() == Leases.Release(old(State()), c)
    {
      if c in leases {
        inUse := inUse - {leases[c]};
        leases := leases - {c};
      }
      expiry := expiry - {c};
    }

    method ExpireLocked(now: int)
      requires Valid(cfg, State())
      modifies this`leases, this`inUse, this`expiry
      ensures State() == Expire(old(State()), now) && Valid(cfg, State())
    {
      ghost var before := State();
      hide Allowed;
      var todo := expiry.Keys;
      while todo != {}
        invariant todo <= expiry.Keys && Valid(cfg, State())
        invariant forall c :: c in before.expiry ==> (c !in expiry <==> c !in todo && Lapsed(before, c, now))
        invariant forall c :: c in expiry ==> c in before.expiry && expiry[c] == before.expiry[c]
        invariant forall c :: c in leases ==> c in before.leases && leases[c] == before.leases[c]
        decreases todo
      {
        var c :| c in todo;
        if expiry[c] <= now {
          ReleaseValid(cfg, State(), c);
          Drop(c);
        }
        todo := todo - {c};
      }
      ExpireValid(cfg, before, now);
      SameLeases(cfg, State(), Expire(before, now));
    }

    method Release(c: ClientID)
      requires Valid(cfg, State())
      modifies this`leases, this`inUse, this`expiry
      ensures State() == Leases.Release(old(State()), c) && Valid(cfg, State())
    {
      ReleaseValid(cfg, State(), c);
      hide Valid;
      Drop(c);
    }

    /** The first candidate: base + 2, unless the subnet is too small to have one. */
    method FirstLeaseIP() returns (first: Address)
      requires WellFormed(cfg.subnet, prefix)
      ensures first == FirstCandidate(cfg.subnet)
      ensures Contains(cfg.subnet, first) ==> Val(first) == Val(cfg.subnet.ip) + 2
      ensures !Contains(cfg.subnet, first) ==> FirstFree(cfg, State(), Val(cfg.subnet.ip) + 2) == None
    {
      var last := (cfg.subnet.ip[3] as int + 2) % 256;
      first := cfg.subnet.ip[3 := last];
      ScanStart(cfg, prefix, State());
    }

    /** The scan of the allocator. */
    method Scan() returns (found: Option<Address>)
      requires WellFormed(cfg.subnet, prefix) && Scannable(cfg, State())
      ensures found == FirstOffer(cfg, State())
    {
      hide Contains, Broadcast, WellFormed, FirstFree, Val, Room, Whole, Hit, Allowed, FirstCandidate;
      ghost var start, wrapped := Val(cfg.subnet.ip) + 2, false;
      var candidate := FirstLeaseIP();
      WholeContainsAll(cfg.subnet, prefix);
      while Contains(cfg.subnet, candidate)
        invariant !wrapped && Contains(cfg.subnet, candidate) ==>
                    start <= Val(candidate) && FirstFree(cfg, State(), start) == FirstFree(cfg, State(), Val(candidate))
        invariant wrapped || !Contains(cfg.subnet, candidate) ==> FirstFree(cfg, State(), start) == None
        invariant wrapped ==> WrapsTo(cfg, State(), candidate)
        decreases Contains(cfg.subnet, candidate), !wrapped, SPACE - Val(candidate)
      {
        var broadcast := IsBroadcast(candidate, cfg.subnet);
        HitTests(cfg, State(), candidate);
        if candidate != cfg.gateway && !broadcast && candidate !in inUse {
          if wrapped {
            LowHit(cfg, State(), candidate);
          } else {
            ScanHit(cfg, State(), candidate);
          }
          return Some(candidate);
        }
        var next := NextIPv4(candidate);
        if wrapped {
          LowMiss(cfg, State(), candidate, next);
        } else {
          ScanMiss(cfg, prefix, State(), candidate, next);
          wrapped := Contains(cfg.subnet, next) && Val(next) == 0;
        }
        candidate := next;
      }
      return None;
    }

    method Allocate(c: ClientID, now: int, stamp: int) returns (ip: Option<Address>)
      requires Ok() && (c !in Expire(State(), now).leases ==> Scannable(cfg, Expire(State(), now)))
      modifies this`leases, this`inUse, this`expiry
      ensures Ok() && (State(), ip) == Leases.Allocate(cfg, old(State()), c, now, stamp)
    {
      hide Valid, Expire, WellFormed, FirstOffer, Scannable;
      AllocateValid(cfg, State(), c, now, stamp);
      ExpireLocked(now);
      if c in leases {
        expiry := expiry[c := stamp + LEASE_DURATION];
        return Some(leases[c]);
      }
      ip := Scan();
      if ip.Some? {
        FoundIsFree(cfg, State(), ip.value);
        FreshLease(cfg, State(), c, ip.value, stamp + LEASE_DURATION);
        leases := leases[c := ip.value];
        inUse := inUse[ip.value := c];
        expiry := expiry[c := stamp + LEASE_DURATION];
      }
    }

    /** A granted claim: the old address is given up for the new one. */
    method Move(c: ClientID, current: Option<Address>, a: Address, deadline: int)
      requires current == if c in leases then Some(leases[c]) else None
      modifies this`leases, this`inUse, this`expiry
      ensures State() == LeaseTo(old(State()), c, a, deadline)
    {
      if current.Some? {
        inUse := inUse - {current.value};
      }
      leases := leases[c := a];
      inUse := inUse[a := c];
      expiry := expiry[c := deadline];
      LeaseToMaps(old(State()), c, a, deadline);
    }

    method Claim(c: ClientID, requested: Option<Address>, clock: Clock) returns (ip: Option<Address>)
      requires Ok() && (requested.None? && c !in Expire(State(), clock.first).leases ==>
                          Scannable(cfg, Expire(State(), clock.first)))
      modifies this`leases, this`inUse, this`expiry
      ensures Ok() && (State(), ip) == Leases.Claim(cfg, old(State()), c, requested, clock)
    {
      hide Valid, Expire, WellFormed, LeaseTo, Leases.Allocate, Scannable;
      ClaimValid(cfg, State(), c, requested, clock);
      ExpireLocked(clock.first);
      var current: Option<Address> := if c in leases then Some(leases[c]) else None;
      if requested.None? {
        if current.Some? {
          return current;
        }
        StaysScannable(cfg, State(), clock.second);
        ip := Allocate(c, clock.second, clock.third);
        return;
      }
      var a := requested.value;
      if current == Some(a) {
        expiry := expiry[c := clock.second + LEASE_DURATION];
        return current;
      }
      var broadcast := IsBroadcast(a, cfg.subnet);
      if !Contains(cfg.subnet, a) || a == cfg.gateway || broadcast {
        return None;
      }
      if a in inUse && inUse[a] != c {
        return None;
      }
      Move(c, current, a, clock.second + LEASE_DURATION);
      return Some(a);
    }

    /** One packet: parse it, apply it, answer it. No reply is an empty one. */
    method HandlePacket(data: seq<byte>, clock: Clock) returns (reply: seq<byte>, error: Option<ParseError>)
      requires Ok()
      requires Parse(data).Parsed? && Scans(State(), Parse(data).packet, clock) ==>
                 Scannable(cfg, Expire(State(), clock.first))
      modifies this`leases, this`inUse, this`expiry
      ensures Ok()
      ensures match Parse(data)
              case Malformed(e) => error == Some(e) && reply == [] && State() == old(State())
              case Parsed(p) =>
                && error == None && State() == Decide(cfg, old(State()), p, clock).0
                && reply == Answer(cfg, p, Decide(cfg, old(State()), p, clock).1)
    {
      hide Valid, WellFormed, Leases.Allocate, Leases.Claim, Leases.Release, ReplyBytes, Parse, Expire, Scannable;
      var parsed := ParseDHCPPacket(data);
      reply := [];
      match parsed
      case Malformed(e) => error := Some(e);
      case Parsed(p) =>
        ParsedIsWellFormed(data);
        error := None;
        var msgType := MessageType(p);
        if msgType == Some(DISCOVER) {
          var ip := Allocate(p.clientHWAddr, clock.first, clock.second);
          if ip.Some? {
            reply := Reply(cfg, p, OFFER, ip.value);
          }
        } else if msgType == Some(REQUEST) {
          var ip := Claim(p.clientHWAddr, RequestedIP(p), clock);
          if ip.None? {
            reply := Reply(cfg, p, NAK, [0, 0, 0, 0]);
          } else {
            reply := Reply(cfg, p, ACK, ip.value);
          }
        } else if msgType == Some(RELEASE) || msgType == Some(DECLINE) {
          Release(p.clientHWAddr);
        }
    }
  }

  /** Consistent tables with the same leases and deadlines are the same. */
  lemma SameLeases(cfg: Config, t: Table, u: Table)
    requires Valid(cfg, t) && Valid(cfg, u) && t.expiry == u.expiry
    requires forall c :: c in t.leases && c in u.leases ==> t.leases[c] == u.leases[c]
    ensures t == u
  {
    hide Allowed;
    assert t.leases == u.leases;
    forall a
      ensures a in t.inUse <==> a in u.inUse
      ensures a in t.inUse ==> t.inUse[a] == u.inUse[a]
    {
      if a in t.inUse {
        assert t.inUse[a] in u.leases;
      }
      if a in u.inUse {
        assert u.inUse[a] in t.leases;
      }
    }
    assert t.inUse == u.inUse;
  }

  lemma FreshLease(cfg: Config, t: Table, c: ClientID, a: Address, deadline: int)
    requires c !in t.leases
    ensures LeaseTo(t, c, a, deadline) == Table(t.leases[c := a], t.inUse[a := c], t.expiry[c := deadline])
  {
    assert (t.leases - {c})[c := a] == t.leases[c := a];
    assert (t.expiry - {c})[c := deadline] == t.expiry[c := deadline];
  }

  lemma LeaseToMaps(t: Table, c: ClientID, a: Address, deadline: int)
    ensures LeaseTo(t, c, a, deadline).leases == t.leases[c := a]
    ensures LeaseTo(t, c, a, deadline).expiry == t.expiry[c := deadline]
  {
  }

  // ----- the scan

  lemma FirstVal(base: Address, first: Address)
    requires first == base[3 := (base[3] as int + 2) % 256]
    ensures Val(first) == if base[3] <= 253 then Val(base) + 2 else Val(base) - 254
  {
  }

  /** The first candidate is base + 2, or already outside a subnet too small to have one. */
  lemma ScanStart(cfg: Config, prefix: nat, t: Table)
    requires WellFormed(cfg.subnet, prefix)
    ensures var first := FirstCandidate(cfg.subnet);
            && (Contains(cfg.subnet, first) ==> Val(first) == Val(cfg.subnet.ip) + 2)
            && (!Contains(cfg.subnet, first) ==> FirstFree(cfg, t, Val(cfg.subnet.ip) + 2) == None)
  {
    hide Contains, WellFormed, Broadcast, FirstFree, Val;
    var first := FirstCandidate(cfg.subnet);
    FirstVal(cfg.subnet.ip, first);
    ContainsIsRange(cfg.subnet, prefix, first);
    LargeBlockAligned(cfg.subnet, prefix);
    if !Contains(cfg.subnet, first) {
      PastTheEnd(cfg, prefix, t, Val(cfg.subnet.ip) + 2);
    }
  }

  /** With more than two addresses the last byte of the network address leaves room for two more. */
  lemma LargeBlockAligned(s: Subnet, prefix: nat)
    requires WellFormed(s, prefix)
    ensures Size(prefix) > 2 ==> s.ip[3] <= 252
  {
    ByteContains(s, prefix, s.ip, 3);
    Pow2Values();
    if prefix <= 30 {
      var free := FreeBits(prefix, 3);
      Pow2Sum(2, free - 2);
      assert Pow2(free) == 4 * Pow2(free - 2);
      MultipleOfFour(s.ip[3], Pow2(free - 2));
    } else {
      assert Pow2(1) == 2 && Pow2(0) == 1;
    }
  }

  lemma MultipleOfFour(x: byte, m: nat)
    requires m > 0 && x % (4 * m) == 0
    ensures x <= 252
  {
    var k := x / (4 * m);
    assert x == 4 * (k * m);
  }

  lemma HitTests(cfg: Config, t: Table, a: Address)
    ensures Hit(cfg, t, a) <==> a != cfg.gateway && a != Broadcast(cfg.subnet) && a !in t.inUse
    ensures Contains(cfg.subnet, a) && Hit(cfg, t, a) <==> Allowed(cfg, a) && a !in t.inUse
  {
  }

  /** A contained candidate that passes every test is the one the scan is after. */
  lemma ScanHit(cfg: Config, t: Table, candidate: Address)
    requires Contains(cfg.subnet, candidate) && Hit(cfg, t, candidate) && Val(candidate) >= Val(cfg.subnet.ip) + 2
    ensures FirstFree(cfg, t, Val(candidate)) == Some(candidate)
  {
    hide Contains, Broadcast;
    ValInjective(FromVal(Val(candidate)), candidate);
  }

  /** Otherwise the scan goes on at the next address, unless that leaves the subnet or wraps around. */
  lemma ScanMiss(cfg: Config, prefix: nat, t: Table, candidate: Address, next: Address)
    requires WellFormed(cfg.subnet, prefix) && Contains(cfg.subnet, candidate) && !Hit(cfg, t, candidate)
    requires Val(candidate) >= Val(cfg.subnet.ip) + 2 && Val(next) == (Val(candidate) + 1) % SPACE
    ensures var on := Contains(cfg.subnet, next) && Val(next) != 0;
            && (on ==> Val(next) == Val(candidate) + 1)
            && FirstFree(cfg, t, Val(candidate)) == (if on then FirstFree(cfg, t, Val(next)) else None)
    ensures Contains(cfg.subnet, next) && Val(next) == 0 ==> WrapsTo(cfg, t, next)
  {
    hide WellFormed, Broadcast, Contains, FirstFree, Val, Whole;
    ContainsIsRange(cfg.subnet, prefix, candidate);
    ContainsIsRange(cfg.subnet, prefix, next);
    HitTests(cfg, t, candidate);
    FirstFreeStep(cfg, t, candidate);
    WholeContainsAll(cfg.subnet, prefix);
    if prefix >= 1 {
      HalfSpace(cfg.subnet, prefix);
    }
    if !Contains(cfg.subnet, next) || Val(next) == 0 {
      NothingBehind(cfg, prefix, t, candidate, next);
    }
  }

  lemma NothingBehind(cfg: Config, prefix: nat, t: Table, candidate: Address, next: Address)
    requires WellFormed(cfg.subnet, prefix) && Val(next) == (Val(candidate) + 1) % SPACE
    requires Contains(cfg.subnet, candidate) && (!Contains(cfg.subnet, next) || Val(next) == 0)
    ensures FirstFree(cfg, t, Val(candidate) + 1) == None
  {
    hide WellFormed, Broadcast, Contains, Val, FirstFree;
    if Val(next) == 0 {
      NothingBehindTheLast(cfg, t, candidate, next);
    } else {
      ContainsIsRange(cfg.subnet, prefix, candidate);
      ContainsIsRange(cfg.subnet, prefix, next);
      PastTheEnd(cfg, prefix, t, Val(candidate) + 1);
    }
  }

  /** The successor of the last address is the first one. */
  lemma NothingBehindTheLast(cfg: Config, t: Table, candidate: Address, next: Address)
    requires Val(next) == (Val(candidate) + 1) % SPACE && Val(next) == 0
    ensures FirstFree(cfg, t, Val(candidate) + 1) == None
  {
    hide Val, Free, FromVal;
  }

  /** The scan has wrapped around, in the subnet of prefix 0, and found nothing up to the candidate. */
  predicate WrapsTo(cfg: Config, t: Table, candidate: Address) {
    Whole(cfg.subnet) && (Val(candidate) == 0 || (Val(candidate) == 1 && !Hit(cfg, t, FromVal(0))))
  }

  /** Prefix 0, and only that, takes in every address. */
  lemma WholeContainsAll(s: Subnet, prefix: nat)
    requires WellFormed(s, prefix)
    ensures Whole(s) <==> prefix == 0
    ensures Whole(s) ==> Val(s.ip) == 0 && forall a :: Contains(s, a)
  {
    hide AndByte, OrByte;
    Pow2Values();
    Pow2Le(7, 8);
    Pow2Le(FreeBits(prefix, 0), if prefix == 0 then 8 else 7);
    if prefix == 0 {
      forall a: Address, i | 0 <= i < 4
        ensures AndByte(a[i], s.mask[i]) == 0
      {
        MaskedByte(a[i], 8);
      }
      assert forall i :: 0 <= i < 4 ==> s.ip[i] == AndByte(s.ip[i], s.mask[i]);
    } else {
      assert Pow2(7) == 128;
    }
  }

  lemma LowHit(cfg: Config, t: Table, candidate: Address)
    requires WrapsTo(cfg, t, candidate) && Contains(cfg.subnet, candidate) && Hit(cfg, t, candidate)
    ensures FirstLow(cfg, t) == Some(candidate)
  {
    hide Contains, Broadcast, Hit;
    HitTests(cfg, t, candidate);
    HitTests(cfg, t, FromVal(0));
    ValInjective(FromVal(Val(candidate)), candidate);
  }

  /** Past the address 0 there is the address 1; past that one there is nothing left to find. */
  lemma LowMiss(cfg: Config, t: Table, candidate: Address, next: Address)
    requires WrapsTo(cfg, t, candidate) && !Hit(cfg, t, candidate) && Room(cfg, t)
    requires Val(cfg.subnet.ip) == 0 && (forall a :: Contains(cfg.subnet, a)) && FirstFree(cfg, t, 2) == None
    requires Val(next) == (Val(candidate) + 1) % SPACE
    ensures Val(candidate) == 0 && Val(next) == 1 && WrapsTo(cfg, t, next)
  {
    hide Contains, Broadcast, Hit, Whole, Val, FirstFree;
    var a :| Hit(cfg, t, a);
    HitTests(cfg, t, a);
    FirstFreeIsLeast(cfg, t, 2);
    ValInjective(FromVal(Val(a)), a);
    ValInjective(FromVal(Val(candidate)), candidate);
  }

  lemma FirstFreeStep(cfg: Config, t: Table, candidate: Address)
    requires !Free(cfg, t, candidate)
    ensures FirstFree(cfg, t, Val(candidate)) == FirstFree(cfg, t, Val(candidate) + 1)
  {
    hide Free;
    ValInjective(FromVal(Val(candidate)), candidate);
  }

  lemma HalfSpace(s: Subnet, prefix: nat)
    requires WellFormed(s, prefix) && prefix >= 1
    ensures Size(prefix) <= SPACE / 2
  {
    Pow2Le(8, 8);
    Pow2Sum(8, 8);
    Pow2Sum(16, 8);
    Pow2Sum(24, 7);
    assert Pow2(7) == 128;
    Pow2Le(32 - prefix, 31);
  }

  lemma PastTheEnd(cfg: Config, prefix: nat, t: Table, v: nat)
    requires WellFormed(cfg.subnet, prefix) && v >= Val(cfg.subnet.ip) + Size(prefix)
    ensures FirstFree(cfg, t, v) == None
  {
    FirstFreeIsLeast(cfg, t, v);
    hide FirstFree, WellFormed, Broadcast, Contains;
    if FirstFree(cfg, t, v).Some? {
      ContainsIsRange(cfg.subnet, prefix, FirstFree(cfg, t, v).value);
    }
  }

  /** The subnet leaves an address out exactly when its prefix is not empty. */
  lemma SomeOutside(s: Subnet, prefix: nat)
    requires WellFormed(s, prefix)
    ensures (exists a :: !Contains(s, a)) <==> prefix >= 1
  {
    hide Contains, Val, Broadcast, WellFormed, Whole;
    WholeContainsAll(s, prefix);
    if prefix >= 1 {
      HalfSpace(s, prefix);
      var outside := FromVal((Val(s.ip) + SPACE / 2) % SPACE);
      ContainsIsRange(s, prefix, outside);
      assert !Contains(s, outside);
    }
  }

  /** The `k`-th candidate of the scan, wrapping around at the end of the address space. */
  function Candidate(s: Subnet, k: nat): Address {
    FromVal((Val(FirstCandidate(s)) + k) % SPACE)
  }

  /** Every address is a candidate sooner or later, if the scan gets that far. */
  lemma EveryAddressIsACandidate(s: Subnet, a: Address) returns (k: nat)
    ensures Candidate(s, k) == a
  {
    hide Val, FirstCandidate;
    var first := Val(FirstCandidate(s));
    k := if Val(a) >= first then Val(a) - first else Val(a) + SPACE - first;
    DivModUnique(first + k, SPACE, if Val(a) >= first then 0 else 1, Val(a));
    ValInjective(FromVal(Val(a)), a);
  }

  /** The scan stops at its `k`-th candidate: outside the subnet, or with an address found. */
  predicate StopsAt(cfg: Config, t: Table, k: nat) {
    !Contains(cfg.subnet, Candidate(cfg.subnet, k)) || Hit(cfg, t, Candidate(cfg.subnet, k))
  }

  /**
   When the scan ends: exactly if the prefix is not empty, or some address is neither the gateway nor the
   broadcast address nor in use. With prefix 0, which the configuration accepts, and a full table it never does.
   */
  lemma ScanEnds(cfg: Config, prefix: nat, t: Table)
    requires WellFormed(cfg.subnet, prefix)
    ensures (exists k :: StopsAt(cfg, t, k)) <==> prefix >= 1 || Room(cfg, t)
    ensures (exists k :: StopsAt(cfg, t, k)) <==> Scannable(cfg, t)
  {
    hide Contains, Hit, WellFormed, Candidate, Whole;
    SomeOutside(cfg.subnet, prefix);
    WholeContainsAll(cfg.subnet, prefix);
    if prefix >= 1 {
      var outside :| !Contains(cfg.subnet, outside);
      var k := EveryAddressIsACandidate(cfg.subnet, outside);
      assert StopsAt(cfg, t, k);
    } else if Room(cfg, t) {
      var a :| Hit(cfg, t, a);
      var k := EveryAddressIsACandidate(cfg.subnet, a);
      assert StopsAt(cfg, t, k);
    }
  }

  /** Expiring more leases only makes room. */
  lemma StaysScannable(cfg: Config, t: Table, now: int)
    requires Scannable(cfg, t)
    ensures Scannable(cfg, Expire(t, now))
  {
    hide Whole, Broadcast;
    if Room(cfg, t) {
      var a :| Hit(cfg, t, a);
      assert Hit(cfg, Expire(t, now), a);
    }
  }
}
