/**
 What every packet does, in terms of who holds which address until when, and whether the lease time a client
 is told is kept.
 */
module DhcpPromise {
  import opened Bytes
  import opened Bits
  import opened IPv4
  import opened Leases
  import opened DhcpWire
  import opened DhcpServer
  import opened DhcpRuns
  import opened Options

  /** An address and the time until which it is held. */
  datatype Lease = Lease(address: Address, deadline: int)

  function LeaseOf(t: Table, c: ClientID): Option<Lease> {
    if c in t.leases && c in t.expiry then Some(Lease(t.leases[c], t.expiry[c])) else None
  }

  /** The lease while its deadline is ahead. */
  function LiveLease(t: Table, c: ClientID, now: int): Option<Lease> {
    if LeaseOf(t, c).Some? && LeaseOf(t, c).value.deadline > now then LeaseOf(t, c) else None
  }

  /** Nobody but `c` holds the address. */
  ghost predicate VacantFor(t: Table, c: ClientID, a: Address, now: int) {
    forall d :: d != c && LiveLease(t, d, now).Some? ==> LiveLease(t, d, now).value.address != a
  }

  /** Between the network address and the broadcast address, and not the gateway's. */
  predicate Usable(cfg: Config, prefix: nat, a: Address)
    requires prefix <= 32
  {
    Val(cfg.subnet.ip) <= Val(a) < Val(cfg.subnet.ip) + Pow2(32 - prefix) - 1 && a != cfg.gateway
  }

  ghost predicate Available(cfg: Config, prefix: nat, t: Table, c: ClientID, a: Address, now: int)
    requires prefix <= 32
  {
    Usable(cfg, prefix, a) && VacantFor(t, c, a, now)
  }

  /** The offer for a client without a lease: the least available address from the third on; of all, the rest. */
  ghost predicate Best(cfg: Config, prefix: nat, t: Table, c: ClientID, a: Address, now: int)
    requires prefix <= 32
  {
    && Available(cfg, prefix, t, c, a, now)
    && (forall b :: Available(cfg, prefix, t, c, b, now) && Val(b) >= Val(cfg.subnet.ip) + 2 ==>
          Val(cfg.subnet.ip) + 2 <= Val(a) <= Val(b))
    && (Val(a) < Val(cfg.subnet.ip) + 2 ==>
          prefix == 0 && forall b :: Available(cfg, prefix, t, c, b, now) ==> Val(a) <= Val(b))
  }

  ghost predicate NoneLeft(cfg: Config, prefix: nat, t: Table, c: ClientID, now: int)
    requires prefix <= 32
  {
    forall b :: Available(cfg, prefix, t, c, b, now) ==> prefix > 0 && Val(b) < Val(cfg.subnet.ip) + 2
  }

  // ----- the tables in these terms

  lemma ExpireLeases(t: Table, now: int, d: ClientID)
    requires t.leases.Keys == t.expiry.Keys
    ensures LeaseOf(Expire(t, now), d) == LiveLease(t, d, now)
  {
  }

  lemma LeaseToLeases(t: Table, c: ClientID, a: Address, deadline: int, d: ClientID)
    ensures LeaseOf(LeaseTo(t, c, a, deadline), d) == if d == c then Some(Lease(a, deadline)) else LeaseOf(t, d)
  {
  }

  lemma RenewLeases(t: Table, c: ClientID, deadline: int, d: ClientID)
    requires c in t.leases
    ensures LeaseOf(Renew(t, c, deadline), d) ==
            if d == c then Some(Lease(t.leases[c], deadline)) else LeaseOf(t, d)
  {
  }

  lemma ReleaseLeases(t: Table, c: ClientID, d: ClientID)
    ensures LeaseOf(Release(t, c), d) == if d == c then None else LeaseOf(t, d)
  {
  }

  lemma InUseIsVacant(cfg: Config, t: Table, c: ClientID, a: Address, now: int)
    requires Valid(cfg, t)
    ensures a in Expire(t, now).inUse ==> Expire(t, now).inUse[a] == c || !VacantFor(t, c, a, now)
    ensures a !in Expire(t, now).inUse || Expire(t, now).inUse[a] == c ==> VacantFor(t, c, a, now)
  {
    hide Allowed;
    var live := Expire(t, now);
    ExpireValid(cfg, t, now);
    if a in live.inUse && live.inUse[a] != c {
      var d := live.inUse[a];
      ExpireLeases(t, now, d);
      assert LiveLease(t, d, now).Some?;
    }
    if a !in live.inUse || live.inUse[a] == c {
      forall d | d != c && LiveLease(t, d, now).Some?
        ensures LiveLease(t, d, now).value.address != a
      {
        ExpireLeases(t, now, d);
        assert live.leases[d] in live.inUse && live.inUse[live.leases[d]] == d;
      }
    }
  }

  lemma AllowedIsUsable(cfg: Config, prefix: nat, a: Address)
    requires WellFormed(cfg.subnet, prefix)
    ensures Allowed(cfg, a) <==> Usable(cfg, prefix, a)
  {
    hide Contains, Broadcast, Val;
    ContainsIsRange(cfg.subnet, prefix, a);
    if Val(a) == Val(Broadcast(cfg.subnet)) {
      ValInjective(a, Broadcast(cfg.subnet));
    }
  }

  lemma FreeIsAvailable(cfg: Config, prefix: nat, t: Table, c: ClientID, a: Address, now: int)
    requires Valid(cfg, t) && WellFormed(cfg.subnet, prefix) && LiveLease(t, c, now).None?
    ensures Free(cfg, Expire(t, now), a) <==>
            Available(cfg, prefix, t, c, a, now) && Val(a) >= Val(cfg.subnet.ip) + 2
    ensures FreeLow(cfg, Expire(t, now), a) <==> Available(cfg, prefix, t, c, a, now) && Val(a) < 2
  {
    hide Allowed, Usable, Val, VacantFor;
    AllowedIsUsable(cfg, prefix, a);
    InUseIsVacant(cfg, t, c, a, now);
    ExpireValid(cfg, t, now);
    ExpireLeases(t, now, c);
    NotInUse(cfg, Expire(t, now), c, a);
  }

  lemma NotInUse(cfg: Config, t: Table, c: ClientID, a: Address)
    requires Valid(cfg, t) && LeaseOf(t, c).None?
    ensures a in t.inUse ==> t.inUse[a] != c
  {
    hide Allowed;
  }

  // ----- looking for an address

  /** The answer to a client that has no lease at `now`, and what it holds afterwards. */
  ghost predicate Served(cfg: Config, prefix: nat, t: Table, c: ClientID, now: int, stamp: int, ip: Option<Address>,
                         lease: Option<Lease>)
    requires prefix <= 32
  {
    match ip
    case None => NoneLeft(cfg, prefix, t, c, now) && lease == None
    case Some(a) => Best(cfg, prefix, t, c, a, now) && lease == Some(Lease(a, stamp + 28800))
  }

  lemma LeastIsBest(cfg: Config, prefix: nat, t: Table, c: ClientID, now: int, stamp: int)
    requires Valid(cfg, t) && WellFormed(cfg.subnet, prefix) && LiveLease(t, c, now).None?
    ensures match Allocate(cfg, t, c, now, stamp).1
            case None => NoneLeft(cfg, prefix, t, c, now)
            case Some(a) => Best(cfg, prefix, t, c, a, now)
  {
    hide Allocate, Allowed, Val, Usable, VacantFor, Available, Free, FreeLow, Expire, LiveLease;
    ExpireLeases(t, now, c);
    ExpireDomain(t, now, c);
    AllocateIsLeast(cfg, t, c, now, stamp);
    WholeContainsAll(cfg.subnet, prefix);
    forall b
      ensures Free(cfg, Expire(t, now), b) <==>
              Available(cfg, prefix, t, c, b, now) && Val(b) >= Val(cfg.subnet.ip) + 2
      ensures FreeLow(cfg, Expire(t, now), b) <==> Available(cfg, prefix, t, c, b, now) && Val(b) < 2
    {
      FreeIsAvailable(cfg, prefix, t, c, b, now);
    }
  }

  lemma ExpireDomain(t: Table, now: int, c: ClientID)
    requires t.leases.Keys == t.expiry.Keys
    ensures c in Expire(t, now).leases <==> LiveLease(t, c, now).Some?
    ensures c in Expire(t, now).leases ==> Expire(t, now).leases[c] == LiveLease(t, c, now).value.address
  {
  }

  /** What looking for an address does to everybody. */
  lemma AllocateDoes(cfg: Config, prefix: nat, t: Table, c: ClientID, now: int, stamp: int)
    requires Valid(cfg, t) && WellFormed(cfg.subnet, prefix)
    ensures var (after, ip) := Allocate(cfg, t, c, now, stamp);
            && (forall d :: d != c ==> LeaseOf(after, d) == LiveLease(t, d, now))
            && match LiveLease(t, c, now)
               case Some(l) => ip == Some(l.address) && LeaseOf(after, c) == Some(Lease(l.address, stamp + 28800))
               case None => Served(cfg, prefix, t, c, now, stamp, ip, LeaseOf(after, c))
  {
    hide Valid, WellFormed, Expire, LeaseTo, Renew, Release, FirstOffer, LeaseOf, LiveLease, Best, NoneLeft;
    var (after, ip) := Allocate(cfg, t, c, now, stamp);
    SameDomains(cfg, t);
    ExpireDomain(t, now, c);
    forall d
      ensures LeaseOf(after, d) == if d != c || ip.None? then LiveLease(t, d, now)
                                   else Some(Lease(ip.value, stamp + 28800))
    {
      ExpireLeases(t, now, d);
      if c in Expire(t, now).leases {
        RenewLeases(Expire(t, now), c, stamp + 28800, d);
      } else if ip.Some? {
        LeaseToLeases(Expire(t, now), c, ip.value, stamp + 28800, d);
      }
    }
    if LiveLease(t, c, now).None? {
      LeastIsBest(cfg, prefix, t, c, now, stamp);
    }
  }

  lemma SameDomains(cfg: Config, t: Table)
    requires Valid(cfg, t)
    ensures t.leases.Keys == t.expiry.Keys
  {
  }

  // ----- asking for an address

  /** Nothing changed for anybody, except that leases lapsed. */
  ghost predicate OnlyLapsed(t: Table, after: Table, now: int) {
    forall d :: LeaseOf(after, d) == LiveLease(t, d, now)
  }

  ghost predicate OthersLapsed(t: Table, after: Table, c: ClientID, now: int) {
    forall d :: d != c ==> LeaseOf(after, d) == LiveLease(t, d, now)
  }

  lemma LiveTwice(t: Table, now: int, later: int, d: ClientID)
    requires t.leases.Keys == t.expiry.Keys && now <= later
    ensures LiveLease(Expire(t, now), d, later) == LiveLease(t, d, later)
  {
    ExpireLeases(t, now, d);
  }

  lemma SameView(cfg: Config, prefix: nat, t: Table, u: Table, c: ClientID, now: int, stamp: int, ip: Option<Address>,
                 lease: Option<Lease>)
    requires prefix <= 32 && forall d :: LiveLease(t, d, now) == LiveLease(u, d, now)
    ensures Served(cfg, prefix, t, c, now, stamp, ip, lease) <==> Served(cfg, prefix, u, c, now, stamp, ip, lease)
  {
    hide Usable, LiveLease, Best, NoneLeft;
    forall a
      ensures Available(cfg, prefix, t, c, a, now) <==> Available(cfg, prefix, u, c, a, now)
    {
      assert VacantFor(t, c, a, now) <==> VacantFor(u, c, a, now);
    }
    SameBest(cfg, prefix, t, u, c, now, ip);
  }

  lemma SameBest(cfg: Config, prefix: nat, t: Table, u: Table, c: ClientID, now: int, ip: Option<Address>)
    requires prefix <= 32
    requires forall a :: Available(cfg, prefix, t, c, a, now) <==> Available(cfg, prefix, u, c, a, now)
    ensures NoneLeft(cfg, prefix, t, c, now) <==> NoneLeft(cfg, prefix, u, c, now)
    ensures ip.Some? ==> (Best(cfg, prefix, t, c, ip.value, now) <==> Best(cfg, prefix, u, c, ip.value, now))
  {
    hide Available, Val;
  }

  /** A request without an address: the lease as it is, or an address as for a discover. */
  lemma ClaimNothingDoes(cfg: Config, prefix: nat, t: Table, c: ClientID, clock: Clock)
    requires Valid(cfg, t) && WellFormed(cfg.subnet, prefix) && clock.Ordered()
    ensures var (after, ip) := Claim(cfg, t, c, None, clock);
            match LiveLease(t, c, clock.first)
            case Some(l) => ip == Some(l.address) && OnlyLapsed(t, after, clock.first)
            case None =>
              && Served(cfg, prefix, t, c, clock.second, clock.third, ip, LeaseOf(after, c))
              && OthersLapsed(t, after, c, clock.second)
  {
    hide Valid, WellFormed, Expire, Allocate, LeaseOf, LiveLease, Served;
    var live := Expire(t, clock.first);
    SameDomains(cfg, t);
    ExpireDomain(t, clock.first, c);
    if c in live.leases {
      forall d
        ensures LeaseOf(live, d) == LiveLease(t, d, clock.first)
      {
        ExpireLeases(t, clock.first, d);
      }
    } else {
      ExpireValid(cfg, t, clock.first);
      forall d
        ensures LiveLease(live, d, clock.second) == LiveLease(t, d, clock.second)
      {
        LiveTwice(t, clock.first, clock.second, d);
      }
      StillNone(t, c, clock.first, clock.second);
      PrefixFits(cfg, prefix);
      AllocateDoes(cfg, prefix, live, c, clock.second, clock.third);
      var (after, ip) := Allocate(cfg, live, c, clock.second, clock.third);
      SameView(cfg, prefix, t, live, c, clock.second, clock.third, ip, LeaseOf(after, c));
    }
  }

  lemma PrefixFits(cfg: Config, prefix: nat)
    requires WellFormed(cfg.subnet, prefix)
    ensures prefix <= 32
  {
  }

  lemma StillNone(t: Table, c: ClientID, now: int, later: int)
    requires now <= later && LiveLease(t, c, now).None?
    ensures LiveLease(t, c, later).None?
  {
  }

  /** A request for an address: it is granted for the full time exactly when it is usable and nobody else's. */
  lemma ClaimAddressDoes(cfg: Config, prefix: nat, t: Table, c: ClientID, a: Address, clock: Clock)
    requires Valid(cfg, t) && WellFormed(cfg.subnet, prefix)
    ensures var (after, ip) := Claim(cfg, t, c, Some(a), clock);
            && OthersLapsed(t, after, c, clock.first)
            && if Available(cfg, prefix, t, c, a, clock.first)
               then ip == Some(a) && LeaseOf(after, c) == Some(Lease(a, clock.second + 28800))
               else ip == None && LeaseOf(after, c) == LiveLease(t, c, clock.first)
  {
    hide Valid, WellFormed, Expire, LeaseTo, Renew, LeaseOf, LiveLease, Allowed, Usable, VacantFor;
    var live := Expire(t, clock.first);
    SameDomains(cfg, t);
    ExpireDomain(t, clock.first, c);
    AllowedIsUsable(cfg, prefix, a);
    InUseIsVacant(cfg, t, c, a, clock.first);
    ClaimGrants(cfg, t, c, a, clock);
    forall d
      ensures LeaseOf(live, d) == LiveLease(t, d, clock.first)
      ensures LeaseOf(LeaseTo(live, c, a, clock.second + 28800), d) ==
              if d == c then Some(Lease(a, clock.second + 28800)) else LeaseOf(live, d)
      ensures c in live.leases ==>
                LeaseOf(Renew(live, c, clock.second + 28800), d) ==
                if d == c then Some(Lease(live.leases[c], clock.second + 28800)) else LeaseOf(live, d)
    {
      ExpireLeases(t, clock.first, d);
      LeaseToLeases(live, c, a, clock.second + 28800, d);
      if c in live.leases {
        RenewLeases(live, c, clock.second + 28800, d);
      }
    }
  }

  // ----- one packet

  /** The type of a packet that parses, and nothing for any other bytes. */
  function TypeOf(e: Event): Option<byte> {
    match Parse(e.data)
    case Malformed(_) => None
    case Parsed(p) => if 53 in p.options && p.options[53] != [] then Some(p.options[53][0]) else None
  }

  /** The address asked for: option 50, if it has four bytes. */
  function AskedFor(p: Packet): Option<Address> {
    if 50 in p.options && |p.options[50]| == 4 then Some(p.options[50]) else None
  }

  lemma AskedIsRequested(p: Packet)
    ensures AskedFor(p) == RequestedIP(p)
  {
  }

  /** A DISCOVER is answered with the client's lease, renewed, or the best address, or, with none left, not at all. */
  lemma DiscoverDoes(cfg: Config, prefix: nat, t: Table, e: Event)
    requires Valid(cfg, t) && WellFormed(cfg.subnet, prefix) && TypeOf(e) == Some(1)
    ensures Sender(e).Some?
    ensures var c, after, d := Sender(e).value, After(cfg, t, e), DecisionOn(cfg, t, e);
            && OthersLapsed(t, after, c, e.clock.first)
            && (d == Silent || d.Offered?)
            && match LiveLease(t, c, e.clock.first)
               case Some(l) =>
                 d == Offered(l.address) && LeaseOf(after, c) == Some(Lease(l.address, e.clock.second + 28800))
               case None =>
                 Served(cfg, prefix, t, c, e.clock.first, e.clock.second, if d.Offered? then Some(d.offer) else None,
                        LeaseOf(after, c))
  {
    hide Parse, Valid, WellFormed, Allocate, Claim, Release, LeaseOf, LiveLease, Served;
    PrefixFits(cfg, prefix);
    AllocateDoes(cfg, prefix, t, Sender(e).value, e.clock.first, e.clock.second);
    var d := DecisionOn(cfg, t, e);
    assert Allocate(cfg, t, Sender(e).value, e.clock.first, e.clock.second).1 ==
           if d.Offered? then Some(d.offer) else None;
  }

  /** A REQUEST is always answered, with an ACK or a NAK. */
  lemma RequestDoes(cfg: Config, prefix: nat, t: Table, e: Event)
    requires Valid(cfg, t) && WellFormed(cfg.subnet, prefix) && e.clock.Ordered() && TypeOf(e) == Some(3)
    ensures Sender(e).Some?
    ensures var p, after, d := Parse(e.data).packet, After(cfg, t, e), DecisionOn(cfg, t, e);
            var c, ip := p.clientHWAddr, if d.Acked? then Some(d.ack) else None;
            && (d == Refused || d.Acked?)
            && match AskedFor(p)
               case Some(a) =>
                 && OthersLapsed(t, after, c, e.clock.first)
                 && (if Available(cfg, prefix, t, c, a, e.clock.first)
                     then ip == Some(a) && LeaseOf(after, c) == Some(Lease(a, e.clock.second + 28800))
                     else ip == None && LeaseOf(after, c) == LiveLease(t, c, e.clock.first))
               case None =>
                 match LiveLease(t, c, e.clock.first)
                 case Some(l) => ip == Some(l.address) && OnlyLapsed(t, after, e.clock.first)
                 case None =>
                   && Served(cfg, prefix, t, c, e.clock.second, e.clock.third, ip, LeaseOf(after, c))
                   && OthersLapsed(t, after, c, e.clock.second)
  {
    hide Parse, Valid, WellFormed, Allocate, Claim, Release, LeaseOf, LiveLease, Served, Available, OthersLapsed,
         OnlyLapsed, RequestedIP, AskedFor;
    PrefixFits(cfg, prefix);
    var p := Parse(e.data).packet;
    AskedIsRequested(p);
    match AskedFor(p)
    case Some(a) => ClaimAddressDoes(cfg, prefix, t, p.clientHWAddr, a, e.clock);
    case None =>
      ClaimNothingDoes(cfg, prefix, t, p.clientHWAddr, e.clock);
      var d := DecisionOn(cfg, t, e);
      assert Claim(cfg, t, p.clientHWAddr, None, e.clock).1 == if d.Acked? then Some(d.ack) else None;
  }

  /** A RELEASE or DECLINE ends the sender's lease and no other; anything else changes nothing. No answer to either. */
  lemma OthersDo(cfg: Config, t: Table, e: Event)
    requires TypeOf(e) != Some(1) && TypeOf(e) != Some(3)
    ensures DecisionOn(cfg, t, e) == Silent
    ensures TypeOf(e) != Some(7) && TypeOf(e) != Some(4) ==> After(cfg, t, e) == t
    ensures TypeOf(e) == Some(7) || TypeOf(e) == Some(4) ==>
              Sender(e).Some? && forall d :: LeaseOf(After(cfg, t, e), d) ==
                                              if d == Sender(e).value then None else LeaseOf(t, d)
  {
    hide Parse, Allocate, Claim, Release, LeaseOf;
    if TypeOf(e) == Some(7) || TypeOf(e) == Some(4) {
      forall d
        ensures LeaseOf(After(cfg, t, e), d) == if d == Sender(e).value then None else LeaseOf(t, d)
      {
        ReleaseLeases(t, Sender(e).value, d);
      }
    }
  }

  // ----- the lease time a client is told

  /** The lease time in the reply to a grant: the four bytes of its option 51. */
  function TimeTold(cfg: Config, t: Table, e: Event): (seconds: nat)
    requires Granted(cfg, t, e).Some?
  {
    var reply := Parse(Answer(cfg, Parse(e.data).packet, DecisionOn(cfg, t, e)));
    if reply.Parsed? && 51 in reply.packet.options && |reply.packet.options[51]| == 4
    then Number(reply.packet.options[51])
    else 0
  }

  lemma TellsTheTime(cfg: Config, t: Table, e: Event)
    requires Granted(cfg, t, e).Some?
    ensures TimeTold(cfg, t, e) == 28800
  {
    hide Parse, ReplyBytes, Allocate, Claim, Release, ReplyOptions;
    var p, d := Parse(e.data).packet, DecisionOn(cfg, t, e);
    ParsedIsWellFormed(e.data);
    var msgType := if d.Offered? then OFFER else ACK;
    ReplyParses(cfg, p, msgType, Granted(cfg, t, e).value);
    ReplyTime(cfg, p, msgType);
  }

  lemma ReplyTime(cfg: Config, p: Packet, msgType: byte)
    requires msgType != NAK
    ensures var options := p.(options := ReplyOptions(cfg, msgType)).options;
            51 in options && |options[51]| == 4 && Number(options[51]) == 28800
  {
    Be32IsNumber(ReplyOptions(cfg, msgType)[51]);
    hide Number;
  }

  /** A request without an address from a client whose lease still runs: the answer does not extend it. */
  predicate AsksForNothing(t: Table, e: Event) {
    && TypeOf(e) == Some(3) && AskedFor(Parse(e.data).packet) == None
    && LiveLease(t, Parse(e.data).packet.clientHWAddr, e.clock.first).Some?
  }

  /**
   The time told is kept by every grant but that one, and by that one exactly if the lease had as long to run
   anyway.
   */
  lemma TimeToldIsKept(cfg: Config, prefix: nat, t: Table, e: Event)
    requires Valid(cfg, t) && WellFormed(cfg.subnet, prefix) && e.clock.Ordered() && Granted(cfg, t, e).Some?
    ensures Sender(e).Some? && LeaseOf(After(cfg, t, e), Sender(e).value).Some?
    ensures var c, told := Sender(e).value, e.clock.first + TimeTold(cfg, t, e);
            var lease := LeaseOf(After(cfg, t, e), c).value;
            && lease.address == Granted(cfg, t, e).value
            && (AsksForNothing(t, e) ==> Some(lease) == LeaseOf(t, c))
            && (!AsksForNothing(t, e) ==> told <= lease.deadline <= e.clock.third + TimeTold(cfg, t, e))
            && (lease.deadline < told <==> AsksForNothing(t, e) && LeaseOf(t, c).value.deadline < told)
  {
    hide Parse, Valid, WellFormed, After, DecisionOn, LeaseOf, Best, NoneLeft, OthersLapsed, Available, AskedFor;
    TellsTheTime(cfg, t, e);
    PrefixFits(cfg, prefix);
    if TypeOf(e) == Some(1) {
      DiscoverDoes(cfg, prefix, t, e);
    } else if TypeOf(e) == Some(3) {
      RequestDoes(cfg, prefix, t, e);
    } else {
      OthersDo(cfg, t, e);
    }
  }

  // ----- which packets are taken, and from whom

  /** A packet is read exactly if it is long enough, has the cookie and a hardware address of 1 to 16 bytes. */
  lemma ReadExactlyIf(data: seq<byte>)
    ensures Parse(data).Malformed? ==>
              Parse(data).error == if |data| < 240 then TooShort
                                   else if data[236..240] != [99, 130, 83, 99] then NoCookie else BadHardwareLength
    ensures Parse(data).Parsed? <==> |data| >= 240 && data[236..240] == [99, 130, 83, 99] && 1 <= data[2] <= 16
    ensures Parse(data).Parsed? ==>
              var p := Parse(data).packet;
              && p.htype == data[1] && p.hlen == data[2] && p.xid == data[4..8] && p.chaddr == data[28..44]
              && p.clientHWAddr == data[28..28 + data[2] as int]
  {
    hide ParseOptions;
  }

  // ----- what else the answers say

  /** The options of an offer or acknowledgement: server, mask, broadcast address, MTU 1500, times. */
  predicate TellsAll(cfg: Config, options: map<byte, seq<byte>>) {
    && options.Keys == {53, 54, 1, 28, 26, 51, 58, 59}
    && options[54] == cfg.serverIP && options[1] == cfg.subnet.mask && options[28] == Broadcast(cfg.subnet)
    && options[26] == [0x05, 0xDC] && options[58] == [0, 0, 0, 0] && options[59] == [0, 0, 0, 0]
  }

  lemma LeaseOptions(cfg: Config, msgType: byte)
    ensures var options := ReplyOptions(cfg, msgType);
            && (msgType != 6 ==> TellsAll(cfg, options) && options[53] == [msgType])
            && (msgType == 6 ==> options == map[53 := [6], 54 := cfg.serverIP])
  {
    hide PutBe32, Broadcast;
    var options := ReplyOptions(cfg, msgType);
    assert msgType != 6 ==> options.Keys == {53, 54, 1, 28, 26, 51, 58, 59};
  }

  /** The answer to a grant names its kind and address and tells the lease; a refusal tells the server alone. */
  lemma AnswersTell(cfg: Config, t: Table, e: Event)
    requires Parse(e.data).Parsed?
    ensures var p, d := Parse(e.data).packet, DecisionOn(cfg, t, e);
            var reply := Answer(cfg, p, d);
            && (d == Silent <==> reply == [])
            && (d != Silent ==>
                  && |reply| == 300 && reply[0] == 2 && reply[20..24] == cfg.serverIP && Parse(reply).Parsed?
                  && var r := Parse(reply).packet;
                  && r.xid == p.xid && r.clientHWAddr == p.clientHWAddr
                  && reply[16..20] == (if d.Refused? then [0, 0, 0, 0] else Granted(cfg, t, e).value)
                  && (d.Offered? ==> TellsAll(cfg, r.options) && r.options[53] == [2])
                  && (d.Acked? ==> TellsAll(cfg, r.options) && r.options[53] == [5])
                  && (d.Refused? ==> r.options == map[53 := [6], 54 := cfg.serverIP]))
  {
    hide Parse, ReplyBytes, Allocate, Claim, Release, ReplyOptions, TellsAll;
    var p, d := Parse(e.data).packet, DecisionOn(cfg, t, e);
    ParsedIsWellFormed(e.data);
    if d != Silent {
      var msgType := if d.Offered? then OFFER else if d.Acked? then ACK else NAK;
      var ip: Address := if d.Refused? then [0, 0, 0, 0] else Granted(cfg, t, e).value;
      ReplyParses(cfg, p, msgType, ip);
      LeaseOptions(cfg, msgType);
      FirstByte(cfg, p, msgType, ip);
    }
  }

  lemma FirstByte(cfg: Config, p: Packet, msgType: byte, ip: Address)
    requires WellFormedPacket(p)
    ensures var r := ReplyBytes(cfg, p, msgType, ip); |r| > 0 && r[0] == 2
  {
    hide OptionBytes;
  }

  // ----- over runs

  /**
   Exclusivity for the time told: an address granted at event `k`, by anything but a request for nothing, goes to
   no other client before that time has passed since the packet arrived, unless its holder gives it up.
   */
  lemma ExclusiveForTheTimeTold(cfg: Config, prefix: nat, events: seq<Event>, now: int, k: nat, j: nat, a: Address)
    requires WellFormed(cfg.subnet, prefix) && k < j < |events| && Timely(events, now)
    requires Granted(cfg, Before(cfg, events, k), events[k]) == Some(a)
    requires Granted(cfg, Before(cfg, events, j), events[j]) == Some(a)
    requires !AsksForNothing(Before(cfg, events, k), events[k])
    requires forall m :: k < m <= j ==> events[m].clock.third < events[k].clock.first
                                          + TimeTold(cfg, Before(cfg, events, k), events[k])
    requires Sender(events[k]).Some? &&
             forall m :: k < m < j ==> !GivesUp(cfg, Before(cfg, events, m), events[m], Sender(events[k]).value, a)
    ensures Sender(events[j]) == Sender(events[k])
  {
    hide WellFormed, Before, GivesUp, After, Timely, Granted, Sender, AsksForNothing, TimeTold, Valid,
         DeadlinesWithin;
    BeforeOk(cfg, events, now, k);
    TimeToldIsKept(cfg, prefix, Before(cfg, events, k), events[k]);
    BeforeNext(cfg, events, k);
    LeaseExclusive(cfg, events, now, k, j, a);
  }
}
