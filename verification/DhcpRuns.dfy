/** Runs of the DHCP server: any packets, from any clients, at times that never decrease. */
module DhcpRuns {
  import opened Bytes
  import opened IPv4
  import opened Leases
  import opened DhcpWire
  import opened DhcpServer
  import opened Options

  datatype Event = Event(data: seq<byte>, clock: Clock)

  function After(cfg: Config, t: Table, e: Event): Table {
    match Parse(e.data)
    case Malformed(_) => t
    case Parsed(p) => Decide(cfg, t, p, e.clock).0
  }

  function DecisionOn(cfg: Config, t: Table, e: Event): Decision {
    match Parse(e.data)
    case Malformed(_) => Silent
    case Parsed(p) => Decide(cfg, t, p, e.clock).1
  }

  /** Who sent the packet. */
  function Sender(e: Event): Option<ClientID> {
    match Parse(e.data)
    case Malformed(_) => None
    case Parsed(p) => Some(p.clientHWAddr)
  }

  /** The address an OFFER or ACK hands to the sender. */
  function Granted(cfg: Config, t: Table, e: Event): Option<Address> {
    match DecisionOn(cfg, t, e)
    case Offered(a) => Some(a)
    case Acked(a) => Some(a)
    case _ => None
  }

  function Run(cfg: Config, t: Table, events: seq<Event>): Table {
    if events == [] then t
    else After(cfg, Run(cfg, t, events[..|events| - 1]), events[|events| - 1])
  }

  predicate TimelyAt(events: seq<Event>, now: int, i: nat)
    requires i < |events|
  {
    events[i].clock.Ordered() && (if i == 0 then now else events[i - 1].clock.third) <= events[i].clock.first
  }

  /** The clock never runs backwards, starting at `now`. */
  predicate Timely(events: seq<Event>, now: int) {
    forall i :: 0 <= i < |events| ==> TimelyAt(events, now, i)
  }

  /** When the last packet of a run was done. */
  function EndTime(events: seq<Event>, now: int): int {
    if events == [] then now else events[|events| - 1].clock.third
  }

  /** The client itself lets go of `a`: it releases or declines, or is granted another address. */
  predicate GivesUp(cfg: Config, t: Table, e: Event, c: ClientID, a: Address) {
    && Sender(e) == Some(c)
    && (MessageType(Parse(e.data).packet) in {Some(RELEASE), Some(DECLINE)} || Granted(cfg, t, e) !in {Some(a), None})
  }

  ghost predicate DeadlinesWithin(t: Table, now: int) {
    forall c :: c in t.expiry ==> t.expiry[c] <= now + LEASE_DURATION
  }

  predicate Holds(t: Table, c: ClientID, a: Address, deadline: int) {
    c in t.leases && t.leases[c] == a && c in t.expiry && t.expiry[c] >= deadline
  }

  // ----- single operations

  lemma ExpireHolds(t: Table, now: int, c: ClientID, a: Address, deadline: int)
    requires Holds(t, c, a, deadline) && now < deadline
    ensures Holds(Expire(t, now), c, a, deadline)
  {
  }

  lemma ExpireWithin(t: Table, now: int, later: int)
    requires DeadlinesWithin(t, now)
    ensures DeadlinesWithin(Expire(t, later), now)
  {
  }

  lemma LeaseToHolds(t: Table, c: ClientID, a: Address, deadline: int, d: ClientID, b: Address, until: int)
    requires d != c && Holds(t, c, a, deadline)
    ensures Holds(LeaseTo(t, d, b, until), c, a, deadline)
  {
  }

  lemma WithinMore(t: Table, now: int, c: ClientID, a: Address, deadline: int, later: int)
    requires DeadlinesWithin(t, now) && now <= later && deadline <= later + LEASE_DURATION
    ensures DeadlinesWithin(LeaseTo(t, c, a, deadline), later) && DeadlinesWithin(Renew(t, c, deadline), later)
    ensures DeadlinesWithin(Release(t, c), later) && DeadlinesWithin(t, later)
  {
  }

  lemma AllocateWithin(cfg: Config, t: Table, d: ClientID, now: int, stamp: int, before: int)
    requires DeadlinesWithin(t, before) && before <= now <= stamp
    ensures DeadlinesWithin(Allocate(cfg, t, d, now, stamp).0, stamp)
  {
    hide DeadlinesWithin, Expire, LeaseTo, Renew, FirstOffer;
    var live := Expire(t, now);
    ExpireWithin(t, before, now);
    WithinMore(live, before, d, [0, 0, 0, 0], stamp + LEASE_DURATION, stamp);
    if FirstOffer(cfg, live).Some? {
      WithinMore(live, before, d, FirstOffer(cfg, live).value, stamp + LEASE_DURATION, stamp);
    }
  }

  lemma ClaimWithin(cfg: Config, t: Table, d: ClientID, requested: Option<Address>, clock: Clock, before: int)
    requires DeadlinesWithin(t, before) && before <= clock.first && clock.Ordered()
    ensures DeadlinesWithin(Claim(cfg, t, d, requested, clock).0, clock.third)
  {
    hide DeadlinesWithin, Expire, LeaseTo, Renew, Allocate, Allowed;
    var live := Expire(t, clock.first);
    ExpireWithin(t, before, clock.first);
    WithinMore(live, before, d, [0, 0, 0, 0], clock.second + LEASE_DURATION, clock.third);
    if requested.Some? {
      WithinMore(live, before, d, requested.value, clock.second + LEASE_DURATION, clock.third);
    } else {
      AllocateWithin(cfg, live, d, clock.second, clock.third, before);
    }
  }

  lemma AllocateHolds(cfg: Config, t: Table, d: ClientID, now: int, stamp: int, c: ClientID, a: Address, deadline: int)
    requires Valid(cfg, t) && Holds(t, c, a, deadline) && now < deadline <= stamp + LEASE_DURATION
    ensures Holds(Allocate(cfg, t, d, now, stamp).0, c, a, deadline)
    ensures Allocate(cfg, t, d, now, stamp).1 == Some(a) <==> d == c
  {
    hide Expire, LeaseTo, FirstOffer, Allowed;
    var live := Expire(t, now);
    ExpireHolds(t, now, c, a, deadline);
    ExpireValid(cfg, t, now);
    if d !in live.leases && FirstOffer(cfg, live).Some? {
      var b := FirstOffer(cfg, live).value;
      FoundIsFree(cfg, live, b);
      LeaseToHolds(live, c, a, deadline, d, b, stamp + LEASE_DURATION);
    }
  }

  lemma ClaimHolds(cfg: Config, t: Table, d: ClientID, requested: Option<Address>, clock: Clock, c: ClientID,
                   a: Address, deadline: int)
    requires Valid(cfg, t) && Holds(t, c, a, deadline) && clock.Ordered()
    requires clock.third < deadline <= clock.first + LEASE_DURATION
    requires d == c ==> Claim(cfg, t, d, requested, clock).1 in {Some(a), None}
    ensures Holds(Claim(cfg, t, d, requested, clock).0, c, a, deadline)
    ensures Claim(cfg, t, d, requested, clock).1 == Some(a) ==> d == c
  {
    hide Expire, LeaseTo, Allocate, Allowed;
    var live := Expire(t, clock.first);
    ExpireHolds(t, clock.first, c, a, deadline);
    ExpireValid(cfg, t, clock.first);
    if requested.Some? {
      if d != c {
        LeaseToHolds(live, c, a, deadline, d, requested.value, clock.second + LEASE_DURATION);
      }
    } else {
      AllocateHolds(cfg, live, d, clock.second, clock.third, c, a, deadline);
    }
  }

  // ----- one packet

  lemma AfterValid(cfg: Config, t: Table, e: Event)
    requires Valid(cfg, t)
    ensures Valid(cfg, After(cfg, t, e))
  {
    hide Valid, Allocate, Claim, Release, Parse;
    if Parse(e.data).Parsed? {
      var p := Parse(e.data).packet;
      AllocateValid(cfg, t, p.clientHWAddr, e.clock.first, e.clock.second);
      ClaimValid(cfg, t, p.clientHWAddr, RequestedIP(p), e.clock);
      ReleaseValid(cfg, t, p.clientHWAddr);
    }
  }

  lemma AfterWithin(cfg: Config, t: Table, e: Event, now: int)
    requires DeadlinesWithin(t, now) && now <= e.clock.first && e.clock.Ordered()
    ensures DeadlinesWithin(After(cfg, t, e), e.clock.third)
  {
    hide DeadlinesWithin, Allocate, Claim, Release, Parse;
    WithinMore(t, now, [], [0, 0, 0, 0], now, e.clock.third);
    if Parse(e.data).Parsed? {
      var p := Parse(e.data).packet;
      var c := p.clientHWAddr;
      AllocateWithin(cfg, t, c, e.clock.first, e.clock.second, now);
      WithinMore(Allocate(cfg, t, c, e.clock.first, e.clock.second).0, e.clock.second, [], [0, 0, 0, 0], now,
                 e.clock.third);
      ClaimWithin(cfg, t, c, RequestedIP(p), e.clock, now);
      WithinMore(t, now, c, [0, 0, 0, 0], now, e.clock.third);
    }
  }

  lemma ReleaseHolds(t: Table, d: ClientID, c: ClientID, a: Address, deadline: int)
    requires d != c && Holds(t, c, a, deadline)
    ensures Holds(Release(t, d), c, a, deadline)
  {
  }

  /** What not giving up means for a packet of the holder. */
  lemma HolderKeeps(cfg: Config, t: Table, p: Packet, e: Event, c: ClientID, a: Address)
    requires Parse(e.data) == Parsed(p) && p.clientHWAddr == c && !GivesUp(cfg, t, e, c, a)
    ensures MessageType(p) != Some(RELEASE) && MessageType(p) != Some(DECLINE)
    ensures MessageType(p) == Some(REQUEST) ==> Claim(cfg, t, c, RequestedIP(p), e.clock).1 in {Some(a), None}
  {
    hide Parse, Allocate, Claim, Release;
  }

  lemma DecideHolds(cfg: Config, t: Table, p: Packet, clock: Clock, c: ClientID, a: Address, deadline: int)
    requires Valid(cfg, t) && clock.Ordered() && Holds(t, c, a, deadline)
    requires clock.third < deadline <= clock.first + LEASE_DURATION
    requires p.clientHWAddr == c ==> MessageType(p) != Some(RELEASE) && MessageType(p) != Some(DECLINE)
    requires p.clientHWAddr == c && MessageType(p) == Some(REQUEST) ==>
               Claim(cfg, t, c, RequestedIP(p), clock).1 in {Some(a), None}
    ensures Holds(Decide(cfg, t, p, clock).0, c, a, deadline)
  {
    hide Valid, Allocate, Claim, Release, Holds;
    var d := p.clientHWAddr;
    if MessageType(p) == Some(DISCOVER) {
      AllocateHolds(cfg, t, d, clock.first, clock.second, c, a, deadline);
    } else if MessageType(p) == Some(REQUEST) {
      ClaimHolds(cfg, t, d, RequestedIP(p), clock, c, a, deadline);
    } else if d != c {
      ReleaseHolds(t, d, c, a, deadline);
    }
  }

  /** Before its deadline a lease survives any packet by which its holder does not give it up. */
  lemma AfterHolds(cfg: Config, t: Table, e: Event, now: int, c: ClientID, a: Address, deadline: int)
    requires Valid(cfg, t) && DeadlinesWithin(t, now) && now <= e.clock.first && e.clock.Ordered()
    requires Holds(t, c, a, deadline) && e.clock.third < deadline
    requires !GivesUp(cfg, t, e, c, a)
    ensures Holds(After(cfg, t, e), c, a, deadline)
  {
    hide Valid, Parse, Decide, GivesUp;
    assert deadline <= now + LEASE_DURATION;
    hide Holds, DeadlinesWithin;
    if Parse(e.data).Parsed? {
      var p := Parse(e.data).packet;
      if p.clientHWAddr == c {
        HolderKeeps(cfg, t, p, e, c, a);
      }
      DecideHolds(cfg, t, p, e.clock, c, a, deadline);
    }
  }

  /** Before its deadline an address is granted to nobody but its holder. */
  lemma GrantOnlyToHolder(cfg: Config, t: Table, e: Event, now: int, c: ClientID, a: Address, deadline: int)
    requires Valid(cfg, t) && DeadlinesWithin(t, now) && now <= e.clock.first && e.clock.Ordered()
    requires Holds(t, c, a, deadline) && e.clock.third < deadline
    requires Granted(cfg, t, e) == Some(a)
    ensures Sender(e) == Some(c)
  {
    hide Valid, Parse, Allocate, Claim, Release;
    assert deadline <= now + LEASE_DURATION;
    hide Holds, DeadlinesWithin;
    var p := Parse(e.data).packet;
    var d := p.clientHWAddr;
    if MessageType(p) == Some(DISCOVER) {
      AllocateHolds(cfg, t, d, e.clock.first, e.clock.second, c, a, deadline);
    } else if d != c {
      ClaimHolds(cfg, t, d, RequestedIP(p), e.clock, c, a, deadline);
    }
  }

  lemma AllocateRecords(cfg: Config, t: Table, c: ClientID, now: int, stamp: int)
    requires Valid(cfg, t) && Allocate(cfg, t, c, now, stamp).1.Some?
    ensures var (after, ip) := Allocate(cfg, t, c, now, stamp);
            Allowed(cfg, ip.value) && Holds(after, c, ip.value, stamp + LEASE_DURATION)
  {
    hide Allowed, Expire, FirstOffer;
    ExpireValid(cfg, t, now);
    var live := Expire(t, now);
    if c !in live.leases {
      FoundIsFree(cfg, live, FirstOffer(cfg, live).value);
    }
  }

  lemma ClaimRecords(cfg: Config, t: Table, c: ClientID, requested: Option<Address>, clock: Clock)
    requires Valid(cfg, t) && clock.Ordered() && Claim(cfg, t, c, requested, clock).1.Some?
    ensures var (after, ip) := Claim(cfg, t, c, requested, clock);
            Allowed(cfg, ip.value) && Holds(after, c, ip.value, clock.first + 1)
  {
    hide Allowed, Allocate;
    ExpireValid(cfg, t, clock.first);
    var live := Expire(t, clock.first);
    if requested.None? && c !in live.leases {
      AllocateRecords(cfg, live, c, clock.second, clock.third);
    }
  }

  /** Whatever is granted is allowed, and recorded for the sender with a deadline still to come. */
  lemma GrantIsRecorded(cfg: Config, t: Table, e: Event)
    requires Valid(cfg, t) && e.clock.Ordered() && Granted(cfg, t, e).Some?
    ensures Sender(e).Some?
    ensures Allowed(cfg, Granted(cfg, t, e).value)
    ensures Holds(After(cfg, t, e), Sender(e).value, Granted(cfg, t, e).value, e.clock.first + 1)
  {
    hide Valid, Allocate, Claim, Parse, Allowed;
    var p := Parse(e.data).packet;
    var c := p.clientHWAddr;
    if MessageType(p) == Some(DISCOVER) {
      AllocateRecords(cfg, t, c, e.clock.first, e.clock.second);
    } else {
      ClaimRecords(cfg, t, c, RequestedIP(p), e.clock);
    }
  }

  // ----- runs

  lemma {:induction false} RunValid(cfg: Config, t: Table, events: seq<Event>, now: int)
    requires Valid(cfg, t) && DeadlinesWithin(t, now) && Timely(events, now)
    ensures Valid(cfg, Run(cfg, t, events)) && DeadlinesWithin(Run(cfg, t, events), EndTime(events, now))
    decreases |events|
  {
    hide Valid, DeadlinesWithin, After;
    if events != [] {
      var n := |events| - 1;
      TimelyPrefix(events, now, n);
      RunValid(cfg, t, events[..n], now);
      AfterValid(cfg, Run(cfg, t, events[..n]), events[n]);
      AfterWithin(cfg, Run(cfg, t, events[..n]), events[n], EndTime(events[..n], now));
    }
  }

  lemma TimelyPrefix(events: seq<Event>, now: int, n: nat)
    requires n <= |events| && Timely(events, now)
    ensures Timely(events[..n], now)
    ensures n < |events| ==> EndTime(events[..n], now) <= events[n].clock.first && events[n].clock.Ordered()
  {
    forall i | 0 <= i < n
      ensures TimelyAt(events[..n], now, i)
    {
      assert TimelyAt(events, now, i);
    }
    assert n < |events| ==> TimelyAt(events, now, n);
  }

  lemma NoLeasesValid(cfg: Config, now: int)
    ensures Valid(cfg, NO_LEASES) && DeadlinesWithin(NO_LEASES, now)
  {
  }

  /** The tables are consistent after every run from the start. */
  lemma EveryRunConsistent(cfg: Config, events: seq<Event>, now: int)
    requires Timely(events, now)
    ensures Valid(cfg, Run(cfg, NO_LEASES, events))
  {
    hide Valid, DeadlinesWithin;
    NoLeasesValid(cfg, now);
    RunValid(cfg, NO_LEASES, events, now);
  }

  /** The state before event `j` of a run from the start. */
  function Before(cfg: Config, events: seq<Event>, j: nat): Table
    requires j <= |events|
  {
    Run(cfg, NO_LEASES, events[..j])
  }

  lemma BeforeNext(cfg: Config, events: seq<Event>, j: nat)
    requires j < |events|
    ensures Before(cfg, events, j + 1) == After(cfg, Before(cfg, events, j), events[j])
  {
    assert events[..j + 1][..j] == events[..j];
  }

  lemma BeforeOk(cfg: Config, events: seq<Event>, now: int, j: nat)
    requires j < |events| && Timely(events, now)
    ensures Valid(cfg, Before(cfg, events, j))
    ensures exists previous :: previous <= events[j].clock.first && DeadlinesWithin(Before(cfg, events, j), previous)
    ensures events[j].clock.Ordered()
  {
    hide Valid, DeadlinesWithin, Run;
    TimelyPrefix(events, now, j);
    NoLeasesValid(cfg, now);
    RunValid(cfg, NO_LEASES, events[..j], now);
    assert EndTime(events[..j], now) <= events[j].clock.first;
  }

  lemma {:induction false} HeldUntil(cfg: Config, events: seq<Event>, now: int, k: nat, j: nat, c: ClientID,
                                     a: Address, deadline: int)
    requires k <= j <= |events| && Timely(events, now)
    requires Holds(Before(cfg, events, k), c, a, deadline)
    requires forall m :: k <= m < j ==> events[m].clock.third < deadline
    requires forall m :: k <= m < j ==> !GivesUp(cfg, Before(cfg, events, m), events[m], c, a)
    ensures Holds(Before(cfg, events, j), c, a, deadline)
    decreases j
  {
    hide Valid, DeadlinesWithin, Before, GivesUp, Holds, After, Timely;
    if k < j {
      HeldUntil(cfg, events, now, k, j - 1, c, a, deadline);
      BeforeNext(cfg, events, j - 1);
      BeforeOk(cfg, events, now, j - 1);
      var previous :| previous <= events[j - 1].clock.first && DeadlinesWithin(Before(cfg, events, j - 1), previous);
      AfterHolds(cfg, Before(cfg, events, j - 1), events[j - 1], previous, c, a, deadline);
    }
  }

  /**
   Lease exclusivity: an address offered or acknowledged at event `k` goes to no other client at a later
   event `j` before the deadline recorded at `k`, unless its holder gives it up in between.
   */
  lemma LeaseExclusive(cfg: Config, events: seq<Event>, now: int, k: nat, j: nat, a: Address)
    requires k < j < |events| && Timely(events, now)
    requires Granted(cfg, Before(cfg, events, k), events[k]) == Some(a)
    requires Granted(cfg, Before(cfg, events, j), events[j]) == Some(a)
    requires Sender(events[k]).Some? && Sender(events[k]).value in Before(cfg, events, k + 1).expiry
    requires var deadline := Before(cfg, events, k + 1).expiry[Sender(events[k]).value];
             forall m :: k < m <= j ==> events[m].clock.third < deadline
    requires forall m :: k < m < j ==> !GivesUp(cfg, Before(cfg, events, m), events[m], Sender(events[k]).value, a)
    ensures Sender(events[j]) == Sender(events[k])
  {
    hide Valid, DeadlinesWithin, Before, GivesUp, After, Timely, Granted, Sender, Allowed;
    var c := Sender(events[k]).value;
    var deadline := Before(cfg, events, k + 1).expiry[c];
    BeforeOk(cfg, events, now, k);
    GrantIsRecorded(cfg, Before(cfg, events, k), events[k]);
    BeforeNext(cfg, events, k);
    HeldUntil(cfg, events, now, k + 1, j, c, a, deadline);
    BeforeOk(cfg, events, now, j);
    var previous :| previous <= events[j].clock.first && DeadlinesWithin(Before(cfg, events, j), previous);
    GrantOnlyToHolder(cfg, Before(cfg, events, j), events[j], previous, c, a, deadline);
  }

  /** A grant always records a deadline for its receiver, later than the packet that earned it arrived. */
  lemma GrantHasDeadline(cfg: Config, events: seq<Event>, now: int, k: nat)
    requires k < |events| && Timely(events, now) && Granted(cfg, Before(cfg, events, k), events[k]).Some?
    ensures Sender(events[k]).Some? && Sender(events[k]).value in Before(cfg, events, k + 1).expiry
    ensures Before(cfg, events, k + 1).expiry[Sender(events[k]).value] > events[k].clock.first
  {
    hide Valid, DeadlinesWithin, Before, After, Timely, Granted, Sender, Allowed;
    BeforeOk(cfg, events, now, k);
    GrantIsRecorded(cfg, Before(cfg, events, k), events[k]);
    BeforeNext(cfg, events, k);
  }

  /** What goes out on the wire for a grant says so: the type, the address and the asker's identity. */
  lemma GrantOnTheWire(cfg: Config, t: Table, e: Event)
    requires Granted(cfg, t, e).Some?
    ensures Parse(e.data).Parsed?
    ensures var p := Parse(e.data).packet;
            var reply := Answer(cfg, p, DecisionOn(cfg, t, e));
            && |reply| == 300 && reply[16..20] == Granted(cfg, t, e).value
            && Parse(reply).Parsed? && Parse(reply).packet.clientHWAddr == p.clientHWAddr
            && Parse(reply).packet.xid == p.xid
            && MessageType(Parse(reply).packet) == Some(if DecisionOn(cfg, t, e).Offered? then OFFER else ACK)
  {
    hide Parse, ReplyBytes, Allocate, Claim, Release, ReplyOptions;
    var p, d := Parse(e.data).packet, DecisionOn(cfg, t, e);
    ParsedIsWellFormed(e.data);
    var msgType := if d.Offered? then OFFER else ACK;
    ReplyParses(cfg, p, msgType, Granted(cfg, t, e).value);
    ReplyType(cfg, p, msgType);
  }

  lemma ReplyType(cfg: Config, p: Packet, msgType: byte)
    ensures MessageType(p.(options := ReplyOptions(cfg, msgType))) == Some(msgType)
  {
    hide PutBe32;
  }
}
