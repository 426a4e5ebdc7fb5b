/**
 The lease tables of the DHCP server as a value, and what allocating, claiming, releasing and expiring
 do to them. Times are counted in seconds of a clock that never runs backwards.
 */
module Leases {
  import opened Bytes
  import opened IPv4
  import opened Options

  /** A client is identified by its hardware address. */
  type ClientID = seq<byte>

  const LEASE_DURATION: int := 8 * 60 * 60

  datatype Config = Config(subnet: Subnet, gateway: Address, serverIP: Address)

  datatype Table = Table(leases: map<ClientID, Address>, inUse: map<Address, ClientID>, expiry: map<ClientID, int>)

  /** The readings of the clock during one packet, in the order they are taken. */
  datatype Clock = Clock(first: int, second: int, third: int) {
    predicate Ordered() { first <= second <= third }
  }

  const NO_LEASES := Table(map[], map[], map[])

  /** May be handed out at all. */
  predicate Allowed(cfg: Config, a: Address) {
    Contains(cfg.subnet, a) && a != cfg.gateway && a != Broadcast(cfg.subnet)
  }

  /** May be handed out now by the allocator, which skips the network address and the one after it. */
  predicate Free(cfg: Config, t: Table, a: Address) {
    Val(a) >= Val(cfg.subnet.ip) + 2 && Allowed(cfg, a) && a !in t.inUse
  }

  /** The three tables describe one injective assignment of allowed addresses, each with a deadline. */
  ghost predicate Valid(cfg: Config, t: Table) {
    && t.leases.Keys == t.expiry.Keys
    && (forall c :: c in t.leases ==> t.leases[c] in t.inUse && t.inUse[t.leases[c]] == c)
    && (forall a :: a in t.inUse ==> t.inUse[a] in t.leases && t.leases[t.inUse[a]] == a)
    && (forall a :: a in t.inUse ==> Allowed(cfg, a))
  }

  // ----- effects

  predicate Lapsed(t: Table, c: ClientID, now: int) {
    c in t.expiry && t.expiry[c] <= now
  }

  function Expire(t: Table, now: int): Table {
    Table(map c | c in t.leases && !Lapsed(t, c, now) :: t.leases[c],
          map a | a in t.inUse && !Lapsed(t, t.inUse[a], now) :: t.inUse[a],
          map c | c in t.expiry && !Lapsed(t, c, now) :: t.expiry[c])
  }

  function Release(t: Table, c: ClientID): Table {
    Table(t.leases - {c}, if c in t.leases then t.inUse - {t.leases[c]} else t.inUse, t.expiry - {c})
  }

  /** The address given to the client, in place of any it had. */
  function LeaseTo(t: Table, c: ClientID, a: Address, deadline: int): Table {
    var r := Release(t, c);
    Table(r.leases[c := a], r.inUse[a := c], r.expiry[c := deadline])
  }

  function Renew(t: Table, c: ClientID, deadline: int): Table {
    t.(expiry := t.expiry[c := deadline])
  }

  /** The first free address at or after the number `v`. */
  function FirstFree(cfg: Config, t: Table, v: nat): Option<Address>
    decreases SPACE - v
  {
    if v >= SPACE then None
    else if Free(cfg, t, FromVal(v)) then Some(FromVal(v))
    else FirstFree(cfg, t, v + 1)
  }

  /** The subnet of prefix 0, which every address is in. */
  predicate Whole(s: Subnet) {
    s.mask == [0, 0, 0, 0]
  }

  /** The two addresses the scan of such a subnet reaches last, by wrapping around. */
  predicate FreeLow(cfg: Config, t: Table, a: Address) {
    Val(a) < 2 && Allowed(cfg, a) && a !in t.inUse
  }

  function FirstLow(cfg: Config, t: Table): Option<Address> {
    if FreeLow(cfg, t, FromVal(0)) then Some(FromVal(0))
    else if FreeLow(cfg, t, FromVal(1)) then Some(FromVal(1))
    else None
  }

  /** What a client without a lease is offered. */
  function FirstOffer(cfg: Config, t: Table): Option<Address> {
    match FirstFree(cfg, t, Val(cfg.subnet.ip) + 2)
    case Some(a) => Some(a)
    case None => if Whole(cfg.subnet) then FirstLow(cfg, t) else None
  }

  /** `allocate`: the client's own lease, renewed, or else the first offer. */
  function Allocate(cfg: Config, t: Table, c: ClientID, now: int, stamp: int): (Table, Option<Address>) {
    var live := Expire(t, now);
    if c in live.leases then (Renew(live, c, stamp + LEASE_DURATION), Some(live.leases[c]))
    else
      match FirstOffer(cfg, live)
      case None => (live, None)
      case Some(a) => (LeaseTo(live, c, a, stamp + LEASE_DURATION), Some(a))
  }

  /** `claim`: what a REQUEST naming `requested`, or naming nothing, gets. */
  function Claim(cfg: Config, t: Table, c: ClientID, requested: Option<Address>, clock: Clock)
    : (Table, Option<Address>)
  {
    var live := Expire(t, clock.first);
    match requested
    case None =>
      if c in live.leases then (live, Some(live.leases[c]))
      else Allocate(cfg, live, c, clock.second, clock.third)
    case Some(a) =>
      if c in live.leases && live.leases[c] == a then (Renew(live, c, clock.second + LEASE_DURATION), Some(a))
      else if !Allowed(cfg, a) || (a in live.inUse && live.inUse[a] != c) then (live, None)
      else (LeaseTo(live, c, a, clock.second + LEASE_DURATION), Some(a))
  }

  // ----- what the allocator finds

  /** The scan finds a free address, and the least one from `v` on. */
  lemma {:induction false} FirstFreeIsLeast(cfg: Config, t: Table, v: nat)
    ensures match FirstFree(cfg, t, v)
            case None => forall a :: Val(a) >= v ==> !Free(cfg, t, a)
            case Some(a) =>
              Free(cfg, t, a) && Val(a) >= v && forall b :: Free(cfg, t, b) && Val(b) >= v ==> Val(a) <= Val(b)
    decreases SPACE - v
  {
    hide Free;
    if v < SPACE && !Free(cfg, t, FromVal(v)) {
      FirstFreeIsLeast(cfg, t, v + 1);
      forall b | Val(b) == v
        ensures !Free(cfg, t, b)
      {
        ValInjective(b, FromVal(v));
      }
    }
  }

  /** Every free address is in the range scanned. */
  lemma ScanCoversFree(cfg: Config, t: Table)
    ensures match FirstFree(cfg, t, Val(cfg.subnet.ip) + 2)
            case None => forall a :: !Free(cfg, t, a)
            case Some(a) => Free(cfg, t, a) && forall b :: Free(cfg, t, b) ==> Val(a) <= Val(b)
  {
    hide FirstFree, Allowed;
    FirstFreeIsLeast(cfg, t, Val(cfg.subnet.ip) + 2);
  }

  lemma LowIsLeast(cfg: Config, t: Table)
    ensures match FirstLow(cfg, t)
            case None => forall a :: !FreeLow(cfg, t, a)
            case Some(a) => FreeLow(cfg, t, a) && forall b :: FreeLow(cfg, t, b) ==> Val(a) <= Val(b)
  {
    hide Allowed;
    forall a | Val(a) < 2
      ensures a == FromVal(0) || a == FromVal(1)
    {
      ValInjective(a, FromVal(Val(a)));
    }
  }

  lemma FoundIsFree(cfg: Config, t: Table, a: Address)
    requires FirstOffer(cfg, t) == Some(a)
    ensures Allowed(cfg, a) && a !in t.inUse
  {
    hide FirstFree, Allowed, FirstLow;
    ScanCoversFree(cfg, t);
    LowIsLeast(cfg, t);
  }

  /**
   What a client without a lease is offered: the least free address, or nothing when there is none. In the subnet
   of prefix 0 the addresses 0 and 1 come last.
   */
  lemma AllocateIsLeast(cfg: Config, t: Table, c: ClientID, now: int, stamp: int)
    requires c !in Expire(t, now).leases
    ensures var live := Expire(t, now);
            match Allocate(cfg, t, c, now, stamp).1
            case None => (forall a :: !Free(cfg, live, a)) && (Whole(cfg.subnet) ==> forall a :: !FreeLow(cfg, live, a))
            case Some(a) =>
              || (Free(cfg, live, a) && forall b :: Free(cfg, live, b) ==> Val(a) <= Val(b))
              || (&& Whole(cfg.subnet) && (forall b :: !Free(cfg, live, b))
                  && FreeLow(cfg, live, a) && forall b :: FreeLow(cfg, live, b) ==> Val(a) <= Val(b))
  {
    hide FirstFree, FirstLow, Free, FreeLow, Expire, LeaseTo;
    ScanCoversFree(cfg, Expire(t, now));
    LowIsLeast(cfg, Expire(t, now));
  }

  /** A REQUEST that names an address is granted exactly when it is the client's, or allowed and nobody else's. */
  lemma ClaimGrants(cfg: Config, t: Table, c: ClientID, a: Address, clock: Clock)
    requires Valid(cfg, t)
    ensures var live := Expire(t, clock.first);
            Claim(cfg, t, c, Some(a), clock).1 == Some(a) <==>
            Allowed(cfg, a) && (a in live.inUse ==> live.inUse[a] == c)
    ensures Claim(cfg, t, c, Some(a), clock).1 in {Some(a), None}
  {
    hide Allowed;
    ExpireValid(cfg, t, clock.first);
    hide Expire;
  }

  /** So the network address, which the allocator never offers, can be had by asking for it. */
  lemma NetworkAddressIsGranted(cfg: Config, prefix: nat, t: Table, c: ClientID, clock: Clock)
    requires Valid(cfg, t) && WellFormed(cfg.subnet, prefix) && prefix <= 31
    requires cfg.subnet.ip != cfg.gateway && cfg.subnet.ip !in t.inUse
    ensures Claim(cfg, t, c, Some(cfg.subnet.ip), clock).1 == Some(cfg.subnet.ip)
    ensures !Free(cfg, Expire(t, clock.first), cfg.subnet.ip)
  {
    ContainsIsRange(cfg.subnet, prefix, cfg.subnet.ip);
    ClaimGrants(cfg, t, c, cfg.subnet.ip, clock);
    hide Contains, Broadcast, WellFormed, Claim;
  }

  // ----- every operation keeps the tables consistent

  lemma ExpireValid(cfg: Config, t: Table, now: int)
    requires Valid(cfg, t)
    ensures Valid(cfg, Expire(t, now))
  {
    hide Allowed;
  }

  lemma ReleaseValid(cfg: Config, t: Table, c: ClientID)
    requires Valid(cfg, t)
    ensures Valid(cfg, Release(t, c))
  {
    hide Allowed;
  }

  lemma LeaseToValid(cfg: Config, t: Table, c: ClientID, a: Address, deadline: int)
    requires Valid(cfg, t) && Allowed(cfg, a) && (a in t.inUse ==> t.inUse[a] == c)
    ensures Valid(cfg, LeaseTo(t, c, a, deadline))
  {
    hide Allowed;
    ReleaseValid(cfg, t, c);
    ReleaseFrees(cfg, t, c, a);
    AddLeaseValid(cfg, Release(t, c), c, a, deadline);
  }

  lemma ReleaseFrees(cfg: Config, t: Table, c: ClientID, a: Address)
    requires Valid(cfg, t) && (a in t.inUse ==> t.inUse[a] == c)
    ensures a !in Release(t, c).inUse && c !in Release(t, c).leases
  {
    hide Allowed;
  }

  lemma AddLeaseValid(cfg: Config, t: Table, c: ClientID, a: Address, deadline: int)
    requires Valid(cfg, t) && Allowed(cfg, a) && a !in t.inUse && c !in t.leases
    ensures Valid(cfg, Table(t.leases[c := a], t.inUse[a := c], t.expiry[c := deadline]))
  {
    hide Allowed;
  }

  lemma RenewValid(cfg: Config, t: Table, c: ClientID, deadline: int)
    requires Valid(cfg, t) && c in t.leases
    ensures Valid(cfg, Renew(t, c, deadline))
  {
    hide Allowed;
  }

  lemma AllocateValid(cfg: Config, t: Table, c: ClientID, now: int, stamp: int)
    requires Valid(cfg, t)
    ensures Valid(cfg, Allocate(cfg, t, c, now, stamp).0)
  {
    hide Valid, Expire, LeaseTo, Renew, Allowed, FirstOffer;
    var live, deadline := Expire(t, now), stamp + LEASE_DURATION;
    ExpireValid(cfg, t, now);
    if c in live.leases {
      RenewValid(cfg, live, c, deadline);
    } else if FirstOffer(cfg, live).Some? {
      var a := FirstOffer(cfg, live).value;
      FoundIsFree(cfg, live, a);
      LeaseToValid(cfg, live, c, a, deadline);
    }
  }

  lemma ClaimValid(cfg: Config, t: Table, c: ClientID, requested: Option<Address>, clock: Clock)
    requires Valid(cfg, t)
    ensures Valid(cfg, Claim(cfg, t, c, requested, clock).0)
  {
    hide Valid, Expire, LeaseTo, Renew, Allowed, Allocate;
    var live, deadline := Expire(t, clock.first), clock.second + LEASE_DURATION;
    ExpireValid(cfg, t, clock.first);
    match requested
    case None => AllocateValid(cfg, live, c, clock.second, clock.third);
    case Some(a) =>
      if c in live.leases && live.leases[c] == a {
        RenewValid(cfg, live, c, deadline);
      } else if Allowed(cfg, a) && (a in live.inUse ==> live.inUse[a] == c) {
        LeaseToValid(cfg, live, c, a, deadline);
      }
  }

  /** Two clients never hold the same address. */
  lemma LeasesInjective(cfg: Config, t: Table, c: ClientID, d: ClientID)
    requires Valid(cfg, t) && c in t.leases && d in t.leases && t.leases[c] == t.leases[d]
    ensures c == d
  {
    hide Allowed;
  }

  /** Once every deadline has passed a sweep empties the tables. */
  lemma SweepEmpties(cfg: Config, t: Table, now: int)
    requires Valid(cfg, t) && forall c :: c in t.expiry ==> t.expiry[c] <= now
    ensures Expire(t, now) == NO_LEASES
  {
    hide Allowed;
    var e := Expire(t, now);
    assert e.leases.Keys == {} && e.expiry.Keys == {};
    assert e.inUse.Keys == {};
  }
}
