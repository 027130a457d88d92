/**
  The in-memory TCP network of js/bindgen/src/browser_http.rs: who owns an
  address, which listener a connection reaches, and what a close leaves behind.
  Every method is one critical section of the source.
*/
module BrowserNetwork {
  import opened Bytes

  // ----- addresses -----

  datatype Ip = V4(bits: nat) | V6(bits: nat)
  datatype Address = Address(ip: Ip, port: nat)

  const V4_LOCALHOST := V4(0x7F00_0001)
  const V6_LOCALHOST := V6(1)

  predicate IsUnspecified(ip: Ip) {
    ip.bits == 0
  }

  predicate IsLoopback(ip: Ip) {
    if ip.V4? then ip.bits / 0x100_0000 == 127 else ip.bits == 1
  }

  /** `normalize_listener_address`: a wildcard listens on localhost. */
  function Normalize(a: Address): Address {
    if !IsUnspecified(a.ip) then a
    else Address(if a.ip.V4? then V4_LOCALHOST else V6_LOCALHOST, a.port)
  }

  /** `listener_addresses`: an IPv6 wildcard takes the IPv4 address too, unless told not to (RFC 3493 section 5.3). */
  function ListenerAddresses(a: Address, onlyV6: bool): seq<Address> {
    [Normalize(a)] + if a.ip.V6? && IsUnspecified(a.ip) && !onlyV6 then [Address(V4_LOCALHOST, a.port)] else []
  }

  function SetOf(addresses: seq<Address>): set<Address> {
    set a | a in addresses
  }

  /** The address a.b.c.d. */
  function Dotted(a: nat, b: nat, c: nat, d: nat): Ip {
    V4(((a * 256 + b) * 256 + c) * 256 + d)
  }

  /**
    Whether a listener asked for at an address is there for a connection to
    another. A wildcard is, at the loopback address of its family; one of IPv6
    that is not IPv6 only, at that of IPv4 too. Any other is at its own address.
  */
  predicate Reaches(listen: Address, onlyV6: bool, target: Address) {
    && target.port == listen.port
    && (if listen.ip == V4(0) then target.ip == Dotted(127, 0, 0, 1)
        else if listen.ip == V6(0) then target.ip == V6(1) || (!onlyV6 && target.ip == Dotted(127, 0, 0, 1))
        else target.ip == listen.ip)
  }

  lemma ListenersReach(listen: Address, onlyV6: bool, target: Address)
    ensures target in ListenerAddresses(listen, onlyV6) <==> Reaches(listen, onlyV6, target)
  {
    assert V4_LOCALHOST == Dotted(127, 0, 0, 1);
  }

  /** The address a connection comes from: a port of its own if none was asked for, and a loopback address for a wildcard. */
  predicate GoesFrom(local: Address, peer: Address, nextPort: nat, used: Address) {
    && used.port == (if local.port == 0 then nextPort else local.port)
    && used.ip == if local.ip.bits != 0 then local.ip else if peer.ip.V4? then Dotted(127, 0, 0, 1) else V6(1)
  }

  /** The loopback addresses are 127.0.0.0/8 and ::1. */
  lemma LoopbacksAre(b: nat, c: nat, d: nat, first: nat)
    requires first < 256 && b < 256 && c < 256 && d < 256
    ensures IsLoopback(Dotted(first, b, c, d)) <==> first == 127
    ensures forall bits: nat :: IsLoopback(V6(bits)) <==> bits == 1
  {
  }

  datatype NetworkError = NotConnected | AddressInUse | InvalidFd | ConnectionRefused | ConnectionAborted | WouldBlock | Unsupported
  datatype Result<+T> = Ok(value: T) | Err(error: NetworkError)

  // ----- listeners -----

  datatype Interest = Readable | Closed
  datatype Connection = Connection(local: Address, peer: Address, id: nat)

  /** `ListenerState`, with the number of handles that keep it alive and the tasks it has woken. */
  class ListenerState {
    const addresses: seq<Address>
    var handles: nat
    var closed: bool
    var backlog: seq<Connection>
    var hasHandler: bool
    var interests: set<Interest>
    var wakers: seq<nat>
    ghost var woken: set<nat>

    constructor (addresses: seq<Address>)
      ensures this.addresses == addresses
      ensures Valid() && Alive() && !closed && backlog == [] && wakers == []
    {
      this.addresses := addresses;
      handles, closed, backlog, hasHandler, interests, wakers, woken := 1, false, [], false, {}, [], {};
    }

    predicate Alive()
      reads this`handles
    {
      handles > 0
    }

    /** A waiting accept means an open listener with nothing to accept, and a closed listener holds nothing. */
    ghost predicate Valid()
      reads this`closed, this`backlog, this`wakers
    {
      && (wakers != [] ==> !closed && backlog == [])
      && (closed ==> backlog == [])
    }

    method Push(c: Connection) returns (r: Result<()>)
      requires Valid()
      modifies this`backlog, this`interests, this`wakers, this`woken
      ensures Valid()
      ensures old(closed) ==> r == Err(ConnectionRefused) && backlog == old(backlog) && woken == old(woken)
      ensures !old(closed) ==> r == Ok(()) && backlog == old(backlog) + [c] && wakers == []
      ensures !old(closed) ==> woken == old(woken) + set w | w in old(wakers)
      ensures !old(closed) && hasHandler ==> Readable in interests
    {
      if closed {
        return Err(ConnectionRefused);
      }
      backlog := backlog + [c];
      if hasHandler {
        interests := interests + {Readable};
      }
      woken := woken + set w | w in wakers;
      wakers := [];
      r := Ok(());
    }

    /** `None` is Pending: the task is then registered and will be woken by the next push or close. */
    method PollReadReady(task: nat) returns (r: Option<Result<nat>>)
      requires Valid()
      modifies this`wakers
      ensures Valid()
      ensures r.None? <==> !closed && backlog == []
      ensures r.None? ==> task in wakers && forall w :: w in wakers <==> w in old(wakers) || w == task
      ensures r.Some? ==> wakers == old(wakers) && r.value == if closed then Err(ConnectionAborted) else Ok(|backlog|)
    {
      if closed {
        return Some(Err(ConnectionAborted));
      }
      if backlog != [] {
        return Some(Ok(|backlog|));
      }
      if task !in wakers {
        wakers := wakers + [task];
      }
      r := None;
    }

    method TryAccept() returns (r: Result<Connection>)
      requires Valid()
      modifies this`backlog
      ensures Valid()
      ensures closed ==> r == Err(ConnectionAborted)
      ensures !closed && old(backlog) == [] ==> r == Err(WouldBlock)
      ensures r.Ok? <==> !closed && old(backlog) != []
      ensures old(backlog) == (if r.Ok? then [r.value] else []) + backlog
    {
      if closed {
        return Err(ConnectionAborted);
      }
      if backlog == [] {
        return Err(WouldBlock);
      }
      r := Ok(backlog[0]);
      backlog := backlog[1..];
    }

    method SetHandler()
      modifies this`hasHandler, this`interests
      ensures hasHandler
      ensures interests == (if closed then {Readable, Closed} else if backlog != [] then {Readable} else {})
    {
      interests := {};
      if closed || backlog != [] {
        interests := interests + {Readable};
      }
      if closed {
        interests := interests + {Closed};
      }
      hasHandler := true;
    }

    /** What closing the network does to one listener. */
    method Shut()
      requires Valid()
      modifies this`closed, this`backlog, this`interests, this`wakers, this`woken
      ensures Valid() && closed && backlog == [] && wakers == []
      ensures woken == old(woken) + set w | w in old(wakers)
      ensures hasHandler ==> {Readable, Closed} <= interests
    {
      closed := true;
      backlog := [];
      if hasHandler {
        interests := interests + {Readable, Closed};
      }
      woken := woken + set w | w in wakers;
      wakers := [];
    }

    /** Closed and empty, with every task that waited woken. */
    ghost predicate ShutSince(waiting: seq<nat>)
      reads this`closed, this`backlog, this`wakers, this`woken
    {
      closed && backlog == [] && wakers == [] && forall w | w in waiting :: w in woken
    }

    method DropHandle()
      modifies this`handles
      ensures handles == if old(handles) > 0 then old(handles) - 1 else 0
    {
      if handles > 0 {
        handles := handles - 1;
      }
    }
  }

  // ----- networks and reservations -----

  /** `BrowserHttpBoundSocket`: addresses held on a network until they are listened on or released. */
  class BoundSocket {
    const network: NetworkState
    const addresses: seq<Address>
    var reserved: bool

    constructor (network: NetworkState, addresses: seq<Address>)
      ensures this.network == network && this.addresses == addresses && reserved
    {
      this.network, this.addresses, reserved := network, addresses, true;
    }
  }

  class NetworkState {
    var listeners: map<Address, ListenerState>
    var bound: set<Address>
    var peers: Option<seq<NetworkState>>
    var closed: bool
    var hasEgress: bool
    var loopbackEgress: bool
    var nextPort: nat
    ghost var sockets: set<BoundSocket>
    ghost var given: set<ListenerState>

    constructor (hasEgress: bool)
      ensures Valid() && !closed && bound == {} && listeners == map[] && peers == None && sockets == {} && given == {}
    {
      listeners, bound, peers, closed, this.hasEgress, loopbackEgress, nextPort, sockets, given :=
        map[], {}, None, false, hasEgress, false, 49152, {}, {};
    }

    predicate Listens(a: Address)
      reads this`listeners, listeners.Values`handles
    {
      a in listeners && listeners[a].Alive()
    }

    predicate InUse(a: Address)
      reads this`bound, this`listeners, listeners.Values`handles
    {
      a in bound || Listens(a)
    }

    /** The bound addresses are shared out among the reservations, one holder each. */
    ghost predicate SharedOut()
      reads this`bound, this`sockets, sockets
    {
      && (forall a :: a in bound <==> exists b :: b in sockets && b.reserved && a in b.addresses)
      && (forall b, c, a | b in sockets && c in sockets && b.reserved && c.reserved
                           && a in b.addresses && a in c.addresses :: b == c)
    }

    /** No live listener has a bound address. */
    ghost predicate Disjoint()
      reads this`bound, this`listeners, listeners.Values`handles
    {
      forall a | a in bound :: !Listens(a)
    }

    /** Every live listener that was handed out is in the map at each of its addresses. */
    ghost predicate AllListed()
      reads this`listeners, this`given, given`handles
    {
      forall l, a | l in given && l.Alive() && a in l.addresses :: a in listeners && listeners[a] == l
    }

    /** No live listener is left open. */
    ghost predicate AllShut()
      reads this`given, given`handles, given`closed
    {
      forall l | l in given && l.Alive() :: l.closed
    }

    /**
      While open, every bound address has one holder, which is no live listener,
      and every live listener is where it listens. Once closed, nothing is left.
    */
    ghost predicate Valid()
      reads this, sockets, listeners.Values`handles, given`handles, given`closed
    {
      && 49152 <= nextPort <= 65535
      && (forall b | b in sockets :: b.network == this && b.addresses != [])
      && (forall l | l in given :: l.addresses != [])
      && (!closed ==> SharedOut() && Disjoint() && AllListed())
      && (closed ==> bound == {} && listeners == map[] && peers.Some? && AllShut())
    }

    /** The check that `listen_tcp` and `bind_tcp` share. */
    method AnyInUse(addresses: seq<Address>) returns (any: bool)
      ensures any <==> exists a :: a in addresses && InUse(a)
    {
      any := false;
      for i := 0 to |addresses|
        invariant !any
        invariant forall k | 0 <= k < i :: !InUse(addresses[k])
      {
        if InUse(addresses[i]) {
          return true;
        }
      }
    }

    method ListenTcp(address: Address, onlyV6: bool) returns (r: Result<ListenerState>)
      requires Valid()
      modifies this`listeners, this`given
      ensures Valid()
      ensures given == old(given) + if r.Ok? then {r.value} else {}
      ensures r == Err(NotConnected) <==> closed
      ensures r == Err(AddressInUse) <==>
        !closed && exists a :: a in ListenerAddresses(address, onlyV6) && old(InUse(a))
      ensures r.Ok? || r == Err(NotConnected) || r == Err(AddressInUse)
      ensures r.Err? ==> listeners == old(listeners)
      ensures r.Ok? ==> fresh(r.value) && r.value.Valid() && r.value.Alive() && !r.value.closed && r.value.backlog == []
      ensures r.Ok? ==> forall a :: a in listeners && listeners[a] == r.value <==> Reaches(address, onlyV6, a)
      ensures r.Ok? ==> listeners.Keys == old(listeners).Keys + SetOf(ListenerAddresses(address, onlyV6))
      ensures r.Ok? ==> forall a | a in listeners ::
        listeners[a] == if a in ListenerAddresses(address, onlyV6) then r.value else old(listeners)[a]
    {
      var addresses := ListenerAddresses(address, onlyV6);
      if closed {
        return Err(NotConnected);
      }
      var any := AnyInUse(addresses);
      if any {
        return Err(AddressInUse);
      }
      assert NoneLiveAt(addresses);
      var listener := HandOut(addresses);
      forall a: Address ensures a in addresses <==> Reaches(address, onlyV6, a) { ListenersReach(address, onlyV6, a); }
      r := Ok(listener);
    }

    /** Nobody listens at any of these addresses. */
    ghost predicate NoneLiveAt(addresses: seq<Address>)
      reads this`listeners, listeners.Values`handles
    {
      forall a | a in addresses :: !Listens(a)
    }

    /** A new listener, installed at its addresses. */
    method HandOut(addresses: seq<Address>) returns (listener: ListenerState)
      requires AllListed() && NoneLiveAt(addresses)
      modifies this`listeners, this`given
      ensures fresh(listener) && listener.addresses == addresses
      ensures listener.Valid() && listener.Alive() && !listener.closed && listener.backlog == []
      ensures AllListed() && given == old(given) + {listener}
      ensures listeners.Keys == old(listeners).Keys + SetOf(addresses)
      ensures forall a | a in listeners :: listeners[a] == if a in addresses then listener else old(listeners)[a]
    {
      listener := new ListenerState(addresses);
      Install(addresses, listener);
      given := given + {listener};
    }

    /** `listeners.insert` for every address. */
    method Install(addresses: seq<Address>, listener: ListenerState)
      modifies this`listeners
      ensures listeners.Keys == old(listeners).Keys + SetOf(addresses)
      ensures forall a | a in listeners :: listeners[a] == if a in addresses then listener else old(listeners)[a]
    {
      for i := 0 to |addresses|
        invariant listeners.Keys == old(listeners).Keys + SetOf(addresses[..i])
        invariant forall a | a in listeners :: listeners[a] == if a in addresses[..i] then listener else old(listeners)[a]
      {
        listeners := listeners[addresses[i] := listener];
        assert addresses[..i + 1] == addresses[..i] + [addresses[i]];
      }
      assert addresses[..|addresses|] == addresses;
    }

    method BindTcp(address: Address, onlyV6: bool) returns (r: Result<BoundSocket>)
      requires Valid()
      modifies this`bound, this`sockets
      ensures Valid()
      ensures r == Err(NotConnected) <==> closed
      ensures r == Err(AddressInUse) <==>
        !closed && exists a :: a in ListenerAddresses(address, onlyV6) && old(InUse(a))
      ensures r.Ok? || r == Err(NotConnected) || r == Err(AddressInUse)
      ensures r.Err? ==> bound == old(bound) && sockets == old(sockets)
      ensures r.Ok? ==> fresh(r.value) && r.value.reserved && r.value.addresses == ListenerAddresses(address, onlyV6)
      ensures r.Ok? ==> forall a :: a in r.value.addresses <==> Reaches(address, onlyV6, a)
      ensures r.Ok? ==> bound == old(bound) + SetOf(r.value.addresses) && sockets == old(sockets) + {r.value}
    {
      var addresses := ListenerAddresses(address, onlyV6);
      if closed {
        return Err(NotConnected);
      }
      var any := AnyInUse(addresses);
      if any {
        return Err(AddressInUse);
      }
      bound := bound + set a | a in addresses;
      var socket := new BoundSocket(this, addresses);
      sockets := sockets + {socket};
      forall a: Address ensures a in addresses <==> Reaches(address, onlyV6, a) { ListenersReach(address, onlyV6, a); }
      r := Ok(socket);
    }

    /** `release`, and so also dropping the bound socket. A stale release changes nothing. */
    method Release(b: BoundSocket)
      requires Valid() && b in sockets
      modifies this`bound, b`reserved
      ensures Valid() && !b.reserved
      ensures bound == if old(b.reserved) then old(bound) - SetOf(b.addresses) else old(bound)
    {
      if b.reserved {
        var i := 0;
        while i < |b.addresses|
          modifies this`bound
          invariant 0 <= i <= |b.addresses|
          invariant bound == old(bound) - SetOf(b.addresses[..i])
        {
          bound := bound - {b.addresses[i]};
          assert b.addresses[..i + 1] == b.addresses[..i] + [b.addresses[i]];
          i := i + 1;
        }
        assert b.addresses[..i] == b.addresses;
        b.reserved := false;
      }
    }

    /** What a reservation holds on an open network is bound; on a closed one nothing is. */
    lemma HeldIsBound(b: BoundSocket)
      requires Valid() && b in sockets && b.reserved
      ensures !closed ==> forall a | a in b.addresses :: a in bound
      ensures closed ==> exists a :: a in b.addresses && a !in bound
    {
      if closed {
        assert b.addresses[0] in b.addresses;
      }
    }

    method AllBound(addresses: seq<Address>) returns (all: bool)
      ensures all <==> forall a | a in addresses :: a in bound
    {
      all := true;
      for i := 0 to |addresses|
        invariant all
        invariant forall k | 0 <= k < i :: addresses[k] in bound
      {
        if addresses[i] !in bound {
          return false;
        }
      }
    }

    /** `listen` on a bound socket: its addresses pass from the reservation to the listener. */
    method ListenBound(b: BoundSocket) returns (r: Result<ListenerState>)
      requires Valid() && b in sockets
      modifies this`bound, this`listeners, this`given, b`reserved
      ensures Valid()
      ensures given == old(given) + if r.Ok? then {r.value} else {}
      ensures r.Ok? <==> old(b.reserved) && !closed
      ensures r.Err? ==> r == Err(InvalidFd) && bound == old(bound) && listeners == old(listeners) && b.reserved == old(b.reserved)
      ensures r.Ok? ==> !b.reserved && bound == old(bound) - SetOf(b.addresses)
      ensures r.Ok? ==> fresh(r.value) && r.value.Valid() && r.value.Alive() && !r.value.closed && r.value.backlog == []
      ensures r.Ok? ==> listeners.Keys == old(listeners).Keys + SetOf(b.addresses)
      ensures r.Ok? ==> forall a | a in listeners ::
        listeners[a] == if a in b.addresses then r.value else old(listeners)[a]
    {
      if !b.reserved {
        return Err(InvalidFd);
      }
      HeldIsBound(b);
      assert closed || NoneLiveAt(b.addresses);
      var held := AllBound(b.addresses);
      if !held {
        return Err(InvalidFd);
      }
      Release(b);
      assert SharedOut() && forall a | a in bound :: a !in b.addresses && !Listens(a);
      var listener := HandOut(b.addresses);
      assert SharedOut() && Disjoint();
      r := Ok(listener);
    }

    /** Dropping the last handle of a listener frees its addresses; any other drop frees none. */
    method DropListener(l: ListenerState)
      requires Valid()
      modifies l`handles
      ensures Valid()
      ensures l.handles == if old(l.handles) > 0 then old(l.handles) - 1 else 0
      ensures forall a :: Listens(a) <==> old(Listens(a)) && (listeners[a] == l ==> old(l.handles) > 1)
    {
      l.DropHandle();
    }

    method RestrictPeers() returns (r: Result<()>)
      requires Valid()
      modifies this`peers
      ensures Valid()
      ensures r == if closed then Err(NotConnected) else Ok(())
      ensures peers == Some([]) || (closed && peers == old(peers))
    {
      if closed {
        return Err(NotConnected);
      }
      peers := Some([]);
      r := Ok(());
    }

    method AddPeer(peer: NetworkState) returns (r: Result<()>)
      requires Valid()
      modifies this`peers
      ensures Valid()
      ensures r == if peer.closed then Err(NotConnected) else Ok(())
      ensures peers == if peer.closed then old(peers) else Some((if old(peers).Some? then old(peers).value else []) + [peer])
    {
      if peer.closed {
        return Err(NotConnected);
      }
      peers := Some((if peers.Some? then peers.value else []) + [peer]);
      r := Ok(());
    }

    method AllowLoopbackEgress() returns (r: Result<()>)
      requires Valid()
      modifies this`loopbackEgress
      ensures Valid()
      ensures r == if closed then Err(NotConnected) else if !hasEgress then Err(Unsupported) else Ok(())
      ensures loopbackEgress == (old(loopbackEgress) || r.Ok?)
    {
      if closed {
        return Err(NotConnected);
      }
      if !hasEgress {
        return Err(Unsupported);
      }
      loopbackEgress := true;
      r := Ok(());
    }

    /** Closing leaves nothing bound, listening or queued, and wakes every task waiting to accept. */
    method Close()
      requires Valid() && forall l | l in given + listeners.Values :: l.Valid()
      modifies this`closed, this`listeners, this`bound, this`peers
      modifies listeners.Values`closed, listeners.Values`backlog, listeners.Values`interests
      modifies listeners.Values`wakers, listeners.Values`woken
      ensures Valid() && closed && bound == {} && listeners == map[] && sockets == old(sockets)
      ensures forall a | old(Listens(a)) :: old(listeners)[a].ShutSince(old(listeners[a].wakers))
      ensures forall l | l in old(listeners.Values) :: l.Valid()
      ensures given == old(given) && forall l | l in given && l.Alive() :: l.closed && l.backlog == [] && l.wakers == []
    {
      ghost var live := set l | l in given && l.Alive();
      var open := set l | l in listeners.Values && l.Alive();
      forall l | !closed && l in live ensures l in open {
        assert l.addresses[0] in l.addresses && listeners[l.addresses[0]] == l;
      }
      assert closed ==> open == {} && forall l | l in live :: l.closed && l.Valid();
      closed, listeners, bound, peers := true, map[], {}, Some([]);
      ShutAll(open);
      assert forall l | l in live :: l.closed && l.Valid();
      assert forall a | old(Listens(a)) :: old(listeners)[a] in open;
    }

    method ShutAll(open: set<ListenerState>)
      requires forall l | l in open :: l.Valid()
      modifies open`closed, open`backlog, open`interests, open`wakers, open`woken
      ensures forall l | l in open :: l.Valid() && l.ShutSince(old(l.wakers))
    {
      var todo := open;
      while todo != {}
        invariant todo <= open
        invariant forall l | l in todo :: l.Valid() && l.wakers == old(l.wakers)
        invariant forall l | l in open - todo :: l.Valid() && l.ShutSince(old(l.wakers))
      {
        var l :| l in todo;
        l.Shut();
        todo := todo - {l};
      }
    }

    // ----- connecting -----

    /** A peer entry that could serve a connection to `a`; an implicit group passes over networks with peers of their own. */
    predicate Eligible(n: NetworkState, explicit: bool, a: Address)
      reads n`closed, n`peers, n`listeners, n.listeners.Values`handles
    {
      n != this && !n.closed && (explicit || n.peers.None?) && n.Listens(a)
    }

    ghost function EligibleAmong(entries: seq<NetworkState>, explicit: bool, a: Address): set<NetworkState>
      reads entries`closed, entries`peers, entries`listeners
      reads (set n, l | n in entries && l in n.listeners.Values :: l)`handles
    {
      set n | n in entries && Eligible(n, explicit, a)
    }

    /** The search of `connect_local` beyond its own listeners. */
    method FindPeer(entries: seq<NetworkState>, explicit: bool, a: Address) returns (r: Result<ListenerState>)
      ensures r == Err(ConnectionRefused) <==> Entries(entries, EligibleAmong(entries, explicit, a)) == 0
      ensures r == Err(AddressInUse) <==> Entries(entries, EligibleAmong(entries, explicit, a)) > 1
      ensures r.Err? ==> r.error == ConnectionRefused || r.error == AddressInUse
      ensures r.Ok? ==> exists n :: n in EligibleAmong(entries, explicit, a) && n.listeners[a] == r.value
    {
      ghost var eligible := EligibleAmong(entries, explicit, a);
      var found: Option<ListenerState> := None;
      for i := 0 to |entries|
        invariant Entries(entries[..i], eligible) == if found.None? then 0 else 1
        invariant found.Some? ==> exists n :: n in eligible && n.listeners[a] == found.value
      {
        assert entries[..i + 1][..i] == entries[..i];
        if Eligible(entries[i], explicit, a) {
          if found.Some? {
            EntriesGrow(entries, eligible, i + 1);
            return Err(AddressInUse);
          }
          found := Some(entries[i].listeners[a]);
        }
      }
      assert entries[..|entries|] == entries;
      r := if found.Some? then Ok(found.value) else Err(ConnectionRefused);
    }

    /** What a search of peer entries comes to, given the eligible ones: an answer only if there is exactly one entry. */
    static ghost predicate Found(entries: seq<NetworkState>, eligible: set<NetworkState>, a: Address, r: Result<ListenerState>)
      reads eligible`listeners
    {
      var count := Entries(entries, eligible);
      if count == 0 then r == Err(ConnectionRefused)
      else if count > 1 then r == Err(AddressInUse)
      else r.Ok? && exists n :: n in eligible && a in n.listeners && n.listeners[a] == r.value
    }

    /** Where `connect_local` pushes: to its own listener, else to that of the only eligible peer entry. */
    method Route(group: seq<NetworkState>, a: Address)
        returns (r: Result<ListenerState>, ghost eligible: set<NetworkState>)
      ensures eligible == EligibleAmong(PeerEntries(group), peers.Some?, a)
      ensures closed ==> r == Err(ConnectionRefused)
      ensures !closed && Listens(a) ==> r == Ok(listeners[a])
      ensures !closed && !Listens(a) ==> Found(PeerEntries(group), eligible, a, r)
      ensures r.Ok? ==> r.value in ReachableListeners(group)
    {
      eligible := EligibleAmong(PeerEntries(group), peers.Some?, a);
      if closed {
        return Err(ConnectionRefused), eligible;
      }
      if Listens(a) {
        assert this in Reachable(group) && listeners[a] in listeners.Values;
        return Ok(listeners[a]), eligible;
      }
      r := FindPeer(PeerEntries(group), peers.Some?, a);
      if r.Ok? {
        ghost var n :| n in eligible && n.listeners[a] == r.value;
        assert n in Reachable(group) && r.value in n.listeners.Values;
      }
    }

    /** The local address a connection gets: a port of its own if none was asked for, and never a wildcard. */
    method LocalAddress(local: Address, peer: Address) returns (used: Address)
      requires Valid()
      modifies this`nextPort
      ensures Valid()
      ensures GoesFrom(local, peer, old(nextPort), used)
      ensures nextPort == if local.port != 0 then old(nextPort) else if old(nextPort) == 65535 then 49152 else old(nextPort) + 1
    {
      used := local;
      if used.port == 0 {
        used := used.(port := nextPort);
        nextPort := if nextPort == 65535 then 49152 else nextPort + 1;
      }
      if IsUnspecified(used.ip) {
        used := used.(ip := if peer.ip.V4? then V4_LOCALHOST else V6_LOCALHOST);
      }
    }

    /** The push of `connect_local`, to one of the listeners it can reach. */
    method PushTo(ghost all: set<ListenerState>, listener: ListenerState, c: Connection) returns (r: Result<Connection>)
      requires Valid() && listener in all && forall l | l in all :: l.Valid()
      modifies all`backlog, all`wakers, all`interests, all`woken
      ensures Valid()
      ensures r == if listener.closed then Err(ConnectionRefused) else Ok(c)
      ensures forall l | l in all ::
        && l.Valid()
        && l.backlog == (if r.Ok? && l == listener then old(l.backlog) + [c] else old(l.backlog))
        && (r.Ok? && l == listener ==> l.wakers == [])
    {
      var pushed := listener.Push(c);
      r := if pushed.Err? then Err(ConnectionRefused) else Ok(c);
    }

    /**
      `connect_local`: the server's end goes to the back of the routed listener's
      backlog, and nowhere else. `route` is where the search led, `eligible` the
      networks that could serve, `all` the listeners within reach.
    */
    method ConnectLocal(group: seq<NetworkState>, local: Address, peer: Address, id: nat, ghost all: set<ListenerState>)
        returns (r: Result<Connection>, ghost route: Result<ListenerState>, ghost eligible: set<NetworkState>)
      requires Valid()
      requires all == ReachableListeners(group) && forall l | l in all :: l.Valid()
      modifies this`nextPort, all`backlog, all`wakers, all`interests, all`woken
      ensures Valid()
      ensures eligible == old(EligibleAmong(PeerEntries(group), peers.Some?, peer))
      ensures closed ==> route == Err(ConnectionRefused)
      ensures !closed && old(Listens(peer)) ==> route == Ok(listeners[peer])
      ensures !closed && !old(Listens(peer)) ==> Found(PeerEntries(group), eligible, peer, route)
      ensures route.Ok? ==> route.value in all
      ensures r.Ok? <==> route.Ok? && !route.value.closed
      ensures r.Err? ==> r.error == if route.Err? then route.error else ConnectionRefused
      ensures r.Ok? ==> r.value.peer == peer && r.value.id == id
      ensures r.Ok? ==> GoesFrom(local, peer, old(nextPort), r.value.local)
      ensures forall l | l in all ::
        && l.Valid()
        && l.backlog == (if r.Ok? && l == route.value then old(l.backlog) + [r.value] else old(l.backlog))
        && (r.Ok? && l == route.value ==> l.wakers == [])
    {
      if closed {
        return Err(ConnectionRefused), Err(ConnectionRefused), EligibleAmong(PeerEntries(group), peers.Some?, peer);
      }
      var listener;
      listener, eligible := Route(group, peer);
      route := listener;
      var from := LocalAddress(local, peer);
      if listener.Err? {
        return Err(listener.error), route, eligible;
      }
      r := PushTo(all, listener.value, Connection(from, peer, id));
    }

    function Reachable(group: seq<NetworkState>): set<NetworkState>
      reads this`peers
    {
      {this} + set n | n in PeerEntries(group)
    }

    ghost function ReachableListeners(group: seq<NetworkState>): set<ListenerState>
      reads this`peers, Reachable(group)`listeners
    {
      set n, l | n in Reachable(group) && l in n.listeners.Values :: l
    }

    /** Its own list of peers, or every network of the same client. */
    function PeerEntries(group: seq<NetworkState>): seq<NetworkState>
      reads this`peers
    {
      if peers.Some? then peers.value else group
    }

    /** `connect` on a bound socket: its reservation ends when the connection is made, and only then. */
    method ConnectBound(b: BoundSocket, group: seq<NetworkState>, peer: Address, id: nat, ghost all: set<ListenerState>)
        returns (r: Result<Connection>, ghost route: Result<ListenerState>, ghost eligible: set<NetworkState>)
      requires Valid() && b in sockets
      requires all == ReachableListeners(group) && forall l | l in all :: l.Valid()
      modifies this`nextPort, this`bound, b`reserved, all`backlog, all`wakers, all`interests, all`woken
      ensures Valid()
      ensures !old(b.reserved) ==> r == Err(InvalidFd)
      ensures old(b.reserved) && (!IsLoopback(peer.ip) || loopbackEgress) ==> r == Err(Unsupported)
      ensures old(b.reserved) && IsLoopback(peer.ip) && !loopbackEgress ==>
        && eligible == old(EligibleAmong(PeerEntries(group), peers.Some?, peer))
        && (closed ==> route == Err(ConnectionRefused))
        && (!closed && old(Listens(peer)) ==> route == Ok(listeners[peer]))
        && (!closed && !old(Listens(peer)) ==> Found(PeerEntries(group), eligible, peer, route))
        && (r.Ok? <==> route.Ok? && !route.value.closed)
        && (r.Err? ==> r.error == if route.Err? then route.error else ConnectionRefused)
      ensures r.Ok? ==> route.Ok? && !b.reserved && bound == old(bound) - SetOf(b.addresses)
      ensures r.Err? ==> b.reserved == old(b.reserved) && bound == old(bound)
      ensures forall l | l in all ::
        l.Valid() && l.backlog == (if r.Ok? && route.Ok? && l == route.value then old(l.backlog) + [r.value] else old(l.backlog))
    {
      route, eligible := Err(ConnectionRefused), {};
      if !b.reserved {
        return Err(InvalidFd), route, eligible;
      }
      if !IsLoopback(peer.ip) || loopbackEgress {
        return Err(Unsupported), route, eligible;
      }
      r, route, eligible := ConnectLocal(group, b.addresses[0], peer, id, all);
      if r.Ok? {
        Release(b);
      }
    }
  }

  /** A connection, with an eye on one listener of this network, which hears at the target or does not. */
  method ConnectNear(n: NetworkState, group: seq<NetworkState>, l: ListenerState, ghost hears: bool,
                     from: Address, target: Address, id: nat, ghost all: set<ListenerState>)
      returns (r: Result<Connection>)
    requires n.Valid() && !n.closed && all == n.ReachableListeners(group) && forall k | k in all :: k.Valid()
    requires l in all && !l.closed && l.backlog == []
    requires forall m | m in n.Reachable(group) && m != n :: l !in m.listeners.Values
    requires if hears then n.Listens(target) && n.listeners[target] == l else target in n.listeners ==> n.listeners[target] != l
    modifies n`nextPort, all`backlog, all`wakers, all`interests, all`woken
    ensures n.Valid() && l.Valid()
    ensures if hears then r.Ok? && r.value.peer == target && l.backlog == [r.value] else l.backlog == []
  {
    ghost var route, eligible;
    r, route, eligible := n.ConnectLocal(group, from, target, id, all);
  }

  /**
    A listener, and then a connection: the connection reaches the listener if
    and only if it goes to an address that the listener is there for.
  */
  method ListenThenConnect(n: NetworkState, group: seq<NetworkState>, address: Address, onlyV6: bool,
                           from: Address, target: Address, id: nat)
      returns (l: Result<ListenerState>, r: Result<Connection>)
    requires n.Valid() && forall l | l in n.ReachableListeners(group) :: l.Valid()
    modifies n`listeners, n`given, n`nextPort
    modifies n.ReachableListeners(group)`backlog, n.ReachableListeners(group)`wakers
    modifies n.ReachableListeners(group)`interests, n.ReachableListeners(group)`woken
    ensures n.Valid()
    ensures l.Ok? ==> l.value.Valid() && fresh(l.value)
    ensures l.Ok? && Reaches(address, onlyV6, target) ==> r.Ok? && r.value.peer == target && l.value.backlog == [r.value]
    ensures l.Ok? && !Reaches(address, onlyV6, target) ==> l.value.backlog == []
  {
    l := n.ListenTcp(address, onlyV6);
    if l.Err? { return l, Err(ConnectionRefused); }
    ghost var all := n.ReachableListeners(group);
    forall k | k in all ensures k == l.value || k in old(n.ReachableListeners(group)) {
      var m :| m in n.Reachable(group) && k in m.listeners.Values;
      if m == n {
        var a :| a in n.listeners && n.listeners[a] == k;
        assert k == l.value || k in old(n.listeners).Values;
      }
    }
    assert l.value in n.listeners.Values by {
      ListenersReach(address, onlyV6, Normalize(address));
      assert n.listeners[Normalize(address)] == l.value;
    }
    r := ConnectNear(n, group, l.value, Reaches(address, onlyV6, target), from, target, id, all);
  }

  // ----- the number of peer entries, in any order -----

  /** How many entries of a peer list are eligible; a network listed twice counts twice. */
  ghost function Entries(entries: seq<NetworkState>, eligible: set<NetworkState>): nat {
    if entries == [] then 0
    else Entries(entries[..|entries| - 1], eligible) + if entries[|entries| - 1] in eligible then 1 else 0
  }

  lemma EntriesGrow(entries: seq<NetworkState>, eligible: set<NetworkState>, n: nat)
    requires n <= |entries|
    ensures Entries(entries[..n], eligible) <= Entries(entries, eligible)
  {
    if n < |entries| {
      assert entries[..|entries| - 1][..n] == entries[..n];
      EntriesGrow(entries[..|entries| - 1], eligible, n);
    } else {
      assert entries[..n] == entries;
    }
  }

  lemma EntriesWithout(entries: seq<NetworkState>, eligible: set<NetworkState>, k: nat)
    requires k < |entries|
    ensures Entries(entries, eligible) == Entries(entries[..k] + entries[k + 1..], eligible) + if entries[k] in eligible then 1 else 0
  {
    var n := |entries| - 1;
    var without := entries[..k] + entries[k + 1..];
    if k == n {
      assert without == entries[..n];
    } else {
      assert without[..n - 1] == entries[..n][..k] + entries[..n][k + 1..];
      EntriesWithout(entries[..n], eligible, k);
    }
  }

  lemma MultisetWithout<T>(xs: seq<T>, k: nat)
    requires k < |xs|
    ensures multiset(xs[..k] + xs[k + 1..]) == multiset(xs) - multiset{xs[k]}
  {
    assert xs == xs[..k] + [xs[k]] + xs[k + 1..];
  }

  /** Which peer answers does not depend on the order in which the peers are listed. */
  lemma {:induction false} PeerOrderDoesNotMatter(xs: seq<NetworkState>, ys: seq<NetworkState>, eligible: set<NetworkState>)
    requires multiset(xs) == multiset(ys)
    ensures Entries(xs, eligible) == Entries(ys, eligible)
    decreases |xs|
  {
    if xs == [] {
      assert |multiset(ys)| == 0;
    } else {
      var n := |xs| - 1;
      assert xs[n] in multiset(ys);
      var k :| 0 <= k < |ys| && ys[k] == xs[n];
      EntriesWithout(ys, eligible, k);
      MultisetWithout(ys, k);
      MultisetWithout(xs, n);
      assert xs[..n] + xs[n + 1..] == xs[..n];
      PeerOrderDoesNotMatter(xs[..n], ys[..k] + ys[k + 1..], eligible);
    }
  }

  /** A dual-stack wildcard takes two addresses, the loopback of each family; nothing else takes more than one. */
  lemma WildcardsAreDualStack(a: Address, onlyV6: bool)
    ensures SetOf(ListenerAddresses(a, onlyV6)) ==
      if a.ip == V6(0) && !onlyV6 then {Address(V6_LOCALHOST, a.port), Address(V4_LOCALHOST, a.port)}
      else {Normalize(a)}
    ensures forall l | l in ListenerAddresses(a, onlyV6) :: !IsUnspecified(l.ip) && l.port == a.port
  {
  }
}
