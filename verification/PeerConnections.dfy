/**
  Whom a connection of js/bindgen/src/browser_http.rs reaches beyond its own
  network: the one entry of its peers that serves the address, wherever it
  stands in the list.
*/
module PeerConnections {
  import opened Bytes
  import opened BrowserNetwork

  /** An entry that a search from `n` passes over: itself, a closed network, in an implicit group one with peers of its own, and one without the listener. */
  predicate PassedOver(n: NetworkState, m: NetworkState, target: Address)
    reads n`peers, m`closed, m`peers, m`listeners, m.listeners.Values`handles
  {
    || m == n
    || m.closed
    || (n.peers.None? && m.peers.Some?)
    || target !in m.listeners
    || m.listeners[target].handles == 0
  }

  /** Among these entries exactly this one is not passed over. */
  ghost predicate OnlyServer(n: NetworkState, entries: seq<NetworkState>, k: nat, target: Address)
    reads n`peers, entries`closed, entries`peers, entries`listeners
    reads (set m, l | m in entries && l in m.listeners.Values :: l)`handles
  {
    && k < |entries| && !PassedOver(n, entries[k], target)
    && forall i | 0 <= i < |entries| && i != k :: PassedOver(n, entries[i], target)
  }

  ghost predicate TwoServers(n: NetworkState, entries: seq<NetworkState>, target: Address)
    reads n`peers, entries`closed, entries`peers, entries`listeners
    reads (set m, l | m in entries && l in m.listeners.Values :: l)`handles
  {
    exists i, j :: 0 <= i < j < |entries| && !PassedOver(n, entries[i], target) && !PassedOver(n, entries[j], target)
  }

  lemma {:induction false} NoneCounted(entries: seq<NetworkState>, eligible: set<NetworkState>)
    requires forall i | 0 <= i < |entries| :: entries[i] !in eligible
    ensures Entries(entries, eligible) == 0
  {
    if entries != [] { NoneCounted(entries[..|entries| - 1], eligible); }
  }

  lemma {:induction false} OneCounted(entries: seq<NetworkState>, eligible: set<NetworkState>, k: nat)
    requires k < |entries| && entries[k] in eligible
    requires forall i | 0 <= i < |entries| && i != k :: entries[i] !in eligible
    ensures Entries(entries, eligible) == 1
  {
    EntriesWithout(entries, eligible, k);
    NoneCounted(entries[..k] + entries[k + 1..], eligible);
  }

  lemma {:induction false} TwoCounted(entries: seq<NetworkState>, eligible: set<NetworkState>, i: nat, j: nat)
    requires i < j < |entries| && entries[i] in eligible && entries[j] in eligible
    ensures Entries(entries, eligible) >= 2
  {
    EntriesWithout(entries, eligible, j);
    var rest := entries[..j] + entries[j + 1..];
    assert rest[i] == entries[i];
    EntriesWithout(rest, eligible, i);
  }

  lemma ServersAreCounted(n: NetworkState, entries: seq<NetworkState>, target: Address)
    requires !n.Listens(target)
    ensures var eligible := n.EligibleAmong(entries, n.peers.Some?, target);
      && ((forall m | m in entries :: PassedOver(n, m, target)) ==> Entries(entries, eligible) == 0)
      && (TwoServers(n, entries, target) ==> Entries(entries, eligible) > 1)
      && (forall k | 0 <= k < |entries| && OnlyServer(n, entries, k, target) ::
            Entries(entries, eligible) == 1 && eligible == {entries[k]})
  {
    var eligible := n.EligibleAmong(entries, n.peers.Some?, target);
    assert forall m | m in entries :: m in eligible <==> !PassedOver(n, m, target);
    if forall m | m in entries :: PassedOver(n, m, target) { NoneCounted(entries, eligible); }
    if TwoServers(n, entries, target) {
      var i, j :| 0 <= i < j < |entries| && !PassedOver(n, entries[i], target) && !PassedOver(n, entries[j], target);
      TwoCounted(entries, eligible, i, j);
    }
    forall k | 0 <= k < |entries| && OnlyServer(n, entries, k, target)
      ensures Entries(entries, eligible) == 1 && eligible == {entries[k]}
    {
      OneCounted(entries, eligible, k);
    }
  }

  /**
    A connection to an address that its own network does not serve: it is
    refused if every entry is passed over, ambiguous if two are not, and else
    goes to the listener of the one that is left, unless that is closed.
  */
  method ConnectToPeer(n: NetworkState, group: seq<NetworkState>, from: Address, target: Address, id: nat,
                       ghost all: set<ListenerState>) returns (r: Result<Connection>)
    requires n.Valid() && !n.closed && !n.Listens(target)
    requires all == n.ReachableListeners(group) && forall l | l in all :: l.Valid()
    modifies n`nextPort, all`backlog, all`wakers, all`interests, all`woken
    ensures (forall m | m in n.PeerEntries(group) :: old(PassedOver(n, m, target))) ==> r == Err(ConnectionRefused)
    ensures old(TwoServers(n, n.PeerEntries(group), target)) ==> r == Err(AddressInUse)
    ensures forall k | 0 <= k < |n.PeerEntries(group)| && old(OnlyServer(n, n.PeerEntries(group), k, target)) ::
      var m := n.PeerEntries(group)[k];
      target in m.listeners
      && r.Ok? == !m.listeners[target].closed && (r.Err? ==> r.error == ConnectionRefused)
      && m.listeners[target].backlog == old(m.listeners[target].backlog) + (if r.Ok? then [r.value] else [])
    ensures r.Ok? ==> r.value.peer == target && r.value.id == id
  {
    ghost var entries := n.PeerEntries(group);
    forall k | 0 <= k < |entries| && OnlyServer(n, entries, k, target)
      ensures entries[k].listeners[target] in all
    {
      assert entries[k] in n.Reachable(group) && entries[k].listeners[target] in entries[k].listeners.Values;
    }
    ServersAreCounted(n, entries, target);
    ghost var route, served;
    r, route, served := n.ConnectLocal(group, from, target, id, all);
  }
}
