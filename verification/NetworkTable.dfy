/**
 A user's table of networks: creating, updating and deleting networks under a quota, while clients are
 connected to them.
 */
module NetworkTable {
  import opened Text
  import opened DeliveryNetwork

  // ----- Records -----

  /** The parts of a network address that are checked. */
  datatype Url = Url(scheme: string, hasUser: bool, rawQuery: string, fragment: string, host: string, path: string)

  /** A network as it is stored; `url` is what its address parses to, if it does. */
  datatype Record =
    Record(id: int, name: string, addr: string, url: Option<Url>, nick: string, realname: string, enabled: bool)

  /** The name a network goes by. */
  function GetName(r: Record): string {
    if r.name != "" then r.name else r.addr
  }

  predicate AddressAllowed(admin: bool, url: Option<Url>) {
    && url.Some? && !url.value.hasUser && url.value.rawQuery == "" && url.value.fragment == ""
    && (match url.value.scheme
        case "ircs" => url.value.host != "" && url.value.path == ""
        case "irc+insecure" => url.value.host != "" && url.value.path == ""
        case "irc+unix" => admin && url.value.host == "" && url.value.path != ""
        case "unix" => admin && url.value.host == "" && url.value.path != ""
        case _ => false)
  }

  predicate NameAllowed(r: Record) {
    GetName(r) != "" && !HasPrefix(GetName(r), "-")
  }

  // ----- Objects -----

  class Network {
    const record: Record
    const channels: set<string>
    const ignores: seq<string>
    var delivered: DeliveredStore
    var pushTargets: map<string, int>
    var lastError: Option<string>
    var stopped: bool

    constructor (record: Record, channels: set<string>, ignores: seq<string>)
      ensures this.record == record && this.channels == channels && this.ignores == ignores
      ensures !stopped && fresh(delivered) && pushTargets == map[] && lastError == None
    {
      this.record, this.channels, this.ignores := record, channels, ignores;
      stopped, pushTargets, lastError := false, map[], None;
      delivered := new DeliveredStore();
    }

    /** The attributes that are not in the record. */
    method TakeOver(network: Network)
      modifies `delivered, `pushTargets, `lastError
      ensures delivered == network.delivered && pushTargets == network.pushTargets
      ensures lastError == if record.enabled then network.lastError else old(lastError)
    {
      delivered, pushTargets := network.delivered, network.pushTargets;
      if record.enabled {
        lastError := network.lastError;
      }
    }

    method Stop()
      modifies `stopped
      ensures stopped
    {
      stopped := true;
    }
  }

  class DownstreamConn {
    var network: Network?
    var closed: bool

    constructor (network: Network?)
      ensures this.network == network && !closed
    {
      this.network, closed := network, false;
    }

    method Close()
      modifies `closed
      ensures closed
    {
      closed := true;
    }
  }

  // ----- Tables -----

  /** Two networks in order, under different names. */
  predicate Apart(ns: seq<Network>, i: nat, j: nat)
    requires i < |ns| && j < |ns|
  {
    ns[i].record.id < ns[j].record.id && GetName(ns[i].record) != GetName(ns[j].record)
  }

  predicate Stored(ns: seq<Network>, i: nat)
    requires i < |ns|
  {
    ns[i].record.id != 0
  }

  /** Ordered by distinct IDs, none of them zero, and with distinct names. */
  predicate Table(ns: seq<Network>) {
    && (forall i, j | 0 <= i < j < |ns| :: Apart(ns, i, j))
    && (forall i | 0 <= i < |ns| :: Stored(ns, i))
  }

  /** A record whose ID and name are not in the table. */
  predicate NewTo(ns: seq<Network>, r: Record) {
    forall n <- ns :: n.record.id != r.id && GetName(n.record) != GetName(r)
  }

  function Put(ns: seq<Network>, at: nat, n: Network): seq<Network>
    requires at <= |ns|
  {
    ns[..at] + [n] + ns[at..]
  }

  function Drop(ns: seq<Network>, at: nat): seq<Network>
    requires at < |ns|
  {
    ns[..at] + ns[at + 1..]
  }

  /** No other network goes by the name of this record. */
  predicate NameFree(ns: seq<Network>, r: Record) {
    forall n <- ns :: GetName(n.record) == GetName(r) ==> n.record.id == r.id
  }

  function EnabledCount(ns: seq<Network>): nat {
    if ns == [] then 0
    else EnabledCount(ns[..|ns| - 1]) + if ns[|ns| - 1].record.enabled then 1 else 0
  }

  lemma {:induction false} EnabledConcat(a: seq<Network>, b: seq<Network>)
    ensures EnabledCount(a + b) == EnabledCount(a) + EnabledCount(b)
  {
    if b == [] {
      assert a + b == a;
    } else {
      assert (a + b)[..|a + b| - 1] == a + b[..|b| - 1];
      EnabledConcat(a, b[..|b| - 1]);
    }
  }

  function One(n: Network): nat {
    if n.record.enabled then 1 else 0
  }

  lemma PiecesCount(a: seq<Network>, n: Network, b: seq<Network>)
    ensures EnabledCount(a + [n] + b) == EnabledCount(a) + One(n) + EnabledCount(b)
    ensures EnabledCount(a + b) == EnabledCount(a) + EnabledCount(b)
  {
    EnabledConcat(a + [n], b);
    EnabledConcat(a, [n]);
    EnabledConcat(a, b);
    assert [n][..0] == [];
  }

  lemma PutCount(ns: seq<Network>, at: nat, n: Network)
    requires at <= |ns|
    ensures EnabledCount(Put(ns, at, n)) == EnabledCount(ns) + One(n)
  {
    PiecesCount(ns[..at], n, ns[at..]);
    assert ns[..at] + ns[at..] == ns;
  }

  lemma DropCount(ns: seq<Network>, at: nat)
    requires at < |ns|
    ensures EnabledCount(ns) == EnabledCount(Drop(ns, at)) + One(ns[at])
  {
    PiecesCount(ns[..at], ns[at], ns[at + 1..]);
    Pieces(ns, at);
  }

  lemma Pieces(ns: seq<Network>, at: nat)
    requires at < |ns|
    ensures ns[..at] + [ns[at]] + ns[at + 1..] == ns
  {
  }

  lemma ReplaceCount(ns: seq<Network>, at: nat, n: Network)
    requires at < |ns|
    ensures EnabledCount(ns[at := n]) + One(ns[at]) == EnabledCount(ns) + One(n)
  {
    DropCount(ns, at);
    PiecesCount(ns[..at], n, ns[at + 1..]);
    assert ns[..at] + [n] + ns[at + 1..] == ns[at := n];
  }

  lemma PutApart(ns: seq<Network>, at: nat, n: Network, i: nat, j: nat)
    requires at <= |ns| && Table(ns) && NewTo(ns, n.record) && i < j <= |ns|
    requires at > 0 ==> ns[at - 1].record.id < n.record.id
    requires at < |ns| ==> n.record.id < ns[at].record.id
    ensures Apart(Put(ns, at, n), i, j)
  {
    var after := Put(ns, at, n);
    if j == at {
      assert after[i] == ns[i] && after[j] == n && ns[i] in ns;
      assert i < at - 1 ==> Apart(ns, i, at - 1);
    } else if i == at {
      assert after[j] == ns[j - 1] && after[i] == n && ns[j - 1] in ns;
      assert at < j - 1 ==> Apart(ns, at, j - 1);
    } else {
      var x, y := if i < at then i else i - 1, if j < at then j else j - 1;
      assert Apart(ns, x, y) && after[i] == ns[x] && after[j] == ns[y];
    }
  }

  lemma PutTable(ns: seq<Network>, at: nat, n: Network)
    requires at <= |ns| && Table(ns) && n.record.id != 0 && NewTo(ns, n.record)
    requires at > 0 ==> ns[at - 1].record.id < n.record.id
    requires at < |ns| ==> n.record.id < ns[at].record.id
    ensures Table(Put(ns, at, n))
  {
    var after := Put(ns, at, n);
    forall i, j | 0 <= i < j < |after| ensures Apart(after, i, j) {
      PutApart(ns, at, n, i, j);
    }
    forall i | 0 <= i < |after| ensures Stored(after, i) {
      assert i < at ==> Stored(ns, i);
      assert i > at ==> Stored(ns, i - 1);
    }
  }

  lemma TableId(ns: seq<Network>, n: Network)
    requires Table(ns) && n in ns
    ensures n.record.id != 0
  {
    var i :| 0 <= i < |ns| && ns[i] == n;
    assert Stored(ns, i);
  }

  lemma PutMembers(ns: seq<Network>, at: nat, n: Network)
    requires at <= |ns|
    ensures forall m :: m in Put(ns, at, n) <==> m == n || m in ns
  {
    assert ns == ns[..at] + ns[at..];
  }

  lemma DropTable(ns: seq<Network>, at: nat)
    requires at < |ns| && Table(ns)
    ensures Table(Drop(ns, at)) && forall m :: m in Drop(ns, at) <==> m in ns && m != ns[at]
  {
    var after := Drop(ns, at);
    forall i, j | 0 <= i < j < |after| ensures Apart(after, i, j) {
      assert Apart(ns, if i < at then i else i + 1, if j < at then j else j + 1);
    }
    forall i | 0 <= i < |after| ensures Stored(after, i) {
      assert Stored(ns, if i < at then i else i + 1);
    }
    forall i | 0 <= i < |ns| && i != at ensures ns[i] in after && ns[i] != ns[at] {
      assert after[if i < at then i else i - 1] == ns[i];
      assert Apart(ns, if i < at then i else at, if i < at then at else i);
    }
    forall i | 0 <= i < |after| ensures after[i] in ns && after[i] != ns[at] {
      assert after[i] == ns[if i < at then i else i + 1];
    }
  }

  lemma DropNew(ns: seq<Network>, at: nat, r: Record)
    requires at < |ns| && Table(ns) && ns[at].record.id == r.id && NameFree(ns, r)
    ensures NewTo(Drop(ns, at), r)
  {
    forall i | 0 <= i < |ns| && i != at
      ensures ns[i].record.id != r.id && GetName(ns[i].record) != GetName(r)
    {
      assert Apart(ns, if i < at then i else at, if i < at then at else i);
      assert ns[i] in ns;
    }
  }

  lemma Displaced(ns: seq<Network>, n: Network, at: nat, again: nat)
    requires at < |ns| && again < |ns|
    ensures var after := Put(Drop(ns, at), again, n);
            && |after| == |ns| && after[again] == n
            && (again < at ==> after[again + 1] == ns[again])
            && (again > at ==> after[again - 1] == ns[again])
            && (again == at ==> after == ns[at := n])
  {
  }

  lemma Misplaced(ns: seq<Network>, n: Network, at: nat, again: nat)
    requires at < |ns| && Table(ns) && ns[at].record.id == n.record.id && again < |ns| && again != at
    ensures !Table(Put(Drop(ns, at), again, n))
  {
    var after := Put(Drop(ns, at), again, n);
    Displaced(ns, n, at, again);
    if again < at {
      assert Apart(ns, again, at) && !Apart(after, again, again + 1);
    } else {
      assert Apart(ns, at, again) && !Apart(after, again - 1, again);
    }
  }

  /** A network with the ID of the one removed goes back to the same place. */
  lemma SamePlace(ns: seq<Network>, n: Network, at: nat, again: nat)
    requires at < |ns| && Table(ns) && ns[at].record.id == n.record.id
    requires again < |ns| && Table(Put(Drop(ns, at), again, n))
    ensures Put(Drop(ns, at), again, n) == ns[at := n]
  {
    if again != at {
      Misplaced(ns, n, at, again);
    }
    Displaced(ns, n, at, again);
  }

  datatype Outcome = Done(network: Network) | Refused

  class User {
    const admin: bool
    const nick: string
    const realname: string
    const maxNetworks: int
    const serverMaxNetworks: int
    var networks: seq<Network>
    var downstreamConns: seq<DownstreamConn>
    // What the message store was told about networks that changed their name.
    var renames: seq<(string, string)>

    constructor (admin: bool, nick: string, realname: string, maxNetworks: int, serverMaxNetworks: int)
      ensures Valid() && networks == [] && downstreamConns == []
      ensures this.maxNetworks == maxNetworks && this.serverMaxNetworks == serverMaxNetworks
    {
      this.admin, this.nick, this.realname := admin, nick, realname;
      this.maxNetworks, this.serverMaxNetworks := maxNetworks, serverMaxNetworks;
      networks, downstreamConns, renames := [], [], [];
    }

    /**
     The table is ordered by distinct IDs and has distinct names, and every open client is on no network or
     on one that is running in the table.
     */
    ghost predicate Valid()
      reads this, networks, downstreamConns
    {
      && Table(networks)
      && (forall n <- networks :: !n.stopped)
      && (forall dc <- downstreamConns :: Settled(dc))
    }

    ghost predicate Settled(dc: DownstreamConn)
      reads this, dc
    {
      !dc.closed && dc.network != null ==> dc.network in networks
    }

    function Max(): int {
      if maxNetworks < 0 then serverMaxNetworks else maxNetworks
    }

    /** Within the quota, if there is one. */
    predicate WithinQuota()
      reads this
    {
      Max() < 0 || EnabledCount(networks) <= Max()
    }

    predicate QuotaLeft()
      reads this
    {
      Max() < 0 || EnabledCount(networks) < Max()
    }

    predicate Acceptable(r: Record)
      reads this
    {
      AddressAllowed(admin, r.url) && NameAllowed(r) && NameFree(networks, r)
    }

    method CanEnableNewNetwork() returns (ok: bool)
      ensures ok <==> QuotaLeft()
    {
      var max := maxNetworks;
      if max < 0 {
        max := serverMaxNetworks;
      }
      if max < 0 {
        return true;
      }
      var n := 0;
      for i := 0 to |networks|
        invariant n == EnabledCount(networks[..i])
      {
        assert networks[..i + 1][..i] == networks[..i];
        if networks[i].record.enabled {
          n := n + 1;
        }
      }
      assert networks[..|networks|] == networks;
      return n < max;
    }

    method CheckNetwork(r: Record) returns (ok: bool)
      ensures ok <==> Acceptable(r)
    {
      if !AddressAllowed(admin, r.url) || GetName(r) == "" || HasPrefix(GetName(r), "-") {
        return false;
      }
      for i := 0 to |networks|
        invariant NameFree(networks[..i], r)
      {
        if GetName(networks[i].record) == GetName(r) && networks[i].record.id != r.id {
          assert networks[i] in networks;
          return false;
        }
      }
      assert networks[..|networks|] == networks;
      return true;
    }

    method GetNetworkByID(id: int) returns (r: Network?)
      ensures r == null ==> forall n <- networks :: n.record.id != id
      ensures r != null ==> r in networks && r.record.id == id
    {
      for i := 0 to |networks|
        invariant forall n <- networks[..i] :: n.record.id != id
      {
        if networks[i].record.id == id {
          return networks[i];
        }
      }
      assert networks[..|networks|] == networks;
      return null;
    }

    /** The first network at an address or under a name. */
    method GetNetwork(name: string) returns (r: Network?)
      ensures r == Find(networks, name)
    {
      for i := 0 to |networks|
        invariant Find(networks, name) == Find(networks[i..], name)
      {
        var network := networks[i];
        assert networks[i..][1..] == networks[i + 1..];
        if network.record.addr == name || (network.record.name != "" && network.record.name == name) {
          return network;
        }
      }
      return null;
    }

    /** Appending and sorting by ID puts the network in its place. */
    method AddNetwork(network: Network) returns (ghost at: nat)
      requires Table(networks) && network.record.id != 0 && NewTo(networks, network.record)
      modifies `networks
      ensures at <= |old(networks)| && networks == Put(old(networks), at, network) && Table(networks)
      ensures forall n :: n in networks <==> n == network || n in old(networks)
    {
      var i := |networks|;
      while i > 0 && networks[i - 1].record.id > network.record.id
        invariant 0 <= i <= |networks|
        invariant forall j | i <= j < |networks| :: networks[j].record.id > network.record.id
      {
        i := i - 1;
      }
      assert i > 0 ==> networks[i - 1] in networks;
      PutTable(networks, i, network);
      PutMembers(networks, i, network);
      networks := networks[..i] + [network] + networks[i..];
      at := i;
    }

    /** Closes the clients of a network and takes it out; it must be there. */
    method RemoveNetwork(network: Network) returns (ghost at: nat)
      requires Table(networks) && network in networks
      modifies this`networks, network`stopped, downstreamConns
      ensures network.stopped
      ensures at < |old(networks)| && old(networks)[at] == network && networks == Drop(old(networks), at)
      ensures Table(networks) && forall n :: n in networks <==> n in old(networks) && n != network
      ensures forall dc <- downstreamConns ::
                dc.network == old(dc.network) && (dc.closed <==> old(dc.closed) || dc.network == network)
    {
      network.Stop();
      for i := 0 to |downstreamConns|
        invariant networks == old(networks) && downstreamConns == old(downstreamConns) && network.stopped
        invariant forall dc <- downstreamConns ::
                    && dc.network == old(dc.network)
                    && (dc.closed <==> old(dc.closed) || (dc in downstreamConns[..i] && dc.network == network))
      {
        var dc := downstreamConns[i];
        if dc.network != null && dc.network == network {
          dc.Close();
        }
      }
      assert downstreamConns[..|downstreamConns|] == downstreamConns;
      var i := 0;
      while networks[i] != network
        invariant 0 <= i < |networks| && network in networks[i..]
        decreases |networks| - i
      {
        i := i + 1;
      }
      DropTable(networks, i);
      networks := networks[..i] + networks[i + 1..];
      at := i;
    }

    /**
     createNetwork. Refused exactly for a used-up quota, an address or name that is not allowed, a name in use,
     or a store that fails; the store gives out an ID of its own otherwise.
     */
    method CreateNetwork(record: Record, enforceLimit: bool, stored: Option<int>) returns (r: Outcome, ghost at: nat)
      requires Valid() && record.id == 0
      requires stored.Some? ==> stored.value != 0 && forall n <- networks :: n.record.id != stored.value
      modifies `networks
      ensures Valid()
      ensures r.Refused? <==>
              (enforceLimit && record.enabled && !old(QuotaLeft())) || !old(Acceptable(record)) || stored.None?
      ensures r.Refused? ==> networks == old(networks)
      ensures r.Done? ==>
                && fresh(r.network) && r.network.record == record.(id := stored.value) && fresh(r.network.delivered)
                && at <= |old(networks)| && networks == Put(old(networks), at, r.network)
      ensures enforceLimit && old(WithinQuota()) ==> WithinQuota()
    {
      at := 0;
      if enforceLimit && record.enabled {
        var ok := CanEnableNewNetwork();
        if !ok {
          return Refused, at;
        }
      }
      var ok := CheckNetwork(record);
      if !ok || stored.None? {
        return Refused, at;
      }
      NewName(networks, record, stored.value);
      var network := new Network(record.(id := stored.value), {}, []);
      ghost var before := networks;
      at := AddNetwork(network);
      PutCount(before, at, network);
      return Done(network), at;
    }

    /**
     updateNetwork. The new object takes the place of the old one in the table and under its clients, none of
     which is closed, and goes on with what the old one had that is not in the record. The message store is told if
     the name changes.
     */
    method UpdateNetwork(update: Record, enforceLimit: bool, stored: bool) returns (r: Outcome, ghost at: nat)
      requires Valid() && exists n <- networks :: n.record.id == update.id
      modifies this`networks, this`renames, networks, downstreamConns
      ensures Valid()
      ensures r.Refused? <==>
              (enforceLimit && update.enabled && !old(QuotaLeft())) || !old(Acceptable(update)) || !stored
      ensures r.Refused? ==>
                && networks == old(networks) && renames == old(renames)
                && forall dc <- downstreamConns :: dc.network == old(dc.network) && dc.closed == old(dc.closed)
      ensures r.Done? ==>
                && fresh(r.network) && r.network.record == Wipe(update)
                && at < |old(networks)| && old(networks)[at].record.id == update.id
                && networks == old(networks)[at := r.network]
                && r.network.delivered == old(networks[at].delivered) &&
                   r.network.channels == old(networks)[at].channels
                && r.network.ignores == old(networks)[at].ignores
                && r.network.pushTargets == old(networks[at].pushTargets)
                && r.network.lastError == (if update.enabled then old(networks[at].lastError) else None)
                && renames == old(renames) + Renamed(GetName(old(networks)[at].record), GetName(Wipe(update)))
                && forall dc <- downstreamConns ::
                     && dc.closed == old(dc.closed)
                     && dc.network == if old(dc.network) == old(networks)[at] then r.network else old(dc.network)
      ensures (enforceLimit || !update.enabled || r.Refused? || old(networks)[at].record.enabled) ==>
                old(WithinQuota()) ==> WithinQuota()
    {
      at := 0;
      if enforceLimit && update.enabled {
        var ok := CanEnableNewNetwork();
        if !ok {
          return Refused, at;
        }
      }
      var record := Wipe(update);
      var ok := CheckNetwork(record);
      if !ok {
        return Refused, at;
      }
      var network := GetNetworkByID(record.id);
      if !stored {
        return Refused, at;
      }
      r, at := Replace(network, record);
      ReplaceCount(old(networks), at, r.network);
    }

    /** The second half of updateNetwork, once nothing can fail any more. */
    method Replace(network: Network, record: Record) returns (r: Outcome, ghost at: nat)
      requires Valid() && network in networks && record.id == network.record.id && NameFree(networks, record)
      modifies this`networks, this`renames, network, downstreamConns
      ensures Valid() && r.Done? && fresh(r.network) && r.network.record == record
      ensures at < |old(networks)| && old(networks)[at] == network && networks == old(networks)[at := r.network]
      ensures r.network.delivered == old(network.delivered) && r.network.channels == network.channels
      ensures r.network.ignores == network.ignores && r.network.pushTargets == old(network.pushTargets)
      ensures r.network.lastError == (if record.enabled then old(network.lastError) else None)
      ensures renames == old(renames) + Renamed(GetName(network.record), GetName(record))
      ensures forall dc <- downstreamConns ::
                && dc.closed == old(dc.closed)
                && dc.network == if old(dc.network) == network then r.network else old(dc.network)
    {
      var updated := new Network(record, network.channels, network.ignores);
      network.Stop();
      PatchClients(network, updated);
      at := Exchange(network, updated);
      updated.TakeOver(network);
      renames := renames + Renamed(GetName(network.record), GetName(record));
      r := Done(updated);
    }

    /** One network leaves the table, which has no clients left, and another with its ID takes its place. */
    method Exchange(network: Network, updated: Network) returns (ghost at: nat)
      requires Table(networks) && network in networks && updated !in networks
      requires updated.record.id == network.record.id && NameFree(networks, updated.record)
      requires forall dc <- downstreamConns :: dc.network != network
      modifies this`networks, network`stopped, downstreamConns
      ensures at < |old(networks)| && old(networks)[at] == network && networks == old(networks)[at := updated]
      ensures Table(networks) && forall n :: n in networks <==> n == updated || (n in old(networks) && n != network)
      ensures forall dc <- downstreamConns :: dc.network == old(dc.network) && dc.closed == old(dc.closed)
    {
      at := RemoveNetwork(network);
      TableId(old(networks), network);
      DropNew(old(networks), at, updated.record);
      ghost var again := AddNetwork(updated);
      SamePlace(old(networks), updated, at, again);
    }

    /** Clients of one network become clients of another. */
    method PatchClients(network: Network, updated: Network)
      modifies downstreamConns
      ensures forall dc <- downstreamConns ::
                && dc.closed == old(dc.closed)
                && dc.network == if old(dc.network) == network then updated else old(dc.network)
    {
      for i := 0 to |downstreamConns|
        invariant forall dc <- downstreamConns ::
                    && dc.closed == old(dc.closed)
                    && dc.network == if dc in downstreamConns[..i] && old(dc.network) == network then updated
                                     else old(dc.network)
      {
        var dc := downstreamConns[i];
        if dc.network != null && dc.network == network {
          dc.network := updated;
        }
      }
      assert downstreamConns[..|downstreamConns|] == downstreamConns;
    }

    function Renamed(before: string, after: string): seq<(string, string)> {
      if before != after then [(before, after)] else []
    }

    function Wipe(r: Record): Record {
      r.(nick := if r.nick == nick then "" else r.nick, realname := if r.realname == realname then "" else r.realname)
    }

    /**
     How clients and the service change a network: the limit counts only for one that was not enabled, and not for an
     administrator who says so.
     */
    method ChangeNetwork(change: Record, ignoreLimit: bool, stored: bool) returns (r: Outcome, ghost at: nat)
      requires Valid()
      modifies this`networks, this`renames, networks, downstreamConns
      ensures Valid() && (old(WithinQuota()) && !ignoreLimit ==> WithinQuota())
      ensures (forall n <- old(networks) :: n.record.id != change.id) ==> r.Refused?
      ensures r.Done? ==>
                && fresh(r.network) && r.network.record == Wipe(change)
                && at < |old(networks)| && old(networks)[at].record.id == change.id
                && networks == old(networks)[at := r.network]
      ensures r.Refused? ==> networks == old(networks)
    {
      at := 0;
      var net := GetNetworkByID(change.id);
      if net == null {
        return Refused, at;
      }
      r, at := UpdateNetwork(change, !ignoreLimit && !net.record.enabled, stored);
      if r.Done? {
        OneById(old(networks), net, old(networks)[at]);
      }
    }

    /** How a nick or realname is changed: the limit is not looked at, and the network is as enabled as before. */
    method ChangeIdentity(id: int, nick: string, realname: string, stored: bool) returns (r: Outcome, ghost at: nat)
      requires Valid()
      modifies this`networks, this`renames, networks, downstreamConns
      ensures Valid() && (old(WithinQuota()) ==> WithinQuota())
      ensures (forall n <- old(networks) :: n.record.id != id) ==> r.Refused?
      ensures r.Done? ==>
                && fresh(r.network) && at < |old(networks)| && old(networks)[at].record.id == id
                && r.network.record == Wipe(old(networks)[at].record.(nick := nick, realname := realname))
                && networks == old(networks)[at := r.network] && renames == old(renames)
      ensures r.Refused? ==> networks == old(networks)
    {
      at := 0;
      var net := GetNetworkByID(id);
      if net == null {
        return Refused, at;
      }
      r, at := UpdateNetwork(net.record.(nick := nick, realname := realname), false, stored);
      if r.Done? {
        OneById(old(networks), net, old(networks)[at]);
      }
    }

    /** deleteNetwork: the network leaves the table and its clients are closed, and no others. */
    method DeleteNetwork(id: int, stored: bool) returns (ok: bool, ghost at: nat)
      requires Valid() && exists n <- networks :: n.record.id == id
      modifies this`networks, networks, downstreamConns
      ensures Valid() && ok == stored
      ensures !ok ==> networks == old(networks) && forall dc <- downstreamConns :: dc.closed == old(dc.closed)
      ensures ok ==>
                && at < |old(networks)| && old(networks)[at].record.id == id
                && networks == Drop(old(networks), at)
                && forall dc <- downstreamConns ::
                     dc.closed <==> old(dc.closed) || old(dc.network) == old(networks)[at]
      ensures forall dc <- downstreamConns :: dc.network == old(dc.network)
      ensures old(WithinQuota()) ==> WithinQuota()
    {
      at := 0;
      var network := GetNetworkByID(id);
      if !stored {
        return false, at;
      }
      ghost var ns := networks;
      at := RemoveNetwork(network);
      DropCount(ns, at);
      ok := true;
    }
  }

  lemma NewName(ns: seq<Network>, r: Record, id: int)
    requires Table(ns) && r.id == 0 && NameFree(ns, r) && forall n <- ns :: n.record.id != id
    ensures NewTo(ns, r.(id := id))
  {
    forall i | 0 <= i < |ns| ensures GetName(ns[i].record) != GetName(r) {
      assert Stored(ns, i) && ns[i] in ns;
    }
  }

  lemma OneById(ns: seq<Network>, a: Network, b: Network)
    requires Table(ns) && a in ns && b in ns && a.record.id == b.record.id
    ensures a == b
  {
    var i :| 0 <= i < |ns| && ns[i] == a;
    var j :| 0 <= j < |ns| && ns[j] == b;
    assert i < j ==> Apart(ns, i, j);
    assert j < i ==> Apart(ns, j, i);
  }

  // ----- Finding a network by its name -----

  predicate Answers(r: Record, name: string) {
    r.addr == name || (r.name != "" && r.name == name)
  }

  function Find(ns: seq<Network>, name: string): Network? {
    if ns == [] then null else if Answers(ns[0].record, name) then ns[0] else Find(ns[1..], name)
  }

  lemma {:induction false} FindFirst(ns: seq<Network>, name: string, i: nat)
    requires i < |ns| && Answers(ns[i].record, name)
    ensures Find(ns, name) == ns[i] || exists j :: 0 <= j < i && Answers(ns[j].record, name)
    ensures (forall j | 0 <= j < i :: !Answers(ns[j].record, name)) ==> Find(ns, name) == ns[i]
    ensures (exists j :: 0 <= j < i && Answers(ns[j].record, name)) ==> Find(ns, name) in ns[..i]
  {
    if i > 0 && !Answers(ns[0].record, name) {
      FindFirst(ns[1..], name, i - 1);
      forall j | 0 <= j < i ensures j > 0 ==> ns[j] == ns[1..][j - 1] {
      }
      assert forall n <- ns[1..][..i - 1] :: n in ns[..i];
    }
  }

  /** A network is found by the name it goes by exactly if none before it has that name for an address. */
  lemma FoundByNameIff(ns: seq<Network>, i: nat)
    requires Table(ns) && i < |ns|
    ensures Find(ns, GetName(ns[i].record)) == ns[i] <==>
            forall j | 0 <= j < i :: ns[j].record.addr != GetName(ns[i].record)
  {
    var name := GetName(ns[i].record);
    FindFirst(ns, name, i);
    forall j | 0 <= j < i
      ensures Answers(ns[j].record, name) <==> ns[j].record.addr == name
      ensures ns[j] != ns[i]
    {
      assert Apart(ns, j, i);
    }
  }

  // ----- Whole runs -----

  /** What clients and the service do to the table, and clients coming and going. */
  datatype Action =
    | Add(record: Record, ignoreLimit: bool, stored: bool)
    | Change(record: Record, ignoreLimit: bool, stored: bool)
    | Rename(id: int, nick: string, realname: string, stored: bool)
    | Remove(id: int, stored: bool)
    | Attach(id: int)
    | Hang(index: nat)

  /** An administrator told the service to ignore the limit. */
  predicate Forced(a: Action) {
    (a.Add? || a.Change?) && a.ignoreLimit
  }

  /** Some ID that is not in the table, as the database gives out. */
  method FreshId(ns: seq<Network>) returns (id: int)
    ensures id > 0 && forall n <- ns :: n.record.id != id
  {
    id := 1;
    for i := 0 to |ns|
      invariant id > 0 && forall n <- ns[..i] :: n.record.id < id
    {
      if ns[i].record.id >= id {
        id := ns[i].record.id + 1;
      }
    }
    assert ns[..|ns|] == ns;
  }

  method Act(u: User, action: Action)
    requires u.Valid()
    modifies u, set n | n in u.networks, set dc | dc in u.downstreamConns
    ensures u.Valid() && (old(u.WithinQuota()) && !Forced(action) ==> u.WithinQuota())
    ensures fresh((set n | n in u.networks) - old(set n | n in u.networks))
    ensures fresh((set dc | dc in u.downstreamConns) - old(set dc | dc in u.downstreamConns))
  {
    match action
    case Add(record, ignoreLimit, stored) =>
      var id := FreshId(u.networks);
      var r, _ := u.CreateNetwork(record.(id := 0), !ignoreLimit, if stored then Some(id) else None);
    case Change(record, ignoreLimit, stored) =>
      var r, _ := u.ChangeNetwork(record, ignoreLimit, stored);
    case Rename(id, nick, realname, stored) =>
      var r, _ := u.ChangeIdentity(id, nick, realname, stored);
    case Remove(id, stored) =>
      var net := u.GetNetworkByID(id);
      if net != null {
        var ok, _ := u.DeleteNetwork(id, stored);
      }
    case Attach(id) =>
      var net := u.GetNetworkByID(id);
      var dc := new DownstreamConn(net);
      u.downstreamConns := u.downstreamConns + [dc];
    case Hang(index) =>
      if index < |u.downstreamConns| {
        u.downstreamConns[index].Close();
      }
  }

  /** After any run the table is in order and its open clients are settled, and the quota holds unless overruled. */
  method Run(u: User, actions: seq<Action>)
    requires u.Valid()
    modifies u, set n | n in u.networks, set dc | dc in u.downstreamConns
    ensures u.Valid()
    ensures old(u.WithinQuota()) && (forall a <- actions :: !Forced(a)) ==> u.WithinQuota()
  {
    for i := 0 to |actions|
      invariant u.Valid() && (old(u.WithinQuota()) && (forall a <- actions[..i] :: !Forced(a)) ==> u.WithinQuota())
      invariant fresh((set n | n in u.networks) - old(set n | n in u.networks))
      invariant fresh((set dc | dc in u.downstreamConns) - old(set dc | dc in u.downstreamConns))
    {
      assert actions[..i + 1] == actions[..i] + [actions[i]];
      Act(u, actions[i]);
    }
    assert actions[..|actions|] == actions;
  }
}
