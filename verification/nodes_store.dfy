/** The topology store of a server: the set of member nodes, the listeners to
    tell about topology changes, the server names of this server's group, and
    a lookup from a node's `host:port` name to the configured server name.

    The configuration manager is an immutable value: the currently known
    server names, the per-server configuration (absent for a server the
    configuration cannot resolve) and the active group of this server. The
    listeners are opaque; a notification is the pair of listener and change.
    Operations are pure functions from store to store. */
module NodesStore {
  import opened Common
  import opened Text

  /** A cluster member. How the node derives its server node name is not part
      of this model; the name is carried as a field. */
  datatype Node = Node(host: string, port: Int32, groupPort: Int32, serverNodeName: string)

  /** An opaque registered `TopologyChangeListener`. */
  type ListenerId = nat

  /** `ReloadConfigChangeContext`: the nodes added and the nodes removed. */
  datatype Delta = Delta(added: set<Node>, removed: set<Node>)

  /** One delivered `listener.topologyChanged(context)` call. */
  datatype Notification = Notification(listener: ListenerId, delta: Delta)

  /** A configured port with the address it binds to. */
  datatype BindPort = BindPort(bind: string, value: Int32)

  /** The part of a server's `L2Config` the store reads. */
  datatype L2Config = L2Config(host: string, tsaPort: BindPort, tsaGroupPort: BindPort)

  /** The configuration manager: known server names, each server's config,
      and the group name of this server's active group (`None` for a null
      group config). */
  datatype ConfigManager = ConfigManager(knownServers: seq<string>, l2Configs: map<string, L2Config>, activeGroup: Option<string>)

  /** Why rebuilding the name lookup fails: no configuration manager (a null
      dereference), or a known server whose config cannot be read (the
      `ConfigurationSetupException` rethrown as a `RuntimeException`). */
  datatype StoreError = NullConfigManager | ConfigurationSetup(serverName: string)

  datatype Store = Store(
    nodes: set<Node>,
    listeners: seq<ListenerId>,
    groupNames: set<string>,
    serverNames: map<string, string>,
    config: Option<ConfigManager>)

  /** `TCSocketAddress.WILDCARD_IP`. */
  const WILDCARD_IP: string := "0.0.0.0"

  // ---------------------------------------------------------------------
  // Node names
  // ---------------------------------------------------------------------

  /** The address other servers reach this one at: the group port's bind
      address, unless that is the wildcard, in which case the configured
      host. */
  function AdvertisedHost(c: L2Config): (h: string)
    ensures c.tsaGroupPort.bind != WILDCARD_IP ==> h == c.tsaGroupPort.bind
    ensures c.tsaGroupPort.bind == WILDCARD_IP ==> h == c.host
  {
    if c.tsaGroupPort.bind == WILDCARD_IP then c.host else c.tsaGroupPort.bind
  }

  /** The lookup key of a server: `host:port`. */
  function NodeName(c: L2Config): string {
    AdvertisedHost(c) + ":" + IntToString(c.tsaPort.value)
  }

  /** A node name is the advertised host, the last colon, then the port in
      decimal; the host may itself contain colons. */
  lemma NodeNameParts(c: L2Config)
    ensures LastIndexOf(NodeName(c), ':') == |AdvertisedHost(c)|
    ensures NodeName(c)[..|AdvertisedHost(c)|] == AdvertisedHost(c)
    ensures NodeName(c)[|AdvertisedHost(c)| + 1..] == IntToString(c.tsaPort.value)
  {
    var h := AdvertisedHost(c);
    var p := IntToString(c.tsaPort.value);
    assert NodeName(c) == h + [':'] + p;
    LastIndexOfSeparator(h, ':', p);
  }

  /** Two configs share a node name only when they advertise the same host
      and the same port: the key loses nothing. */
  lemma NodeNameInjective(c1: L2Config, c2: L2Config)
    requires NodeName(c1) == NodeName(c2)
    ensures AdvertisedHost(c1) == AdvertisedHost(c2)
    ensures c1.tsaPort.value == c2.tsaPort.value
  {
    NodeNameParts(c1);
    NodeNameParts(c2);
    IntToStringInjective(c1.tsaPort.value, c2.tsaPort.value);
  }

  /** True when every server in `servers` has a configuration. */
  predicate AllConfigured(cfg: ConfigManager, servers: seq<string>) {
    forall i :: 0 <= i < |servers| ==> servers[i] in cfg.l2Configs
  }

  /** The node name of each server, in list order. */
  function NodeNames(cfg: ConfigManager, servers: seq<string>): (names: seq<string>)
    requires AllConfigured(cfg, servers)
    ensures |names| == |servers|
    ensures forall i :: 0 <= i < |servers| ==> names[i] == NodeName(cfg.l2Configs[servers[i]])
  {
    seq(|servers|, i requires 0 <= i < |servers| => NodeName(cfg.l2Configs[servers[i]]))
  }

  /** The first server of `servers` without a configuration, or -1. */
  function FirstUnconfigured(cfg: ConfigManager, servers: seq<string>): (i: int)
    ensures -1 <= i < |servers|
    ensures i == -1 <==> AllConfigured(cfg, servers)
    ensures i >= 0 ==> servers[i] !in cfg.l2Configs && AllConfigured(cfg, servers[..i])
  {
    if |servers| == 0 then -1
    else if servers[0] !in cfg.l2Configs then 0
    else
      var j := FirstUnconfigured(cfg, servers[1..]);
      if j == -1 then -1
      else
        assert servers[..j + 1] == [servers[0]] + servers[1..][..j];
        j + 1
  }

  /** `keys[i] := values[i]` put into an empty map for each `i` in order, so
      a later put overwrites an earlier one with the same key. */
  function PutAll<K(==), V>(keys: seq<K>, values: seq<V>): map<K, V>
    requires |keys| == |values|
    decreases |keys|
  {
    if |keys| == 0 then map[]
    else
      var n := |keys| - 1;
      PutAll(keys[..n], values[..n])[keys[n] := values[n]]
  }

  /** The puts give a map whose keys are exactly the keys put, each mapped to
      the value of its last put. */
  lemma {:induction false} PutAllLastWins<K, V>(keys: seq<K>, values: seq<V>)
    requires |keys| == |values|
    ensures forall k :: k in PutAll(keys, values) <==> k in keys
    ensures forall k | k in PutAll(keys, values) :: PutAll(keys, values)[k] == values[LastIndexOf(keys, k)]
    decreases |keys|
  {
    if |keys| > 0 {
      var n := |keys| - 1;
      var m0 := PutAll(keys[..n], values[..n]);
      var m := PutAll(keys, values);
      PutAllLastWins(keys[..n], values[..n]);
      assert keys == keys[..n] + [keys[n]];
      forall k
        ensures k in m <==> k in keys
      {
        assert k in keys <==> k in keys[..n] || k == keys[n];
      }
      forall k | k in m
        ensures m[k] == values[LastIndexOf(keys, k)]
      {
        if k != keys[n] {
          LastIndexOfInit(keys, k);
          assert m[k] == m0[k] == values[..n][LastIndexOf(keys[..n], k)];
        }
      }
    }
  }

  /** The loop of `initNodeNamesToServerNames` over `servers`: each server's
      node name put with its server name in list order, aborted by the first
      server without a config. */
  function ServerNameMap(cfg: ConfigManager, servers: seq<string>): (r: Result<map<string, string>, StoreError>)
    ensures r.Success? <==> AllConfigured(cfg, servers)
    ensures r.Failure? ==> r.error == ConfigurationSetup(servers[FirstUnconfigured(cfg, servers)])
    ensures r.Success? ==>
      && (forall k :: k in r.value <==> k in NodeNames(cfg, servers))
      && (forall k | k in r.value :: r.value[k] == servers[LastIndexOf(NodeNames(cfg, servers), k)])
  {
    var i := FirstUnconfigured(cfg, servers);
    if i >= 0 then Failure(ConfigurationSetup(servers[i]))
    else
      PutAllLastWins(NodeNames(cfg, servers), servers);
      Success(PutAll(NodeNames(cfg, servers), servers))
  }

  /** `initNodeNamesToServerNames`: the lookup built afresh from the current
      configuration, discarding the previous one. */
  function InitNodeNamesToServerNames(config: Option<ConfigManager>): (r: Result<map<string, string>, StoreError>)
    ensures config.None? ==> r == Failure(NullConfigManager)
  {
    if config.None? then Failure(NullConfigManager)
    else ServerNameMap(config.value, config.value.knownServers)
  }

  // ---------------------------------------------------------------------
  // Construction
  // ---------------------------------------------------------------------

  /** The test constructor: nodes only, no configuration manager. */
  function NewStoreForTests(nodes: set<Node>): (s: Store)
    ensures s.nodes == nodes && s.listeners == [] && s.config.None?
    ensures s.groupNames == {} && s.serverNames == map[]
  {
    Store(nodes, [], {}, map[], None)
  }

  /** The full constructor; it fails as the name lookup fails. */
  function NewStore(nodes: set<Node>, groupNames: set<string>, config: Option<ConfigManager>): (r: Result<Store, StoreError>)
    ensures r.Success? <==> InitNodeNamesToServerNames(config).Success?
    ensures r.Failure? ==> r.error == InitNodeNamesToServerNames(config).error
    ensures r.Success? ==>
      && r.value.nodes == nodes && r.value.groupNames == groupNames
      && r.value.listeners == [] && r.value.config == config
      && r.value.serverNames == InitNodeNamesToServerNames(config).value
  {
    match InitNodeNamesToServerNames(config)
    case Failure(e) => Failure(e)
    case Success(m) => Success(Store(nodes, [], groupNames, m, config))
  }

  // ---------------------------------------------------------------------
  // topologyChanged and registerForTopologyChange
  // ---------------------------------------------------------------------

  /** The store after a change, the calls made on listeners, and the error
      that ended the change early, if any. */
  datatype ChangeOutcome = ChangeOutcome(store: Store, notified: seq<Notification>, error: Option<StoreError>)

  /** One call per listener, in registration order. */
  function NotifyAll(listeners: seq<ListenerId>, d: Delta): (ns: seq<Notification>)
    ensures |ns| == |listeners|
    ensures forall i :: 0 <= i < |ns| ==> ns[i] == Notification(listeners[i], d)
  {
    seq(|listeners|, i requires 0 <= i < |listeners| => Notification(listeners[i], d))
  }

  /** Applies a topology change: adds the added nodes, then removes the
      removed ones, rebuilds the name lookup, then calls every listener. If
      the lookup cannot be rebuilt, the node set is already changed and no
      listener is called. The group names are not touched. */
  function TopologyChanged(s: Store, d: Delta): (r: ChangeOutcome)
    ensures forall n :: n in r.store.nodes <==> (n in s.nodes || n in d.added) && n !in d.removed
    ensures r.store.listeners == s.listeners && r.store.config == s.config
    ensures r.store.groupNames == s.groupNames
    ensures r.error.None? <==> InitNodeNamesToServerNames(s.config).Success?
    ensures r.error.None? ==>
      && r.store.serverNames == InitNodeNamesToServerNames(s.config).value
      && |r.notified| == |s.listeners|
      && forall i :: 0 <= i < |s.listeners| ==> r.notified[i] == Notification(s.listeners[i], d)
    ensures r.error.Some? ==>
      && r.error.value == InitNodeNamesToServerNames(s.config).error
      && r.store.serverNames == s.serverNames
      && r.notified == []
  {
    var nodes := (s.nodes + d.added) - d.removed;
    match InitNodeNamesToServerNames(s.config)
    case Failure(e) => ChangeOutcome(s.(nodes := nodes), [], Some(e))
    case Success(m) => ChangeOutcome(s.(nodes := nodes, serverNames := m), NotifyAll(s.listeners, d), None)
  }

  /** Adds a listener unless it is already registered (a set that keeps
      insertion order). */
  function RegisterForTopologyChange(s: Store, l: ListenerId): (r: Store)
    ensures l in r.listeners
    ensures l in s.listeners ==> r == s
    ensures l !in s.listeners ==> r.listeners == s.listeners + [l]
    ensures NoDuplicates(s.listeners) ==> NoDuplicates(r.listeners)
    ensures r.nodes == s.nodes && r.groupNames == s.groupNames
    ensures r.serverNames == s.serverNames && r.config == s.config
  {
    if l in s.listeners then s else s.(listeners := s.listeners + [l])
  }

  /** Registering the same listener twice is the same as registering it once. */
  lemma RegisterIsIdempotent(s: Store, l: ListenerId)
    ensures RegisterForTopologyChange(RegisterForTopologyChange(s, l), l) == RegisterForTopologyChange(s, l)
  {
  }

  /** With listeners registered through `RegisterForTopologyChange`, each is
      called exactly once per successful change. */
  lemma EachListenerNotifiedOnce(s: Store, d: Delta, l: ListenerId)
    requires NoDuplicates(s.listeners)
    requires TopologyChanged(s, d).error.None?
    ensures l in s.listeners ==> exists i :: 0 <= i < |s.listeners| && TopologyChanged(s, d).notified[i].listener == l
    ensures forall i, j ::
      0 <= i < j < |s.listeners| ==> TopologyChanged(s, d).notified[i].listener != TopologyChanged(s, d).notified[j].listener
  {
  }

  /** Adding a node that was not a member and then removing it gives back
      the original member set. */
  lemma {:induction false} AddThenRemoveRestoresNodes(s: Store, x: Node)
    requires x !in s.nodes
    ensures TopologyChanged(TopologyChanged(s, Delta({x}, {})).store, Delta({}, {x})).store.nodes == s.nodes
  {
    var after := TopologyChanged(TopologyChanged(s, Delta({x}, {})).store, Delta({}, {x})).store.nodes;
    assert forall n :: n in after <==> n in s.nodes;
  }

  /** A node both added and removed in one change ends up absent. */
  lemma AddedAndRemovedNodeIsAbsent(s: Store, d: Delta, x: Node)
    requires x in d.added && x in d.removed
    ensures x !in TopologyChanged(s, d).store.nodes
  {
  }

  /** A topology change never updates the group names: a newly added server
      is not reported as in the group or the cluster. */
  lemma TopologyChangeKeepsGroupNames(s: Store, x: Node)
    requires x.serverNodeName !in s.groupNames
    ensures !HasServerInGroup(TopologyChanged(s, Delta({x}, {})).store, x.serverNodeName)
    ensures !HasServerInCluster(TopologyChanged(s, Delta({x}, {})).store, x.serverNodeName)
  {
  }

  // ---------------------------------------------------------------------
  // Queries
  // ---------------------------------------------------------------------

  /** `getAllNodes`: the members as an array, in no particular order. */
  method GetAllNodes(s: Store) returns (nodes: seq<Node>)
    requires |s.nodes| > 0
    ensures |nodes| == |s.nodes|
    ensures forall n :: n in nodes <==> n in s.nodes
    ensures NoDuplicates(nodes)
  {
    nodes := [];
    var rest := s.nodes;
    while rest != {}
      invariant rest <= s.nodes
      invariant forall n :: n in nodes <==> n in s.nodes && n !in rest
      invariant NoDuplicates(nodes)
      invariant |nodes| + |rest| == |s.nodes|
      decreases |rest|
    {
      var n :| n in rest;
      nodes := nodes + [n];
      rest := rest - {n};
    }
  }

  /** The configured server name for a `host:port` node name, if any. */
  function GetServerNameFromNodeName(s: Store, nodeName: string): Option<string> {
    if nodeName in s.serverNames then Some(s.serverNames[nodeName]) else None
  }

  /** After the puts, the key of the `i`-th put maps to the value of a put
      with that key at or after `i`; to the `i`-th value when no later put
      has the same key. */
  lemma PutAllLookup<K, V>(keys: seq<K>, values: seq<V>, i: int)
    requires |keys| == |values| && 0 <= i < |keys|
    ensures keys[i] in PutAll(keys, values)
    ensures exists j :: i <= j < |keys| && keys[j] == keys[i] && PutAll(keys, values)[keys[i]] == values[j]
    ensures (forall j :: i < j < |keys| ==> keys[j] != keys[i]) ==> PutAll(keys, values)[keys[i]] == values[i]
  {
    PutAllLastWins(keys, values);
    assert keys[i] in keys;
    var last := LastIndexOf(keys, keys[i]);
    assert i <= last;
  }

  /** After a successful change, looking up a known server's node name gives
      a known server with that node name: the last such one in the list, so
      the server itself when node names are distinct. */
  lemma ServerNameOfKnownServer(s: Store, d: Delta, i: int)
    requires s.config.Some? && AllConfigured(s.config.value, s.config.value.knownServers)
    requires 0 <= i < |s.config.value.knownServers|
    ensures
      var servers := s.config.value.knownServers;
      var names := NodeNames(s.config.value, servers);
      var found := GetServerNameFromNodeName(TopologyChanged(s, d).store, names[i]);
      && found.Some?
      && (exists j :: i <= j < |servers| && names[j] == names[i] && found.value == servers[j])
      && ((forall j :: i < j < |servers| ==> names[j] != names[i]) ==> found == Some(servers[i]))
  {
    var cfg := s.config.value;
    var names := NodeNames(cfg, cfg.knownServers);
    assert TopologyChanged(s, d).store.serverNames == PutAll(names, cfg.knownServers);
    PutAllLookup(names, cfg.knownServers, i);
  }

  function HasServerInGroup(s: Store, serverName: string): bool {
    serverName in s.groupNames
  }

  /** After `updateServerNames`, the group query answers yes exactly for a
      name that was in the group or belongs to an added node, and belongs to
      no removed node. */
  lemma GroupQueryAfterUpdate(s: Store, d: Delta, name: string)
    ensures HasServerInGroup(UpdateServerNames(s, d), name) <==>
      && (HasServerInGroup(s, name) || name in NamesOf(d.added))
      && name !in NamesOf(d.removed)
  {
  }

  /** Tests the group names, the same set `HasServerInGroup` tests. */
  function HasServerInCluster(s: Store, name: string): (r: bool)
    ensures r == HasServerInGroup(s, name)
  {
    name in s.groupNames
  }

  function NamesOf(nodes: set<Node>): set<string> {
    set n | n in nodes :: n.serverNodeName
  }

  /** `updateServerNames`: adds the names of the added nodes, then removes
      the names of the removed ones; nothing else changes. */
  function UpdateServerNames(s: Store, d: Delta): (r: Store)
    ensures forall name :: name in r.groupNames <==>
      && (name in s.groupNames || exists n :: n in d.added && n.serverNodeName == name)
      && !(exists n :: n in d.removed && n.serverNodeName == name)
    ensures r.nodes == s.nodes && r.listeners == s.listeners
    ensures r.serverNames == s.serverNames && r.config == s.config
  {
    s.(groupNames := (s.groupNames + NamesOf(d.added)) - NamesOf(d.removed))
  }

  /** The group name of this server's active group, whatever node is asked
      about; `None` without a configuration manager or a group config. */
  function GetGroupNameFromNodeName(s: Store, nodeName: string): (r: Option<string>)
    ensures r.Some? <==> s.config.Some? && s.config.value.activeGroup.Some?
    ensures r.Some? ==> r.value == s.config.value.activeGroup.value
  {
    if s.config.None? then None
    else if s.config.value.activeGroup.None? then None
    else Some(s.config.value.activeGroup.value)
  }

  /** The answer does not depend on the node name asked about. */
  lemma GroupNameIgnoresNodeName(s: Store, a: string, b: string)
    ensures GetGroupNameFromNodeName(s, a) == GetGroupNameFromNodeName(s, b)
  {
  }
}
