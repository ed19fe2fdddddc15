/**
 From a terse cluster config to endpoint tables: configparser.rs, parsedconfig.rs and the key-value
 part of componentconfigs.rs (all under sdk/couchbase-core/src).
 */
module ClusterConfig {
  import opened Wrappers
  import opened Common
  import opened Decimal
  import opened Routing
  import EndpointPools

  type Target = EndpointPools.Target

  // ---------------------------------------------------------------- terse config

  datatype TersePorts = TersePorts(kv: Option<nat>, mgmt: Option<nat>, kvSsl: Option<nat>, mgmtSsl: Option<nat>)

  const NoPorts: TersePorts := TersePorts(None, None, None, None)

  datatype TerseAltAddress = TerseAltAddress(ports: TersePorts, hostname: Option<string>)

  datatype TerseNodeExt = TerseNodeExt(
    services: Option<TersePorts>, hostname: Option<string>, alternateAddresses: map<string, TerseAltAddress>)

  datatype TerseVbucketMap = TerseVbucketMap(numReplicas: nat, vbucketMap: seq<seq<int>>)

  /** Of the legacy node list only the length is used. */
  datatype TerseConfig = TerseConfig(
    rev: int, revEpoch: Option<int>, name: Option<string>, nodeLocator: Option<string>,
    vbucketServerMap: Option<TerseVbucketMap>, nodes: Option<seq<string>>, nodesExt: seq<TerseNodeExt>)

  // ---------------------------------------------------------------- parsed config

  datatype Ports = Ports(kv: Option<nat>, mgmt: Option<nat>)

  datatype Addresses = Addresses(hostname: string, nonSsl: Ports, ssl: Ports)

  datatype Node = Node(hasData: bool, addresses: Addresses, altAddresses: map<string, Addresses>)

  datatype BucketType = Invalid | Couchbase

  datatype Bucket = Bucket(name: string, bucketType: BucketType, vbucketMap: Option<VbucketMap>)

  datatype ParsedConfig = ParsedConfig(revEpoch: int, revId: int, bucket: Option<Bucket>, nodes: seq<Node>)

  datatype ConfigError = EmptyVbucketMap

  function ParseHostname(hostname: Option<string>, source: string): string {
    match hostname
    case None => source
    case Some(h) => if ':' in h then "[" + h + "]" else h
  }

  function ParseHosts(hostname: string, ports: TersePorts): Addresses {
    Addresses(hostname, Ports(ports.kv, ports.mgmt), Ports(ports.kvSsl, ports.mgmtSsl))
  }

  function DataNodes(config: TerseConfig): nat {
    match config.nodes case None => 0 case Some(ns) => |ns|
  }

  function ParseAlt(node: TerseNodeExt, hostname: string): map<string, Addresses> {
    map network | network in node.alternateAddresses ::
      var alt := node.alternateAddresses[network];
      ParseHosts(ParseHostname(alt.hostname, hostname), alt.ports)
  }

  function ParseNode(node: TerseNodeExt, hasData: bool, source: string): Node {
    var hostname := ParseHostname(node.hostname, source);
    var services := match node.services case None => NoPorts case Some(p) => p;
    Node(hasData, ParseHosts(hostname, services), ParseAlt(node, hostname))
  }

  function ParseNodes(config: TerseConfig, source: string): (nodes: seq<Node>)
    ensures |nodes| == |config.nodesExt|
  {
    seq(|config.nodesExt|, i requires 0 <= i < |config.nodesExt| =>
      ParseNode(config.nodesExt[i], i < DataNodes(config), source))
  }

  function ParseVbucketMap(m: Option<TerseVbucketMap>): Result<Option<VbucketMap>, ConfigError> {
    match m
    case None => Ok(None)
    case Some(t) =>
      if t.vbucketMap == [] then Err(EmptyVbucketMap) else Ok(Some(VbucketMap(t.vbucketMap, t.numReplicas)))
  }

  function ParseBucket(config: TerseConfig): Result<Option<Bucket>, ConfigError> {
    match config.name
    case None => Ok(None)
    case Some(name) =>
      if config.nodeLocator == Some("vbucket") then
        match ParseVbucketMap(config.vbucketServerMap)
        case Err(e) => Err(e)
        case Ok(m) => Ok(Some(Bucket(name, Couchbase, m)))
      else Ok(Some(Bucket(name, Invalid, None)))
  }

  function ParseTerse(config: TerseConfig, source: string): Result<ParsedConfig, ConfigError> {
    match ParseBucket(config)
    case Err(e) => Err(e)
    case Ok(bucket) =>
      var epoch := match config.revEpoch case None => 0 case Some(n) => n;
      Ok(ParsedConfig(epoch, config.rev, bucket, ParseNodes(config, source)))
  }

  /** The nested loops of parse_terse_config. */
  method ParseTerseConfig(config: TerseConfig, source: string) returns (r: Result<ParsedConfig, ConfigError>)
    ensures r == ParseTerse(config, source)
  {
    var nodes := [];
    for i := 0 to |config.nodesExt|
      invariant nodes == ParseNodes(config, source)[..i]
    {
      var node := config.nodesExt[i];
      var hostname := ParseHostname(node.hostname, source);
      var alt: map<string, Addresses> := map[];
      var todo := node.alternateAddresses.Keys;
      while todo != {}
        invariant todo <= node.alternateAddresses.Keys
        invariant alt == map n | n in node.alternateAddresses && n !in todo :: ParseAlt(node, hostname)[n]
      {
        var network :| network in todo;
        todo := todo - {network};
        var address := node.alternateAddresses[network];
        alt := alt[network := ParseHosts(ParseHostname(address.hostname, hostname), address.ports)];
      }
      assert alt == ParseAlt(node, hostname);
      var services := match node.services case None => NoPorts case Some(p) => p;
      nodes := nodes + [Node(i < DataNodes(config), ParseHosts(hostname, services), alt)];
    }
    assert nodes == ParseNodes(config, source);
    var bucket := ParseBucket(config);
    if bucket.Err? {
      return Err(bucket.error);
    }
    var epoch := match config.revEpoch case None => 0 case Some(n) => n;
    r := Ok(ParsedConfig(epoch, config.rev, bucket.value, nodes));
  }

  // ---------------------------------------------------------------- addresses of one network

  datatype NetworkNode = NetworkNode(nodeId: string, hostname: string, hasData: bool, nonSsl: Ports, ssl: Ports)

  function NodeId(hostname: string, mgmt: nat): string {
    "ep-" + hostname + "-" + Print(mgmt)
  }

  /** The unwrap of the management port must not fail. */
  predicate HasMgmtPorts(nodes: seq<Node>) {
    forall i :: 0 <= i < |nodes| ==> nodes[i].addresses.nonSsl.mgmt.Some?
  }

  function NetworkNodeOf(node: Node, network: string): NetworkNode
    requires node.addresses.nonSsl.mgmt.Some?
  {
    var id := NodeId(node.addresses.hostname, node.addresses.nonSsl.mgmt.value);
    if network == "default" then
      NetworkNode(id, node.addresses.hostname, node.hasData, node.addresses.nonSsl, node.addresses.ssl)
    else if network in node.altAddresses then
      var alt := node.altAddresses[network];
      NetworkNode(id, alt.hostname, node.hasData, alt.nonSsl, alt.ssl)
    else
      NetworkNode(id, "", node.hasData, Ports(None, None), Ports(None, None))
  }

  function NetworkNodes(nodes: seq<Node>, network: string): (r: seq<NetworkNode>)
    requires HasMgmtPorts(nodes)
    ensures |r| == |nodes|
  {
    seq(|nodes|, i requires 0 <= i < |nodes| => NetworkNodeOf(nodes[i], network))
  }

  /** addresses_group_for_network_type; None is the panic of the unwrap. */
  method AddressesGroup(nodes: seq<Node>, network: string) returns (r: Option<seq<NetworkNode>>)
    ensures r.Some? <==> HasMgmtPorts(nodes)
    ensures r.Some? ==> r.value == NetworkNodes(nodes, network)
  {
    var out: seq<NetworkNode> := [];
    for i := 0 to |nodes|
      invariant HasMgmtPorts(nodes[..i])
      invariant out == NetworkNodes(nodes[..i], network)
    {
      if nodes[i].addresses.nonSsl.mgmt.None? {
        return None;
      }
      out := out + [NetworkNodeOf(nodes[i], network)];
    }
    assert nodes[..|nodes|] == nodes;
    r := Some(out);
  }

  // ---------------------------------------------------------------- component configs

  datatype ComponentConfigs = ComponentConfigs(
    kvTargets: map<Endpoint, Target>, routing: RoutingInfo, watcherEndpoints: seq<Endpoint>)

  function KvEndpoint(node: NetworkNode): Endpoint {
    "kv" + node.nodeId
  }

  function KvPort(node: NetworkNode, tls: bool): Option<nat> {
    if tls then node.ssl.kv else node.nonSsl.kv
  }

  /** The endpoints of the data nodes, in order. */
  function ServerList(nodes: seq<NetworkNode>): seq<Endpoint> {
    if nodes == [] then []
    else
      var n := |nodes| - 1;
      ServerList(nodes[..n]) + if nodes[n].hasData then [KvEndpoint(nodes[n])] else []
  }

  function TargetOf(node: NetworkNode, tls: bool): Target
    requires KvPort(node, tls).Some?
  {
    EndpointPools.Target(node.hostname, KvPort(node, tls).value, tls)
  }

  /** The targets of the nodes that have a key-value port in the mode in use. */
  function KvTargets(nodes: seq<NetworkNode>, tls: bool): map<Endpoint, Target> {
    if nodes == [] then map[]
    else
      var n := |nodes| - 1;
      var before := KvTargets(nodes[..n], tls);
      match KvPort(nodes[n], tls)
      case None => before
      case Some(_) => before[KvEndpoint(nodes[n]) := TargetOf(nodes[n], tls)]
  }

  function WatcherEndpoints(nodes: seq<NetworkNode>): seq<Endpoint> {
    seq(|nodes|, i requires 0 <= i < |nodes| => KvEndpoint(nodes[i]))
  }

  function RoutingOf(config: ParsedConfig, serverList: seq<Endpoint>): RoutingInfo {
    match config.bucket
    case Some(b) => RoutingInfo(b.vbucketMap, serverList, true)
    case None => RoutingInfo(None, serverList, false)
  }

  function Generated(config: ParsedConfig, network: string, tls: bool): ComponentConfigs
    requires HasMgmtPorts(config.nodes)
  {
    var nodes := NetworkNodes(config.nodes, network);
    ComponentConfigs(KvTargets(nodes, tls), RoutingOf(config, ServerList(nodes)), WatcherEndpoints(nodes))
  }

  /** gen_from_config: one loop over the nodes of the network fills all tables. */
  method GenFromConfig(config: ParsedConfig, network: string, tls: bool) returns (r: Option<ComponentConfigs>)
    ensures r.Some? <==> HasMgmtPorts(config.nodes)
    ensures r.Some? ==> r.value == Generated(config, network, tls)
  {
    var group := AddressesGroup(config.nodes, network);
    if group.None? {
      return None;
    }
    var watcherEndpoints, serverList, kvTargets := FillTables(group.value, tls);
    r := Some(ComponentConfigs(kvTargets, RoutingOf(config, serverList), watcherEndpoints));
  }

  method FillTables(nodes: seq<NetworkNode>, tls: bool)
    returns (watcherEndpoints: seq<Endpoint>, serverList: seq<Endpoint>, kvTargets: map<Endpoint, Target>)
    ensures watcherEndpoints == WatcherEndpoints(nodes)
    ensures serverList == ServerList(nodes)
    ensures kvTargets == KvTargets(nodes, tls)
  {
    watcherEndpoints, serverList, kvTargets := [], [], map[];
    for i := 0 to |nodes|
      invariant watcherEndpoints == WatcherEndpoints(nodes[..i])
      invariant serverList == ServerList(nodes[..i])
      invariant kvTargets == KvTargets(nodes[..i], tls)
    {
      var node, endpoint := nodes[i], KvEndpoint(nodes[i]);
      TablesOfLonger(nodes, i, tls);
      watcherEndpoints := watcherEndpoints + [endpoint];
      if node.hasData {
        serverList := serverList + [endpoint];
      }
      var port := KvPort(node, tls);
      if port.Some? {
        kvTargets := kvTargets[endpoint := EndpointPools.Target(node.hostname, port.value, tls)];
      }
    }
    assert nodes[..|nodes|] == nodes;
  }

  lemma TablesOfLonger(nodes: seq<NetworkNode>, i: nat, tls: bool)
    requires i < |nodes|
    ensures WatcherEndpoints(nodes[..i + 1]) == WatcherEndpoints(nodes[..i]) + [KvEndpoint(nodes[i])]
    ensures ServerList(nodes[..i + 1]) ==
            ServerList(nodes[..i]) + if nodes[i].hasData then [KvEndpoint(nodes[i])] else []
    ensures KvTargets(nodes[..i + 1], tls) ==
            match KvPort(nodes[i], tls)
            case None => KvTargets(nodes[..i], tls)
            case Some(_) => KvTargets(nodes[..i], tls)[KvEndpoint(nodes[i]) := TargetOf(nodes[i], tls)]
  {
    assert nodes[..i + 1][..i] == nodes[..i];
  }

  // ---------------------------------------------------------------- endpoint identifiers

  /** Where a node's host name ends: a printed port has no dash in it. */
  lemma DashUnique(h1: string, p1: string, h2: string, p2: string)
    requires AllDigits(p1) && AllDigits(p2)
    requires h1 + "-" + p1 == h2 + "-" + p2
    ensures h1 == h2 && p1 == p2
  {
    var s := h1 + "-" + p1;
    assert s[|h1|] == '-' && forall i :: |h1| < i < |s| ==> s[i] == p1[i - |h1| - 1];
    assert s[|h2|] == '-' && forall i :: |h2| < i < |s| ==> s[i] == p2[i - |h2| - 1];
    assert |h1| == |h2|;
    assert h1 == s[..|h1|] && h2 == s[..|h2|];
    assert p1 == s[|h1| + 1..] && p2 == s[|h2| + 1..];
  }

  /** Distinct nodes have distinct endpoints, so no table entry overwrites another node's. */
  lemma EndpointIdentifiesNode(h1: string, m1: nat, h2: string, m2: nat)
    requires NodeId(h1, m1) == NodeId(h2, m2)
    ensures h1 == h2 && m1 == m2
  {
    var n1, n2 := NodeId(h1, m1), NodeId(h2, m2);
    assert n1[3..] == h1 + "-" + Print(m1);
    assert n2[3..] == h2 + "-" + Print(m2);
    DashUnique(h1, Print(m1), h2, Print(m2));
    PrintInjective(m1, m2);
  }

  // ---------------------------------------------------------------- the server list and the targets

  /** If the data nodes are the first `k` nodes then the server list is their endpoints, position by position. */
  lemma {:induction false} ServerListOfPrefix(nodes: seq<NetworkNode>, k: nat)
    requires forall i :: 0 <= i < |nodes| ==> (nodes[i].hasData <==> i < k)
    ensures |ServerList(nodes)| == if k < |nodes| then k else |nodes|
    ensures forall j :: 0 <= j < |ServerList(nodes)| ==> ServerList(nodes)[j] == KvEndpoint(nodes[j])
  {
    if nodes != [] {
      ServerListOfPrefix(nodes[..|nodes| - 1], k);
    }
  }

  /** Node i is the last one with this endpoint that has a key-value port in the mode in use. */
  ghost predicate LastWithPort(nodes: seq<NetworkNode>, tls: bool, e: Endpoint, i: nat) {
    && i < |nodes| && KvPort(nodes[i], tls).Some? && KvEndpoint(nodes[i]) == e
    && forall j :: i < j < |nodes| && KvEndpoint(nodes[j]) == e ==> KvPort(nodes[j], tls).None?
  }

  /** Node i gives this endpoint this target. */
  ghost predicate GivesTarget(nodes: seq<NetworkNode>, tls: bool, e: Endpoint, t: Target, i: nat) {
    LastWithPort(nodes, tls, e, i) && t == TargetOf(nodes[i], tls)
  }

  predicate HasTarget(targets: map<Endpoint, Target>, e: Endpoint, t: Target) {
    e in targets && targets[e] == t
  }

  /** An endpoint has a target exactly if a node with it has a port, and then the host and port of the last one. */
  lemma {:induction false} TargetsExactly(nodes: seq<NetworkNode>, tls: bool, e: Endpoint, t: Target)
    ensures HasTarget(KvTargets(nodes, tls), e, t) <==> exists i: nat :: GivesTarget(nodes, tls, e, t, i)
  {
    if nodes != [] {
      var n := |nodes| - 1;
      TargetsExactly(nodes[..n], tls, e, t);
      if KvEndpoint(nodes[n]) == e && KvPort(nodes[n], tls).Some? {
        assert LastWithPort(nodes, tls, e, n);
        assert t == TargetOf(nodes[n], tls) ==> GivesTarget(nodes, tls, e, t, n);
      } else {
        forall i: nat
          ensures GivesTarget(nodes, tls, e, t, i) <==> GivesTarget(nodes[..n], tls, e, t, i)
        {
          LastOfPrefix(nodes, tls, e, i);
        }
      }
    }
  }

  lemma LastOfPrefix(nodes: seq<NetworkNode>, tls: bool, e: Endpoint, i: nat)
    requires nodes != []
    requires KvEndpoint(nodes[|nodes| - 1]) != e || KvPort(nodes[|nodes| - 1], tls).None?
    ensures LastWithPort(nodes, tls, e, i) <==> LastWithPort(nodes[..|nodes| - 1], tls, e, i)
  {
    var n := |nodes| - 1;
    assert forall j :: 0 <= j < n ==> nodes[..n][j] == nodes[j];
  }

  lemma {:induction false} TargetsHaveKeys(nodes: seq<NetworkNode>, tls: bool)
    ensures forall e :: e in KvTargets(nodes, tls) <==>
              exists i :: 0 <= i < |nodes| && KvPort(nodes[i], tls).Some? && KvEndpoint(nodes[i]) == e
  {
    if nodes != [] {
      var n := |nodes| - 1;
      TargetsHaveKeys(nodes[..n], tls);
      forall e | e in KvTargets(nodes, tls)
        ensures exists i :: 0 <= i < |nodes| && KvPort(nodes[i], tls).Some? && KvEndpoint(nodes[i]) == e
      {
        if e in KvTargets(nodes[..n], tls) {
          var i :| 0 <= i < n && KvPort(nodes[..n][i], tls).Some? && KvEndpoint(nodes[..n][i]) == e;
          assert KvEndpoint(nodes[i]) == e;
        }
      }
      forall i | 0 <= i < |nodes| && KvPort(nodes[i], tls).Some?
        ensures KvEndpoint(nodes[i]) in KvTargets(nodes, tls)
      {
        if i < n {
          assert KvEndpoint(nodes[..n][i]) in KvTargets(nodes[..n], tls);
        }
      }
    }
  }

  lemma {:induction false} ServerListMembers(nodes: seq<NetworkNode>)
    ensures forall e :: e in ServerList(nodes) <==>
              exists i :: 0 <= i < |nodes| && nodes[i].hasData && KvEndpoint(nodes[i]) == e
  {
    if nodes != [] {
      var n := |nodes| - 1;
      ServerListMembers(nodes[..n]);
      forall e | e in ServerList(nodes)
        ensures exists i :: 0 <= i < |nodes| && nodes[i].hasData && KvEndpoint(nodes[i]) == e
      {
        if e in ServerList(nodes[..n]) {
          var i :| 0 <= i < n && nodes[..n][i].hasData && KvEndpoint(nodes[..n][i]) == e;
          assert KvEndpoint(nodes[i]) == e;
        }
      }
      forall i | 0 <= i < |nodes| && nodes[i].hasData
        ensures KvEndpoint(nodes[i]) in ServerList(nodes)
      {
        if i < n {
          assert KvEndpoint(nodes[..n][i]) in ServerList(nodes[..n]);
        }
      }
    }
  }

  /** Can operations be routed to every endpoint the router may name? */
  predicate Routable(c: ComponentConfigs) {
    forall e :: e in c.routing.serverList ==> e in c.kvTargets
  }

  /**
   Every data node is reached through some node entry with its endpoint that has a key-value port in the mode
   in use.
   */
  ghost predicate DataNodesHaveKvPorts(nodes: seq<NetworkNode>, tls: bool) {
    forall i :: 0 <= i < |nodes| && nodes[i].hasData ==>
      exists k :: 0 <= k < |nodes| && KvPort(nodes[k], tls).Some? && KvEndpoint(nodes[k]) == KvEndpoint(nodes[i])
  }

  /** The exact condition under which the generated tables are routable. */
  lemma RoutableIffDataNodesHaveKvPorts(config: ParsedConfig, network: string, tls: bool)
    requires HasMgmtPorts(config.nodes)
    ensures Routable(Generated(config, network, tls)) <==>
            DataNodesHaveKvPorts(NetworkNodes(config.nodes, network), tls)
  {
    var nodes := NetworkNodes(config.nodes, network);
    var c := Generated(config, network, tls);
    ServerListMembers(nodes);
    TargetsHaveKeys(nodes, tls);
    assert c.routing.serverList == ServerList(nodes) && c.kvTargets == KvTargets(nodes, tls);
    if Routable(c) {
      forall i | 0 <= i < |nodes| && nodes[i].hasData
        ensures exists k ::
                  0 <= k < |nodes| && KvPort(nodes[k], tls).Some? && KvEndpoint(nodes[k]) == KvEndpoint(nodes[i])
      {
        assert KvEndpoint(nodes[i]) in ServerList(nodes);
      }
    }
  }

  /** No two nodes have the same host name and management port. */
  predicate DistinctNodes(nodes: seq<Node>)
    requires HasMgmtPorts(nodes)
  {
    forall i, j :: 0 <= i < j < |nodes| ==>
      nodes[i].addresses.hostname != nodes[j].addresses.hostname
      || nodes[i].addresses.nonSsl.mgmt.value != nodes[j].addresses.nonSsl.mgmt.value
  }

  /** Distinct nodes have distinct endpoints. */
  lemma DistinctEndpoints(nodes: seq<Node>, network: string, i: nat, j: nat)
    requires HasMgmtPorts(nodes) && DistinctNodes(nodes) && i < |nodes| && j < |nodes|
    requires KvEndpoint(NetworkNodes(nodes, network)[i]) == KvEndpoint(NetworkNodes(nodes, network)[j])
    ensures i == j
  {
    var a, b := nodes[i].addresses, nodes[j].addresses;
    var e := KvEndpoint(NetworkNodes(nodes, network)[i]);
    assert e[2..] == NodeId(a.hostname, a.nonSsl.mgmt.value) == NodeId(b.hostname, b.nonSsl.mgmt.value);
    EndpointIdentifiesNode(a.hostname, a.nonSsl.mgmt.value, b.hostname, b.nonSsl.mgmt.value);
  }

  ghost predicate EachDataNodeHasKvPort(nodes: seq<NetworkNode>, tls: bool) {
    forall i :: 0 <= i < |nodes| && nodes[i].hasData ==> KvPort(nodes[i], tls).Some?
  }

  /** For distinct nodes: the tables are routable exactly if each data node has a key-value port itself. */
  lemma RoutableIffEachDataNodeHasKvPort(config: ParsedConfig, network: string, tls: bool)
    requires HasMgmtPorts(config.nodes) && DistinctNodes(config.nodes)
    ensures Routable(Generated(config, network, tls)) <==>
            EachDataNodeHasKvPort(NetworkNodes(config.nodes, network), tls)
  {
    RoutableIffDataNodesHaveKvPorts(config, network, tls);
    var nodes := NetworkNodes(config.nodes, network);
    forall i, k | 0 <= i < |nodes| && 0 <= k < |nodes| && KvEndpoint(nodes[k]) == KvEndpoint(nodes[i])
      ensures i == k
    {
      DistinctEndpoints(config.nodes, network, i, k);
    }
  }

  // ---------------------------------------------------------------- end to end

  /** The identifier of the j-th entry of the terse config's node list. */
  function TerseEndpoint(config: TerseConfig, source: string, j: nat): Endpoint
    requires j < |config.nodesExt|
    requires HasMgmtPorts(ParseNodes(config, source))
  {
    var node := ParseNodes(config, source)[j];
    "kv" + NodeId(node.addresses.hostname, node.addresses.nonSsl.mgmt.value)
  }

  function Min(a: nat, b: nat): nat {
    if a < b then a else b
  }

  lemma ServerListOfTerse(config: TerseConfig, source: string, network: string)
    requires HasMgmtPorts(ParseNodes(config, source))
    ensures var servers := ServerList(NetworkNodes(ParseNodes(config, source), network));
            && |servers| == Min(DataNodes(config), |config.nodesExt|)
            && forall j :: 0 <= j < |servers| ==> servers[j] == TerseEndpoint(config, source, j)
  {
    ServerListOfPrefix(NetworkNodes(ParseNodes(config, source), network), DataNodes(config));
  }

  /**
   End-to-end routing, for every terse config that parses and whose nodes have management ports: a key
   is dispatched exactly when its map entry is the index of a data node, and then to that node, on
   every network and with or without TLS; an InvalidVbucket error never arises.
   */
  lemma EndToEndRouting(
    config: TerseConfig, source: string, network: string, tls: bool,
    hash: Hash, key: seq<Byte>, serverIndex: nat, e: Endpoint, vb: nat)
    requires ParseTerse(config, source).Ok? && HasMgmtPorts(ParseNodes(config, source))
    ensures var parsed := ParseTerse(config, source).value;
            var info := Generated(parsed, network, tls).routing;
            var r := DispatchByKey(info, hash, key, serverIndex);
            && (r == Ok((e, vb)) <==>
                && config.name.Some? && config.nodeLocator == Some("vbucket") && config.vbucketServerMap.Some?
                && var t := config.vbucketServerMap.value;
                   exists j ::
                     && Names(VbucketMap(t.vbucketMap, t.numReplicas), hash, key, serverIndex, vb, j)
                     && 0 <= j < Min(DataNodes(config), |config.nodesExt|) && TerseEndpoint(config, source, j) == e)
            && (r.Err? ==> !r.error.InvalidVbucket?)
  {
    var parsed := ParseTerse(config, source).value;
    var info := Generated(parsed, network, tls).routing;
    ServerListOfTerse(config, source, network);
    DispatchExactly(info, hash, key, serverIndex, e, vb);
  }

  /** The routing table does not depend on the network or on TLS. */
  lemma RoutingIsNetworkIndependent(config: TerseConfig, source: string, n1: string, n2: string, tls1: bool, tls2: bool)
    requires ParseTerse(config, source).Ok? && HasMgmtPorts(ParseNodes(config, source))
    ensures var parsed := ParseTerse(config, source).value;
            Generated(parsed, n1, tls1).routing == Generated(parsed, n2, tls2).routing
  {
    ServerListOfTerse(config, source, n1);
    ServerListOfTerse(config, source, n2);
    var nodes := ParseNodes(config, source);
    assert ServerList(NetworkNodes(nodes, n1)) == ServerList(NetworkNodes(nodes, n2));
  }

  // ---------------------------------------------------------------- in terms of the terse config

  /** The host name to use: the given one, in brackets if it holds a colon, or the fallback. */
  ghost predicate IsHost(host: string, given: Option<string>, fallback: string) {
    && (given.None? ==> host == fallback)
    && (given.Some? && ':' !in given.value ==> host == given.value)
    && (given.Some? && ':' in given.value ==> host == "[" + given.value + "]")
  }

  /** What a node shows on a network: nothing, or a host name and its ports. */
  ghost predicate Shows(node: TerseNodeExt, source: string, network: string, host: string, ports: Option<TersePorts>) {
    if network == "default" then IsHost(host, node.hostname, source) && ports == node.services
    else if network in node.alternateAddresses then
      var alt := node.alternateAddresses[network];
      ports == Some(alt.ports) && exists own :: IsHost(own, node.hostname, source) && IsHost(host, alt.hostname, own)
    else ports == None
  }

  /** Every node has a management port exactly if each entry lists services with one. */
  lemma MgmtPortsOfTerse(config: TerseConfig, source: string)
    ensures HasMgmtPorts(ParseNodes(config, source)) <==>
            forall i :: 0 <= i < |config.nodesExt| ==>
              config.nodesExt[i].services.Some? && config.nodesExt[i].services.value.mgmt.Some?
  {
    var nodes := ParseNodes(config, source);
    forall i | 0 <= i < |config.nodesExt|
      ensures nodes[i].addresses.nonSsl.mgmt.Some? <==>
              config.nodesExt[i].services.Some? && config.nodesExt[i].services.value.mgmt.Some?
    {
    }
  }

  /** An endpoint is spelled from the entry's own host name and its management port, whatever the network. */
  lemma EndpointSpelled(config: TerseConfig, source: string, j: nat, host: string)
    requires j < |config.nodesExt| && HasMgmtPorts(ParseNodes(config, source))
    requires IsHost(host, config.nodesExt[j].hostname, source)
    ensures config.nodesExt[j].services.Some? && config.nodesExt[j].services.value.mgmt.Some?
    ensures TerseEndpoint(config, source, j) ==
            "kvep-" + host + "-" + Print(config.nodesExt[j].services.value.mgmt.value)
  {
    MgmtPortsOfTerse(config, source);
    var mgmt := config.nodesExt[j].services.value.mgmt.value;
    assert ParseNodes(config, source)[j].addresses.hostname == host;
    assert "kv" + ("ep-" + host + "-" + Print(mgmt)) == "kvep-" + host + "-" + Print(mgmt);
  }

  /** As many servers as there are legacy nodes, if there are that many entries. */
  lemma ServersCounted(config: TerseConfig, source: string, network: string)
    requires HasMgmtPorts(ParseNodes(config, source))
    ensures |ServerList(NetworkNodes(ParseNodes(config, source), network))| ==
            if config.nodes.None? then 0
            else if |config.nodes.value| < |config.nodesExt| then |config.nodes.value| else |config.nodesExt|
  {
    ServerListOfTerse(config, source, network);
  }

  lemma ShownNode(config: TerseConfig, source: string, network: string, j: nat, host: string, ports: Option<TersePorts>)
    requires j < |config.nodesExt| && HasMgmtPorts(ParseNodes(config, source))
    requires Shows(config.nodesExt[j], source, network, host, ports)
    ensures var node := NetworkNodes(ParseNodes(config, source), network)[j];
            && node.nonSsl == (if ports.Some? then Ports(ports.value.kv, ports.value.mgmt) else Ports(None, None))
            && node.ssl == (if ports.Some? then Ports(ports.value.kvSsl, ports.value.mgmtSsl) else Ports(None, None))
            && (ports.Some? ==> node.hostname == host)
            && KvEndpoint(node) == TerseEndpoint(config, source, j)
  {
    MgmtPortsOfTerse(config, source);
    var entry := config.nodesExt[j];
    if network != "default" && network in entry.alternateAddresses {
      var own :| IsHost(own, entry.hostname, source) && IsHost(host, entry.alternateAddresses[network].hostname, own);
    }
  }

  /**
   Where an endpoint of the generated tables connects to, for entries that differ in host name or management
   port: to the host and the key-value port that its entry shows on the network, the TLS port if and only if TLS
   is in use; without that port it has no target.
   */
  lemma TargetOfTerse(
    config: TerseConfig, source: string, network: string, tls: bool, j: nat, host: string, ports: Option<TersePorts>)
    requires ParseTerse(config, source).Ok? && HasMgmtPorts(ParseNodes(config, source))
    requires DistinctNodes(ParseNodes(config, source)) && j < |config.nodesExt|
    requires Shows(config.nodesExt[j], source, network, host, ports)
    ensures var targets := Generated(ParseTerse(config, source).value, network, tls).kvTargets;
            var e := TerseEndpoint(config, source, j);
            var port := if ports.None? then None else if tls then ports.value.kvSsl else ports.value.kv;
            && (e in targets <==> port.Some?)
            && (port.Some? ==> targets[e] == EndpointPools.Target(host, port.value, tls))
  {
    var parsed := ParseNodes(config, source);
    ShownNode(config, source, network, j, host, ports);
    OnlyNodeWithPort(parsed, network, tls, j);
  }

  /** For distinct nodes: an endpoint has the target of its node, if that has a port. */
  lemma OnlyNodeWithPort(parsed: seq<Node>, network: string, tls: bool, j: nat)
    requires HasMgmtPorts(parsed) && DistinctNodes(parsed) && j < |parsed|
    ensures var nodes := NetworkNodes(parsed, network);
            var e := KvEndpoint(nodes[j]);
            && (e in KvTargets(nodes, tls) <==> KvPort(nodes[j], tls).Some?)
            && (KvPort(nodes[j], tls).Some? ==> KvTargets(nodes, tls)[e] == TargetOf(nodes[j], tls))
  {
    var nodes := NetworkNodes(parsed, network);
    var e := KvEndpoint(nodes[j]);
    if e in KvTargets(nodes, tls) {
      var t := KvTargets(nodes, tls)[e];
      TargetsExactly(nodes, tls, e, t);
      var k: nat :| GivesTarget(nodes, tls, e, t, k);
      DistinctEndpoints(parsed, network, k, j);
    } else if KvPort(nodes[j], tls).Some? {
      TargetsHaveKeys(nodes, tls);
    }
  }

  /** Parsing fails exactly for a bucket with an empty vbucket map; otherwise the fields are those of the input. */
  lemma ParsedFields(config: TerseConfig, source: string)
    ensures var r := ParseTerse(config, source);
            var vbucket := config.name.Some? && config.nodeLocator == Some("vbucket");
            && (r.Err? <==> vbucket && config.vbucketServerMap.Some? && config.vbucketServerMap.value.vbucketMap == [])
            && (r.Ok? ==>
                  && r.value.revId == config.rev
                  && r.value.revEpoch == (if config.revEpoch.Some? then config.revEpoch.value else 0)
                  && (r.value.bucket.Some? <==> config.name.Some?)
                  && (config.name.Some? ==>
                        && r.value.bucket.value.name == config.name.value
                        && (r.value.bucket.value.bucketType == Couchbase <==> config.nodeLocator == Some("vbucket"))))
  {}

  /** The poller is given all nodes, with or without data, in their order. */
  lemma WatcherOfTerse(config: TerseConfig, source: string, network: string, tls: bool)
    requires ParseTerse(config, source).Ok? && HasMgmtPorts(ParseNodes(config, source))
    ensures var watched := Generated(ParseTerse(config, source).value, network, tls).watcherEndpoints;
            && |watched| == |config.nodesExt|
            && forall j :: 0 <= j < |watched| ==> watched[j] == TerseEndpoint(config, source, j)
  {}
}
