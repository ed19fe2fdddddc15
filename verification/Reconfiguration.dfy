/**
 How an agent switches to a new cluster config (sdk/couchbase-core/src/agent.rs, update_state_locked):
 first the pools of all new endpoints are added, then the routing table is swapped, then the watcher is
 told, then pools that are no longer needed are closed and dropped.  Operations run all the time: they
 read the published routing table and then the published pool map, without any lock.  Every store and
 every pool close is one atomic step.
 */
module Reconfiguration {
  import Machine
  import opened Wrappers
  import opened Common
  import opened EndpointPools
  import opened Routing
  import opened ClusterConfig

  datatype Phase =
    | Idle
    | Preparing(c: ComponentConfigs, addOnly: bool)
    | Installing(c: ComponentConfigs, addOnly: bool, newMap: map<Endpoint, PoolId>, toClose: set<PoolId>)
    | SwappingRouter(c: ComponentConfigs)
    | TellingWatcher(c: ComponentConfigs)

  /**
   `routed` is the config that the router's table comes from: operations read `routed.routing`, and the rest
   of it is history.
   */
  datatype System = System(phase: Phase, pools: Pools, routed: ComponentConfigs, watcher: seq<Endpoint>)

  datatype Event =
    | Begin(c: ComponentConfigs)
    | PreparePools(names: map<Endpoint, PoolId>)
    | ClosePool(pool: PoolId)
    | Publish
    | SwapRouter
    | TellWatcher

  /** Steps that are not enabled change nothing. */
  function Step(s: System, e: Event): System {
    match e
    case Begin(c) =>
      if s.phase.Idle? then s.(phase := Preparing(c, true)) else s
    case PreparePools(names) =>
      if s.phase.Preparing? && FreshFor(s.pools, s.phase.c.kvTargets, names) then
        var targets, addOnly := s.phase.c.kvTargets, s.phase.addOnly;
        s.(pools := Prepare(s.pools, targets, names),
           phase := Installing(s.phase.c, addOnly, NewMap(s.pools, targets, addOnly, names),
                               Dropped(s.pools, targets, addOnly)))
      else s
    case ClosePool(p) =>
      if s.phase.Installing? && p in s.phase.toClose then
        s.(pools := Close(s.pools, p), phase := s.phase.(toClose := s.phase.toClose - {p}))
      else s
    case Publish =>
      if s.phase.Installing? && s.phase.toClose == {} then
        s.(pools := Install(s.pools, s.phase.newMap),
           phase := if s.phase.addOnly then SwappingRouter(s.phase.c) else Idle)
      else s
    case SwapRouter =>
      if s.phase.SwappingRouter? then s.(routed := s.phase.c, phase := TellingWatcher(s.phase.c)) else s
    case TellWatcher =>
      if s.phase.TellingWatcher? then
        s.(watcher := s.phase.c.watcherEndpoints, phase := Preparing(s.phase.c, false))
      else s
  }

  /** Agent::new: a full update of an empty manager, then the router is built. */
  function Start(c: ComponentConfigs, names: map<Endpoint, PoolId>): System {
    System(Idle, Update(NoPools, c.kvTargets, false, names), c, c.watcherEndpoints)
  }

  function Exec(s: System, es: seq<Event>): System {
    Machine.Exec(Step, s, es)
  }

  // ---------------------------------------------------------------- what operations rely on

  predicate Open(pools: Pools, p: PoolId) {
    p in pools.created && p !in pools.closed
  }

  /** get_endpoint_client would find an open pool. */
  predicate Reachable(pools: Pools, e: Endpoint) {
    e in pools.published && Open(pools, pools.published[e])
  }

  predicate AllReachable(pools: Pools, endpoints: seq<Endpoint>) {
    forall e :: e in endpoints ==> Reachable(pools, e)
  }

  /** Every endpoint that the config can connect to is reachable. */
  predicate Served(pools: Pools, c: ComponentConfigs) {
    forall e :: e in c.kvTargets ==> Reachable(pools, e)
  }

  // ---------------------------------------------------------------- invariant

  /** Between updates: the balance of pools holds and the published map is the locked one. */
  ghost predicate Settled(pools: Pools) {
    Conserved(pools) && pools.published == pools.mapped
  }

  /** The pools as they will be once the remaining ones are closed and the new map is published. */
  function Completed(pools: Pools, newMap: map<Endpoint, PoolId>, toClose: set<PoolId>): Pools {
    Install(pools.(closed := pools.closed + multiset(toClose)), newMap)
  }

  ghost predicate InstallOk(s: System)
    requires s.phase.Installing?
  {
    var Installing(c, addOnly, newMap, toClose) := s.phase;
    && Conserved(Completed(s.pools, newMap, toClose))
    && c.kvTargets.Keys <= newMap.Keys
    && (if addOnly
        then toClose == {} && forall e :: e in s.pools.published ==> e in newMap && newMap[e] == s.pools.published[e]
        else s.routed == c && newMap.Keys == c.kvTargets.Keys
             && forall e :: e in c.kvTargets ==> e in s.pools.published && newMap[e] == s.pools.published[e])
  }

  ghost predicate Inv(s: System) {
    && Served(s.pools, s.routed)
    && (!s.phase.Installing? ==> Settled(s.pools))
    && match s.phase
       case Idle => s.pools.mapped.Keys == s.routed.kvTargets.Keys
       case Preparing(c, addOnly) => !addOnly ==> s.routed == c && c.kvTargets.Keys <= s.pools.mapped.Keys
       case Installing(_, _, _, _) => InstallOk(s)
       case SwappingRouter(c) => c.kvTargets.Keys <= s.pools.mapped.Keys
       case TellingWatcher(c) => s.routed == c && c.kvTargets.Keys <= s.pools.mapped.Keys
  }

  /** Between updates an endpoint is reachable exactly if it is mapped. */
  lemma SettledReachable(pools: Pools, e: Endpoint)
    requires Settled(pools)
    ensures Reachable(pools, e) <==> e in pools.mapped
  {}

  lemma SettledServes(pools: Pools, c: ComponentConfigs)
    requires Settled(pools) && c.kvTargets.Keys <= pools.mapped.Keys
    ensures Served(pools, c)
  {
    forall e | e in c.kvTargets
      ensures Reachable(pools, e)
    {
      assert e in c.kvTargets.Keys;
      SettledReachable(pools, e);
    }
  }

  lemma PrepareInv(s: System, names: map<Endpoint, PoolId>)
    requires Inv(s) && s.phase.Preparing? && FreshFor(s.pools, s.phase.c.kvTargets, names)
    ensures Inv(Step(s, PreparePools(names)))
  {
    var s' := Step(s, PreparePools(names));
    var targets, addOnly := s.phase.c.kvTargets, s.phase.addOnly;
    UpdateConserves(s.pools, targets, addOnly, names);
    assert Completed(s'.pools, s'.phase.newMap, s'.phase.toClose) == Update(s.pools, targets, addOnly, names);
    assert targets.Keys <= s'.phase.newMap.Keys;
    assert !addOnly ==> s'.phase.newMap.Keys == targets.Keys;
  }

  lemma CloseInv(s: System, p: PoolId)
    requires Inv(s) && s.phase.Installing? && p in s.phase.toClose
    ensures Inv(Step(s, ClosePool(p)))
  {
    var s' := Step(s, ClosePool(p));
    var newMap, toClose := s.phase.newMap, s.phase.toClose;
    assert multiset{p} + multiset(toClose - {p}) == multiset(toClose);
    assert Completed(s'.pools, newMap, toClose - {p}) == Completed(s.pools, newMap, toClose);
    forall e | e in s'.routed.kvTargets
      ensures Reachable(s'.pools, e)
    {
      assert newMap[e] == s.pools.published[e];
    }
  }

  lemma PublishInv(s: System)
    requires Inv(s) && s.phase.Installing? && s.phase.toClose == {}
    ensures Inv(Step(s, Publish))
  {
    var s' := Step(s, Publish);
    assert multiset(s.phase.toClose) == multiset{};
    assert Completed(s.pools, s.phase.newMap, {}) == s'.pools;
    assert s.routed.kvTargets.Keys <= s'.pools.mapped.Keys;
    SettledServes(s'.pools, s'.routed);
  }

  lemma StepInv(s: System, e: Event)
    requires Inv(s)
    ensures Inv(Step(s, e))
  {
    match e
    case PreparePools(names) =>
      if s.phase.Preparing? && FreshFor(s.pools, s.phase.c.kvTargets, names) {
        PrepareInv(s, names);
      }
    case ClosePool(p) =>
      if s.phase.Installing? && p in s.phase.toClose {
        CloseInv(s, p);
      }
    case Publish =>
      if s.phase.Installing? && s.phase.toClose == {} {
        PublishInv(s);
      }
    case SwapRouter =>
      if s.phase.SwappingRouter? {
        SettledServes(s.pools, s.phase.c);
      }
    case _ =>
  }

  lemma FullSettles(a: Pools, c: ComponentConfigs, names: map<Endpoint, PoolId>)
    requires Conserved(a) && FreshFor(a, c.kvTargets, names)
    ensures var b := Update(a, c.kvTargets, false, names); Settled(b) && b.mapped.Keys == c.kvTargets.Keys
  {
    UpdateConserves(a, c.kvTargets, false, names);
    FullKeys(a, c.kvTargets, names);
  }

  lemma StartInv(c: ComponentConfigs, names: map<Endpoint, PoolId>)
    requires FreshFor(NoPools, c.kvTargets, names)
    ensures Inv(Start(c, names))
  {
    FullSettles(NoPools, c, names);
    SettledServes(Start(c, names).pools, c);
  }

  lemma {:induction false} ExecInv(s: System, es: seq<Event>)
    requires Inv(s)
    ensures Inv(Exec(s, es))
  {
    if es != [] {
      ExecInv(s, es[..|es| - 1]);
      StepInv(Exec(s, es[..|es| - 1]), es[|es| - 1]);
    }
  }

  // ---------------------------------------------------------------- make before break

  /**
   At every step of every run of reconfigurations, for any configs: whatever endpoint a dispatch answers,
   if the config in force has a target for it then it has an open pool in the published map.
   */
  lemma DispatchedTargetsReachable(
    c: ComponentConfigs, names: map<Endpoint, PoolId>, es: seq<Event>, hash: Hash, key: seq<Byte>, serverIndex: nat)
    requires FreshFor(NoPools, c.kvTargets, names)
    requires DispatchByKey(Exec(Start(c, names), es).routed.routing, hash, key, serverIndex).Ok?
    ensures var s := Exec(Start(c, names), es);
            var (e, vb) := DispatchByKey(s.routed.routing, hash, key, serverIndex).value;
            && e in s.routed.routing.serverList
            && (e in s.routed.kvTargets ==> Reachable(s.pools, e))
  {
    StartInv(c, names);
    ExecInv(Start(c, names), es);
    var s := Exec(Start(c, names), es);
    var (e, vb) := DispatchByKey(s.routed.routing, hash, key, serverIndex).value;
    DispatchExactly(s.routed.routing, hash, key, serverIndex, e, vb);
  }

  /** The run applies only configs whose server list has targets throughout. */
  predicate RoutableRun(c: ComponentConfigs, es: seq<Event>) {
    Routable(c) && forall i :: 0 <= i < |es| && es[i].Begin? ==> Routable(es[i].c)
  }

  lemma {:induction false} RoutedIsRoutable(c: ComponentConfigs, names: map<Endpoint, PoolId>, es: seq<Event>)
    requires RoutableRun(c, es)
    ensures var s := Exec(Start(c, names), es); Routable(s.routed) && (!s.phase.Idle? ==> Routable(s.phase.c))
  {
    if es != [] {
      var n := |es| - 1;
      assert RoutableRun(c, es[..n]);
      RoutedIsRoutable(c, names, es[..n]);
    }
  }

  /**
   Make before break: in every run of reconfigurations whose server lists have targets throughout, at every
   step, whatever endpoint a dispatch answers has an open pool in the published map.
   */
  lemma MakeBeforeBreak(
    c: ComponentConfigs, names: map<Endpoint, PoolId>, es: seq<Event>, hash: Hash, key: seq<Byte>, serverIndex: nat)
    requires FreshFor(NoPools, c.kvTargets, names) && RoutableRun(c, es)
    requires DispatchByKey(Exec(Start(c, names), es).routed.routing, hash, key, serverIndex).Ok?
    ensures var s := Exec(Start(c, names), es);
            Reachable(s.pools, DispatchByKey(s.routed.routing, hash, key, serverIndex).value.0)
  {
    DispatchedTargetsReachable(c, names, es, hash, key, serverIndex);
    RoutedIsRoutable(c, names, es);
  }

  /** The tables of a cluster config each data node of which has a key-value port on the network and in the mode. */
  ghost predicate FromCluster(c: ComponentConfigs, config: ParsedConfig, network: string, tls: bool) {
    && HasMgmtPorts(config.nodes) && EachDataNodeHasKvPort(NetworkNodes(config.nodes, network), tls)
    && c == Generated(config, network, tls)
  }

  ghost predicate FromSomeCluster(c: ComponentConfigs) {
    exists config, network, tls :: FromCluster(c, config, network, tls)
  }

  lemma ClusterTablesRoutable(c: ComponentConfigs)
    requires FromSomeCluster(c)
    ensures Routable(c)
  {
    var config, network, tls :| FromCluster(c, config, network, tls);
    RoutableIffDataNodesHaveKvPorts(config, network, tls);
    assert DataNodesHaveKvPorts(NetworkNodes(config.nodes, network), tls);
  }

  /** The same for cluster configs: if each data node of each applied config has a key-value port. */
  lemma MakeBeforeBreakForClusters(
    c: ComponentConfigs, names: map<Endpoint, PoolId>, es: seq<Event>,
    hash: Hash, key: seq<Byte>, serverIndex: nat)
    requires FreshFor(NoPools, c.kvTargets, names) && FromSomeCluster(c)
    requires forall i :: 0 <= i < |es| && es[i].Begin? ==> FromSomeCluster(es[i].c)
    requires DispatchByKey(Exec(Start(c, names), es).routed.routing, hash, key, serverIndex).Ok?
    ensures var s := Exec(Start(c, names), es);
            Reachable(s.pools, DispatchByKey(s.routed.routing, hash, key, serverIndex).value.0)
  {
    ClusterTablesRoutable(c);
    forall i | 0 <= i < |es| && es[i].Begin?
      ensures Routable(es[i].c)
    {
      ClusterTablesRoutable(es[i].c);
    }
    MakeBeforeBreak(c, names, es, hash, key, serverIndex);
  }

  lemma ServedAndReachable(pools: Pools, c: ComponentConfigs)
    requires Settled(pools) && pools.mapped.Keys == c.kvTargets.Keys
    ensures Served(pools, c)
    ensures AllReachable(pools, c.routing.serverList) <==> Routable(c)
  {
    forall e
      ensures Reachable(pools, e) <==> e in c.kvTargets
    {
      SettledReachable(pools, e);
      assert e in pools.mapped.Keys <==> e in c.kvTargets.Keys;
    }
  }

  /**
   The hypothesis is needed: once a config is fully applied, its server list is reachable exactly if it is
   routable.
   */
  lemma ReachableIffRoutable(s: System)
    requires Inv(s) && s.phase.Idle?
    ensures AllReachable(s.pools, s.routed.routing.serverList) <==> Routable(s.routed)
  {
    ServedAndReachable(s.pools, s.routed);
  }

  // ---------------------------------------------------------------- the other order

  /** The protocol with the routing table swapped at the beginning instead of after the new pools are published. */
  function StepRouterFirst(s: System, e: Event): System {
    match e
    case Begin(c) => if s.phase.Idle? then s.(routed := c, phase := Preparing(c, true)) else s
    case SwapRouter => if s.phase.SwappingRouter? then s.(phase := TellingWatcher(s.phase.c)) else s
    case _ => Step(s, e)
  }

  /** In that order the first step serves the new config exactly if none of its endpoints is new. */
  lemma RouterFirstSafeIffNothingNew(s: System, c: ComponentConfigs)
    requires Inv(s) && s.phase.Idle?
    ensures var t := StepRouterFirst(s, Begin(c));
            t.routed == c && (Served(t.pools, t.routed) <==> c.kvTargets.Keys <= s.routed.kvTargets.Keys)
  {
    forall e
      ensures Reachable(s.pools, e) <==> e in s.routed.kvTargets.Keys
    {
      SettledReachable(s.pools, e);
      assert e in s.pools.mapped.Keys <==> e in s.routed.kvTargets.Keys;
    }
  }

  /** So a dispatch then answers an endpoint without a pool, for any two configs and any key of a new endpoint. */
  lemma RouterFirstWouldBreak(
    c: ComponentConfigs, names: map<Endpoint, PoolId>, next: ComponentConfigs,
    hash: Hash, key: seq<Byte>, serverIndex: nat)
    requires FreshFor(NoPools, c.kvTargets, names)
    requires DispatchByKey(next.routing, hash, key, serverIndex).Ok?
    requires DispatchByKey(next.routing, hash, key, serverIndex).value.0 !in c.kvTargets
    ensures var s := StepRouterFirst(Start(c, names), Begin(next));
            var answer := DispatchByKey(s.routed.routing, hash, key, serverIndex);
            answer.Ok? && !Reachable(s.pools, answer.value.0)
  {
    StartInv(c, names);
    var s := Start(c, names);
    var e := DispatchByKey(next.routing, hash, key, serverIndex).value.0;
    assert e !in s.pools.mapped.Keys;
    SettledReachable(s.pools, e);
  }

  // ---------------------------------------------------------------- an operation that looks up its pool late

  /** A step of the removal phase of a config that does not have the endpoint. */
  predicate Threatens(s: System, e: Endpoint) {
    s.phase.Installing? && !s.phase.addOnly && e !in s.phase.c.kvTargets
  }

  /** No step of `es` is taken in such a phase. */
  predicate Unthreatened(s: System, es: seq<Event>, e: Endpoint) {
    forall k :: 0 <= k < |es| ==> !Threatens(Exec(s, es[..k]), e)
  }

  lemma StepKeepsPool(s: System, ev: Event, e: Endpoint)
    requires Inv(s) && Reachable(s.pools, e) && !Threatens(s, e)
    ensures var s' := Step(s, ev);
            Reachable(s'.pools, e) && s'.pools.published[e] == s.pools.published[e]
  {
    StepInv(s, ev);
    if s.phase.Installing? {
      assert e in s.phase.newMap && s.phase.newMap[e] == s.pools.published[e];
      InstallingKeepsPool(s, ev, e);
    }
  }

  lemma InstallingKeepsPool(s: System, ev: Event, e: Endpoint)
    requires Inv(s) && s.phase.Installing? && Reachable(s.pools, e)
    requires e in s.phase.newMap && s.phase.newMap[e] == s.pools.published[e]
    ensures var s' := Step(s, ev);
            Reachable(s'.pools, e) && s'.pools.published[e] == s.pools.published[e]
  {
    var p := s.phase.newMap[e];
    assert Conserved(Completed(s.pools, s.phase.newMap, s.phase.toClose));
    assert p !in s.phase.toClose;
  }

  /**
   An operation reads the routing table first and the pool map later.  Whatever happens in between, the
   endpoint it chose still has the same open pool, unless a newer config without that endpoint was in
   its removal phase meanwhile.
   */
  lemma {:induction false} LateLookupStillFindsPool(s: System, es: seq<Event>, e: Endpoint)
    requires Inv(s) && Reachable(s.pools, e) && Unthreatened(s, es, e)
    ensures var s' := Exec(s, es);
            Reachable(s'.pools, e) && s'.pools.published[e] == s.pools.published[e]
  {
    if es != [] {
      var n := |es| - 1;
      forall k | 0 <= k < n
        ensures !Threatens(Exec(s, es[..n][..k]), e)
      {
        assert es[..n][..k] == es[..k];
      }
      LateLookupStillFindsPool(s, es[..n], e);
      ExecInv(s, es[..n]);
      StepKeepsPool(Exec(s, es[..n]), es[n], e);
    }
  }

  predicate NoBegin(es: seq<Event>) {
    forall i :: 0 <= i < |es| ==> !es[i].Begin?
  }

  /** The config is fully applied: no switch is under way and its routing table is in force. */
  predicate Applied(s: System, c: ComponentConfigs) {
    s.phase.Idle? && s.routed == c
  }

  /** The switch under way, without a further one, can end with the config fully applied. */
  ghost predicate MayApply(s: System, c: ComponentConfigs) {
    exists es :: NoBegin(es) && Applied(Exec(s, es), c)
  }

  lemma MayApplyBefore(s: System, ev: Event, c: ComponentConfigs)
    requires MayApply(Step(s, ev), c) && !ev.Begin?
    ensures MayApply(s, c)
  {
    var es :| NoBegin(es) && Applied(Exec(Step(s, ev), es), c);
    Machine.ExecCons(Step, s, ev, es);
    assert NoBegin([ev] + es);
  }

  lemma {:induction false} RemovalCompletes(s: System)
    requires Inv(s) && s.phase.Installing? && !s.phase.addOnly
    ensures MayApply(s, s.phase.c)
    decreases |s.phase.toClose|
  {
    var c := s.phase.c;
    if s.phase.toClose == {} {
      assert NoBegin([]) && Applied(Exec(Step(s, Publish), []), c);
      MayApplyBefore(s, Publish, c);
    } else {
      var p :| p in s.phase.toClose;
      StepInv(s, ClosePool(p));
      RemovalCompletes(Step(s, ClosePool(p)));
      MayApplyBefore(s, ClosePool(p), c);
    }
  }

  lemma FullUpdateCompletes(s: System)
    requires Inv(s) && s.phase.Preparing? && !s.phase.addOnly
    ensures MayApply(s, s.phase.c)
  {
    var names := FreshNames(s.pools, s.phase.c.kvTargets);
    StepInv(s, PreparePools(names));
    RemovalCompletes(Step(s, PreparePools(names)));
    MayApplyBefore(s, PreparePools(names), s.phase.c);
  }

  lemma SwapCompletes(s: System)
    requires Inv(s) && (s.phase.SwappingRouter? || s.phase.TellingWatcher?)
    ensures MayApply(s, s.phase.c)
  {
    var t := if s.phase.SwappingRouter? then Step(s, SwapRouter) else s;
    StepInv(s, SwapRouter);
    StepInv(t, TellWatcher);
    FullUpdateCompletes(Step(t, TellWatcher));
    MayApplyBefore(t, TellWatcher, s.phase.c);
    if s.phase.SwappingRouter? {
      MayApplyBefore(s, SwapRouter, s.phase.c);
    }
  }

  lemma AddOnlyCompletes(s: System)
    requires Inv(s) && s.phase.Installing? && s.phase.addOnly
    ensures MayApply(s, s.phase.c)
  {
    StepInv(s, Publish);
    SwapCompletes(Step(s, Publish));
    MayApplyBefore(s, Publish, s.phase.c);
  }

  /** Whatever step a switch is at, it can go on and end with its config fully applied. */
  lemma SwitchCanComplete(s: System)
    requires Inv(s) && !s.phase.Idle?
    ensures MayApply(s, s.phase.c)
  {
    match s.phase
    case Preparing(c, addOnly) =>
      if addOnly {
        var names := FreshNames(s.pools, c.kvTargets);
        StepInv(s, PreparePools(names));
        AddOnlyCompletes(Step(s, PreparePools(names)));
        MayApplyBefore(s, PreparePools(names), c);
      } else {
        FullUpdateCompletes(s);
      }
    case Installing(_, addOnly, _, _) =>
      if addOnly {
        AddOnlyCompletes(s);
      } else {
        RemovalCompletes(s);
      }
    case _ => SwapCompletes(s);
  }

  /** A switch can only be begun when none is under way, and then it is the one to its config. */
  lemma BeginsSwitch(s: System, c: ComponentConfigs)
    ensures var t := Step(s, Begin(c));
            if s.phase.Idle? then t.phase == Preparing(c, true) && t.pools == s.pools && t.routed == s.routed
            else t == s
  {}

  /** Except while it is being told, the poller has the endpoints of the config in force. */
  ghost predicate WatcherOk(s: System) {
    if s.phase.TellingWatcher? then s.phase.c == s.routed else s.watcher == s.routed.watcherEndpoints
  }

  lemma {:induction false} WatcherFollows(c: ComponentConfigs, names: map<Endpoint, PoolId>, es: seq<Event>)
    ensures WatcherOk(Exec(Start(c, names), es))
  {
    if es != [] {
      WatcherFollows(c, names, es[..|es| - 1]);
    }
  }

  /** The switch under way, without a further one, can take the pool away. */
  ghost predicate MayLose(s: System, e: Endpoint) {
    exists es :: NoBegin(es) && !Reachable(Exec(s, es).pools, e)
  }

  /** Once a config without the endpoint is fully applied the pool is gone. */
  lemma AppliedLoses(s: System, c: ComponentConfigs, e: Endpoint)
    requires Inv(s) && MayApply(s, c) && e !in c.kvTargets
    ensures MayLose(s, e)
  {
    var es :| NoBegin(es) && Applied(Exec(s, es), c);
    ExecInv(s, es);
    assert e !in Exec(s, es).pools.mapped.Keys;
    SettledReachable(Exec(s, es).pools, e);
  }

  /** The removal phase ends with the new map, which does not have the endpoint. */
  lemma RemovalLoses(s: System, e: Endpoint)
    requires Inv(s) && Threatens(s, e)
    ensures MayLose(s, e)
  {
    RemovalCompletes(s);
    AppliedLoses(s, s.phase.c, e);
  }

  /** The switch under way keeps the endpoint. */
  predicate Keeps(s: System, e: Endpoint) {
    s.phase.Idle? || e in s.phase.c.kvTargets
  }

  lemma KeptByStep(s: System, ev: Event, e: Endpoint)
    requires Inv(s) && Reachable(s.pools, e) && Keeps(s, e) && !ev.Begin?
    ensures Reachable(Step(s, ev).pools, e) && Keeps(Step(s, ev), e)
  {
    StepKeepsPool(s, ev, e);
  }

  lemma {:induction false} KeptThroughout(s: System, es: seq<Event>, e: Endpoint)
    requires Inv(s) && Reachable(s.pools, e) && Keeps(s, e) && NoBegin(es)
    ensures Reachable(Exec(s, es).pools, e) && Keeps(Exec(s, es), e)
  {
    if es != [] {
      var n := |es| - 1;
      KeptThroughout(s, es[..n], e);
      ExecInv(s, es[..n]);
      KeptByStep(Exec(s, es[..n]), es[n], e);
    }
  }

  /** Exactly when the switch under way can take away an endpoint's pool: when its config does not have the endpoint. */
  lemma MayLoseIffNotInNewConfig(s: System, e: Endpoint)
    requires Inv(s) && Reachable(s.pools, e)
    ensures MayLose(s, e) <==> !s.phase.Idle? && e !in s.phase.c.kvTargets
  {
    if Keeps(s, e) {
      if MayLose(s, e) {
        var es :| NoBegin(es) && !Reachable(Exec(s, es).pools, e);
        KeptThroughout(s, es, e);
      }
    } else {
      SwitchCanComplete(s);
      AppliedLoses(s, s.phase.c, e);
    }
  }

  // ---------------------------------------------------------------- steps and whole updates

  function CloseEvents(order: seq<PoolId>): seq<Event> {
    seq(|order|, i requires 0 <= i < |order| => ClosePool(order[i]))
  }

  /** The system after the pools in `order` have been closed. */
  function AfterClosing(s: System, order: seq<PoolId>): System
    requires s.phase.Installing?
  {
    s.(pools := s.pools.(closed := s.pools.closed + multiset(order)),
       phase := s.phase.(toClose := s.phase.toClose - (set p | p in order)))
  }

  lemma ClosingOneMore(s: System, order: seq<PoolId>, p: PoolId)
    requires s.phase.Installing? && p in s.phase.toClose && p !in order
    ensures Step(AfterClosing(s, order), ClosePool(p)) == AfterClosing(s, order + [p])
  {
    assert s.phase.toClose - (set q | q in order + [p]) == s.phase.toClose - (set q | q in order) - {p};
    assert multiset(order + [p]) == multiset(order) + multiset{p};
  }

  lemma {:induction false} ClosingInOrder(s: System, order: seq<PoolId>)
    requires s.phase.Installing? && (forall i :: 0 <= i < |order| ==> order[i] in s.phase.toClose)
    requires forall i, j :: 0 <= i < j < |order| ==> order[i] != order[j]
    ensures Exec(s, CloseEvents(order)) == AfterClosing(s, order)
  {
    if order == [] {
      assert s.phase.toClose - {} == s.phase.toClose;
    } else {
      var n := |order| - 1;
      ClosingInOrder(s, order[..n]);
      assert CloseEvents(order)[..n] == CloseEvents(order[..n]);
      assert order == order[..n] + [order[n]];
      ClosingOneMore(s, order[..n], order[n]);
    }
  }

  /** The steps of one endpoint update, with the pools closed in any order, are the manager's update as a whole. */
  lemma StepsAreUpdate(s: System, names: map<Endpoint, PoolId>, order: seq<PoolId>)
    requires s.phase.Preparing? && FreshFor(s.pools, s.phase.c.kvTargets, names)
    requires forall i, j :: 0 <= i < j < |order| ==> order[i] != order[j]
    requires (set p | p in order) == Dropped(s.pools, s.phase.c.kvTargets, s.phase.addOnly)
    ensures Step(Exec(Step(s, PreparePools(names)), CloseEvents(order)), Publish).pools ==
            Update(s.pools, s.phase.c.kvTargets, s.phase.addOnly, names)
  {
    var prepared := Step(s, PreparePools(names));
    assert forall i :: 0 <= i < |order| ==> order[i] in (set p | p in order);
    ClosingInOrder(prepared, order);
    DistinctAsSet(order);
    PublishAfterClosing(prepared, order);
  }

  lemma PublishAfterClosing(s: System, order: seq<PoolId>)
    requires s.phase.Installing? && s.phase.toClose == (set p | p in order)
    ensures Step(AfterClosing(s, order), Publish).pools ==
            Install(s.pools.(closed := s.pools.closed + multiset(order)), s.phase.newMap)
  {
    assert AfterClosing(s, order).phase.toClose == {};
  }

  lemma {:induction false} DistinctAsSet(order: seq<PoolId>)
    requires forall i, j :: 0 <= i < j < |order| ==> order[i] != order[j]
    ensures multiset(order) == multiset(set p | p in order)
  {
    if order != [] {
      var n := |order| - 1;
      DistinctAsSet(order[..n]);
      assert order == order[..n] + [order[n]];
      assert order[n] !in order[..n];
      assert (set p | p in order) == (set p | p in order[..n]) + {order[n]};
    }
  }

  // ---------------------------------------------------------------- the code

  class Agent {
    const manager: EndpointClientManager
    var router: RoutingInfo
    var watcher: seq<Endpoint>
    var latest: ParsedConfig
    ghost var routed: ComponentConfigs

    ghost predicate Valid()
      reads this, manager
    {
      && manager.Valid() && manager.published == manager.mapped
      && router == routed.routing && manager.mapped.Keys == routed.kvTargets.Keys
    }

    constructor (c: ComponentConfigs, first: ParsedConfig)
      ensures Valid() && fresh(manager) && routed == c && watcher == c.watcherEndpoints && latest == first
      ensures Served(manager.View(), c)
      ensures AllReachable(manager.View(), router.serverList) <==> Routable(c)
    {
      var m := new EndpointClientManager();
      ghost var names := m.UpdateEndpoints(c.kvTargets, false);
      FullServes(NoPools, c, names);
      manager := m;
      router := c.routing;
      watcher := c.watcherEndpoints;
      routed := c;
      latest := first;
    }

    /**
     apply_config: the config is overwritten without a comparison, and the tables generated from it are put in
     force; false is the panic on a missing management port, which leaves everything else as it was.
     */
    method ApplyConfig(config: ParsedConfig, network: string, tls: bool)
      returns (ok: bool, ghost names: map<Endpoint, PoolId>)
      requires Valid()
      modifies this, manager
      ensures Valid() && latest == config && (ok <==> HasMgmtPorts(config.nodes))
      ensures ok ==> routed == Generated(config, network, tls) && Served(manager.View(), routed)
      ensures !ok ==> routed == old(routed) && manager.View() == old(manager.View())
    {
      latest := config;
      names := map[];
      var tables := GenFromConfig(config, network, tls);
      ok := tables.Some?;
      if ok {
        names := UpdateState(tables.value);
      }
    }

    /**
     update_state_locked: afterwards the pools are those of one full update; in between, the endpoints of the
     old and of the new config are both served.
     */
    method UpdateState(c: ComponentConfigs) returns (ghost names: map<Endpoint, PoolId>)
      requires Valid()
      modifies this, manager
      ensures Valid() && routed == c && watcher == c.watcherEndpoints && latest == old(latest)
      ensures FreshFor(old(manager.View()), c.kvTargets, names)
      ensures manager.View() == Update(old(manager.View()), c.kvTargets, false, names)
      ensures Served(manager.View(), c)
      ensures AllReachable(manager.View(), router.serverList) <==> Routable(c)
    {
      ghost var before := manager.View();
      names := AddAndSwap(c);
      ghost var middle := manager.View();
      ghost var again := manager.UpdateEndpoints(c.kvTargets, false);
      SwitchDone(before, middle, c, names, again);
    }

    /** The first half: the new pools are added and the routing table is swapped; old and new endpoints are served. */
    method AddAndSwap(c: ComponentConfigs) returns (ghost names: map<Endpoint, PoolId>)
      requires Valid()
      modifies this, manager
      ensures manager.Valid() && router == c.routing && routed == c && watcher == c.watcherEndpoints
      ensures latest == old(latest)
      ensures FreshFor(old(manager.View()), c.kvTargets, names)
      ensures manager.View() == Update(old(manager.View()), c.kvTargets, true, names)
      ensures Served(manager.View(), old(routed)) && Served(manager.View(), c)
    {
      ghost var before := manager.View();
      names := manager.UpdateEndpoints(c.kvTargets, true);
      AddOnlyServesBoth(before, routed, c, names);
      router := c.routing;
      routed := c;
      watcher := c.watcherEndpoints;
    }
  }

  /** After the add-only update the old and the new config are both served. */
  lemma AddOnlyServesBoth(a: Pools, current: ComponentConfigs, next: ComponentConfigs, names: map<Endpoint, PoolId>)
    requires Settled(a) && a.mapped.Keys == current.kvTargets.Keys && FreshFor(a, next.kvTargets, names)
    ensures var m := Update(a, next.kvTargets, true, names); Settled(m) && Served(m, current) && Served(m, next)
  {
    var m := Update(a, next.kvTargets, true, names);
    UpdateConserves(a, next.kvTargets, true, names);
    AddOnlyKeys(a, next.kvTargets, names);
    SettledServes(m, current);
    SettledServes(m, next);
  }

  lemma TwoUpdatesAreOne(
    a: Pools, m: Pools, targets: map<Endpoint, EndpointPools.Target>,
    names: map<Endpoint, PoolId>, again: map<Endpoint, PoolId>)
    requires FreshFor(a, targets, names)
    requires m == Update(a, targets, true, names) && FreshFor(m, targets, again)
    ensures Update(m, targets, false, again) == Update(a, targets, false, names)
  {
    TwoPhaseEqualsOne(a, targets, names);
    var none: map<Endpoint, PoolId> := map[];
    assert again.Keys == none.Keys;
  }

  /** After a full update exactly the endpoints of the new config are reachable. */
  lemma FullServes(a: Pools, c: ComponentConfigs, names: map<Endpoint, PoolId>)
    requires Conserved(a) && FreshFor(a, c.kvTargets, names)
    ensures FullyApplied(Update(a, c.kvTargets, false, names), c)
  {
    FullSettles(a, c, names);
    ServedAndReachable(Update(a, c.kvTargets, false, names), c);
  }

  ghost predicate FullyApplied(b: Pools, c: ComponentConfigs) {
    && b.published == b.mapped && b.mapped.Keys == c.kvTargets.Keys && Served(b, c)
    && (AllReachable(b, c.routing.serverList) <==> Routable(c))
  }

  lemma SwitchDone(
    a: Pools, m: Pools, c: ComponentConfigs, names: map<Endpoint, PoolId>, again: map<Endpoint, PoolId>)
    requires Conserved(a) && FreshFor(a, c.kvTargets, names)
    requires m == Update(a, c.kvTargets, true, names) && FreshFor(m, c.kvTargets, again)
    ensures var b := Update(m, c.kvTargets, false, again);
            b == Update(a, c.kvTargets, false, names) && FullyApplied(b, c)
  {
    TwoUpdatesAreOne(a, m, c.kvTargets, names, again);
    FullServes(a, c, names);
  }
}
