/**
 From a configuration to a created cluster: who starts the cluster, whom the others join, and
 who publishes the API port.
 */
module Bootstrap {
  import opened ClusterConfig
  import opened ClusterCreate
  import opened IPSets
  import opened Ipam
  import opened Names
  import opened PortChanges
  import opened PortLaws
  import opened PortOrder
  import opened PortRuns
  import opened Ports
  import opened Tables
  import opened TransformPorts
  import opened Types
  import opened Wrappers

  // ---------- joining ----------

  /** With at least one server the first node to be created is the server of index 0. */
  lemma ServerZeroFirst(c: Cluster, servers: nat, agents: nat)
    requires Consists(c, servers, agents, servers) && servers > 0
    ensures var order := CreationOrder(c.nodes, c.initNode);
            |order| > 0 && IsConfigured(order[0], c.name, Server, 0, servers > 1)
  {
    hide GenerateNodeName, LoadBalancerName;
    var f := if c.lb == null then 0 else 1;
    assert IsConfigured(c.nodes[f], c.name, Server, 0, servers > 1);
    if servers == 1 {
      NextNode(c.nodes, null, f);
      if f == 1 {
        NextNode(c.nodes, null, 0);
        assert c.nodes[..0] == [];
      }
      StartsWith(c.nodes, null, f + 1);
    }
  }

  /**
   Bootstrapping: among the servers and agents in order of creation the first is the server of
   index 0, which joins nobody, and every node that joins comes after it; its URL names that server.
   */
  lemma JoinersComeLater(c: Cluster, servers: nat, agents: nat, k: nat)
    requires Consists(c, servers, agents, servers) && servers > 0
    requires k < |CreationOrder(c.nodes, c.initNode)|
    ensures var order := CreationOrder(c.nodes, c.initNode);
            && order[0].name == GenerateNodeName(c.name, Server, 0) && !Joins(order[0], c.initNode)
            && (Joins(order[k], c.initNode) ==>
                  && k > 0
                  && JoinEnv(order[k], c.initNode, c.name) ==
                     [CONNECT_URL + "https://" + order[0].name + ":" + API_PORT])
  {
    hide GenerateNodeName, LoadBalancerName;
    ServerZeroFirst(c, servers, agents);
  }

  /**
   Every server and agent gets the URL of the server of index 0, except that server itself: the
   environment that set-up gives a node, entry by entry.
   */
  lemma WhoJoins(c: Cluster, servers: nat, agents: nat, n: Node, global: Globals)
    requires Consists(c, servers, agents, servers) && servers > 0
    requires n in c.nodes && (n.role == Server || n.role == Agent)
    ensures var zero := "k3d-" + c.name + "-server-0";
            SetupEnv(c, n, global) ==
            global.env + (if n.name == zero then [] else ["K3S_URL=https://" + zero + ":6443"]) +
            ["K3S_KUBECONFIG_OUTPUT=/output/kubeconfig.yaml"]
  {
    hide GenerateNodeName, LoadBalancerName;
    NodeNames(c.name);
    ZeroByName(c, servers, agents, n);
    assert ConnectionEnv(c.name) == "K3S_URL=https://" + ("k3d-" + c.name + "-server-0") + ":6443";
  }

  /** The server of index 0 is the one of that name: the init server, or the only server. */
  lemma ZeroByName(c: Cluster, servers: nat, agents: nat, n: Node)
    requires Consists(c, servers, agents, servers) && servers > 0
    requires n in c.nodes && (n.role == Server || n.role == Agent)
    ensures n.name == GenerateNodeName(c.name, Server, 0) <==>
            n.role == Server && (c.initNode == null || n == c.initNode)
    ensures n.isInit <==> n == c.initNode
  {
    hide GenerateNodeName, LoadBalancerName;
    var f := if c.lb == null then 0 else 1;
    var k :| 0 <= k < |c.nodes| && c.nodes[k] == n;
    if k < f + servers {
      NodeNameInjectiveIf(c.name, Server, k - f);
    } else {
      NodeNameInjectiveIf(c.name, Agent, k - f - servers);
    }
  }

  lemma NodeNameInjectiveIf(cluster: string, role: Role, index: nat)
    ensures GenerateNodeName(cluster, role, index) == GenerateNodeName(cluster, Server, 0) ==>
              role == Server && index == 0
  {
    if GenerateNodeName(cluster, role, index) == GenerateNodeName(cluster, Server, 0) {
      NodeNameInjective(cluster, role, index, cluster, Server, 0);
    }
  }

  /** The keys that set-up gives a value of its own. */
  predicate IsOwnLabel(key: string) {
    key in ["app", "k3d.version", "k3d.role", "k3d.server.init", "k3d.node.staticIP",
            "k3d.server.api.hostIP", "k3d.server.api.host", "k3d.server.api.port"]
  }

  /** The labels of a created node, one by one. */
  lemma WhatLabelsSay(c: Cluster, servers: nat, agents: nat, n: Node, labels: Labels, global: Globals, managed: bool)
    requires Consists(c, servers, agents, servers) && servers > 0
    requires n in c.nodes && (n.role == Server || n.role == Agent)
    ensures var l := CreatedLabels(c, labels, n, global, managed);
            && "app" in l && l["app"] == "k3d"
            && "k3d.version" in l && l["k3d.version"] == global.version
            && "k3d.role" in l && l["k3d.role"] == (if n.role == Server then "server" else "agent")
            && (n.role == Server ==>
                  && "k3d.server.api.hostIP" in l && l["k3d.server.api.hostIP"] == c.apiBinding.hostIP
                  && "k3d.server.api.port" in l && l["k3d.server.api.port"] == c.apiBinding.hostPort
                  && "k3d.server.api.host" in l && l["k3d.server.api.host"] == global.apiHost)
            && (n.role == Server && managed && n.ip.Some? ==>
                  "k3d.node.staticIP" in l && l["k3d.node.staticIP"] == global.text(n.ip.value))
            && (n.role == Server && servers > 1 && "k3d.server.init" !in global.labels ==>
                  "k3d.server.init" in l &&
                  l["k3d.server.init"] == if n.name == "k3d-" + c.name + "-server-0" then "true" else "false")
            && (forall k | !IsOwnLabel(k) ::
                  (k in l <==> k in labels || k in global.labels) &&
                  (k in l ==> l[k] == if k in global.labels then global.labels[k] else labels[k]))
  {
    hide GenerateNodeName, LoadBalancerName, Consists;
    NodeNames(c.name);
    ZeroByName(c, servers, agents, n);
    InitOfSeveral(c, servers, agents);
    assert RoleName(Server) == "server" && RoleName(Agent) == "agent";
    LabelKeys();
  }

  lemma InitOfSeveral(c: Cluster, servers: nat, agents: nat)
    requires Consists(c, servers, agents, servers) && servers > 0
    ensures c.initNode != null <==> servers > 1
  {}

  lemma LabelKeys()
    ensures forall k | !IsOwnLabel(k) ::
              k !in [LABEL_IS_INIT, LABEL_STATIC_IP, LABEL_ROLE, LABEL_API_HOST_IP, LABEL_API_HOST, LABEL_API_PORT,
                     "app", "k3d.version"]
  {}

  /** Exactly the servers and agents are created, each once. */
  lemma {:induction false} EveryNodeOnce(nodes: seq<Node>, init: Node?)
    requires forall i, j | 0 <= i < j < |nodes| :: nodes[i] != nodes[j]
    requires init != null ==> init in nodes && init.role == Server
    ensures var order := CreationOrder(nodes, init);
            && (forall n :: n in order <==> n in nodes && (n.role == Server || n.role == Agent))
            && (forall i, j | 0 <= i < j < |order| :: order[i] != order[j])
  {
    OthersOnce(nodes, init);
    OthersMembers(nodes, init);
  }

  lemma {:induction false} OthersOnce(nodes: seq<Node>, init: Node?)
    requires forall i, j | 0 <= i < j < |nodes| :: nodes[i] != nodes[j]
    ensures forall n :: n in Others(nodes, init) <==> n in nodes && n != init && (n.role == Server || n.role == Agent)
    ensures forall i, j | 0 <= i < j < |Others(nodes, init)| :: Others(nodes, init)[i] != Others(nodes, init)[j]
  {
    if |nodes| > 0 {
      var front, last := nodes[..|nodes| - 1], nodes[|nodes| - 1];
      OthersOnce(front, init);
      assert nodes == front + [last];
    }
  }

  lemma ConsistsIsValid(c: Cluster, servers: nat, agents: nat)
    requires Consists(c, servers, agents, servers)
    ensures Valid(c)
  {
    hide GenerateNodeName, LoadBalancerName;
    var f := if c.lb == null then 0 else 1;
    assert servers > 0 ==> IsConfigured(c.nodes[f], c.name, Server, 0, servers > 1);
  }

  lemma LoadbalancerIsNode(c: Cluster, servers: nat, agents: nat)
    requires Consists(c, servers, agents, servers)
    ensures c.lb != null ==> c.lb.node in c.nodes && c.lb.node.role == LoadBalancer
    ensures c.lb != null && servers > 0 ==> |c.nodes| > 1
  {}

  // ---------- the API port ----------

  /** `n` binds the API port as configured, and no other node has a binding under that key. */
  ghost predicate PublishesAlone(nodes: seq<Node>, n: Node, binding: PortBinding)
    reads (set n | n in nodes)`ports
  {
    && n in nodes && API_PORT in n.ports && n.ports[API_PORT] == [binding]
    && forall m | m in nodes && API_PORT in m.ports :: m == n
  }

  /** Before creation only a load balancer has the API port. */
  ghost predicate ApiPortPrepared(c: Cluster)
    reads c, (set n | n in c.nodes)`ports
  {
    if c.lb == null then forall n | n in c.nodes :: API_PORT !in n.ports
    else PublishesAlone(c.nodes, c.lb.node, c.apiBinding)
  }

  lemma {:induction false} SelectNone(mappings: seq<PortMapping>, p: Port)
    requires forall m | m in mappings :: m.port != p
    ensures Select(Entries(mappings), p) == []
  {
    if |mappings| > 0 {
      SelectNone(mappings[..|mappings| - 1], p);
    }
  }

  lemma ChangedElsewhere(ports: PortMap, mappings: seq<PortMapping>, removal: bool, p: Port)
    requires forall m | m in mappings :: m.port != p
    ensures Agree(ChangedPorts(ports, mappings, removal), ports, p)
  {
    hide AddEntries, RemoveEntries, RemoveAll, Entries, Select;
    SelectNone(mappings, p);
    AddEntriesAt(ports, Entries(mappings), p);
    RemoveEntriesAt(ports, Entries(mappings), p);
    NoneRemoved(Get(ports, p));
  }

  lemma NoneRemoved(xs: seq<PortBinding>)
    ensures RemoveAll(xs, []) == xs
  {}

  /** No change of the run touches the port `p`. */
  ghost predicate Avoids(cs: seq<Change>, p: Port) {
    forall c | c in cs && !c.Refused? :: forall m | m in c.mappings :: m.port != p
  }

  lemma {:induction false} RunElsewhere(s: State, lb: Node?, cs: seq<Change>, n: Node, p: Port)
    requires Avoids(cs, p)
    ensures Agree(Bound(Run(s, lb, cs).state.bindings, n), Bound(s.bindings, n), p)
  {
    hide ChangedPorts, ChangedTargets, Loops;
    if |cs| > 0 {
      var front, last := cs[..|cs| - 1], cs[|cs| - 1];
      RunElsewhere(s, lb, front, n, p);
      var r := Run(s, lb, front);
      if r.ok && !last.Refused? {
        assert last in cs;
        ChangedElsewhere(Bound(r.state.bindings, n), last.mappings, last.removal, p);
      }
    }
  }

  /** Parsed mappings name their port with a protocol, so they never use the bare API port. */
  ghost predicate Parsed(specs: seq<PortSpec>) {
    forall spec | spec in specs && spec.mappings.Some? :: forall m | m in spec.mappings.value :: '/' in m.port
  }

  lemma SpecsAvoidApiPort(nodes: seq<Node>, specs: seq<PortSpec>, orders: seq<seq<string>>)
    requires Parsed(specs) && AreOrders(orders, specs)
    ensures Avoids(AllChanges(nodes, specs, orders), API_PORT)
  {
    hide AllChanges, IsOrder;
    AllChangesProper(nodes, specs, orders, null);
    forall c | c in AllChanges(nodes, specs, orders) && !c.Refused?
      ensures forall m | m in c.mappings :: m.port != API_PORT
    {
      var i :| 0 <= i < |specs| && Proper(nodes, c, specs[i], null);
      assert specs[i] in specs;
      assert '/' !in API_PORT;
    }
  }

  // ---------- from configuration to creation ----------

  /** After changes that avoid the API port it is published as before. */
  lemma StillPrepared(c: Cluster, s: State)
    requires c.lb != null ==> c.lb.node in c.nodes
    requires if c.lb == null then forall n | n in c.nodes :: API_PORT !in Bound(s.bindings, n)
             else forall n | n in c.nodes :: (API_PORT in Bound(s.bindings, n) <==> n == c.lb.node)
    requires c.lb != null ==> Get(Bound(s.bindings, c.lb.node), API_PORT) == [c.apiBinding]
    requires forall n | n in c.nodes :: Agree(n.ports, Bound(s.bindings, n), API_PORT)
    ensures ApiPortPrepared(c)
  {}

  /** The port mappings of the configuration applied to its cluster. */
  method MapPorts(c: Cluster, specs: seq<PortSpec>, ghost servers: nat, ghost agents: nat) returns (ok: bool)
    requires Parsed(specs) && Consists(c, servers, agents, servers) && ApiPortPrepared(c)
    modifies c.lb, NodeSet(c.nodes, c.lb)`ports
    ensures Consists(c, servers, agents, servers) && ApiPortPrepared(c)
    ensures old(Sound(StateOf(c.nodes, c.lb), Backends(c.nodes))) ==> Sound(StateOf(c.nodes, c.lb), Backends(c.nodes))
    ensures c.lb != null && servers > 0 && ok && (forall spec | spec in specs :: !spec.removal) ==>
              (old(Covered(StateOf(c.nodes, c.lb), c.lb.node)) ==> Covered(StateOf(c.nodes, c.lb), c.lb.node))
  {
    hide Consists, Sound, Covered, Run, AllChanges, IsOrder, ApiPortPrepared;
    LoadbalancerIsNode(c, servers, agents);
    ghost var s := StateOf(c.nodes, c.lb);
    PreparedState(c, s);
    ghost var orders;
    ok, orders := TransformPorts.TransformPorts(c.nodes, c.lb, specs);
    ghost var tried := specs[..|orders|];
    SpecsAvoidApiPort(c.nodes, tried, orders);
    forall n | n in c.nodes ensures Agree(n.ports, Bound(s.bindings, n), API_PORT) {
      RunElsewhere(s, Frontend(c.lb), AllChanges(c.nodes, tried, orders), n, API_PORT);
    }
    StillPrepared(c, s);
    if Sound(s, Backends(c.nodes)) {
      TransformKeepsSound(c.nodes, c.lb, tried, orders, s);
    }
    if c.lb != null && servers > 0 && ok && (forall spec | spec in specs :: !spec.removal) && Covered(s, c.lb.node) {
      TransformKeepsCovered(c.nodes, c.lb, tried, orders, s);
    }
  }

  lemma PreparedState(c: Cluster, s: State)
    requires ApiPortPrepared(c) && s == StateOf(c.nodes, c.lb)
    ensures if c.lb == null then forall n | n in c.nodes :: API_PORT !in Bound(s.bindings, n)
            else forall n | n in c.nodes :: (API_PORT in Bound(s.bindings, n) <==> n == c.lb.node)
    ensures c.lb != null ==> Get(Bound(s.bindings, c.lb.node), API_PORT) == [c.apiBinding]
  {}

  /** The cluster of a configuration, with its port mappings. */
  method ConfigureCluster(name: string, servers: nat, agents: nat, disableLoadbalancer: bool,
                          apiBinding: PortBinding, specs: seq<PortSpec>)
    returns (ok: bool, c: Cluster)
    requires Parsed(specs)
    ensures fresh(c) && (forall n | n in c.nodes :: fresh(n)) && (c.lb != null ==> fresh(c.lb) && c.lb.node in c.nodes)
    ensures c.name == name && c.apiBinding == apiBinding
    ensures Consists(c, servers, agents, servers) && (c.lb == null <==> disableLoadbalancer)
    ensures ApiPortPrepared(c)
    ensures servers > 0 && c.lb != null ==> Sound(StateOf(c.nodes, c.lb), Backends(c.nodes))
    ensures servers > 0 && c.lb != null && ok && (forall spec | spec in specs :: !spec.removal) ==>
              Covered(StateOf(c.nodes, c.lb), c.lb.node)
  {
    hide Consists, Sound, Covered, Parsed;
    c := TransformSimpleToClusterConfig(name, servers, agents, disableLoadbalancer, apiBinding);
    LoadbalancerIsNode(c, servers, agents);
    if servers > 0 && c.lb != null {
      StartIsSound(c, servers, agents);
    }
    ok := MapPorts(c, specs, servers, agents);
  }

  // ---------- counting servers ----------

  lemma {:induction false} CountOthers(nodes: seq<Node>, init: Node?)
    requires forall i, j | 0 <= i < j < |nodes| :: nodes[i] != nodes[j]
    requires init != null ==> init.role == Server
    ensures CountServers(Others(nodes, init)) == CountServers(nodes) - if init in nodes then 1 else 0
  {
    hide CountServers;
    if |nodes| == 0 {
      CountOne(null);
    } else {
      var front, last := nodes[..|nodes| - 1], nodes[|nodes| - 1];
      CountOthers(front, init);
      assert nodes == front + [last];
      CountNext(front, last);
      CountNext(Others(front, init), last);
    }
  }

  lemma CountNext(front: seq<Node>, last: Node)
    ensures CountServers(front + [last]) == CountServers(front) + if last.role == Server then 1 else 0
  {
    assert (front + [last])[..|front|] == front;
  }

  lemma {:induction false} CountAppend(a: seq<Node>, b: seq<Node>)
    ensures CountServers(a + b) == CountServers(a) + CountServers(b)
  {
    if b == [] {
      assert a + b == a;
    } else {
      assert (a + b)[..|a + b| - 1] == a + b[..|b| - 1];
      CountAppend(a, b[..|b| - 1]);
    }
  }

  lemma {:induction false} CountFirst(c: Cluster, servers: nat, agents: nat, k: nat)
    requires Consists(c, servers, agents, servers) && k <= |c.nodes|
    ensures var f := if c.lb == null then 0 else 1;
            CountServers(c.nodes[..k]) == if k <= f then 0 else if k <= f + servers then k - f else servers
  {
    hide GenerateNodeName, LoadBalancerName;
    if k > 0 {
      CountFirst(c, servers, agents, k - 1);
      assert c.nodes[..k][..k - 1] == c.nodes[..k - 1];
    }
  }

  /** As many servers are created as were configured. */
  lemma CountCreated(c: Cluster, servers: nat, agents: nat)
    requires Consists(c, servers, agents, servers)
    ensures CountServers(CreationOrder(c.nodes, c.initNode)) == servers
  {
    hide Consists, CountServers, Others;
    ConsistsIsValid(c, servers, agents);
    CountFirst(c, servers, agents, |c.nodes|);
    assert c.nodes[..|c.nodes|] == c.nodes;
    Sizes(c, servers, agents);
    CountOthers(c.nodes, c.initNode);
    var first := if c.initNode == null then [] else [c.initNode];
    CountAppend(first, Others(c.nodes, c.initNode));
    CountOne(c.initNode);
  }

  lemma Sizes(c: Cluster, servers: nat, agents: nat)
    requires Consists(c, servers, agents, servers)
    ensures |c.nodes| == (if c.lb == null then 0 else 1) + servers + agents
  {}

  lemma CountOne(n: Node?)
    requires n != null ==> n.role == Server
    ensures CountServers([]) == 0 && (n != null ==> CountServers([n]) == 1)
  {
    assert n != null ==> [n][..0] == [];
  }

  // ---------- creating the configured cluster ----------

  /** One address is reserved when a managed network is prepared. */
  method ClusterPrepNetwork(network: Network?) returns (ok: bool, ghost asked: seq<seq<Addr>>, ghost given: seq<Addr>)
    requires network != null ==> ValidPrefix(network.prefix)
    modifies network
    ensures Assigned(network, if network == null then [] else old(network.ipsUsed), asked, given)
    ensures ok ==> |given| == |asked| == if network == null then 0 else 1
    ensures ok && network != null ==> Gateway(network.prefix, network.gateway).Some?
  {
    hide IsRun;
    ok, asked, given := true, [], [];
    if network != null {
      ghost var known := network.ipsUsed;
      NoRequests(network, known);
      var ip;
      ip, asked, given := RequestIP(network, known, [], []);
      ok := ip.Some?;
    }
  }

  /** After creation exactly one node publishes the API port. */
  lemma OnePublisher(c: Cluster, nodes: seq<Node>, start: Start, created: seq<Node>, api: Node?, global: Globals,
                     managed: bool)
    requires start.Keys == (set n | n in nodes) && Reached(c, start, created, api, global, managed)
    requires if api == null then exists n | n in nodes :: StartsAlone(nodes, start, n, c.apiBinding)
             else api in nodes && forall n | n in nodes :: API_PORT !in start[n].ports
    ensures exists n | n in nodes :: PublishesAlone(nodes, n, c.apiBinding)
  {
    if api == null {
      var n :| n in nodes && StartsAlone(nodes, start, n, c.apiBinding);
      assert PublishesAlone(nodes, n, c.apiBinding);
    } else {
      assert PublishesAlone(nodes, api, c.apiBinding);
    }
  }

  ghost predicate StartsAlone(nodes: seq<Node>, start: Start, n: Node, binding: PortBinding)
    requires forall m | m in nodes :: m in start
  {
    && n in nodes && API_PORT in start[n].ports && start[n].ports[API_PORT] == [binding]
    && forall m | m in nodes && API_PORT in start[m].ports :: m == n
  }

  lemma PreparedStart(c: Cluster, servers: nat, agents: nat)
    requires Consists(c, servers, agents, servers) && servers > 0 && ApiPortPrepared(c)
    ensures var start, api := StartOf(c), Publisher(c.nodes, c.initNode, c.lb == null);
            && start.Keys == (set n | n in c.nodes)
            && (api == null <==> c.lb != null) && (c.lb != null ==> c.lb.node in c.nodes)
            && if c.lb != null then StartsAlone(c.nodes, start, c.lb.node, c.apiBinding)
               else api in c.nodes && forall n | n in c.nodes :: API_PORT !in start[n].ports
  {
    hide GenerateNodeName, LoadBalancerName;
    ConsistsIsValid(c, servers, agents);
    FirstServerMember(c.nodes);
    if c.lb != null {
      assert StartsAlone(c.nodes, StartOf(c), c.lb.node, c.apiBinding);
    } else {
      assert IsConfigured(c.nodes[0], c.name, Server, 0, servers > 1);
    }
  }

  // ---------- the addresses of the servers ----------

  /** With distinct addresses recorded in order, each server has its own. */
  lemma {:induction false} ServersApart(nodes: seq<Node>, given: seq<Addr>)
    requires forall i, j | 0 <= i < j < |nodes| :: nodes[i] != nodes[j]
    requires forall i, j | 0 <= i < j < |given| :: given[i] != given[j]
    requires |given| == CountServers(nodes) && forall i | 0 <= i < |given| :: Addresses(nodes)[i] == Some(given[i])
    ensures forall n | n in nodes && n.role == Server :: n.ip.Some? && n.ip.value in given
    ensures forall m, n | m in nodes && n in nodes && m.role == n.role == Server && m != n :: m.ip != n.ip
  {
    hide CountServers;
    if |nodes| == 0 {
      CountOne(null);
    } else {
      var front, last := nodes[..|nodes| - 1], nodes[|nodes| - 1];
      assert nodes == front + [last];
      CountNext(front, last);
      var before := if last.role == Server then given[..|given| - 1] else given;
      assert forall i | 0 <= i < |before| :: Addresses(front)[i] == Addresses(nodes)[i];
      ServersApart(front, before);
      if last.role == Server {
        var a := given[|given| - 1];
        assert Addresses(nodes)[|given| - 1] == last.ip;
        assert last.ip == Some(a) && a in given && a !in before;
        assert forall n | n in front && n.role == Server :: n.ip.value in before && n.ip.value in given;
      }
    }
  }

  /** An address no request may answer with: reserved by the prefix, the gateway, or `taken`. */
  predicate Unusable(network: Network, taken: seq<Addr>, a: Addr)
    requires ValidPrefix(network.prefix)
  {
    || a < First(network.prefix) || a > Last(network.prefix)
    || a == network.prefix.addr || a == Last(network.prefix)
    || Gateway(network.prefix, network.gateway) == Some(a) || a in taken
  }

  /** Every server has a usable address, and no two servers share one. */
  ghost predicate ServersAddressed(network: Network, nodes: seq<Node>, taken: seq<Addr>)
    requires ValidPrefix(network.prefix)
    reads (set n | n in nodes)`ip
  {
    && (forall n | n in nodes && n.role == Server :: n.ip.Some? && !Unusable(network, taken, n.ip.value))
    && (forall m, n | m in nodes && n in nodes && m.role == n.role == Server && m != n :: m.ip != n.ip)
  }

  /** The same in numbers: outside the block of the prefix, its special addresses, the gateway, and the taken ones. */
  lemma UnusableMeaning(network: Network, taken: seq<Addr>, a: Addr)
    requires ValidPrefix(network.prefix)
    ensures var p, size := network.prefix, Pow2(network.prefix.width - network.prefix.bits);
            Unusable(network, taken, a) <==>
              || a / size != p.addr / size || a % size == size - 1 || a == p.addr
              || network.gateway == Some(a)
              || (network.gateway.None? && p.addr + 1 < Pow2(p.width) && a == p.addr + 1)
              || a in taken
  {
    var p, size := network.prefix, Pow2(network.prefix.width - network.prefix.bits);
    hide Pow2;
    SameBlock(p.addr, size, a);
    var first := p.addr - p.addr % size;
    assert First(p) == first && Last(p) == first + size - 1;
    assert Gateway(p, network.gateway) == Some(a) <==>
           network.gateway == Some(a) || (network.gateway.None? && p.addr + 1 < Pow2(p.width) && a == p.addr + 1);
    hide First, Last, Gateway;
  }

  lemma AddressedMeaning(network: Network, nodes: seq<Node>, taken: seq<Addr>)
    requires ValidPrefix(network.prefix)
    ensures ServersAddressed(network, nodes, taken) <==>
              && (forall n | n in nodes && n.role == Server ::
                    n.ip.Some? &&
                    var p, a := network.prefix, n.ip.value;
                    var size := Pow2(p.width - p.bits);
                    && a / size == p.addr / size && a % size != size - 1 && a != p.addr
                    && network.gateway != Some(a)
                    && !(network.gateway.None? && p.addr + 1 < Pow2(p.width) && a == p.addr + 1)
                    && a !in taken)
              && (forall m, n | m in nodes && n in nodes && m.role == Server && n.role == Server && m != n ::
                    m.ip != n.ip)
  {
    hide Unusable, Pow2;
    forall a {
      UnusableMeaning(network, taken, a);
    }
  }

  /** What a run that began with the reservation means for the servers that recorded the rest of it. */
  lemma RunAddressesServers(network: Network, nodes: seq<Node>, known: seq<Addr>, asked: seq<seq<Addr>>,
                            given: seq<Addr>)
    requires ValidPrefix(network.prefix) && Assigned(network, known, asked, given)
    requires Gateway(network.prefix, network.gateway).Some? && |given| > 0 && Recorded(network, nodes, given[1..])
    requires forall i, j | 0 <= i < j < |nodes| :: nodes[i] != nodes[j]
    ensures ServersAddressed(network, nodes, known + [given[0]])
  {
    hide IsRun, First, Last, Gateway, Addresses;
    AssignmentsSafe(network.prefix, Gateway(network.prefix, network.gateway).value, known, asked, given);
    ServersApart(nodes, given[1..]);
    forall n | n in nodes && n.role == Server ensures !Unusable(network, known + [given[0]], n.ip.value) {
      var i :| 0 <= i < |given[1..]| && given[1..][i] == n.ip.value;
      assert given[i + 1] == n.ip.value;
    }
  }

  /** The servers are among the nodes created. */
  lemma AllAddressed(c: Cluster, network: Network, order: seq<Node>, taken: seq<Addr>)
    requires Valid(c) && order == CreationOrder(c.nodes, c.initNode)
    requires ValidPrefix(network.prefix) && ServersAddressed(network, order, taken)
    ensures ServersAddressed(network, c.nodes, taken)
  {
    hide Unusable;
    EveryNodeOnce(c.nodes, c.initNode);
  }

  /** The API port is published by the load balancer alone, or without one by the server of index 0 alone. */
  ghost predicate ApiPublished(c: Cluster)
    reads c`lb, c`nodes, (set n | n in c.nodes)`name, (set n | n in c.nodes)`ports
  {
    forall n | n in c.nodes ::
      && ("6443" in n.ports <==>
            if c.lb == null then n.name == "k3d-" + c.name + "-server-0" else n == c.lb.node)
      && ("6443" in n.ports ==> n.ports["6443"] == [c.apiBinding])
  }

  /** The reservation, and then the nodes in their order. */
  method CreateNodes(c: Cluster, network: Network?, global: Globals, ghost servers: nat, ghost agents: nat)
    returns (ok: bool, created: seq<Node>, ghost asked: seq<seq<Addr>>, ghost given: seq<Addr>)
    requires Consists(c, servers, agents, servers) && servers > 0 && ApiPortPrepared(c)
    requires network != null ==> ValidPrefix(network.prefix)
    modifies c`lb, c`nodes, c.lb, BalancerNode(c)`labels, BalancerNode(c)`env
    modifies c.nodes`env, c.nodes`labels, c.nodes`ports, c.nodes`ip, network
    ensures c.nodes == old(c.nodes) && c.lb == old(c.lb) && Consists(c, servers, agents, servers)
    ensures ok ==> created == CreationOrder(c.nodes, c.initNode) + if c.lb == null then [] else [c.lb.node]
    ensures !ok ==> created <= CreationOrder(c.nodes, c.initNode)
    ensures ok ==> forall n | n in old(c.nodes) && (n.role == Server || n.role == Agent) ::
              && n.env == old(n.env) + SetupEnv(c, n, global)
              && n.labels == CreatedLabels(c, old(n.labels), n, global, network != null)
    ensures ok ==> ApiPublished(c) && exists n | n in c.nodes :: PublishesAlone(c.nodes, n, c.apiBinding)
    ensures Assigned(network, if network == null then [] else old(network.ipsUsed), asked, given)
    ensures ok && network != null ==> |given| == |asked| == 1 + servers
    ensures ok && network != null ==> ServersAddressed(network, c.nodes, old(network.ipsUsed) + [given[0]])
  {
    hide Consists, IsRun, CreationOrder, Publisher, Valid, Reached, SetupEnv, CreatedLabels, ApiPublished;
    hide ApiPortPrepared, StartsAlone, PublishesAlone, Assigned, Recorded, ServersAddressed, CountServers, Gateway;
    ConsistsIsValid(c, servers, agents);
    CountCreated(c, servers, agents);
    PreparedStart(c, servers, agents);
    ghost var start, order := StartOf(c), CreationOrder(c.nodes, c.initNode);
    ghost var api := Publisher(c.nodes, c.initNode, c.lb == null);
    ghost var known := if network == null then [] else network.ipsUsed;
    created := [];
    ok, asked, given := ClusterPrepNetwork(network);
    if !ok {
      NoneCreated(order);
      return;
    }
    KnownAfter(network, known, asked, given);
    ghost var asked', given';
    ok, created, asked', given' := ClusterCreate.ClusterCreate(c, c.lb == null, network, global, known + given);
    AssignedConcat(network, known, asked, given, asked', given');
    if ok {
      OnePublisher(c, c.nodes, start, order, api, global, network != null);
      CreatedEnv(c, start, order, api, global, network != null);
      ThePublisher(c, servers, agents, start, order, global, network != null);
      if network != null {
        AddressesAfter(c, network, order, servers, known, asked, given, asked', given');
      }
    }
    asked, given := asked + asked', given + given';
  }

  /**
   A configured cluster is created: the nodes in their order, the server of index 0 first; every other
   server and every agent gets the URL of that server and all get their labels; one node publishes the
   API port; in a managed network one address is reserved and every server has one of its own.
   */
  method CreateCluster(c: Cluster, network: Network?, global: Globals, ghost servers: nat, ghost agents: nat)
    returns (ok: bool, created: seq<Node>, ghost asked: seq<seq<Addr>>, ghost given: seq<Addr>)
    requires Consists(c, servers, agents, servers) && servers > 0 && ApiPortPrepared(c)
    requires network != null ==> ValidPrefix(network.prefix)
    modifies c`lb, c`nodes, c.lb, BalancerNode(c)`labels, BalancerNode(c)`env
    modifies c.nodes`env, c.nodes`labels, c.nodes`ports, c.nodes`ip, network
    ensures c.nodes == old(c.nodes) && c.lb == old(c.lb) && Consists(c, servers, agents, servers)
    ensures ok ==> created == CreationOrder(c.nodes, c.initNode) + if c.lb == null then [] else [c.lb.node]
    ensures !ok ==> created <= CreationOrder(c.nodes, c.initNode)
    ensures ok ==> created[0].name == "k3d-" + c.name + "-server-0"
    ensures ok ==> forall n | n in c.nodes && (n.role == Server || n.role == Agent) ::
              var zero := "k3d-" + c.name + "-server-0";
              n.env == old(n.env) +
                       (global.env + (if n.name == zero then [] else ["K3S_URL=https://" + zero + ":6443"]) +
                        ["K3S_KUBECONFIG_OUTPUT=/output/kubeconfig.yaml"])
    ensures ok ==> forall n | n in c.nodes && (n.role == Server || n.role == Agent) ::
              n.labels == CreatedLabels(c, old(n.labels), n, global, network != null)
    ensures ok ==> forall n | n in c.nodes ::
              && ("6443" in n.ports <==>
                    if c.lb == null then n.name == "k3d-" + c.name + "-server-0" else n == c.lb.node)
              && ("6443" in n.ports ==> n.ports["6443"] == [c.apiBinding])
    ensures ok ==> exists n | n in c.nodes :: PublishesAlone(c.nodes, n, c.apiBinding)
    ensures Assigned(network, if network == null then [] else old(network.ipsUsed), asked, given)
    ensures ok && network != null ==> |given| == |asked| == 1 + servers
    ensures ok && network != null ==> ServersAddressed(network, c.nodes, old(network.ipsUsed) + [given[0]])
  {
    hide Consists, IsRun, CreationOrder, ApiPortPrepared, SetupEnv, CreatedLabels, PublishesAlone, Assigned;
    hide ServersAddressed;
    ok, created, asked, given := CreateNodes(c, network, global, servers, agents);
    if ok {
      EachJoins(c, servers, agents, global);
    }
  }

  lemma AddressesAfter(c: Cluster, network: Network, order: seq<Node>, servers: nat, known: seq<Addr>,
                       asked: seq<seq<Addr>>, given: seq<Addr>, asked': seq<seq<Addr>>, given': seq<Addr>)
    requires Valid(c) && order == CreationOrder(c.nodes, c.initNode) && CountServers(order) == servers
    requires ValidPrefix(network.prefix) && Assigned(network, known, asked + asked', given + given')
    requires Gateway(network.prefix, network.gateway).Some? && |given| == 1 && Recorded(network, order, given')
    ensures |given'| == servers
    ensures ServersAddressed(network, c.nodes, known + [(given + given')[0]])
  {
    hide Assigned, ServersAddressed, CreationOrder;
    EveryNodeOnce(c.nodes, c.initNode);
    assert (given + given')[1..] == given';
    RunAddressesServers(network, order, known, asked + asked', given + given');
    AllAddressed(c, network, order, known + [(given + given')[0]]);
  }

  lemma EachJoins(c: Cluster, servers: nat, agents: nat, global: Globals)
    requires Consists(c, servers, agents, servers) && servers > 0
    ensures var order := CreationOrder(c.nodes, c.initNode);
            |order| > 0 && order[0].name == "k3d-" + c.name + "-server-0"
    ensures forall n | n in c.nodes && (n.role == Server || n.role == Agent) ::
              var zero := "k3d-" + c.name + "-server-0";
              SetupEnv(c, n, global) ==
              global.env + (if n.name == zero then [] else ["K3S_URL=https://" + zero + ":6443"]) +
              ["K3S_KUBECONFIG_OUTPUT=/output/kubeconfig.yaml"]
  {
    hide Consists, SetupEnv, CreationOrder, GenerateNodeName;
    ServerZeroFirst(c, servers, agents);
    NodeNames(c.name);
    forall n | n in c.nodes && (n.role == Server || n.role == Agent)
      ensures var zero := "k3d-" + c.name + "-server-0";
              SetupEnv(c, n, global) ==
              global.env + (if n.name == zero then [] else ["K3S_URL=https://" + zero + ":6443"]) +
              ["K3S_KUBECONFIG_OUTPUT=/output/kubeconfig.yaml"]
    {
      WhoJoins(c, servers, agents, n, global);
    }
  }

  /** The publisher of the API port is the load balancer if there is one, and else the server of index 0. */
  lemma ThePublisher(c: Cluster, servers: nat, agents: nat, start: Start, created: seq<Node>, global: Globals,
                     managed: bool)
    requires Consists(c, servers, agents, servers) && servers > 0
    requires start.Keys == (set n | n in c.nodes)
    requires Reached(c, start, created, Publisher(c.nodes, c.initNode, c.lb == null), global, managed)
    requires if c.lb == null then forall n | n in c.nodes :: API_PORT !in start[n].ports
             else StartsAlone(c.nodes, start, c.lb.node, c.apiBinding)
    ensures ApiPublished(c)
  {
    var api := Publisher(c.nodes, c.initNode, c.lb == null);
    NodeNames(c.name);
    forall n | n in c.nodes
      ensures n == api <==> c.lb == null && n.name == "k3d-" + c.name + "-server-0"
    {
      if c.lb == null {
        NoBalancer(c, servers, agents, n);
        ZeroByName(c, servers, agents, n);
        TheFirstServer(c, servers, agents);
      }
    }
    hide Consists, GenerateNodeName;
  }

  lemma NoBalancer(c: Cluster, servers: nat, agents: nat, n: Node)
    requires Consists(c, servers, agents, servers) && c.lb == null && n in c.nodes
    ensures n.role == Server || n.role == Agent
  {
    hide GenerateNodeName;
    var k :| 0 <= k < |c.nodes| && c.nodes[k] == n;
  }

  lemma TheFirstServer(c: Cluster, servers: nat, agents: nat)
    requires Consists(c, servers, agents, servers) && servers > 0 && c.lb == null
    ensures c.initNode == null ==> servers == 1
    ensures ApiServer(c.nodes, c.initNode) == c.nodes[0] && c.nodes[0].role == Server
    ensures forall n | n in c.nodes && n.role == Server && servers == 1 :: n == c.nodes[0]
  {
    hide GenerateNodeName;
    assert IsConfigured(c.nodes[0], c.name, Server, 0, servers > 1);
    FirstServerOf(c.nodes);
  }

  lemma {:induction false} FirstServerOf(nodes: seq<Node>)
    requires nodes != [] && nodes[0].role == Server
    ensures FirstServer(nodes) == nodes[0]
  {
    if |nodes| > 1 {
      FirstServerOf(nodes[..|nodes| - 1]);
    } else {
      assert nodes[..0] == [];
    }
  }

  lemma NoneCreated(order: seq<Node>)
    ensures [] <= order
  {}

  lemma CreatedEnv(c: Cluster, start: Start, order: seq<Node>, api: Node?, global: Globals,
                   managed: bool)
    requires Valid(c) && order == CreationOrder(c.nodes, c.initNode)
    requires start.Keys == (set n | n in c.nodes) && Reached(c, start, order, api, global, managed)
    ensures forall n | n in c.nodes && (n.role == Server || n.role == Agent) ::
              && n.env == start[n].env + SetupEnv(c, n, global)
              && n.labels == CreatedLabels(c, start[n].labels, n, global, managed)
  {
    hide CreatedLabels, SetupEnv, CreationOrder;
    EveryNodeOnce(c.nodes, c.initNode);
    assert forall n | n in order :: Became(c, n, start[n], true, api, global, managed);
  }

  lemma KnownAfter(network: Network?, known: seq<Addr>, asked: seq<seq<Addr>>, given: seq<Addr>)
    requires Assigned(network, known, asked, given)
    ensures network != null ==> network.ipsUsed == known + given
    ensures network != null && Gateway(network.prefix, network.gateway).Some? ==>
              IsRun(network.prefix, Gateway(network.prefix, network.gateway).value, known, asked, given)
  {
    hide IsRun;
  }

  lemma AssignedConcat(network: Network?, known: seq<Addr>, asked: seq<seq<Addr>>, given: seq<Addr>,
                       asked': seq<seq<Addr>>, given': seq<Addr>)
    requires |given| == |asked| && Assigned(network, known + given, asked', given')
    requires network != null && Gateway(network.prefix, network.gateway).Some? ==>
               IsRun(network.prefix, Gateway(network.prefix, network.gateway).value, known, asked, given)
    ensures Assigned(network, known, asked + asked', given + given')
  {
    hide IsRun;
    assert known + given + given' == known + (given + given');
    if network != null && Gateway(network.prefix, network.gateway).Some? {
      RunConcat(network.prefix, Gateway(network.prefix, network.gateway).value, known, asked, given, asked', given');
    }
  }
}
