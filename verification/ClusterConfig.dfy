/**
 From a configuration to a cluster: the load balancer, the servers and the agents, in this order,
 and who starts the cluster when there are several servers.
 */
module ClusterConfig {
  import opened Names
  import opened PortChanges
  import opened PortOrder
  import opened PortRuns
  import opened Ports
  import opened Strings
  import opened Tables
  import opened TransformPorts
  import opened Types

  const API_KEY := API_PORT + ".tcp"

  class Cluster {
    const name: string
    const apiBinding: PortBinding
    var nodes: seq<Node>
    var lb: Loadbalancer?
    var initNode: Node?

    constructor (name: string, apiBinding: PortBinding)
      ensures this.name == name && this.apiBinding == apiBinding
      ensures nodes == [] && lb == null && initNode == null
    {
      this.name, this.apiBinding := name, apiBinding;
      nodes, lb, initNode := [], null, null;
    }
  }

  /** A node as the configuration makes it: named by its role and index. */
  ghost predicate IsConfigured(n: Node, cluster: string, role: Role, index: nat, isInit: bool)
    reads n`name, n`isInit
  {
    n.role == role && n.name == GenerateNodeName(cluster, role, index) && n.isInit == isInit
  }

  /** The nodes of a cluster: the load balancer if there is one, then `servers`, then `agents`. */
  ghost predicate Consists(c: Cluster, servers: nat, agents: nat, total: nat)
    reads c, (set n | n in c.nodes)`name, (set n | n in c.nodes)`isInit
  {
    var f := if c.lb == null then 0 else 1;
    && |c.nodes| == f + servers + agents
    && (forall i, j | 0 <= i < j < |c.nodes| :: c.nodes[i] != c.nodes[j])
    && (c.lb != null ==>
          c.nodes[0] == c.lb.node && c.lb.node.role == LoadBalancer && c.lb.node.name == LoadBalancerName(c.name))
    && (forall k | f <= k < f + servers :: IsConfigured(c.nodes[k], c.name, Server, k - f, k == f && total > 1))
    && (forall k | f + servers <= k < |c.nodes| :: IsConfigured(c.nodes[k], c.name, Agent, k - f - servers, false))
    && c.initNode == (if servers > 0 && total > 1 then c.nodes[f] else null)
  }

  /** The nodes other than the load balancer have neither ports nor environment yet. */
  ghost predicate Untouched(c: Cluster)
    reads c, c.lb, set n | n in c.nodes
  {
    forall n | n in c.nodes && (c.lb == null || n != c.lb.node) :: n.ports == map[] && n.env == []
  }

  method LoadbalancerPrepare(cluster: string, apiBinding: PortBinding) returns (lb: Loadbalancer)
    ensures fresh(lb) && fresh(lb.node) && lb.targets == map[]
    ensures lb.node.role == LoadBalancer && lb.node.name == LoadBalancerName(cluster)
    ensures lb.node.ports == map[API_PORT := [apiBinding]]
    ensures lb.node.env == [] && lb.node.labels == map[] && !lb.node.isInit
  {
    var node := new Node(LoadBalancerName(cluster), LoadBalancer);
    node.ports := map[API_PORT := [apiBinding]];
    lb := new Loadbalancer(node);
  }

  /** The names of the first `n` servers. */
  function ServerNames(cluster: string, n: nat): (names: seq<string>)
    ensures |names| == n
  {
    if n == 0 then [] else ServerNames(cluster, n - 1) + [GenerateNodeName(cluster, Server, n - 1)]
  }

  /** The load-balancer configuration for the API after `n` servers. */
  function ApiTargets(cluster: string, n: nat): Table<string> {
    if n == 0 then map[] else map[API_KEY := ServerNames(cluster, n)]
  }

  method AddApiTarget(lb: Loadbalancer, name: string)
    modifies lb`targets
    ensures lb.targets == AddOne(old(lb.targets), Entry(API_KEY, name))
  {
    lb.targets := lb.targets[API_KEY := Get(lb.targets, API_KEY) + [name]];
  }

  method AddServer(c: Cluster, i: nat, total: nat)
    requires Consists(c, i, 0, total)
    modifies c, c.lb
    ensures Consists(c, i + 1, 0, total) && c.lb == old(c.lb) && (old(Untouched(c)) ==> Untouched(c))
    ensures forall n | n in c.nodes :: n in old(c.nodes) || fresh(n)
    ensures c.lb != null ==>
              c.lb.targets == AddOne(old(c.lb.targets), Entry(API_KEY, GenerateNodeName(c.name, Server, i)))
  {
    hide GenerateNodeName, LoadBalancerName, AddOne;
    var server := new Node(GenerateNodeName(c.name, Server, i), Server);
    if i == 0 && total > 1 {
      server.isInit := true;
      c.initNode := server;
    }
    c.nodes := c.nodes + [server];
    if c.lb != null {
      AddApiTarget(c.lb, server.name);
    }
  }

  method AddAgent(c: Cluster, servers: nat, i: nat)
    requires Consists(c, servers, i, servers)
    modifies c`nodes
    ensures Consists(c, servers, i + 1, servers) && (old(Untouched(c)) ==> Untouched(c))
    ensures forall n | n in c.nodes :: n in old(c.nodes) || fresh(n)
  {
    hide GenerateNodeName, LoadBalancerName;
    var agent := new Node(GenerateNodeName(c.name, Agent, i), Agent);
    c.nodes := c.nodes + [agent];
  }

  method TransformSimpleToClusterConfig(name: string, servers: nat, agents: nat, disableLoadbalancer: bool,
                                        apiBinding: PortBinding)
    returns (c: Cluster)
    ensures fresh(c) && (forall n | n in c.nodes :: fresh(n)) && (c.lb != null ==> fresh(c.lb))
    ensures c.name == name && c.apiBinding == apiBinding
    ensures Consists(c, servers, agents, servers) && Untouched(c)
    ensures c.lb == null <==> disableLoadbalancer
    ensures c.lb != null ==> c.lb.targets == ApiTargets(name, servers)
    ensures c.lb != null ==> c.lb.node.ports == map[API_PORT := [apiBinding]]
  {
    c := new Cluster(name, apiBinding);
    if !disableLoadbalancer {
      c.lb := LoadbalancerPrepare(name, apiBinding);
      c.nodes := c.nodes + [c.lb.node];
    }
    assert Consists(c, 0, 0, servers) && Untouched(c);
    AddAll(c, servers, agents);
  }

  method AddAll(c: Cluster, servers: nat, agents: nat)
    requires Consists(c, 0, 0, servers) && Untouched(c)
    requires c.lb != null ==> c.lb.targets == map[]
    modifies c, c.lb
    ensures Consists(c, servers, agents, servers) && Untouched(c) && c.lb == old(c.lb)
    ensures forall n | n in c.nodes :: n in old(c.nodes) || fresh(n)
    ensures c.lb != null ==> c.lb.targets == ApiTargets(c.name, servers)
  {
    hide Consists, Untouched, AddOne, ApiTargets;
    ApiTargetsStart(c.name);
    for i := 0 to servers
      invariant Consists(c, i, 0, servers) && Untouched(c) && c.lb == old(c.lb)
      invariant forall n | n in c.nodes :: n in old(c.nodes) || fresh(n)
      invariant c.lb != null ==> c.lb.targets == ApiTargets(c.name, i)
    {
      AddServer(c, i, servers);
      ApiTargetsStep(c.name, i);
    }
    for i := 0 to agents
      invariant Consists(c, servers, i, servers) && Untouched(c) && c.lb == old(c.lb)
      invariant forall n | n in c.nodes :: n in old(c.nodes) || fresh(n)
      invariant c.lb != null ==> c.lb.targets == ApiTargets(c.name, servers)
    {
      AddAgent(c, servers, i);
    }
  }

  lemma ApiTargetsStart(cluster: string)
    ensures ApiTargets(cluster, 0) == map[]
  {}

  lemma ApiTargetsStep(cluster: string, i: nat)
    ensures ApiTargets(cluster, i + 1) ==
            AddOne(ApiTargets(cluster, i), Entry(API_KEY, GenerateNodeName(cluster, Server, i)))
  {
    hide GenerateNodeName;
  }

  /** The entry of the API port has all servers in order. */
  lemma {:induction false} ApiTargetsMeaning(cluster: string, n: nat)
    requires n > 0
    ensures var t := ApiTargets(cluster, n);
            && t.Keys == {"6443.tcp"} && |t["6443.tcp"]| == n
            && forall i: nat | i < n :: t["6443.tcp"][i] == GenerateNodeName(cluster, Server, i)
  {
    hide GenerateNodeName;
    ServerNamesAre(cluster, n);
    assert API_KEY == "6443.tcp";
  }

  lemma {:induction false} ServerNamesAre(cluster: string, n: nat)
    ensures forall i: nat | i < n :: ServerNames(cluster, n)[i] == GenerateNodeName(cluster, Server, i)
  {
    hide GenerateNodeName;
    if n > 0 {
      ServerNamesAre(cluster, n - 1);
    }
  }

  /** The nodes of a configured cluster, place by place. */
  lemma NodesAre(c: Cluster, servers: nat, agents: nat)
    requires Consists(c, servers, agents, servers)
    ensures var f := if c.lb == null then 0 else 1;
            && |c.nodes| == f + servers + agents
            && (f == 1 ==> c.nodes[0].role == LoadBalancer && c.nodes[0].name == "k3d-" + c.name + "-serverlb" &&
                           c.nodes[0] == c.lb.node)
            && (forall k | f <= k < f + servers ::
                  && c.nodes[k].role == Server && c.nodes[k].name == GenerateNodeName(c.name, Server, k - f)
                  && (c.nodes[k].isInit <==> k == f && servers > 1))
            && (forall k | f + servers <= k < |c.nodes| ::
                  && c.nodes[k].role == Agent && !c.nodes[k].isInit
                  && c.nodes[k].name == GenerateNodeName(c.name, Agent, k - f - servers))
            && c.initNode == if servers > 1 then c.nodes[f] else null
  {
    NodeNames(c.name);
    hide GenerateNodeName, LoadBalancerName;
  }

  // ---------- where the port mappings start from ----------

  lemma ApiConfigKey()
    ensures ConfigKey(API_PORT) == API_KEY
  {
    SplitNone(API_PORT, '/');
    assert Join([], '/') == "";
  }

  lemma {:induction false} ServerNamesAt(cluster: string, n: nat, x: string)
    requires x in ServerNames(cluster, n)
    ensures exists i | 0 <= i < n :: x == GenerateNodeName(cluster, Server, i)
  {
    hide GenerateNodeName;
    if x in ServerNames(cluster, n - 1) {
      ServerNamesAt(cluster, n - 1, x);
    }
  }

  /**
   A cluster made from a configuration with a load balancer and at least one server starts in a
   sound state in which the API port has its targets.
   */
  lemma StartIsSound(c: Cluster, servers: nat, agents: nat)
    requires Consists(c, servers, agents, servers) && Untouched(c) && servers > 0
    requires c.lb != null && c.lb.targets == ApiTargets(c.name, servers)
    requires c.lb.node.ports == map[API_PORT := [c.apiBinding]]
    ensures Sound(StateOf(c.nodes, c.lb), Backends(c.nodes))
    ensures Covered(StateOf(c.nodes, c.lb), c.lb.node)
  {
    hide GenerateNodeName, LoadBalancerName, ConfigKey;
    ApiConfigKey();
    forall x | x in ServerNames(c.name, servers) ensures x in Backends(c.nodes) {
      ServerNamesAt(c.name, servers, x);
      var i :| 0 <= i < servers && x == GenerateNodeName(c.name, Server, i);
      assert IsConfigured(c.nodes[1 + i], c.name, Server, i, i == 0 && servers > 1);
    }
  }
}
