/**
 Creating the nodes of a cluster: the initializing server first, then the other servers and the
 agents in the order of the list, and the load balancer last.  Servers and agents that join get
 the URL of the first server; without a load balancer one server publishes the API port.
 */
module ClusterCreate {
  import opened ClusterConfig
  import opened FilterNodes
  import opened IPSets
  import opened Ipam
  import opened Names
  import opened NodeEdit
  import opened Types
  import opened Wrappers

  const CONNECT_URL := "K3S_URL="
  const DEFAULT_NODE_ENV := ["K3S_KUBECONFIG_OUTPUT=/output/kubeconfig.yaml"]

  const LABEL_IS_INIT := "k3d.server.init"
  const LABEL_STATIC_IP := "k3d.node.staticIP"
  const LABEL_ROLE := "k3d.role"
  const LABEL_API_HOST_IP := "k3d.server.api.hostIP"
  const LABEL_API_HOST := "k3d.server.api.host"
  const LABEL_API_PORT := "k3d.server.api.port"

  /**
   The environment and the labels that all nodes of a cluster get, the version of k3d, the host name
   of the API, and how an address is written.
   */
  datatype Globals = Globals(env: seq<string>, labels: Labels, version: string, apiHost: string,
                             text: Addr -> string)

  /** Where joining nodes connect: always the server of index 0. */
  function ConnectionEnv(cluster: string): string {
    CONNECT_URL + "https://" + GenerateNodeName(cluster, Server, 0) + ":" + API_PORT
  }

  /** Agents join, and so do servers of a cluster that another server initializes. */
  predicate Joins(n: Node, init: Node?)
    reads n`isInit
  {
    n.role == Agent || (n.role == Server && init != null && !n.isInit)
  }

  function JoinEnv(n: Node, init: Node?, cluster: string): seq<string>
    reads n`isInit
  {
    if Joins(n, init) then [ConnectionEnv(cluster)] else []
  }

  /** The environment that a server or agent gets. */
  function SetupEnv(c: Cluster, n: Node, global: Globals): seq<string>
    reads c`initNode, n`isInit
  {
    global.env + JoinEnv(n, c.initNode, c.name) + DEFAULT_NODE_ENV
  }

  /** The labels that every node gets when it is created, whatever labels it had under these keys. */
  function Filled(labels: Labels, role: Role, version: string): Labels {
    labels["app" := "k3d"]["k3d.version" := version][LABEL_ROLE := RoleName(role)]
  }

  /** The labels of servers that say where the API is. */
  function WithApi(labels: Labels, binding: PortBinding, host: string): Labels {
    labels[LABEL_API_HOST_IP := binding.hostIP][LABEL_API_HOST := host][LABEL_API_PORT := binding.hostPort]
  }

  /** The labels of a server or agent after its set-up; in a managed network a server has an address. */
  function SetupLabels(c: Cluster, labels: Labels, n: Node, global: Globals, managed: bool): Labels
    reads c`initNode, n`isInit, n`ip
  {
    var own := labels + global.labels;
    if n.role == Server then
      var addressed := if managed && n.ip.Some? then own[LABEL_STATIC_IP := global.text(n.ip.value)] else own;
      var joined := if Joins(n, c.initNode) then addressed[LABEL_IS_INIT := "false"] else addressed;
      WithApi(Filled(joined, n.role, global.version), c.apiBinding, global.apiHost)
    else Filled(own, n.role, global.version)
  }

  /** The initializing server is marked before its set-up. */
  function CreatedLabels(c: Cluster, labels: Labels, n: Node, global: Globals, managed: bool): Labels
    reads c`initNode, n`isInit, n`ip
  {
    SetupLabels(c, if n == c.initNode then labels[LABEL_IS_INIT := "true"] else labels, n, global, managed)
  }

  // ---------- who is created when, and who publishes the API port ----------

  /** The servers and agents except the initializing one, in order. */
  function Others(nodes: seq<Node>, init: Node?): seq<Node> {
    if |nodes| == 0 then []
    else
      var front, last := Others(nodes[..|nodes| - 1], init), nodes[|nodes| - 1];
      if (last.role == Server || last.role == Agent) && last != init then front + [last] else front
  }

  function CreationOrder(nodes: seq<Node>, init: Node?): seq<Node> {
    (if init == null then [] else [init]) + Others(nodes, init)
  }

  function FirstServer(nodes: seq<Node>): Node? {
    if |nodes| == 0 then null
    else
      var front, last := FirstServer(nodes[..|nodes| - 1]), nodes[|nodes| - 1];
      if front == null && last.role == Server then last else front
  }

  /** The server that publishes the API port when there is no load balancer. */
  function ApiServer(nodes: seq<Node>, init: Node?): Node? {
    if init != null then init else FirstServer(nodes)
  }

  // ---------- setting up one node ----------

  /** What the requests of a managed network have come to; trivial for other networks. */
  ghost predicate Assigned(network: Network?, known: seq<Addr>, asked: seq<seq<Addr>>, given: seq<Addr>)
    reads network
  {
    network != null ==>
      && ValidPrefix(network.prefix)
      && network.ipsUsed == known + given
      && (Gateway(network.prefix, network.gateway).Some? ==>
            IsRun(network.prefix, Gateway(network.prefix, network.gateway).value, known, asked, given))
  }

  /** A request for an address in a network whose members may have changed. */
  method RequestIP(network: Network, ghost known: seq<Addr>, ghost asked: seq<seq<Addr>>, ghost given: seq<Addr>)
    returns (r: Option<Addr>, ghost asked': seq<seq<Addr>>, ghost given': seq<Addr>)
    requires ValidPrefix(network.prefix)
    requires Assigned(network, known, asked, given) && |given| == |asked|
    modifies network
    ensures Assigned(network, known, asked', given')
    ensures given' == given + if r.Some? then [r.value] else []
    ensures r.Some? ==> |asked'| == |asked| + 1 && Gateway(network.prefix, network.gateway).Some?
  {
    hide IsRun, Free, IsLeast;
    asked', given' := asked, given;
    if * {
      return None, asked', given';  // the network could not be inspected
    }
    var members: seq<Addr> := *;
    var answer := AssignIP(network, members);
    if Gateway(network.prefix, network.gateway).Some? {
      RunStep(network.prefix, network.gateway, Gateway(network.prefix, network.gateway).value,
              known, asked, given, members, answer);
    }
    r := if answer.Address? then Some(answer.ip) else None;
    asked', given' := asked + [members], given + if answer.Address? then [answer.ip] else [];
  }

  /** Labels, environment, address, join URL, and then the container; any of it can fail. */
  method NodeSetup(c: Cluster, node: Node, network: Network?, global: Globals,
                   ghost known: seq<Addr>, ghost asked: seq<seq<Addr>>, ghost given: seq<Addr>)
    returns (ok: bool, ghost asked': seq<seq<Addr>>, ghost given': seq<Addr>)
    requires network != null ==> ValidPrefix(network.prefix)
    requires Assigned(network, known, asked, given) && |given| == |asked|
    modifies node`env, node`labels, node`ip, network
    ensures Assigned(network, known, asked', given')
    ensures ok ==> node.env == old(node.env) + SetupEnv(c, node, global)
    ensures ok ==> node.labels == SetupLabels(c, old(node.labels), node, global, network != null)
    ensures ok ==> |given'| == |asked'|
    ensures ok ==> if node.role == Server && network != null then node.ip.Some? && given' == given + [node.ip.value]
                   else given' == given
  {
    hide IsRun, ConnectionEnv, Filled, WithApi, Assigned;
    ok, asked', given' := true, asked, given;
    node.labels := node.labels + global.labels;
    node.env := node.env + global.env;
    if node.role == Server {
      if network != null {
        var ip;
        ip, asked', given' := RequestIP(network, known, asked, given);
        if ip.None? {
          return false, asked', given';
        }
        node.ip := ip;
        node.labels := node.labels[LABEL_STATIC_IP := global.text(ip.value)];
      }
      if c.initNode != null && !node.isInit {
        node.env := node.env + [ConnectionEnv(c.name)];
        node.labels := node.labels[LABEL_IS_INIT := "false"];
      }
    } else if node.role == Agent {
      node.env := node.env + [ConnectionEnv(c.name)];
    }
    NodeCreate(node, c.apiBinding, global);
    ok := *;  // the container could not be created
  }

  /** The configuration of a node before its container is created. */
  method NodeCreate(node: Node, binding: PortBinding, global: Globals)
    modifies node`env, node`labels
    ensures node.env == old(node.env) + DEFAULT_NODE_ENV
    ensures node.labels ==
            var filled := Filled(old(node.labels), node.role, global.version);
            if node.role == Server then WithApi(filled, binding, global.apiHost) else filled
  {
    node.labels := Filled(node.labels, node.role, global.version);
    node.env := node.env + DEFAULT_NODE_ENV;
    if node.role == Server {
      node.labels := WithApi(node.labels, binding, global.apiHost);
    }
  }

  // ---------- all nodes ----------

  /** The nodes are distinct, and the initializing server is one of them. */
  ghost predicate Valid(c: Cluster)
    reads c
  {
    && (forall i, j | 0 <= i < j < |c.nodes| :: c.nodes[i] != c.nodes[j])
    && (c.initNode != null ==> c.initNode in c.nodes && c.initNode.role == Server)
    && (c.lb != null ==> c.lb.node.role == LoadBalancer)
  }

  /** The servers among `nodes`. */
  function CountServers(nodes: seq<Node>): nat {
    if |nodes| == 0 then 0
    else CountServers(nodes[..|nodes| - 1]) + if nodes[|nodes| - 1].role == Server then 1 else 0
  }

  /** The addresses of the servers among `nodes`. */
  function Addresses(nodes: seq<Node>): (ips: seq<Option<Addr>>)
    reads (set n | n in nodes)`ip
    ensures |ips| == CountServers(nodes)
  {
    if |nodes| == 0 then []
    else Addresses(nodes[..|nodes| - 1]) + if nodes[|nodes| - 1].role == Server then [nodes[|nodes| - 1].ip] else []
  }

  /** In a managed network the servers created have the addresses handed out, in order. */
  ghost predicate Recorded(network: Network?, created: seq<Node>, given: seq<Addr>)
    reads (set n | n in created)`ip
  {
    if network == null then given == []
    else |given| == CountServers(created) && forall i | 0 <= i < |given| :: Addresses(created)[i] == Some(given[i])
  }

  lemma RecordNext(network: Network?, created: seq<Node>, node: Node, given: seq<Addr>, given': seq<Addr>)
    requires Recorded(network, created, given)
    requires if node.role == Server && network != null then node.ip.Some? && given' == given + [node.ip.value]
             else given' == given
    ensures Recorded(network, created + [node], given')
  {
    assert (created + [node])[..|created|] == created;
  }

  lemma {:induction false} OthersMembers(nodes: seq<Node>, init: Node?)
    ensures forall n | n in Others(nodes, init) :: n in nodes && n != init && (n.role == Server || n.role == Agent)
  {
    if |nodes| > 0 {
      OthersMembers(nodes[..|nodes| - 1], init);
    }
  }

  /** The ports of a node after `api` has been made to publish the API port. */
  function Published(ports: PortMap, n: Node, api: Node?, binding: PortBinding): PortMap {
    if n == api then ports[API_PORT := [binding]] else ports
  }

  /** What a node was like before anything was created. */
  datatype NodeState = NodeState(ports: PortMap, env: seq<string>, labels: Labels)

  type Start = map<Node, NodeState>

  ghost function StartOf(c: Cluster): Start
    reads c, c.nodes
  {
    map n | n in c.nodes :: NodeState(n.ports, n.env, n.labels)
  }

  /** A node, `was` before, when it has been created or not and `api` publishes the API port. */
  ghost predicate Became(c: Cluster, n: Node, was: NodeState, isCreated: bool, api: Node?,
                         global: Globals, managed: bool)
    reads c`initNode, n
  {
    && n.ports == Published(was.ports, n, api, c.apiBinding)
    && (n.role != LoadBalancer ==>
          && n.env == was.env + (if isCreated then SetupEnv(c, n, global) else [])
          && n.labels == if isCreated then CreatedLabels(c, was.labels, n, global, managed) else was.labels)
  }

  /** The nodes when `created` has been created and `api` publishes the API port. */
  ghost predicate Reached(c: Cluster, start: Start, created: seq<Node>, api: Node?, global: Globals, managed: bool)
    reads c`initNode, start.Keys
  {
    forall n | n in start :: Became(c, n, start[n], n in created, api, global, managed)
  }

  /** Creates one node, after marking it and making it publish the API port if need be. */
  method CreateNode(c: Cluster, node: Node, publish: bool, network: Network?, global: Globals,
                    ghost was: NodeState, ghost api: Node?,
                    ghost known: seq<Addr>, ghost asked: seq<seq<Addr>>, ghost given: seq<Addr>)
    returns (ok: bool, ghost asked': seq<seq<Addr>>, ghost given': seq<Addr>)
    requires Became(c, node, was, false, api, global, network != null) && (publish ==> api == null)
    requires network != null ==> ValidPrefix(network.prefix)
    requires Assigned(network, known, asked, given) && |given| == |asked|
    modifies node`env, node`labels, node`ports, node`ip, network
    ensures Assigned(network, known, asked', given')
    ensures ok ==> Became(c, node, was, true, if publish then node else api, global, network != null)
    ensures ok ==> |given'| == |asked'|
    ensures ok ==> if node.role == Server && network != null then node.ip.Some? && given' == given + [node.ip.value]
                   else given' == given
  {
    hide IsRun, ConnectionEnv, SetupLabels, SetupEnv, Joins, Assigned;
    if node == c.initNode {
      node.labels := node.labels[LABEL_IS_INIT := "true"];
    }
    if publish {
      node.ports := node.ports[API_PORT := [c.apiBinding]];
    }
    ok, asked', given' := NodeSetup(c, node, network, global, known, asked, given);
  }

  /** Creates one more node. */
  method CreateNext(c: Cluster, node: Node, publish: bool, network: Network?, global: Globals, created: seq<Node>,
                    ghost start: Start, ghost api: Node?,
                    ghost known: seq<Addr>, ghost asked: seq<seq<Addr>>, ghost given: seq<Addr>)
    returns (ok: bool, created': seq<Node>, ghost asked': seq<seq<Addr>>, ghost given': seq<Addr>)
    requires node in start && node !in created && (publish ==> api == null)
    requires Reached(c, start, created, api, global, network != null)
    requires network != null ==> ValidPrefix(network.prefix)
    requires Assigned(network, known, asked, given) && |given| == |asked| && Recorded(network, created, given)
    modifies node`env, node`labels, node`ports, node`ip, network
    ensures Assigned(network, known, asked', given')
    ensures ok ==> |given'| == |asked'| && Recorded(network, created', given')
    ensures created' == if ok then created + [node] else created
    ensures ok ==> Reached(c, start, created', if publish then node else api, global, network != null)
  {
    hide IsRun, ConnectionEnv, Recorded, CreatedLabels, SetupEnv, Assigned;
    created' := created;
    ok, asked', given' := CreateNode(c, node, publish, network, global, start[node], api, known, asked, given);
    if ok {
      created' := created + [node];
      RecordNext(network, created, node, given, given');
    }
  }

  /** The server that publishes the API port, seen from the first nodes of the list. */
  function Publisher(nodes: seq<Node>, init: Node?, disableLoadbalancer: bool): Node? {
    if disableLoadbalancer then ApiServer(nodes, init) else null
  }

  /** One round of the loop: the node at `i` is passed over or created. */
  method CreateAt(c: Cluster, i: nat, serverCount: nat, disableLoadbalancer: bool, network: Network?, global: Globals,
                  created: seq<Node>, ghost start: Start,
                  ghost known: seq<Addr>, ghost asked: seq<seq<Addr>>, ghost given: seq<Addr>)
    returns (ok: bool, serverCount': nat, created': seq<Node>, ghost asked': seq<seq<Addr>>, ghost given': seq<Addr>)
    requires Valid(c) && i < |c.nodes| && c.nodes[i] in start
    requires created == CreationOrder(c.nodes[..i], c.initNode)
    requires Reached(c, start, created, Publisher(c.nodes[..i], c.initNode, disableLoadbalancer),
                     global, network != null)
    requires serverCount == 0 <==> ApiServer(c.nodes[..i], c.initNode) == null
    requires network != null ==> ValidPrefix(network.prefix)
    requires Assigned(network, known, asked, given) && |given| == |asked| && Recorded(network, created, given)
    modifies c.nodes`env, c.nodes`labels, c.nodes`ports, c.nodes`ip, network
    ensures Assigned(network, known, asked', given') && (ok ==> Recorded(network, created', given'))
    ensures if ok then created' == CreationOrder(c.nodes[..i + 1], c.initNode) else created' == created
    ensures ok ==> Reached(c, start, created', Publisher(c.nodes[..i + 1], c.initNode, disableLoadbalancer),
                           global, network != null)
    ensures ok ==> (serverCount' == 0 <==> ApiServer(c.nodes[..i + 1], c.initNode) == null) && |given'| == |asked'|
  {
    hide IsRun, ConnectionEnv, Others, FirstServer, Reached, Assigned, Recorded;
    ok, serverCount', created', asked', given' := true, serverCount, created, asked, given;
    var node := c.nodes[i];
    NextNode(c.nodes, c.initNode, i);
    var publish := false;
    if node.role == Server {
      if node == c.initNode {
        return;
      } else if serverCount == 0 && disableLoadbalancer {
        publish := true;
      }
      serverCount' := serverCount + 1;
    }
    if node.role == Server || node.role == Agent {
      ok, created', asked', given' := CreateNext(c, node, publish, network, global, created, start,
                                                 Publisher(c.nodes[..i], c.initNode, disableLoadbalancer),
                                                 known, asked, given);
    }
  }

  /** The initializing server, if there is one, is created before the loop. */
  method CreateInit(c: Cluster, disableLoadbalancer: bool, network: Network?, global: Globals, ghost known: seq<Addr>)
    returns (ok: bool, serverCount: nat, created: seq<Node>, ghost asked: seq<seq<Addr>>, ghost given: seq<Addr>)
    requires Valid(c)
    requires network != null ==> ValidPrefix(network.prefix) && network.ipsUsed == known
    modifies c.nodes`env, c.nodes`labels, c.nodes`ports, c.nodes`ip, network
    ensures Assigned(network, known, asked, given) && (ok ==> |given| == |asked| && Recorded(network, created, given))
    ensures if ok then created == CreationOrder(c.nodes[..0], c.initNode) else created == []
    ensures ok ==> Reached(c, old(StartOf(c)), created, Publisher(c.nodes[..0], c.initNode, disableLoadbalancer),
                           global, network != null)
    ensures ok ==> (serverCount == 0 <==> ApiServer(c.nodes[..0], c.initNode) == null)
  {
    hide IsRun, ConnectionEnv, Others, FirstServer, Reached, Assigned;
    ok, serverCount, created, asked, given := true, 0, [], [], [];
    ReachedStart(c, global, network != null);
    NoRequests(network, known);
    NoOthers(c.initNode);
    if c.initNode != null {
      ok, created, asked, given := CreateNext(c, c.initNode, disableLoadbalancer, network, global, created,
                                              StartOf(c), null, known, asked, given);
      serverCount := 1;
    }
  }

  /** The servers and agents, in the order in which they are created, up to the first failure. */
  method CreateServersAndAgents(c: Cluster, disableLoadbalancer: bool, network: Network?, global: Globals,
                                ghost known: seq<Addr>)
    returns (ok: bool, created: seq<Node>, ghost asked: seq<seq<Addr>>, ghost given: seq<Addr>)
    requires Valid(c)
    requires network != null ==> ValidPrefix(network.prefix) && network.ipsUsed == known
    modifies c.nodes`env, c.nodes`labels, c.nodes`ports, c.nodes`ip, network
    ensures created <= CreationOrder(c.nodes, c.initNode)
    ensures ok ==> created == CreationOrder(c.nodes, c.initNode)
    ensures ok ==> Reached(c, old(StartOf(c)), created, Publisher(c.nodes, c.initNode, disableLoadbalancer),
                           global, network != null)
    ensures Assigned(network, known, asked, given) && (ok ==> |given| == |asked| && Recorded(network, created, given))
  {
    hide Valid, Recorded, IsRun, ConnectionEnv, CreationOrder, ApiServer, Reached, Assigned, Publisher;
    ghost var start := StartOf(c);
    var serverCount;
    ok, serverCount, created, asked, given := CreateInit(c, disableLoadbalancer, network, global, known);
    if !ok {
      return;
    }
    for i := 0 to |c.nodes|
      invariant ok && start.Keys == (set n | n in c.nodes)
      invariant created == CreationOrder(c.nodes[..i], c.initNode)
      invariant Reached(c, start, created, Publisher(c.nodes[..i], c.initNode, disableLoadbalancer),
                        global, network != null)
      invariant serverCount == 0 <==> ApiServer(c.nodes[..i], c.initNode) == null
      invariant Assigned(network, known, asked, given) && |given| == |asked| && Recorded(network, created, given)
    {
      ok, serverCount, created, asked, given := CreateAt(c, i, serverCount, disableLoadbalancer, network, global,
                                                         created, start, known, asked, given);
      if !ok {
        StartsWith(c.nodes, c.initNode, i);
        return;
      }
    }
    assert c.nodes[..|c.nodes|] == c.nodes;
  }

  lemma ReachedStart(c: Cluster, global: Globals, managed: bool)
    ensures Reached(c, StartOf(c), [], null, global, managed)
  {}

  lemma NoRequests(network: Network?, known: seq<Addr>)
    requires network != null ==> ValidPrefix(network.prefix) && network.ipsUsed == known
    ensures Assigned(network, known, [], [])
  {}

  lemma NoOthers(init: Node?)
    ensures Others([], init) == [] && FirstServer([]) == null
  {}

  /** How the order of creation and the API server go on with the node at `i`. */
  lemma NextNode(nodes: seq<Node>, init: Node?, i: nat)
    requires i < |nodes| && forall j, k | 0 <= j < k < |nodes| :: nodes[j] != nodes[k]
    ensures var node := nodes[i];
            var others := Others(nodes[..i], init);
            && Others(nodes[..i + 1], init) ==
               (if (node.role == Server || node.role == Agent) && node != init then others + [node] else others)
            && node !in others
            && FirstServer(nodes[..i + 1]) ==
               (if FirstServer(nodes[..i]) == null && node.role == Server then node else FirstServer(nodes[..i]))
            && FirstServer(nodes[..i]) != node
  {
    assert nodes[..i + 1][..i] == nodes[..i];
    OthersMembers(nodes[..i], init);
    FirstServerMember(nodes[..i]);
  }

  lemma {:induction false} FirstServerMember(nodes: seq<Node>)
    ensures FirstServer(nodes) != null ==> FirstServer(nodes) in nodes && FirstServer(nodes).role == Server
    ensures FirstServer(nodes) == null ==> forall n | n in nodes :: n.role != Server
  {
    if |nodes| > 0 {
      FirstServerMember(nodes[..|nodes| - 1]);
    }
  }

  /** The order of creation of the first nodes is the beginning of the whole order. */
  lemma {:induction false} StartsWith(nodes: seq<Node>, init: Node?, i: nat)
    requires i <= |nodes|
    ensures Others(nodes[..i], init) <= Others(nodes, init)
    ensures CreationOrder(nodes[..i], init) <= CreationOrder(nodes, init)
  {
    if i < |nodes| {
      var front := nodes[..|nodes| - 1];
      StartsWith(front, init, i);
      assert front[..i] == nodes[..i];
    } else {
      assert nodes[..i] == nodes;
    }
  }

  /** The initializing server comes first, and the other servers and the agents in the order of the list. */
  lemma {:induction false} InListOrder(nodes: seq<Node>, init: Node?, a: nat, b: nat) returns (i: nat, j: nat)
    requires a < b < |nodes| && nodes[a] != init && nodes[b] != init
    requires nodes[a].role == Server || nodes[a].role == Agent
    requires nodes[b].role == Server || nodes[b].role == Agent
    ensures var order := CreationOrder(nodes, init);
            && i < j < |order| && order[i] == nodes[a] && order[j] == nodes[b]
            && (init != null ==> i > 0 && order[0] == init)
  {
    var front, last := nodes[..|nodes| - 1], nodes[|nodes| - 1];
    if b < |front| {
      i, j := InListOrder(front, init, a, b);
    } else {
      i := InOrderAt(front, init, a);
      j := |CreationOrder(front, init)|;
      assert nodes == front + [last];
    }
  }

  lemma {:induction false} InOrderAt(nodes: seq<Node>, init: Node?, a: nat) returns (i: nat)
    requires a < |nodes| && nodes[a] != init && (nodes[a].role == Server || nodes[a].role == Agent)
    ensures var order := CreationOrder(nodes, init);
            i < |order| && order[i] == nodes[a] && (init != null ==> i > 0 && order[0] == init)
  {
    var front := nodes[..|nodes| - 1];
    if a < |front| {
      i := InOrderAt(front, init, a);
    } else {
      i := |CreationOrder(front, init)|;
    }
  }

  // ---------- the load balancer, and the whole creation ----------

  method ServerNamesOf(nodes: seq<Node>) returns (names: seq<string>)
    ensures names == Ports.Names(OfRole(nodes, Server))
  {
    names := [];
    for i := 0 to |nodes|
      invariant names == Ports.Names(OfRole(nodes[..i], Server))
    {
      assert nodes[..i + 1][..i] == nodes[..i];
      if nodes[i].role == Server {
        var front := OfRole(nodes[..i], Server);
        assert (front + [nodes[i]])[..|front|] == front;
        names := names + [nodes[i].name];
      }
    }
    assert nodes[..|nodes|] == nodes;
  }

  ghost function BalancerNode(c: Cluster): set<Node>
    reads c`lb
  {
    if c.lb == null then {} else {c.lb.node}
  }

  /** A missing load balancer is made; without a configuration it gets a generated one. */
  method EnsureLoadbalancer(c: Cluster)
    requires c.lb != null ==> c.lb.node.role == LoadBalancer
    modifies c`lb, c`nodes, c.lb
    ensures c.lb != null && c.lb.node.role == LoadBalancer
    ensures if old(c.lb) == null then fresh(c.lb.node) && c.nodes == old(c.nodes) + [c.lb.node]
            else c.lb == old(c.lb) && c.nodes == old(c.nodes)
    ensures old(c.lb) == null ==>
              c.lb.node.ports == map[API_PORT := [c.apiBinding]] && c.lb.node.labels == map[] && c.lb.node.env == []
    ensures old(c.lb) != null && old(c.lb.targets) != map[] ==> c.lb.targets == old(c.lb.targets)
    ensures c.lb.targets != map[]
  {
    if c.lb == null {
      c.lb := LoadbalancerPrepare(c.name, c.apiBinding);
      c.nodes := c.nodes + [c.lb.node];
    }
    if |c.lb.targets| == 0 {
      var names := ServerNamesOf(c.nodes);
      var connections;
      c.lb.targets, connections := LoadbalancerGenerateConfig(names, c.lb.node.ports);
      assert API_KEY in c.lb.targets;
    }
  }

  /** The load balancer is created last. */
  method CreateLoadbalancer(c: Cluster, global: Globals) returns (ok: bool)
    requires c.lb != null ==> c.lb.node.role == LoadBalancer
    modifies c`lb, c`nodes, c.lb, BalancerNode(c)`labels, BalancerNode(c)`env
    ensures c.lb != null && c.lb.node.role == LoadBalancer
    ensures if old(c.lb) == null then fresh(c.lb.node) && c.nodes == old(c.nodes) + [c.lb.node]
            else c.lb == old(c.lb) && c.nodes == old(c.nodes)
    ensures old(c.lb) == null ==> c.lb.node.ports == map[API_PORT := [c.apiBinding]]
    ensures c.lb.node.labels ==
            Filled((if old(c.lb) == null then map[] else old(c.lb.node.labels)) + global.labels,
                   LoadBalancer, global.version)
    ensures c.lb.node.env == (if old(c.lb) == null then [] else old(c.lb.node.env)) + DEFAULT_NODE_ENV
    ensures old(c.lb) != null && old(c.lb.targets) != map[] ==> c.lb.targets == old(c.lb.targets)
    ensures c.lb.targets != map[]
  {
    hide Filled, WithApi;
    EnsureLoadbalancer(c);
    var own := c.lb.node.labels;
    FilledTwice(own, global.labels, LoadBalancer, global.version);
    c.lb.node.labels := Filled(own, LoadBalancer, global.version) + global.labels;
    NodeCreate(c.lb.node, c.apiBinding, global);
    ok := *;  // the container could not be created
  }

  lemma FilledTwice(own: Labels, global: Labels, role: Role, version: string)
    ensures Filled(Filled(own, role, version) + global, role, version) == Filled(own + global, role, version)
  {}

  /** The servers and agents stay as they are when the load balancer is created. */
  method CreateLoadbalancerLast(c: Cluster, global: Globals, ghost start: Start, ghost created: seq<Node>,
                                ghost api: Node?, ghost managed: bool)
    returns (ok: bool)
    requires c.lb != null ==> c.lb.node.role == LoadBalancer
    requires Reached(c, start, created, api, global, managed)
    modifies c`lb, c`nodes, c.lb, BalancerNode(c)`labels, BalancerNode(c)`env
    ensures Reached(c, start, created, api, global, managed)
    ensures c.lb != null && c.lb.targets != map[]
    ensures if old(c.lb) == null then fresh(c.lb.node) && c.nodes == old(c.nodes) + [c.lb.node]
            else c.lb == old(c.lb) && c.nodes == old(c.nodes)
    ensures old(c.lb) == null ==> c.lb.node.ports == map[API_PORT := [c.apiBinding]]
  {
    hide Published, CreatedLabels, SetupEnv, Filled;
    ok := CreateLoadbalancer(c, global);
  }

  method ClusterCreate(c: Cluster, disableLoadbalancer: bool, network: Network?, global: Globals,
                       ghost known: seq<Addr>)
    returns (ok: bool, created: seq<Node>, ghost asked: seq<seq<Addr>>, ghost given: seq<Addr>)
    requires Valid(c)
    requires network != null ==> ValidPrefix(network.prefix) && network.ipsUsed == known
    modifies c`lb, c`nodes, c.lb, BalancerNode(c)`labels, BalancerNode(c)`env
    modifies c.nodes`env, c.nodes`labels, c.nodes`ports, c.nodes`ip, network
    ensures !ok ==> created <= old(CreationOrder(c.nodes, c.initNode))
    ensures ok ==> (!disableLoadbalancer ==> c.lb != null) &&
                   created == old(CreationOrder(c.nodes, c.initNode)) + if disableLoadbalancer then [] else [c.lb.node]
    ensures ok ==> Reached(c, old(StartOf(c)), old(CreationOrder(c.nodes, c.initNode)),
                           old(Publisher(c.nodes, c.initNode, disableLoadbalancer)), global, network != null)
    ensures disableLoadbalancer || old(c.lb) != null ==> c.lb == old(c.lb) && c.nodes == old(c.nodes)
    ensures ok && !disableLoadbalancer && old(c.lb) == null ==>
              && fresh(c.lb.node) && c.nodes == old(c.nodes) + [c.lb.node]
              && c.lb.node.ports == map[API_PORT := [c.apiBinding]]
    ensures ok && !disableLoadbalancer ==> c.lb.targets != map[]
    ensures Assigned(network, known, asked, given)
    ensures ok ==> |given| == |asked| && Recorded(network, old(CreationOrder(c.nodes, c.initNode)), given)
  {
    hide IsRun, Recorded, CreationOrder, Publisher, Assigned, Reached;
    ghost var start, order := StartOf(c), CreationOrder(c.nodes, c.initNode);
    ghost var api := Publisher(c.nodes, c.initNode, disableLoadbalancer);
    ok, created, asked, given := CreateServersAndAgents(c, disableLoadbalancer, network, global, known);
    if !ok || disableLoadbalancer {
      return;
    }
    ok := CreateLoadbalancerLast(c, global, start, order, api, network != null);
    if ok {
      created := created + [c.lb.node];
    }
  }
}
