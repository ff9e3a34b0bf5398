/**
 Port mappings given with node filters, applied to the nodes of a cluster and to the
 configuration of its load balancer.

 The methods change the nodes and the load balancer in place.  Their contracts tie every
 change to the state machine of `PortChanges`.
 */
module Ports {
  import opened PortChanges
  import opened Tables
  import opened Types
  import opened Wrappers

  const PROXY := "proxy"
  const DIRECT := "direct"
  const LOADBALANCER := "loadbalancer"
  const DEFAULT_FILTERS := ["servers:*:proxy", "agents:*:proxy"]

  /** One port mapping of the configuration; `mappings` is None when it does not parse. */
  datatype PortSpec = PortSpec(mappings: Option<seq<PortMapping>>, filters: seq<string>, removal: bool)

  class Loadbalancer {
    const node: Node
    var targets: Table<string>

    constructor (node: Node)
      ensures this.node == node && targets == map[]
    {
      this.node, targets := node, map[];
    }
  }

  // ---------- bindings of one node ----------

  method AddPortMappings(node: Node, mappings: seq<PortMapping>)
    modifies node`ports
    ensures node.ports == ChangedPorts(old(node.ports), mappings, false)
  {
    for i := 0 to |mappings|
      invariant node.ports == AddEntries(old(node.ports), Entries(mappings[..i]))
    {
      var pm := mappings[i];
      EntriesStep(mappings, i);
      node.ports := node.ports[pm.port := Get(node.ports, pm.port) + [pm.binding]];
    }
    assert mappings[..|mappings|] == mappings;
  }

  method RemovePortMappings(node: Node, mappings: seq<PortMapping>)
    modifies node`ports
    ensures node.ports == ChangedPorts(old(node.ports), mappings, true)
  {
    hide RemoveEntries, RemoveFirst, RemoveOne;
    NoneRemovedYet(node.ports);
    for i := 0 to |mappings|
      invariant node.ports == RemoveEntries(old(node.ports), Entries(mappings[..i]))
    {
      var pm := mappings[i];
      RemoveNext(old(node.ports), mappings, i);
      RemoveOneIs(node.ports, Entry(pm.port, pm.binding));
      if pm.port in node.ports {
        var bindings := RemoveFirstFound(node.ports[pm.port], pm.binding);
        node.ports := node.ports[pm.port := bindings];
        if |node.ports[pm.port]| == 0 {
          node.ports := node.ports - {pm.port};
        }
      }
    }
    assert mappings[..|mappings|] == mappings;
  }

  lemma RemoveOneIs(ports: PortMap, e: Entry<PortBinding>)
    ensures RemoveOne(ports, e) ==
            if e.key !in ports then ports
            else
              var bindings := RemoveFirst(ports[e.key], e.value);
              if bindings == [] then ports - {e.key} else ports[e.key := bindings]
  {}

  lemma NoneRemovedYet(ports: PortMap)
    ensures RemoveEntries(ports, Entries([])) == ports
  {}

  lemma RemoveNext(ports: PortMap, mappings: seq<PortMapping>, i: nat)
    requires i < |mappings|
    ensures RemoveEntries(ports, Entries(mappings[..i + 1])) ==
            RemoveOne(RemoveEntries(ports, Entries(mappings[..i])), Entry(mappings[i].port, mappings[i].binding))
  {
    hide RemoveOne;
    EntriesStep(mappings, i);
  }

  lemma EntriesStep(mappings: seq<PortMapping>, i: nat)
    requires i < |mappings|
    ensures var es := Entries(mappings[..i + 1]);
            && es[..i] == Entries(mappings[..i])
            && es[i] == Entry(mappings[i].port, mappings[i].binding)
  {
    assert mappings[..i + 1][..i] == mappings[..i];
  }

  method ChangePortMappings(node: Node, mappings: seq<PortMapping>, removal: bool)
    modifies node`ports
    ensures node.ports == ChangedPorts(old(node.ports), mappings, removal)
  {
    if removal {
      RemovePortMappings(node, mappings);
    } else {
      AddPortMappings(node, mappings);
    }
  }

  // ---------- targets of the load balancer ----------

  function Names(nodes: seq<Node>): (names: seq<string>)
    reads (set n | n in nodes)`name
    ensures |names| == |nodes|
  {
    if |nodes| == 0 then [] else Names(nodes[..|nodes| - 1]) + [nodes[|nodes| - 1].name]
  }

  predicate HasLoadbalancer(nodes: seq<Node>) {
    exists n | n in nodes :: n.role == LoadBalancer
  }

  /** The names of the target nodes; refused when the load balancer is one of them. */
  method TargetNames(targetNodes: seq<Node>) returns (ok: bool, names: seq<string>)
    ensures ok == !HasLoadbalancer(targetNodes)
    ensures ok ==> names == Names(targetNodes)
  {
    names := [];
    for i := 0 to |targetNodes|
      invariant !HasLoadbalancer(targetNodes[..i])
      invariant names == Names(targetNodes[..i])
    {
      assert targetNodes[..i + 1][..i] == targetNodes[..i];
      if targetNodes[i].role == LoadBalancer {
        return false, [];
      }
      names := names + [targetNodes[i].name];
    }
    assert targetNodes[..|targetNodes|] == targetNodes;
    ok := true;
  }

  method LoadbalancerAddPortConfigs(lb: Loadbalancer, pm: PortMapping, targetNodes: seq<Node>) returns (ok: bool)
    modifies lb`targets
    ensures ok == !HasLoadbalancer(targetNodes)
    ensures lb.targets == if ok then ChangedTarget(old(lb.targets), ConfigKey(pm.port), Names(targetNodes), false)
                          else old(lb.targets)
  {
    hide ConfigKey;
    var portconfig := ConfigKey(pm.port);
    var names;
    ok, names := TargetNames(targetNodes);
    if !ok {
      return;
    }
    if portconfig !in lb.targets {
      lb.targets := lb.targets[portconfig := names];
      return;
    }
    for i := 0 to |names|
      invariant portconfig in lb.targets
      invariant lb.targets == old(lb.targets)[portconfig := AddNames(old(lb.targets)[portconfig], names[..i])]
    {
      assert names[..i + 1][..i] == names[..i];
      AddTargetName(lb, portconfig, names[i]);
    }
    assert names[..|names|] == names;
  }

  /** The inner loop runs over the list as it was; it appends the name once per round until it finds it. */
  method AddTargetName(lb: Loadbalancer, portconfig: string, name: string)
    requires portconfig in lb.targets
    modifies lb`targets
    ensures lb.targets == old(lb.targets)[portconfig := AddName(old(lb.targets)[portconfig], name)]
  {
    var existing := lb.targets[portconfig];
    assert existing + Repeat(name, 0) == existing;
    for j := 0 to |existing|
      invariant name !in existing[..j]
      invariant lb.targets == old(lb.targets)[portconfig := existing + Repeat(name, j)]
    {
      if name == existing[j] {
        BeforeIs(existing, name, j);
        return;
      }
      assert existing + Repeat(name, j + 1) == existing + Repeat(name, j) + [name];
      lb.targets := lb.targets[portconfig := lb.targets[portconfig] + [name]];
    }
    BeforeIs(existing, name, |existing|);
  }

  method LoadbalancerRemovePortConfigs(lb: Loadbalancer, pm: PortMapping, targetNodes: seq<Node>) returns (ok: bool)
    modifies lb`targets
    ensures ok == !(ConfigKey(pm.port) in old(lb.targets) && HasLoadbalancer(targetNodes))
    ensures lb.targets == if ok then ChangedTarget(old(lb.targets), ConfigKey(pm.port), Names(targetNodes), true)
                          else old(lb.targets)
  {
    hide ConfigKey, RemoveOne;
    var portconfig := ConfigKey(pm.port);
    if portconfig !in lb.targets {
      RemoveUnknown(lb.targets, portconfig, Names(targetNodes));
      return true;
    }
    var names;
    ok, names := TargetNames(targetNodes);
    if !ok {
      return;
    }
    for i := 0 to |names|
      invariant lb.targets == RemoveEntries(old(lb.targets), Under(portconfig, names[..i]))
    {
      UnderStep(portconfig, names, i);
      RemoveTargetName(lb, portconfig, names[i]);
    }
    assert names[..|names|] == names;
  }

  /** A key that is gone reads as an empty list, is stored as one and is deleted again. */
  method RemoveTargetName(lb: Loadbalancer, portconfig: string, name: string)
    modifies lb`targets
    ensures lb.targets == RemoveOne(old(lb.targets), Entry(portconfig, name))
  {
    var rest := RemoveFirstFound(Get(lb.targets, portconfig), name);
    lb.targets := lb.targets[portconfig := rest];
    if |lb.targets[portconfig]| == 0 {
      lb.targets := lb.targets - {portconfig};
    }
  }

  lemma UnderStep(key: string, names: seq<string>, i: nat)
    requires i < |names|
    ensures var es := Under(key, names[..i + 1]);
            es[..i] == Under(key, names[..i]) && es[i] == Entry(key, names[i])
  {
    assert names[..i + 1][..i] == names[..i];
  }

  /** Names are removed from a key without an entry: nothing changes. */
  lemma RemoveUnknown(targets: Table<string>, key: string, names: seq<string>)
    requires key !in targets
    ensures ChangedTarget(targets, key, names, true) == targets
  {
    hide RemoveEntries, Under, RemoveAll;
    var t := ChangedTarget(targets, key, names, true);
    forall k ensures k in t <==> k in targets
             ensures k in targets ==> t[k] == targets[k]
    {
      RemovedTargetAt(targets, key, names, k);
    }
    assert t == targets;
  }

  method ChangeLBPortConfigs(lb: Loadbalancer, pm: PortMapping, targetNodes: seq<Node>, removal: bool)
    returns (ok: bool)
    modifies lb`targets
    ensures ok == !(HasLoadbalancer(targetNodes) && (removal ==> ConfigKey(pm.port) in old(lb.targets)))
    ensures lb.targets == if ok then ChangedTarget(old(lb.targets), ConfigKey(pm.port), Names(targetNodes), removal)
                          else old(lb.targets)
  {
    if removal {
      ok := LoadbalancerRemovePortConfigs(lb, pm, targetNodes);
    } else {
      ok := LoadbalancerAddPortConfigs(lb, pm, targetNodes);
    }
  }
}
