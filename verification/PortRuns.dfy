/**
 What holds of the ports of a cluster after any number of calls of `TransformPorts`, with
 additions and removals, successful or not.
 */
module PortRuns {
  import opened PortChanges
  import opened PortOrder
  import opened Ports
  import opened SuffixFilters
  import opened Tables
  import opened TransformPorts
  import opened Types
  import opened Wrappers

  /** The names that may serve: those of nodes other than a load balancer. */
  ghost function Backends(nodes: seq<Node>): set<string>
    reads (set n | n in nodes)`name
  {
    set n | n in nodes && n.role != LoadBalancer :: n.name
  }

  lemma {:induction false} NamesMembers(nodes: seq<Node>)
    ensures forall x :: x in Names(nodes) <==> exists n | n in nodes :: n.name == x
  {
    if nodes != [] {
      var front, last := nodes[..|nodes| - 1], nodes[|nodes| - 1];
      NamesMembers(front);
      assert nodes == front + [last];
    }
  }

  // ---------- the changes of a specification ----------

  /** A change a specification can stand for, in a cluster whose load balancer is `front`. */
  ghost predicate Proper(nodes: seq<Node>, c: Change, spec: PortSpec, front: Node?)
    reads (set n | n in nodes)`name
  {
    && WellFormed(c, Backends(nodes))
    && (!c.Refused? ==> c.removal == spec.removal && spec.mappings == Some(c.mappings))
    && (c.Direct? ==> c.node in nodes && (c.node == front && front.role == LoadBalancer ==> |nodes| <= 1))
  }

  lemma ChangeProper(nodes: seq<Node>, m: NodesBySuffix, key: string, spec: PortSpec, front: Node?)
    requires IsSelection(nodes, m) && key in m
    ensures forall c | c in ChangeOf(key, m[key], spec) :: Proper(nodes, c, spec, front)
  {
    var selected := m[key];
    NamesMembers(selected);
    if key == DIRECT && |selected| == 1 && front in nodes && front.role == LoadBalancer && selected[0] == front {
      assert HasLoadbalancer(selected);
    }
  }

  lemma {:induction false} KeyChangesMembers(nodes: seq<Node>, m: NodesBySuffix, spec: PortSpec, order: seq<string>,
                                             c: Change)
    requires IsSelection(nodes, m) && forall k | k in order :: k in m
    ensures c in KeyChanges(nodes, m, spec, order) <==> exists k | k in order :: c in ChangeOf(k, m[k], spec)
  {
    hide IsSelection, ChangeOf;
    if order != [] {
      var front, last := order[..|order| - 1], order[|order| - 1];
      KeyChangesMembers(nodes, m, spec, front, c);
      assert order == front + [last];
    }
  }

  lemma SpecChangesProper(nodes: seq<Node>, spec: PortSpec, order: seq<string>, front: Node?)
    requires IsOrder(order)
    ensures forall c | c in SpecChanges(nodes, spec, order) :: Proper(nodes, c, spec, front)
  {
    hide SuffixDenotation, EffectiveFilters, ChangeOf, Proper, IsSelection, KeyChanges;
    var filters := EffectiveFilters(nodes, spec.filters);
    match SuffixDenotation(nodes, filters, SUFFIXES) {
      case SuffixError =>
        RefusedProper(nodes, spec, front);
      case BySuffix(m) =>
        EffectiveAvoidsLoadbalancer(nodes, spec.filters);
        SelectionNodes(nodes, filters);
        SelectionIsKeys(nodes, m);
        forall c | c in SpecChanges(nodes, spec, order) ensures Proper(nodes, c, spec, front) {
          KeyChangesMembers(nodes, m, spec, order, c);
          var k :| k in order && c in ChangeOf(k, m[k], spec);
          ChangeProper(nodes, m, k, spec, front);
        }
    }
  }

  lemma RefusedProper(nodes: seq<Node>, spec: PortSpec, front: Node?)
    ensures Proper(nodes, Refused, spec, front)
  {}

  /** Visiting the selections in another order gives the same changes. */
  lemma SameChanges(nodes: seq<Node>, spec: PortSpec, order: seq<string>, order': seq<string>, c: Change)
    requires IsOrder(order) && IsOrder(order')
    ensures c in SpecChanges(nodes, spec, order) <==> c in SpecChanges(nodes, spec, order')
  {
    hide SuffixDenotation, EffectiveFilters, ChangeOf, IsSelection, KeyChanges;
    var filters := EffectiveFilters(nodes, spec.filters);
    match SuffixDenotation(nodes, filters, SUFFIXES) {
      case SuffixError =>
      case BySuffix(m) =>
        EffectiveAvoidsLoadbalancer(nodes, spec.filters);
        SelectionNodes(nodes, filters);
        SelectionIsKeys(nodes, m);
        KeyChangesMembers(nodes, m, spec, order, c);
        KeyChangesMembers(nodes, m, spec, order', c);
    }
  }

  ghost predicate AreOrders(orders: seq<seq<string>>, specs: seq<PortSpec>) {
    |orders| == |specs| && forall order | order in orders :: IsOrder(order)
  }

  lemma {:induction false} AllChangesMembers(nodes: seq<Node>, specs: seq<PortSpec>, orders: seq<seq<string>>,
                                             c: Change)
    requires AreOrders(orders, specs)
    ensures c in AllChanges(nodes, specs, orders) <==>
            exists i | 0 <= i < |specs| :: c in SpecChanges(nodes, specs[i], orders[i])
  {
    hide SpecChanges, IsOrder;
    if |specs| > 0 {
      var k := |specs| - 1;
      AllChangesMembers(nodes, specs[..k], orders[..k], c);
    }
  }

  lemma AllChangesProper(nodes: seq<Node>, specs: seq<PortSpec>, orders: seq<seq<string>>, front: Node?)
    requires AreOrders(orders, specs)
    ensures forall c | c in AllChanges(nodes, specs, orders) ::
              exists i | 0 <= i < |specs| :: Proper(nodes, c, specs[i], front)
  {
    hide Proper, SpecChanges, AllChanges, IsOrder;
    forall c | c in AllChanges(nodes, specs, orders)
      ensures exists i | 0 <= i < |specs| :: Proper(nodes, c, specs[i], front)
    {
      AllChangesMembers(nodes, specs, orders, c);
      var i :| 0 <= i < |specs| && c in SpecChanges(nodes, specs[i], orders[i]);
      SpecChangesProper(nodes, specs[i], orders[i], front);
    }
  }

  // ---------- theorems ----------

  /**
   Additions and removals, in any order and stopping anywhere, leave no empty list of bindings
   or targets, and every target is the name of a node that is not a load balancer.
   */
  lemma TransformKeepsSound(nodes: seq<Node>, lb: Loadbalancer?, specs: seq<PortSpec>, orders: seq<seq<string>>,
                            s: State)
    requires AreOrders(orders, specs)
    requires Sound(s, Backends(nodes))
    ensures Sound(Run(s, Frontend(lb), AllChanges(nodes, specs, orders)).state, Backends(nodes))
  {
    hide Run, Sound, AllChanges, IsOrder;
    AllChangesProper(nodes, specs, orders, null);
    RunSound(s, Frontend(lb), AllChanges(nodes, specs, orders), Backends(nodes));
  }

  /** With distinct node names, the load balancer is not a target of its own configuration. */
  lemma NoLoop(nodes: seq<Node>, lb: Node, s: State)
    requires lb in nodes && lb.role == LoadBalancer
    requires forall a, b | a in nodes && b in nodes && a.name == b.name :: a == b
    requires Sound(s, Backends(nodes))
    ensures forall k | k in s.targets :: lb.name !in s.targets[k]
  {}

  lemma Additions(nodes: seq<Node>, specs: seq<PortSpec>, orders: seq<seq<string>>, front: Node?)
    requires AreOrders(orders, specs)
    requires forall spec | spec in specs :: !spec.removal
    ensures forall c | c in AllChanges(nodes, specs, orders) ::
              IsAddition(c) && exists i | 0 <= i < |specs| :: Proper(nodes, c, specs[i], front)
  {
    hide AllChanges, IsOrder;
    AllChangesProper(nodes, specs, orders, front);
  }

  /**
   When only additions are made and all succeed, every port bound on the load balancer has an
   entry in its configuration.  The load balancer is one of several nodes of the cluster, or it is
   a copy outside the list of nodes, as in the editing of a cluster.
   */
  lemma TransformKeepsCovered(nodes: seq<Node>, lb: Loadbalancer, specs: seq<PortSpec>, orders: seq<seq<string>>,
                              s: State)
    requires AreOrders(orders, specs)
    requires forall spec | spec in specs :: !spec.removal
    requires lb.node in nodes ==> lb.node.role == LoadBalancer && |nodes| > 1
    requires Covered(s, lb.node)
    requires Run(s, lb.node, AllChanges(nodes, specs, orders)).ok
    ensures Covered(Run(s, lb.node, AllChanges(nodes, specs, orders)).state, lb.node)
  {
    hide Run, Covered, AllChanges, IsOrder, IsAddition;
    Additions(nodes, specs, orders, lb.node);
    AdditionsCovered(s, lb.node, AllChanges(nodes, specs, orders));
  }

  /**
   The order in which the selections of each specification are visited does not matter for
   additions: success is the same, and so are the sets of targets and bindings.
   */
  lemma VisitOrderIrrelevant(nodes: seq<Node>, lb: Loadbalancer, specs: seq<PortSpec>,
                             orders: seq<seq<string>>, orders': seq<seq<string>>, s: State)
    requires AreOrders(orders, specs) && AreOrders(orders', specs)
    requires forall spec | spec in specs :: !spec.removal
    requires NoEmpty(s.targets)
    ensures var r := Run(s, lb.node, AllChanges(nodes, specs, orders));
            var r' := Run(s, lb.node, AllChanges(nodes, specs, orders'));
            && r.ok == r'.ok
            && (r.ok ==>
                  && SameSets(r.state.targets, r'.state.targets)
                  && forall n :: SameSets(Bound(r.state.bindings, n), Bound(r'.state.bindings, n)))
  {
    hide Run, AllChanges, IsOrder, SpecChanges, IsAddition, SameSets, NoEmpty;
    Additions(nodes, specs, orders, null);
    var cs, ds := AllChanges(nodes, specs, orders), AllChanges(nodes, specs, orders');
    forall c ensures c in cs <==> c in ds {
      AllChangesMembers(nodes, specs, orders, c);
      AllChangesMembers(nodes, specs, orders', c);
      forall i | 0 <= i < |specs|
        ensures c in SpecChanges(nodes, specs[i], orders[i]) <==> c in SpecChanges(nodes, specs[i], orders'[i])
      {
        SameChanges(nodes, specs[i], orders[i], orders'[i], c);
      }
    }
    AdditionsInAnyOrder(s, lb.node, cs, ds);
  }
}
