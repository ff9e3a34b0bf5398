/**
 Editing the ports of a cluster: the port mappings are applied to a copy of the load balancer, and
 its container is then replaced by one made from the copy.
 */
module ClusterEdit {
  import opened NodeEdit
  import opened NodeReplace
  import opened PortChanges
  import opened PortOrder
  import opened PortRuns
  import opened PortVisits
  import opened Ports
  import opened ReadyLog
  import opened Runtime
  import opened SuffixFilters
  import opened Tables
  import opened TransformPorts
  import opened Types

  datatype PortEditResult = FiltersRejected | PortsRejected | Replacing(result: ReplaceResult)

  /** A specification whose filters have no suffix, or only the default one, and select nodes. */
  ghost predicate Editable(nodes: seq<Node>, spec: PortSpec) {
    SuffixDenotation(nodes, spec.filters, []).BySuffix?
  }

  method CheckFilters(nodes: seq<Node>, specs: seq<PortSpec>) returns (ok: bool)
    ensures ok <==> forall spec | spec in specs :: Editable(nodes, spec)
  {
    hide SuffixDenotation;
    for i := 0 to |specs|
      invariant forall spec | spec in specs[..i] :: Editable(nodes, spec)
    {
      var byKey := FilterNodesWithSuffix(nodes, specs[i].filters, []);
      if byKey.SuffixError? {
        assert !Editable(nodes, specs[i]);
        return false;
      }
      assert specs[..i + 1] == specs[..i] + [specs[i]];
    }
    assert specs[..|specs|] == specs;
    ok := true;
  }

  // ---------- the changes of such specifications ----------

  ghost predicate NoDirect(cs: seq<Change>) {
    forall c | c in cs :: !c.Direct?
  }

  lemma EditableChanges(nodes: seq<Node>, spec: PortSpec, order: seq<string>)
    requires Editable(nodes, spec) && IsOrder(order)
    ensures NoDirect(SpecChanges(nodes, spec, order))
  {
    hide SuffixDenotation, EffectiveFilters, KeyChanges, IsSelection, SpecChanges;
    EditIsUnmixed(nodes, spec);
    SpecIsKeys(nodes, spec, order);
    var outcome := SuffixDenotation(nodes, EffectiveFilters(nodes, spec.filters), SUFFIXES);
    if outcome.BySuffix? {
      var m := outcome.nodes;
      forall c | c in SpecChanges(nodes, spec, order) ensures !c.Direct? {
        KeyChangesMembers(nodes, m, spec, order, c);
        var k :| k in order && c in ChangeOf(k, m[k], spec);
      }
    }
  }

  lemma AllEditableChanges(nodes: seq<Node>, specs: seq<PortSpec>, orders: seq<seq<string>>)
    requires AreOrders(orders, specs) && forall spec | spec in specs :: Editable(nodes, spec)
    ensures NoDirect(AllChanges(nodes, specs, orders))
  {
    hide SpecChanges, AllChanges, IsOrder, Editable;
    forall c | c in AllChanges(nodes, specs, orders) ensures !c.Direct? {
      AllChangesMembers(nodes, specs, orders, c);
      var i :| 0 <= i < |specs| && c in SpecChanges(nodes, specs[i], orders[i]);
      EditableChanges(nodes, specs[i], orders[i]);
    }
  }

  /** Without direct changes only the ports of the load balancer change. */
  lemma {:induction false} OthersUntouched(s: State, lb: Node, cs: seq<Change>, n: Node)
    requires NoDirect(cs) && n != lb
    ensures Bound(Run(s, lb, cs).state.bindings, n) == Bound(s.bindings, n)
  {
    hide ChangedPorts, ChangedTargets, Loops;
    if |cs| > 0 {
      assert cs[|cs| - 1] in cs;
      OthersUntouched(s, lb, cs[..|cs| - 1], n);
    }
  }

  lemma {:induction false} StopsAtSpec(s: State, lb: Node?, nodes: seq<Node>, specs: seq<PortSpec>,
                                       orders: seq<seq<string>>, k: nat)
    requires AreOrders(orders, specs) && k <= |specs|
    requires !Run(s, lb, AllChanges(nodes, specs[..k], orders[..k])).ok
    ensures !Run(s, lb, AllChanges(nodes, specs, orders)).ok
  {
    hide Run, SpecChanges, IsOrder;
    if k == |specs| {
      assert specs[..k] == specs && orders[..k] == orders;
    } else {
      var j := |specs| - 1;
      assert specs[..j][..k] == specs[..k] && orders[..j][..k] == orders[..k];
      StopsAtSpec(s, lb, nodes, specs[..j], orders[..j], k);
      RunAppend(s, lb, AllChanges(nodes, specs[..j], orders[..j]), SpecChanges(nodes, specs[j], orders[j]));
    }
  }

  lemma EditableIsUnmixed(nodes: seq<Node>, spec: PortSpec)
    requires Editable(nodes, spec)
    ensures Unmixed(nodes, spec)
  {
    hide SuffixDenotation, Unmixed;
    EditIsUnmixed(nodes, spec);
  }

  /** What one run of the specifications came to, all runs come to. */
  lemma EveryRun(s: State, lb: Node?, nodes: seq<Node>, specs: seq<PortSpec>, orders: seq<seq<string>>,
                 orders': seq<seq<string>>)
    requires |orders| <= |specs| && AreOrders(orders, specs[..|orders|]) && AreOrders(orders', specs)
    requires forall spec | spec in specs :: ParsedDistinct(spec) && Editable(nodes, spec)
    ensures var r := Run(s, lb, AllChanges(nodes, specs[..|orders|], orders));
            var r' := Run(s, lb, AllChanges(nodes, specs, orders'));
            (!r.ok ==> !r'.ok) && (r.ok && |orders| == |specs| ==> r' == r)
  {
    hide Run, AllChanges, IsOrder, Editable, ParsedDistinct, Unmixed;
    var k := |orders|;
    forall spec | spec in specs ensures Unmixed(nodes, spec) {
      EditableIsUnmixed(nodes, spec);
    }
    UnmixedRunsAgree(nodes, lb, specs[..k], orders, orders'[..k], s);
    if !Run(s, lb, AllChanges(nodes, specs[..k], orders)).ok {
      StopsAtSpec(s, lb, nodes, specs, orders', k);
    } else if k == |specs| {
      assert specs[..k] == specs && orders'[..k] == orders';
    }
  }

  // ---------- the operation ----------

  /** Where the changes start: the ports of the nodes, and those of the load balancer under its copy. */
  ghost function EditStart(nodes: seq<Node>, existing: Loadbalancer, copy: Node): State
    reads (set n | n in nodes)`ports, existing.node`ports, existing`targets
  {
    State((map n | n in nodes :: n.ports)[copy := existing.node.ports], existing.targets)
  }

  ghost predicate AllCovered(ports: PortMap, targets: Table<string>) {
    forall p | p in ports :: ConfigKey(p) in targets
  }

  /** The copy of the load balancer and of its configuration. */
  method CopyLoadbalancer(existing: Loadbalancer) returns (changed: Loadbalancer)
    ensures fresh(changed) && fresh(changed.node) && !changed.node.running
    ensures changed.node.role == existing.node.role && changed.node.name == existing.node.name
    ensures changed.node.labels == existing.node.labels && changed.node.ports == existing.node.ports
    ensures changed.targets == existing.targets
  {
    var node := CopyNode(existing.node);
    changed := new Loadbalancer(node);
    changed.targets := existing.targets;
  }

  /** The changes of the specifications made to the copy; the nodes of the cluster keep their ports. */
  method ChangeCopy(nodes: seq<Node>, changed: Loadbalancer, specs: seq<PortSpec>, ghost start: State)
    returns (ok: bool, ghost orders: seq<seq<string>>)
    requires changed.node !in nodes && start == StateOf(nodes, changed)
    requires forall spec | spec in specs :: ParsedDistinct(spec) && Editable(nodes, spec)
    modifies changed, NodeSet(nodes, changed)`ports
    ensures forall n | n in nodes :: n.ports == old(n.ports)
    ensures forall orders' | AreOrders(orders', specs) ::
              var run := Run(start, changed.node, AllChanges(nodes, specs, orders'));
              && ok == run.ok
              && (ok ==> changed.node.ports == Bound(run.state.bindings, changed.node))
              && (ok ==> changed.targets == run.state.targets)
    ensures |orders| <= |specs| && AreOrders(orders, specs[..|orders|]) && (ok ==> |orders| == |specs|)
    ensures ok && (forall spec | spec in specs :: !spec.removal) && Covered(start, changed.node) ==>
              AllCovered(changed.node.ports, changed.targets)
  {
    hide Run, AllChanges, IsOrder, Editable, ParsedDistinct, Covered;
    ok, orders := TransformPorts.TransformPorts(nodes, changed, specs);
    ghost var tried := specs[..|orders|];
    ghost var r := Run(start, changed.node, AllChanges(nodes, tried, orders));
    AllEditableChanges(nodes, tried, orders);
    forall n | n in nodes ensures n.ports == old(n.ports) {
      OthersUntouched(start, changed.node, AllChanges(nodes, tried, orders), n);
      assert n.ports == Bound(r.state.bindings, n);
    }
    assert changed.node.ports == Bound(r.state.bindings, changed.node);
    forall orders' | AreOrders(orders', specs)
      ensures var run := Run(start, changed.node, AllChanges(nodes, specs, orders')); ok == run.ok && (ok ==> run == r)
    {
      EveryRun(start, changed.node, nodes, specs, orders, orders');
    }
    if ok && (forall spec | spec in specs :: !spec.removal) && Covered(start, changed.node) {
      TransformKeepsCovered(nodes, changed, tried, orders, start);
      CoveredIs(r.state, changed.node);
    }
  }

  lemma CoveredIs(s: State, lb: Node)
    ensures Covered(s, lb) <==> AllCovered(Bound(s.bindings, lb), s.targets)
  {}

  /** What every run of the specifications from `start` comes to is what the copy has. */
  ghost predicate ComesTo(start: State, nodes: seq<Node>, changed: Loadbalancer, specs: seq<PortSpec>, ok: bool)
    reads (set n | n in nodes)`name, changed`targets, changed.node`ports
  {
    forall orders | AreOrders(orders, specs) ::
      var run := Run(start, changed.node, AllChanges(nodes, specs, orders));
      && ok == run.ok
      && (ok ==> changed.node.ports == Bound(run.state.bindings, changed.node) && changed.targets == run.state.targets)
  }

  /** The filters are evaluated, and the changes are made to a copy of the load balancer. */
  method EditCopy(nodes: seq<Node>, existing: Loadbalancer, specs: seq<PortSpec>)
    returns (checked: bool, ok: bool, changed: Loadbalancer)
    requires forall spec | spec in specs :: ParsedDistinct(spec)
    modifies nodes`ports
    ensures fresh(changed) && fresh(changed.node) && !changed.node.running
    ensures changed.node.role == existing.node.role && changed.node.name == existing.node.name
    ensures changed.node.labels == existing.node.labels
    ensures existing.node.ports == old(existing.node.ports) && forall n | n in nodes :: n.ports == old(n.ports)
    ensures checked <==> forall spec | spec in specs :: Editable(nodes, spec)
    ensures ok ==> checked
    ensures checked ==> ComesTo(EditStart(nodes, existing, changed.node), nodes, changed, specs, ok)
    ensures ok && (forall spec | spec in specs :: !spec.removal) &&
            AllCovered(existing.node.ports, existing.targets) ==>
              AllCovered(changed.node.ports, changed.targets)
  {
    hide Run, AllChanges, Editable, AllCovered, Covered, AreOrders, IsOrder, ParsedDistinct, Bound, StateOf;
    ok := false;
    changed := CopyLoadbalancer(existing);
    checked := CheckFilters(nodes, specs);
    if checked {
      ghost var start := StateOf(nodes, changed);
      StartIs(nodes, existing, changed);
      ghost var orders;
      ok, orders := ChangeCopy(nodes, changed, specs, start);
      assert EditStart(nodes, existing, changed.node) == start by {
        assert forall n | n in nodes :: n.ports == old(n.ports);
      }
    }
  }

  /**
   The load balancer and the other nodes keep their ports in memory; the copy gets the ports and
   targets of all changes, in whatever order the selections are visited; with additions only, all its
   ports are covered.  Replacing the container keeps the service in every state.
   */
  method ClusterEditChangesetSimple(rt: Daemon, nodes: seq<Node>, existing: Loadbalancer, specs: seq<PortSpec>,
                                    suffix: string, ghost oldId: Id)
    returns (r: PortEditResult, changed: Loadbalancer, ghost start: State, ghost newId: Id)
    requires rt.Valid() && IsOf(rt.containers, oldId, existing.node)
    requires forall spec | spec in specs :: ParsedDistinct(spec)
    modifies rt, existing.node`name, existing.node`running, nodes`ports
    ensures fresh(changed) && fresh(changed.node) && existing.targets == old(existing.targets)
    ensures existing.node.ports == old(existing.node.ports) && forall n | n in nodes :: n.ports == old(n.ports)
    ensures r.FiltersRejected? <==> exists spec | spec in specs :: !Editable(nodes, spec)
    ensures start == EditStart(nodes, existing, changed.node) && start.targets == existing.targets
    ensures changed.node in start.bindings && start.bindings[changed.node] == existing.node.ports
    ensures forall n | n in nodes :: n in start.bindings && start.bindings[n] == n.ports
    ensures !r.FiltersRejected? ==> forall orders | AreOrders(orders, specs) ::
              var run := Run(start, changed.node, old(AllChanges(nodes, specs, orders)));
              && (r.PortsRejected? <==> !run.ok)
              && (run.ok ==> changed.node.ports == Bound(run.state.bindings, changed.node))
              && (run.ok ==> changed.targets == run.state.targets)
    ensures r.Replacing? && (forall spec | spec in specs :: !spec.removal) &&
            (forall p | p in existing.node.ports :: ConfigKey(p) in existing.targets) ==>
              forall p | p in changed.node.ports :: ConfigKey(p) in changed.targets
    ensures r.Replacing? ==>
              Outcome(r.result, old(rt.containers), rt.containers, old(CopyJob(oldId, existing.node, suffix)), newId)
    ensures r.Replacing? && r.result.Replaced? && LastReported(rt.attempts) ==> oldId !in rt.containers
    ensures !r.Replacing? ==> rt.containers == old(rt.containers)
    ensures rt.Valid() && old(rt.history) <= rt.history && (!r.Replacing? ==> rt.history == old(rt.history))
    ensures forall i | |old(rt.history)| <= i < |rt.history| ::
              var s := rt.history[i];
              || oldId in s.containers
              || exists n :: n in s.containers && s.containers[n].name == old(existing.node.name) &&
                             s.containers[n].running && (existing.node.role != NoRole ==> n in s.ready)
  {
    hide KeptSince, Outcome, NodeReplace.Calls, AllTookEffect, LastReported, Carries, Kept, Daemon.Valid;
    hide Run, AllChanges;
    hide Editable, ConfigKey, IsOrder, ParsedDistinct, HasReadyMessage, Bound, EditStart;
    newId := 0;
    var checked, ok;
    checked, ok, changed := EditCopy(nodes, existing, specs);
    start := EditStart(nodes, existing, changed.node);
    StartHas(nodes, existing, changed.node);
    if !checked {
      return FiltersRejected, changed, start, newId;
    }
    if !ok {
      return PortsRejected, changed, start, newId;
    }
    ghost var job := JobOf(oldId, existing.node, changed.node, suffix);
    ghost var history := rt.history;
    var result;
    result, newId := NodeReplace.NodeReplace(rt, existing.node, changed.node, suffix, oldId);
    KeptInEveryState(rt.history, history, job);
    r := Replacing(result);
  }

  lemma StartHas(nodes: seq<Node>, existing: Loadbalancer, copy: Node)
    requires copy !in nodes
    ensures var start := EditStart(nodes, existing, copy);
            && start.targets == existing.targets
            && copy in start.bindings && start.bindings[copy] == existing.node.ports
            && forall n | n in nodes :: n in start.bindings && start.bindings[n] == n.ports
  {}

  lemma StartIs(nodes: seq<Node>, existing: Loadbalancer, changed: Loadbalancer)
    requires changed.node !in nodes && changed.node.ports == existing.node.ports && changed.targets == existing.targets
    ensures StateOf(nodes, changed) == EditStart(nodes, existing, changed.node)
    ensures Covered(StateOf(nodes, changed), changed.node) <==> AllCovered(existing.node.ports, existing.targets)
  {}
}
