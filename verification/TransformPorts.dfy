/**
 Applying the port mappings of a configuration: each is given with node filters, and the nodes
 selected under each option suffix get a proxy or a direct mapping.  The selections come in a
 map, so the order of the suffixes is arbitrary; the contract names the order taken.
 */
module TransformPorts {
  import opened FilterNodes
  import opened NodeFilter
  import opened PortChanges
  import opened Ports
  import opened Strings
  import opened SuffixFilters
  import opened Types

  const SUFFIXES := [PROXY, DIRECT]

  /** The keys a selection by suffix can have. */
  const KEYS := {ALL, NO_SUFFIX, PROXY, DIRECT}

  predicate MentionsLoadbalancer(filters: seq<string>) {
    exists f | f in filters :: HasPrefix(f, LOADBALANCER)
  }

  /** Missing filters, and filters that name the load balancer, stand for the default. */
  function EffectiveFilters(nodes: seq<Node>, filters: seq<string>): seq<string> {
    var given := if filters == [] && |nodes| > 1 then DEFAULT_FILTERS else filters;
    if MentionsLoadbalancer(given) then DEFAULT_FILTERS else given
  }

  // ---------- the nodes that filters select ----------

  lemma {:induction false} AtMembers<T>(xs: seq<T>, indices: seq<int>)
    requires forall i | 0 <= i < |indices| :: 0 <= indices[i] < |xs|
    ensures forall x | x in At(xs, indices) :: x in xs
  {
    if indices != [] {
      AtMembers(xs, indices[..|indices| - 1]);
    }
  }

  /** One filter selects nodes of the cluster; the load balancer only under two of the groups. */
  lemma AloneNodes(nodes: seq<Node>, m: Match)
    requires Alone(nodes, m).Selected?
    ensures forall n | n in Alone(nodes, m).nodes :: n in nodes
    ensures m.group == "all" ==> Alone(nodes, m).nodes == nodes
    ensures m.group != "all" && m.group != LOADBALANCER ==>
              forall n | n in Alone(nodes, m).nodes :: n.role != LoadBalancer
  {
    hide SubsetIndices, Dedup, At;
    var step := Plain(nodes, m.group, m.subset);
    if step.Pick? {
      var members := GroupNodes(nodes, m.group);
      var indices := SubsetIndices(m.subset, |members|).value;
      AtMembers(members, indices);
      DedupMeaning(step.chosen);
      assert SameElements(Dedup(step.chosen), step.chosen);
    }
  }

  /** A filter with the load balancer as its group begins with that word. */
  lemma GroupIsPrefix(filter: string)
    requires FindSubmatch(filter).Some? && FindSubmatch(filter).value.group == LOADBALANCER
    ensures HasPrefix(filter, LOADBALANCER)
  {
    hide FindSubmatch, IsSubset, IsSuffix;
    FoundThenConsists(filter);
  }

  lemma {:induction false} ContributionNodes(nodes: seq<Node>, keys: set<string>, filters: seq<string>, key: string)
    requires forall i | 0 <= i < |filters| :: Accepted(nodes, keys, filters[i])
    requires !MentionsLoadbalancer(filters)
    ensures forall n | n in Contribution(nodes, keys, filters, key) :: n in nodes
    ensures HasLoadbalancer(Contribution(nodes, keys, filters, key)) ==>
              |Contribution(nodes, keys, filters, key)| >= |nodes|
  {
    hide FindSubmatch, Alone, HasPrefix;
    if filters != [] {
      var front, last := filters[..|filters| - 1], filters[|filters| - 1];
      ContributionNodes(nodes, keys, front, key);
      assert last in filters;
      var m := FindSubmatch(last).value;
      if m.group == LOADBALANCER {
        GroupIsPrefix(last);
        assert false;
      }
      AloneNodes(nodes, m);
    }
  }

  /** What `FilterNodesWithSuffix` returns for the two suffixes that port mappings allow. */
  ghost predicate IsSelection(nodes: seq<Node>, m: NodesBySuffix) {
    && m.Keys == KEYS
    && (forall k | k in m :: forall n | n in m[k] :: n in nodes)
    && (forall k | k in m && k != ALL :: HasLoadbalancer(m[k]) ==> |m[k]| >= |nodes|)
  }

  lemma SelectionNodes(nodes: seq<Node>, filters: seq<string>)
    requires !MentionsLoadbalancer(filters)
    requires SuffixDenotation(nodes, filters, SUFFIXES).BySuffix?
    ensures IsSelection(nodes, SuffixDenotation(nodes, filters, SUFFIXES).nodes)
  {
    hide Accepted, Contribution, MentionsLoadbalancer;
    var m := SuffixDenotation(nodes, filters, SUFFIXES).nodes;
    var start := Initial(nodes, SUFFIXES);
    InitialIs(nodes);
    forall k | k in m
      ensures forall n | n in m[k] :: n in nodes
      ensures k != ALL ==> m[k] == Contribution(nodes, start.Keys, filters, k)
      ensures k != ALL && HasLoadbalancer(m[k]) ==> |m[k]| >= |nodes|
    {
      ContributionNodes(nodes, start.Keys, filters, k);
    }
  }

  lemma InitialIs(nodes: seq<Node>)
    ensures Initial(nodes, SUFFIXES) == map[ALL := nodes, NO_SUFFIX := [], PROXY := [], DIRECT := []]
  {
    assert SUFFIXES[..1] == [PROXY];
    assert SUFFIXES[..1][..0] == [];
    assert Initial(nodes, SUFFIXES[..1][..0]) == map[ALL := nodes, NO_SUFFIX := []];
    assert Initial(nodes, SUFFIXES[..1]) == map[ALL := nodes, NO_SUFFIX := []][PROXY := []];
  }

  lemma EffectiveAvoidsLoadbalancer(nodes: seq<Node>, filters: seq<string>)
    ensures !MentionsLoadbalancer(EffectiveFilters(nodes, filters))
  {
    assert DEFAULT_FILTERS[0][0] == 's' && DEFAULT_FILTERS[1][0] == 'a';
    assert forall f | f in DEFAULT_FILTERS :: f == DEFAULT_FILTERS[0] || f == DEFAULT_FILTERS[1];
  }

  // ---------- the changes a specification stands for ----------

  /** What the selection under one key comes to. */
  ghost function ChangeOf(key: string, selected: seq<Node>, spec: PortSpec): seq<Change>
    reads (set n | n in selected)`name
  {
    if selected == [] then []
    else if spec.mappings.None? then [Refused]
    else if key == PROXY || key == NO_SUFFIX then
      [Proxy(Names(selected), HasLoadbalancer(selected), spec.mappings.value, spec.removal)]
    else if key == DIRECT then
      if |selected| > 1 then [Refused] else [Direct(selected[0], spec.mappings.value, spec.removal)]
    else if key != ALL then [Refused]
    else []
  }

  ghost function KeyChanges(nodes: seq<Node>, m: NodesBySuffix, spec: PortSpec, order: seq<string>): seq<Change>
    requires IsSelection(nodes, m) && forall k | k in order :: k in m
    reads (set n | n in nodes)`name
  {
    if |order| == 0 then []
    else
      var last := order[|order| - 1];
      assert last in order && forall n | n in m[last] :: n in nodes;
      KeyChanges(nodes, m, spec, order[..|order| - 1]) + ChangeOf(last, m[last], spec)
  }

  /** `order` lists every key once. */
  ghost predicate IsOrder(order: seq<string>) {
    && (forall k :: k in order <==> k in KEYS)
    && (forall i, j | 0 <= i < j < |order| :: order[i] != order[j])
  }

  ghost function SpecChanges(nodes: seq<Node>, spec: PortSpec, order: seq<string>): seq<Change>
    requires IsOrder(order)
    reads (set n | n in nodes)`name
  {
    var filters := EffectiveFilters(nodes, spec.filters);
    match SuffixDenotation(nodes, filters, SUFFIXES)
    case SuffixError => [Refused]
    case BySuffix(m) =>
      EffectiveAvoidsLoadbalancer(nodes, spec.filters);
      SelectionNodes(nodes, filters);
      KeyChanges(nodes, m, spec, order)
  }

  ghost function AllChanges(nodes: seq<Node>, specs: seq<PortSpec>, orders: seq<seq<string>>): seq<Change>
    requires |orders| == |specs| && forall order | order in orders :: IsOrder(order)
    reads (set n | n in nodes)`name
  {
    if |specs| == 0 then []
    else
      var k := |specs| - 1;
      AllChanges(nodes, specs[..k], orders[..k]) + SpecChanges(nodes, specs[k], orders[k])
  }

  // ---------- the state on the heap ----------

  ghost function NodeSet(nodes: seq<Node>, lb: Loadbalancer?): set<Node> {
    (set n | n in nodes) + if lb == null then {} else {lb.node}
  }

  ghost function StateOf(nodes: seq<Node>, lb: Loadbalancer?): State
    reads NodeSet(nodes, lb)`ports, (if lb == null then {} else {lb})`targets
  {
    State(map n | n in NodeSet(nodes, lb) :: n.ports, if lb == null then map[] else lb.targets)
  }

  ghost function Frontend(lb: Loadbalancer?): Node? { if lb == null then null else lb.node }

  lemma {:induction false} RunAppend(s: State, lb: Node?, cs: seq<Change>, ds: seq<Change>)
    ensures Run(s, lb, cs + ds) == if Run(s, lb, cs).ok then Run(Run(s, lb, cs).state, lb, ds) else Run(s, lb, cs)
  {
    hide Apply;
    if ds == [] {
      assert cs + ds == cs;
    } else {
      assert (cs + ds)[..|cs + ds| - 1] == cs + ds[..|ds| - 1];
      RunAppend(s, lb, cs, ds[..|ds| - 1]);
    }
  }

  lemma RunOne(s: State, lb: Node?, c: Change)
    ensures Run(s, lb, [c]) == Apply(s, lb, c)
  {
    assert Run(s, lb, [c][..0]) == Result(s, true);
  }

  method ApplyTargets(lb: Loadbalancer, selected: seq<Node>, mappings: seq<PortMapping>, removal: bool, ghost c: Change)
    returns (ok: bool)
    requires c == Proxy(Names(selected), HasLoadbalancer(selected), mappings, removal)
    modifies lb`targets
    ensures ok == !Loops(old(lb.targets), c)
    ensures lb.targets == if ok then ChangedTargets(old(lb.targets), mappings, c.names, removal) else old(lb.targets)
  {
    hide ChangedTarget, ConfigKey, HasLoadbalancer;
    for i := 0 to |mappings|
      invariant lb.targets == ChangedTargets(old(lb.targets), mappings[..i], c.names, removal)
      invariant i > 0 && c.loop ==> removal && forall m | m in mappings[..i] :: ConfigKey(m.port) !in old(lb.targets)
    {
      assert mappings[..i + 1][..i] == mappings[..i];
      if c.loop {
        ChangedTargetsUntouched(old(lb.targets), mappings[..i], c.names);
      }
      ok := ChangeLBPortConfigs(lb, mappings[i], selected, removal);
      if !ok {
        assert mappings[i] in mappings;
        return;
      }
    }
    assert mappings[..|mappings|] == mappings;
    ok := true;
  }

  /** One proxy mapping: all ports are bound on the load balancer, then the targets are changed. */
  method ApplyProxy(nodes: seq<Node>, lb: Loadbalancer, selected: seq<Node>, mappings: seq<PortMapping>, removal: bool)
    returns (ok: bool)
    modifies lb`targets, lb.node`ports
    ensures Result(StateOf(nodes, lb), ok) ==
            Apply(old(StateOf(nodes, lb)), lb.node,
                  Proxy(Names(selected), HasLoadbalancer(selected), mappings, removal))
  {
    hide ChangedPorts, ChangedTargets, HasLoadbalancer, Loops;
    ghost var c := Proxy(Names(selected), HasLoadbalancer(selected), mappings, removal);
    ChangePortMappings(lb.node, mappings, removal);
    assert StateOf(nodes, lb).bindings ==
           old(StateOf(nodes, lb)).bindings[lb.node := ChangedPorts(old(lb.node.ports), mappings, removal)];
    ok := ApplyTargets(lb, selected, mappings, removal, c);
  }

  /** The changes of one key of the selection. */
  method ApplyKey(nodes: seq<Node>, lb: Loadbalancer?, key: string, selected: seq<Node>, spec: PortSpec)
    returns (ok: bool)
    requires forall n | n in selected :: n in nodes
    modifies if lb == null then {} else {lb}, NodeSet(nodes, lb)`ports
    ensures Result(StateOf(nodes, lb), ok) == Run(old(StateOf(nodes, lb)), Frontend(lb), ChangeOf(key, selected, spec))
  {
    hide Apply, ChangedPorts, HasLoadbalancer;
    ghost var s := StateOf(nodes, lb);
    if |selected| == 0 {
      return true;
    }
    if spec.mappings.None? {
      RunOne(s, Frontend(lb), Refused);
      RefusedIs(s, Frontend(lb));
      return false;
    }
    var mappings := spec.mappings.value;
    if key == PROXY || key == NO_SUFFIX {
      ghost var c := Proxy(Names(selected), HasLoadbalancer(selected), mappings, spec.removal);
      RunOne(s, Frontend(lb), c);
      if lb == null {
        NoFrontend(s, c);
        return false;
      }
      ok := ApplyProxy(nodes, lb, selected, mappings, spec.removal);
    } else if key == DIRECT {
      if |selected| > 1 {
        RunOne(s, Frontend(lb), Refused);
        RefusedIs(s, Frontend(lb));
        return false;
      }
      ghost var c := Direct(selected[0], mappings, spec.removal);
      RunOne(s, Frontend(lb), c);
      DirectIs(s, Frontend(lb), c);
      ChangePortMappings(selected[0], mappings, spec.removal);
      assert StateOf(nodes, lb).bindings ==
             s.bindings[selected[0] := ChangedPorts(old(selected[0].ports), mappings, spec.removal)];
      ok := true;
    } else if key != ALL {
      RunOne(s, Frontend(lb), Refused);
      RefusedIs(s, Frontend(lb));
      return false;
    } else {
      ok := true;
    }
  }

  lemma RefusedIs(s: State, lb: Node?)
    ensures Apply(s, lb, Refused) == Result(s, false)
  {}

  lemma NoFrontend(s: State, c: Change)
    requires c.Proxy?
    ensures Apply(s, null, c) == Result(s, false)
  {}

  lemma DirectIs(s: State, lb: Node?, c: Change)
    requires c.Direct?
    ensures Apply(s, lb, c) ==
            Result(State(s.bindings[c.node := ChangedPorts(Bound(s.bindings, c.node), c.mappings, c.removal)],
                         s.targets), true)
  {}

  /** The keys of a map in the order in which they happen to be visited. */
  method KeyOrder() returns (order: seq<string>)
    ensures IsOrder(order)
  {
    order := [];
    var rest := KEYS;
    while rest != {}
      invariant forall k :: k in KEYS <==> k in rest || k in order
      invariant forall k | k in order :: k !in rest
      invariant forall i, j | 0 <= i < j < |order| :: order[i] != order[j]
      decreases |rest|
    {
      var k :| k in rest;
      order, rest := order + [k], rest - {k};
    }
  }

  /** One specification: its filters select nodes by suffix, and every selection is changed. */
  method TransformSpec(nodes: seq<Node>, lb: Loadbalancer?, spec: PortSpec) returns (ok: bool, ghost order: seq<string>)
    modifies if lb == null then {} else {lb}, NodeSet(nodes, lb)`ports
    ensures IsOrder(order)
    ensures Result(StateOf(nodes, lb), ok) ==
            Run(old(StateOf(nodes, lb)), Frontend(lb), old(SpecChanges(nodes, spec, order)))
  {
    hide Apply, Run, SuffixDenotation, EffectiveFilters, IsSelection, KeyChanges, IsOrder;
    ghost var s, front := StateOf(nodes, lb), Frontend(lb);
    var byKey := SelectBySuffix(nodes, spec);
    var visit := KeyOrder();
    order := visit;
    OrderIsKeys(visit);
    if byKey.SuffixError? {
      assert old(SpecChanges(nodes, spec, order)) == [Refused];
      assert StateOf(nodes, lb) == s;
      RunOne(s, front, Refused);
      RefusedIs(s, front);
      return false, order;
    }
    EffectiveAvoidsLoadbalancer(nodes, spec.filters);
    SelectionNodes(nodes, EffectiveFilters(nodes, spec.filters));
    SelectionIsKeys(nodes, byKey.nodes);
    ok := TransformKeys(nodes, lb, byKey.nodes, spec, visit);
  }

  lemma OrderIsKeys(order: seq<string>)
    requires IsOrder(order)
    ensures forall k | k in order :: k in KEYS
  {}

  lemma SelectionIsKeys(nodes: seq<Node>, m: NodesBySuffix)
    requires IsSelection(nodes, m)
    ensures m.Keys == KEYS
  {}

  method SelectBySuffix(nodes: seq<Node>, spec: PortSpec) returns (byKey: SuffixOutcome)
    ensures byKey == SuffixDenotation(nodes, EffectiveFilters(nodes, spec.filters), SUFFIXES)
  {
    hide SuffixDenotation, MentionsLoadbalancer;
    var filters := spec.filters;
    if |filters| == 0 && |nodes| > 1 {
      filters := DEFAULT_FILTERS;
    }
    var redirected := RedirectLoadbalancer(filters);
    byKey := FilterNodesWithSuffix(nodes, redirected, SUFFIXES);
  }

  /** The loop over the selections, in the order in which the map is visited. */
  method TransformKeys(nodes: seq<Node>, lb: Loadbalancer?, m: NodesBySuffix, spec: PortSpec, visit: seq<string>)
    returns (ok: bool)
    requires IsSelection(nodes, m) && forall k | k in visit :: k in m
    modifies if lb == null then {} else {lb}, NodeSet(nodes, lb)`ports
    ensures Result(StateOf(nodes, lb), ok) ==
            Run(old(StateOf(nodes, lb)), Frontend(lb), KeyChanges(nodes, m, spec, visit))
  {
    hide Apply, ChangeOf, StateOf, Run, NodeSet;
    ghost var s, front := StateOf(nodes, lb), Frontend(lb);
    RunNone(s, front);
    for i := 0 to |visit|
      invariant Result(StateOf(nodes, lb), true) == Run(s, front, KeyChanges(nodes, m, spec, visit[..i]))
    {
      var key := visit[i];
      assert key in m && forall n | n in m[key] :: n in nodes;
      assert visit[..i + 1][..i] == visit[..i];
      RunAppend(s, front, KeyChanges(nodes, m, spec, visit[..i]), ChangeOf(key, m[key], spec));
      ok := ApplyKey(nodes, lb, key, m[key], spec);
      if !ok {
        StopsAtKey(s, front, nodes, m, spec, visit, i + 1);
        return;
      }
    }
    ok := true;
    assert visit[..|visit|] == visit;
  }

  lemma RunNone(s: State, lb: Node?)
    ensures Run(s, lb, []) == Result(s, true)
  {}

  /** What was refused after `j` keys is the result for all of them. */
  lemma {:induction false} StopsAtKey(s: State, lb: Node?, nodes: seq<Node>, m: NodesBySuffix, spec: PortSpec,
                                      visit: seq<string>, j: nat)
    requires IsSelection(nodes, m) && forall k | k in visit :: k in m
    requires j <= |visit| && !Run(s, lb, KeyChanges(nodes, m, spec, visit[..j])).ok
    ensures Run(s, lb, KeyChanges(nodes, m, spec, visit)) == Run(s, lb, KeyChanges(nodes, m, spec, visit[..j]))
  {
    hide Run, ChangeOf;
    if j == |visit| {
      assert visit[..j] == visit;
    } else {
      var front, last := visit[..|visit| - 1], visit[|visit| - 1];
      assert front[..j] == visit[..j];
      StopsAtKey(s, lb, nodes, m, spec, front, j);
      RunAppend(s, lb, KeyChanges(nodes, m, spec, front), ChangeOf(last, m[last], spec));
    }
  }

  method RedirectLoadbalancer(filters: seq<string>) returns (r: seq<string>)
    ensures r == if MentionsLoadbalancer(filters) then DEFAULT_FILTERS else filters
  {
    for i := 0 to |filters|
      invariant !MentionsLoadbalancer(filters[..i])
    {
      if HasPrefix(filters[i], LOADBALANCER) {
        return DEFAULT_FILTERS;
      }
      assert filters[..i + 1] == filters[..i] + [filters[i]];
    }
    assert filters[..|filters|] == filters;
    return filters;
  }

  /** All port mappings of a configuration, up to the first that fails. */
  method TransformPorts(nodes: seq<Node>, lb: Loadbalancer?, specs: seq<PortSpec>)
    returns (ok: bool, ghost orders: seq<seq<string>>)
    modifies if lb == null then {} else {lb}, NodeSet(nodes, lb)`ports
    ensures |orders| <= |specs| && forall order | order in orders :: IsOrder(order)
    ensures ok ==> |orders| == |specs|
    ensures Result(StateOf(nodes, lb), ok) ==
            Run(old(StateOf(nodes, lb)), Frontend(lb), AllChanges(nodes, specs[..|orders|], orders))
  {
    hide Run, SpecChanges, IsOrder, NodeSet, StateOf;
    ghost var s, front := StateOf(nodes, lb), Frontend(lb);
    orders := [];
    RunNone(s, front);
    for i := 0 to |specs|
      invariant |orders| == i && forall order | order in orders :: IsOrder(order)
      invariant Result(StateOf(nodes, lb), true) == Run(s, front, AllChanges(nodes, specs[..i], orders))
    {
      ghost var order;
      ghost var before := orders;
      ok, order := TransformSpec(nodes, lb, specs[i]);
      orders := orders + [order];
      assert specs[..i + 1][..i] == specs[..i] && orders[..i] == before;
      RunAppend(s, front, AllChanges(nodes, specs[..i], before), SpecChanges(nodes, specs[i], order));
      if !ok {
        return;
      }
    }
    ok := true;
  }
}
