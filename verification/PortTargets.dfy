/**
 What port mappings come to, told by the nodes and their roles: without filters, or with filters that name
 the load balancer, they go through the load balancer to all servers and agents; a filter without a suffix,
 or with the suffix "proxy", sends them to what it selects; the suffix "direct" binds them on one node.
 */
module PortTargets {
  import opened FilterLaws
  import opened FilterNodes
  import opened NodeFilter
  import opened PortChanges
  import opened PortLaws
  import opened PortOrder
  import opened PortVisits
  import opened Ports
  import opened Strings
  import opened SuffixFilters
  import opened Tables
  import opened TransformPorts
  import opened Types
  import opened Wrappers

  // ---------- one selection ----------

  /** When only one key selects nodes, its change is the only one, whenever it is visited. */
  lemma {:induction false} OnlyKey(nodes: seq<Node>, m: NodesBySuffix, spec: PortSpec, order: seq<string>, key: string)
    requires IsSelection(nodes, m) && key in KEYS && spec.mappings.Some?
    requires (forall k | k in order :: k in m) && Distinct(order)
    requires forall k | k in m && k != key && k != ALL :: m[k] == []
    requires key != ALL
    ensures key in m && (forall n | n in m[key] :: n in nodes)
    ensures KeyChanges(nodes, m, spec, order) == if key in order then ChangeOf(key, m[key], spec) else []
  {
    hide ChangeOf, IsSelection, Distinct, KeyChanges;
    SelectionIsKeys(nodes, m);
    SelectedAreNodes(nodes, m, key);
    NoKeys(nodes, m, spec);
    if |order| > 0 {
      var front, last := order[..|order| - 1], order[|order| - 1];
      assert order == front + [last];
      DistinctFront(front, last);
      OnlyKey(nodes, m, spec, front, key);
      SelectedAreNodes(nodes, m, last);
      KeyChangesNext(nodes, m, spec, front, last);
      if last != key {
        NoChange(last, m[last], spec);
      }
    }
  }

  lemma NoKeys(nodes: seq<Node>, m: NodesBySuffix, spec: PortSpec)
    requires IsSelection(nodes, m)
    ensures KeyChanges(nodes, m, spec, []) == []
  {}

  lemma KeyChangesNext(nodes: seq<Node>, m: NodesBySuffix, spec: PortSpec, front: seq<string>, last: string)
    requires IsSelection(nodes, m) && (forall k | k in front + [last] :: k in m)
    requires last in m && (forall k | k in front :: k in m) && forall n | n in m[last] :: n in nodes
    ensures KeyChanges(nodes, m, spec, front + [last]) ==
            KeyChanges(nodes, m, spec, front) + ChangeOf(last, m[last], spec)
  {
    hide ChangeOf, IsSelection;
    assert (front + [last])[..|front|] == front;
  }

  lemma SelectedAreNodes(nodes: seq<Node>, m: NodesBySuffix, key: string)
    requires IsSelection(nodes, m) && key in KEYS
    ensures key in m && forall n | n in m[key] :: n in nodes
  {}

  lemma DistinctFront(front: seq<string>, last: string)
    requires Distinct(front + [last])
    ensures Distinct(front) && last !in front
  {
    DirectVisited(front, last);
    assert forall i | 0 <= i < |front| :: (front + [last])[i] == front[i];
  }

  lemma NoChange(key: string, selected: seq<Node>, spec: PortSpec)
    requires selected == [] || (key == ALL && spec.mappings.Some?)
    ensures ChangeOf(key, selected, spec) == []
  {}

  /** The changes of a specification whose filters select nodes for one key only. */
  lemma OneSelection(nodes: seq<Node>, spec: PortSpec, order: seq<string>, key: string, selected: seq<Node>)
    requires IsOrder(order) && spec.mappings.Some? && key in KEYS && key != ALL
    requires forall n | n in selected :: n in nodes
    requires var outcome := SuffixDenotation(nodes, EffectiveFilters(nodes, spec.filters), SUFFIXES);
             && outcome.BySuffix? && outcome.nodes.Keys == KEYS
             && outcome.nodes[key] == selected
             && forall k | k in KEYS && k != key && k != ALL :: outcome.nodes[k] == []
    ensures SpecChanges(nodes, spec, order) == ChangeOf(key, selected, spec)
  {
    hide SuffixDenotation, EffectiveFilters, KeyChanges, ChangeOf, IsSelection;
    SpecIsKeys(nodes, spec, order);
    var m := SuffixDenotation(nodes, EffectiveFilters(nodes, spec.filters), SUFFIXES).nodes;
    OnlyKey(nodes, m, spec, order, key);
  }

  // ---------- without filters, or with filters that name the load balancer ----------

  /** What the two default filters select. */
  lemma DefaultSelection(nodes: seq<Node>, servers: seq<Node>, agents: seq<Node>)
    requires AreAllOf(nodes, Server, servers) && AreAllOf(nodes, Agent, agents)
    requires forall i, j | 0 <= i < j < |nodes| :: nodes[i] != nodes[j]
    ensures var outcome := SuffixDenotation(nodes, ["servers:*:proxy", "agents:*:proxy"], SUFFIXES);
            && outcome.BySuffix? && outcome.nodes.Keys == KEYS
            && outcome.nodes[PROXY] == servers + agents
            && outcome.nodes[NO_SUFFIX] == [] && outcome.nodes[DIRECT] == []
  {
    hide FindSubmatch, Alone, Initial, SuffixFilters.Accepted, Contribution, AreAllOf;
    var a, b := Match("servers", "*", PROXY), Match("agents", "*", PROXY);
    DefaultFilters();
    WholeRole(nodes, Server, "servers", servers, PROXY);
    WholeRole(nodes, Agent, "agents", agents, PROXY);
    InitialIs(nodes);
    assert Initial(nodes, SUFFIXES).Keys == KEYS;
    TwoFilters(nodes, KEYS, DEFAULT_FILTERS, a, b, PROXY);
    TwoFilters(nodes, KEYS, DEFAULT_FILTERS, a, b, NO_SUFFIX);
    TwoFilters(nodes, KEYS, DEFAULT_FILTERS, a, b, DIRECT);
  }

  lemma WholeRole(nodes: seq<Node>, role: Role, word: string, members: seq<Node>, suffix: string)
    requires AreAllOf(nodes, role, members)
    requires (role == Server && word in ["server", "servers"]) || (role == Agent && word in ["agent", "agents"])
    requires forall i, j | 0 <= i < j < |nodes| :: nodes[i] != nodes[j]
    ensures Alone(nodes, Match(word, "*", suffix)) == Selected(members)
  {
    hide AreAllOf, SubsetIndices, Dedup, At, Alone;
    OfRoleIs(nodes, role, members);
    MembersOf(nodes, role, word, members, "*", suffix);
    WildcardIndices(|members|);
    AtInterval(members, 0, |members| - 1);
    assert members[0..|members| - 1 + 1] == members;
    assert At(members, Interval(0, |members| - 1)) == members;
    MembersDistinct(nodes, role, members);
    DedupDistinct(members);
  }

  /**
   Without filters in a cluster of several nodes, and with a filter that names the load balancer, the only
   change is a proxy change for all servers, in order, and then all agents.
   */
  lemma DefaultChanges(nodes: seq<Node>, spec: PortSpec, order: seq<string>, servers: seq<Node>, agents: seq<Node>,
                       names: seq<string>)
    requires IsOrder(order) && spec.mappings.Some?
    requires AreAllOf(nodes, Server, servers) && AreAllOf(nodes, Agent, agents)
    requires forall i, j | 0 <= i < j < |nodes| :: nodes[i] != nodes[j]
    requires (spec.filters == [] && |nodes| > 1) || exists f | f in spec.filters :: "loadbalancer" <= f
    requires var all := servers + agents; |names| == |all| && forall i | 0 <= i < |all| :: names[i] == all[i].name
    ensures SpecChanges(nodes, spec, order) ==
            if names == [] then [] else [Proxy(names, false, spec.mappings.value, spec.removal)]
  {
    hide IsOrder, SpecChanges, SuffixDenotation, AreAllOf;
    var all := servers + agents;
    TheDefault(nodes, spec.filters);
    DefaultSelection(nodes, servers, agents);
    MembersHaveRole(nodes, Server, servers);
    MembersHaveRole(nodes, Agent, agents);
    OneSelection(nodes, spec, order, PROXY, all);
    NamesAre(all, names);
  }

  /** A specification without filters is refused when there are not several nodes. */
  lemma NoDefaultForOne(nodes: seq<Node>, spec: PortSpec, order: seq<string>)
    requires IsOrder(order) && spec.filters == [] && |nodes| <= 1
    ensures SpecChanges(nodes, spec, order) == [Refused]
  {
    hide IsOrder, KeyChanges;
    assert EffectiveFilters(nodes, []) == [];
  }

  lemma TheDefault(nodes: seq<Node>, filters: seq<string>)
    requires (filters == [] && |nodes| > 1) || exists f | f in filters :: "loadbalancer" <= f
    ensures EffectiveFilters(nodes, filters) == ["servers:*:proxy", "agents:*:proxy"]
  {
    if filters != [] {
      var f :| f in filters && "loadbalancer" <= f;
      assert HasPrefix(f, LOADBALANCER);
    }
  }

  lemma MembersHaveRole(nodes: seq<Node>, role: Role, members: seq<Node>)
    requires AreAllOf(nodes, role, members)
    ensures forall n | n in members :: n in nodes && n.role == role
  {}

  lemma {:induction false} NamesAre(nodes: seq<Node>, names: seq<string>)
    requires |names| == |nodes| && forall i | 0 <= i < |nodes| :: names[i] == nodes[i].name
    ensures Names(nodes) == names
  {
    if nodes != [] {
      NamesAre(nodes[..|nodes| - 1], names[..|nodes| - 1]);
      assert names == names[..|nodes| - 1] + [names[|nodes| - 1]];
    }
  }

  /**
   Adding such a mapping in a cluster with a load balancer succeeds, and then every server and every agent
   is among the targets of each mapped port, which is bound on the load balancer as the mapping says.
   */
  lemma DefaultServed(nodes: seq<Node>, lb: Node, spec: PortSpec, order: seq<string>, servers: seq<Node>,
                      agents: seq<Node>, names: seq<string>, s: State, m: PortMapping, n: Node)
    requires IsOrder(order) && spec.mappings.Some? && !spec.removal
    requires AreAllOf(nodes, Server, servers) && AreAllOf(nodes, Agent, agents)
    requires forall i, j | 0 <= i < j < |nodes| :: nodes[i] != nodes[j]
    requires (spec.filters == [] && |nodes| > 1) || exists f | f in spec.filters :: "loadbalancer" <= f
    requires var all := servers + agents; |names| == |all| && forall i | 0 <= i < |all| :: names[i] == all[i].name
    requires forall k | k in s.targets :: s.targets[k] != []
    requires n in nodes && (n.role == Server || n.role == Agent) && m in spec.mappings.value
    ensures var r := Run(s, lb, SpecChanges(nodes, spec, order));
            && r.ok
            && ConfigKey(m.port) in r.state.targets && n.name in r.state.targets[ConfigKey(m.port)]
            && lb in r.state.bindings && m.port in r.state.bindings[lb]
            && m.binding in r.state.bindings[lb][m.port]
  {
    hide IsOrder, SpecChanges, Run, AreAllOf, ConfigKey;
    DefaultChanges(nodes, spec, order, servers, agents, names);
    ServesAmong(nodes, servers, agents, n);
    var i :| 0 <= i < |servers + agents| && (servers + agents)[i] == n;
    assert names[i] == n.name;
    ProxyServes(s, lb, Proxy(names, false, spec.mappings.value, false), m, n.name);
  }

  lemma ServesAmong(nodes: seq<Node>, servers: seq<Node>, agents: seq<Node>, n: Node)
    requires AreAllOf(nodes, Server, servers) && AreAllOf(nodes, Agent, agents)
    requires n in nodes && (n.role == Server || n.role == Agent)
    ensures n in servers + agents
  {
    var members := if n.role == Server then servers else agents;
    var places :| ArePlaces(nodes, n.role, members, places);
    var i :| 0 <= i < |nodes| && nodes[i] == n;
    var a :| 0 <= a < |places| && places[a] == i;
    assert members[a] == n;
  }

  /** After a proxy addition without the load balancer among its targets. */
  lemma ProxyServes(s: State, lb: Node, c: Change, m: PortMapping, name: string)
    requires c.Proxy? && !c.removal && !c.loop && m in c.mappings && name in c.names
    requires forall k | k in s.targets :: s.targets[k] != []
    ensures var r := Run(s, lb, [c]);
            && r.ok
            && ConfigKey(m.port) in r.state.targets && name in r.state.targets[ConfigKey(m.port)]
            && lb in r.state.bindings && m.port in r.state.bindings[lb]
            && m.binding in r.state.bindings[lb][m.port]
  {
    hide Run, ConfigKey, ChangedTargets, ChangedPorts;
    RunOne(s, lb, c);
    assert HasKey(c.mappings, ConfigKey(m.port));
    PortOrder.ApplyTargets(s, lb, c, ConfigKey(m.port), name);
    ApplyBindings(s, lb, c, lb, m.port, m.binding);
  }

  // ---------- one filter ----------

  /**
   A single filter `plain`, with or without one of the two suffixes.  What it selects on its own gets a proxy
   change, refused if the load balancer is among it; with the suffix "direct" the one node it selects gets a
   direct change, and several are refused.
   */
  lemma SingleFilter(nodes: seq<Node>, spec: PortSpec, order: seq<string>, plain: string, tail: string,
                     selected: seq<Node>, names: seq<string>)
    requires IsOrder(order) && spec.mappings.Some? && spec.filters == [plain + tail]
    requires tail in ["", ":proxy", ":direct"] && !("loadbalancer" <= plain + tail)
    requires FindSubmatch(plain).Some? && FindSubmatch(plain).value.suffix == ""
    requires Denotation(nodes, [plain]) == Selected(selected)
    requires |names| == |selected| && forall i | 0 <= i < |selected| :: names[i] == selected[i].name
    ensures SpecChanges(nodes, spec, order) ==
            if selected == [] then []
            else if tail != ":direct" then
              [Proxy(names, exists n :: n in selected && n.role == LoadBalancer, spec.mappings.value, spec.removal)]
            else if |selected| > 1 then [Refused]
            else [Direct(selected[0], spec.mappings.value, spec.removal)]
  {
    hide IsOrder, SpecChanges, SuffixDenotation, FindSubmatch, Denotation, EffectiveFilters;
    var filter := plain + tail;
    var m := FindSubmatch(plain).value;
    var suffix := if tail == "" then "" else tail[1..];
    var key := if tail == ":direct" then DIRECT else if tail == ":proxy" then PROXY else NO_SUFFIX;
    GivenSuffix(plain, m, tail, suffix);
    PlainAlone(nodes, plain, m, suffix, selected);
    KeptFilters(nodes, [filter]);
    OneFilterSelection(nodes, filter, m.(suffix := suffix), key, selected);
    SelectedFrom(nodes, m.(suffix := suffix), selected);
    OneSelection(nodes, spec, order, key, selected);
    NamesAre(selected, names);
  }

  lemma GivenSuffix(plain: string, m: Match, tail: string, suffix: string)
    requires FindSubmatch(plain) == Some(m) && m.suffix == ""
    requires tail in ["", ":proxy", ":direct"] && suffix == if tail == "" then "" else tail[1..]
    ensures FindSubmatch(plain + tail) == Some(m.(suffix := suffix)) && plain + tail != ""
    ensures suffix == "" || suffix == PROXY || suffix == DIRECT
  {
    hide FindSubmatch, IsSubset, IsGroup;
    FoundThenConsists(plain);
    GroupIsPart(m.group);
    assert tail == Spec(suffix);
    assert plain == m.group + Spec(m.subset) + "";
    SuffixWords();
    assert NodeFilter.Consists(plain + tail, m.(suffix := suffix));
    ConsistsThenFound(plain + tail, m.(suffix := suffix));
  }

  lemma SuffixWords()
    ensures IsSuffix(PROXY) && IsSuffix(DIRECT)
  {}

  lemma PlainAlone(nodes: seq<Node>, plain: string, m: Match, suffix: string, selected: seq<Node>)
    requires FindSubmatch(plain) == Some(m) && m.suffix == "" && Denotation(nodes, [plain]) == Selected(selected)
    ensures Alone(nodes, m.(suffix := suffix)) == Selected(selected)
  {
    hide FindSubmatch, Denotation, Plain;
    AloneMeaning(nodes, plain, m);
    NothingToTrim(plain);
  }

  /** Filters none of which names the load balancer are taken as they are. */
  lemma KeptFilters(nodes: seq<Node>, filters: seq<string>)
    requires filters != [] && forall f | f in filters :: !("loadbalancer" <= f)
    ensures EffectiveFilters(nodes, filters) == filters
  {}

  lemma OneFilterSelection(nodes: seq<Node>, filter: string, m: Match, key: string, selected: seq<Node>)
    requires FindSubmatch(filter) == Some(m) && Alone(nodes, m) == Selected(selected) && filter != ""
    requires key == SuffixKey(m) && key in KEYS && key != ALL
    ensures var outcome := SuffixDenotation(nodes, [filter], SUFFIXES);
            && outcome.BySuffix? && outcome.nodes.Keys == KEYS
            && outcome.nodes[key] == selected
            && forall k | k in KEYS && k != key && k != ALL :: outcome.nodes[k] == []
  {
    hide FindSubmatch, Alone, Initial, SuffixFilters.Accepted, Contribution, Added;
    InitialIs(nodes);
    assert Initial(nodes, SUFFIXES).Keys == KEYS;
    OneContribution(nodes, filter, m, selected, NO_SUFFIX);
    OneContribution(nodes, filter, m, selected, PROXY);
    OneContribution(nodes, filter, m, selected, DIRECT);
  }

  lemma OneContribution(nodes: seq<Node>, filter: string, m: Match, selected: seq<Node>, k: string)
    requires FindSubmatch(filter) == Some(m) && Alone(nodes, m) == Selected(selected) && SuffixKey(m) in KEYS
    ensures forall i | 0 <= i < |[filter]| :: SuffixFilters.Accepted(nodes, KEYS, [filter][i])
    ensures Contribution(nodes, KEYS, [filter], k) == if k == SuffixKey(m) then selected else []
  {
    hide FindSubmatch, Alone, SuffixFilters.Accepted, Contribution, Added, SuffixKey;
    AddedBy(nodes, KEYS, filter, m, k);
    ContributionNone(nodes, KEYS, k);
    assert [filter][..0] == [] && [filter][..1] == [filter];
    ContributionStep(nodes, KEYS, [filter], 0, k);
  }

  lemma SelectedFrom(nodes: seq<Node>, m: Match, selected: seq<Node>)
    requires Alone(nodes, m) == Selected(selected)
    ensures forall n | n in selected :: n in nodes
  {
    AloneNodes(nodes, m);
  }

  // ---------- the effect of one change ----------

  /**
   A proxy change with the load balancer among its targets is refused, a removal only if one of its ports has
   an entry; then the targets stay, but the ports of the load balancer have changed.
   */
  lemma ProxyResult(s: State, lb: Node, c: Change)
    requires c.Proxy?
    ensures var r := Apply(s, lb, c);
            && (r.ok <==> !(c.loop && exists m :: m in c.mappings && (c.removal ==> ConfigKey(m.port) in s.targets)))
            && (!r.ok ==> r.state.targets == s.targets)
            && (forall n | n != lb :: Bound(r.state.bindings, n) == Bound(s.bindings, n))
    ensures !Apply(s, null, c).ok && Apply(s, null, c).state == s
  {
    hide ConfigKey, ChangedTargets, ChangedPorts;
    assert c.mappings != [] ==> c.mappings[0] in c.mappings;
  }

  /** A direct change concerns the ports of its node only. */
  lemma DirectResult(s: State, lb: Node?, c: Change)
    requires c.Direct?
    ensures var r := Apply(s, lb, c);
            r.ok && r.state.targets == s.targets &&
            forall n | n != c.node :: Bound(r.state.bindings, n) == Bound(s.bindings, n)
  {}

  /** The entries of ports that had none are the names of the addition, in order. */
  lemma FreshEntry(targets: Table<string>, mappings: seq<PortMapping>, names: seq<string>, m: PortMapping)
    requires names != [] && DistinctKeys(mappings) && m in mappings && ConfigKey(m.port) !in targets
    ensures var t := ChangedTargets(targets, mappings, names, false);
            ConfigKey(m.port) in t && t[ConfigKey(m.port)] == names
  {
    hide ConfigKey, DistinctKeys, ChangedTargets;
    ChangedTargetsAt(targets, mappings, names, false, ConfigKey(m.port));
    assert HasKey(mappings, ConfigKey(m.port));
  }

  /** Every mapping appends its binding to the list of its port and leaves the other lists alone. */
  lemma AppendOrder(ports: PortMap, front: seq<PortMapping>, last: PortMapping)
    ensures ChangedPorts(ports, [], false) == ports
    ensures var before := ChangedPorts(ports, front, false);
            ChangedPorts(ports, front + [last], false) ==
            before[last.port := (if last.port in before then before[last.port] else []) + [last.binding]]
  {
    assert (front + [last])[..|front|] == front;
    var es := Entries(front + [last]);
    assert es[..|es| - 1] == Entries(front) && es[|es| - 1] == Entry(last.port, last.binding);
  }

  /** The changes of several specifications are those of each, one after another. */
  lemma ChangesInTurn(nodes: seq<Node>, specs: seq<PortSpec>, orders: seq<seq<string>>, spec: PortSpec,
                      order: seq<string>)
    requires |orders| == |specs| && (forall o | o in orders :: IsOrder(o)) && IsOrder(order)
    ensures AllChanges(nodes, [], []) == []
    ensures forall o | o in orders + [order] :: IsOrder(o)
    ensures AllChanges(nodes, specs + [spec], orders + [order]) ==
            AllChanges(nodes, specs, orders) + SpecChanges(nodes, spec, order)
  {
    hide IsOrder, SpecChanges;
    assert (specs + [spec])[..|specs|] == specs && (orders + [order])[..|specs|] == orders;
  }
}
