/**
 The order in which the selections of one specification are visited: when it decides about
 success, and what it cannot change.

 A specification comes to at most one proxy change for the filters without a suffix, one for
 those with the suffix "proxy", and one direct change.  Only the order of the first two matters.
 */
module PortVisits {
  import opened FilterLaws
  import opened FilterNodes
  import opened NodeFilter
  import opened PortChanges
  import opened PortLaws
  import opened PortOrder
  import opened PortRuns
  import opened Ports
  import opened SuffixFilters
  import opened Tables
  import opened TransformPorts
  import opened Types
  import opened Wrappers

  // ---------- a run over the selections, without its direct change ----------

  ghost predicate Distinct(order: seq<string>) {
    forall i, j | 0 <= i < j < |order| :: order[i] != order[j]
  }

  /** The proxy changes among those of the visited keys. */
  ghost function Proxies(nodes: seq<Node>, m: NodesBySuffix, spec: PortSpec, order: seq<string>): seq<Change>
    requires IsSelection(nodes, m) && forall k | k in order :: k in m
    reads (set n | n in nodes)`name
  {
    if |order| == 0 then []
    else
      var last := order[|order| - 1];
      assert last in order && forall n | n in m[last] :: n in nodes;
      Proxies(nodes, m, spec, order[..|order| - 1]) +
      if last == NO_SUFFIX || last == PROXY then ChangeOf(last, m[last], spec) else []
  }

  /** The bindings after the direct change, if it has been visited and is for one node. */
  ghost function WithDirect(bindings: map<Node, PortMap>, selected: seq<Node>, spec: PortSpec, visited: bool)
    : map<Node, PortMap>
    requires spec.mappings.Some?
  {
    if visited && |selected| == 1 then
      Rebound(bindings, selected[0], spec.mappings.value, spec.removal)
    else bindings
  }

  function Rebound(bindings: map<Node, PortMap>, n: Node, mappings: seq<PortMapping>, removal: bool)
    : map<Node, PortMap>
  {
    bindings[n := ChangedPorts(Bound(bindings, n), mappings, removal)]
  }

  /** The same change made to two nodes, or twice to one, can be made in either order. */
  lemma ReboundCommutes(bindings: map<Node, PortMap>, a: Node, b: Node, mappings: seq<PortMapping>, removal: bool)
    ensures Rebound(Rebound(bindings, a, mappings, removal), b, mappings, removal) ==
            Rebound(Rebound(bindings, b, mappings, removal), a, mappings, removal)
  {
    hide ChangedPorts;
  }

  lemma ProxyIs(s: State, lb: Node?, c: Change)
    requires c.Proxy? && lb != null
    ensures Apply(s, lb, c).ok <==> !Loops(s.targets, c)
    ensures Apply(s, lb, c).state.bindings == Rebound(s.bindings, lb, c.mappings, c.removal)
    ensures Apply(s, lb, c).state.targets ==
            if Loops(s.targets, c) then s.targets else ChangedTargets(s.targets, c.mappings, c.names, c.removal)
  {}

  /** A direct change before a proxy change of the same mappings is as good as one after it. */
  lemma ProxyAfterDirect(s: State, lb: Node?, c: Change, selected: seq<Node>, spec: PortSpec, visited: bool)
    requires c.Proxy? && spec.mappings == Some(c.mappings) && spec.removal == c.removal
    ensures var s' := State(WithDirect(s.bindings, selected, spec, visited), s.targets);
            var r, r' := Apply(s, lb, c), Apply(s', lb, c);
            && r'.ok == r.ok
            && (r.ok ==> r'.state == State(WithDirect(r.state.bindings, selected, spec, visited), r.state.targets))
  {
    var s' := State(WithDirect(s.bindings, selected, spec, visited), s.targets);
    if lb == null {
      NoFrontend(s, c);
      NoFrontend(s', c);
    } else {
      ProxyIs(s, lb, c);
      ProxyIs(s', lb, c);
      if visited && |selected| == 1 {
        ReboundCommutes(s.bindings, selected[0], lb, c.mappings, c.removal);
      }
      hide Apply, ChangedPorts, ChangedTargets, Loops;
    }
  }

  /**
   Visiting the selections of a specification comes to its proxy changes, in the order of their
   keys, with the direct change made at any time; it fails if a direct change is for several nodes.
   */
  lemma {:induction false} KeyRun(s: State, lb: Node?, nodes: seq<Node>, m: NodesBySuffix, spec: PortSpec,
                                  order: seq<string>)
    requires IsSelection(nodes, m) && (forall k | k in order :: k in m) && Distinct(order)
    requires spec.mappings.Some?
    ensures var r, q := Run(s, lb, KeyChanges(nodes, m, spec, order)), Run(s, lb, Proxies(nodes, m, spec, order));
            && (r.ok <==> q.ok && !(DIRECT in order && |m[DIRECT]| > 1))
            && (r.ok ==>
                  r.state == State(WithDirect(q.state.bindings, m[DIRECT], spec, DIRECT in order), q.state.targets))
  {
    if |order| > 0 {
      var front, last := order[..|order| - 1], order[|order| - 1];
      assert order == front + [last];
      KeyRun(s, lb, nodes, m, spec, front);
      KeyRunStep(s, lb, nodes, m, spec, front, last);
    }
  }

  lemma KeyRunStep(s: State, lb: Node?, nodes: seq<Node>, m: NodesBySuffix, spec: PortSpec, front: seq<string>,
                   last: string)
    requires IsSelection(nodes, m) && (forall k | k in front + [last] :: k in m) && Distinct(front + [last])
    requires spec.mappings.Some?
    requires var r, q := Run(s, lb, KeyChanges(nodes, m, spec, front)), Run(s, lb, Proxies(nodes, m, spec, front));
             && (r.ok <==> q.ok && !(DIRECT in front && |m[DIRECT]| > 1))
             && (r.ok ==>
                   r.state == State(WithDirect(q.state.bindings, m[DIRECT], spec, DIRECT in front), q.state.targets))
    ensures var order := front + [last];
            var r, q := Run(s, lb, KeyChanges(nodes, m, spec, order)), Run(s, lb, Proxies(nodes, m, spec, order));
            && (r.ok <==> q.ok && !(DIRECT in order && |m[DIRECT]| > 1))
            && (r.ok ==>
                  r.state == State(WithDirect(q.state.bindings, m[DIRECT], spec, DIRECT in order), q.state.targets))
  {
    hide IsSelection, Run, Apply, ChangedPorts;
    var order := front + [last];
    assert order[..|order| - 1] == front && (front + [last])[|front|] == last;
    var cs, ps := KeyChanges(nodes, m, spec, front), Proxies(nodes, m, spec, front);
    assert last in order;
    SelectionIsKeys(nodes, m);
    var change := ChangeOf(last, m[last], spec);
    RunAppend(s, lb, cs, change);
    RunNone(Run(s, lb, cs).state, lb);
    if last == NO_SUFFIX || last == PROXY {
      RunAppend(s, lb, ps, change);
      RunNone(Run(s, lb, ps).state, lb);
      if m[last] != [] && Run(s, lb, cs).ok {
        ProxyAfterDirect(Run(s, lb, ps).state, lb, change[0], m[DIRECT], spec, DIRECT in front);
        RunOne(Run(s, lb, cs).state, lb, change[0]);
        RunOne(Run(s, lb, ps).state, lb, change[0]);
      } else if m[last] != [] {
        RunOne(Run(s, lb, ps).state, lb, change[0]);
      }
    } else {
      assert ps + [] == ps;
      if last == DIRECT {
        DirectVisited(front, last);
        if m[last] != [] {
          RunOne(Run(s, lb, cs).state, lb, change[0]);
          RefusedIs(Run(s, lb, cs).state, lb);
          if |m[last]| == 1 {
            DirectIs(Run(s, lb, cs).state, lb, change[0]);
          }
        }
      } else {
        assert change == [];
      }
    }
  }

  lemma DirectVisited(front: seq<string>, last: string)
    requires Distinct(front + [last])
    ensures last !in front
  {
    assert (front + [last])[|front|] == last;
    assert forall i | 0 <= i < |front| :: (front + [last])[i] == front[i];
  }

  // ---------- the two orders that there are ----------

  lemma {:induction false} ProxiesForm(nodes: seq<Node>, m: NodesBySuffix, spec: PortSpec, order: seq<string>)
    requires IsSelection(nodes, m) && (forall k | k in order :: k in m) && Distinct(order)
    ensures var a, b := PartOf(nodes, m, spec, NO_SUFFIX), PartOf(nodes, m, spec, PROXY);
            var ps := Proxies(nodes, m, spec, order);
            if NO_SUFFIX in order && PROXY in order then ps == a + b || ps == b + a
            else if NO_SUFFIX in order then ps == a
            else if PROXY in order then ps == b
            else ps == []
  {
    if |order| > 0 {
      var front, last := order[..|order| - 1], order[|order| - 1];
      assert order == front + [last];
      ProxiesForm(nodes, m, spec, front);
      DirectVisited(front, last);
    }
  }

  ghost function PartOf(nodes: seq<Node>, m: NodesBySuffix, spec: PortSpec, key: string): (part: seq<Change>)
    requires IsSelection(nodes, m) && key in KEYS
    reads (set n | n in nodes)`name
    ensures |part| <= 1
  {
    SelectionIsKeys(nodes, m);
    assert forall n | n in m[key] :: n in nodes;
    ChangeOf(key, m[key], spec)
  }

  const SUFFIXLESS_FIRST := [NO_SUFFIX, PROXY, DIRECT, ALL]
  const PROXY_FIRST := [PROXY, NO_SUFFIX, DIRECT, ALL]

  lemma BothOrders(nodes: seq<Node>, m: NodesBySuffix, spec: PortSpec)
    requires IsSelection(nodes, m)
    ensures IsOrder(SUFFIXLESS_FIRST) && IsOrder(PROXY_FIRST)
    ensures Proxies(nodes, m, spec, SUFFIXLESS_FIRST) ==
            PartOf(nodes, m, spec, NO_SUFFIX) + PartOf(nodes, m, spec, PROXY)
    ensures Proxies(nodes, m, spec, PROXY_FIRST) == PartOf(nodes, m, spec, PROXY) + PartOf(nodes, m, spec, NO_SUFFIX)
  {
    SelectionIsKeys(nodes, m);
    hide ChangeOf, IsSelection;
    ProxiesOfFour(nodes, m, spec, SUFFIXLESS_FIRST);
    ProxiesOfFour(nodes, m, spec, PROXY_FIRST);
  }

  lemma ProxiesOfFour(nodes: seq<Node>, m: NodesBySuffix, spec: PortSpec, order: seq<string>)
    requires IsSelection(nodes, m) && |order| == 4 && (forall k | k in order :: k in m)
    requires order[0] in {NO_SUFFIX, PROXY} && order[1] in {NO_SUFFIX, PROXY}
    requires order[2] !in {NO_SUFFIX, PROXY} && order[3] !in {NO_SUFFIX, PROXY}
    ensures order[0] in KEYS && order[1] in KEYS
    ensures Proxies(nodes, m, spec, order) == PartOf(nodes, m, spec, order[0]) + PartOf(nodes, m, spec, order[1])
  {
    hide PartOf, IsSelection, Proxies;
    SelectionIsKeys(nodes, m);
    NoProxies(nodes, m, spec);
    assert order[..1] == [] + [order[0]];
    assert order[..2] == order[..1] + [order[1]];
    assert order[..3] == order[..2] + [order[2]];
    assert order == order[..3] + [order[3]];
    ProxiesNext(nodes, m, spec, [], order[0]);
    ProxiesNext(nodes, m, spec, order[..1], order[1]);
    ProxiesNext(nodes, m, spec, order[..2], order[2]);
    ProxiesNext(nodes, m, spec, order[..3], order[3]);
  }

  lemma NoProxies(nodes: seq<Node>, m: NodesBySuffix, spec: PortSpec)
    requires IsSelection(nodes, m)
    ensures Proxies(nodes, m, spec, []) == []
  {}

  lemma ProxiesNext(nodes: seq<Node>, m: NodesBySuffix, spec: PortSpec, front: seq<string>, last: string)
    requires IsSelection(nodes, m) && last in KEYS && forall k | k in front + [last] :: k in m
    ensures Proxies(nodes, m, spec, front + [last]) ==
            Proxies(nodes, m, spec, front) +
            if last == NO_SUFFIX || last == PROXY then PartOf(nodes, m, spec, last) else []
  {
    hide IsSelection, ChangeOf;
    assert (front + [last])[..|front|] == front;
    assert last in front + [last];
  }

  // ---------- success ----------

  /** A specification that does not parse fails whenever something is selected. */
  lemma {:induction false} RunRefused(s: State, lb: Node?, cs: seq<Change>)
    requires forall c | c in cs :: c.Refused?
    ensures Run(s, lb, cs) == Result(s, cs == [])
  {
    if cs != [] {
      RunRefused(s, lb, cs[..|cs| - 1]);
      assert cs[|cs| - 1] in cs;
    }
  }

  lemma UnparsedRun(s: State, lb: Node?, nodes: seq<Node>, m: NodesBySuffix, spec: PortSpec, order: seq<string>)
    requires IsSelection(nodes, m) && IsOrder(order) && spec.mappings.None? && forall k | k in order :: k in m
    ensures Run(s, lb, KeyChanges(nodes, m, spec, order)) == Result(s, forall k | k in m :: m[k] == [])
  {
    SelectionIsKeys(nodes, m);
    hide IsSelection, Run, KeyChanges;
    var cs := KeyChanges(nodes, m, spec, order);
    forall c | c in cs ensures c.Refused? && exists k | k in m :: m[k] != [] {
      KeyChangesMembers(nodes, m, spec, order, c);
      var k :| k in order && c in ChangeOf(k, m[k], spec);
      assert m[k] != [];
    }
    RunRefused(s, lb, cs);
    assert cs != [] ==> cs[0] in cs;
    if k :| k in m && m[k] != [] {
      KeyChangesMembers(nodes, m, spec, order, Refused);
      assert k in order && ChangeOf(k, m[k], spec) == [Refused];
    }
  }

  /** The order of two additions does not decide about success. */
  lemma AdditionPair(s: State, lb: Node?, a: Change, b: Change)
    requires a.Proxy? && !a.removal && b.Proxy? && !b.removal
    ensures PairOk(s, lb, a, b) == PairOk(s, lb, b, a)
  {
    hide ChangedTargets, ChangedPorts;
  }

  ghost predicate PairOk(s: State, lb: Node?, a: Change, b: Change) {
    Apply(s, lb, a).ok && Apply(Apply(s, lb, a).state, lb, b).ok
  }

  lemma PairRun(s: State, lb: Node?, a: Change, b: Change)
    ensures Run(s, lb, [a] + [b]).ok == PairOk(s, lb, a, b)
  {
    RunAppend(s, lb, [a], [b]);
    RunOne(s, lb, a);
    RunOne(Apply(s, lb, a).state, lb, b);
  }

  /**
   What decides about success besides the selection itself: a removal of parsed mappings through
   the load balancer from two selections, one of which, and only one, has the load balancer in it,
   while the other takes the last name out of every entry; and no direct change fails anyway.
   */
  ghost predicate OrderMatters(nodes: seq<Node>, lb: Node?, spec: PortSpec, s: State)
    reads (set n | n in nodes)`name
  {
    && lb != null && spec.removal && spec.mappings.Some?
    && var outcome := SuffixDenotation(nodes, EffectiveFilters(nodes, spec.filters), SUFFIXES);
    && outcome.BySuffix?
    && var m := outcome.nodes;
    IsSelection(nodes, m) && SelectionMatters(nodes, m, spec.mappings.value, s)
  }

  ghost predicate SelectionMatters(nodes: seq<Node>, m: NodesBySuffix, mappings: seq<PortMapping>, s: State)
    requires IsSelection(nodes, m)
    reads (set n | n in nodes)`name
  {
    SelectionIsKeys(nodes, m);
    && m[NO_SUFFIX] != [] && m[PROXY] != [] && |m[DIRECT]| <= 1
    && HasLoadbalancer(m[NO_SUFFIX]) != HasLoadbalancer(m[PROXY])
    && Empties(s.targets, mappings, Harmless(nodes, m))
  }

  /** The names of the proxy selection without the load balancer. */
  ghost function Harmless(nodes: seq<Node>, m: NodesBySuffix): seq<string>
    requires IsSelection(nodes, m)
    reads (set n | n in nodes)`name
  {
    SelectionIsKeys(nodes, m);
    assert forall k | k in m :: forall n | n in m[k] :: n in nodes;
    if HasLoadbalancer(m[NO_SUFFIX]) then Names(m[PROXY]) else Names(m[NO_SUFFIX])
  }

  /** Success of the two orders of the proxy changes. */
  lemma ProxyOrders(s: State, lb: Node?, nodes: seq<Node>, m: NodesBySuffix, spec: PortSpec)
    requires IsSelection(nodes, m) && spec.mappings.Some? && DistinctKeys(spec.mappings.value)
    ensures var a, b := PartOf(nodes, m, spec, NO_SUFFIX), PartOf(nodes, m, spec, PROXY);
            Run(s, lb, a + b).ok != Run(s, lb, b + a).ok && |m[DIRECT]| <= 1 <==>
              lb != null && spec.removal && SelectionMatters(nodes, m, spec.mappings.value, s)
  {
    hide DistinctKeys, Run, Apply, Empties, IsSelection;
    SelectionIsKeys(nodes, m);
    var a, b := PartOf(nodes, m, spec, NO_SUFFIX), PartOf(nodes, m, spec, PROXY);
    if a == [] || b == [] {
      assert a + b == b + a;
    } else {
      PairRun(s, lb, a[0], b[0]);
      PairRun(s, lb, b[0], a[0]);
      assert a == [a[0]] && b == [b[0]];
      if lb == null {
        NoFrontend(s, a[0]);
        NoFrontend(s, b[0]);
      } else if !spec.removal {
        AdditionPair(s, lb, a[0], b[0]);
      } else {
        assert [a[0]] + [b[0]] == [a[0], b[0]] && [b[0]] + [a[0]] == [b[0], a[0]];
        RemovalOrderMatters(s, lb, a[0], b[0], spec.mappings.value);
      }
    }
  }

  lemma SuccessOf(s: State, lb: Node?, nodes: seq<Node>, m: NodesBySuffix, spec: PortSpec, order: seq<string>)
    requires IsSelection(nodes, m) && spec.mappings.Some? && IsOrder(order) && forall k | k in order :: k in m
    ensures var a, b := PartOf(nodes, m, spec, NO_SUFFIX), PartOf(nodes, m, spec, PROXY);
            var ps := Proxies(nodes, m, spec, order);
            && (ps == a + b || ps == b + a)
            && (Run(s, lb, KeyChanges(nodes, m, spec, order)).ok <==> Run(s, lb, ps).ok && |m[DIRECT]| <= 1)
  {
    hide Run, IsSelection;
    KeyRun(s, lb, nodes, m, spec, order);
    ProxiesForm(nodes, m, spec, order);
  }

  ghost predicate ParsedDistinct(spec: PortSpec) {
    spec.mappings.Some? ==> DistinctKeys(spec.mappings.value)
  }

  /** In whatever order the selections of a specification are visited, the result is the same. */
  ghost predicate SameSuccess(nodes: seq<Node>, lb: Node?, spec: PortSpec, s: State)
    reads (set n | n in nodes)`name
  {
    forall order, order' | IsOrder(order) && IsOrder(order') ::
      Run(s, lb, SpecChanges(nodes, spec, order)).ok == Run(s, lb, SpecChanges(nodes, spec, order')).ok
  }

  /** The selection of a specification, if there is one, and its changes. */
  lemma SpecIsKeys(nodes: seq<Node>, spec: PortSpec, order: seq<string>)
    requires IsOrder(order)
    ensures var outcome := SuffixDenotation(nodes, EffectiveFilters(nodes, spec.filters), SUFFIXES);
            if outcome.SuffixError? then SpecChanges(nodes, spec, order) == [Refused]
            else IsSelection(nodes, outcome.nodes) && outcome.nodes.Keys == KEYS &&
                 SpecChanges(nodes, spec, order) == KeyChanges(nodes, outcome.nodes, spec, order)
  {
    hide SuffixDenotation, EffectiveFilters, IsSelection, KeyChanges, IsOrder;
    var filters := EffectiveFilters(nodes, spec.filters);
    match SuffixDenotation(nodes, filters, SUFFIXES) {
      case SuffixError =>
      case BySuffix(m) =>
        EffectiveAvoidsLoadbalancer(nodes, spec.filters);
        SelectionNodes(nodes, filters);
        SelectionIsKeys(nodes, m);
    }
  }

  lemma SameUnlessItMatters(nodes: seq<Node>, lb: Node?, spec: PortSpec, s: State, order: seq<string>,
                            order': seq<string>)
    requires ParsedDistinct(spec) && IsOrder(order) && IsOrder(order') && !OrderMatters(nodes, lb, spec, s)
    ensures Run(s, lb, SpecChanges(nodes, spec, order)).ok == Run(s, lb, SpecChanges(nodes, spec, order')).ok
  {
    hide SuffixDenotation, EffectiveFilters, IsSelection, KeyChanges, Run, SelectionMatters, SpecChanges, DistinctKeys;
    SpecIsKeys(nodes, spec, order);
    SpecIsKeys(nodes, spec, order');
    var outcome := SuffixDenotation(nodes, EffectiveFilters(nodes, spec.filters), SUFFIXES);
    if outcome.BySuffix? {
      var m := outcome.nodes;
      if spec.mappings.None? {
        UnparsedRun(s, lb, nodes, m, spec, order);
        UnparsedRun(s, lb, nodes, m, spec, order');
      } else {
        SuccessOf(s, lb, nodes, m, spec, order);
        SuccessOf(s, lb, nodes, m, spec, order');
        ProxyOrders(s, lb, nodes, m, spec);
      }
    }
  }

  lemma DifferentIfItMatters(nodes: seq<Node>, lb: Node?, spec: PortSpec, s: State)
    requires ParsedDistinct(spec) && OrderMatters(nodes, lb, spec, s)
    ensures IsOrder(SUFFIXLESS_FIRST) && IsOrder(PROXY_FIRST)
    ensures Run(s, lb, SpecChanges(nodes, spec, SUFFIXLESS_FIRST)).ok !=
            Run(s, lb, SpecChanges(nodes, spec, PROXY_FIRST)).ok
  {
    hide SuffixDenotation, EffectiveFilters, IsSelection, KeyChanges, Run, IsOrder, SelectionMatters, SpecChanges;
    hide DistinctKeys;
    var m := SuffixDenotation(nodes, EffectiveFilters(nodes, spec.filters), SUFFIXES).nodes;
    BothOrders(nodes, m, spec);
    OrderIsKeys(SUFFIXLESS_FIRST);
    OrderIsKeys(PROXY_FIRST);
    SpecIsKeys(nodes, spec, SUFFIXLESS_FIRST);
    SpecIsKeys(nodes, spec, PROXY_FIRST);
    SuccessOf(s, lb, nodes, m, spec, SUFFIXLESS_FIRST);
    SuccessOf(s, lb, nodes, m, spec, PROXY_FIRST);
    ProxyOrders(s, lb, nodes, m, spec);
  }

  /**
   Whether a specification succeeds depends on the order in which its selections are visited if and
   only if `OrderMatters`.
   */
  lemma SuccessDependsOnOrder(nodes: seq<Node>, lb: Node?, spec: PortSpec, s: State)
    requires ParsedDistinct(spec)
    ensures !SameSuccess(nodes, lb, spec, s) <==> OrderMatters(nodes, lb, spec, s)
  {
    hide OrderMatters, IsOrder, SpecChanges, Run, ParsedDistinct;
    if OrderMatters(nodes, lb, spec, s) {
      DifferentIfItMatters(nodes, lb, spec, s);
    } else {
      forall order, order' | IsOrder(order) && IsOrder(order')
        ensures Run(s, lb, SpecChanges(nodes, spec, order)).ok == Run(s, lb, SpecChanges(nodes, spec, order')).ok
      {
        SameUnlessItMatters(nodes, lb, spec, s, order, order');
      }
    }
  }

  // ---------- results ----------

  /** No filter without suffix selects a node, or no filter with the suffix "proxy" does. */
  ghost predicate Unmixed(nodes: seq<Node>, spec: PortSpec) {
    match SuffixDenotation(nodes, EffectiveFilters(nodes, spec.filters), SUFFIXES)
    case SuffixError => true
    case BySuffix(m) => (NO_SUFFIX in m && m[NO_SUFFIX] == []) || (PROXY in m && m[PROXY] == [])
  }

  /** In two orders that both succeed, removals, and specifications that are not mixed, have one result. */
  lemma ResultIndependent(nodes: seq<Node>, lb: Node?, spec: PortSpec, s: State, order: seq<string>,
                          order': seq<string>)
    requires ParsedDistinct(spec) && IsOrder(order) && IsOrder(order')
    requires spec.removal || Unmixed(nodes, spec)
    requires Run(s, lb, SpecChanges(nodes, spec, order)).ok && Run(s, lb, SpecChanges(nodes, spec, order')).ok
    ensures Run(s, lb, SpecChanges(nodes, spec, order)) == Run(s, lb, SpecChanges(nodes, spec, order'))
  {
    hide SuffixDenotation, EffectiveFilters, IsSelection, KeyChanges, Run, SpecChanges, DistinctKeys;
    SpecIsKeys(nodes, spec, order);
    SpecIsKeys(nodes, spec, order');
    var outcome := SuffixDenotation(nodes, EffectiveFilters(nodes, spec.filters), SUFFIXES);
    if outcome.SuffixError? {
      RunRefused(s, lb, [Refused]);
    } else {
      var m := outcome.nodes;
      if spec.mappings.None? {
        UnparsedRun(s, lb, nodes, m, spec, order);
        UnparsedRun(s, lb, nodes, m, spec, order');
      } else {
        KeyRun(s, lb, nodes, m, spec, order);
        KeyRun(s, lb, nodes, m, spec, order');
        ProxiesForm(nodes, m, spec, order);
        ProxiesForm(nodes, m, spec, order');
        PartsCommute(s, lb, nodes, m, spec);
      }
    }
  }

  lemma PartsCommute(s: State, lb: Node?, nodes: seq<Node>, m: NodesBySuffix, spec: PortSpec)
    requires IsSelection(nodes, m) && m.Keys == KEYS && spec.mappings.Some? && DistinctKeys(spec.mappings.value)
    requires spec.removal || m[NO_SUFFIX] == [] || m[PROXY] == []
    ensures var a, b := PartOf(nodes, m, spec, NO_SUFFIX), PartOf(nodes, m, spec, PROXY);
            Run(s, lb, a + b).ok && Run(s, lb, b + a).ok ==> Run(s, lb, a + b) == Run(s, lb, b + a)
  {
    hide DistinctKeys, Run, Apply, IsSelection;
    var a, b := PartOf(nodes, m, spec, NO_SUFFIX), PartOf(nodes, m, spec, PROXY);
    if a == [] || b == [] {
      assert a + b == b + a;
    } else if Run(s, lb, a + b).ok && Run(s, lb, b + a).ok {
      assert a == [a[0]] && b == [b[0]];
      assert a + b == [a[0], b[0]] && b + a == [b[0], a[0]];
      if lb == null {
        PairRun(s, lb, a[0], b[0]);
        NoFrontend(s, a[0]);
      } else {
        RemovalsCommute(s, lb, a[0], b[0], spec.mappings.value);
      }
    }
  }

  // ---------- several specifications ----------

  /** The results of the specifications do not depend on the order of visits. */
  ghost predicate Settled(nodes: seq<Node>, specs: seq<PortSpec>) {
    forall spec | spec in specs :: ParsedDistinct(spec) && (spec.removal || Unmixed(nodes, spec))
  }

  /**
   Two runs over the same specifications that both succeed end in the same state, however their
   selections are visited, if each specification is a removal or not mixed.
   */
  lemma {:induction false} RunsAgree(nodes: seq<Node>, lb: Node?, specs: seq<PortSpec>,
                                     orders: seq<seq<string>>, orders': seq<seq<string>>, s: State)
    requires AreOrders(orders, specs) && AreOrders(orders', specs) && Settled(nodes, specs)
    requires Run(s, lb, AllChanges(nodes, specs, orders)).ok && Run(s, lb, AllChanges(nodes, specs, orders')).ok
    ensures Run(s, lb, AllChanges(nodes, specs, orders)) == Run(s, lb, AllChanges(nodes, specs, orders'))
  {
    hide Run, SpecChanges, IsOrder, Unmixed, ParsedDistinct;
    if |specs| > 0 {
      var k := |specs| - 1;
      var front, front' := AllChanges(nodes, specs[..k], orders[..k]), AllChanges(nodes, specs[..k], orders'[..k]);
      RunAppend(s, lb, front, SpecChanges(nodes, specs[k], orders[k]));
      RunAppend(s, lb, front', SpecChanges(nodes, specs[k], orders'[k]));
      RunsAgree(nodes, lb, specs[..k], orders[..k], orders'[..k], s);
      ResultIndependent(nodes, lb, specs[k], Run(s, lb, front).state, orders[k], orders'[k]);
    }
  }

  /** If no specification is mixed, the order of visits decides neither about success nor about the result. */
  lemma {:induction false} UnmixedRunsAgree(nodes: seq<Node>, lb: Node?, specs: seq<PortSpec>,
                                            orders: seq<seq<string>>, orders': seq<seq<string>>, s: State)
    requires AreOrders(orders, specs) && AreOrders(orders', specs)
    requires forall spec | spec in specs :: ParsedDistinct(spec) && Unmixed(nodes, spec)
    ensures var r, r' := Run(s, lb, AllChanges(nodes, specs, orders)), Run(s, lb, AllChanges(nodes, specs, orders'));
            r.ok == r'.ok && (r.ok ==> r == r')
  {
    hide Run, SpecChanges, IsOrder, Unmixed, ParsedDistinct, OrderMatters;
    if |specs| > 0 {
      var k := |specs| - 1;
      var front, front' := AllChanges(nodes, specs[..k], orders[..k]), AllChanges(nodes, specs[..k], orders'[..k]);
      RunAppend(s, lb, front, SpecChanges(nodes, specs[k], orders[k]));
      RunAppend(s, lb, front', SpecChanges(nodes, specs[k], orders'[k]));
      UnmixedRunsAgree(nodes, lb, specs[..k], orders[..k], orders'[..k], s);
      if Run(s, lb, front).ok {
        var s' := Run(s, lb, front).state;
        UnmixedNeverMatters(nodes, lb, specs[k], s');
        SameUnlessItMatters(nodes, lb, specs[k], s', orders[k], orders'[k]);
        if Run(s', lb, SpecChanges(nodes, specs[k], orders[k])).ok {
          ResultIndependent(nodes, lb, specs[k], s', orders[k], orders'[k]);
        }
      }
    }
  }

  lemma UnmixedNeverMatters(nodes: seq<Node>, lb: Node?, spec: PortSpec, s: State)
    requires Unmixed(nodes, spec)
    ensures !OrderMatters(nodes, lb, spec, s)
  {
    hide SuffixDenotation, EffectiveFilters, IsSelection, Empties;
  }

  // ---------- filters that can and cannot be mixed ----------

  /** Filters none of which goes under a key select nothing for it. */
  lemma {:induction false} ContributionOfOthers(nodes: seq<Node>, keys: set<string>, filters: seq<string>, key: string)
    requires forall i | 0 <= i < |filters| :: SuffixFilters.Accepted(nodes, keys, filters[i])
    requires forall i | 0 <= i < |filters| :: FindSubmatch(filters[i]).Some? ==>
             SuffixKey(FindSubmatch(filters[i]).value) != key
    ensures Contribution(nodes, keys, filters, key) == []
  {
    hide FindSubmatch, Alone;
    if |filters| > 0 {
      ContributionOfOthers(nodes, keys, filters[..|filters| - 1], key);
    }
  }

  /** What a filter of the given parts is parsed to. */
  lemma Parsing(group: string, subset: string, suffix: string)
    requires IsGroup(group) && subset in {"", "*"} && suffix in {"", PROXY}
    ensures FindSubmatch(group + Spec(subset) + Spec(suffix)) == Some(Match(group, subset, suffix))
  {
    ConsistsThenFound(group + Spec(subset) + Spec(suffix), Match(group, subset, suffix));
  }

  lemma DefaultFilters()
    ensures FindSubmatch(DEFAULT_FILTERS[0]) == Some(Match("servers", "*", PROXY))
    ensures FindSubmatch(DEFAULT_FILTERS[1]) == Some(Match("agents", "*", PROXY))
  {
    hide FindSubmatch;
    Parsing("servers", "*", PROXY);
    Parsing("agents", "*", PROXY);
    assert "servers" + Spec("*") + Spec(PROXY) == DEFAULT_FILTERS[0];
    assert "agents" + Spec("*") + Spec(PROXY) == DEFAULT_FILTERS[1];
  }

  /** A key under which none of the filters in force goes selects nothing. */
  lemma NothingUnder(nodes: seq<Node>, filters: seq<string>, key: string)
    requires key in KEYS && key != ALL
    requires forall f | f in filters :: FindSubmatch(f).Some? ==> SuffixKey(FindSubmatch(f).value) != key
    ensures var outcome := SuffixDenotation(nodes, filters, SUFFIXES);
            outcome.BySuffix? ==> key in outcome.nodes && outcome.nodes[key] == []
  {
    hide FindSubmatch, Alone, SuffixKey, SuffixFilters.Accepted, Contribution;
    var outcome := SuffixDenotation(nodes, filters, SUFFIXES);
    if outcome.BySuffix? {
      InitialIs(nodes);
      hide Initial;
      assert forall i | 0 <= i < |filters| :: filters[i] in filters;
      ContributionOfOthers(nodes, Initial(nodes, SUFFIXES).Keys, filters, key);
    }
  }

  /**
   Editing a cluster first evaluates the filters without any allowed suffix.  A specification that
   passes selects nothing for direct mappings and is not mixed.
   */
  lemma EditIsUnmixed(nodes: seq<Node>, spec: PortSpec)
    requires SuffixDenotation(nodes, spec.filters, []).BySuffix?
    ensures Unmixed(nodes, spec)
    ensures var outcome := SuffixDenotation(nodes, EffectiveFilters(nodes, spec.filters), SUFFIXES);
            outcome.BySuffix? ==> DIRECT in outcome.nodes && outcome.nodes[DIRECT] == []
  {
    hide FindSubmatch, Alone, MentionsLoadbalancer, Contribution;
    var filters := spec.filters;
    assert EffectiveFilters(nodes, filters) == if MentionsLoadbalancer(filters) then DEFAULT_FILTERS else filters;
    if MentionsLoadbalancer(filters) {
      DefaultFilters();
      NothingUnder(nodes, DEFAULT_FILTERS, NO_SUFFIX);
      NothingUnder(nodes, DEFAULT_FILTERS, DIRECT);
    } else {
      forall f | f in filters ensures FindSubmatch(f).Some? ==> SuffixKey(FindSubmatch(f).value) !in {PROXY, DIRECT} {
        var i :| 0 <= i < |filters| && filters[i] == f;
        assert SuffixFilters.Accepted(nodes, Initial(nodes, []).Keys, filters[i]);
      }
      NothingUnder(nodes, filters, PROXY);
      NothingUnder(nodes, filters, DIRECT);
    }
  }

  // ---------- a specification that depends on the order ----------

  /** Removing port 80 from all nodes, and from all servers by proxy. */
  const MIXED_FILTERS := ["all", "servers:*:proxy"]
  const MAPPING_80 := PortMapping("80/tcp", PortBinding("", "8080"))
  const MIXED_REMOVAL := PortSpec(Some([MAPPING_80]), MIXED_FILTERS, true)

  lemma MixedParsed()
    ensures FindSubmatch(MIXED_FILTERS[0]) == Some(Match("all", "", ""))
    ensures FindSubmatch(MIXED_FILTERS[1]) == Some(Match("servers", "*", PROXY))
    ensures !MentionsLoadbalancer(MIXED_FILTERS)
  {
    hide FindSubmatch;
    Parsing("all", "", "");
    assert "all" + Spec("") + Spec("") == MIXED_FILTERS[0];
    DefaultFilters();
    assert MIXED_FILTERS[0][0] == 'a' && MIXED_FILTERS[1][0] == 's';
    assert forall f | f in MIXED_FILTERS :: f == MIXED_FILTERS[0] || f == MIXED_FILTERS[1];
  }

  lemma ServersOf(lb: Node, server: Node)
    requires lb.role == LoadBalancer && server.role == Server
    ensures OfRole([lb, server], Server) == [server]
  {
    var nodes := [lb, server];
    assert nodes[..1] == [lb] && [lb][..0] == [];
    assert OfRole([lb][..0], Server) == [];
    assert OfRole([lb], Server) == [];
  }

  lemma DedupOne(x: Node)
    ensures Dedup([x]) == [x]
  {
    assert [x][..0] == [];
    EmptyDedup<Node>();
  }

  lemma AtFirst(x: Node)
    ensures At([x], Interval(0, 0)) == [x]
  {
    assert Interval(0, 0) == [0];
    assert [0][..0] == [];
    AtNone([x]);
  }

  /** All servers of a cluster of one load balancer and one server. */
  lemma OneServer(lb: Node, server: Node)
    requires lb.role == LoadBalancer && server.role == Server
    ensures Alone([lb, server], Match("servers", "*", PROXY)) == Selected([server])
  {
    ServersOf(lb, server);
    WildcardIndices(1);
    AtFirst(server);
    DedupOne(server);
    hide SubsetIndices, Dedup, OfRole, At, Interval, IsList, IsRange;
    assert GroupNodes([lb, server], "servers") == [server];
  }

  /** What one parsed filter adds. */
  lemma AddedBy(nodes: seq<Node>, keys: set<string>, filter: string, m: Match, key: string)
    requires FindSubmatch(filter) == Some(m) && SuffixKey(m) in keys && Alone(nodes, m).Selected?
    ensures SuffixFilters.Accepted(nodes, keys, filter)
    ensures Added(nodes, keys, filter, key) == if SuffixKey(m) == key then Alone(nodes, m).nodes else []
  {
    hide FindSubmatch, Alone;
  }

  lemma TwoFilters(nodes: seq<Node>, keys: set<string>, filters: seq<string>, a: Match, b: Match, key: string)
    requires |filters| == 2 && FindSubmatch(filters[0]) == Some(a) && FindSubmatch(filters[1]) == Some(b)
    requires SuffixKey(a) in keys && Alone(nodes, a).Selected? && SuffixKey(b) in keys && Alone(nodes, b).Selected?
    ensures forall i | 0 <= i < |filters| :: SuffixFilters.Accepted(nodes, keys, filters[i])
    ensures Contribution(nodes, keys, filters, key) ==
            (if SuffixKey(a) == key then Alone(nodes, a).nodes else []) +
            (if SuffixKey(b) == key then Alone(nodes, b).nodes else [])
  {
    hide FindSubmatch, Alone, SuffixFilters.Accepted, Added, Contribution, SuffixKey;
    AddedBy(nodes, keys, filters[0], a, key);
    AddedBy(nodes, keys, filters[1], b, key);
    assert filters[..2] == filters && filters[..0] == [];
    ContributionNone(nodes, keys, key);
    ContributionStep(nodes, keys, filters, 0, key);
    ContributionStep(nodes, keys, filters, 1, key);
  }

  lemma MixedSelection(lb: Node, server: Node)
    requires lb.role == LoadBalancer && server.role == Server
    ensures var outcome := SuffixDenotation([lb, server], MIXED_FILTERS, SUFFIXES);
            && outcome.BySuffix? && outcome.nodes.Keys == KEYS
            && outcome.nodes[NO_SUFFIX] == [lb, server]
            && outcome.nodes[PROXY] == [server]
            && outcome.nodes[DIRECT] == []
  {
    hide FindSubmatch, Alone, Initial, SuffixFilters.Accepted, Contribution, SuffixKey;
    var nodes := [lb, server];
    InitialIs(nodes);
    MixedContribution(lb, server, KEYS, NO_SUFFIX);
    MixedContribution(lb, server, KEYS, PROXY);
    MixedContribution(lb, server, KEYS, DIRECT);
    assert Initial(nodes, SUFFIXES).Keys == KEYS;
  }

  lemma MixedContribution(lb: Node, server: Node, keys: set<string>, key: string)
    requires lb.role == LoadBalancer && server.role == Server && NO_SUFFIX in keys && PROXY in keys
    ensures forall i | 0 <= i < |MIXED_FILTERS| :: SuffixFilters.Accepted([lb, server], keys, MIXED_FILTERS[i])
    ensures Contribution([lb, server], keys, MIXED_FILTERS, key) ==
            (if key == NO_SUFFIX then [lb, server] else []) + (if key == PROXY then [server] else [])
  {
    hide FindSubmatch, Alone, SuffixFilters.Accepted, Contribution;
    var nodes, all, servers := [lb, server], Match("all", "", ""), Match("servers", "*", PROXY);
    MixedParsed();
    OneServer(lb, server);
    AllAlone(nodes);
    assert SuffixKey(all) == NO_SUFFIX && SuffixKey(servers) == PROXY;
    TwoFilters(nodes, keys, MIXED_FILTERS, all, servers, key);
  }

  lemma AllAlone(nodes: seq<Node>)
    ensures Alone(nodes, Match("all", "", "")) == Selected(nodes)
  {}

  /**
   A removal that fails when the selection without suffix is visited first and succeeds when the
   other one is, or the other way round: in a cluster of a load balancer and one server that is the
   only target of port 80.
   */
  lemma VisitOrderExample(lb: Node, server: Node, s: State)
    requires lb.role == LoadBalancer && server.role == Server
    requires s.targets == map["80.tcp" := [server.name]]
    ensures !SameSuccess([lb, server], lb, MIXED_REMOVAL, s)
  {
    var nodes := [lb, server];
    MixedParsed();
    MixedSelection(lb, server);
    assert EffectiveFilters(nodes, MIXED_FILTERS) == MIXED_FILTERS;
    SelectionNodes(nodes, MIXED_FILTERS);
    ExampleEmpties(s.targets, server.name);
    OneMapping(MAPPING_80);
    hide SuffixDenotation, EffectiveFilters, MentionsLoadbalancer, FindSubmatch, IsSelection, Empties, DistinctKeys;
    hide SameSuccess;
    ExampleMatters(lb, server, SuffixDenotation(nodes, MIXED_FILTERS, SUFFIXES).nodes, s);
    SuccessDependsOnOrder(nodes, lb, MIXED_REMOVAL, s);
  }

  lemma ExampleEmpties(targets: Table<string>, name: string)
    requires targets == map["80.tcp" := [name]]
    ensures Empties(targets, [MAPPING_80], [name])
  {
    hide ConfigKey;
    ExampleKey();
    assert MAPPING_80 in [MAPPING_80] && ConfigKey(MAPPING_80.port) in targets;
  }

  lemma ExampleMatters(lb: Node, server: Node, m: NodesBySuffix, s: State)
    requires lb.role == LoadBalancer && server.role == Server
    requires IsSelection([lb, server], m) && m.Keys == KEYS
    requires m[NO_SUFFIX] == [lb, server] && m[PROXY] == [server] && m[DIRECT] == []
    requires Empties(s.targets, [MAPPING_80], [server.name])
    ensures SelectionMatters([lb, server], m, [MAPPING_80], s)
  {
    hide IsSelection, Empties;
    assert lb in m[NO_SUFFIX];
    NamesOfOne(server);
    assert Harmless([lb, server], m) == [server.name];
  }

  lemma NamesOfOne(n: Node)
    ensures Names([n]) == [n.name]
  {
    assert [n][..0] == [];
  }
}
