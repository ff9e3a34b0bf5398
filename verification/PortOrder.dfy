/**
 What a run of additions comes to, whatever the order of its changes; and how the success of
 removals depends on their order.
 */
module PortOrder {
  import opened PortChanges
  import opened PortLaws
  import opened Strings
  import opened Tables
  import opened Types

  ghost predicate IsAddition(c: Change) {
    c.Refused? || (!c.removal && (c.Proxy? ==> c.names != []))
  }

  /** An addition is refused for a reason that does not depend on the state. */
  ghost predicate Acceptable(c: Change) {
    match c
    case Refused => false
    case Direct(_, _, _) => true
    case Proxy(_, loop, mappings, _) => !loop || mappings == []
  }

  /** The change adds the name `x` to the targets of the key `k`. */
  ghost predicate Targets(c: Change, k: string, x: string) {
    c.Proxy? && x in c.names && HasKey(c.mappings, k)
  }

  /** The change binds the port `p` of the node `n` as in `b`. */
  ghost predicate Binds(c: Change, lb: Node, n: Node, p: Port, b: PortBinding) {
    match c
    case Refused => false
    case Direct(node, mappings, _) => n == node && PortMapping(p, b) in mappings
    case Proxy(_, _, mappings, _) => n == lb && PortMapping(p, b) in mappings
  }

  lemma AddedTargetMembers(targets: Table<string>, key: string, names: seq<string>, k: string, x: string)
    requires NoEmpty(targets) && names != []
    ensures NoEmpty(ChangedTarget(targets, key, names, false))
    ensures x in Get(ChangedTarget(targets, key, names, false), k) <==> x in Get(targets, k) || (x in names && k == key)
  {
    hide AddNames;
    if key in targets {
      AddNamesUnion(targets[key], names);
    }
  }

  lemma {:induction false} AddedTargetsMembers(targets: Table<string>, mappings: seq<PortMapping>, names: seq<string>,
                                               k: string, x: string)
    requires NoEmpty(targets) && names != []
    ensures NoEmpty(ChangedTargets(targets, mappings, names, false))
    ensures x in Get(ChangedTargets(targets, mappings, names, false), k) <==>
            x in Get(targets, k) || (x in names && HasKey(mappings, k))
  {
    hide ConfigKey, ChangedTarget, NoEmpty, Get;
    if |mappings| > 0 {
      var front, last := mappings[..|mappings| - 1], mappings[|mappings| - 1];
      assert mappings == front + [last];
      assert HasKey(mappings, k) <==> HasKey(front, k) || ConfigKey(last.port) == k by { assert last in mappings; }
      AddedTargetsMembers(targets, front, names, k, x);
      AddedTargetMembers(ChangedTargets(targets, front, names, false), ConfigKey(last.port), names, k, x);
    }
  }

  lemma AddedPortsMembers(ports: PortMap, mappings: seq<PortMapping>, p: Port, b: PortBinding)
    ensures b in Get(ChangedPorts(ports, mappings, false), p) <==>
            b in Get(ports, p) || PortMapping(p, b) in mappings
  {
    hide AddEntries, Select, Entries;
    AddEntriesAt(ports, Entries(mappings), p);
    SelectMembers(Entries(mappings), p, b);
    EntriesMembers(mappings, p, b);
  }

  /** Which names serve a key after one accepted addition. */
  lemma ApplyTargets(s: State, lb: Node, c: Change, k: string, x: string)
    requires NoEmpty(s.targets) && IsAddition(c)
    ensures Apply(s, lb, c).ok <==> Acceptable(c)
    ensures NoEmpty(Apply(s, lb, c).state.targets)
    ensures Acceptable(c) ==>
              (x in Get(Apply(s, lb, c).state.targets, k) <==> x in Get(s.targets, k) || Targets(c, k, x))
  {
    hide ChangedTargets, ChangedPorts, HasKey, NoEmpty, Get;
    if c.Proxy? {
      AddedTargetsMembers(s.targets, c.mappings, c.names, k, x);
    }
  }

  lemma ApplyBindings(s: State, lb: Node, c: Change, n: Node, p: Port, b: PortBinding)
    requires IsAddition(c) && Acceptable(c)
    ensures b in Get(Bound(Apply(s, lb, c).state.bindings, n), p) <==>
            b in Get(Bound(s.bindings, n), p) || Binds(c, lb, n, p, b)
  {
    hide ChangedTargets, ChangedPorts, Loops, Get;
    AddedPortsMembers(Bound(s.bindings, if c.Proxy? then lb else c.node), c.mappings, p, b);
  }

  /**
   A run of additions succeeds if and only if every one of them is acceptable on its own, and then
   the names that serve a key are the old ones and those of the additions.
   */
  lemma {:induction false} AdditionTargets(s: State, lb: Node, cs: seq<Change>, k: string, x: string)
    requires NoEmpty(s.targets)
    requires forall c | c in cs :: IsAddition(c)
    ensures Run(s, lb, cs).ok <==> forall c | c in cs :: Acceptable(c)
    ensures NoEmpty(Run(s, lb, cs).state.targets)
    ensures Run(s, lb, cs).ok ==>
              (x in Get(Run(s, lb, cs).state.targets, k) <==>
               x in Get(s.targets, k) || exists c | c in cs :: Targets(c, k, x))
  {
    hide Apply, Acceptable, IsAddition, Targets, NoEmpty, Get;
    if |cs| > 0 {
      var front, last := cs[..|cs| - 1], cs[|cs| - 1];
      assert cs == front + [last];
      AdditionTargets(s, lb, front, k, x);
      assert (forall c | c in cs :: Acceptable(c)) <==> (forall c | c in front :: Acceptable(c)) && Acceptable(last);
      if Run(s, lb, front).ok {
        ApplyTargets(Run(s, lb, front).state, lb, last, k, x);
      }
    }
  }

  /** The bindings of a port after a successful run of additions: the old ones and the added ones. */
  lemma {:induction false} AdditionBindings(s: State, lb: Node, cs: seq<Change>, n: Node, p: Port, b: PortBinding)
    requires NoEmpty(s.targets)
    requires forall c | c in cs :: IsAddition(c)
    requires Run(s, lb, cs).ok
    ensures b in Get(Bound(Run(s, lb, cs).state.bindings, n), p) <==>
            b in Get(Bound(s.bindings, n), p) || exists c | c in cs :: Binds(c, lb, n, p, b)
  {
    hide Apply, Acceptable, IsAddition, Binds, NoEmpty, Get, Bound;
    if |cs| > 0 {
      var front, last := cs[..|cs| - 1], cs[|cs| - 1];
      assert cs == front + [last];
      AdditionBindings(s, lb, front, n, p, b);
      AdditionTargets(s, lb, front, "", "");
      ApplyTargets(Run(s, lb, front).state, lb, last, "", "");
      ApplyBindings(Run(s, lb, front).state, lb, last, n, p, b);
    }
  }

  /** The same sets of values under every key. */
  ghost predicate SameSets<T(!new)>(a: Table<T>, b: Table<T>) {
    forall k, x :: x in Get(a, k) <==> x in Get(b, k)
  }

  /**
   The order of additions does not matter: two runs made of the same additions both succeed or
   both fail, and when they succeed the targets and all bindings agree as sets.
   */
  lemma AdditionsInAnyOrder(s: State, lb: Node, cs: seq<Change>, ds: seq<Change>)
    requires NoEmpty(s.targets)
    requires forall c | c in cs :: IsAddition(c)
    requires forall c :: c in cs <==> c in ds
    ensures Run(s, lb, cs).ok == Run(s, lb, ds).ok
    ensures Run(s, lb, cs).ok ==>
              && SameSets(Run(s, lb, cs).state.targets, Run(s, lb, ds).state.targets)
              && forall n :: SameSets(Bound(Run(s, lb, cs).state.bindings, n), Bound(Run(s, lb, ds).state.bindings, n))
  {
    hide Run, Get, Bound, NoEmpty, Targets, Binds, IsAddition, Acceptable;
    AdditionTargets(s, lb, cs, "", "");
    AdditionTargets(s, lb, ds, "", "");
    if Run(s, lb, cs).ok {
      forall k, x ensures x in Get(Run(s, lb, cs).state.targets, k) <==> x in Get(Run(s, lb, ds).state.targets, k) {
        AdditionTargets(s, lb, cs, k, x);
        AdditionTargets(s, lb, ds, k, x);
      }
      forall n, p, b ensures b in Get(Bound(Run(s, lb, cs).state.bindings, n), p) <==>
                             b in Get(Bound(Run(s, lb, ds).state.bindings, n), p)
      {
        AdditionBindings(s, lb, cs, n, p, b);
        AdditionBindings(s, lb, ds, n, p, b);
      }
    }
  }

  // ---------- every bound port has targets ----------

  /** Every port bound on the load balancer has an entry in its configuration. */
  ghost predicate Covered(s: State, lb: Node) {
    forall p | p in Bound(s.bindings, lb) :: ConfigKey(p) in s.targets
  }

  lemma {:induction false} AddedTargetsKeys(targets: Table<string>, mappings: seq<PortMapping>, names: seq<string>,
                                            k: string)
    ensures k in ChangedTargets(targets, mappings, names, false) <==> k in targets || HasKey(mappings, k)
  {
    hide ConfigKey;
    if |mappings| > 0 {
      var front, last := mappings[..|mappings| - 1], mappings[|mappings| - 1];
      assert mappings == front + [last];
      assert HasKey(mappings, k) <==> HasKey(front, k) || ConfigKey(last.port) == k by { assert last in mappings; }
      AddedTargetsKeys(targets, front, names, k);
    }
  }

  lemma AddedPortsKeys(ports: PortMap, mappings: seq<PortMapping>, p: Port)
    ensures p in ChangedPorts(ports, mappings, false) ==> p in ports || exists b :: PortMapping(p, b) in mappings
  {
    hide AddEntries, Select, Entries;
    var es := Entries(mappings);
    AddEntriesAt(ports, es, p);
    if Select(es, p) != [] {
      var b := Select(es, p)[0];
      SelectMembers(es, p, b);
      EntriesMembers(mappings, p, b);
    }
  }

  lemma ApplyCovered(s: State, lb: Node, c: Change)
    requires Covered(s, lb) && IsAddition(c) && Apply(s, lb, c).ok
    requires c.Direct? ==> c.node != lb
    ensures Covered(Apply(s, lb, c).state, lb)
  {
    hide ChangedTargets, ChangedPorts, ConfigKey;
    if c.Proxy? {
      var s' := Apply(s, lb, c).state;
      forall p | p in Bound(s'.bindings, lb) ensures ConfigKey(p) in s'.targets {
        AddedPortsKeys(Bound(s.bindings, lb), c.mappings, p);
        AddedTargetsKeys(s.targets, c.mappings, c.names, ConfigKey(p));
        if p !in Bound(s.bindings, lb) {
          var b :| PortMapping(p, b) in c.mappings;
          assert PortMapping(p, b).port == p;
        }
      }
    }
  }

  /**
   Over a successful run of additions, none of them a direct one on the load balancer itself,
   every port bound on the load balancer keeps an entry in its configuration.
   */
  lemma {:induction false} AdditionsCovered(s: State, lb: Node, cs: seq<Change>)
    requires Covered(s, lb)
    requires forall c | c in cs :: IsAddition(c) && (c.Direct? ==> c.node != lb)
    requires Run(s, lb, cs).ok
    ensures Covered(Run(s, lb, cs).state, lb)
  {
    hide Apply, Covered, IsAddition;
    if |cs| > 0 {
      AdditionsCovered(s, lb, cs[..|cs| - 1]);
      ApplyCovered(Run(s, lb, cs[..|cs| - 1]).state, lb, cs[|cs| - 1]);
    }
  }

  // ---------- removals ----------

  /** All elements of a list are removed exactly if it has no more of them than the removal. */
  lemma RemovesAll<T>(xs: seq<T>, ys: seq<T>)
    ensures RemoveAll(xs, ys) == [] <==> multiset(xs) <= multiset(ys)
  {
    RemoveAllMultiset(xs, ys);
    if RemoveAll(xs, ys) == [] {
      assert multiset(xs) - multiset(ys) == multiset{};
      forall x ensures multiset(xs)[x] <= multiset(ys)[x] {
        assert (multiset(xs) - multiset(ys))[x] == 0;
      }
    } else {
      var x := RemoveAll(xs, ys)[0];
      assert x in multiset(RemoveAll(xs, ys));
      assert multiset(xs)[x] > multiset(ys)[x];
    }
  }

  /** What a removal leaves of the entry of a port. */
  lemma EntryLeft(targets: Table<string>, mappings: seq<PortMapping>, names: seq<string>, k: string)
    requires names != [] && DistinctKeys(mappings) && HasKey(mappings, k)
    ensures var t := ChangedTargets(targets, mappings, names, true);
            && Get(t, k) == RemoveAll(Get(targets, k), names)
            && (k in t <==> !(multiset(Get(targets, k)) <= multiset(names)))
  {
    hide ConfigKey, DistinctKeys, RemoveAll, ChangedTarget, ChangedTargets, HasKey;
    ChangedTargetsAt(targets, mappings, names, true, k);
    RemovedTargetHas(targets, k, names);
    RemovedTargetAt(targets, k, names, k);
    RemovesAll(Get(targets, k), names);
  }

  /** The ports have entries now, and removing the names takes the last one out of every entry. */
  ghost predicate Empties(targets: Table<string>, mappings: seq<PortMapping>, names: seq<string>) {
    && (exists m | m in mappings :: ConfigKey(m.port) in targets)
    && (forall m | m in mappings :: multiset(Get(targets, ConfigKey(m.port))) <= multiset(names))
  }

  /**
   Removing one set of mappings from two selections: the order decides about success exactly if
   one of them, and only one, has the load balancer in it, the ports have entries now, and the
   other selection takes the last name out of every one of them.
   */
  lemma RemovalOrderMatters(s: State, lb: Node, a: Change, b: Change, mappings: seq<PortMapping>)
    requires a.Proxy? && a.removal && a.names != [] && a.mappings == mappings
    requires b.Proxy? && b.removal && b.names != [] && b.mappings == mappings
    requires DistinctKeys(mappings)
    ensures Run(s, lb, [a, b]).ok != Run(s, lb, [b, a]).ok <==>
              a.loop != b.loop && Empties(s.targets, mappings, if a.loop then b.names else a.names)
  {
    hide Run, ConfigKey, DistinctKeys;
    TwoChanges(s, lb, a, b);
    TwoChanges(s, lb, b, a);
    if Apply(s, lb, a).ok {
      SecondRemoval(s, lb, a, b, mappings);
    }
    if Apply(s, lb, b).ok {
      SecondRemoval(s, lb, b, a, mappings);
    }
  }

  /** When the second of two removals succeeds. */
  lemma SecondRemoval(s: State, lb: Node, a: Change, b: Change, mappings: seq<PortMapping>)
    requires a.Proxy? && a.removal && a.names != [] && a.mappings == mappings
    requires b.Proxy? && b.removal && b.names != [] && b.mappings == mappings
    requires DistinctKeys(mappings) && Apply(s, lb, a).ok
    ensures Apply(Apply(s, lb, a).state, lb, b).ok <==>
              !b.loop || forall m | m in mappings :: multiset(Get(s.targets, ConfigKey(m.port))) <= multiset(a.names)
  {
    hide ConfigKey, DistinctKeys, ChangedTargets, ChangedPorts;
    var t := Apply(s, lb, a).state.targets;
    forall m | m in mappings
      ensures ConfigKey(m.port) in t <==> !(multiset(Get(s.targets, ConfigKey(m.port))) <= multiset(a.names))
    {
      assert HasKey(mappings, ConfigKey(m.port));
      EntryLeft(s.targets, mappings, a.names, ConfigKey(m.port));
    }
  }

  // ---------- coverage after a removal ----------

  /** The mappings take the last binding of the port. */
  ghost predicate Unbinds(ports: PortMap, mappings: seq<PortMapping>, p: Port) {
    var bindings := Select(Entries(mappings), p);
    bindings != [] && multiset(Get(ports, p)) <= multiset(bindings)
  }

  lemma BoundAfter(ports: PortMap, mappings: seq<PortMapping>, p: Port)
    ensures p in ChangedPorts(ports, mappings, true) <==> p in ports && !Unbinds(ports, mappings, p)
  {
    hide RemoveEntries, RemoveAll, Select, Entries;
    var bindings := Select(Entries(mappings), p);
    RemoveEntriesAt(ports, Entries(mappings), p);
    RemovesAll(Get(ports, p), bindings);
  }

  /**
   After a removal through the load balancer all its bound ports still have entries if and only if
   the removal takes the last name out of no entry whose port it leaves bound.
   */
  lemma RemovalCoverage(s: State, lb: Node, c: Change)
    requires c.Proxy? && c.removal && c.names != [] && DistinctKeys(c.mappings)
    requires Covered(s, lb) && Apply(s, lb, c).ok
    ensures var ports := Bound(s.bindings, lb);
            Covered(Apply(s, lb, c).state, lb) <==>
            forall p | p in ports && HasKey(c.mappings, ConfigKey(p)) && !Unbinds(ports, c.mappings, p) ::
              !(multiset(Get(s.targets, ConfigKey(p))) <= multiset(c.names))
  {
    hide ConfigKey, DistinctKeys, ChangedTargets, ChangedPorts, HasKey, Unbinds;
    var ports, s' := Bound(s.bindings, lb), Apply(s, lb, c).state;
    forall p
      ensures p in Bound(s'.bindings, lb) <==> p in ports && !Unbinds(ports, c.mappings, p)
      ensures HasKey(c.mappings, ConfigKey(p)) ==>
                (ConfigKey(p) in s'.targets <==> !(multiset(Get(s.targets, ConfigKey(p))) <= multiset(c.names)))
      ensures !HasKey(c.mappings, ConfigKey(p)) ==> (ConfigKey(p) in s'.targets <==> ConfigKey(p) in s.targets)
    {
      BoundAfter(ports, c.mappings, p);
      if HasKey(c.mappings, ConfigKey(p)) {
        EntryLeft(s.targets, c.mappings, c.names, ConfigKey(p));
      } else {
        ChangedTargetsAt(s.targets, c.mappings, c.names, true, ConfigKey(p));
      }
    }
  }

  const PORT_80: Port := "80/tcp"
  const TO_8080 := PortMapping(PORT_80, PortBinding("", "8080"))
  const BOUND_TWICE: PortMap := map[PORT_80 := [PortBinding("", "8080"), PortBinding("", "8081")]]

  lemma StillBound()
    ensures !Unbinds(BOUND_TWICE, [TO_8080], PORT_80)
  {
    assert [TO_8080][..0] == [];
    assert Entries([TO_8080]) == [Entry(PORT_80, TO_8080.binding)];
    assert [Entry(PORT_80, TO_8080.binding)][..0] == [];
    assert Select(Entries([TO_8080]), PORT_80) == [TO_8080.binding];
    assert "8080"[3] != "8081"[3];
    assert multiset(Get(BOUND_TWICE, PORT_80))[PortBinding("", "8081")] == 1;
  }

  /** One of two bindings of a port is removed, and with it the only target: the other binding leads nowhere. */
  lemma RemovalCoverageExample(lb: Node, s: State, c: Change)
    requires s == State(map[lb := BOUND_TWICE], map["80.tcp" := ["k3d-c-server-0"]])
    requires c == Proxy(["k3d-c-server-0"], false, [TO_8080], true)
    ensures Covered(s, lb) && Apply(s, lb, c).ok && !Covered(Apply(s, lb, c).state, lb)
  {
    ExampleKey();
    OneMapping(TO_8080);
    StillBound();
    hide ConfigKey, ChangedTargets, ChangedPorts, DistinctKeys, Unbinds;
    assert TO_8080 in c.mappings && HasKey(c.mappings, ConfigKey(PORT_80));
    assert PORT_80 in Bound(s.bindings, lb);
    RemovalCoverage(s, lb, c);
  }

  // ---------- the result of removals ----------

  lemma {:induction false} RemoveFirstCommutes<T>(xs: seq<T>, a: T, b: T)
    ensures RemoveFirst(RemoveFirst(xs, a), b) == RemoveFirst(RemoveFirst(xs, b), a)
  {
    if |xs| > 0 && xs[0] != a && xs[0] != b {
      RemoveFirstCommutes(xs[1..], a, b);
    }
  }

  lemma {:induction false} RemoveFirstLast<T>(xs: seq<T>, ys: seq<T>, a: T)
    ensures RemoveAll(RemoveFirst(xs, a), ys) == RemoveFirst(RemoveAll(xs, ys), a)
  {
    hide RemoveFirst;
    if |ys| > 0 {
      RemoveFirstLast(xs, ys[..|ys| - 1], a);
      RemoveFirstCommutes(RemoveAll(xs, ys[..|ys| - 1]), a, ys[|ys| - 1]);
    }
  }

  lemma {:induction false} RemoveAllCommutes<T>(xs: seq<T>, ys: seq<T>, zs: seq<T>)
    ensures RemoveAll(RemoveAll(xs, ys), zs) == RemoveAll(RemoveAll(xs, zs), ys)
  {
    hide RemoveFirst;
    if |ys| > 0 {
      var front, last := ys[..|ys| - 1], ys[|ys| - 1];
      RemoveAllCommutes(xs, front, zs);
      RemoveFirstLast(RemoveAll(xs, front), zs, last);
    }
  }

  /** Names of two selections removed from the entries, in either order: the same entries are left. */
  lemma TargetRemovalsCommute(targets: Table<string>, mappings: seq<PortMapping>, a: seq<string>, b: seq<string>)
    requires a != [] && b != [] && DistinctKeys(mappings)
    ensures ChangedTargets(ChangedTargets(targets, mappings, a, true), mappings, b, true) ==
            ChangedTargets(ChangedTargets(targets, mappings, b, true), mappings, a, true)
  {
    hide ChangedTargets, DistinctKeys, HasKey;
    var ab := ChangedTargets(ChangedTargets(targets, mappings, a, true), mappings, b, true);
    var ba := ChangedTargets(ChangedTargets(targets, mappings, b, true), mappings, a, true);
    forall k ensures Agree(ab, ba, k) {
      RemovalsCommuteAt(targets, mappings, a, b, k);
    }
    forall k ensures k in ab <==> k in ba
             ensures k in ab ==> ab[k] == ba[k]
    {
      assert Agree(ab, ba, k);
    }
    assert ab == ba;
  }

  lemma RemovalsCommuteAt(targets: Table<string>, mappings: seq<PortMapping>, a: seq<string>, b: seq<string>, k: string)
    requires a != [] && b != [] && DistinctKeys(mappings)
    ensures Agree(ChangedTargets(ChangedTargets(targets, mappings, a, true), mappings, b, true),
                  ChangedTargets(ChangedTargets(targets, mappings, b, true), mappings, a, true), k)
  {
    hide ChangedTargets, ChangedTarget, DistinctKeys, HasKey, RemoveAll;
    var ta, tb := ChangedTargets(targets, mappings, a, true), ChangedTargets(targets, mappings, b, true);
    var ab, ba := ChangedTargets(ta, mappings, b, true), ChangedTargets(tb, mappings, a, true);
    if HasKey(mappings, k) {
      EntryLeft(targets, mappings, a, k);
      EntryLeft(targets, mappings, b, k);
      EntryLeft(ta, mappings, b, k);
      EntryLeft(tb, mappings, a, k);
      RemoveAllCommutes(Get(targets, k), a, b);
      RemovesAll(Get(ta, k), b);
      RemovesAll(Get(tb, k), a);
    } else {
      ChangedTargetsAt(targets, mappings, a, true, k);
      ChangedTargetsAt(targets, mappings, b, true, k);
      ChangedTargetsAt(ta, mappings, b, true, k);
      ChangedTargetsAt(tb, mappings, a, true, k);
    }
  }

  /** Two removals of the same mappings that succeed in both orders have the same result. */
  lemma RemovalsCommute(s: State, lb: Node, a: Change, b: Change, mappings: seq<PortMapping>)
    requires a.Proxy? && a.removal && a.names != [] && a.mappings == mappings
    requires b.Proxy? && b.removal && b.names != [] && b.mappings == mappings
    requires DistinctKeys(mappings)
    requires Run(s, lb, [a, b]).ok && Run(s, lb, [b, a]).ok
    ensures Run(s, lb, [a, b]) == Run(s, lb, [b, a])
  {
    hide Run, ConfigKey, DistinctKeys, ChangedTargets, ChangedPorts, Loops;
    TwoChanges(s, lb, a, b);
    TwoChanges(s, lb, b, a);
    TargetRemovalsCommute(s.targets, mappings, a.names, b.names);
  }

  // ---------- an example ----------

  lemma OneMapping(pm: PortMapping)
    ensures DistinctKeys([pm])
  {}

  lemma ExampleKey()
    ensures ConfigKey("80/tcp") == "80.tcp"
  {
    hide Split, Join;
    CutAtSlash("80", "tcp");
    assert "80/tcp" == "80" + "/" + "tcp";
  }

  /** The configuration key of a port written as number and protocol. */
  lemma CutAtSlash(number: string, proto: string)
    requires '/' !in number && '/' !in proto && proto != ""
    ensures ConfigKey(number + "/" + proto) == number + "." + proto
  {
    SplitJoin([number, proto], '/');
    assert [number, proto][1..] == [proto];
    assert Join([number, proto], '/') == number + "/" + proto;
  }
}
