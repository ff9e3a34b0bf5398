/**
 Port mappings of a cluster and the targets of its load balancer, as a state changed step by
 step.  A proxy change binds ports on the load balancer and lists the names of the nodes that
 serve them; a direct change binds ports on one node.
 */
module PortChanges {
  import opened Strings
  import opened Tables
  import opened Types

  /** `bindings` holds the port bindings of every node, `targets` the load-balancer configuration. */
  datatype State = State(bindings: map<Node, PortMap>, targets: Table<string>)

  datatype Change =
    | Proxy(names: seq<string>, loop: bool, mappings: seq<PortMapping>, removal: bool)
    | Direct(node: Node, mappings: seq<PortMapping>, removal: bool)
    | Refused

  datatype Result = Result(state: State, ok: bool)

  // ---------- keys of the configuration ----------

  const DEFAULT_PROTO := "tcp"

  /** The part of a port before the first '/'. */
  function Number(p: Port): string { Split(p, '/')[0] }

  /** The part after the first '/', or the default protocol when there is none. */
  function Proto(p: Port): string {
    var pieces := Split(p, '/');
    var proto := Join(pieces[1..], '/');
    if proto == "" then DEFAULT_PROTO else proto
  }

  function ConfigKey(p: Port): string { Number(p) + "." + Proto(p) }

  /** The key of a port: its number, a dot, and its protocol, which is tcp if none is given. */
  lemma ConfigKeyMeaning(number: string, proto: string)
    requires '/' !in number
    ensures ConfigKey(number) == number + ".tcp"
    ensures proto != "" ==> ConfigKey(number + "/" + proto) == number + "." + proto
  {
    SplitNone(number, '/');
    SplitCons(number, proto, '/');
    assert ([number] + Split(proto, '/'))[1..] == Split(proto, '/');
  }

  // ---------- bindings ----------

  function Entries(mappings: seq<PortMapping>): (es: seq<Entry<PortBinding>>)
    ensures |es| == |mappings|
  {
    if |mappings| == 0 then []
    else
      var last := mappings[|mappings| - 1];
      Entries(mappings[..|mappings| - 1]) + [Entry(last.port, last.binding)]
  }

  lemma {:induction false} EntriesMembers(mappings: seq<PortMapping>, p: Port, b: PortBinding)
    ensures Entry(p, b) in Entries(mappings) <==> PortMapping(p, b) in mappings
  {
    if |mappings| > 0 {
      var front, last := mappings[..|mappings| - 1], mappings[|mappings| - 1];
      EntriesMembers(front, p, b);
      assert mappings == front + [last];
    }
  }

  function Bound(bindings: map<Node, PortMap>, node: Node): PortMap {
    if node in bindings then bindings[node] else map[]
  }

  function ChangedPorts(ports: PortMap, mappings: seq<PortMapping>, removal: bool): PortMap {
    if removal then RemoveEntries(ports, Entries(mappings)) else AddEntries(ports, Entries(mappings))
  }

  // ---------- load-balancer targets ----------

  /** How many entries of `xs` stand before the first `name`. */
  function Before(xs: seq<string>, name: string): (n: nat)
    ensures n <= |xs|
    ensures name !in xs[..n]
    ensures n < |xs| ==> xs[n] == name
  {
    if |xs| == 0 || xs[0] == name then 0
    else
      var n := 1 + Before(xs[1..], name);
      assert xs[..n] == [xs[0]] + xs[1..][..n - 1];
      n
  }

  lemma BeforeIs(xs: seq<string>, name: string, j: nat)
    requires j <= |xs| && name !in xs[..j] && (j < |xs| ==> xs[j] == name)
    ensures Before(xs, name) == j
  {}

  function Repeat(name: string, n: nat): (r: seq<string>)
    ensures |r| == n
    ensures forall x | x in r :: x == name
  {
    if n == 0 then [] else Repeat(name, n - 1) + [name]
  }

  /** The name is appended once for every entry that stands before its first occurrence. */
  function AddName(xs: seq<string>, name: string): seq<string> {
    xs + Repeat(name, Before(xs, name))
  }

  function AddNames(xs: seq<string>, names: seq<string>): seq<string> {
    if |names| == 0 then xs else AddName(AddNames(xs, names[..|names| - 1]), names[|names| - 1])
  }

  /** A non-empty list of targets stays as a prefix, and the names in it become the union. */
  lemma {:induction false} AddNamesUnion(xs: seq<string>, names: seq<string>)
    requires xs != []
    ensures xs <= AddNames(xs, names)
    ensures forall x :: x in AddNames(xs, names) <==> x in xs || x in names
  {
    if |names| > 0 {
      var front, last := names[..|names| - 1], names[|names| - 1];
      assert names == front + [last];
      AddNamesUnion(xs, front);
      var ys := AddNames(xs, front);
      assert ys[0] == xs[0];
      var n := Before(ys, last);
      if n == 0 {
        assert last in ys;
        assert AddName(ys, last) == ys;
      } else {
        assert last in Repeat(last, n) by {
          assert Repeat(last, n)[0] in Repeat(last, n);
        }
      }
    }
  }

  /** An empty list of targets stays empty, whatever is added to it. */
  lemma {:induction false} AddNamesToEmpty(names: seq<string>)
    ensures AddNames([], names) == []
  {
    if |names| > 0 {
      AddNamesToEmpty(names[..|names| - 1]);
    }
  }

  function Under(key: string, names: seq<string>): (es: seq<Entry<string>>)
    ensures |es| == |names|
  {
    if |names| == 0 then [] else Under(key, names[..|names| - 1]) + [Entry(key, names[|names| - 1])]
  }

  function ChangedTarget(targets: Table<string>, key: string, names: seq<string>, removal: bool): Table<string> {
    if removal then RemoveEntries(targets, Under(key, names))
    else if key !in targets then targets[key := names]
    else targets[key := AddNames(targets[key], names)]
  }

  function ChangedTargets(targets: Table<string>, mappings: seq<PortMapping>, names: seq<string>,
                          removal: bool): Table<string>
  {
    if |mappings| == 0 then targets
    else
      var before := ChangedTargets(targets, mappings[..|mappings| - 1], names, removal);
      ChangedTarget(before, ConfigKey(mappings[|mappings| - 1].port), names, removal)
  }

  ghost predicate HasKey(mappings: seq<PortMapping>, key: string) {
    exists m | m in mappings :: ConfigKey(m.port) == key
  }

  // ---------- one change and a run of changes ----------

  /**
   A load balancer among its own targets is refused, but a removal looks at the targets only
   when one of the ports has an entry.
   */
  ghost predicate Loops(targets: Table<string>, c: Change)
    requires c.Proxy?
  {
    && c.loop && c.mappings != []
    && (c.removal ==> exists m | m in c.mappings :: ConfigKey(m.port) in targets)
  }

  /** Proxy changes need a load balancer; its bindings are changed before the targets are checked. */
  ghost function Apply(s: State, lb: Node?, c: Change): Result {
    match c
    case Refused => Result(s, false)
    case Direct(node, mappings, removal) =>
      Result(State(s.bindings[node := ChangedPorts(Bound(s.bindings, node), mappings, removal)], s.targets), true)
    case Proxy(names, _, mappings, removal) =>
      if lb == null then Result(s, false)
      else
        var bindings := s.bindings[lb := ChangedPorts(Bound(s.bindings, lb), mappings, removal)];
        if Loops(s.targets, c) then Result(State(bindings, s.targets), false)
        else Result(State(bindings, ChangedTargets(s.targets, mappings, names, removal)), true)
  }

  /** The changes one after another, up to the first that is refused. */
  ghost function Run(s: State, lb: Node?, cs: seq<Change>): Result {
    if |cs| == 0 then Result(s, true)
    else
      var r := Run(s, lb, cs[..|cs| - 1]);
      if r.ok then Apply(r.state, lb, cs[|cs| - 1]) else r
  }

  // ---------- invariants of every run ----------

  /** No list is empty, and every target is the name of a node that can serve. */
  ghost predicate Sound(s: State, backends: set<string>) {
    && (forall n | n in s.bindings :: NoEmpty(s.bindings[n]))
    && NoEmpty(s.targets)
    && Backed(s.targets, backends)
  }

  ghost predicate Backed(targets: Table<string>, backends: set<string>) {
    forall k | k in targets :: forall x | x in targets[k] :: x in backends
  }

  /** A change comes from a non-empty selection; without the load balancer in it, all its names serve. */
  ghost predicate WellFormed(c: Change, backends: set<string>) {
    c.Proxy? ==> c.names != [] && (!c.loop ==> forall x | x in c.names :: x in backends)
  }

  lemma {:induction false} UnderSelect(key: string, names: seq<string>, k: string)
    ensures Select(Under(key, names), k) == if k == key then names else []
  {
    if |names| > 0 {
      UnderSelect(key, names[..|names| - 1], k);
    }
  }

  /** Removing names from the entry of a key leaves a part of that entry and all other entries. */
  lemma RemovedTargetAt(targets: Table<string>, key: string, names: seq<string>, k: string)
    ensures var t := ChangedTarget(targets, key, names, true);
            && Get(t, k) == (if k == key then RemoveAll(Get(targets, k), names) else Get(targets, k))
            && (k in t ==> k in targets)
            && (k != key ==> (k in t <==> k in targets))
  {
    hide RemoveEntries, RemoveAll, Under, Select;
    RemoveEntriesAt(targets, Under(key, names), k);
    UnderSelect(key, names, k);
    RemoveNone(Get(targets, k));
  }

  lemma RemoveNone(xs: seq<string>)
    ensures RemoveAll(xs, []) == xs
  {}

  lemma RemovedFrom(xs: seq<string>, names: seq<string>)
    ensures forall x | x in RemoveAll(xs, names) :: x in xs
  {
    RemoveAllMultiset(xs, names);
    forall x | x in RemoveAll(xs, names) ensures x in xs {
      assert x in multiset(RemoveAll(xs, names));
    }
  }

  lemma ChangedTargetSound(targets: Table<string>, key: string, names: seq<string>, removal: bool,
                           backends: set<string>)
    requires NoEmpty(targets) && Backed(targets, backends)
    requires names != [] && (removal || forall x | x in names :: x in backends)
    ensures NoEmpty(ChangedTarget(targets, key, names, removal))
    ensures Backed(ChangedTarget(targets, key, names, removal), backends)
  {
    hide RemoveEntries, RemoveAll, Under, AddNames;
    var t := ChangedTarget(targets, key, names, removal);
    if removal {
      RemoveKeepsNoEmpty(targets, Under(key, names));
      forall k | k in t ensures forall x | x in t[k] :: x in backends {
        RemovedTargetAt(targets, key, names, k);
        RemovedFrom(Get(targets, k), names);
      }
    } else if key in targets {
      AddNamesUnion(targets[key], names);
    }
  }

  lemma {:induction false} ChangedTargetsSound(targets: Table<string>, mappings: seq<PortMapping>, names: seq<string>,
                                               removal: bool, backends: set<string>)
    requires NoEmpty(targets) && Backed(targets, backends)
    requires names != [] && (removal || forall x | x in names :: x in backends)
    ensures NoEmpty(ChangedTargets(targets, mappings, names, removal))
    ensures Backed(ChangedTargets(targets, mappings, names, removal), backends)
  {
    hide ChangedTarget, NoEmpty, Backed, ConfigKey;
    if |mappings| > 0 {
      var front := mappings[..|mappings| - 1];
      ChangedTargetsSound(targets, front, names, removal, backends);
      ChangedTargetSound(ChangedTargets(targets, front, names, removal),
                         ConfigKey(mappings[|mappings| - 1].port), names, removal, backends);
    }
  }

  lemma ChangedPortsSound(ports: PortMap, mappings: seq<PortMapping>, removal: bool)
    requires NoEmpty(ports)
    ensures NoEmpty(ChangedPorts(ports, mappings, removal))
  {
    if removal {
      RemoveKeepsNoEmpty(ports, Entries(mappings));
    } else {
      AddKeepsNoEmpty(ports, Entries(mappings));
    }
  }

  lemma {:induction false} ChangedTargetsUntouched(targets: Table<string>, mappings: seq<PortMapping>,
                                                   names: seq<string>)
    requires forall m | m in mappings :: ConfigKey(m.port) !in targets
    ensures ChangedTargets(targets, mappings, names, true) == targets
  {
    hide RemoveEntries, Under, ConfigKey;
    if |mappings| > 0 {
      var front, last := mappings[..|mappings| - 1], mappings[|mappings| - 1];
      ChangedTargetsUntouched(targets, front, names);
      var key := ConfigKey(last.port);
      var t := ChangedTarget(targets, key, names, true);
      forall k ensures k in t <==> k in targets
               ensures k in targets ==> t[k] == targets[k]
      {
        assert last in mappings;
        RemovedTargetAt(targets, key, names, k);
      }
      assert t == targets;
    }
  }

  lemma ApplySound(s: State, lb: Node?, c: Change, backends: set<string>)
    requires Sound(s, backends) && WellFormed(c, backends)
    ensures Sound(Apply(s, lb, c).state, backends)
  {
    hide ChangedPorts, ChangedTargets, NoEmpty, Backed, ConfigKey;
    EmptyIsNoEmpty();
    match c {
      case Refused =>
      case Direct(node, mappings, removal) =>
        ChangedPortsSound(Bound(s.bindings, node), mappings, removal);
      case Proxy(names, loop, mappings, removal) =>
        if lb != null {
          ChangedPortsSound(Bound(s.bindings, lb), mappings, removal);
        }
        if lb != null && !Loops(s.targets, c) {
          if loop && !removal {
            NoMappings(s.targets, names, removal);
          } else {
            ChangedTargetsSound(s.targets, mappings, names, removal, backends);
          }
        }
    }
  }

  lemma NoMappings(targets: Table<string>, names: seq<string>, removal: bool)
    ensures ChangedTargets(targets, [], names, removal) == targets
  {}

  lemma EmptyIsNoEmpty()
    ensures NoEmpty<PortBinding>(map[])
  {}

  /** Whatever is added and removed, and wherever the run stops, the state stays sound. */
  lemma {:induction false} RunSound(s: State, lb: Node?, cs: seq<Change>, backends: set<string>)
    requires Sound(s, backends)
    requires forall c | c in cs :: WellFormed(c, backends)
    ensures Sound(Run(s, lb, cs).state, backends)
  {
    hide Sound, WellFormed, Apply;
    if |cs| > 0 {
      var front := cs[..|cs| - 1];
      RunSound(s, lb, front, backends);
      ApplySound(Run(s, lb, front).state, lb, cs[|cs| - 1], backends);
    }
  }
}
