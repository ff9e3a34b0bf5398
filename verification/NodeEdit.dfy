/**
 Editing the ports of a node: its container is replaced by one made from a changed copy.
 For the load balancer the configuration is generated anew from the ports of the copy.
 */
module NodeEdit {
  import opened NodeReplace
  import opened PortChanges
  import opened PortLaws
  import opened ReadyLog
  import opened Runtime
  import opened Tables
  import opened Types
  import opened Wrappers

  // ---------- equal bindings ----------

  /** Host addresses that count as the same one. */
  const EQUAL_HOST_IPS := {"", "127.0.0.1", "0.0.0.0", "localhost"}

  predicate IsPortBindingEqual(a: PortBinding, b: PortBinding) {
    a.hostPort == b.hostPort && a.hostIP in EQUAL_HOST_IPS && b.hostIP in EQUAL_HOST_IPS
  }

  /** A partial equivalence: a binding of a specific address is not even equal to itself. */
  lemma BindingEquality(a: PortBinding, b: PortBinding, c: PortBinding)
    ensures IsPortBindingEqual(a, b) ==> IsPortBindingEqual(b, a)
    ensures IsPortBindingEqual(a, b) && IsPortBindingEqual(b, c) ==> IsPortBindingEqual(a, c)
    ensures IsPortBindingEqual(a, a) <==> a.hostIP in EQUAL_HOST_IPS
  {}

  // ---------- edits of the bindings of one port ----------

  datatype Edit = Edit(binding: PortBinding, removal: bool)

  type Changeset = map<Port, seq<Edit>>

  /** The first index that holds a binding equal to `b`, or the length of the list. */
  function FirstEqual(xs: seq<PortBinding>, b: PortBinding): (i: nat)
    ensures i <= |xs|
    ensures forall j | 0 <= j < i :: !IsPortBindingEqual(b, xs[j])
    ensures i < |xs| ==> IsPortBindingEqual(b, xs[i])
  {
    if |xs| == 0 || IsPortBindingEqual(b, xs[0]) then 0 else 1 + FirstEqual(xs[1..], b)
  }

  function EditedList(xs: seq<PortBinding>, e: Edit): seq<PortBinding> {
    var i := FirstEqual(xs, e.binding);
    if i < |xs| then if e.removal then RemoveByIndex(xs, i) else xs
    else if e.removal then xs
    else xs + [e.binding]
  }

  /** One edit; a list that becomes empty by it loses its key. */
  function Edited(ports: PortMap, p: Port, e: Edit): PortMap {
    var xs := Get(ports, p);
    if EditedList(xs, e) == xs then ports else Put(ports, p, EditedList(xs, e))
  }

  function EditedAll(ports: PortMap, p: Port, es: seq<Edit>): PortMap {
    if |es| == 0 then ports else Edited(EditedAll(ports, p, es[..|es| - 1]), p, es[|es| - 1])
  }

  /** No two bindings of the list count as equal. */
  ghost predicate NoneEqual(xs: seq<PortBinding>) {
    forall i, j | 0 <= i < j < |xs| :: !IsPortBindingEqual(xs[i], xs[j])
  }

  lemma {:induction false} EditedAllLocal(ports: PortMap, p: Port, es: seq<Edit>, q: Port)
    requires q != p
    ensures Agree(EditedAll(ports, p, es), ports, q)
  {
    hide EditedList;
    if |es| > 0 {
      EditedAllLocal(ports, p, es[..|es| - 1], q);
    }
  }

  /** Edits of one port depend on its list only. */
  lemma {:induction false} EditedAllSame(a: PortMap, b: PortMap, p: Port, es: seq<Edit>)
    requires Agree(a, b, p)
    ensures Agree(EditedAll(a, p, es), EditedAll(b, p, es), p)
  {
    hide EditedList;
    if |es| > 0 {
      EditedAllSame(a, b, p, es[..|es| - 1]);
    }
  }

  /** Edits never bring in two equal bindings and never leave an empty list. */
  lemma {:induction false} EditsKeepDistinct(ports: PortMap, p: Port, es: seq<Edit>)
    requires NoEmpty(ports) && NoneEqual(Get(ports, p))
    ensures NoEmpty(EditedAll(ports, p, es)) && NoneEqual(Get(EditedAll(ports, p, es), p))
  {
    if |es| > 0 {
      EditsKeepDistinct(ports, p, es[..|es| - 1]);
      var before, e := EditedAll(ports, p, es[..|es| - 1]), es[|es| - 1];
      OneEditKeepsDistinct(Get(before, p), e);
    }
  }

  lemma OneEditKeepsDistinct(xs: seq<PortBinding>, e: Edit)
    requires NoneEqual(xs)
    ensures NoneEqual(EditedList(xs, e))
  {
    var i := FirstEqual(xs, e.binding);
    if i == |xs| && !e.removal {
      forall k | 0 <= k < |xs| ensures !IsPortBindingEqual(xs[k], e.binding) {
        BindingEquality(xs[k], e.binding, xs[k]);
      }
    }
  }

  /** Adding a binding a second time changes nothing exactly if its address is not a specific one. */
  lemma AddTwice(xs: seq<PortBinding>, b: PortBinding)
    ensures var once := EditedList(xs, Edit(b, false));
            EditedList(once, Edit(b, false)) == once <==> b.hostIP in EQUAL_HOST_IPS
  {
    var once := EditedList(xs, Edit(b, false));
    if b.hostIP in EQUAL_HOST_IPS {
      assert FirstEqual(xs, b) == |xs| ==> once[|xs|] == b;
    } else {
      assert FirstEqual(xs, b) == |xs| && FirstEqual(once, b) == |once|;
    }
  }

  lemma {:induction false} AppendedIsFirst(xs: seq<PortBinding>, b: PortBinding)
    requires FirstEqual(xs, b) == |xs| && IsPortBindingEqual(b, b)
    ensures FirstEqual(xs + [b], b) == |xs|
  {
    hide IsPortBindingEqual;
    if |xs| > 0 {
      assert (xs + [b])[1..] == xs[1..] + [b];
      AppendedIsFirst(xs[1..], b);
    }
  }

  /** A removal undoes an addition exactly if the address is not specific and the binding was not there. */
  lemma AddThenRemove(xs: seq<PortBinding>, b: PortBinding)
    ensures EditedList(EditedList(xs, Edit(b, false)), Edit(b, true)) == xs <==>
              b.hostIP in EQUAL_HOST_IPS && forall x | x in xs :: !IsPortBindingEqual(b, x)
  {
    var once := EditedList(xs, Edit(b, false));
    var i := FirstEqual(xs, b);
    if i < |xs| {
      assert once == xs && xs[i] in xs;
      assert |EditedList(once, Edit(b, true))| == |xs| - 1;
    } else if b.hostIP in EQUAL_HOST_IPS {
      AppendedIsFirst(xs, b);
      assert RemoveByIndex(once, |xs|) == xs;
    } else {
      assert FirstEqual(once, b) == |once|;
    }
  }

  // ---------- edits in terms of host addresses and host ports ----------

  /**
   One edit of a list.  The binding at `i` is the first that has the wanted host port while both addresses
   are among the four that stand for all; without such a binding `i` is the length of the list.  An addition
   appends the binding if there is none, a removal takes that one away, and nothing else moves.
   */
  lemma EditMeaning(xs: seq<PortBinding>, b: PortBinding, i: nat)
    requires i <= |xs|
    requires var any := ["", "127.0.0.1", "0.0.0.0", "localhost"];
             && (forall j | 0 <= j < i :: !(xs[j].hostPort == b.hostPort && xs[j].hostIP in any && b.hostIP in any))
             && (i < |xs| ==> xs[i].hostPort == b.hostPort && xs[i].hostIP in any && b.hostIP in any)
    ensures EditedList(xs, Edit(b, false)) == if i < |xs| then xs else xs + [b]
    ensures EditedList(xs, Edit(b, true)) == if i < |xs| then xs[..i] + xs[i + 1..] else xs
  {
    FirstEqualIs(xs, b, i);
  }

  lemma FirstEqualIs(xs: seq<PortBinding>, b: PortBinding, i: nat)
    requires i <= |xs| && forall j | 0 <= j < i :: !IsPortBindingEqual(b, xs[j])
    requires i < |xs| ==> IsPortBindingEqual(b, xs[i])
    ensures FirstEqual(xs, b) == i
  {}

  /** Bindings with a host port that no edit names stay as they are. */
  lemma {:induction false} OtherHostPorts(ports: PortMap, p: Port, es: seq<Edit>, x: PortBinding)
    requires forall e | e in es :: e.binding.hostPort != x.hostPort
    ensures multiset(Get(EditedAll(ports, p, es), p))[x] == multiset(Get(ports, p))[x]
  {
    hide EditedList, FirstEqual;
    if |es| > 0 {
      var front, last := es[..|es| - 1], es[|es| - 1];
      assert es == front + [last];
      OtherHostPorts(ports, p, front, x);
      OneEditElsewhere(Get(EditedAll(ports, p, front), p), last, x);
      EditedAt(EditedAll(ports, p, front), p, last);
    }
  }

  lemma EditedAt(ports: PortMap, p: Port, e: Edit)
    ensures Get(Edited(ports, p, e), p) == EditedList(Get(ports, p), e)
  {
    hide EditedList;
  }

  lemma OneEditElsewhere(xs: seq<PortBinding>, e: Edit, x: PortBinding)
    requires e.binding.hostPort != x.hostPort
    ensures multiset(EditedList(xs, e))[x] == multiset(xs)[x]
  {
    var i := FirstEqual(xs, e.binding);
    if i < |xs| {
      assert xs == xs[..i] + [xs[i]] + xs[i + 1..];
    }
  }

  /** Additions are served: some binding has the host port, at the wanted address or at one that stands for all. */
  lemma {:induction false} AdditionsServed(ports: PortMap, p: Port, es: seq<Edit>, e: Edit)
    requires e in es && forall f | f in es :: !f.removal
    ensures exists x :: x in Get(EditedAll(ports, p, es), p) && x.hostPort == e.binding.hostPort &&
                        (x.hostIP == e.binding.hostIP ||
                         (x.hostIP in ["", "127.0.0.1", "0.0.0.0", "localhost"] &&
                          e.binding.hostIP in ["", "127.0.0.1", "0.0.0.0", "localhost"]))
  {
    hide EditedList, FirstEqual;
    var front, last := es[..|es| - 1], es[|es| - 1];
    assert es == front + [last];
    var before := EditedAll(ports, p, front);
    EditedAt(before, p, last);
    AdditionKeeps(Get(before, p), last);
    if e in front {
      AdditionsServed(ports, p, front, e);
    }
  }

  lemma AdditionKeeps(xs: seq<PortBinding>, e: Edit)
    requires !e.removal
    ensures xs <= EditedList(xs, e)
    ensures exists x :: x in EditedList(xs, e) && x.hostPort == e.binding.hostPort &&
                        (x.hostIP == e.binding.hostIP ||
                         (x.hostIP in ["", "127.0.0.1", "0.0.0.0", "localhost"] &&
                          e.binding.hostIP in ["", "127.0.0.1", "0.0.0.0", "localhost"]))
  {
    var i := FirstEqual(xs, e.binding);
    var ys := EditedList(xs, e);
    assert ys[i] in ys;
  }

  /** Edits in turn: those of the first list, then those of the second. */
  lemma {:induction false} EditsInTurn(ports: PortMap, p: Port, es: seq<Edit>, fs: seq<Edit>)
    ensures EditedAll(ports, p, []) == ports
    ensures EditedAll(ports, p, es + fs) == EditedAll(EditedAll(ports, p, es), p, fs)
  {
    hide Edited;
    if fs == [] {
      assert es + fs == es;
    } else {
      var front, last := fs[..|fs| - 1], fs[|fs| - 1];
      EditsInTurn(ports, p, es, front);
      assert (es + fs)[..|es + fs| - 1] == es + front;
    }
  }

  /** One edit changes the list of its port only, and a port without bindings has no entry. */
  lemma OneEdit(ports: PortMap, p: Port, e: Edit)
    requires NoEmpty(ports)
    ensures var r := EditedAll(ports, p, [e]);
            && Get(r, p) == EditedList(Get(ports, p), e)
            && (p in r <==> EditedList(Get(ports, p), e) != [])
            && (forall q | q != p :: Agree(r, ports, q))
  {
    hide EditedList;
    assert [e][..0] == [];
    assert EditedAll(ports, p, [e]) == Edited(ports, p, e);
  }

  // ---------- the loops over a changeset ----------

  method EditBinding(node: Node, port: Port, e: Edit)
    modifies node`ports
    ensures node.ports == Edited(old(node.ports), port, e)
  {
    var existing := Get(node.ports, port);
    for i := 0 to |existing|
      invariant node.ports == old(node.ports)
      invariant forall j | 0 <= j < i :: !IsPortBindingEqual(e.binding, existing[j])
    {
      if IsPortBindingEqual(e.binding, existing[i]) {
        assert FirstEqual(existing, e.binding) == i;
        if e.removal {
          node.ports := node.ports[port := RemoveByIndex(existing, i)];
          if |node.ports[port]| == 0 {
            node.ports := node.ports - {port};
          }
        }
        return;
      }
    }
    assert FirstEqual(existing, e.binding) == |existing|;
    if !e.removal {
      node.ports := node.ports[port := existing + [e.binding]];
    }
  }

  /** The ports of the changeset in whatever order; each changes its own list only. */
  method EditPorts(node: Node, changes: Changeset)
    modifies node`ports
    ensures forall p :: Agree(node.ports, EditedAll(old(node.ports), p, if p in changes then changes[p] else []), p)
  {
    hide Edited;
    var rest := changes.Keys;
    ghost var before := node.ports;
    while rest != {}
      invariant rest <= changes.Keys
      invariant forall p ::
                  Agree(node.ports, if p in rest then before
                                    else EditedAll(before, p, if p in changes then changes[p] else []), p)
      decreases |rest|
    {
      var port :| port in rest;
      ghost var start := node.ports;
      EditPort(node, port, changes[port]);
      forall p
        ensures Agree(node.ports, if p in rest - {port} then before
                                  else EditedAll(before, p, if p in changes then changes[p] else []), p)
      {
        if p == port {
          EditedAllSame(start, before, p, changes[p]);
        } else {
          EditedAllLocal(start, port, changes[port], p);
        }
      }
      rest := rest - {port};
    }
  }

  method EditPort(node: Node, port: Port, edits: seq<Edit>)
    modifies node`ports
    ensures node.ports == EditedAll(old(node.ports), port, edits)
  {
    hide Edited;
    for i := 0 to |edits|
      invariant node.ports == EditedAll(old(node.ports), port, edits[..i])
    {
      assert edits[..i + 1][..i] == edits[..i];
      EditBinding(node, port, edits[i]);
    }
    assert edits[..|edits|] == edits;
  }

  // ---------- the generated configuration ----------

  const DEFAULT_WORKER_CONNECTIONS := 1024

  /** All ports, and the API port, are served by all servers. */
  method LoadbalancerGenerateConfig(servers: seq<string>, ports: PortMap)
    returns (targets: Table<string>, workerConnections: nat)
    ensures forall k :: k in targets <==> k == API_PORT + ".tcp" || exists p | p in ports :: ConfigKey(p) == k
    ensures forall k | k in targets :: targets[k] == servers
    ensures workerConnections == 1024 + |ports| * |servers|
  {
    hide ConfigKey;
    targets := map[API_PORT + ".tcp" := servers];
    var rest := ports.Keys;
    while rest != {}
      invariant rest <= ports.Keys
      invariant forall k :: k in targets <==>
                  k == API_PORT + ".tcp" || exists p | p in ports.Keys - rest :: ConfigKey(p) == k
      invariant forall k | k in targets :: targets[k] == servers
      decreases |rest|
    {
      var p :| p in rest;
      targets := targets[ConfigKey(p) := servers];
      rest := rest - {p};
    }
    workerConnections := DEFAULT_WORKER_CONNECTIONS + |ports| * |servers|;
  }

  // ---------- the whole operation ----------

  datatype EditResult = ClusterUnknown | Attempted(result: ReplaceResult)

  /** A copy of a node without its state. */
  method CopyNode(node: Node) returns (copy: Node)
    ensures fresh(copy) && copy.role == node.role && copy.name == node.name && copy.isInit == node.isInit
    ensures copy.labels == node.labels && copy.env == node.env && copy.ports == node.ports && copy.ip == node.ip
    ensures !copy.running
  {
    copy := new Node(node.name, node.role);
    copy.isInit, copy.labels, copy.env := node.isInit, node.labels, node.env;
    copy.ports, copy.ip := node.ports, node.ip;
  }

  /** The replacement of a node by a copy of it. */
  ghost function CopyJob(oldId: Id, node: Node, suffix: string): Job
    reads node
  {
    Job(oldId, node.name, node.name + "-" + suffix, node.running, node.name, node.labels, false, node.role)
  }

  /**
   Whatever the runtime fails to do, in every state since the start the old container exists or
   another one runs under the name of the node and, for a role with a ready message, is ready.
   For the load balancer the new configuration covers every port of the copy.
   */
  method NodeEdit(rt: Daemon, node: Node, changes: Changeset, servers: Option<seq<string>>, suffix: string,
                  ghost oldId: Id)
    returns (r: EditResult, copy: Node, targets: Option<Table<string>>, ghost newId: Id)
    requires rt.Valid()
    requires IsOf(rt.containers, oldId, node)
    modifies rt, node`name, node`running
    ensures rt.Valid() && old(rt.history) <= rt.history
    ensures forall i | |old(rt.history)| <= i < |rt.history| ::
              var s := rt.history[i];
              || oldId in s.containers
              || exists n :: n in s.containers && s.containers[n].name == old(node.name) && s.containers[n].running &&
                             (node.role != NoRole ==> n in s.ready)
    ensures fresh(copy)
    ensures forall p ::
              Agree(copy.ports, EditedAll(old(node.ports), p, if p in changes then changes[p] else []), p)
    ensures node.role == LoadBalancer && servers.None? <==> r.ClusterUnknown?
    ensures r.ClusterUnknown? ==> rt.containers == old(rt.containers)
    ensures targets.Some? <==> node.role == LoadBalancer && servers.Some?
    ensures targets.Some? ==> API_PORT + ".tcp" in targets.value
    ensures targets.Some? ==> forall p | p in copy.ports :: ConfigKey(p) in targets.value
    ensures targets.Some? ==> forall k | k in targets.value :: targets.value[k] == servers.value
    ensures r.Attempted? ==>
              Outcome(r.result, old(rt.containers), rt.containers, old(CopyJob(oldId, node, suffix)), newId)
    ensures r.Attempted? && r.result.Replaced? && LastReported(rt.attempts) ==> oldId !in rt.containers
  {
    hide KeptSince, Outcome, Calls, AllTookEffect, LastReported, Carries, Kept, Daemon.Valid, EditedAll, ConfigKey;
    copy := CopyNode(node);
    EditPorts(copy, changes);
    targets, newId := None, 0;
    if copy.role == LoadBalancer {
      if servers.None? {
        return ClusterUnknown, copy, None, newId;
      }
      var generated, connections := LoadbalancerGenerateConfig(servers.value, copy.ports);
      targets := Some(generated);
    }
    ghost var job := JobOf(oldId, node, copy, suffix);
    ghost var start := rt.history;
    var result;
    result, newId := NodeReplace.NodeReplace(rt, node, copy, suffix, oldId);
    KeptInEveryState(rt.history, start, job);
    r := Attempted(result);
  }

  lemma KeptInEveryState(history: seq<Snapshot>, start: seq<Snapshot>, job: Job)
    requires KeptSince(history, start, job) && !job.newRunning
    ensures start <= history
    ensures forall i | |start| <= i < |history| ::
              var s := history[i];
              || job.oldId in s.containers
              || exists n :: n in s.containers && s.containers[n].name == job.newName && s.containers[n].running &&
                             (job.newRole != NoRole ==> n in s.ready)
  {
    hide Kept, HasReadyMessage;
    forall i | |start| <= i < |history|
      ensures var s := history[i];
              || job.oldId in s.containers
              || exists n :: n in s.containers && s.containers[n].name == job.newName && s.containers[n].running &&
                             (job.newRole != NoRole ==> n in s.ready)
    {
      KeptMeaning(history, start, job, i);
    }
  }
}
