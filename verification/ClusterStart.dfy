/**
 Starting a cluster: the init server first, then the other servers one at a time in the
 order of their names, then all agents at once, then all helpers at once.
 */
module ClusterStart {
  import opened ReadyLog
  import opened StagedStart
  import opened Types
  import opened Wrappers

  /** What the start of a cluster reads of a node. */
  datatype Member = Member(name: string, role: Role, isInit: bool, running: bool)

  // ---------- sorting the nodes into categories ----------

  predicate IsInitServer(n: Member) { !n.running && n.role == Server && n.isInit }

  predicate IsServer(n: Member) { !n.running && n.role == Server && !n.isInit }

  predicate IsAgent(n: Member) { !n.running && n.role == Agent }

  predicate IsHelper(n: Member) { !n.running && n.role != Server && n.role != Agent }

  /** The positions of the nodes with a property, in order. */
  function Positions(nodes: seq<Member>, p: Member -> bool): (r: seq<nat>) {
    if nodes == [] then []
    else
      var front, k := Positions(nodes[..|nodes| - 1], p), |nodes| - 1;
      if p(nodes[k]) then front + [k] else front
  }

  lemma {:induction false} PositionsMeaning(nodes: seq<Member>, p: Member -> bool)
    ensures InRange(nodes, Positions(nodes, p))
    ensures forall a | 0 <= a < |Positions(nodes, p)| :: p(nodes[Positions(nodes, p)[a]])
    ensures forall i | 0 <= i < |nodes| && p(nodes[i]) :: i in Positions(nodes, p)
    ensures forall a, b | 0 <= a < b < |Positions(nodes, p)| :: Positions(nodes, p)[a] < Positions(nodes, p)[b]
  {
    if nodes != [] {
      var front := nodes[..|nodes| - 1];
      PositionsMeaning(front, p);
      assert forall i | 0 <= i < |front| :: front[i] == nodes[i];
      var r, r' := Positions(nodes, p), Positions(front, p);
      assert forall a | 0 <= a < |r'| :: r[a] == r'[a] < |front|;
    }
  }

  /** Of several init servers that are not running the last one counts. */
  function InitOf(nodes: seq<Member>): Option<nat> {
    var inits := Positions(nodes, IsInitServer);
    if inits == [] then None else Some(inits[|inits| - 1])
  }

  lemma InitMeaning(nodes: seq<Member>)
    ensures InitOf(nodes).Some? ==> InitOf(nodes).value < |nodes| && IsInitServer(nodes[InitOf(nodes).value])
  {
    PositionsMeaning(nodes, IsInitServer);
  }

  method Categorize(nodes: seq<Member>)
    returns (initNode: Option<nat>, servers: seq<nat>, agents: seq<nat>, aux: seq<nat>)
    ensures initNode == InitOf(nodes)
    ensures servers == Positions(nodes, IsServer)
    ensures agents == Positions(nodes, IsAgent)
    ensures aux == Positions(nodes, IsHelper)
  {
    initNode, servers, agents, aux := None, [], [], [];
    for i := 0 to |nodes|
      invariant initNode == InitOf(nodes[..i])
      invariant servers == Positions(nodes[..i], IsServer)
      invariant agents == Positions(nodes[..i], IsAgent)
      invariant aux == Positions(nodes[..i], IsHelper)
    {
      assert nodes[..i + 1][..i] == nodes[..i];
      var n := nodes[i];
      if !n.running {
        if n.role == Server {
          if n.isInit {
            initNode := Some(i);
            continue;
          }
          servers := servers + [i];
        } else if n.role == Agent {
          agents := agents + [i];
        } else {
          aux := aux + [i];
        }
      }
    }
    assert nodes[..|nodes|] == nodes;
  }

  // ---------- the order of names ----------

  /** Comparison of strings, character by character. */
  predicate NameLeq(a: string, b: string) {
    a == "" || (b != "" && (a[0] < b[0] || (a[0] == b[0] && NameLeq(a[1..], b[1..]))))
  }

  lemma {:induction false} NameLeqTotal(a: string, b: string)
    ensures NameLeq(a, b) || NameLeq(b, a)
  {
    if a != "" && b != "" {
      NameLeqTotal(a[1..], b[1..]);
    }
  }

  lemma {:induction false} NameLeqTransitive(a: string, b: string, c: string)
    requires NameLeq(a, b) && NameLeq(b, c)
    ensures NameLeq(a, c)
  {
    if a != "" && a[0] == b[0] == c[0] {
      NameLeqTransitive(a[1..], b[1..], c[1..]);
    }
  }

  /**
   The order of names: one is a prefix of the other, or at the first place where they differ it has
   the smaller character.
   */
  lemma {:induction false} NameLeqMeaning(a: string, b: string)
    ensures NameLeq(a, b) <==>
            a <= b || exists k :: 0 <= k < |a| && k < |b| && a[..k] == b[..k] && a[k] < b[k]
  {
    if a != "" && b != "" {
      NameLeqMeaning(a[1..], b[1..]);
      if a[0] == b[0] {
        if k :| 0 <= k < |a| - 1 && k < |b| - 1 && a[1..][..k] == b[1..][..k] && a[1..][k] < b[1..][k] {
          assert a[..k + 1] == [a[0]] + a[1..][..k] && b[..k + 1] == [b[0]] + b[1..][..k];
          assert a[k + 1] < b[k + 1];
        }
        if k :| 0 <= k < |a| && k < |b| && a[..k] == b[..k] && a[k] < b[k] {
          assert a[1..][..k - 1] == a[..k][1..] && b[1..][..k - 1] == b[..k][1..];
          assert a[1..][k - 1] < b[1..][k - 1];
        }
      } else if a[0] < b[0] {
        assert a[..0] == b[..0];
      } else if k :| 0 <= k < |a| && k < |b| && a[..k] == b[..k] && a[k] < b[k] {
        if k > 0 {
          SameFirst(a, b, k);
        }
      }
    }
  }

  lemma SameFirst(a: string, b: string, k: nat)
    requires 0 < k <= |a| && k <= |b| && a[..k] == b[..k]
    ensures a[0] == b[0]
  {
    assert a[..k][0] == b[..k][0];
  }

  predicate InRange(nodes: seq<Member>, positions: seq<nat>) {
    forall a | 0 <= a < |positions| :: positions[a] < |nodes|
  }

  ghost predicate SortedByName(nodes: seq<Member>, order: seq<nat>)
    requires InRange(nodes, order)
  {
    forall a, b | 0 <= a < b < |order| :: NameLeq(nodes[order[a]].name, nodes[order[b]].name)
  }

  /** Sorts positions by the names of their nodes; equal names may come in any order. */
  method SortByName(nodes: seq<Member>, servers: seq<nat>) returns (order: seq<nat>)
    requires InRange(nodes, servers)
    ensures multiset(order) == multiset(servers)
    ensures InRange(nodes, order)
    ensures SortedByName(nodes, order)
    ensures forall a, b | 0 <= a < b < |order| ::
              var s, t := nodes[order[a]].name, nodes[order[b]].name;
              s <= t || exists k :: 0 <= k < |s| && k < |t| && s[..k] == t[..k] && s[k] < t[k]
  {
    order := [];
    for k := 0 to |servers|
      invariant multiset(order) == multiset(servers[..k])
      invariant InRange(nodes, order)
      invariant SortedByName(nodes, order)
    {
      assert servers[..k + 1] == servers[..k] + [servers[k]];
      order := InsertByName(nodes, order, servers[k]);
    }
    assert servers[..|servers|] == servers;
    forall a, b | 0 <= a < b < |order|
      ensures var s, t := nodes[order[a]].name, nodes[order[b]].name;
              s <= t || exists k :: 0 <= k < |s| && k < |t| && s[..k] == t[..k] && s[k] < t[k]
    {
      NameLeqMeaning(nodes[order[a]].name, nodes[order[b]].name);
    }
  }

  method InsertByName(nodes: seq<Member>, order: seq<nat>, x: nat) returns (r: seq<nat>)
    requires x < |nodes| && InRange(nodes, order) && SortedByName(nodes, order)
    ensures multiset(r) == multiset(order) + multiset{x}
    ensures InRange(nodes, r)
    ensures SortedByName(nodes, r)
  {
    hide SortedByName, NameLeq;
    var p := 0;
    while p < |order| && NameLeq(nodes[order[p]].name, nodes[x].name)
      invariant p <= |order|
      invariant forall a | 0 <= a < p :: NameLeq(nodes[order[a]].name, nodes[x].name)
    {
      p := p + 1;
    }
    r := order[..p] + [x] + order[p..];
    InsertedInOrder(nodes, order, p, x);
    assert order == order[..p] + order[p..];
  }

  lemma InsertedInOrder(nodes: seq<Member>, order: seq<nat>, p: nat, x: nat)
    requires x < |nodes| && InRange(nodes, order) && SortedByName(nodes, order) && p <= |order|
    requires forall a | 0 <= a < p :: NameLeq(nodes[order[a]].name, nodes[x].name)
    requires p < |order| ==> !NameLeq(nodes[order[p]].name, nodes[x].name)
    ensures var r := order[..p] + [x] + order[p..]; InRange(nodes, r) && SortedByName(nodes, r)
  {
    hide NameLeq;
    forall b | p <= b < |order| ensures NameLeq(nodes[x].name, nodes[order[b]].name) {
      NameLeqTotal(nodes[x].name, nodes[order[p]].name);
      if p < b {
        NameLeqTransitive(nodes[x].name, nodes[order[p]].name, nodes[order[b]].name);
      }
    }
  }

  // ---------- the plan ----------

  /** For which nodes the start waits for the ready message. */
  function Waits(n: Member, intent: Intent): bool {
    (n.role == Server || n.role == Agent || n.role == LoadBalancer) && ReadyLogMessage(n.role, n.isInit, intent) != ""
  }

  function PlanOf(nodes: seq<Member>, intent: Intent, initNode: Option<nat>,
                  servers: seq<nat>, agents: seq<nat>, aux: seq<nat>): Plan
  {
    Plan((if initNode.Some? then [[initNode.value]] else []) +
         seq(|servers|, k requires 0 <= k < |servers| => [servers[k]]) + [agents, aux],
         seq(|nodes|, i requires 0 <= i < |nodes| => Waits(nodes[i], intent)))
  }

  /** The order in which the servers may be started. */
  ghost predicate IsServerOrder(nodes: seq<Member>, servers: seq<nat>) {
    && multiset(servers) == multiset(Positions(nodes, IsServer))
    && InRange(nodes, servers)
    && SortedByName(nodes, servers)
  }

  ghost function StartPlan(nodes: seq<Member>, intent: Intent, servers: seq<nat>): Plan {
    PlanOf(nodes, intent, InitOf(nodes), servers, Positions(nodes, IsAgent), Positions(nodes, IsHelper))
  }

  /** The number of the first group of servers: after the init server, if there is one. */
  function ServerStages(nodes: seq<Member>): nat { if InitOf(nodes).Some? then 1 else 0 }

  function AgentStage(nodes: seq<Member>, servers: seq<nat>): nat { ServerStages(nodes) + |servers| }

  /** What the groups of the plan are. */
  lemma Stages(nodes: seq<Member>, intent: Intent, servers: seq<nat>)
    ensures var stages := StartPlan(nodes, intent, servers).stages;
            var a := AgentStage(nodes, servers);
            && |stages| == a + 2
            && (InitOf(nodes).Some? ==> stages[0] == [InitOf(nodes).value])
            && (forall k | 0 <= k < |servers| :: stages[ServerStages(nodes) + k] == [servers[k]])
            && stages[a] == Positions(nodes, IsAgent)
            && stages[a + 1] == Positions(nodes, IsHelper)
    ensures |StartPlan(nodes, intent, servers).waits| == |nodes|
    ensures forall i | 0 <= i < |nodes| :: StartPlan(nodes, intent, servers).waits[i] == Waits(nodes[i], intent)
  {}

  lemma {:induction false} MultisetNoDup(a: seq<nat>, b: seq<nat>)
    requires multiset(a) == multiset(b)
    requires forall i, j | 0 <= i < j < |b| :: b[i] != b[j]
    ensures forall i, j | 0 <= i < j < |a| :: a[i] != a[j]
  {
    forall i, j | 0 <= i < j < |a| ensures a[i] != a[j] {
      if a[i] == a[j] {
        assert a == a[..i] + [a[i]] + a[i + 1..j] + [a[j]] + a[j + 1..];
        assert multiset(a)[a[i]] >= 2;
        CountOnce(b, a[i]);
      }
    }
  }

  lemma {:induction false} CountOnce(b: seq<nat>, x: nat)
    requires forall i, j | 0 <= i < j < |b| :: b[i] != b[j]
    ensures multiset(b)[x] <= 1
  {
    if b != [] {
      CountOnce(b[1..], x);
      assert b == [b[0]] + b[1..];
      if x == b[0] {
        assert x !in b[1..];
      }
    }
  }

  /** The kind of node that a group of the plan holds. */
  predicate StageKind(nodes: seq<Member>, servers: seq<nat>, g: nat, i: nat)
    requires i < |nodes|
  {
    var a := AgentStage(nodes, servers);
    if g == a then IsAgent(nodes[i])
    else if g == a + 1 then IsHelper(nodes[i])
    else if g < ServerStages(nodes) then IsInitServer(nodes[i])
    else IsServer(nodes[i])
  }

  lemma StageMember(nodes: seq<Member>, intent: Intent, servers: seq<nat>, g: nat, p: nat)
    requires IsServerOrder(nodes, servers)
    requires var stages := StartPlan(nodes, intent, servers).stages; g < |stages| && p < |stages[g]|
    ensures var i := StartPlan(nodes, intent, servers).stages[g][p];
            i < |nodes| && StageKind(nodes, servers, g, i)
  {
    hide Positions, PlanOf, SortedByName, InitOf, IsServer, IsInitServer, IsAgent, IsHelper;
    Stages(nodes, intent, servers);
    InitMeaning(nodes);
    PositionsMeaning(nodes, IsServer);
    PositionsMeaning(nodes, IsAgent);
    PositionsMeaning(nodes, IsHelper);
    var stages := StartPlan(nodes, intent, servers).stages;
    var a := AgentStage(nodes, servers);
    if ServerStages(nodes) <= g < a {
      var k := g - ServerStages(nodes);
      assert stages[ServerStages(nodes) + k] == [servers[k]];
      assert servers[k] in multiset(servers);
      var found := Positions(nodes, IsServer);
      var q :| 0 <= q < |found| && found[q] == servers[k];
    }
  }

  /** Nodes of two groups are of different kinds, unless both are groups of servers. */
  lemma KindsApart(nodes: seq<Member>, servers: seq<nat>, g: nat, h: nat, i: nat)
    requires i < |nodes| && StageKind(nodes, servers, g, i) && StageKind(nodes, servers, h, i)
    requires g < AgentStage(nodes, servers) + 2 && h < AgentStage(nodes, servers) + 2
    ensures g == h || (ServerStages(nodes) <= g < AgentStage(nodes, servers) &&
                       ServerStages(nodes) <= h < AgentStage(nodes, servers))
  {
    hide InitOf;
  }

  /** The plan puts every node in at most one place. */
  lemma PlanValid(nodes: seq<Member>, intent: Intent, servers: seq<nat>)
    requires IsServerOrder(nodes, servers)
    ensures StartPlan(nodes, intent, servers).Valid()
  {
    hide PlanOf, StartPlan, IsServerOrder;
    var plan := StartPlan(nodes, intent, servers);
    var stages := plan.stages;
    Stages(nodes, intent, servers);
    forall g, p | 0 <= g < |stages| && 0 <= p < |stages[g]| ensures stages[g][p] < |plan.waits| {
      StageMember(nodes, intent, servers, g, p);
    }
    forall g, p, h, q | 0 <= g < |stages| && 0 <= p < |stages[g]| && 0 <= h < |stages| && 0 <= q < |stages[h]|
                        && stages[g][p] == stages[h][q]
      ensures g == h && p == q
    {
      PlacesApart(nodes, intent, servers, g, p, h, q);
    }
  }

  lemma PlacesApart(nodes: seq<Member>, intent: Intent, servers: seq<nat>, g: nat, p: nat, h: nat, q: nat)
    requires IsServerOrder(nodes, servers)
    requires var stages := StartPlan(nodes, intent, servers).stages;
             g < |stages| && p < |stages[g]| && h < |stages| && q < |stages[h]| && stages[g][p] == stages[h][q]
    ensures g == h && p == q
  {
    hide PlanOf, StartPlan, Positions, InitOf, SortedByName, StageKind;
    var stages := StartPlan(nodes, intent, servers).stages;
    Stages(nodes, intent, servers);
    StageMember(nodes, intent, servers, g, p);
    StageMember(nodes, intent, servers, h, q);
    KindsApart(nodes, servers, g, h, stages[g][p]);
    PositionsMeaning(nodes, IsServer);
    PositionsMeaning(nodes, IsAgent);
    PositionsMeaning(nodes, IsHelper);
    MultisetNoDup(servers, Positions(nodes, IsServer));
    var first := ServerStages(nodes);
    if first <= g < AgentStage(nodes, servers) && first <= h < AgentStage(nodes, servers) {
      assert stages[first + (g - first)] == [servers[g - first]];
      assert stages[first + (h - first)] == [servers[h - first]];
    }
  }

  // ---------- the program ----------

  /**
   The start performs the run `run` of the staged machine, which ends with this log; `stages` says
   whether all stages succeeded.
   */
  ghost predicate PerformsRun(nodes: seq<Member>, intent: Intent, stages: bool, log: seq<Event>,
                              servers: seq<nat>, run: seq<State>)
  {
    && IsServerOrder(nodes, servers)
    && |run| > 0 && IsRun(StartPlan(nodes, intent, servers), run)
    && log == run[|run| - 1].log
    && run[|run| - 1].outcome == if stages then Success else Failure
  }

  ghost predicate Performs(nodes: seq<Member>, intent: Intent, stages: bool, log: seq<Event>) {
    exists servers, run :: PerformsRun(nodes, intent, stages, log, servers, run)
  }

  /** A server other than the init server, or an agent, has been started: its hosts file is to be written. */
  predicate NeedsPreparation(nodes: seq<Member>) {
    exists i: nat :: i < |nodes| && (IsServer(nodes[i]) || IsAgent(nodes[i]))
  }

  /**
   The stages are performed, and then the started cluster is prepared.  Success means that all stages
   succeeded; only the preparation can fail after that, and there is none for the network of the host
   or without a node that needs it.
   */
  ghost predicate Completes(nodes: seq<Member>, intent: Intent, hostNetwork: bool, ok: bool, log: seq<Event>) {
    exists stages: bool ::
      && Performs(nodes, intent, stages, log)
      && (ok ==> stages)
      && (stages && !ok ==> !hostNetwork && NeedsPreparation(nodes))
  }

  method ClusterStart(nodes: seq<Member>, intent: Intent, hostNetwork: bool)
    returns (ok: bool, log: seq<Event>)
    ensures Completes(nodes, intent, hostNetwork, ok, log)
  {
    var initNode, servers, agents, aux := Categorize(nodes);
    ghost var order, run;
    ok, log, order, run := StartStages(nodes, intent, initNode, servers, agents, aux);
    ghost var stages := ok;
    assert PerformsRun(nodes, intent, stages, log, order, run);
    assert Performs(nodes, intent, stages, log);
    PreparationExactly(nodes);
    if ok && !hostNetwork && (|servers| > 0 || |agents| > 0) {
      ok := *;  // writing the hosts files and the records of the name service
    }
  }

  lemma PreparationExactly(nodes: seq<Member>)
    ensures NeedsPreparation(nodes) <==> |Positions(nodes, IsServer)| > 0 || |Positions(nodes, IsAgent)| > 0
  {
    PositionsMeaning(nodes, IsServer);
    PositionsMeaning(nodes, IsAgent);
    var servers, agents := Positions(nodes, IsServer), Positions(nodes, IsAgent);
    assert |servers| > 0 ==> servers[0] in servers;
    assert |agents| > 0 ==> agents[0] in agents;
  }

  lemma OrderIs(nodes: seq<Member>, servers: seq<nat>)
    requires InRange(nodes, servers) && SortedByName(nodes, servers)
    requires multiset(servers) == multiset(Positions(nodes, IsServer))
    ensures IsServerOrder(nodes, servers)
  {}

  lemma OneState(plan: Plan)
    requires plan.Valid() && |plan.stages| > 0
    ensures IsRun(plan, [Initial(plan)])
  {}

  method StartStages(nodes: seq<Member>, intent: Intent, initNode: Option<nat>,
                     found: seq<nat>, agents: seq<nat>, aux: seq<nat>)
    returns (ok: bool, log: seq<Event>, ghost servers: seq<nat>, ghost run: seq<State>)
    requires initNode == InitOf(nodes) && found == Positions(nodes, IsServer)
    requires agents == Positions(nodes, IsAgent) && aux == Positions(nodes, IsHelper)
    ensures PerformsRun(nodes, intent, ok, log, servers, run)
  {
    hide PlanOf, Positions, InitOf, SortedByName, Plan.Valid, IsServerOrder, IsRun;
    PositionsMeaning(nodes, IsServer);
    var order := SortByName(nodes, found);
    servers := order;
    OrderIs(nodes, servers);
    var plan := PlanOf(nodes, intent, initNode, order, agents, aux);
    PlanValid(nodes, intent, servers);
    Stages(nodes, intent, servers);

    var s := Initial(plan);
    run := [s];
    OneState(plan);
    ok := true;
    // the initializing server
    if initNode.Some? {
      ok, s, run := FinishGroup(plan, s, run);
      if !ok {
        return ok, s.log, servers, run;
      }
    }
    // the other servers, one after another
    for k := 0 to |order|
      invariant IsRun(plan, run) && |run| > 0 && run[|run| - 1] == s && s.outcome.Pending?
      invariant s.stage == ServerStages(nodes) + k
    {
      ok, s, run := FinishGroup(plan, s, run);
      if !ok {
        return ok, s.log, servers, run;
      }
    }
    // all agents
    ok, s, run := FinishGroup(plan, s, run);
    if !ok {
      return ok, s.log, servers, run;
    }
    // all helpers
    ok, s, run := FinishGroup(plan, s, run);
    return ok, s.log, servers, run;
  }

  // ---------- the main results ----------

  /** Node `i` takes part in the start: it is not running, and if an init server, the last one. */
  predicate Planned(nodes: seq<Member>, i: nat) {
    i < |nodes| && !nodes[i].running && (IsInitServer(nodes[i]) ==> InitOf(nodes) == Some(i))
  }

  lemma PlannedStage(nodes: seq<Member>, intent: Intent, servers: seq<nat>, i: nat) returns (g: nat)
    requires IsServerOrder(nodes, servers) && Planned(nodes, i)
    ensures StartPlan(nodes, intent, servers).InStage(i, g)
    ensures StageKind(nodes, servers, g, i)
  {
    hide PlanOf, StartPlan, Positions, SortedByName;
    Stages(nodes, intent, servers);
    PositionsMeaning(nodes, IsServer);
    PositionsMeaning(nodes, IsAgent);
    PositionsMeaning(nodes, IsHelper);
    var a := AgentStage(nodes, servers);
    if IsInitServer(nodes[i]) {
      g := 0;
    } else if IsServer(nodes[i]) {
      assert i in multiset(Positions(nodes, IsServer));
      assert i in servers;
      var k :| 0 <= k < |servers| && servers[k] == i;
      g := ServerStages(nodes) + k;
      assert StartPlan(nodes, intent, servers).stages[g] == [servers[k]];
    } else if IsAgent(nodes[i]) {
      g := a;
    } else {
      g := a + 1;
    }
  }

  /** Node `j` must have been ready before node `i` may be started. */
  predicate MustPrecede(nodes: seq<Member>, j: nat, i: nat)
    requires i < |nodes| && j < |nodes|
  {
    || (IsInitServer(nodes[j]) && !IsInitServer(nodes[i]))
    || (IsServer(nodes[j]) && (IsAgent(nodes[i]) || IsHelper(nodes[i])))
    || (IsAgent(nodes[j]) && IsHelper(nodes[i]))
  }

  /**
   Safety of the staged start, for every interleaving and every pattern of failures: the init
   server is ready before anything else is started, every server before any agent or helper,
   and every agent before any helper.
   */
  lemma StartIsStaged(nodes: seq<Member>, intent: Intent, servers: seq<nat>, run: seq<State>,
                      k: nat, p: nat, i: nat, j: nat)
    requires IsServerOrder(nodes, servers) && IsRun(StartPlan(nodes, intent, servers), run)
    requires k < |run| && p < |run[k].log| && run[k].log[p] == Started(i)
    requires Planned(nodes, i) && Planned(nodes, j) && MustPrecede(nodes, j, i)
    ensures exists q | 0 <= q < p :: run[k].log[q] == Ready(j)
  {
    hide PlanOf, Positions, InitOf, SortedByName, Plan.Valid, IsServerOrder, IsRun;
    var plan := StartPlan(nodes, intent, servers);
    PlanValid(nodes, intent, servers);
    Stages(nodes, intent, servers);
    var g := PlannedStage(nodes, intent, servers, i);
    var h := PlannedStage(nodes, intent, servers, j);
    StartsInOrder(plan, run, k, p, i, g, j, h);
  }

  /** The servers are started one at a time: each is ready before a later one is started. */
  lemma ServersInNameOrder(nodes: seq<Member>, intent: Intent, servers: seq<nat>, run: seq<State>,
                           k: nat, p: nat, a: nat, b: nat)
    requires IsServerOrder(nodes, servers) && IsRun(StartPlan(nodes, intent, servers), run)
    requires a < b < |servers|
    requires k < |run| && p < |run[k].log| && run[k].log[p] == Started(servers[b])
    ensures exists q | 0 <= q < p :: run[k].log[q] == Ready(servers[a])
    ensures var s, t := nodes[servers[a]].name, nodes[servers[b]].name;
            s <= t || exists k :: 0 <= k < |s| && k < |t| && s[..k] == t[..k] && s[k] < t[k]
  {
    NameLeqMeaning(nodes[servers[a]].name, nodes[servers[b]].name);
    hide PlanOf, Positions, InitOf, Plan.Valid, IsRun;
    var plan := StartPlan(nodes, intent, servers);
    PlanValid(nodes, intent, servers);
    var first := ServerStages(nodes);
    ServerStage(nodes, intent, servers, a);
    ServerStage(nodes, intent, servers, b);
    StartsInOrder(plan, run, k, p, servers[b], first + b, servers[a], first + a);
  }

  lemma ServerStage(nodes: seq<Member>, intent: Intent, servers: seq<nat>, k: nat)
    requires IsServerOrder(nodes, servers) && k < |servers|
    ensures servers[k] < |nodes| && StartPlan(nodes, intent, servers).InStage(servers[k], ServerStages(nodes) + k)
    ensures StartPlan(nodes, intent, servers).waits[servers[k]]
  {
    hide PlanOf, Positions, InitOf, SortedByName;
    Stages(nodes, intent, servers);
    assert StartPlan(nodes, intent, servers).stages[ServerStages(nodes) + k] == [servers[k]];
    StageMember(nodes, intent, servers, ServerStages(nodes) + k, 0);
  }

  /** Only planned nodes are started, and each at most once. */
  lemma OnlyPlannedStarted(nodes: seq<Member>, intent: Intent, servers: seq<nat>, run: seq<State>, k: nat, i: nat)
    requires IsServerOrder(nodes, servers) && IsRun(StartPlan(nodes, intent, servers), run) && k < |run|
    ensures multiset(run[k].log)[Started(i)] <= 1
    ensures Started(i) in run[k].log ==> Planned(nodes, i)
  {
    hide PlanOf, Positions, SortedByName, Plan.Valid, IsRun;
    var plan := StartPlan(nodes, intent, servers);
    PlanValid(nodes, intent, servers);
    StartedOnce(plan, run, k, i);
    if Started(i) in run[k].log {
      var g :| plan.InStage(i, g) && g <= run[k].stage;
      var p :| 0 <= p < |plan.stages[g]| && plan.stages[g][p] == i;
      StageMember(nodes, intent, servers, g, p);
      Stages(nodes, intent, servers);
    }
  }

  /** A successful start has started every planned node exactly once. */
  lemma SuccessStartsPlanned(nodes: seq<Member>, intent: Intent, servers: seq<nat>, run: seq<State>, k: nat, i: nat)
    requires IsServerOrder(nodes, servers) && IsRun(StartPlan(nodes, intent, servers), run)
    requires k < |run| && run[k].outcome.Success?
    ensures multiset(run[k].log)[Started(i)] == if Planned(nodes, i) then 1 else 0
  {
    hide PlanOf, Positions, InitOf, SortedByName, Plan.Valid, IsServerOrder, IsRun;
    PlanValid(nodes, intent, servers);
    OnlyPlannedStarted(nodes, intent, servers, run, k, i);
    if Planned(nodes, i) {
      var g := PlannedStage(nodes, intent, servers, i);
      SuccessStartsAll(StartPlan(nodes, intent, servers), run, k, i, g);
    }
  }

  /**
   Every node that is not running is planned if and only if at most one of them is an init
   server: of several, only the last is started.
   */
  lemma AllPlannedExactly(nodes: seq<Member>)
    ensures (forall i | 0 <= i < |nodes| && !nodes[i].running :: Planned(nodes, i)) <==>
            (forall i, j | 0 <= i < |nodes| && 0 <= j < |nodes| ::
               IsInitServer(nodes[i]) && IsInitServer(nodes[j]) ==> i == j)
  {
    PositionsMeaning(nodes, IsInitServer);
    var inits := Positions(nodes, IsInitServer);
    if inits != [] {
      assert inits[|inits| - 1] in inits;
    }
  }

  const TWO_INITS :=
    [Member("k3d-c-server-0", Server, true, false), Member("k3d-c-server-1", Server, true, false)]

  /** Of two init servers, the first is never started, not even by a start that succeeds. */
  lemma SeveralInitsExample(intent: Intent, hostNetwork: bool, ok: bool, log: seq<Event>)
    requires Completes(TWO_INITS, intent, hostNetwork, ok, log)
    ensures Started(0) !in log && (ok ==> Started(1) in log)
  {
    hide Completes;
    LastInit(TWO_INITS);
    StartGuarantees(TWO_INITS, intent, hostNetwork, ok, log, 0);
    StartGuarantees(TWO_INITS, intent, hostNetwork, ok, log, 1);
    assert Started(0) !in multiset(log);
    assert ok ==> Started(1) in multiset(log);
  }

  lemma LastInit(nodes: seq<Member>)
    requires nodes != [] && IsInitServer(nodes[|nodes| - 1])
    ensures InitOf(nodes) == Some(|nodes| - 1)
  {}

  /** After a failure in the group of some node, no node that must come later has been started. */
  lemma FailureStartsNothingLater(nodes: seq<Member>, intent: Intent, servers: seq<nat>, run: seq<State>,
                                  k: nat, i: nat, j: nat)
    requires IsServerOrder(nodes, servers) && IsRun(StartPlan(nodes, intent, servers), run)
    requires k < |run| && run[k].outcome.Failure?
    requires j < |run[k].progress| && run[k].progress[j].Broken?
    requires Planned(nodes, i) && j < |nodes| && MustPrecede(nodes, j, i)
    ensures Started(i) !in run[k].log
  {
    hide PlanOf, Positions, InitOf, SortedByName, IsServerOrder, IsRun;
    var plan := StartPlan(nodes, intent, servers);
    PlanValid(nodes, intent, servers);
    Stages(nodes, intent, servers);
    RunInv(plan, run, k);
    var g := PlannedStage(nodes, intent, servers, i);
    assert !run[k].progress[j].Idle?;
    var h :| plan.InStage(j, h);
    var q :| 0 <= q < |plan.stages[h]| && plan.stages[h][q] == j;
    StageMember(nodes, intent, servers, h, q);
    assert h == run[k].stage;
    FailureStopsHere(plan, run, k, i, g);
  }

  /** Both nodes are planned, and `j` must be ready before `i` is started. */
  predicate ComesFirst(nodes: seq<Member>, j: nat, i: nat) {
    Planned(nodes, i) && Planned(nodes, j) && MustPrecede(nodes, j, i)
  }

  /**
   What the start of a cluster guarantees of its log, whatever was interleaved and whatever failed:
   stages in order, nothing started twice or needlessly, and everything started on success.
   */
  lemma StartGuarantees(nodes: seq<Member>, intent: Intent, hostNetwork: bool, ok: bool, log: seq<Event>, i: nat)
    requires Completes(nodes, intent, hostNetwork, ok, log)
    ensures multiset(log)[Started(i)] <= if Planned(nodes, i) then 1 else 0
    ensures ok && Planned(nodes, i) ==> multiset(log)[Started(i)] == 1
    ensures forall p, j: nat | 0 <= p < |log| && log[p] == Started(i) && ComesFirst(nodes, j, i) :: Ready(j) in log[..p]
  {
    hide PerformsRun, Planned, ComesFirst;
    var stages :| Performs(nodes, intent, stages, log) && (ok ==> stages);
    var servers, run :| PerformsRun(nodes, intent, stages, log, servers, run);
    RunGuarantees(nodes, intent, stages, log, servers, run, i);
  }

  lemma RunGuarantees(nodes: seq<Member>, intent: Intent, stages: bool, log: seq<Event>,
                      servers: seq<nat>, run: seq<State>, i: nat)
    requires PerformsRun(nodes, intent, stages, log, servers, run)
    ensures multiset(log)[Started(i)] <= if Planned(nodes, i) then 1 else 0
    ensures stages && Planned(nodes, i) ==> multiset(log)[Started(i)] == 1
    ensures forall p, j: nat | 0 <= p < |log| && log[p] == Started(i) && ComesFirst(nodes, j, i) :: Ready(j) in log[..p]
  {
    hide IsServerOrder, IsRun, MustPrecede, PlanOf, StartPlan, InitOf;
    var k := |run| - 1;
    OnlyPlannedStarted(nodes, intent, servers, run, k, i);
    if stages {
      SuccessStartsPlanned(nodes, intent, servers, run, k, i);
    }
    forall p, j: nat | 0 <= p < |log| && log[p] == Started(i) && ComesFirst(nodes, j, i)
      ensures Ready(j) in log[..p]
    {
      StartIsStaged(nodes, intent, servers, run, k, p, i, j);
      var q :| 0 <= q < p && run[k].log[q] == Ready(j);
      assert log[..p][q] == Ready(j);
    }
  }

  // ---------- the same, in terms of the nodes alone ----------

  /** `j` is the last init server that is not running. */
  lemma LastInitIs(nodes: seq<Member>, j: nat)
    requires j < |nodes| && !nodes[j].running && nodes[j].role == Server && nodes[j].isInit
    ensures InitOf(nodes) == Some(j) <==>
            forall k | j < k < |nodes| :: nodes[k].running || nodes[k].role != Server || !nodes[k].isInit
  {
    PositionsMeaning(nodes, IsInitServer);
    var inits := Positions(nodes, IsInitServer);
    var last := inits[|inits| - 1];
    assert IsInitServer(nodes[last]);
    if last != j {
      assert j in inits;
    } else {
      forall k | j < k < |nodes| ensures !IsInitServer(nodes[k]) {
        assert k !in inits;
      }
    }
  }

  /**
   When a node is started, it was stopped and is started for the first time; it is no init server before
   another one; the last init server is ready if it is another node; all other servers are ready if it is
   none; and all agents are ready if it is neither server nor agent.
   */
  lemma WhenStarted(nodes: seq<Member>, intent: Intent, hostNetwork: bool, ok: bool, log: seq<Event>, p: nat, i: nat)
    requires Completes(nodes, intent, hostNetwork, ok, log)
    requires p < |log| && log[p] == Started(i)
    ensures i < |nodes| && !nodes[i].running && Started(i) !in log[..p]
    ensures nodes[i].role == Server && nodes[i].isInit ==>
              forall k | i < k < |nodes| :: nodes[k].running || nodes[k].role != Server || !nodes[k].isInit
    ensures forall j: nat | j < |nodes| && j != i && !nodes[j].running ::
              && (nodes[j].role == Server && nodes[j].isInit &&
                  (forall k | j < k < |nodes| :: nodes[k].running || nodes[k].role != Server || !nodes[k].isInit) ==>
                    Ready(j) in log[..p])
              && (nodes[i].role != Server && nodes[j].role == Server && !nodes[j].isInit ==> Ready(j) in log[..p])
              && (nodes[i].role != Server && nodes[i].role != Agent && nodes[j].role == Agent ==> Ready(j) in log[..p])
  {
    StartGuarantees(nodes, intent, hostNetwork, ok, log, i);
    hide Completes, InitOf;
    assert log[p] in multiset(log);
    assert Planned(nodes, i);
    if Started(i) in log[..p] {
      StartedTwice(log, p, Started(i));
      assert false;
    }
    if IsInitServer(nodes[i]) {
      LastInitIs(nodes, i);
    }
    forall j: nat | j < |nodes| && j != i && !nodes[j].running && IsInitServer(nodes[j]) ensures
        InitOf(nodes) == Some(j) <==>
        forall k | j < k < |nodes| :: nodes[k].running || nodes[k].role != Server || !nodes[k].isInit
    {
      LastInitIs(nodes, j);
    }
    forall j: nat | Planned(nodes, j) && MustPrecede(nodes, j, i) ensures Ready(j) in log[..p] {
      assert ComesFirst(nodes, j, i);
    }
  }

  lemma StartedTwice(log: seq<Event>, p: nat, e: Event)
    requires p < |log| && log[p] == e && e in log[..p]
    ensures multiset(log)[e] >= 2
  {
    assert log == log[..p] + [e] + log[p + 1..];
    assert e in multiset(log[..p]);
  }

  /** A stopped server is ready before another one is started whose name comes after its own. */
  lemma WhenServerStarted(nodes: seq<Member>, intent: Intent, hostNetwork: bool, ok: bool, log: seq<Event>,
                          p: nat, i: nat, j: nat, k: nat)
    requires Completes(nodes, intent, hostNetwork, ok, log)
    requires p < |log| && log[p] == Started(i) && i < |nodes| && nodes[i].role == Server && !nodes[i].isInit
    requires j < |nodes| && !nodes[j].running && nodes[j].role == Server && !nodes[j].isInit
    requires var s, t := nodes[j].name, nodes[i].name;
             s < t || (k < |s| && k < |t| && s[..k] == t[..k] && s[k] < t[k])
    ensures Ready(j) in log[..p]
  {
    hide PerformsRun, NameLeq;
    NotAfter(nodes[j].name, nodes[i].name, k);
    var stages :| Performs(nodes, intent, stages, log) && (ok ==> stages);
    var servers: seq<nat>, run: seq<State> :| PerformsRun(nodes, intent, stages, log, servers, run);
    NamesDecide(nodes, intent, stages, log, servers, run, p, i, j);
  }

  lemma NamesDecide(nodes: seq<Member>, intent: Intent, stages: bool, log: seq<Event>,
                    servers: seq<nat>, run: seq<State>, p: nat, i: nat, j: nat)
    requires PerformsRun(nodes, intent, stages, log, servers, run)
    requires i < |nodes| && nodes[i].role == Server && !nodes[i].isInit && p < |log| && log[p] == Started(i)
    requires j < |nodes| && IsServer(nodes[j]) && !NameLeq(nodes[i].name, nodes[j].name)
    ensures Ready(j) in log[..p]
  {
    hide IsRun, NameLeq, Positions, InitOf, StartPlan, PlanOf;
    var last := |run| - 1;
    OnlyPlannedStarted(nodes, intent, servers, run, last, i);
    PositionsMeaning(nodes, IsServer);
    InOrder(nodes, servers, i);
    InOrder(nodes, servers, j);
    var a :| 0 <= a < |servers| && servers[a] == j;
    var b :| 0 <= b < |servers| && servers[b] == i;
    NameLeqRefl(nodes[i].name);
    ServersInNameOrder(nodes, intent, servers, run, last, p, a, b);
    var q :| 0 <= q < p && log[q] == Ready(j);
    assert log[..p][q] == Ready(j);
  }

  lemma {:induction false} NameLeqRefl(a: string)
    ensures NameLeq(a, a)
  {
    if a != "" {
      NameLeqRefl(a[1..]);
    }
  }

  lemma InOrder(nodes: seq<Member>, servers: seq<nat>, i: nat)
    requires IsServerOrder(nodes, servers) && i < |nodes| && IsServer(nodes[i])
    ensures i in servers
  {
    PositionsMeaning(nodes, IsServer);
    assert i in multiset(Positions(nodes, IsServer));
  }

  /** A name that comes before another one does not come after it. */
  lemma {:induction false} NotAfter(s: string, t: string, k: nat)
    requires s < t || (k < |s| && k < |t| && s[..k] == t[..k] && s[k] < t[k])
    ensures !NameLeq(t, s)
    decreases |s|
  {
    if s < t {
      if s != "" {
        NotAfter(s[1..], t[1..], 0);
      }
    } else if k > 0 {
      assert s[0] == s[..k][0] == t[..k][0] == t[0];
      assert s[1..][..k - 1] == s[..k][1..] && t[1..][..k - 1] == t[..k][1..];
      NotAfter(s[1..], t[1..], k - 1);
    }
  }

  /**
   A successful start has started every stopped node once, except init servers before the last one, and has
   seen every one of them ready that is a server, an agent or a load balancer.
   */
  lemma AfterSuccess(nodes: seq<Member>, intent: Intent, hostNetwork: bool, log: seq<Event>, i: nat)
    requires Completes(nodes, intent, hostNetwork, true, log)
    requires i < |nodes| && !nodes[i].running
    requires nodes[i].role == Server && nodes[i].isInit ==>
               forall k | i < k < |nodes| :: nodes[k].running || nodes[k].role != Server || !nodes[k].isInit
    ensures multiset(log)[Started(i)] == 1
    ensures nodes[i].role in {Server, Agent, LoadBalancer} ==> Ready(i) in log
  {
    hide PerformsRun;
    if IsInitServer(nodes[i]) {
      LastInitIs(nodes, i);
    }
    assert Planned(nodes, i);
    hide InitOf, Planned;
    StartGuarantees(nodes, intent, hostNetwork, true, log, i);
    var servers: seq<nat>, run: seq<State> :| PerformsRun(nodes, intent, true, log, servers, run);
    SeenReady(nodes, intent, log, servers, run, i);
  }

  lemma SeenReady(nodes: seq<Member>, intent: Intent, log: seq<Event>, servers: seq<nat>, run: seq<State>, i: nat)
    requires PerformsRun(nodes, intent, true, log, servers, run) && Planned(nodes, i)
    ensures nodes[i].role in {Server, Agent, LoadBalancer} ==> Ready(i) in log
  {
    hide IsRun, PlanOf, StartPlan, InitOf, Planned, IsServerOrder, Positions, Plan.Valid;
    PlanValid(nodes, intent, servers);
    Stages(nodes, intent, servers);
    var g := PlannedStage(nodes, intent, servers, i);
    ReadyMessageExists(nodes[i].role, nodes[i].isInit, intent);
    SuccessStartsAll(StartPlan(nodes, intent, servers), run, |run| - 1, i, g);
  }

  /** Only servers, agents and load balancers are awaited, and a node is seen ready only after it was started. */
  lemma WhenReady(nodes: seq<Member>, intent: Intent, hostNetwork: bool, ok: bool, log: seq<Event>, i: nat)
    requires Completes(nodes, intent, hostNetwork, ok, log) && Ready(i) in log
    ensures i < |nodes| && !nodes[i].running && nodes[i].role in {Server, Agent, LoadBalancer}
    ensures Started(i) in log
  {
    hide PerformsRun;
    var stages :| Performs(nodes, intent, stages, log) && (ok ==> stages);
    var servers: seq<nat>, run: seq<State> :| PerformsRun(nodes, intent, stages, log, servers, run);
    AwaitedIs(nodes, intent, stages, log, servers, run, i);
  }

  lemma AwaitedIs(nodes: seq<Member>, intent: Intent, stages: bool, log: seq<Event>,
                  servers: seq<nat>, run: seq<State>, i: nat)
    requires PerformsRun(nodes, intent, stages, log, servers, run) && Ready(i) in log
    ensures i < |nodes| && !nodes[i].running && nodes[i].role in {Server, Agent, LoadBalancer} && Started(i) in log
  {
    hide IsRun, PlanOf, StartPlan, InitOf, IsServerOrder, Positions, Plan.Valid;
    PlanValid(nodes, intent, servers);
    Stages(nodes, intent, servers);
    ReadyOnlyAwaited(StartPlan(nodes, intent, servers), run, |run| - 1, i);
    OnlyPlannedStarted(nodes, intent, servers, run, |run| - 1, i);
  }

  /**
   In the network of the host, and without a stopped agent or server other than an init server, a start fails
   only if one of the stages has failed.
   */
  lemma WithoutPreparation(nodes: seq<Member>, intent: Intent, hostNetwork: bool, ok: bool, log: seq<Event>)
    requires Completes(nodes, intent, hostNetwork, ok, log)
    requires hostNetwork || forall i | 0 <= i < |nodes| ::
               nodes[i].running || (nodes[i].role != Agent && (nodes[i].role != Server || nodes[i].isInit))
    ensures Performs(nodes, intent, ok, log)
  {
    hide Performs;
  }
}
