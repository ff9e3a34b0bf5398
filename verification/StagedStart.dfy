/**
 Starting groups of nodes one after another, the nodes of a group concurrently.

 A state machine over the steps of the goroutines: in each state any active node may take its
 next step or fail, in any order.  A group is left only when every node in it has returned,
 and the next one is entered only if none of them failed.
 */
module StagedStart {

  datatype Event = Started(node: nat) | Ready(node: nat)

  /** How far the call that starts a node has come. */
  datatype Progress =
    | Idle      // not called yet
    | Begun     // called, container not started
    | Up        // container started
    | Seen      // ready message seen
    | Finished  // returned without error
    | Broken    // returned an error

  datatype Outcome = Pending | Success | Failure

  datatype State = State(stage: nat, progress: seq<Progress>, log: seq<Event>, outcome: Outcome)

  datatype Move = Start(node: nat) | See(node: nat) | Return(node: nat) | Break(node: nat) | Advance

  /** The groups of nodes in their order, and for which nodes the ready message is awaited. */
  datatype Plan = Plan(stages: seq<seq<nat>>, waits: seq<bool>) {
    /** Every node is in at most one place of one group. */
    ghost predicate Valid() {
      && |stages| > 0
      && (forall g, a | 0 <= g < |stages| && 0 <= a < |stages[g]| :: stages[g][a] < |waits|)
      && (forall g, a, h, b | 0 <= g < |stages| && 0 <= a < |stages[g]| && 0 <= h < |stages| && 0 <= b < |stages[h]|
            && stages[g][a] == stages[h][b] :: g == h && a == b)
    }

    /** Node `i` is in group `g`. */
    predicate InStage(i: int, g: int) { 0 <= g < |stages| && 0 <= i < |waits| && i in stages[g] }
  }

  lemma OneStage(plan: Plan, i: int, g: int, h: int)
    requires plan.Valid() && plan.InStage(i, g) && plan.InStage(i, h)
    ensures g == h
  {
    var a :| 0 <= a < |plan.stages[g]| && plan.stages[g][a] == i;
    var b :| 0 <= b < |plan.stages[h]| && plan.stages[h][b] == i;
  }

  // ---------- the machine ----------

  function Begin(progress: seq<Progress>, nodes: seq<nat>): (r: seq<Progress>)
    ensures |r| == |progress|
    ensures forall i | 0 <= i < |r| :: r[i] == if i in nodes then Begun else progress[i]
  {
    seq(|progress|, i requires 0 <= i < |progress| => if i in nodes then Begun else progress[i])
  }

  function Initial(plan: Plan): State
    requires |plan.stages| > 0
  {
    var idle := seq(|plan.waits|, _ => Idle);
    State(0, Begin(idle, plan.stages[0]), [], Pending)
  }

  predicate Active(plan: Plan, s: State, i: nat) {
    s.outcome.Pending? && plan.InStage(i, s.stage) && i < |s.progress|
  }

  predicate AllReturned(plan: Plan, s: State) {
    s.stage < |plan.stages| &&
    forall i | i in plan.stages[s.stage] :: i < |s.progress| && (s.progress[i].Finished? || s.progress[i].Broken?)
  }

  predicate AnyBroken(plan: Plan, s: State) {
    s.stage < |plan.stages| && exists i | i in plan.stages[s.stage] :: i < |s.progress| && s.progress[i].Broken?
  }

  predicate Enabled(plan: Plan, s: State, m: Move) {
    match m
    case Start(i) => Active(plan, s, i) && s.progress[i].Begun?
    case See(i) => Active(plan, s, i) && s.progress[i].Up? && plan.waits[i]
    case Return(i) => Active(plan, s, i) && (s.progress[i].Seen? || (s.progress[i].Up? && !plan.waits[i]))
    case Break(i) => Active(plan, s, i) && (s.progress[i].Begun? || s.progress[i].Up? || s.progress[i].Seen?)
    case Advance => s.outcome.Pending? && AllReturned(plan, s)
  }

  function Apply(plan: Plan, s: State, m: Move): State
    requires Enabled(plan, s, m)
  {
    match m
    case Start(i) => s.(progress := s.progress[i := Up], log := s.log + [Started(i)])
    case See(i) => s.(progress := s.progress[i := Seen], log := s.log + [Ready(i)])
    case Return(i) => s.(progress := s.progress[i := Finished])
    case Break(i) => s.(progress := s.progress[i := Broken])
    case Advance =>
      if AnyBroken(plan, s) then s.(outcome := Failure)
      else if s.stage + 1 == |plan.stages| then s.(stage := s.stage + 1, outcome := Success)
      else s.(stage := s.stage + 1, progress := Begin(s.progress, plan.stages[s.stage + 1]))
  }

  ghost predicate Next(plan: Plan, s: State, s': State) {
    exists m :: Enabled(plan, s, m) && s' == Apply(plan, s, m)
  }

  /** A run from the beginning, with any interleaving and any failures. */
  ghost predicate IsRun(plan: Plan, run: seq<State>) {
    && |plan.stages| > 0
    && |run| > 0
    && run[0] == Initial(plan)
    && forall k | 0 <= k < |run| - 1 :: Next(plan, run[k], run[k + 1])
  }

  // ---------- what every run keeps ----------

  /** A node is started only after all awaited nodes of all earlier groups were ready. */
  ghost predicate InOrder(plan: Plan, log: seq<Event>) {
    forall p, g, h, j |
      0 <= p < |log| && log[p].Started? && plan.InStage(log[p].node, g) && h < g && plan.InStage(j, h)
      && plan.waits[j] ::
        Ready(j) in log[..p]
  }

  /** How often a node has been started, as far as its progress tells. */
  predicate StartCount(p: Progress, count: nat) {
    match p
    case Idle => count == 0
    case Begun => count == 0
    case Broken => count <= 1
    case _ => count == 1
  }

  /** The progress of the nodes fits the group the machine is in. */
  ghost predicate StageInv(plan: Plan, s: State) {
    && |s.progress| == |plan.waits|
    && s.stage <= |plan.stages|
    && (s.stage == |plan.stages| <==> s.outcome.Success?)
    && (forall i, g | plan.InStage(i, g) && g < s.stage :: s.progress[i].Finished?)
    && (forall i, g | plan.InStage(i, g) && g > s.stage :: s.progress[i].Idle?)
    && (forall i, g | plan.InStage(i, g) && g == s.stage :: !s.progress[i].Idle?)
    && (forall i | 0 <= i < |s.progress| && (forall g :: !plan.InStage(i, g)) :: s.progress[i].Idle?)
    && (s.outcome.Failure? ==> AnyBroken(plan, s))
  }

  /** The log fits the progress of the nodes. */
  ghost predicate LogInv(plan: Plan, s: State) {
    && |s.progress| == |plan.waits|
    && (forall i | 0 <= i < |s.progress| :: StartCount(s.progress[i], multiset(s.log)[Started(i)]))
    && (forall e | e in s.log :: e.node < |s.progress|)
    && (forall i | 0 <= i < |s.progress| && s.progress[i].Seen? :: Ready(i) in s.log)
    && (forall i | 0 <= i < |s.progress| && s.progress[i].Finished? && plan.waits[i] :: Ready(i) in s.log)
    && InOrder(plan, s.log)
  }

  ghost predicate Inv(plan: Plan, s: State) {
    plan.Valid() && StageInv(plan, s) && LogInv(plan, s)
  }

  lemma InitialInv(plan: Plan)
    requires plan.Valid()
    ensures Inv(plan, Initial(plan))
  {
    var s := Initial(plan);
    forall i, g | plan.InStage(i, g) && g > 0 ensures s.progress[i].Idle? {
      if i in plan.stages[0] {
        OneStage(plan, i, g, 0);
      }
    }
    forall i | 0 <= i < |s.progress| && (forall g :: !plan.InStage(i, g)) ensures s.progress[i].Idle? {
      assert !plan.InStage(i, 0);
    }
  }

  /** Moves other than `Advance` change the progress of one active node. */
  lemma NodeMoveStage(plan: Plan, s: State, m: Move)
    requires Inv(plan, s) && Enabled(plan, s, m) && !m.Advance?
    ensures StageInv(plan, Apply(plan, s, m))
  {
    hide LogInv, InOrder;
    var s', i := Apply(plan, s, m), m.node;
    forall j, g | plan.InStage(j, g) && g != s.stage ensures j != i {
      if j == i {
        OneStage(plan, i, g, s.stage);
      }
    }
    assert plan.InStage(i, s.stage);
  }

  lemma AdvanceStage(plan: Plan, s: State)
    requires Inv(plan, s) && Enabled(plan, s, Advance)
    ensures StageInv(plan, Apply(plan, s, Advance))
  {
    hide LogInv, InOrder;
    var s' := Apply(plan, s, Advance);
    if !AnyBroken(plan, s) {
      forall i, g | plan.InStage(i, g) && g <= s.stage ensures s'.progress[i].Finished? {
        if g == s.stage {
          assert s.progress[i].Finished?;
        }
        if s'.stage < |plan.stages| && i in plan.stages[s'.stage] {
          OneStage(plan, i, g, s'.stage);
        }
      }
      forall i, g | plan.InStage(i, g) && g > s'.stage ensures s'.progress[i].Idle? {
        if s'.stage < |plan.stages| && i in plan.stages[s'.stage] {
          OneStage(plan, i, g, s'.stage);
        }
      }
      forall i | 0 <= i < |s'.progress| && (forall g :: !plan.InStage(i, g)) ensures s'.progress[i].Idle? {
        assert !plan.InStage(i, s'.stage);
      }
    }
  }

  /** Starting an active node is in order, because all earlier groups have finished. */
  lemma StartInOrder(plan: Plan, s: State, i: nat)
    requires Inv(plan, s) && Active(plan, s, i)
    ensures InOrder(plan, s.log + [Started(i)])
  {
    var log := s.log + [Started(i)];
    forall p, g, h, j |
      0 <= p < |log| && log[p].Started? && plan.InStage(log[p].node, g) && h < g && plan.InStage(j, h) && plan.waits[j]
      ensures Ready(j) in log[..p]
    {
      if p < |s.log| {
        assert log[..p] == s.log[..p];
      } else {
        OneStage(plan, i, g, s.stage);
        assert log[..p] == s.log;
      }
    }
  }

  lemma ReadyInOrder(plan: Plan, s: State, i: nat)
    requires Inv(plan, s)
    ensures InOrder(plan, s.log + [Ready(i)])
  {
    var log := s.log + [Ready(i)];
    forall p, g, h, j |
      0 <= p < |log| && log[p].Started? && plan.InStage(log[p].node, g) && h < g && plan.InStage(j, h) && plan.waits[j]
      ensures Ready(j) in log[..p]
    {
      assert log[..p] == s.log[..p];
    }
  }

  /** An event is logged for the active node it belongs to. */
  lemma EventLog(plan: Plan, s: State, m: Move)
    requires Inv(plan, s) && Enabled(plan, s, m) && (m.Start? || m.See?)
    ensures LogInv(plan, Apply(plan, s, m))
  {
    hide InOrder, StageInv;
    var s' := Apply(plan, s, m);
    var e := if m.Start? then Started(m.node) else Ready(m.node);
    if m.Start? {
      StartInOrder(plan, s, m.node);
    } else {
      ReadyInOrder(plan, s, m.node);
    }
    assert s'.log == s.log + [e];
    forall i | 0 <= i < |s'.progress| ensures StartCount(s'.progress[i], multiset(s'.log)[Started(i)]) {
      assert multiset(s'.log) == multiset(s.log) + multiset{e};
    }
  }

  lemma ReturnLog(plan: Plan, s: State, m: Move)
    requires Inv(plan, s) && Enabled(plan, s, m) && (m.Return? || m.Break?)
    ensures LogInv(plan, Apply(plan, s, m))
  {
    hide InOrder, StageInv;
  }

  lemma MoveLog(plan: Plan, s: State, m: Move)
    requires Inv(plan, s) && Enabled(plan, s, m)
    ensures LogInv(plan, Apply(plan, s, m))
  {
    hide LogInv, StageInv;
    match m {
      case Start(_) => EventLog(plan, s, m);
      case See(_) => EventLog(plan, s, m);
      case Return(_) => ReturnLog(plan, s, m);
      case Break(_) => ReturnLog(plan, s, m);
      case Advance => AdvanceLog(plan, s);
    }
  }

  lemma AdvanceLog(plan: Plan, s: State)
    requires Inv(plan, s) && Enabled(plan, s, Advance)
    ensures LogInv(plan, Apply(plan, s, Advance))
  {
    hide InOrder;
    var s' := Apply(plan, s, Advance);
    if !AnyBroken(plan, s) && s'.stage < |plan.stages| {
      forall i | i in plan.stages[s'.stage] ensures s.progress[i].Idle? {
        assert plan.InStage(i, s'.stage);
      }
    }
  }

  lemma StepInv(plan: Plan, s: State, s': State)
    requires Inv(plan, s) && Next(plan, s, s')
    ensures Inv(plan, s')
  {
    hide StageInv, LogInv;
    var m :| Enabled(plan, s, m) && s' == Apply(plan, s, m);
    MoveLog(plan, s, m);
    if m.Advance? {
      AdvanceStage(plan, s);
    } else {
      NodeMoveStage(plan, s, m);
    }
  }

  /** The invariant holds in every state of every run. */
  lemma {:induction false} RunInv(plan: Plan, run: seq<State>, k: nat)
    requires plan.Valid() && IsRun(plan, run) && k < |run|
    ensures Inv(plan, run[k])
  {
    hide Inv;
    if k == 0 {
      InitialInv(plan);
    } else {
      RunInv(plan, run, k - 1);
      assert Next(plan, run[k - 1], run[k - 1 + 1]);
      StepInv(plan, run[k - 1], run[k]);
    }
  }

  // ---------- the main results ----------

  /**
   Safety for every interleaving and failure: whenever a node is started, every awaited node
   of every earlier group had become ready before.
   */
  lemma StartsInOrder(plan: Plan, run: seq<State>, k: nat, p: nat, i: nat, g: int, j: nat, h: int)
    requires plan.Valid() && IsRun(plan, run) && k < |run|
    requires p < |run[k].log| && run[k].log[p] == Started(i)
    requires plan.InStage(i, g) && plan.InStage(j, h) && h < g
    requires plan.waits[j]
    ensures exists q | 0 <= q < p :: run[k].log[q] == Ready(j)
  {
    RunInv(plan, run, k);
    assert Ready(j) in run[k].log[..p];
  }

  /** No node is ever started twice. */
  lemma StartedOnce(plan: Plan, run: seq<State>, k: nat, i: nat)
    requires plan.Valid() && IsRun(plan, run) && k < |run|
    ensures multiset(run[k].log)[Started(i)] <= 1
    ensures Started(i) in run[k].log ==> exists g :: plan.InStage(i, g) && g <= run[k].stage
  {
    RunInv(plan, run, k);
    var s := run[k];
    if Started(i) in s.log {
      assert Started(i).node < |s.progress|;
      assert !s.progress[i].Idle?;
      var g :| plan.InStage(i, g);
    }
  }

  /** A successful run has started every planned node exactly once. */
  lemma SuccessStartsAll(plan: Plan, run: seq<State>, k: nat, i: nat, g: int)
    requires plan.Valid() && IsRun(plan, run) && k < |run| && run[k].outcome.Success?
    requires plan.InStage(i, g)
    ensures multiset(run[k].log)[Started(i)] == 1
    ensures plan.waits[i] ==> Ready(i) in run[k].log
  {
    RunInv(plan, run, k);
    OneStage(plan, i, g, g);
    assert run[k].progress[i].Finished?;
  }

  /** Only awaited nodes are seen ready, and only after they were started. */
  lemma {:induction false} ReadyOnlyAwaited(plan: Plan, run: seq<State>, k: nat, i: nat)
    requires plan.Valid() && IsRun(plan, run) && k < |run| && Ready(i) in run[k].log
    ensures i < |plan.waits| && plan.waits[i] && Started(i) in run[k].log
  {
    hide Inv, Next;
    if k == 0 {
      NothingLogged(plan);
    } else {
      assert Next(plan, run[k - 1], run[k - 1 + 1]);
      RunInv(plan, run, k - 1);
      if Ready(i) in run[k - 1].log {
        ReadyOnlyAwaited(plan, run, k - 1, i);
      }
      NextReady(plan, run[k - 1], run[k], i);
    }
  }

  lemma NothingLogged(plan: Plan)
    requires |plan.stages| > 0
    ensures Initial(plan).log == []
  {}

  lemma NextReady(plan: Plan, s: State, s': State, i: nat)
    requires Inv(plan, s) && Next(plan, s, s')
    ensures forall e | e in s.log :: e in s'.log
    ensures Ready(i) in s'.log && Ready(i) !in s.log ==>
              i < |plan.waits| && plan.waits[i] && Started(i) in s'.log
  {
    hide StageInv, InOrder;
    var m :| Enabled(plan, s, m) && s' == Apply(plan, s, m);
    if m == See(i) {
      assert StartCount(s.progress[i], multiset(s.log)[Started(i)]);
      assert Started(i) in multiset(s.log);
    }
  }

  /** A failed run has started nothing of the groups after the one that failed. */
  lemma FailureStopsHere(plan: Plan, run: seq<State>, k: nat, i: nat, g: int)
    requires plan.Valid() && IsRun(plan, run) && k < |run| && run[k].outcome.Failure?
    requires plan.InStage(i, g) && g > run[k].stage
    ensures Started(i) !in run[k].log
    ensures AnyBroken(plan, run[k])
  {
    RunInv(plan, run, k);
    OneStage(plan, i, g, g);
    assert run[k].progress[i].Idle?;
  }

  // ---------- progress ----------

  /** The steps a node may still take. */
  function Rank(p: Progress): nat {
    match p
    case Begun => 3
    case Up => 2
    case Seen => 1
    case _ => 0
  }

  function Remaining(progress: seq<Progress>, nodes: seq<nat>): nat {
    if nodes == [] then 0
    else (if nodes[0] < |progress| then Rank(progress[nodes[0]]) else 0) + Remaining(progress, nodes[1..])
  }

  lemma {:induction false} RemainingUpdate(progress: seq<Progress>, nodes: seq<nat>, i: nat, p: Progress)
    requires i < |progress| && Rank(p) < Rank(progress[i])
    ensures Remaining(progress[i := p], nodes) <= Remaining(progress, nodes)
    ensures i in nodes ==> Remaining(progress[i := p], nodes) < Remaining(progress, nodes)
  {
    if nodes != [] {
      RemainingUpdate(progress, nodes[1..], i, p);
    }
  }

  /**
   As long as a run has not ended, some move is possible that is not a failure: what keeps a
   stage from its end can start, become ready or return, or the stage is over.
   */
  lemma NoDeadlock(plan: Plan, run: seq<State>, k: nat)
    requires plan.Valid() && IsRun(plan, run) && k < |run| && run[k].outcome.Pending?
    ensures exists m :: Enabled(plan, run[k], m) && !m.Break?
  {
    RunInv(plan, run, k);
    var s := run[k];
    if AllReturned(plan, s) {
      assert Enabled(plan, s, Advance);
    } else {
      var i :| i in plan.stages[s.stage] && !(s.progress[i].Finished? || s.progress[i].Broken?);
      assert plan.InStage(i, s.stage);
      if s.progress[i].Begun? {
        assert Enabled(plan, s, Start(i));
      } else if s.progress[i].Up? && plan.waits[i] {
        assert Enabled(plan, s, See(i));
      } else {
        assert Enabled(plan, s, Return(i));
      }
    }
  }

  /** Extending a run by one move. */
  lemma Extend(plan: Plan, run: seq<State>, m: Move)
    requires plan.Valid() && IsRun(plan, run) && Enabled(plan, run[|run| - 1], m)
    ensures IsRun(plan, run + [Apply(plan, run[|run| - 1], m)])
  {
    var longer := run + [Apply(plan, run[|run| - 1], m)];
    forall k | 0 <= k < |longer| - 1 ensures Next(plan, longer[k], longer[k + 1]) {
      if k < |run| - 1 {
        assert Next(plan, run[k], run[k + 1]);
      }
    }
  }

  /** Some active node takes its next step or fails. */
  method NodeStep(plan: Plan, s: State) returns (m: Move)
    requires plan.Valid() && StageInv(plan, s) && s.outcome.Pending? && !AllReturned(plan, s)
    ensures !m.Advance? && Enabled(plan, s, m)
  {
    var i :| i in plan.stages[s.stage] && !(i < |s.progress| && (s.progress[i].Finished? || s.progress[i].Broken?));
    assert plan.InStage(i, s.stage);
    m := Break(i);
    if * {
      if s.progress[i].Begun? {
        m := Start(i);
      } else if s.progress[i].Up? && plan.waits[i] {
        m := See(i);
      } else {
        m := Return(i);
      }
    }
  }

  lemma StepDecreases(plan: Plan, s: State, m: Move)
    requires plan.Valid() && Enabled(plan, s, m) && !m.Advance?
    ensures var s' := Apply(plan, s, m);
            && s'.stage == s.stage && s'.outcome == s.outcome
            && Remaining(s'.progress, plan.stages[s.stage]) < Remaining(s.progress, plan.stages[s.stage])
  {
    RemainingUpdate(s.progress, plan.stages[s.stage], m.node, Apply(plan, s, m).progress[m.node]);
  }

  /** Runs the nodes of one group, in any interleaving, until all their calls have returned. */
  method RunGroup(plan: Plan, s0: State, ghost run0: seq<State>) returns (s: State, ghost run: seq<State>)
    requires plan.Valid() && IsRun(plan, run0) && run0[|run0| - 1] == s0 && s0.outcome.Pending?
    ensures IsRun(plan, run) && run[|run| - 1] == s && run0 <= run
    ensures s.outcome.Pending? && s.stage == s0.stage && AllReturned(plan, s)
  {
    hide LogInv, StageInv;
    s, run := s0, run0;
    RunInv(plan, run, |run| - 1);
    StageBound(plan, s);
    while !AllReturned(plan, s)
      invariant IsRun(plan, run) && run[|run| - 1] == s && run0 <= run
      invariant s.outcome.Pending? && s.stage == s0.stage && Inv(plan, s)
      decreases Remaining(s.progress, plan.stages[s.stage])
    {
      hide IsRun, Next, Enabled, Apply, AllReturned;
      var m := NodeStep(plan, s);
      var s' := Apply(plan, s, m);
      StepDecreases(plan, s, m);
      Extend(plan, run, m);
      assert Next(plan, s, s') by { NextBy(plan, s, m); }
      StepInv(plan, s, s');
      s, run := s', run + [s'];
    }
  }

  lemma NextBy(plan: Plan, s: State, m: Move)
    requires Enabled(plan, s, m)
    ensures Next(plan, s, Apply(plan, s, m))
  {}

  lemma StageBound(plan: Plan, s: State)
    requires StageInv(plan, s) && s.outcome.Pending?
    ensures s.stage < |plan.stages|
  {}

  /** Waits for a group and then either goes on to the next one or gives up. */
  method FinishGroup(plan: Plan, s0: State, ghost run0: seq<State>)
    returns (ok: bool, s: State, ghost run: seq<State>)
    requires plan.Valid() && IsRun(plan, run0) && run0[|run0| - 1] == s0 && s0.outcome.Pending?
    requires s0.stage < |plan.stages|
    ensures IsRun(plan, run) && run[|run| - 1] == s && run0 <= run
    ensures ok ==> s.stage == s0.stage + 1 && (s.outcome.Pending? <==> s.stage < |plan.stages|) && !s.outcome.Failure?
    ensures !ok ==> s.outcome.Failure?
  {
    s, run := RunGroup(plan, s0, run0);
    Extend(plan, run, Advance);
    s := Apply(plan, s, Advance);
    run := run + [s];
    ok := !s.outcome.Failure?;
  }
}
