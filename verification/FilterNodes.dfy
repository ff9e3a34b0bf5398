/**
 Which nodes a list of node filters selects.

 `Denotation` is the meaning of a filter list; `FilterNodes` and `FilterNodesWithSuffix`
 are the loops of the program.  Nodes are references, so "already selected" is decided by
 identity, as in the program.
 */
module FilterNodes {
  import opened NodeFilter
  import opened Strings
  import opened Types
  import opened Wrappers

  const MAX_INT := 0x7FFF_FFFF_FFFF_FFFF

  // ---------- groups of nodes ----------

  function OfRole(nodes: seq<Node>, role: Role): (r: seq<Node>)
    ensures forall n | n in r :: n in nodes && n.role == role
  {
    if nodes == [] then []
    else
      var front, last := OfRole(nodes[..|nodes| - 1], role), nodes[|nodes| - 1];
      if last.role == role then front + [last] else front
  }

  /** The node used as the load balancer: the last one of that role. */
  function LoadBalancerOf(nodes: seq<Node>): Option<Node> {
    var lbs := OfRole(nodes, LoadBalancer);
    if lbs == [] then None else Some(lbs[|lbs| - 1])
  }

  function GroupNodes(nodes: seq<Node>, group: string): seq<Node> {
    if group == "server" || group == "servers" then OfRole(nodes, Server)
    else if group == "agent" || group == "agents" then OfRole(nodes, Agent)
    else []
  }

  // ---------- subsets ----------

  /** The number a digit string denotes, if it fits a 64-bit integer. */
  function Atoi(s: string): Option<nat>
    requires AllDigits(s)
  {
    if DecimalValue(s) <= MAX_INT then Some(DecimalValue(s)) else None
  }

  /** The indices a comma-separated list picks out of a group of `n` nodes. */
  function ListIndices(pieces: seq<string>, n: nat): (r: Option<seq<nat>>)
    requires forall i | 0 <= i < |pieces| :: AllDigits(pieces[i])
    ensures r.Some? ==> forall i | 0 <= i < |r.value| :: r.value[i] < n
  {
    if pieces == [] then Some([])
    else
      var front, last := ListIndices(pieces[..|pieces| - 1], n), pieces[|pieces| - 1];
      if front.None? then None
      else if last == "" then front
      else if Atoi(last).None? || Atoi(last).value >= n then None
      else Some(front.value + [Atoi(last).value])
  }

  function Interval(lo: int, hi: int): (r: seq<int>)
    ensures |r| == if lo <= hi then hi - lo + 1 else 0
    ensures forall i | 0 <= i < |r| :: r[i] == lo + i
    decreases hi - lo
  {
    if lo > hi then [] else Interval(lo, hi - 1) + [hi]
  }

  function DashAt(s: string): (i: nat)
    requires IsRange(s)
    ensures i < |s| && IsRangeAt(s, i)
  {
    var i :| 0 <= i < |s| && IsRangeAt(s, i);
    i
  }

  /** The first and last index of a range; an empty side stands for the end of the group. */
  function RangeBounds(from: string, to: string, n: nat): Option<(int, int)>
    requires AllDigits(from) && AllDigits(to)
  {
    if from != "" && (Atoi(from).None? || Atoi(from).value >= n) then None
    else
      var start := if from == "" then 0 else Atoi(from).value;
      if to == "" then Some((start, n - 1))
      else if Atoi(to).None? || Atoi(to).value < start || Atoi(to).value >= n then None
      else Some((start, Atoi(to).value))
  }

  /** The indices a subset picks out of a group of `n` nodes; `None` is an error. */
  function SubsetIndices(subset: string, n: nat): (r: Option<seq<int>>)
    ensures r.Some? ==> forall i | 0 <= i < |r.value| :: 0 <= r.value[i] < n
  {
    if IsList(subset) then ListIndices(Split(subset, ','), n)
    else if IsRange(subset) then
      var dash := DashAt(subset);
      match RangeBounds(subset[..dash], subset[dash + 1..], n)
      case None => None
      case Some(bounds) => Some(Interval(bounds.0, bounds.1))
    else if subset == "*" then Some(Interval(0, n - 1))
    else None
  }

  function At<T>(xs: seq<T>, indices: seq<int>): seq<T>
    requires forall i | 0 <= i < |indices| :: 0 <= indices[i] < |xs|
  {
    if indices == [] then [] else At(xs, indices[..|indices| - 1]) + [xs[indices[|indices| - 1]]]
  }

  lemma AtNone<T>(xs: seq<T>)
    ensures At(xs, []) == []
  {}

  // ---------- the meaning of filters ----------

  datatype Outcome = Selected(nodes: seq<Node>) | Error

  /** What one filter does: fail, select everything, select the load balancer, or add nodes. */
  datatype Step = Fail | TakeAll | TakeLoadBalancer(lb: Node) | Pick(chosen: seq<Node>)

  /** What a group and a subset select; the subset is empty when there is none. */
  function Plain(nodes: seq<Node>, group: string, subset: string): Step {
    if group == "all" then TakeAll
    else if group == "loadbalancer" then
      match LoadBalancerOf(nodes)
      case None => Fail
      case Some(lb) => TakeLoadBalancer(lb)
    else
      var members := GroupNodes(nodes, group);
      match SubsetIndices(subset, |members|)
      case None => Fail
      case Some(indices) => Pick(At(members, indices))
  }

  /** A filter without a suffix; one with a suffix is an error here. */
  function Meaning(nodes: seq<Node>, filter: string): Step {
    match FindSubmatch(filter)
    case None => Fail
    case Some(m) => if m.suffix != "" then Fail else Plain(nodes, m.group, m.subset)
  }

  predicate SameElements<T(==)>(a: seq<T>, b: seq<T>) {
    (forall x | x in a :: x in b) && (forall x | x in b :: x in a)
  }

  /** Every element once, at the place of its first occurrence. */
  function Dedup<T(==)>(xs: seq<T>): seq<T> {
    if xs == [] then []
    else
      var front, last := Dedup(xs[..|xs| - 1]), xs[|xs| - 1];
      if last in front then front else front + [last]
  }

  function Steps(nodes: seq<Node>, filters: seq<string>): (steps: seq<Step>)
    ensures |steps| == |filters|
  {
    if filters == [] then []
    else Steps(nodes, filters[..|filters| - 1]) + [Meaning(nodes, filters[|filters| - 1])]
  }

  /** The nodes picked by the first `k` steps, one after another. */
  function Picked(steps: seq<Step>, k: nat): seq<Node>
    requires k <= |steps|
    requires forall i | 0 <= i < k :: steps[i].Pick?
  {
    if k == 0 then [] else Picked(steps, k - 1) + steps[k - 1].chosen
  }

  /** The index of the first step that ends the evaluation, or the number of steps. */
  function FirstStop(steps: seq<Step>, from: nat := 0): (k: nat)
    requires from <= |steps|
    ensures from <= k <= |steps|
    ensures forall i | from <= i < k :: steps[i].Pick?
    ensures k < |steps| ==> !steps[k].Pick?
    decreases |steps| - from
  {
    if from == |steps| || !steps[from].Pick? then from else FirstStop(steps, from + 1)
  }

  predicate Unfiltered(filters: seq<string>) { filters == [] || filters[0] == "" }

  /** What the steps select: the picks up to the first step that ends the evaluation. */
  function Combine(nodes: seq<Node>, steps: seq<Step>): Outcome {
    var k := FirstStop(steps);
    var picked := Dedup(Picked(steps, k));
    if k == |steps| then Selected(picked)
    else
      match steps[k]
      case TakeAll => Selected(nodes)
      case TakeLoadBalancer(lb) => Selected(picked + [lb])
      case _ => Error
  }

  /** The nodes a list of filters selects. */
  function Denotation(nodes: seq<Node>, filters: seq<string>): Outcome {
    if Unfiltered(filters) then Selected(nodes) else Combine(nodes, Steps(nodes, filters))
  }

  lemma {:induction false} StepAt(nodes: seq<Node>, filters: seq<string>, i: nat)
    requires i < |filters|
    ensures Steps(nodes, filters)[i] == Meaning(nodes, filters[i])
  {
    hide Meaning;
    if i < |filters| - 1 {
      StepAt(nodes, filters[..|filters| - 1], i);
    }
  }

  /** Selecting without repetition, in the order of first occurrence. */
  ghost predicate IsDedupOf<T>(r: seq<T>, xs: seq<T>) {
    && (forall i, j | 0 <= i < j < |r| :: r[i] != r[j])
    && SameElements(r, xs)
    && (forall i, j | 0 <= i < j < |r| :: FirstIndex(xs, r[i]) < FirstIndex(xs, r[j]))
  }

  ghost function FirstIndex<T>(xs: seq<T>, x: T): (i: nat)
    ensures i <= |xs|
    ensures forall j | 0 <= j < i :: xs[j] != x
    ensures i < |xs| ==> xs[i] == x
  {
    if xs == [] || xs[0] == x then 0 else 1 + FirstIndex(xs[1..], x)
  }

  lemma FirstIndexUnique<T>(xs: seq<T>, x: T, i: nat)
    requires i < |xs| && xs[i] == x
    requires forall j | 0 <= j < i :: xs[j] != x
    ensures FirstIndex(xs, x) == i
  {}

  lemma {:induction false} DedupMeaning<T>(xs: seq<T>)
    ensures IsDedupOf(Dedup(xs), xs)
  {
    if xs != [] {
      var front, last := xs[..|xs| - 1], xs[|xs| - 1];
      DedupMeaning(front);
      assert xs == front + [last];
      DedupNext(Dedup(front), front, last);
    }
  }

  /** An element at the end does not change where the others occur first. */
  lemma FirstIndexAppend<T>(front: seq<T>, last: T, x: T)
    ensures x in front ==> FirstIndex(front + [last], x) == FirstIndex(front, x) < |front|
    ensures last !in front ==> FirstIndex(front + [last], last) == |front|
  {
    hide FirstIndex;
    if x in front {
      var i := FirstIndex(front, x);
      assert i < |front|;
      assert forall j | 0 <= j < i :: (front + [last])[j] == front[j];
      FirstIndexUnique(front + [last], x, i);
    }
    if last !in front {
      FirstIndexUnique(front + [last], last, |front|);
    }
  }

  /** One more element at the end is selected, or leaves the selection as it is. */
  lemma DedupNext<T>(r: seq<T>, front: seq<T>, last: T)
    requires IsDedupOf(r, front)
    ensures IsDedupOf(if last in r then r else r + [last], front + [last])
  {
    hide FirstIndex;
    var xs, r' := front + [last], if last in r then r else r + [last];
    forall i | 0 <= i < |r| ensures FirstIndex(xs, r[i]) == FirstIndex(front, r[i]) < |front| {
      assert r[i] in front;
      FirstIndexAppend(front, last, r[i]);
    }
    if last in r {
      assert r' == r && last in front;
    } else {
      assert last !in front;
      FirstIndexAppend(front, last, last);
      assert r'[|r|] == last;
    }
    assert SameElements(r', xs) by {
      assert forall x | x in r' :: x in r || x == last;
    }
  }

  /** The three conditions of `IsDedupOf` leave only one sequence. */
  lemma {:induction false} DedupUnique<T>(r: seq<T>, xs: seq<T>)
    requires IsDedupOf(r, xs)
    ensures r == Dedup(xs)
  {
    DedupMeaning(xs);
    SortedUnique(r, Dedup(xs), xs);
  }

  lemma {:induction false} SortedUnique<T>(a: seq<T>, b: seq<T>, xs: seq<T>)
    requires SameElements(a, b)
    requires forall i, j | 0 <= i < j < |a| :: FirstIndex(xs, a[i]) < FirstIndex(xs, a[j])
    requires forall i, j | 0 <= i < j < |b| :: FirstIndex(xs, b[i]) < FirstIndex(xs, b[j])
    ensures a == b
  {
    assert b == [] || b[0] in a;
    if a != [] {
      assert a[0] in b;
      assert b[0] in a;
      assert a[0] == b[0];
      forall x | x in a[1..] ensures x in b[1..] {
        assert x in b && FirstIndex(xs, x) > FirstIndex(xs, a[0]);
      }
      forall x | x in b[1..] ensures x in a[1..] {
        assert x in a && FirstIndex(xs, x) > FirstIndex(xs, b[0]);
      }
      SortedUnique(a[1..], b[1..], xs);
      assert a == [a[0]] + a[1..] && b == [b[0]] + b[1..];
    }
  }

  // ---------- the program ----------

  lemma EmptyDedup<T>()
    ensures Dedup<T>([]) == []
  {}

  lemma DedupAppend<T>(xs: seq<T>, x: T)
    ensures Dedup(xs + [x]) == if x in Dedup(xs) then Dedup(xs) else Dedup(xs) + [x]
  {
    assert (xs + [x])[..|xs|] == xs;
  }

  lemma {:induction false} ListIndicesPrefix(pieces: seq<string>, n: nat, k: nat)
    requires forall i | 0 <= i < |pieces| :: AllDigits(pieces[i])
    requires k <= |pieces| && ListIndices(pieces[..k], n).None?
    ensures ListIndices(pieces, n).None?
  {
    if k < |pieces| {
      assert pieces[..k] == pieces[..|pieces| - 1][..k];
      ListIndicesPrefix(pieces[..|pieces| - 1], n, k);
    } else {
      assert pieces[..k] == pieces;
    }
  }

  /** Appends one node of the group unless it has been selected already. */
  method SelectOne(group: seq<Node>, num: int, ghost before: seq<Node>, ghost indices: seq<int>,
                   filtered: seq<Node>, seen: set<Node>)
    returns (filtered': seq<Node>, seen': set<Node>)
    requires 0 <= num < |group|
    requires forall i | 0 <= i < |indices| :: 0 <= indices[i] < |group|
    requires filtered == Dedup(before + At(group, indices))
    requires seen == set n | n in filtered
    ensures filtered' == Dedup(before + At(group, indices + [num]))
    ensures seen' == set n | n in filtered'
  {
    hide Dedup;
    filtered', seen' := filtered, seen;
    if group[num] !in seen {
      filtered' := filtered + [group[num]];
      seen' := seen + {group[num]};
    }
    DedupAppend(before + At(group, indices), group[num]);
    assert (indices + [num])[..|indices|] == indices;
    assert before + At(group, indices + [num]) == before + At(group, indices) + [group[num]];
  }

  /** Subset by list: numbers in the order they are written. */
  lemma NoIndices(group: seq<Node>, before: seq<Node>, n: nat)
    ensures ListIndices([], n) == Some([]) && before + At(group, []) == before
  {}

  /** The indices of one more piece. */
  lemma ListIndicesNext(pieces: seq<string>, n: nat, k: nat)
    requires (forall i | 0 <= i < |pieces| :: AllDigits(pieces[i])) && k < |pieces|
    ensures var front, last := ListIndices(pieces[..k], n), pieces[k];
            ListIndices(pieces[..k + 1], n) ==
            if front.None? then None
            else if last == "" then front
            else if Atoi(last).None? || Atoi(last).value >= n then None
            else Some(front.value + [Atoi(last).value])
  {
    hide AllDigits;
    assert pieces[..k + 1][..k] == pieces[..k];
  }

  method SelectList(group: seq<Node>, pieces: seq<string>, ghost before: seq<Node>,
                    filtered: seq<Node>, seen: set<Node>)
    returns (ok: bool, filtered': seq<Node>, seen': set<Node>)
    requires forall i | 0 <= i < |pieces| :: AllDigits(pieces[i])
    requires filtered == Dedup(before) && seen == set n | n in filtered
    ensures ok <==> ListIndices(pieces, |group|).Some?
    ensures ok ==> filtered' == Dedup(before + At(group, ListIndices(pieces, |group|).value))
    ensures ok ==> seen' == set n | n in filtered'
  {
    hide Dedup, At, ListIndices, AllDigits;
    ok, filtered', seen' := true, filtered, seen;
    ghost var indices: seq<nat> := [];
    NoIndices(group, before, |group|);
    for k := 0 to |pieces|
      invariant forall i | 0 <= i < |indices| :: 0 <= indices[i] < |group|
      invariant ListIndices(pieces[..k], |group|) == Some(indices)
      invariant filtered' == Dedup(before + At(group, indices))
      invariant seen' == set n | n in filtered'
    {
      var index := pieces[k];
      ListIndicesNext(pieces, |group|, k);
      if index != "" {
        var num := Atoi(index);
        if num.None? || num.value >= |group| {
          ListIndicesPrefix(pieces, |group|, k + 1);
          return false, filtered', seen';
        }
        filtered', seen' := SelectOne(group, num.value, before, indices, filtered', seen');
        indices := indices + [num.value];
      }
    }
    assert pieces[..|pieces|] == pieces;
  }

  /** Subset by range: both sides are optional and must lie inside the group. */
  method SelectRange(group: seq<Node>, from: string, to: string, ghost before: seq<Node>,
                     filtered: seq<Node>, seen: set<Node>)
    returns (ok: bool, filtered': seq<Node>, seen': set<Node>)
    requires AllDigits(from) && AllDigits(to)
    requires filtered == Dedup(before) && seen == set n | n in filtered
    ensures ok <==> RangeBounds(from, to, |group|).Some?
    ensures ok ==> var (start, end) := RangeBounds(from, to, |group|).value;
                   filtered' == Dedup(before + At(group, Interval(start, end)))
    ensures ok ==> seen' == set n | n in filtered'
  {
    ok, filtered', seen' := true, filtered, seen;
    var start: int, end: int := 0, |group| - 1;
    if from != "" {
      var num := Atoi(from);
      if num.None? || num.value >= |group| {
        return false, filtered', seen';
      }
      start := num.value;
    }
    if to != "" {
      var num := Atoi(to);
      if num.None? || num.value < start || num.value >= |group| {
        return false, filtered', seen';
      }
      end := num.value;
    }
    filtered', seen' := SelectInterval(group, start, end, before, filtered, seen);
  }

  method SelectInterval(group: seq<Node>, start: int, end: int, ghost before: seq<Node>,
                        filtered: seq<Node>, seen: set<Node>)
    returns (filtered': seq<Node>, seen': set<Node>)
    requires 0 <= start && end < |group|
    requires filtered == Dedup(before) && seen == set n | n in filtered
    ensures filtered' == Dedup(before + At(group, Interval(start, end)))
    ensures seen' == set n | n in filtered'
  {
    hide Dedup, At;
    filtered', seen' := filtered, seen;
    assert before + At(group, Interval(start, start - 1)) == before by { AtNone(group); }
    var i := start;
    while i <= end
      invariant start <= i && (i <= end + 1 || i == start)
      invariant filtered' == Dedup(before + At(group, Interval(start, i - 1)))
      invariant seen' == set n | n in filtered'
      decreases end - i
    {
      filtered', seen' := SelectOne(group, i, before, Interval(start, i - 1), filtered', seen');
      i := i + 1;
    }
    assert Interval(start, i - 1) == Interval(start, end);
  }

  /** Subset by wildcard: the whole group. */
  method SelectWildcard(group: seq<Node>, ghost before: seq<Node>, filtered: seq<Node>, seen: set<Node>)
    returns (filtered': seq<Node>, seen': set<Node>)
    requires filtered == Dedup(before) && seen == set n | n in filtered
    ensures filtered' == Dedup(before + At(group, Interval(0, |group| - 1)))
    ensures seen' == set n | n in filtered'
  {
    filtered', seen' := filtered, seen;
    assert before + At(group, Interval(0, -1)) == before;
    for i := 0 to |group|
      invariant filtered' == Dedup(before + At(group, Interval(0, i - 1)))
      invariant seen' == set n | n in filtered'
    {
      filtered', seen' := SelectOne(group, i, before, Interval(0, i - 1), filtered', seen');
    }
  }

  method SelectSubset(group: seq<Node>, subset: string, ghost before: seq<Node>,
                      filtered: seq<Node>, seen: set<Node>)
    returns (ok: bool, filtered': seq<Node>, seen': set<Node>)
    requires filtered == Dedup(before) && seen == set n | n in filtered
    ensures ok <==> SubsetIndices(subset, |group|).Some?
    ensures ok ==> filtered' == Dedup(before + At(group, SubsetIndices(subset, |group|).value))
    ensures ok ==> seen' == set n | n in filtered'
  {
    ok, filtered', seen' := true, filtered, seen;
    if IsList(subset) {
      ok, filtered', seen' := SelectList(group, Split(subset, ','), before, filtered, seen);
    } else if IsRange(subset) {
      var dash := DashAt(subset);
      ok, filtered', seen' :=
        SelectRange(group, subset[..dash], subset[dash + 1..], before, filtered, seen);
    } else if subset == "*" {
      filtered', seen' := SelectWildcard(group, before, filtered, seen);
    } else {
      ok := false;
    }
  }

  method SortByRole(nodes: seq<Node>)
    returns (serverNodes: seq<Node>, agentNodes: seq<Node>, serverlb: Option<Node>)
    ensures serverNodes == OfRole(nodes, Server)
    ensures agentNodes == OfRole(nodes, Agent)
    ensures serverlb == LoadBalancerOf(nodes)
  {
    serverNodes, agentNodes, serverlb := [], [], None;
    for i := 0 to |nodes|
      invariant serverNodes == OfRole(nodes[..i], Server)
      invariant agentNodes == OfRole(nodes[..i], Agent)
      invariant serverlb == LoadBalancerOf(nodes[..i])
    {
      var node := nodes[i];
      assert nodes[..i + 1][..i] == nodes[..i];
      if node.role == Server {
        serverNodes := serverNodes + [node];
      } else if node.role == Agent {
        agentNodes := agentNodes + [node];
      } else if node.role == LoadBalancer {
        serverlb := Some(node);
      }
    }
    assert nodes[..|nodes|] == nodes;
  }

  /** How the loop goes on after a filter: `Pick` carries no nodes here, they are in `filtered'`. */
  datatype Verdict = Continue | StopWithError | StopWithAll | StopWithLoadBalancer(lb: Node)

  /** One round of the loop over the filters. */
  method ApplyFilter(ghost nodes: seq<Node>, serverNodes: seq<Node>, agentNodes: seq<Node>,
                     serverlb: Option<Node>, filter: string, ghost before: seq<Node>,
                     filtered: seq<Node>, seen: set<Node>)
    returns (verdict: Verdict, filtered': seq<Node>, seen': set<Node>)
    requires serverNodes == OfRole(nodes, Server) && agentNodes == OfRole(nodes, Agent)
    requires serverlb == LoadBalancerOf(nodes)
    requires filtered == Dedup(before) && seen == set n | n in filtered
    ensures verdict == match Meaning(nodes, filter)
                       case Fail => StopWithError
                       case TakeAll => StopWithAll
                       case TakeLoadBalancer(lb) => StopWithLoadBalancer(lb)
                       case Pick(_) => Continue
    ensures verdict.Continue? ==> filtered' == Dedup(before + Meaning(nodes, filter).chosen)
    ensures !verdict.Continue? ==> filtered' == filtered
    ensures verdict.Continue? ==> seen' == set n | n in filtered'
  {
    filtered', seen' := filtered, seen;
    var submatches := FindSubmatch(filter);
    if submatches.None? {
      return StopWithError, filtered, seen;
    }
    var m := submatches.value;
    if m.suffix != "" {
      return StopWithError, filtered, seen;
    }
    if m.group == "all" {
      return StopWithAll, filtered, seen;
    }
    var groupNodes: seq<Node> := [];
    if m.group == "server" || m.group == "servers" {
      groupNodes := serverNodes;
    } else if m.group == "agent" || m.group == "agents" {
      groupNodes := agentNodes;
    } else if m.group == "loadbalancer" {
      if serverlb.None? {
        return StopWithError, filtered, seen;
      }
      return StopWithLoadBalancer(serverlb.value), filtered, seen;
    }
    var ok, selected, selectedSet := SelectSubset(groupNodes, m.subset, before, filtered, seen);
    if !ok {
      return StopWithError, filtered, seen;
    }
    return Continue, selected, selectedSet;
  }

  method FilterNodes(nodes: seq<Node>, filters: seq<string>) returns (r: Outcome)
    ensures r == Denotation(nodes, filters)
  {
    hide Meaning, Steps, Dedup, OfRole, LoadBalancerOf;
    if Unfiltered(filters) {
      return Selected(nodes);
    }
    var serverNodes, agentNodes, serverlb := SortByRole(nodes);
    var filteredNodes: seq<Node>, seen: set<Node> := [], {};
    ghost var steps := Steps(nodes, filters);
    assert Dedup(Picked(steps, 0)) == [] by { EmptyDedup<Node>(); }
    for k := 0 to |filters|
      invariant k <= FirstStop(steps)
      invariant filteredNodes == Dedup(Picked(steps, k))
      invariant seen == set n | n in filteredNodes
    {
      var verdict;
      StepAt(nodes, filters, k);
      verdict, filteredNodes, seen :=
        ApplyFilter(nodes, serverNodes, agentNodes, serverlb, filters[k],
                    Picked(steps, k), filteredNodes, seen);
      match verdict {
        case StopWithError => return Error;
        case StopWithAll => return Selected(nodes);
        case StopWithLoadBalancer(lb) => return Selected(filteredNodes + [lb]);
        case Continue =>
      }
    }
    return Selected(filteredNodes);
  }

  // ---------- when filters fail ----------

  /** Evaluation fails exactly when a filter that is reached fails. */
  lemma ErrorExactly(nodes: seq<Node>, filters: seq<string>)
    ensures Denotation(nodes, filters) == Error <==>
            !Unfiltered(filters) &&
            exists k | 0 <= k < |filters| ::
              Meaning(nodes, filters[k]).Fail? && forall i | 0 <= i < k :: Meaning(nodes, filters[i]).Pick?
  {
    hide Meaning, Steps;
    var steps := Steps(nodes, filters);
    forall i | 0 <= i < |filters| ensures steps[i] == Meaning(nodes, filters[i]) {
      StepAt(nodes, filters, i);
    }
    var stop := FirstStop(steps);
    if !Unfiltered(filters) && Denotation(nodes, filters) == Error {
      assert Meaning(nodes, filters[stop]).Fail?;
    }
  }

  /** A list is out of range exactly when one of its numbers is. */
  lemma {:induction false} ListErrorExactly(pieces: seq<string>, n: nat)
    requires forall i | 0 <= i < |pieces| :: AllDigits(pieces[i])
    ensures ListIndices(pieces, n).None? <==>
            exists i | 0 <= i < |pieces| ::
              pieces[i] != "" && (DecimalValue(pieces[i]) >= n || DecimalValue(pieces[i]) > MAX_INT)
  {
    hide DecimalValue;
    if pieces != [] {
      var front := pieces[..|pieces| - 1];
      ListErrorExactly(front, n);
      assert forall i | 0 <= i < |front| :: front[i] == pieces[i];
    }
  }

  /**
   The selection in full: the picks before the first filter that ends the evaluation, each
   node once in the order of first occurrence, and what that last filter adds to them.
   */
  lemma SelectionMeaning(nodes: seq<Node>, filters: seq<string>, steps: seq<Step>, k: nat)
    requires !Unfiltered(filters)
    requires |steps| == |filters| && forall i | 0 <= i < |steps| :: steps[i] == Meaning(nodes, filters[i])
    requires k <= |steps| && forall i | 0 <= i < k :: steps[i].Pick?
    requires k < |steps| ==> !steps[k].Pick?
    ensures IsDedupOf(Dedup(Picked(steps, k)), Picked(steps, k))
    ensures k == |steps| ==> Denotation(nodes, filters) == Selected(Dedup(Picked(steps, k)))
    ensures k < |steps| && steps[k].TakeAll? ==> Denotation(nodes, filters) == Selected(nodes)
    ensures k < |steps| && steps[k].TakeLoadBalancer? ==>
              Denotation(nodes, filters) == Selected(Dedup(Picked(steps, k)) + [steps[k].lb])
    ensures k < |steps| && steps[k].Fail? ==> Denotation(nodes, filters) == Error
  {
    hide Meaning, Steps, Dedup;
    forall i | 0 <= i < |filters| ensures steps[i] == Steps(nodes, filters)[i] {
      StepAt(nodes, filters, i);
    }
    assert steps == Steps(nodes, filters);
    DedupMeaning(Picked(steps, k));
  }
}
