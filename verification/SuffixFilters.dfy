/** Node filters with an option suffix such as `servers:*:proxy`. */
module SuffixFilters {
  import opened NodeFilter
  import opened FilterNodes
  import opened Strings
  import opened Types
  import opened Wrappers

  const NO_SUFFIX := "nosuffix"
  const ALL := "all"

  type NodesBySuffix = map<string, seq<Node>>

  datatype SuffixOutcome = BySuffix(nodes: NodesBySuffix) | SuffixError

  /** The entry of the result a filter adds to. */
  function SuffixKey(m: Match): string { if m.suffix == "" then NO_SUFFIX else m.suffix }

  function Cleaned(filter: string, m: Match): string { TrimSuffix(filter, Spec(m.suffix)) }

  /**
   Suffix stripping keeps the meaning: what is left when the matched suffix is trimmed off
   has the same group and the same subset, and no suffix.
   */
  lemma CleanedMeaning(filter: string, m: Match)
    requires FindSubmatch(filter) == Some(m)
    ensures FindSubmatch(Cleaned(filter, m)) == Some(m.(suffix := ""))
    ensures Cleaned(filter, m) != ""
  {
    hide FindSubmatch, IsSubset, IsSuffix;
    FoundThenConsists(filter);
    var front := m.group + Spec(m.subset);
    assert filter == front + Spec(m.suffix);
    assert Cleaned(filter, m) == front;
    GroupIsPart(m.group);
    assert Consists(front, m.(suffix := "")) by {
      assert front + "" == front;
    }
    ConsistsThenFound(front, m.(suffix := ""));
  }

  /** The nodes one filter selects on its own. */
  function Alone(nodes: seq<Node>, m: Match): Outcome {
    match Plain(nodes, m.group, m.subset)
    case Fail => Error
    case TakeAll => Selected(nodes)
    case TakeLoadBalancer(lb) => Selected([lb])
    case Pick(chosen) => Selected(Dedup(chosen))
  }

  lemma AloneMeaning(nodes: seq<Node>, filter: string, m: Match)
    requires FindSubmatch(filter) == Some(m)
    ensures Denotation(nodes, [Cleaned(filter, m)]) == Alone(nodes, m)
  {
    hide FindSubmatch, Plain, Dedup;
    CleanedMeaning(filter, m);
    var filters := [Cleaned(filter, m)];
    var steps := Steps(nodes, filters);
    StepAt(nodes, filters, 0);
    assert steps[0] == Plain(nodes, m.group, m.subset);
    EmptyDedup<Node>();
    if steps[0].Pick? {
      assert Picked(steps, 1) == Picked(steps, 0) + steps[0].chosen == steps[0].chosen;
      assert FirstStop(steps) == 1;
    } else {
      assert FirstStop(steps) == 0;
    }
  }

  // ---------- the meaning of a list of filters with suffixes ----------

  /** The result before the first filter: all nodes under "all", and empty lists. */
  function Initial(nodes: seq<Node>, allowed: seq<string>): NodesBySuffix {
    if allowed == [] then map[ALL := nodes, NO_SUFFIX := []]
    else Initial(nodes, allowed[..|allowed| - 1])[allowed[|allowed| - 1] := []]
  }

  /** A filter is accepted when it matches, its suffix is allowed and it selects nodes. */
  predicate Accepted(nodes: seq<Node>, keys: set<string>, filter: string) {
    match FindSubmatch(filter)
    case None => false
    case Some(m) => SuffixKey(m) in keys && Alone(nodes, m).Selected?
  }

  /** What one filter adds to the entry `key`. */
  function Added(nodes: seq<Node>, keys: set<string>, filter: string, key: string): seq<Node>
    requires Accepted(nodes, keys, filter)
  {
    var m := FindSubmatch(filter).value;
    if SuffixKey(m) == key then Alone(nodes, m).nodes else []
  }

  /** What the filters with a given suffix select, one after another. */
  function Contribution(nodes: seq<Node>, keys: set<string>, filters: seq<string>, key: string): seq<Node>
    requires forall i | 0 <= i < |filters| :: Accepted(nodes, keys, filters[i])
  {
    if filters == [] then []
    else
      var front, last := Contribution(nodes, keys, filters[..|filters| - 1], key), filters[|filters| - 1];
      assert Accepted(nodes, keys, last);
      front + Added(nodes, keys, last, key)
  }

  function SuffixDenotation(nodes: seq<Node>, filters: seq<string>, allowed: seq<string>): SuffixOutcome {
    var start := Initial(nodes, allowed);
    if Unfiltered(filters) then SuffixError
    else if exists i | 0 <= i < |filters| :: !Accepted(nodes, start.Keys, filters[i]) then SuffixError
    else BySuffix(map key | key in start :: start[key] + Contribution(nodes, start.Keys, filters, key))
  }

  lemma ContributionStep(nodes: seq<Node>, keys: set<string>, filters: seq<string>, k: nat, key: string)
    requires k < |filters|
    requires forall i | 0 <= i <= k :: Accepted(nodes, keys, filters[i])
    ensures Accepted(nodes, keys, filters[k])
    ensures Contribution(nodes, keys, filters[..k + 1], key) ==
            Contribution(nodes, keys, filters[..k], key) + Added(nodes, keys, filters[k], key)
  {
    hide Accepted, Added;
    assert filters[..k + 1][..k] == filters[..k];
  }

  method InitialResult(nodes: seq<Node>, allowed: seq<string>) returns (result: NodesBySuffix)
    ensures result == Initial(nodes, allowed)
    ensures NO_SUFFIX in result && ALL in result
  {
    result := map[ALL := nodes, NO_SUFFIX := []];
    for i := 0 to |allowed|
      invariant result == Initial(nodes, allowed[..i])
      invariant NO_SUFFIX in result && ALL in result
    {
      assert allowed[..i + 1][..i] == allowed[..i];
      result := result[allowed[i] := []];
    }
    assert allowed[..|allowed|] == allowed;
  }

  /** One round of the loop: the nodes of one filter are appended under its suffix. */
  method AddFilter(nodes: seq<Node>, nf: string, result: NodesBySuffix)
    returns (ok: bool, result': NodesBySuffix)
    requires NO_SUFFIX in result
    ensures ok <==> Accepted(nodes, result.Keys, nf)
    ensures ok ==> result'.Keys == result.Keys
    ensures ok ==> forall key | key in result :: result'[key] == result[key] + Added(nodes, result.Keys, nf, key)
  {
    hide FindSubmatch, Alone, Denotation;
    var submatches := FindSubmatch(nf);
    if submatches.None? {
      return false, result;
    }
    var suffix, cleanedNf := NO_SUFFIX, nf;
    if submatches.value.suffix != "" {
      suffix := submatches.value.suffix;
      cleanedNf := TrimSuffix(nf, Spec(submatches.value.suffix));
    }
    assert cleanedNf == Cleaned(nf, submatches.value);
    if suffix !in result {
      return false, result;
    }
    var filteredNodes := FilterNodes.FilterNodes(nodes, [cleanedNf]);
    AloneMeaning(nodes, nf, submatches.value);
    if filteredNodes.Error? {
      return false, result;
    }
    ok, result' := true, result[suffix := result[suffix] + filteredNodes.nodes];
  }

  method FilterNodesWithSuffix(nodes: seq<Node>, filters: seq<string>, allowed: seq<string>)
    returns (r: SuffixOutcome)
    ensures r == SuffixDenotation(nodes, filters, allowed)
  {
    hide Accepted, Added, Initial, Contribution;
    if Unfiltered(filters) {
      return SuffixError;
    }
    var result := InitialResult(nodes, allowed);
    ghost var start := result;
    forall key | key in start ensures Contribution(nodes, start.Keys, filters[..0], key) == [] {
      ContributionNone(nodes, start.Keys, key);
    }
    for k := 0 to |filters|
      invariant result.Keys == start.Keys
      invariant forall i | 0 <= i < k :: Accepted(nodes, start.Keys, filters[i])
      invariant forall key | key in start ::
          result[key] == start[key] + Contribution(nodes, start.Keys, filters[..k], key)
    {
      var ok;
      ok, result := AddFilter(nodes, filters[k], result);
      if !ok {
        return SuffixError;
      }
      forall key | key in start ensures
          result[key] == start[key] + Contribution(nodes, start.Keys, filters[..k + 1], key)
      {
        ContributionStep(nodes, start.Keys, filters, k, key);
      }
    }
    assert filters[..|filters|] == filters;
    return BySuffix(result);
  }

  lemma ContributionNone(nodes: seq<Node>, keys: set<string>, key: string)
    ensures Contribution(nodes, keys, [], key) == []
  {}

  /** What comes first in the result: all nodes under "all", and nothing else before the filters add to it. */
  lemma ResultBegins(nodes: seq<Node>, filters: seq<string>, allowed: seq<string>)
    requires SuffixDenotation(nodes, filters, allowed).BySuffix? && "all" !in allowed
    ensures var m := SuffixDenotation(nodes, filters, allowed).nodes;
            && "all" in m && nodes <= m["all"] && "nosuffix" in m
            && (forall k :: k in m <==> k in allowed || k == "all" || k == "nosuffix")
  {
    InitialKeys(nodes, allowed);
    hide Accepted, Contribution;
  }

  lemma {:induction false} InitialKeys(nodes: seq<Node>, allowed: seq<string>)
    ensures forall k :: k in Initial(nodes, allowed) <==> k in allowed || k == "all" || k == "nosuffix"
    ensures "all" !in allowed ==> Initial(nodes, allowed)["all"] == nodes
    ensures forall k | k in Initial(nodes, allowed) && k != "all" :: Initial(nodes, allowed)[k] == []
  {
    if allowed != [] {
      InitialKeys(nodes, allowed[..|allowed| - 1]);
    }
  }
}
