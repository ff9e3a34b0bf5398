/**
 What single filters select, told by the nodes of a list, their roles and their places: the whole
 of a role, a range of it, or the listed places.
 */
module FilterLaws {
  import opened FilterNodes
  import opened NodeFilter
  import opened Strings
  import opened SuffixFilters
  import opened Types
  import opened Wrappers

  // ---------- the nodes of one role ----------

  /** `places` are all places of nodes with the role, in ascending order, and `members` the nodes there. */
  ghost predicate ArePlaces(nodes: seq<Node>, role: Role, members: seq<Node>, places: seq<nat>) {
    && |places| == |members|
    && (forall a, b | 0 <= a < b < |places| :: places[a] < places[b])
    && (forall a | 0 <= a < |places| ::
          places[a] < |nodes| && nodes[places[a]] == members[a] && members[a].role == role)
    && (forall i | 0 <= i < |nodes| && nodes[i].role == role :: i in places)
  }

  /** `members` are the nodes of the list with the role, every one of them, in the order of the list. */
  ghost predicate AreAllOf(nodes: seq<Node>, role: Role, members: seq<Node>) {
    exists places :: ArePlaces(nodes, role, members, places)
  }

  /** The places without the last node of the list. */
  lemma PlacesFront(front: seq<Node>, last: Node, role: Role, members: seq<Node>, places: seq<nat>)
    requires ArePlaces(front + [last], role, members, places)
    ensures last.role != role ==> ArePlaces(front, role, members, places)
    ensures last.role == role ==>
              var k := |places| - 1;
              k >= 0 && members[k] == last && ArePlaces(front, role, members[..k], places[..k])
  {
    var nodes := front + [last];
    assert forall i | 0 <= i < |front| :: nodes[i] == front[i];
    if last.role == role {
      assert nodes[|front|].role == role;
      var a :| 0 <= a < |places| && places[a] == |front|;
      LargestIsLast(places, a, |nodes|);
      forall i | 0 <= i < |front| && front[i].role == role ensures i in places[..a] {
        assert nodes[i].role == role;
        var b :| 0 <= b < |places| && places[b] == i;
        assert places[..a][b] == i;
      }
    } else {
      assert forall b | 0 <= b < |places| :: nodes[places[b]].role == role;
    }
  }

  lemma LargestIsLast(places: seq<nat>, a: nat, n: nat)
    requires forall i, j | 0 <= i < j < |places| :: places[i] < places[j]
    requires forall i | 0 <= i < |places| :: places[i] < n
    requires a < |places| && places[a] == n - 1
    ensures a == |places| - 1
  {
    var last := places[|places| - 1];
  }

  lemma {:induction false} PlacesAreOfRole(nodes: seq<Node>, role: Role, members: seq<Node>, places: seq<nat>)
    requires ArePlaces(nodes, role, members, places)
    ensures OfRole(nodes, role) == members
  {
    if nodes == [] {
      NoMoreThanNodes(nodes, role, members, places);
    } else {
      var front, last, k := nodes[..|nodes| - 1], nodes[|nodes| - 1], |members| - 1;
      assert nodes == front + [last];
      PlacesFront(front, last, role, members, places);
      hide ArePlaces;
      if last.role == role {
        PlacesAreOfRole(front, role, members[..k], places[..k]);
        assert members == members[..k] + [members[k]];
      } else {
        PlacesAreOfRole(front, role, members, places);
      }
    }
  }

  lemma NoMoreThanNodes(nodes: seq<Node>, role: Role, members: seq<Node>, places: seq<nat>)
    requires ArePlaces(nodes, role, members, places)
    ensures |members| <= |nodes|
  {
    if |places| > 0 {
      PlaceAtLeast(places, |places| - 1);
    }
  }

  lemma {:induction false} PlaceAtLeast(places: seq<nat>, a: nat)
    requires a < |places| && forall i, j | 0 <= i < j < |places| :: places[i] < places[j]
    ensures places[a] >= a
  {
    if a > 0 {
      PlaceAtLeast(places, a - 1);
    }
  }

  lemma OfRoleIs(nodes: seq<Node>, role: Role, members: seq<Node>)
    requires AreAllOf(nodes, role, members)
    ensures OfRole(nodes, role) == members
  {
    var places :| ArePlaces(nodes, role, members, places);
    PlacesAreOfRole(nodes, role, members, places);
  }

  lemma PlacesNext(front: seq<Node>, last: Node, role: Role, members: seq<Node>, places: seq<nat>)
    requires ArePlaces(front, role, members, places)
    ensures last.role == role ==> ArePlaces(front + [last], role, members + [last], places + [|front|])
    ensures last.role != role ==> ArePlaces(front + [last], role, members, places)
  {
    var more := places + [|front|];
    assert forall i | i in places :: i in more;
    assert more[|places|] == |front|;
  }

  lemma NoPlaces(role: Role)
    ensures ArePlaces([], role, [], [])
  {}

  /** There is such a sequence for every role. */
  lemma {:induction false} RoleHasMembers(nodes: seq<Node>, role: Role)
    ensures AreAllOf(nodes, role, OfRole(nodes, role))
  {
    hide ArePlaces;
    NoPlaces(role);
    if nodes != [] {
      var front, last := nodes[..|nodes| - 1], nodes[|nodes| - 1];
      RoleHasMembers(front, role);
      var places :| ArePlaces(front, role, OfRole(front, role), places);
      PlacesNext(front, last, role, OfRole(front, role), places);
      assert nodes == front + [last];
    }
  }

  /** Without repetitions there is nothing to leave out. */
  lemma {:induction false} DedupDistinct<T>(xs: seq<T>)
    requires forall i, j | 0 <= i < j < |xs| :: xs[i] != xs[j]
    ensures Dedup(xs) == xs
  {
    if xs != [] {
      DedupDistinct(xs[..|xs| - 1]);
    }
  }

  // ---------- one filter ----------

  /** A filter of a group and a subset that stands for indices selects the members at these indices. */
  lemma OneFilter(nodes: seq<Node>, role: Role, word: string, members: seq<Node>, subset: string)
    requires AreAllOf(nodes, role, members) && IsSubset(subset)
    requires (role == Server && word in ["server", "servers"]) || (role == Agent && word in ["agent", "agents"])
    ensures Denotation(nodes, [word + ":" + subset]) ==
            match SubsetIndices(subset, |members|)
            case None => Error
            case Some(indices) => Selected(Dedup(At(members, indices)))
  {
    hide SubsetIndices, Dedup, At, IsSubset, FindSubmatch, Denotation, Alone;
    OfRoleIs(nodes, role, members);
    var filter, m := word + ":" + subset, Match(word, subset, "");
    assert IsGroup(word);
    SubsetNotEmpty();
    assert filter == word + Spec(subset) + Spec("");
    ConsistsThenFound(filter, m);
    AloneMeaning(nodes, filter, m);
    NothingToTrim(filter);
    MembersOf(nodes, role, word, members, subset, "");
  }

  lemma MembersOf(nodes: seq<Node>, role: Role, word: string, members: seq<Node>, subset: string, suffix: string)
    requires OfRole(nodes, role) == members
    requires (role == Server && word in ["server", "servers"]) || (role == Agent && word in ["agent", "agents"])
    ensures Alone(nodes, Match(word, subset, suffix)) ==
            match SubsetIndices(subset, |members|)
            case None => Error
            case Some(indices) => Selected(Dedup(At(members, indices)))
  {
    hide SubsetIndices, Dedup, At, OfRole, LoadBalancerOf;
  }

  lemma NothingToTrim(s: string)
    ensures TrimSuffix(s, Spec("")) == s
  {}

  /** "servers:*" and the like select all nodes of the role. */
  lemma SelectsAll(nodes: seq<Node>, role: Role, word: string, members: seq<Node>)
    requires AreAllOf(nodes, role, members)
    requires (role == Server && word in ["server", "servers"]) || (role == Agent && word in ["agent", "agents"])
    ensures Denotation(nodes, [word + ":*"]) == Selected(Dedup(members))
    ensures (forall i, j | 0 <= i < j < |nodes| :: nodes[i] != nodes[j]) ==>
              Denotation(nodes, [word + ":*"]) == Selected(members)
  {
    hide AreAllOf, SubsetIndices, Dedup, At, IsSubset, Denotation;
    IsSubsetStar();
    OneFilter(nodes, role, word, members, "*");
    assert word + ":*" == word + ":" + "*";
    WildcardIndices(|members|);
    AtInterval(members, 0, |members| - 1);
    assert members[0..|members| - 1 + 1] == members;
    assert At(members, Interval(0, |members| - 1)) == members;
    if forall i, j | 0 <= i < j < |nodes| :: nodes[i] != nodes[j] {
      MembersDistinct(nodes, role, members);
      DedupDistinct(members);
    }
  }

  lemma IsSubsetStar()
    ensures IsSubset("*")
  {}

  lemma MembersDistinct(nodes: seq<Node>, role: Role, members: seq<Node>)
    requires AreAllOf(nodes, role, members) && forall i, j | 0 <= i < j < |nodes| :: nodes[i] != nodes[j]
    ensures forall i, j | 0 <= i < j < |members| :: members[i] != members[j]
  {
    var places :| ArePlaces(nodes, role, members, places);
  }

  lemma WildcardIndices(n: nat)
    ensures SubsetIndices("*", n) == Some(Interval(0, n - 1))
  {
    SplitNone("*", ',');
    assert !IsList("*") by {
      assert !AllDigits("*") by { assert !IsDigit("*"[0]); }
      assert Split("*", ',')[0] == "*";
    }
    assert !IsRange("*");
  }

  lemma AtInterval<T>(xs: seq<T>, lo: int, hi: int)
    requires 0 <= lo && hi < |xs| && lo <= hi + 1
    ensures At(xs, Interval(lo, hi)) == xs[lo..hi + 1]
  {
    hide At, Interval;
    AtEach(xs, Interval(lo, hi));
  }

  /** "servers:a-b" selects the nodes at the places a to b; an empty side is the first or the last place. */
  lemma SelectsRange(nodes: seq<Node>, role: Role, word: string, members: seq<Node>, from: string, to: string)
    requires AreAllOf(nodes, role, members) && AllDigits(from) && AllDigits(to)
    requires (role == Server && word in ["server", "servers"]) || (role == Agent && word in ["agent", "agents"])
    ensures var n := |members|;
            var a := if from == "" then 0 else DecimalValue(from);
            var b := if to == "" then n - 1 else DecimalValue(to);
            Denotation(nodes, [word + ":" + from + "-" + to]) ==
            if (from != "" && (a >= n || a > 0x7FFF_FFFF_FFFF_FFFF)) ||
               (to != "" && (b < a || b >= n || b > 0x7FFF_FFFF_FFFF_FFFF))
            then Error
            else Selected(Dedup(if n == 0 then [] else members[a..b + 1]))
  {
    hide AreAllOf, Dedup, At, Denotation, DecimalValue, RangeBounds;
    var subset := from + "-" + to;
    RangeIndices(from, to, |members|);
    OneFilter(nodes, role, word, members, subset);
    assert word + ":" + from + "-" + to == word + ":" + subset;
    Bounds(from, to, |members|);
    var bounds := RangeBounds(from, to, |members|);
    if bounds.Some? {
      AtInterval(members, bounds.value.0, bounds.value.1);
    }
  }

  lemma Bounds(from: string, to: string, n: nat)
    requires AllDigits(from) && AllDigits(to)
    ensures var a := if from == "" then 0 else DecimalValue(from);
            var b := if to == "" then n - 1 else DecimalValue(to);
            RangeBounds(from, to, n) ==
            if (from != "" && (a >= n || a > 0x7FFF_FFFF_FFFF_FFFF)) ||
               (to != "" && (b < a || b >= n || b > 0x7FFF_FFFF_FFFF_FFFF))
            then None else Some((a, b))
  {
    hide DecimalValue;
  }

  lemma RangeIndices(from: string, to: string, n: nat)
    requires AllDigits(from) && AllDigits(to)
    ensures var subset := from + "-" + to;
            && IsSubset(subset)
            && SubsetIndices(subset, n) ==
               match RangeBounds(from, to, n)
               case None => None
               case Some(bounds) => Some(Interval(bounds.0, bounds.1))
  {
    hide RangeBounds, Interval;
    var subset, k := from + "-" + to, |from|;
    assert subset[..k] == from && subset[k] == '-' && subset[k + 1..] == to;
    assert IsRangeAt(subset, k);
    var dash := DashAt(subset);
    OneDash(subset, k, dash);
    NoList(subset, k);
  }

  lemma OneDash(s: string, k: nat, i: nat)
    requires k < |s| && IsRangeAt(s, k) && i < |s| && IsRangeAt(s, i)
    ensures k == i
  {
    if k < i {
      DigitAt(s, i, k);
    } else if i < k {
      DigitAt(s, k, i);
    }
  }

  lemma DigitAt(s: string, n: nat, k: nat)
    requires k < n <= |s| && AllDigits(s[..n])
    ensures IsDigit(s[k])
  {
    assert s[..n][k] == s[k];
  }

  lemma NoList(s: string, k: nat)
    requires k < |s| && s[k] == '-'
    ensures !IsList(s)
  {
    if IsList(s) {
      ListIsPart(s);
    }
  }

  /** "servers:i,j,k" selects the nodes at these places; a comma at the end does not matter. */
  lemma SelectsList(nodes: seq<Node>, role: Role, word: string, members: seq<Node>, nums: seq<string>, comma: bool)
    requires AreAllOf(nodes, role, members)
    requires nums != [] && forall k | 0 <= k < |nums| :: nums[k] != "" && AllDigits(nums[k])
    requires (role == Server && word in ["server", "servers"]) || (role == Agent && word in ["agent", "agents"])
    ensures var filter := word + ":" + Join(nums, ',') + if comma then "," else "";
            Denotation(nodes, [filter]) ==
            if exists k | 0 <= k < |nums| :: DecimalValue(nums[k]) >= |members| || DecimalValue(nums[k]) > MAX_INT
            then Error
            else Selected(Dedup(seq(|nums|, k requires 0 <= k < |nums| && DecimalValue(nums[k]) < |members| =>
                                              members[DecimalValue(nums[k])])))
  {
    hide AreAllOf, Dedup, At, Denotation, DecimalValue, SubsetIndices, ListIndices, IsSubset, Join;
    var subset := Join(nums, ',') + if comma then "," else "";
    ListSubset(nums, comma, |members|);
    OneFilter(nodes, role, word, members, subset);
    Reassociate(word + ":", Join(nums, ','), if comma then "," else "");
    ListPicks(members, nums);
  }

  lemma Reassociate(a: string, b: string, c: string)
    ensures a + b + c == a + (b + c)
  {}

  lemma ListPicks(members: seq<Node>, nums: seq<string>)
    requires forall k | 0 <= k < |nums| :: nums[k] != "" && AllDigits(nums[k])
    ensures ListIndices(nums, |members|).None? <==>
            exists k | 0 <= k < |nums| :: DecimalValue(nums[k]) >= |members| || DecimalValue(nums[k]) > MAX_INT
    ensures ListIndices(nums, |members|).Some? ==>
              At(members, ListIndices(nums, |members|).value) ==
              seq(|nums|, k requires 0 <= k < |nums| && DecimalValue(nums[k]) < |members| =>
                            members[DecimalValue(nums[k])])
  {
    hide DecimalValue, ListIndices, At;
    ListErrorExactly(nums, |members|);
    if ListIndices(nums, |members|).Some? {
      ListIndicesAre(nums, |members|);
      PicksAre(members, nums, ListIndices(nums, |members|).value);
    }
  }

  lemma PicksAre(members: seq<Node>, nums: seq<string>, indices: seq<nat>)
    requires forall k | 0 <= k < |nums| :: AllDigits(nums[k])
    requires |indices| == |nums| && forall k | 0 <= k < |nums| :: indices[k] == DecimalValue(nums[k]) < |members|
    ensures At(members, indices) ==
            seq(|nums|, k requires 0 <= k < |nums| && DecimalValue(nums[k]) < |members| =>
                          members[DecimalValue(nums[k])])
  {
    hide DecimalValue, At, AllDigits;
    AtEach(members, indices);
  }

  lemma ListSubset(nums: seq<string>, comma: bool, n: nat)
    requires nums != [] && forall k | 0 <= k < |nums| :: nums[k] != "" && AllDigits(nums[k])
    ensures var subset := Join(nums, ',') + if comma then "," else "";
            IsSubset(subset) && SubsetIndices(subset, n) == ListIndices(nums, n)
  {
    hide DecimalValue;
    var pieces := if comma then nums + [""] else nums;
    var subset := Join(nums, ',') + if comma then "," else "";
    if comma {
      JoinAppend(nums, ',');
    }
    assert Join(pieces, ',') == subset;
    SplitJoin(pieces, ',');
    assert IsList(subset);
    assert comma ==> pieces[..|nums|] == nums;
  }

  lemma {:induction false} JoinAppend(pieces: seq<string>, sep: char)
    requires pieces != []
    ensures Join(pieces + [""], sep) == Join(pieces, sep) + [sep]
  {
    if |pieces| > 1 {
      JoinAppend(pieces[1..], sep);
      assert (pieces + [""])[1..] == pieces[1..] + [""];
    }
  }

  lemma {:induction false} ListIndicesAre(nums: seq<string>, n: nat)
    requires forall k | 0 <= k < |nums| :: nums[k] != "" && AllDigits(nums[k])
    requires ListIndices(nums, n).Some?
    ensures |ListIndices(nums, n).value| == |nums|
    ensures forall k | 0 <= k < |nums| :: ListIndices(nums, n).value[k] == DecimalValue(nums[k]) < n
  {
    hide DecimalValue;
    if nums != [] {
      ListIndicesAre(nums[..|nums| - 1], n);
    }
  }

  lemma LastPick<T>(xs: seq<T>, indices: seq<int>)
    requires indices != [] && forall i | 0 <= i < |indices| :: 0 <= indices[i] < |xs|
    ensures At(xs, indices) == At(xs, indices[..|indices| - 1]) + [xs[indices[|indices| - 1]]]
  {}

  lemma {:induction false} AtEach<T>(xs: seq<T>, indices: seq<int>)
    requires forall i | 0 <= i < |indices| :: 0 <= indices[i] < |xs|
    ensures |At(xs, indices)| == |indices|
    ensures forall i | 0 <= i < |indices| :: At(xs, indices)[i] == xs[indices[i]]
  {
    if indices != [] {
      var front := indices[..|indices| - 1];
      AtEach(xs, front);
      hide At;
      assert At(xs, indices) == At(xs, front) + [xs[indices[|indices| - 1]]] by {
        LastPick(xs, indices);
      }
    }
  }

  /** The two groups without a subset: all nodes, and the last load balancer, if there is one. */
  lemma SelectsBare(nodes: seq<Node>, lbs: seq<Node>)
    requires AreAllOf(nodes, LoadBalancer, lbs)
    ensures Denotation(nodes, ["all"]) == Selected(nodes)
    ensures Denotation(nodes, ["loadbalancer"]) == if lbs == [] then Error else Selected([lbs[|lbs| - 1]])
    ensures Denotation(nodes, []) == Denotation(nodes, [""]) == Selected(nodes)
  {
    hide FindSubmatch, AreAllOf, OfRole, Steps, Dedup, Combine;
    OfRoleIs(nodes, LoadBalancer, lbs);
    BareFilter(nodes, "all");
    BareFilter(nodes, "loadbalancer");
    hide Denotation;
    NoFilter(nodes);
  }

  lemma NoFilter(nodes: seq<Node>)
    ensures Denotation(nodes, []) == Denotation(nodes, [""]) == Selected(nodes)
  {}

  lemma BareFilter(nodes: seq<Node>, word: string)
    requires IsGroup(word)
    ensures Denotation(nodes, [word]) == Alone(nodes, Match(word, "", ""))
  {
    hide Alone, Denotation;
    assert word + Spec("") + Spec("") == word;
    ConsistsThenFound(word, Match(word, "", ""));
    AloneMeaning(nodes, word, Match(word, "", ""));
    NothingToTrim(word);
  }

  /** A filter with a suffix, or one the pattern does not match, fails as the first filter of a list. */
  lemma FailsFirst(nodes: seq<Node>, filters: seq<string>)
    requires filters != [] && filters[0] != ""
    requires FindSubmatch(filters[0]).Some? ==> FindSubmatch(filters[0]).value.suffix != ""
    ensures Denotation(nodes, filters) == Error
  {
    hide FindSubmatch, Plain;
    StepAt(nodes, filters, 0);
  }
}
