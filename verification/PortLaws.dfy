/** Laws of port changes: coverage, undoing an addition, and the order of changes. */
module PortLaws {
  import opened PortChanges
  import opened Tables
  import opened Types

  // ---------- one key of the configuration ----------

  /** Two tables agree on a key: both lack it, or both have the same list for it. */
  ghost predicate Agree<T>(a: Table<T>, b: Table<T>, k: string) {
    (k in a <==> k in b) && Get(a, k) == Get(b, k)
  }

  /** The ports of one parsed specification are distinct, and so are their keys. */
  ghost predicate DistinctKeys(mappings: seq<PortMapping>) {
    forall i, j | 0 <= i < j < |mappings| :: ConfigKey(mappings[i].port) != ConfigKey(mappings[j].port)
  }

  lemma ChangedTargetLocal(a: Table<string>, b: Table<string>, key: string, names: seq<string>, removal: bool,
                           k: string)
    requires names != []
    requires Agree(a, b, k)
    ensures Agree(ChangedTarget(a, key, names, removal), ChangedTarget(b, key, names, removal), k)
    ensures k != key ==> Agree(ChangedTarget(a, key, names, removal), a, k)
  {
    if removal {
      RemovedTargetHas(a, key, names);
      RemovedTargetHas(b, key, names);
      hide ChangedTarget, RemoveAll;
      RemovedTargetAt(a, key, names, k);
      RemovedTargetAt(b, key, names, k);
    }
  }

  /** After a removal the key of the removed names is present exactly if names are left. */
  lemma RemovedTargetHas(targets: Table<string>, key: string, names: seq<string>)
    requires names != []
    ensures key in ChangedTarget(targets, key, names, true) <==>
              Get(ChangedTarget(targets, key, names, true), key) != []
  {
    hide RemoveEntries, RemoveAll, Under, Select;
    RemoveEntriesAt(targets, Under(key, names), key);
    UnderSelect(key, names, key);
  }

  /** With distinct keys, every key is changed once or not at all. */
  lemma {:induction false} ChangedTargetsAt(targets: Table<string>, mappings: seq<PortMapping>, names: seq<string>,
                                            removal: bool, k: string)
    requires names != [] && DistinctKeys(mappings)
    ensures var t := ChangedTargets(targets, mappings, names, removal);
            Agree(t, if HasKey(mappings, k) then ChangedTarget(targets, k, names, removal) else targets, k)
  {
    hide ChangedTarget, Agree, ConfigKey;
    AgreeRefl(targets, k);
    if |mappings| > 0 {
      var front, last := mappings[..|mappings| - 1], mappings[|mappings| - 1];
      var key := ConfigKey(last.port);
      assert mappings == front + [last];
      assert HasKey(mappings, k) <==> HasKey(front, k) || key == k by { assert last in mappings; }
      assert key == k ==> !HasKey(front, k);
      ChangedTargetsAt(targets, front, names, removal, k);
      var before := ChangedTargets(targets, front, names, removal);
      var expected := if HasKey(front, k) then ChangedTarget(targets, k, names, removal) else targets;
      ChangedTargetLocal(before, expected, key, names, removal, k);
      if key != k {
        AgreeTrans(ChangedTarget(before, key, names, removal), before, expected, k);
      }
    }
  }

  lemma AgreeRefl<T>(a: Table<T>, k: string)
    ensures Agree(a, a, k)
  {}

  lemma AgreeTrans<T>(a: Table<T>, b: Table<T>, c: Table<T>, k: string)
    requires Agree(a, b, k) && Agree(b, c, k)
    ensures Agree(a, c, k)
  {}

  // ---------- undoing an addition ----------

  /**
   What is left of the entry of one key after adding names and removing them again: nothing of
   a new entry; of an old one, its names and the extra copies that the addition made.
   */
  lemma TargetRoundTrip(targets: Table<string>, key: string, names: seq<string>)
    requires names != []
    ensures var t := ChangedTarget(ChangedTarget(targets, key, names, false), key, names, true);
            && (key !in targets ==> key !in t)
            && (key in targets ==>
                  multiset(Get(t, key)) == multiset(AddNames(targets[key], names)) - multiset(names))
  {
    hide RemoveEntries, RemoveAll, AddNames, Under;
    var added := ChangedTarget(targets, key, names, false);
    RemovedTargetAt(added, key, names, key);
    RemovedTargetHas(added, key, names);
    RemoveAllMultiset(added[key], names);
    if key !in targets {
      SameMultisetEmpty(RemoveAll(names, names), []);
    }
  }

  lemma {:induction false} RepeatCount(name: string, n: nat)
    ensures multiset(Repeat(name, n)) == multiset{}[name := n]
  {
    if n > 0 {
      RepeatCount(name, n - 1);
    }
  }

  /** The place of a name that is listed does not change when names are appended. */
  lemma BeforeStable(xs: seq<string>, ys: seq<string>, name: string)
    requires name in xs
    ensures Before(xs + ys, name) == Before(xs, name)
  {
    var n := Before(xs, name);
    assert n < |xs| by {
      assert xs[..|xs|] == xs;
    }
    assert (xs + ys)[..n] == xs[..n];
    BeforeIs(xs + ys, name, n);
  }

  lemma {:induction false} AddNamesSplit(xs: seq<string>, names: seq<string>, j: nat)
    requires j <= |names|
    ensures AddNames(xs, names) == AddNames(AddNames(xs, names[..j]), names[j..])
  {
    if j < |names| {
      var front := names[..|names| - 1];
      AddNamesSplit(xs, front, j);
      assert front[..j] == names[..j] && names[j..][..|names[j..]| - 1] == front[j..];
    } else {
      assert names[..j] == names;
    }
  }

  /** Adding other names does not change how often a name is listed. */
  lemma {:induction false} OtherCount(xs: seq<string>, names: seq<string>, y: string)
    requires y !in names
    ensures multiset(AddNames(xs, names))[y] == multiset(xs)[y]
  {
    if |names| > 0 {
      var front, last := names[..|names| - 1], names[|names| - 1];
      OtherCount(xs, front, y);
      RepeatCount(last, Before(AddNames(xs, front), last));
    }
  }

  /** Adding a name lists it once more for every target before its place, which becomes fixed. */
  lemma AddNameFirst(xs: seq<string>, y: string)
    requires xs != []
    ensures multiset(AddName(xs, y))[y] == multiset(xs)[y] + Before(xs, y)
    ensures y in AddName(xs, y) && Before(AddName(xs, y), y) == Before(xs, y)
  {
    var b := Before(xs, y);
    var more := Repeat(y, b);
    RepeatCount(y, b);
    assert (xs + more)[..b] == xs[..b];
    if b == |xs| {
      assert more[0] in more && (xs + more)[b] == more[0];
    }
    BeforeIs(xs + more, y, b);
    assert (xs + more)[b] in xs + more;
  }

  /** Adding any name to a list that has `y`. */
  lemma AddNameListed(xs: seq<string>, y: string, z: string)
    requires y in xs
    ensures multiset(AddName(xs, z))[y] == multiset(xs)[y] + if z == y then Before(xs, y) else 0
    ensures y in AddName(xs, z) && Before(AddName(xs, z), y) == Before(xs, y)
  {
    RepeatCount(z, Before(xs, z));
    BeforeStable(xs, Repeat(z, Before(xs, z)), y);
  }

  /**
   The first of the names to be added is listed once more for every time it is added and every
   target that stands before its place; and its place stays.
   */
  lemma {:induction false} FirstNameCount(xs: seq<string>, names: seq<string>)
    requires xs != [] && names != []
    ensures multiset(names)[names[0]] >= 1
    ensures multiset(AddNames(xs, names))[names[0]] ==
            multiset(xs)[names[0]] + multiset(names)[names[0]] * Before(xs, names[0])
    ensures names[0] in AddNames(xs, names) && Before(AddNames(xs, names), names[0]) == Before(xs, names[0])
  {
    hide AddName, Before;
    var y := names[0];
    var front, last := names[..|names| - 1], names[|names| - 1];
    assert names == front + [last];
    if |names| == 1 {
      assert AddNames(xs, names) == AddName(xs, y) by { assert AddNames(xs, names[..0]) == xs; }
      AddNameFirst(xs, y);
    } else {
      FirstNameCount(xs, front);
      AddNameListed(AddNames(xs, front), y, last);
      CountStep(multiset(front)[y], Before(xs, y));
    }
  }

  lemma CountStep(n: nat, b: nat)
    ensures (n + 1) * b == n * b + b
  {}

  ghost predicate Restored(xs: seq<string>, names: seq<string>) {
    multiset(AddNames(xs, names)) - multiset(names) == multiset(xs)
  }

  /** All names are one, and one target stands before its place. */
  predicate OneNameAfterOne(xs: seq<string>, names: seq<string>)
    requires names != []
  {
    (forall n | n in names :: n == names[0]) && Before(xs, names[0]) == 1
  }

  /** If an entry is restored, one target stands before the place of each name when it is first added. */
  lemma OneStandsBefore(xs: seq<string>, names: seq<string>, j: nat)
    requires xs != [] && j < |names| && names[j] !in names[..j] && Restored(xs, names)
    ensures AddNames(xs, names[..j]) != [] && Before(AddNames(xs, names[..j]), names[j]) == 1
  {
    hide AddNames, Before;
    var y, m, rest := names[j], AddNames(xs, names[..j]), names[j..];
    AddNamesUnion(xs, names[..j]);
    AddNamesSplit(xs, names, j);
    OtherCount(xs, names[..j], y);
    FirstNameCount(m, rest);
    assert names == names[..j] + rest && rest[0] == y;
    assert (multiset(AddNames(xs, names)) - multiset(names))[y] == multiset(m)[y];
    FirstIsListed(m, y);
    OnePerAddition(multiset(rest)[y], Before(m, y), multiset(m)[y]);
  }

  /** Of `c` copies and `n * b` added ones, taking away `n` leaves `c` only for one `b`. */
  lemma OnePerAddition(n: nat, b: nat, c: nat)
    requires n >= 1 && (b == 0 ==> c >= 1)
    requires c == if c + n * b >= n then c + n * b - n else 0
    ensures b == 1
  {
    Twice(n, b);
  }

  lemma Twice(n: nat, b: nat)
    ensures b >= 2 ==> n * b >= n * 2
  {}

  lemma FirstIsListed(xs: seq<string>, y: string)
    requires xs != []
    ensures Before(xs, y) == 0 ==> xs[0] == y && y in multiset(xs)
  {
    assert xs[0] in multiset(xs);
  }

  /** Exactly the addition of one name after one target is undone by the removal. */
  lemma RestoredExactly(xs: seq<string>, names: seq<string>)
    requires xs != [] && names != []
    ensures Restored(xs, names) <==> OneNameAfterOne(xs, names)
  {
    hide AddNames, Before;
    if Restored(xs, names) {
      RestoredOneName(xs, names);
    }
    if OneNameAfterOne(xs, names) {
      FirstNameCount(xs, names);
      forall z ensures multiset(AddNames(xs, names))[z] == multiset(xs)[z] + multiset(names)[z] {
        if z != names[0] {
          assert z !in names;
          OtherCount(xs, names, z);
        }
      }
      MultisetMinus(AddNames(xs, names), names, xs);
    }
  }

  lemma MultisetMinus(a: seq<string>, b: seq<string>, c: seq<string>)
    requires forall z :: multiset(a)[z] == multiset(c)[z] + multiset(b)[z]
    ensures multiset(a) - multiset(b) == multiset(c)
  {
    assert multiset(a) == multiset(c) + multiset(b);
  }

  lemma RestoredOneName(xs: seq<string>, names: seq<string>)
    requires xs != [] && names != [] && Restored(xs, names)
    ensures OneNameAfterOne(xs, names)
  {
    hide Restored;
    OneStandsBefore(xs, names, 0);
    assert AddNames(xs, names[..0]) == xs;
    var j := 0;
    while j < |names|
      invariant 0 <= j <= |names|
      invariant forall i | 0 <= i < j :: names[i] == names[0]
    {
      if names[j] != names[0] {
        FirstNameCount(xs, names[..j]);
        OneStandsBefore(xs, names, j);
        assert false;
      }
      j := j + 1;
    }
  }

  /**
   Adding names to an existing entry and removing them again restores the entry, as a multiset, if
   and only if it is all one name and one target stands before the place of that name: adding it made
   one copy, and removing it took one away.  With two different names an entry is never restored.
   */
  lemma NamesRoundTrip(targets: Table<string>, key: string, names: seq<string>)
    requires key in targets && targets[key] != [] && names != []
    ensures var t := ChangedTarget(ChangedTarget(targets, key, names, false), key, names, true);
            multiset(Get(t, key)) == multiset(targets[key]) <==> OneNameAfterOne(targets[key], names)
  {
    hide RemoveEntries, RemoveAll, Under, ChangedTarget, AddNames;
    TargetRoundTrip(targets, key, names);
    RestoredExactly(targets[key], names);
  }

  /** The two servers of a cluster, added to the port of the first one and removed again, leave an entry behind. */
  lemma NamesRoundTripExample()
    ensures var key, names := "80.tcp", ["k3d-c-server-0", "k3d-c-server-1"];
            var t := map[key := ["k3d-c-server-0"]];
            Get(ChangedTarget(ChangedTarget(t, key, names, false), key, names, true), key) != t[key]
  {
    var key, names := "80.tcp", ["k3d-c-server-0", "k3d-c-server-1"];
    var t := map[key := ["k3d-c-server-0"]];
    hide ChangedTarget, Before;
    NamesRoundTrip(t, key, names);
    assert names[1] in names && names[1][13] != names[0][13];
  }

  /**
   Adding mappings through the load balancer and removing the same ones: the bound ports and,
   for every port, the multiset of bindings are restored; entries of the configuration that the
   addition created are gone; entries it did not touch are the same.
   */
  lemma ProxyRoundTrip(s: State, lb: Node, names: seq<string>, mappings: seq<PortMapping>, backends: set<string>)
    requires Sound(s, backends) && lb in s.bindings
    requires names != [] && DistinctKeys(mappings)
    ensures var r := Run(s, lb, [Proxy(names, false, mappings, false), Proxy(names, false, mappings, true)]);
            && r.ok
            && r.state.bindings.Keys == s.bindings.Keys
            && (forall n | n in s.bindings && n != lb :: r.state.bindings[n] == s.bindings[n])
            && r.state.bindings[lb].Keys == s.bindings[lb].Keys
            && (forall p :: multiset(Get(r.state.bindings[lb], p)) == multiset(Get(s.bindings[lb], p)))
            && (forall p :: New(s.bindings[lb], Entries(mappings), p) ==>
                  Get(r.state.bindings[lb], p) == Get(s.bindings[lb], p))
            && (forall k | !HasKey(mappings, k) :: Agree(r.state.targets, s.targets, k))
            && (forall k | HasKey(mappings, k) && k !in s.targets :: k !in r.state.targets)
            && (forall k | HasKey(mappings, k) && k in s.targets ::
                  multiset(Get(r.state.targets, k)) == multiset(AddNames(s.targets[k], names)) - multiset(names))
  {
    var add, remove := Proxy(names, false, mappings, false), Proxy(names, false, mappings, true);
    TwoChanges(s, lb, add, remove);
    var s1 := Apply(s, lb, add).state;
    RoundTrip(s.bindings[lb], Entries(mappings));
    var t := ChangedTargets(s1.targets, mappings, names, true);
    forall k
      ensures !HasKey(mappings, k) ==> Agree(t, s.targets, k)
      ensures HasKey(mappings, k) && k !in s.targets ==> k !in t
      ensures HasKey(mappings, k) && k in s.targets ==>
                multiset(Get(t, k)) == multiset(AddNames(s.targets[k], names)) - multiset(names)
    {
      TargetsRoundTripAt(s.targets, mappings, names, k);
    }
  }

  lemma TargetsRoundTripAt(targets: Table<string>, mappings: seq<PortMapping>, names: seq<string>, k: string)
    requires names != [] && DistinctKeys(mappings)
    ensures var t := ChangedTargets(ChangedTargets(targets, mappings, names, false), mappings, names, true);
            && (!HasKey(mappings, k) ==> Agree(t, targets, k))
            && (HasKey(mappings, k) && k !in targets ==> k !in t)
            && (HasKey(mappings, k) && k in targets ==>
                  multiset(Get(t, k)) == multiset(AddNames(targets[k], names)) - multiset(names))
  {
    hide ChangedTarget, ChangedTargets, AddNames, DistinctKeys, HasKey;
    var added := ChangedTargets(targets, mappings, names, false);
    ChangedTargetsAt(targets, mappings, names, false, k);
    ChangedTargetsAt(added, mappings, names, true, k);
    if HasKey(mappings, k) {
      var one := ChangedTarget(targets, k, names, false);
      ChangedTargetLocal(added, one, k, names, true, k);
      TargetRoundTrip(targets, k, names);
    }
  }

  lemma TwoChanges(s: State, lb: Node, a: Change, b: Change)
    ensures Run(s, lb, [a]) == Apply(s, lb, a)
    ensures Run(s, lb, [a, b]) ==
            if Apply(s, lb, a).ok then Apply(Apply(s, lb, a).state, lb, b) else Apply(s, lb, a)
  {
    hide Apply;
    assert [a][..0] == [];
    assert Run(s, lb, [a][..0]) == Result(s, true);
    assert [a, b][..1] == [a];
  }

  /** When exactly adding mappings through the load balancer and removing them again restores all entries. */
  lemma ProxyRoundTripExactly(s: State, lb: Node, names: seq<string>, mappings: seq<PortMapping>, backends: set<string>)
    requires Sound(s, backends) && lb in s.bindings
    requires names != [] && DistinctKeys(mappings)
    ensures var add, remove := Proxy(names, false, mappings, false), Proxy(names, false, mappings, true);
            var t := Run(s, lb, [add, remove]).state.targets;
            (forall k :: multiset(Get(t, k)) == multiset(Get(s.targets, k))) <==>
            (forall k | HasKey(mappings, k) && k in s.targets :: OneNameAfterOne(s.targets[k], names))
  {
    hide Run, DistinctKeys, HasKey, AddNames, OneNameAfterOne;
    ProxyRoundTrip(s, lb, names, mappings, backends);
    var t := Run(s, lb, [Proxy(names, false, mappings, false), Proxy(names, false, mappings, true)]).state.targets;
    forall k
      ensures multiset(Get(t, k)) == multiset(Get(s.targets, k)) <==>
              (HasKey(mappings, k) && k in s.targets ==> OneNameAfterOne(s.targets[k], names))
    {
      if !HasKey(mappings, k) {
        assert Agree(t, s.targets, k);
      } else if k in s.targets {
        RestoredExactly(s.targets[k], names);
      }
    }
  }

  /** When no entry existed before, the configuration is restored exactly. */
  lemma FreshRoundTrip(s: State, lb: Node, names: seq<string>, mappings: seq<PortMapping>, backends: set<string>)
    requires Sound(s, backends) && lb in s.bindings
    requires names != [] && DistinctKeys(mappings)
    requires forall m | m in mappings :: ConfigKey(m.port) !in s.targets
    ensures var add, remove := Proxy(names, false, mappings, false), Proxy(names, false, mappings, true);
            Run(s, lb, [add, remove]).state.targets == s.targets
  {
    hide Run, Sound, DistinctKeys, ConfigKey;
    ProxyRoundTrip(s, lb, names, mappings, backends);
    var t := Run(s, lb, [Proxy(names, false, mappings, false), Proxy(names, false, mappings, true)]).state.targets;
    forall k ensures k in t <==> k in s.targets
             ensures k in t ==> t[k] == s.targets[k]
    {
      if HasKey(mappings, k) {
        assert k !in s.targets;
      } else {
        assert Agree(t, s.targets, k);
      }
    }
    assert t == s.targets;
  }
}
