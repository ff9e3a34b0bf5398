/**
 Maps from keys to lists, changed by adding one value to the list of a key and by removing the
 first occurrence of one value, where a list that becomes empty loses its key.  Port bindings
 and load-balancer targets are both kept in this form.
 */
module Tables {

  datatype Entry<T> = Entry(key: string, value: T)

  type Table<T> = map<string, seq<T>>

  /** The list of a key; a missing key reads as an empty list. */
  function Get<T>(t: Table<T>, k: string): seq<T> {
    if k in t then t[k] else []
  }

  /** Stores a list, deleting the key when the list is empty. */
  function Put<T>(t: Table<T>, k: string, xs: seq<T>): Table<T> {
    if |xs| == 0 then t - {k} else t[k := xs]
  }

  ghost predicate NoEmpty<T>(t: Table<T>) {
    forall k | k in t :: t[k] != []
  }

  // ---------- lists ----------

  function RemoveByIndex<T>(xs: seq<T>, i: nat): seq<T>
    requires i < |xs|
  {
    xs[..i] + xs[i + 1..]
  }

  function RemoveFirst<T(==)>(xs: seq<T>, x: T): seq<T> {
    if |xs| == 0 then []
    else if xs[0] == x then xs[1..]
    else [xs[0]] + RemoveFirst(xs[1..], x)
  }

  lemma {:induction false} RemoveFirstMultiset<T>(xs: seq<T>, x: T)
    ensures multiset(RemoveFirst(xs, x)) == multiset(xs) - multiset{x}
  {
    if |xs| > 0 {
      var first, rest := xs[0], xs[1..];
      assert xs == [first] + rest;
      if first != x {
        RemoveFirstMultiset(rest, x);
        assert multiset([first] + RemoveFirst(rest, x)) == multiset{first} + (multiset(rest) - multiset{x});
      }
    }
  }

  /** What `RemoveFirst` removes is the element at the first index that holds `x`. */
  lemma {:induction false} RemoveFirstAt<T>(xs: seq<T>, x: T, i: nat)
    requires i < |xs| && xs[i] == x && x !in xs[..i]
    ensures RemoveFirst(xs, x) == RemoveByIndex(xs, i)
  {
    if i > 0 {
      assert xs[..i][0] == xs[0];
      assert xs[1..][..i - 1] == xs[..i][1..];
      RemoveFirstAt(xs[1..], x, i - 1);
    }
  }

  lemma {:induction false} RemoveAbsent<T>(xs: seq<T>, x: T)
    requires x !in xs
    ensures RemoveFirst(xs, x) == xs
  {
    if xs != [] {
      RemoveAbsent(xs[1..], x);
    }
  }

  /** The loop: scan for the first match and shift the rest down over it. */
  method RemoveFirstFound<T(==)>(xs: seq<T>, x: T) returns (r: seq<T>)
    ensures r == RemoveFirst(xs, x)
  {
    for i := 0 to |xs|
      invariant x !in xs[..i]
    {
      if xs[i] == x {
        RemoveFirstAt(xs, x, i);
        return RemoveByIndex(xs, i);
      }
      assert xs[..i + 1] == xs[..i] + [xs[i]];
    }
    assert xs[..|xs|] == xs;
    RemoveAbsent(xs, x);
    return xs;
  }

  /** Removes the values of `ys` one after another. */
  function RemoveAll<T(==)>(xs: seq<T>, ys: seq<T>): seq<T> {
    if |ys| == 0 then xs else RemoveFirst(RemoveAll(xs, ys[..|ys| - 1]), ys[|ys| - 1])
  }

  lemma {:induction false} RemoveAllMultiset<T>(xs: seq<T>, ys: seq<T>)
    ensures multiset(RemoveAll(xs, ys)) == multiset(xs) - multiset(ys)
  {
    if |ys| > 0 {
      var front, last := ys[..|ys| - 1], ys[|ys| - 1];
      assert ys == front + [last];
      RemoveAllMultiset(xs, front);
      RemoveFirstMultiset(RemoveAll(xs, front), last);
    }
  }

  lemma {:induction false} RemoveAllHead<T>(xs: seq<T>, ys: seq<T>)
    requires ys != []
    ensures RemoveAll(xs, ys) == RemoveAll(RemoveFirst(xs, ys[0]), ys[1..])
  {
    if |ys| == 1 {
      assert RemoveAll(xs, ys[..0]) == xs;
    } else {
      var front := ys[..|ys| - 1];
      RemoveAllHead(xs, front);
      assert front[1..] == ys[1..][..|ys[1..]| - 1];
    }
  }

  /** Values appended to a list that has none of them are removed without a trace. */
  lemma {:induction false} RemoveAppended<T>(xs: seq<T>, ys: seq<T>)
    requires forall y | y in ys :: y !in xs
    ensures RemoveAll(xs + ys, ys) == xs
  {
    if ys == [] {
      assert xs + ys == xs;
    } else {
      var all := xs + ys;
      assert all[..|xs|] == xs;
      RemoveFirstAt(all, ys[0], |xs|);
      assert RemoveByIndex(all, |xs|) == xs + ys[1..];
      RemoveAllHead(all, ys);
      RemoveAppended(xs, ys[1..]);
    }
  }

  // ---------- tables ----------

  function AddOne<T>(t: Table<T>, e: Entry<T>): Table<T> {
    t[e.key := Get(t, e.key) + [e.value]]
  }

  function RemoveOne<T(==)>(t: Table<T>, e: Entry<T>): Table<T> {
    Put(t, e.key, RemoveFirst(Get(t, e.key), e.value))
  }

  function AddEntries<T>(t: Table<T>, es: seq<Entry<T>>): Table<T> {
    if |es| == 0 then t else AddOne(AddEntries(t, es[..|es| - 1]), es[|es| - 1])
  }

  function RemoveEntries<T(==)>(t: Table<T>, es: seq<Entry<T>>): Table<T> {
    if |es| == 0 then t else RemoveOne(RemoveEntries(t, es[..|es| - 1]), es[|es| - 1])
  }

  /** The values of the entries with key `k`, in order. */
  function Select<T>(es: seq<Entry<T>>, k: string): seq<T> {
    if |es| == 0 then []
    else
      var front, last := Select(es[..|es| - 1], k), es[|es| - 1];
      if last.key == k then front + [last.value] else front
  }

  lemma {:induction false} SelectMembers<T>(es: seq<Entry<T>>, k: string, x: T)
    ensures x in Select(es, k) <==> Entry(k, x) in es
  {
    if es != [] {
      var front, last := es[..|es| - 1], es[|es| - 1];
      SelectMembers(front, k, x);
      assert es == front + [last];
    }
  }

  lemma {:induction false} AddEntriesAt<T>(t: Table<T>, es: seq<Entry<T>>, k: string)
    ensures Get(AddEntries(t, es), k) == Get(t, k) + Select(es, k)
    ensures k in AddEntries(t, es) <==> k in t || Select(es, k) != []
  {
    if es != [] {
      AddEntriesAt(t, es[..|es| - 1], k);
    }
  }

  lemma {:induction false} RemoveEntriesAt<T>(t: Table<T>, es: seq<Entry<T>>, k: string)
    ensures Get(RemoveEntries(t, es), k) == RemoveAll(Get(t, k), Select(es, k))
    ensures k in RemoveEntries(t, es) ==> k in t
    ensures k in RemoveEntries(t, es) && Select(es, k) != [] ==> Get(RemoveEntries(t, es), k) != []
    ensures Select(es, k) == [] ==> (k in RemoveEntries(t, es) <==> k in t)
  {
    if es != [] {
      var front, last := es[..|es| - 1], es[|es| - 1];
      RemoveEntriesAt(t, front, k);
      if last.key == k {
        var s := Select(es, k);
        assert s[..|s| - 1] == Select(front, k);
      }
    }
  }

  lemma AddKeepsNoEmpty<T>(t: Table<T>, es: seq<Entry<T>>)
    requires NoEmpty(t)
    ensures NoEmpty(AddEntries(t, es))
  {
    forall k | k in AddEntries(t, es) ensures AddEntries(t, es)[k] != [] {
      AddEntriesAt(t, es, k);
    }
  }

  lemma RemoveKeepsNoEmpty<T>(t: Table<T>, es: seq<Entry<T>>)
    requires NoEmpty(t)
    ensures NoEmpty(RemoveEntries(t, es))
  {
    forall k | k in RemoveEntries(t, es) ensures RemoveEntries(t, es)[k] != [] {
      RemoveEntriesAt(t, es, k);
      if Select(es, k) == [] {
        assert RemoveAll(Get(t, k), []) == Get(t, k);
      }
    }
  }

  /**
   Adding entries and removing the same ones restores the keys and, for every key, the multiset
   of values; the very list when none of the added values was there before.
   */
  lemma RoundTrip<T>(t: Table<T>, es: seq<Entry<T>>)
    requires NoEmpty(t)
    ensures var t' := RemoveEntries(AddEntries(t, es), es);
            && t'.Keys == t.Keys
            && (forall k :: multiset(Get(t', k)) == multiset(Get(t, k)))
            && (forall k :: New(t, es, k) ==> Get(t', k) == Get(t, k))
  {
    hide New, AddEntries, RemoveEntries;
    var t' := RemoveEntries(AddEntries(t, es), es);
    forall k
      ensures multiset(Get(t', k)) == multiset(Get(t, k))
      ensures New(t, es, k) ==> Get(t', k) == Get(t, k)
      ensures k in t' <==> k in t
    {
      RoundTripAt(t, es, k);
    }
  }

  /** None of the values that `es` has for the key `k` is in the list of that key. */
  ghost predicate New<T>(t: Table<T>, es: seq<Entry<T>>, k: string) {
    forall e | e in es && e.key == k :: e.value !in Get(t, k)
  }

  lemma RoundTripAt<T>(t: Table<T>, es: seq<Entry<T>>, k: string)
    requires NoEmpty(t)
    ensures var t' := RemoveEntries(AddEntries(t, es), es);
            && (k in t' <==> k in t)
            && multiset(Get(t', k)) == multiset(Get(t, k))
            && (New(t, es, k) ==> Get(t', k) == Get(t, k))
  {
    hide AddEntries, RemoveEntries, RemoveFirst, RemoveAll, Select;
    var added := AddEntries(t, es);
    var t' := RemoveEntries(added, es);
    var sel := Select(es, k);
    AddEntriesAt(t, es, k);
    RemoveEntriesAt(added, es, k);
    RemoveAllMultiset(Get(t, k) + sel, sel);
    assert multiset(Get(t', k)) == multiset(Get(t, k));
    if New(t, es, k) {
      forall y | y in sel ensures y !in Get(t, k) {
        SelectMembers(es, k, y);
        assert Entry(k, y) in es;
      }
      RemoveAppended(Get(t, k), sel);
    }
    AddKeepsNoEmpty(t, es);
    RemoveKeepsNoEmpty(added, es);
    SameMultisetEmpty(Get(t', k), Get(t, k));
  }

  lemma SameMultisetEmpty<T>(a: seq<T>, b: seq<T>)
    requires multiset(a) == multiset(b)
    ensures a == [] <==> b == []
  {
    assert |multiset(a)| == |a| && |multiset(b)| == |b|;
  }
}
