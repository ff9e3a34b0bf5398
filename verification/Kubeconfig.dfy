/**
 Kubeconfigs: the configuration of a cluster is generated from what its server provides, merged
 into a file, and removed from it again when the cluster is deleted.

 A `Config` is the content of a file; a `Kubeconfig` is one loaded into memory, whose maps are
 changed entry by entry.
 */
module Kubeconfig {

  datatype ClusterInfo = ClusterInfo(server: string, data: string)
  datatype AuthInfo = AuthInfo(data: string)
  datatype Context = Context(cluster: string, authInfo: string, data: string)

  datatype Config = Config(clusters: map<string, ClusterInfo>, authInfos: map<string, AuthInfo>,
                           contexts: map<string, Context>, current: string)

  class Kubeconfig {
    var clusters: map<string, ClusterInfo>
    var authInfos: map<string, AuthInfo>
    var contexts: map<string, Context>
    var currentContext: string

    constructor (c: Config)
      ensures Value() == c
    {
      clusters, authInfos, contexts, currentContext := c.clusters, c.authInfos, c.contexts, c.current;
    }

    function Value(): Config
      reads this
    {
      Config(clusters, authInfos, contexts, currentContext)
    }
  }

  class File {
    var content: Config

    constructor (content: Config)
      ensures this.content == content
    {
      this.content := content;
    }

    /** The content is replaced by renaming a temporary file, or not at all. */
    method Write(c: Config) returns (ok: bool)
      modifies this
      ensures content == if ok then c else old(content)
    {
      ok := *;
      if ok {
        content := c;
      }
    }
  }

  // ---------- names ----------

  const PREFIX := "k3d-"
  const DEFAULT := "default"

  /** The name of the cluster entry and of the context of a cluster. */
  function EntryName(cluster: string): string { PREFIX + cluster }

  function UserName(cluster: string): string { "admin@" + PREFIX + cluster }

  lemma NamesInjective(a: string, b: string)
    ensures EntryName(a) == EntryName(b) <==> a == b
    ensures UserName(a) == UserName(b) <==> a == b
  {
    assert EntryName(a)[4..] == a && EntryName(b)[4..] == b;
    assert UserName(a)[10..] == a && UserName(b)[10..] == b;
  }

  // ---------- generating ----------

  /** A configuration without one of the entries named "default" makes the program panic. */
  predicate HasDefault(c: Config) {
    DEFAULT in c.clusters && DEFAULT in c.authInfos && DEFAULT in c.contexts
  }

  /** The entry `from` has become the entry `to`, with the value `v`; the others are as before. */
  ghost predicate IsMoved<T>(before: map<string, T>, after: map<string, T>, from: string, to: string, v: T) {
    && after.Keys == before.Keys - {from} + {to}
    && to in after && after[to] == v
    && forall k | k in before && k != from && k != to :: after[k] == before[k]
  }

  /** A moved entry is gone from its old key and there under the new one, and nothing else has changed. */
  lemma MovedMeaning<T>(before: map<string, T>, after: map<string, T>, from: string, to: string, v: T)
    requires from != to
    ensures IsMoved(before, after, from, to, v) <==> after == (before - {from})[to := v]
  {
    if IsMoved(before, after, from, to, v) {
      var moved := (before - {from})[to := v];
      assert after.Keys == moved.Keys;
      assert forall k | k in after :: after[k] == moved[k];
    }
  }

  method MoveEntry<T>(m: map<string, T>, from: string, to: string) returns (r: map<string, T>)
    requires from in m && from != to
    ensures IsMoved(m, r, from, to, m[from])
  {
    r := m[to := m[from]];
    r := r - {from};
  }

  /** What is specific to a cluster in the configuration generated for it. */
  datatype Entries = Entries(info: ClusterInfo, user: AuthInfo, data: string)

  function OwnContext(cluster: string, e: Entries): Context {
    Context(EntryName(cluster), UserName(cluster), e.data)
  }

  /** A configuration of exactly one cluster, whose context refers to its own entries. */
  function Generated(cluster: string, e: Entries): Config {
    Config(map[EntryName(cluster) := e.info], map[UserName(cluster) := e.user],
           map[EntryName(cluster) := OwnContext(cluster, e)], EntryName(cluster))
  }

  /** The entries named "default" get the names of the cluster and refer to each other by them. */
  method KubeconfigGet(kc: Kubeconfig, cluster: string, host: string, port: string)
    requires HasDefault(kc.Value())
    modifies kc
    ensures IsMoved(old(kc.clusters), kc.clusters, DEFAULT, EntryName(cluster),
                    ClusterInfo("https://" + host + ":" + port, old(kc.clusters)[DEFAULT].data))
    ensures IsMoved(old(kc.authInfos), kc.authInfos, DEFAULT, UserName(cluster), old(kc.authInfos)[DEFAULT])
    ensures IsMoved(old(kc.contexts), kc.contexts, DEFAULT, EntryName(cluster),
                    Context(EntryName(cluster), UserName(cluster), old(kc.contexts)[DEFAULT].data))
    ensures kc.currentContext == EntryName(cluster)
    ensures old(kc.clusters).Keys == old(kc.authInfos).Keys == old(kc.contexts).Keys == {DEFAULT} ==>
              kc.Value() == Generated(cluster,
                Entries(ClusterInfo("https://" + host + ":" + port, old(kc.clusters)[DEFAULT].data),
                        old(kc.authInfos)[DEFAULT], old(kc.contexts)[DEFAULT].data))
  {
    hide EntryName, UserName, IsMoved, Generated;
    NotDefault(cluster);
    ghost var before := kc.Value();
    kc.clusters := UpdateServer(kc.clusters, cluster, "https://" + host + ":" + port);
    kc.authInfos := MoveEntry(kc.authInfos, DEFAULT, UserName(cluster));
    kc.contexts := RenameContext(kc.contexts, cluster);
    kc.currentContext := EntryName(cluster);
    if before.clusters.Keys == before.authInfos.Keys == before.contexts.Keys == {DEFAULT} {
      MovedIsGenerated(before, kc.Value(), cluster,
                       Entries(ClusterInfo("https://" + host + ":" + port, before.clusters[DEFAULT].data),
                               before.authInfos[DEFAULT], before.contexts[DEFAULT].data));
    }
  }

  method UpdateServer(clusters: map<string, ClusterInfo>, cluster: string, url: string)
    returns (r: map<string, ClusterInfo>)
    requires DEFAULT in clusters && EntryName(cluster) != DEFAULT
    ensures IsMoved(clusters, r, DEFAULT, EntryName(cluster), ClusterInfo(url, clusters[DEFAULT].data))
  {
    hide EntryName;
    r := clusters[DEFAULT := clusters[DEFAULT].(server := url)];
    r := MoveEntry(r, DEFAULT, EntryName(cluster));
  }

  method RenameContext(contexts: map<string, Context>, cluster: string) returns (r: map<string, Context>)
    requires DEFAULT in contexts && EntryName(cluster) != DEFAULT
    ensures IsMoved(contexts, r, DEFAULT, EntryName(cluster),
                    Context(EntryName(cluster), UserName(cluster), contexts[DEFAULT].data))
  {
    hide EntryName, UserName;
    var newName := EntryName(cluster);
    r := MoveEntry(contexts, DEFAULT, newName);
    r := r[newName := r[newName].(authInfo := UserName(cluster))];
    r := r[newName := r[newName].(cluster := newName)];
  }

  lemma MovedIsGenerated(before: Config, after: Config, cluster: string, e: Entries)
    requires before.clusters.Keys == before.authInfos.Keys == before.contexts.Keys == {DEFAULT}
    requires IsMoved(before.clusters, after.clusters, DEFAULT, EntryName(cluster), e.info)
    requires IsMoved(before.authInfos, after.authInfos, DEFAULT, UserName(cluster), e.user)
    requires IsMoved(before.contexts, after.contexts, DEFAULT, EntryName(cluster), OwnContext(cluster, e))
    requires after.current == EntryName(cluster)
    ensures after == Generated(cluster, e)
  {
    hide EntryName, UserName, OwnContext;
    assert after.clusters == map[EntryName(cluster) := e.info];
    assert after.authInfos == map[UserName(cluster) := e.user];
    assert after.contexts == map[EntryName(cluster) := OwnContext(cluster, e)];
  }

  lemma NotDefault(cluster: string)
    ensures EntryName(cluster) != DEFAULT && UserName(cluster) != DEFAULT
  {
    assert EntryName(cluster)[0] == 'k' && UserName(cluster)[0] == 'a' && DEFAULT[0] == 'd';
  }

  // ---------- merging ----------

  /** Adds entries in whatever order; stops at the first key that is taken, unless it may overwrite. */
  method MergeEntries<T>(existing: map<string, T>, added: map<string, T>, overwrite: bool)
    returns (ok: bool, merged: map<string, T>)
    ensures ok <==> overwrite || existing.Keys !! added.Keys
    ensures ok ==> merged == existing + added
  {
    merged := existing;
    var rest := added.Keys;
    while rest != {}
      invariant rest <= added.Keys
      invariant merged == existing + (map k | k in added && k !in rest :: added[k])
      invariant !overwrite ==> existing.Keys !! (added.Keys - rest)
      decreases |rest|
    {
      var k :| k in rest;
      if k in merged && !overwrite {
        assert k in existing;
        return false, merged;
      }
      merged := merged[k := added[k]];
      rest := rest - {k};
    }
    ok := true;
  }

  ghost predicate Conflict(existing: Config, added: Config) {
    || !(existing.clusters.Keys !! added.clusters.Keys)
    || !(existing.authInfos.Keys !! added.authInfos.Keys)
    || !(existing.contexts.Keys !! added.contexts.Keys)
  }

  /** The added entries win; the current context changes if asked for, or if there was none. */
  function Merged(existing: Config, added: Config, updateCurrent: bool): Config {
    Config(existing.clusters + added.clusters, existing.authInfos + added.authInfos, existing.contexts + added.contexts,
           if updateCurrent || existing.current == "" then added.current else existing.current)
  }

  datatype MergeResult = Written | ConflictFound | WriteFailed

  /** A refused merge leaves the file as it was, although the copy in memory is already changed. */
  method KubeconfigMerge(added: Kubeconfig, existing: Kubeconfig, file: File, overwrite: bool,
                         updateCurrentContext: bool)
    returns (r: MergeResult)
    requires added != existing
    modifies existing, file
    ensures r.ConflictFound? <==> !overwrite && Conflict(old(existing.Value()), old(added.Value()))
    ensures r.Written? ==> file.content == Merged(old(existing.Value()), old(added.Value()), updateCurrentContext)
    ensures !r.Written? ==> file.content == old(file.content)
  {
    var ok;
    ok, existing.clusters := MergeEntries(existing.clusters, added.clusters, overwrite);
    if !ok {
      return ConflictFound;
    }
    ok, existing.authInfos := MergeEntries(existing.authInfos, added.authInfos, overwrite);
    if !ok {
      return ConflictFound;
    }
    ok, existing.contexts := MergeEntries(existing.contexts, added.contexts, overwrite);
    if !ok {
      return ConflictFound;
    }
    if updateCurrentContext || existing.currentContext == "" {
      existing.currentContext := added.currentContext;
    }
    ok := file.Write(existing.Value());
    r := if ok then Written else WriteFailed;
  }

  // ---------- removing ----------

  /** What removing a cluster leaves; `current` is the new current context. */
  function Without(c: Config, cluster: string, current: string): Config {
    Config(c.clusters - {EntryName(cluster)}, c.authInfos - {UserName(cluster)}, c.contexts - {EntryName(cluster)},
           current)
  }

  /** Another context takes over if the current one is removed; none if there is no other. */
  ghost predicate NextCurrent(c: Config, cluster: string, current: string) {
    var rest := c.contexts - {EntryName(cluster)};
    if c.current != EntryName(cluster) then current == c.current
    else if rest.Keys == {} then current == ""
    else current in rest
  }

  method KubeconfigRemoveCluster(kc: Kubeconfig, cluster: string)
    modifies kc
    ensures NextCurrent(old(kc.Value()), cluster, kc.currentContext)
    ensures kc.Value() == Without(old(kc.Value()), cluster, kc.currentContext)
  {
    var contextName := EntryName(cluster);
    kc.contexts := kc.contexts - {contextName};
    kc.clusters := kc.clusters - {contextName};
    kc.authInfos := kc.authInfos - {UserName(cluster)};
    if kc.currentContext == contextName {
      if kc.contexts.Keys != {} {
        var k :| k in kc.contexts;
        kc.currentContext := k;
      }
      if kc.currentContext == contextName {
        kc.currentContext := "";
      }
    }
  }

  // ---------- operations on a file ----------

  /** Loads the file and merges the configuration of one cluster into it. */
  method MergeIntoFile(file: File, generated: Kubeconfig, overwrite: bool, updateCurrentContext: bool,
                       ghost cluster: string, ghost e: Entries)
    returns (r: MergeResult)
    requires generated.Value() == Generated(cluster, e)
    modifies file
    ensures r.ConflictFound? <==> !overwrite && Conflict(old(file.content), Generated(cluster, e))
    ensures file.content ==
            After(old(file.content), Merge(cluster, e, overwrite, updateCurrentContext, !r.WriteFailed?))
  {
    var existing := new Kubeconfig(file.content);
    r := KubeconfigMerge(generated, existing, file, overwrite, updateCurrentContext);
  }

  method KubeconfigRemoveClusterFromDefaultConfig(file: File, cluster: string) returns (ok: bool, ghost current: string)
    modifies file
    ensures NextCurrent(old(file.content), cluster, current)
    ensures file.content == After(old(file.content), Remove(cluster, current, ok))
  {
    var kc := new Kubeconfig(file.content);
    KubeconfigRemoveCluster(kc, cluster);
    current := kc.currentContext;
    ok := file.Write(kc.Value());
  }

  // ---------- runs of merges and removals ----------

  /** One operation; `written` says whether the file could be written. */
  datatype Operation =
    | Merge(cluster: string, entries: Entries, overwrite: bool, updateCurrent: bool, written: bool)
    | Remove(cluster: string, current: string, written: bool)

  ghost function After(c: Config, op: Operation): Config {
    match op
    case Merge(cluster, entries, overwrite, updateCurrent, written) =>
      var generated := Generated(cluster, entries);
      if written && (overwrite || !Conflict(c, generated)) then Merged(c, generated, updateCurrent) else c
    case Remove(cluster, current, written) =>
      if written then Without(c, cluster, current) else c
  }

  /** The operation is one that the methods above can perform on `c`, for a cluster of `ours`. */
  ghost predicate Possible(c: Config, op: Operation, ours: set<string>) {
    op.cluster in ours && (op.Remove? ==> NextCurrent(c, op.cluster, op.current))
  }

  ghost function AfterAll(c: Config, ops: seq<Operation>): Config {
    if |ops| == 0 then c else After(AfterAll(c, ops[..|ops| - 1]), ops[|ops| - 1])
  }

  ghost predicate AllPossible(c: Config, ops: seq<Operation>, ours: set<string>) {
    |ops| > 0 ==>
      && AllPossible(c, ops[..|ops| - 1], ours)
      && Possible(AfterAll(c, ops[..|ops| - 1]), ops[|ops| - 1], ours)
  }

  /** The live clusters: those merged and not removed since, with the entries merged last. */
  type Live = map<string, Entries>

  ghost function LiveAfter(live: Live, op: Operation): Live {
    match op
    case Merge(cluster, entries, overwrite, _, written) =>
      if written && (overwrite || cluster !in live) then live[cluster := entries] else live
    case Remove(cluster, _, written) =>
      if written then live - {cluster} else live
  }

  ghost function LiveAfterAll(live: Live, ops: seq<Operation>): Live {
    if |ops| == 0 then live else LiveAfter(LiveAfterAll(live, ops[..|ops| - 1]), ops[|ops| - 1])
  }

  /**
   A map of a file holds the foreign entries, whose names are those of none of our clusters, and
   under the names of our clusters exactly the entries of `own`.
   */
  ghost predicate Holds<T>(m: map<string, T>, foreign: map<string, T>, own: map<string, T>,
                           name: string -> string, ours: set<string>)
  {
    && own.Keys <= ours
    && (forall k | Foreign(k, name, ours) :: (k in m <==> k in foreign) && (k in m ==> m[k] == foreign[k]))
    && (forall x | x in ours :: (name(x) in m <==> x in own) && (x in own ==> m[name(x)] == own[x]))
  }

  ghost predicate Foreign(k: string, name: string -> string, ours: set<string>) {
    forall x | x in ours :: k != name(x)
  }

  lemma HoldsAdded<T>(m: map<string, T>, foreign: map<string, T>, own: map<string, T>,
                      name: string -> string, ours: set<string>, x: string, v: T)
    requires Holds(m, foreign, own, name, ours) && x in ours
    requires forall y | y in ours && name(y) == name(x) :: y == x
    ensures Holds(m + map[name(x) := v], foreign, own[x := v], name, ours)
  {}

  lemma HoldsRemoved<T>(m: map<string, T>, foreign: map<string, T>, own: map<string, T>,
                        name: string -> string, ours: set<string>, x: string)
    requires Holds(m, foreign, own, name, ours) && x in ours
    requires forall y | y in ours && name(y) == name(x) :: y == x
    ensures Holds(m - {name(x)}, foreign, own - {x}, name, ours)
  {}

  /** The entries of the live clusters. */
  ghost function Infos(live: Live): map<string, ClusterInfo> { map x | x in live :: live[x].info }

  ghost function Users(live: Live): map<string, AuthInfo> { map x | x in live :: live[x].user }

  ghost function OwnContexts(live: Live): map<string, Context> { map x | x in live :: OwnContext(x, live[x]) }

  /**
   The content of the file is the foreign entries plus those of the live clusters, and its
   current context is empty or present.
   */
  ghost predicate Represents(c: Config, foreign: Config, live: Live, ours: set<string>) {
    && Holds(c.clusters, foreign.clusters, Infos(live), EntryName, ours)
    && Holds(c.authInfos, foreign.authInfos, Users(live), UserName, ours)
    && Holds(c.contexts, foreign.contexts, OwnContexts(live), EntryName, ours)
    && (c.current == "" || c.current in c.contexts)
  }

  lemma OurNames(ours: set<string>, x: string)
    ensures forall y | y in ours && EntryName(y) == EntryName(x) :: y == x
    ensures forall y | y in ours && UserName(y) == UserName(x) :: y == x
  {
    forall y | y in ours
      ensures EntryName(y) == EntryName(x) ==> y == x
      ensures UserName(y) == UserName(x) ==> y == x
    {
      NamesInjective(y, x);
    }
  }

  /** A merge without permission to overwrite is refused exactly if the cluster is live. */
  lemma RefusedExactly(c: Config, foreign: Config, live: Live, ours: set<string>, cluster: string, e: Entries)
    requires Represents(c, foreign, live, ours) && cluster in ours
    ensures Conflict(c, Generated(cluster, e)) <==> cluster in live
  {
    hide EntryName, UserName, Foreign, OwnContext;
    assert EntryName(cluster) in c.clusters <==> cluster in live;
    assert UserName(cluster) in c.authInfos <==> cluster in live;
    assert EntryName(cluster) in c.contexts <==> cluster in live;
  }

  lemma OwnAdded(live: Live, cluster: string, e: Entries)
    ensures Infos(live[cluster := e]) == Infos(live)[cluster := e.info]
    ensures Users(live[cluster := e]) == Users(live)[cluster := e.user]
    ensures OwnContexts(live[cluster := e]) == OwnContexts(live)[cluster := OwnContext(cluster, e)]
  {
    hide OwnContext;
  }

  lemma OwnRemoved(live: Live, cluster: string)
    ensures Infos(live - {cluster}) == Infos(live) - {cluster}
    ensures Users(live - {cluster}) == Users(live) - {cluster}
    ensures OwnContexts(live - {cluster}) == OwnContexts(live) - {cluster}
  {
    hide OwnContext;
  }

  lemma MergeRepresents(c: Config, foreign: Config, live: Live, ours: set<string>, cluster: string, e: Entries,
                        updateCurrent: bool)
    requires Represents(c, foreign, live, ours) && cluster in ours
    ensures Represents(Merged(c, Generated(cluster, e), updateCurrent), foreign, live[cluster := e], ours)
  {
    OurNames(ours, cluster);
    OwnAdded(live, cluster, e);
    hide EntryName, UserName, Holds, Infos, Users, OwnContexts, OwnContext;
    HoldsAdded(c.clusters, foreign.clusters, Infos(live), EntryName, ours, cluster, e.info);
    HoldsAdded(c.authInfos, foreign.authInfos, Users(live), UserName, ours, cluster, e.user);
    HoldsAdded(c.contexts, foreign.contexts, OwnContexts(live), EntryName, ours, cluster, OwnContext(cluster, e));
  }

  lemma RemoveRepresents(c: Config, foreign: Config, live: Live, ours: set<string>, cluster: string, current: string)
    requires Represents(c, foreign, live, ours) && cluster in ours && NextCurrent(c, cluster, current)
    ensures Represents(Without(c, cluster, current), foreign, live - {cluster}, ours)
  {
    OurNames(ours, cluster);
    OwnRemoved(live, cluster);
    hide EntryName, UserName, Holds, Infos, Users, OwnContexts;
    HoldsRemoved(c.clusters, foreign.clusters, Infos(live), EntryName, ours, cluster);
    HoldsRemoved(c.authInfos, foreign.authInfos, Users(live), UserName, ours, cluster);
    HoldsRemoved(c.contexts, foreign.contexts, OwnContexts(live), EntryName, ours, cluster);
  }

  lemma OperationRepresents(c: Config, foreign: Config, live: Live, ours: set<string>, op: Operation)
    requires Represents(c, foreign, live, ours) && Possible(c, op, ours)
    ensures Represents(After(c, op), foreign, LiveAfter(live, op), ours)
  {
    hide Represents, Generated, Conflict, NextCurrent;
    match op {
      case Merge(cluster, entries, overwrite, updateCurrent, written) =>
        RefusedExactly(c, foreign, live, ours, cluster, entries);
        MergeRepresents(c, foreign, live, ours, cluster, entries, updateCurrent);
      case Remove(cluster, current, written) =>
        RemoveRepresents(c, foreign, live, ours, cluster, current);
    }
  }

  /** Any run of merges and removals leaves exactly the foreign entries and those of the live clusters. */
  lemma {:induction false} RunRepresents(c: Config, foreign: Config, live: Live, ours: set<string>, ops: seq<Operation>)
    requires Represents(c, foreign, live, ours) && AllPossible(c, ops, ours)
    ensures Represents(AfterAll(c, ops), foreign, LiveAfterAll(live, ops), ours)
  {
    hide Represents, Possible, After, LiveAfter;
    if |ops| > 0 {
      var front := ops[..|ops| - 1];
      RunRepresents(c, foreign, live, ours, front);
      OperationRepresents(AfterAll(c, front), foreign, LiveAfterAll(live, front), ours, ops[|ops| - 1]);
    }
  }

  /** The context of every live cluster leads to the entries of that cluster. */
  lemma LiveContextsResolve(c: Config, foreign: Config, live: Live, ours: set<string>, cluster: string)
    requires Represents(c, foreign, live, ours) && cluster in live
    ensures EntryName(cluster) in c.contexts
    ensures var context := c.contexts[EntryName(cluster)];
            && context.cluster in c.clusters && c.clusters[context.cluster] == live[cluster].info
            && context.authInfo in c.authInfos && c.authInfos[context.authInfo] == live[cluster].user
  {
    hide EntryName, UserName, Foreign;
    assert cluster in Infos(live) && cluster in Users(live) && cluster in OwnContexts(live);
  }

  /**
   Merging a new cluster and removing it again restores all entries; the current context too,
   unless the merge had changed it.
   */
  lemma RemoveUndoesMerge(c: Config, cluster: string, e: Entries, updateCurrent: bool, current: string)
    requires !Conflict(c, Generated(cluster, e))
    requires NextCurrent(Merged(c, Generated(cluster, e), updateCurrent), cluster, current)
    ensures Without(Merged(c, Generated(cluster, e), updateCurrent), cluster, current) == c.(current := current)
    ensures if updateCurrent || c.current == "" then
              (if c.contexts == map[] then current == "" else current in c.contexts)
            else c.current != EntryName(cluster) ==> current == c.current
  {
    hide EntryName, UserName, OwnContext;
    var m := Merged(c, Generated(cluster, e), updateCurrent);
    assert c.clusters.Keys !! {EntryName(cluster)};
    assert c.authInfos.Keys !! {UserName(cluster)};
    assert c.contexts.Keys !! {EntryName(cluster)};
    assert m.clusters - {EntryName(cluster)} == c.clusters;
    assert m.authInfos - {UserName(cluster)} == c.authInfos;
    assert m.contexts - {EntryName(cluster)} == c.contexts;
  }

  // ---------- one merge and one removal, entry by entry ----------

  /**
   A merge into a file: refused if and only if one of the three entries is there and may not be overwritten;
   otherwise the three entries are there, the context refers to the other two, everything else stays, and the
   current context changes if that is asked for or if there was none.
   */
  lemma MergeMeaning(c: Config, cluster: string, e: Entries, overwrite: bool, updateCurrent: bool)
    ensures var name, user := "k3d-" + cluster, "admin@k3d-" + cluster;
            var after := After(c, Merge(cluster, e, overwrite, updateCurrent, true));
            if !overwrite && (name in c.clusters || user in c.authInfos || name in c.contexts) then after == c
            else
              && after.clusters == c.clusters[name := e.info]
              && after.authInfos == c.authInfos[user := e.user]
              && after.contexts == c.contexts[name := Context(name, user, e.data)]
              && after.current == if updateCurrent || c.current == "" then name else c.current
  {
    EntryNames(cluster);
    hide EntryName, UserName;
    OneKey(c.clusters, "k3d-" + cluster, e.info);
    OneKey(c.authInfos, "admin@k3d-" + cluster, e.user);
    OneKey(c.contexts, "k3d-" + cluster, OwnContext(cluster, e));
    assert OwnContext(cluster, e) == Context("k3d-" + cluster, "admin@k3d-" + cluster, e.data);
    hide OwnContext;
  }

  lemma OneKey<T>(m: map<string, T>, k: string, v: T)
    ensures m.Keys !! map[k := v].Keys <==> k !in m
    ensures m + map[k := v] == m[k := v]
  {}

  lemma EntryNames(cluster: string)
    ensures EntryName(cluster) == "k3d-" + cluster && UserName(cluster) == "admin@k3d-" + cluster
    ensures DEFAULT == "default"
  {
    assert "admin@" + "k3d-" == "admin@k3d-";
  }

  /**
   A removal from a file: the three entries are gone and everything else stays; if their context was the
   current one, another context takes over, or none if there is no other.
   */
  lemma RemovalMeaning(c: Config, cluster: string, current: string)
    requires NextCurrent(c, cluster, current)
    ensures var name, user := "k3d-" + cluster, "admin@k3d-" + cluster;
            var after := After(c, Remove(cluster, current, true));
            && after.clusters == c.clusters - {name}
            && after.authInfos == c.authInfos - {user}
            && after.contexts == c.contexts - {name}
            && if c.current != name then after.current == c.current
               else if after.contexts == map[] then after.current == ""
               else after.current in after.contexts
  {
    EntryNames(cluster);
  }

  /** An operation whose result cannot be written changes nothing. */
  lemma UnwrittenMeaning(c: Config, op: Operation)
    requires !op.written
    ensures After(c, op) == c
  {}

  /**
   What a file holds after any run, by name: the entries of the live clusters under their names, none of ours that
   are not live, and every entry of another name as it was among the foreign ones.
   */
  lemma RepresentsMeaning(c: Config, foreign: Config, live: Live, ours: set<string>, x: string, k: string)
    requires Represents(c, foreign, live, ours) && x in ours
    ensures var name, user := "k3d-" + x, "admin@k3d-" + x;
            && (name in c.clusters <==> x in live) && (x in live ==> c.clusters[name] == live[x].info)
            && (user in c.authInfos <==> x in live) && (x in live ==> c.authInfos[user] == live[x].user)
            && (name in c.contexts <==> x in live)
            && (x in live ==> c.contexts[name] == Context(name, user, live[x].data))
    ensures (forall y | y in ours :: k != "k3d-" + y) ==>
              && (k in c.clusters <==> k in foreign.clusters)
              && (k in c.clusters ==> c.clusters[k] == foreign.clusters[k])
              && (k in c.contexts <==> k in foreign.contexts)
              && (k in c.contexts ==> c.contexts[k] == foreign.contexts[k])
    ensures (forall y | y in ours :: k != "admin@k3d-" + y) ==>
              && (k in c.authInfos <==> k in foreign.authInfos)
              && (k in c.authInfos ==> c.authInfos[k] == foreign.authInfos[k])
    ensures c.current == "" || c.current in c.contexts
  {
    EntryNames(x);
    forall y ensures EntryName(y) == "k3d-" + y && UserName(y) == "admin@k3d-" + y {
      EntryNames(y);
    }
    hide EntryName, UserName;
    assert x in live ==> x in Infos(live) && x in Users(live) && x in OwnContexts(live);
    assert (forall y | y in ours :: k != "k3d-" + y) ==> Foreign(k, EntryName, ours);
    assert (forall y | y in ours :: k != "admin@k3d-" + y) ==> Foreign(k, UserName, ours);
  }

  /**
   Which clusters are live: those merged, by an operation that was written, and not removed since, and those that
   were live at the beginning and have not been removed.
   */
  lemma {:induction false} LiveMeaning(live: Live, ops: seq<Operation>, x: string)
    ensures x in LiveAfterAll(live, ops) <==>
              || (x in live && forall j | 0 <= j < |ops| :: !(ops[j].Remove? && ops[j].cluster == x && ops[j].written))
              || exists i :: 0 <= i < |ops| && ops[i].Merge? && ops[i].cluster == x && ops[i].written &&
                             forall j | i < j < |ops| :: !(ops[j].Remove? && ops[j].cluster == x && ops[j].written)
  {
    if |ops| > 0 {
      var front, last := ops[..|ops| - 1], ops[|ops| - 1];
      LiveMeaning(live, front, x);
      assert forall j | 0 <= j < |front| :: front[j] == ops[j];
      if last.cluster == x && last.written {
        if last.Merge? {
          assert ops[|front|] == last;
        }
      } else {
        assert x in LiveAfterAll(live, ops) <==> x in LiveAfterAll(live, front);
        if i :| 0 <= i < |front| && front[i].Merge? && front[i].cluster == x && front[i].written &&
                forall j | i < j < |front| :: !(front[j].Remove? && front[j].cluster == x && front[j].written) {
          assert ops[i].Merge? && ops[i].cluster == x && ops[i].written;
        }
        if i :| 0 <= i < |ops| && ops[i].Merge? && ops[i].cluster == x && ops[i].written &&
                forall j | i < j < |ops| :: !(ops[j].Remove? && ops[j].cluster == x && ops[j].written) {
          assert front[i].Merge? && front[i].cluster == x && front[i].written;
        }
      }
    }
  }
}
