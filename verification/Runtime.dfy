/**
 The container runtime as seen by k3d: containers with unique names that can be created,
 renamed, started, stopped and removed, where every call may fail.  A failing call may
 have taken effect all the same, for instance when the answer of the daemon is lost.
 */
module Runtime {
  import opened Types
  import opened Wrappers

  type Id = nat

  datatype Container = Container(name: string, labels: Labels, running: bool)

  /** What exists at one moment, and which containers have reported that they are ready. */
  datatype Snapshot = Snapshot(containers: map<Id, Container>, ready: set<Id>)

  /** A call of the runtime, and whether it reported success. */
  datatype Call =
    | Rename(name: string, newName: string)
    | Create(name: string)
    | Start(name: string)
    | Stop(name: string)
    | Delete(name: string)

  datatype Attempt = Attempt(call: Call, ok: bool)

  ghost predicate UniqueNames(containers: map<Id, Container>) {
    forall i, j | i in containers && j in containers && containers[i].name == containers[j].name :: i == j
  }

  predicate NameUsed(containers: map<Id, Container>, name: string) {
    exists i | i in containers :: containers[i].name == name
  }

  predicate Carries(own: Labels, wanted: Labels) {
    forall k | k in wanted :: k in own && own[k] == wanted[k]
  }

  /** Containers are looked up by their labels, and by their name with and without the prefix "k3d-". */
  predicate Matches(container: Container, name: string, labels: Labels) {
    (container.name == name || container.name == "k3d-" + name) && Carries(container.labels, labels)
  }

  predicate OnlyMatch(containers: map<Id, Container>, name: string, labels: Labels, id: Id) {
    && id in containers && Matches(containers[id], name, labels)
    && forall i | i in containers && Matches(containers[i], name, labels) :: i == id
  }

  /** Only containers that k3d has made are started and stopped. */
  predicate Managed(container: Container) {
    "app" in container.labels && container.labels["app"] == "k3d"
  }

  /** The look-up: by name, with and without "k3d-", among the containers with all labels; it must be the only one. */
  lemma LookupMeaning(containers: map<Id, Container>, name: string, labels: Labels, id: Id)
    ensures OnlyMatch(containers, name, labels, id) <==>
              && id in containers
              && forall i | i in containers ::
                   i == id <==>
                     && (containers[i].name == name || containers[i].name == "k3d-" + name)
                     && forall k | k in labels :: k in containers[i].labels && containers[i].labels[k] == labels[k]
  {
    forall i | i in containers
      ensures Matches(containers[i], name, labels) <==>
                && (containers[i].name == name || containers[i].name == "k3d-" + name)
                && forall k | k in labels :: k in containers[i].labels && containers[i].labels[k] == labels[k]
    {}
  }

  function Renamed(containers: map<Id, Container>, id: Id, name: string): map<Id, Container>
    requires id in containers
  {
    containers[id := containers[id].(name := name)]
  }

  function Switched(containers: map<Id, Container>, id: Id, running: bool): map<Id, Container>
    requires id in containers
  {
    containers[id := containers[id].(running := running)]
  }

  class Daemon {
    var containers: map<Id, Container>
    var ready: set<Id>
    ghost var history: seq<Snapshot>
    ghost var attempts: seq<Attempt>

    ghost function Now(): Snapshot reads this { Snapshot(containers, ready) }

    /** The history ends with the present state, and names have been unique all along. */
    ghost predicate Valid() reads this {
      && |history| > 0 && history[|history| - 1] == Now()
      && (forall i | 0 <= i < |history| :: UniqueNames(history[i].containers))
      && ready <= containers.Keys
    }

    constructor ()
      ensures Valid() && containers == map[] && ready == {} && history == [Now()] && attempts == []
    {
      containers, ready, attempts := map[], {}, [];
      history := [Snapshot(map[], {})];
    }

    /** Changes the state and records it; calls are recorded by the methods that make them. */
    method Step(containers': map<Id, Container>, ready': set<Id>)
      requires Valid() && UniqueNames(containers') && ready' <= containers'.Keys
      modifies this
      ensures Valid() && containers == containers' && ready == ready' && attempts == old(attempts)
      ensures history == old(history) + [Now()]
    {
      containers, ready := containers', ready';
      history := history + [Snapshot(containers', ready')];
    }

    /** The container a node stands for; fails when there is none or more than one. */
    method Lookup(name: string, labels: Labels) returns (r: Option<Id>)
      requires Valid()
      ensures r.Some? ==> OnlyMatch(containers, name, labels, r.value)
    {
      r := None;
      if * {
        if id :| id in containers && OnlyMatch(containers, name, labels, id) {
          r := Some(id);
        }
      }
    }

    // Each call returns whether it reported success and, for the specification, whether it
    // took effect and on which container: a success has taken effect, a failure may have.

    method RenameNode(name: string, labels: Labels, newName: string) returns (ok: bool, ghost done: bool, ghost id: Id)
      requires Valid()
      modifies this
      ensures Valid() && ready == old(ready)
      ensures ok ==> done
      ensures done ==> OnlyMatch(old(containers), name, labels, id) && !NameUsed(old(containers), newName)
      ensures containers == if done then Renamed(old(containers), id, newName) else old(containers)
      ensures attempts == old(attempts) + [Attempt(Rename(name, newName), ok)]
      ensures history == if done then old(history) + [Now()] else old(history)
    {
      ok, done, id := false, false, 0;
      attempts := attempts + [Attempt(Rename(name, newName), false)];
      var found := Lookup(name, labels);
      if found.None? || NameUsed(containers, newName) {
        return;
      }
      if * {
        return;
      }
      done, id := true, found.value;
      Step(Renamed(containers, found.value, newName), ready);
      ok := *;
      attempts := old(attempts) + [Attempt(Rename(name, newName), ok)];
    }

    method CreateNode(name: string, labels: Labels) returns (ok: bool, ghost done: bool, ghost id: Id)
      requires Valid()
      modifies this
      ensures Valid() && ready == old(ready)
      ensures ok ==> done
      ensures done ==> id !in old(containers) && !NameUsed(old(containers), name)
      ensures containers == if done then old(containers)[id := Container(name, labels, false)] else old(containers)
      ensures attempts == old(attempts) + [Attempt(Create(name), ok)]
      ensures history == if done then old(history) + [Now()] else old(history)
    {
      ok, done, id := false, false, 0;
      attempts := attempts + [Attempt(Create(name), false)];
      if NameUsed(containers, name) {
        return;
      }
      if * {
        return;
      }
      var unused := UnusedId(containers.Keys);
      done, id := true, unused;
      Step(containers[unused := Container(name, labels, false)], ready);
      ok := *;
      attempts := old(attempts) + [Attempt(Create(name), ok)];
    }

    /** After starting, the state of the container is inspected and reported. */
    method StartNode(name: string, labels: Labels) returns (ok: bool, running: bool, ghost done: bool, ghost id: Id)
      requires Valid()
      modifies this
      ensures Valid() && ready == old(ready)
      ensures ok ==> done
      ensures done ==> OnlyMatch(old(containers), name, labels, id) && Managed(old(containers)[id])
      ensures containers == if done then Switched(old(containers), id, true) else old(containers)
      ensures ok ==> running == containers[id].running
      ensures attempts == old(attempts) + [Attempt(Start(name), ok)]
      ensures history == if done then old(history) + [Now()] else old(history)
    {
      ok, running, done, id := false, false, false, 0;
      attempts := attempts + [Attempt(Start(name), false)];
      var found := Lookup(name, labels);
      if found.None? || !Managed(containers[found.value]) {
        return;
      }
      if * {
        return;
      }
      done, id := true, found.value;
      Step(Switched(containers, found.value, true), ready);
      ok, running := *, containers[found.value].running;
      attempts := old(attempts) + [Attempt(Start(name), ok)];
    }

    /** A stopped container is no longer ready. */
    method StopNode(name: string, labels: Labels) returns (ok: bool, ghost done: bool, ghost id: Id)
      requires Valid()
      modifies this
      ensures Valid()
      ensures ok ==> done
      ensures done ==> OnlyMatch(old(containers), name, labels, id) && Managed(old(containers)[id])
      ensures containers == if done then Switched(old(containers), id, false) else old(containers)
      ensures ready == if done then old(ready) - {id} else old(ready)
      ensures attempts == old(attempts) + [Attempt(Stop(name), ok)]
      ensures history == if done then old(history) + [Now()] else old(history)
    {
      ok, done, id := false, false, 0;
      attempts := attempts + [Attempt(Stop(name), false)];
      var found := Lookup(name, labels);
      if found.None? || !Managed(containers[found.value]) {
        return;
      }
      if * {
        return;
      }
      done, id := true, found.value;
      Step(Switched(containers, found.value, false), ready - {found.value});
      ok := *;
      attempts := old(attempts) + [Attempt(Stop(name), ok)];
    }

    /** Removal goes by the exact name; it also removes a running container. */
    method DeleteNode(name: string) returns (ok: bool, ghost done: bool, ghost id: Id)
      requires Valid()
      modifies this
      ensures Valid()
      ensures ok ==> done
      ensures done ==> id in old(containers) && old(containers)[id].name == name
      ensures containers == if done then old(containers) - {id} else old(containers)
      ensures ready == if done then old(ready) - {id} else old(ready)
      ensures attempts == old(attempts) + [Attempt(Delete(name), ok)]
      ensures history == if done then old(history) + [Now()] else old(history)
    {
      ok, done, id := false, false, 0;
      attempts := attempts + [Attempt(Delete(name), false)];
      if !NameUsed(containers, name) {
        return;
      }
      if * {
        return;
      }
      var target :| target in containers && containers[target].name == name;
      done, id := true, target;
      Step(containers - {target}, ready - {target});
      ok := *;
      attempts := old(attempts) + [Attempt(Delete(name), ok)];
    }

    /** The ready message was seen in the log of the container the name stands for. */
    method ReportReady(name: string, labels: Labels)
      requires Valid()
      modifies this
      ensures Valid() && containers == old(containers) && attempts == old(attempts)
      ensures ready == old(ready) + set id | id in containers && OnlyMatch(containers, name, labels, id)
      ensures history == old(history) + [Now()]
    {
      Step(containers, ready + set id | id in containers && OnlyMatch(containers, name, labels, id));
    }
  }

  method UnusedId(ids: set<Id>) returns (id: Id)
    ensures id !in ids
  {
    id := 0;
    var rest := ids;
    while id in rest
      invariant forall i | i in ids && i !in rest :: i < id
      decreases rest
    {
      rest := rest - {id};
      id := id + 1;
    }
  }
}
