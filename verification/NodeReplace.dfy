/**
 Replacing a node by a changed copy of it: rename the old container, create the new one,
 stop the old, start the new, delete the old, and undo what was done when a call fails.

 The contract of `NodeReplace` speaks about every state the runtime passes through, for
 every schedule of failing calls.
 */
module NodeReplace {
  import opened ReadyLog
  import opened Runtime
  import opened Types

  datatype ReplaceResult =
    | Replaced
    | RenameFailed
    | CreateFailedRolledBack
    | CreateFailedRenameFailed
    | StopFailed
    | StartFailedRenameFailed
    | StartFailedRestartFailed
    | StartFailedRolledBack

  /** A look-up by the name of an existing container finds that container or nothing. */
  lemma FoundByName(containers: map<Id, Container>, name: string, labels: Labels, id: Id, found: Id)
    requires id in containers && containers[id].name == name && Carries(containers[id].labels, labels)
    requires OnlyMatch(containers, name, labels, found)
    ensures found == id
  {
    assert Matches(containers[id], name, labels);
  }

  /** The container a node describes: it has the name and carries the labels. */
  ghost predicate IsOf(containers: map<Id, Container>, id: Id, node: Node)
    reads node`name, node`labels
  {
    id in containers && containers[id].name == node.name && Carries(containers[id].labels, node.labels)
  }

  /** A container is deleted by its own name. */
  lemma DeletedByName(containers: map<Id, Container>, id: Id, deleted: Id)
    requires UniqueNames(containers)
    requires id in containers && deleted in containers && containers[deleted].name == containers[id].name
    ensures deleted == id
  {}

  lemma UnusedByAll(containers: map<Id, Container>, name: string)
    requires !NameUsed(containers, name)
    ensures forall i | i in containers :: containers[i].name != name
  {}

  lemma ValidNames(rt: Daemon)
    requires rt.Valid()
    ensures UniqueNames(rt.containers)
  {}

  // ---------- which calls are made ----------

  /** The calls of one node start: none if it is taken to be running; a success has made the call. */
  ghost predicate Starting(running: bool, name: string, t: seq<Attempt>, ok: bool) {
    if running then ok && t == []
    else if ok then t == [Attempt(Start(name), true)]
    else t == [] || (|t| == 1 && t[0].call == Start(name))
  }

  ghost predicate Deleting(name: string, t: seq<Attempt>) {
    |t| == 1 && t[0].call == Delete(name)
  }

  /** The call number `k` was made and has reported success. */
  ghost predicate Reported(t: seq<Attempt>, k: nat) {
    k < |t| && t[k].ok
  }

  ghost predicate LastReported(t: seq<Attempt>) {
    |t| > 0 && t[|t| - 1].ok
  }

  /** How many of the first calls are those of starting `name`. */
  ghost function Starts(t: seq<Attempt>, name: string): nat {
    if |t| > 0 && t[0].call == Start(name) then 1 else 0
  }

  /**
   Starts a node and waits until it is ready.  Nothing is done when the in-memory description
   says that the node is running already, whatever the runtime thinks.
   */
  method NodeStart(rt: Daemon, node: Node, wait: bool, message: string, intent: Intent)
    returns (ok: bool, ghost started: bool, ghost id: Id)
    requires rt.Valid()
    modifies rt, node`running
    ensures rt.Valid()
    ensures old(node.running) ==> ok && !started
    ensures !started ==>
              rt.containers == old(rt.containers) && rt.ready == old(rt.ready) && rt.history == old(rt.history)
    ensures !started ==> node.running == old(node.running)
    ensures started ==> OnlyMatch(old(rt.containers), node.name, node.labels, id)
    ensures started ==> rt.containers == Switched(old(rt.containers), id, true)
    ensures started ==> rt.ready == old(rt.ready) || rt.ready == old(rt.ready) + {id}
    ensures started ==> rt.history == old(rt.history) + [Snapshot(rt.containers, old(rt.ready))] ||
                        rt.history == old(rt.history) + [Snapshot(rt.containers, old(rt.ready)), rt.Now()]
    ensures old(rt.attempts) <= rt.attempts
    ensures Starting(old(node.running), node.name, rt.attempts[|old(rt.attempts)|..], ok)
    ensures Reported(rt.attempts, |old(rt.attempts)|) ==> started
    ensures ok && !old(node.running) ==> started && node.running == rt.containers[id].running
    ensures ok && !old(node.running) && wait && HasReadyMessage(node.role) ==> id in rt.ready
  {
    hide UniqueNames, Matches, Daemon.Valid, HasReadyMessage, ReadyLogMessage;
    ok, started, id := false, false, 0;
    if node.running {
      return true, false, 0;
    }
    if * {
      return;  // a fix could not be enabled
    }
    // failing pre-start hooks are only logged
    var startOk, running;
    startOk, running, started, id := rt.StartNode(node.name, node.labels);
    if !startOk {
      return;
    }
    node.running := running;
    if wait {
      var ready := if message == "" then ReadyLogMessage(node.role, node.isInit, intent) else message;
      ReadyMessageExists(node.role, node.isInit, intent);
      if ready != "" {
        if * {
          return;  // the message was not found
        }
        StillOnlyMatch(old(rt.containers), node.name, node.labels, id);
        rt.ReportReady(node.name, node.labels);
      }
    }
    ok := *;  // post-start hooks
  }

  lemma StillOnlyMatch(containers: map<Id, Container>, name: string, labels: Labels, id: Id)
    requires OnlyMatch(containers, name, labels, id)
    ensures var on := Switched(containers, id, true);
            (set x | x in on && OnlyMatch(on, name, labels, x)) == {id}
  {
    assert OnlyMatch(Switched(containers, id, true), name, labels, id);
  }

  /** Deletes a node; that the runtime fails to remove the container is only logged. */
  method NodeDelete(rt: Daemon, node: Node, skipLBUpdate: bool)
    returns (ok: bool, ghost done: bool, ghost id: Id)
    requires rt.Valid()
    modifies rt
    ensures rt.Valid()
    ensures done ==> id in old(rt.containers) && old(rt.containers)[id].name == node.name
    ensures rt.containers == if done then old(rt.containers) - {id} else old(rt.containers)
    ensures rt.ready == if done then old(rt.ready) - {id} else old(rt.ready)
    ensures rt.history == if done then old(rt.history) + [rt.Now()] else old(rt.history)
    ensures skipLBUpdate ==> ok
    ensures old(rt.attempts) <= rt.attempts && Deleting(node.name, rt.attempts[|old(rt.attempts)|..])
    ensures Reported(rt.attempts, |old(rt.attempts)|) ==> done
  {
    var removed;
    removed, done, id := rt.DeleteNode(node.name);
    ok := true;
    if !skipLBUpdate && (node.role == Server || node.role == Agent) {
      ok := *;  // updating the load balancer
    }
  }

  // ---------- what replacing promises ----------

  /** The service of the old container: it exists, or a new one has taken over its name. */
  ghost predicate Kept(s: Snapshot, oldId: Id, name: string, needsReady: bool) {
    oldId in s.containers || exists n :: Serves(s, n, name, needsReady)
  }

  /** A container runs under the name and, where that can be seen, has become ready. */
  ghost predicate Serves(s: Snapshot, n: Id, name: string, needsReady: bool) {
    n in s.containers && s.containers[n].name == name && s.containers[n].running && (needsReady ==> n in s.ready)
  }

  /** What is being replaced: the names and in-memory flags at the start. */
  datatype Job = Job(oldId: Id, original: string, temp: string, oldRunning: bool,
                     newName: string, newLabels: Labels, newRunning: bool, newRole: Role)

  /** Every state since the start keeps the service, unless the copy claims to run already. */
  ghost predicate KeptSince(history: seq<Snapshot>, start: seq<Snapshot>, job: Job) {
    && start <= history
    && (!job.newRunning ==>
          forall i | |start| <= i < |history| ::
            Kept(history[i], job.oldId, job.newName, HasReadyMessage(job.newRole)))
  }

  /** The containers other than the two are untouched, and no third one has appeared. */
  ghost predicate OthersKept(before: map<Id, Container>, after: map<Id, Container>, oldId: Id, newId: Id) {
    && after.Keys <= before.Keys + {newId}
    && forall i | i in before && i != oldId :: i in after && after[i] == before[i]
  }

  /** The containers of a replacement that has done everything. */
  function Exchanged(before: map<Id, Container>, job: Job, newId: Id): map<Id, Container> {
    (before - {job.oldId})[newId := Container(job.newName, job.newLabels, !job.newRunning)]
  }

  /** The old container as it was stopped under its temporary name. */
  function LeftBehind(before: map<Id, Container>, job: Job): Container
    requires job.oldId in before
  {
    before[job.oldId].(name := job.temp, running := false)
  }

  /** The old container has been renamed and the new one created. */
  function Created(before: map<Id, Container>, job: Job, newId: Id): map<Id, Container>
    requires job.oldId in before
  {
    Renamed(before, job.oldId, job.temp)[newId := Container(job.newName, job.newLabels, false)]
  }

  /** The old container has its name back or not, and what is left of the new one is what was created. */
  ghost predicate Undoing(before: map<Id, Container>, after: map<Id, Container>, job: Job, newId: Id,
                          back: bool, running: bool)
    requires job.oldId in before
  {
    && newId !in before
    && job.oldId in after
    && after[job.oldId] == before[job.oldId].(name := if back then job.original else job.temp, running := running)
    && (newId in after ==> after[newId] == Container(job.newName, job.newLabels, after[newId].running))
    && (back && job.newName == job.original ==> newId !in after)
  }

  /** The containers at the end, for each result. */
  ghost predicate Outcome(r: ReplaceResult, before: map<Id, Container>, after: map<Id, Container>, job: Job, newId: Id)
    requires job.oldId in before
  {
    var o := job.oldId;
    && OthersKept(before, after, o, newId)
    && match r
       case Replaced =>
         && newId !in before
         && (after == Exchanged(before, job, newId) ||
             after == Exchanged(before, job, newId)[o := LeftBehind(before, job)])
       case RenameFailed =>
         after == before || after == Renamed(before, o, job.temp)
       case CreateFailedRolledBack =>
         // creating may have taken effect, but then its name is not free for the old container
         after == before || (job.newName != job.original && newId !in before &&
                             after == before[newId := Container(job.newName, job.newLabels, false)])
       case CreateFailedRenameFailed =>
         || after == before || after == Renamed(before, o, job.temp)
         || (newId !in before &&
             (after == Created(before, job, newId) ||
              (job.newName != job.original && after == Renamed(Created(before, job, newId), o, job.original))))
       case StopFailed =>
         newId !in before && (after == Created(before, job, newId) || after == Prepared(before, job, newId))
       case StartFailedRenameFailed =>
         // the name may be back all the same
         Undoing(before, after, job, newId, false, false) || Undoing(before, after, job, newId, true, false)
       case StartFailedRestartFailed =>
         !job.oldRunning && exists running :: Undoing(before, after, job, newId, true, running)
       case StartFailedRolledBack =>
         // the old container runs again exactly if memory did not say it was running all along
         Undoing(before, after, job, newId, true, !job.oldRunning)
  }

  /**
   Among the calls `t` made after the old node was stopped, those that reported success have taken
   effect: the start of the new container, the deletion of the old or the new one, and the restart.
   */
  ghost predicate TookEffect(r: ReplaceResult, after: map<Id, Container>, job: Job, newId: Id, t: seq<Attempt>) {
    var k := Starts(t, job.newName);
    && (k == 1 && t[0].ok && newId in after ==> after[newId].running)
    && (Reported(t, k) ==> (if r.Replaced? then job.oldId else newId) !in after)
    && (!r.Replaced? && Reported(t, k + 2) ==> job.oldId in after && after[job.oldId].running)
  }

  /** The calls that undo a failed start, after the new node was deleted. */
  ghost predicate UndoCalls(r: ReplaceResult, job: Job, t: seq<Attempt>) {
    && |t| >= 1 && t[0] == Attempt(Rename(job.temp, job.original), !r.StartFailedRenameFailed?)
    && if r.StartFailedRenameFailed? then |t| == 1
       else Starting(job.oldRunning, job.original, t[1..], r.StartFailedRolledBack?)
  }

  /** The calls after the old node was stopped: start the new one; then delete the old, or the new and undo. */
  ghost predicate SwitchCalls(r: ReplaceResult, job: Job, t: seq<Attempt>) {
    var k := Starts(t, job.newName);
    && Starting(job.newRunning, job.newName, t[..k], r.Replaced?)
    && if r.Replaced? then Deleting(job.temp, t[k..])
       else |t| > k && Deleting(job.newName, t[k..k + 1]) && UndoCalls(r, job, t[k + 1..])
  }

  /** The calls that succeed before the new node is started. */
  ghost function PreparingCalls(job: Job): seq<Attempt> {
    [Attempt(Rename(job.original, job.temp), true), Attempt(Create(job.newName), true), Attempt(Stop(job.temp), true)]
  }

  /** The calls of a replacement that fails before the new node is started. */
  ghost function FailedCalls(r: ReplaceResult, job: Job): seq<Attempt>
    requires r in {RenameFailed, CreateFailedRolledBack, CreateFailedRenameFailed, StopFailed}
  {
    var ready := PreparingCalls(job);
    match r
    case RenameFailed => [ready[0].(ok := false)]
    case StopFailed => [ready[0], ready[1], ready[2].(ok := false)]
    case _ => [ready[0], ready[1].(ok := false), Attempt(Rename(job.temp, job.original), r.CreateFailedRolledBack?)]
  }

  /** The calls of a replacement, in order, for each result. */
  ghost predicate Calls(r: ReplaceResult, job: Job, t: seq<Attempt>) {
    if r in {RenameFailed, CreateFailedRolledBack, CreateFailedRenameFailed, StopFailed} then t == FailedCalls(r, job)
    else |t| > 3 && t[..3] == PreparingCalls(job) && SwitchCalls(r, job, t[3..])
  }

  lemma SwitchCallsIntro(r: ReplaceResult, job: Job, starting: seq<Attempt>, deleting: seq<Attempt>, rest: seq<Attempt>)
    requires Starting(job.newRunning, job.newName, starting, r.Replaced?)
    requires Deleting(if r.Replaced? then job.temp else job.newName, deleting)
    requires if r.Replaced? then rest == [] else UndoCalls(r, job, rest)
    ensures SwitchCalls(r, job, starting + deleting + rest)
    ensures |starting + deleting + rest| > 0
  {
    hide UndoCalls;
    var t := starting + deleting + rest;
    var k := |starting|;
    assert t[0] == if k == 0 then deleting[0] else starting[0];
    assert Starts(t, job.newName) == k;
    assert t[..k] == starting && t[k + 1..] == rest && t[k..k + 1] == deleting;
    assert rest == [] ==> t[k..] == deleting;
  }

  lemma CallsIntro(r: ReplaceResult, job: Job, rest: seq<Attempt>)
    requires r in {Replaced, StartFailedRenameFailed, StartFailedRestartFailed, StartFailedRolledBack}
    requires |rest| > 0 && SwitchCalls(r, job, rest)
    ensures Calls(r, job, PreparingCalls(job) + rest)
  {
    hide SwitchCalls;
    var first := PreparingCalls(job);
    assert (first + rest)[..3] == first && (first + rest)[3..] == rest;
  }

  lemma KeptAppend(history: seq<Snapshot>, start: seq<Snapshot>, job: Job, s: Snapshot)
    requires KeptSince(history, start, job)
    requires !job.newRunning ==> Kept(s, job.oldId, job.newName, HasReadyMessage(job.newRole))
    ensures KeptSince(history + [s], start, job)
  {}

  /** The calls up to the stopping of the old node that reported success are part of the outcome. */
  ghost predicate AllTookEffect(r: ReplaceResult, after: map<Id, Container>, job: Job, newId: Id, t: seq<Attempt>) {
    |t| > 3 ==> TookEffect(r, after, job, newId, t[3..])
  }

  // ---------- the steps as changes of the set of containers ----------

  function Prepared(before: map<Id, Container>, job: Job, newId: Id): map<Id, Container>
    requires job.oldId in before
  {
    Switched(Created(before, job, newId), job.oldId, false)
  }

  /** The rollback: which of its three calls took effect. */
  function Undone(containers: map<Id, Container>, job: Job, newId: Id,
                  deleted: bool, renamed: bool, restarted: bool): map<Id, Container>
    requires job.oldId in containers && job.oldId != newId
  {
    var c1 := if deleted then containers - {newId} else containers;
    var c2 := if renamed then Renamed(c1, job.oldId, job.original) else c1;
    if restarted then Switched(c2, job.oldId, true) else c2
  }

  /** The new container runs; the deletion of the old one took effect or not. */
  function Taken(before: map<Id, Container>, job: Job, newId: Id, deleted: bool): map<Id, Container>
    requires job.oldId in before
  {
    var prepared := Prepared(before, job, newId);
    var running := if job.newRunning then prepared else Switched(prepared, newId, true);
    if deleted then running - {job.oldId} else running
  }

  /** Creating the new node failed: rename the old container back. */
  method UndoRename(rt: Daemon, oldNode: Node, ghost job: Job, original: string, ghost start: seq<Snapshot>)
    returns (ok: bool, ghost done: bool)
    requires rt.Valid() && original == job.original
    requires IsOf(rt.containers, job.oldId, oldNode)
    requires KeptSince(rt.history, start, job)
    modifies rt
    ensures rt.Valid() && KeptSince(rt.history, start, job)
    ensures rt.attempts == old(rt.attempts) + [Attempt(Rename(oldNode.name, original), ok)]
    ensures ok ==> done
    ensures done ==> forall i | i in old(rt.containers) :: old(rt.containers)[i].name != original
    ensures rt.containers == if done then Renamed(old(rt.containers), job.oldId, original) else old(rt.containers)
  {
    hide UniqueNames, Matches, Carries, OnlyMatch, NameUsed, Daemon.Valid, KeptSince;
    ghost var id;
    ok, done, id := rt.RenameNode(oldNode.name, oldNode.labels, original);
    if done {
      FoundByName(old(rt.containers), oldNode.name, oldNode.labels, job.oldId, id);
      UnusedByAll(old(rt.containers), original);
      KeptAppend(old(rt.history), start, job, rt.Now());
    }
  }

  /** Starts a node whose container is known, while the old container exists. */
  method StartKept(rt: Daemon, node: Node, ghost job: Job, ghost target: Id, ghost start: seq<Snapshot>)
    returns (ok: bool, ghost started: bool)
    requires rt.Valid() && KeptSince(rt.history, start, job)
    requires job.oldId in rt.containers
    requires IsOf(rt.containers, target, node)
    modifies rt, node`running
    ensures rt.Valid() && KeptSince(rt.history, start, job)
    ensures rt.containers == if started then Switched(old(rt.containers), target, true) else old(rt.containers)
    ensures ok ==> started == !old(node.running)
    ensures started ==> !old(node.running)
    ensures ok && started && HasReadyMessage(node.role) ==> target in rt.ready
    ensures old(rt.attempts) <= rt.attempts
    ensures Starting(old(node.running), node.name, rt.attempts[|old(rt.attempts)|..], ok)
    ensures Reported(rt.attempts, |old(rt.attempts)|) ==> started
  {
    hide UniqueNames, Matches, Carries, OnlyMatch, NameUsed, Daemon.Valid, KeptSince, Starting;
    ghost var c, h, ready := rt.containers, rt.history, rt.ready;
    ghost var id;
    ok, started, id := NodeStart(rt, node, true, "", Any);
    if started {
      FoundByName(c, node.name, node.labels, target, id);
      KeptAppend(h, start, job, Snapshot(rt.containers, ready));
      KeptAppend(h + [Snapshot(rt.containers, ready)], start, job, rt.Now());
      assert h + [Snapshot(rt.containers, ready)] + [rt.Now()] == h + [Snapshot(rt.containers, ready), rt.Now()];
    }
  }

  /** Deletes a node whose container is known; the old one only when another serves in its place. */
  method DeleteKept(rt: Daemon, node: Node, ghost job: Job, ghost target: Id, ghost start: seq<Snapshot>)
    returns (ok: bool, ghost deleted: bool)
    requires rt.Valid() && KeptSince(rt.history, start, job)
    requires job.oldId in rt.containers
    requires IsOf(rt.containers, target, node)
    requires target == job.oldId && !job.newRunning ==>
               exists n :: n != target && Serves(rt.Now(), n, job.newName, HasReadyMessage(job.newRole))
    modifies rt
    ensures rt.Valid() && KeptSince(rt.history, start, job)
    ensures rt.containers == if deleted then old(rt.containers) - {target} else old(rt.containers)
    ensures ok
    ensures old(rt.attempts) <= rt.attempts && Deleting(node.name, rt.attempts[|old(rt.attempts)|..])
    ensures Reported(rt.attempts, |old(rt.attempts)|) ==> deleted
  {
    hide UniqueNames, Matches, Carries, OnlyMatch, NameUsed, Daemon.Valid, KeptSince;
    ghost var c, h := rt.containers, rt.history;
    ghost var id;
    ValidNames(rt);
    ghost var n := if target == job.oldId && !job.newRunning then
        var n :| n != target && Serves(rt.Now(), n, job.newName, HasReadyMessage(job.newRole)); n
      else 0;
    ok, deleted, id := NodeDelete(rt, node, true);
    if deleted {
      DeletedByName(c, target, id);
      if target == job.oldId && !job.newRunning {
        assert Serves(rt.Now(), n, job.newName, HasReadyMessage(job.newRole));
      }
      KeptAppend(h, start, job, rt.Now());
    }
  }

  /** Starting the new node failed: delete it, rename the old container back and start that. */
  method UndoStart(rt: Daemon, oldNode: Node, newNode: Node, ghost job: Job, original: string,
                   ghost newId: Id, ghost start: seq<Snapshot>)
    returns (r: ReplaceResult, ghost deleted: bool, ghost renamed: bool, ghost restarted: bool)
    requires rt.Valid() && oldNode != newNode && job.oldId != newId && original == job.original
    requires IsOf(rt.containers, job.oldId, oldNode)
    requires IsOf(rt.containers, newId, newNode)
    requires oldNode.name == job.temp && oldNode.running == job.oldRunning && newNode.name == job.newName
    requires KeptSince(rt.history, start, job)
    modifies rt, oldNode`name, oldNode`running
    ensures rt.Valid() && KeptSince(rt.history, start, job)
    ensures old(rt.attempts) <= rt.attempts
    ensures |rt.attempts| > |old(rt.attempts)|
    ensures Deleting(job.newName, rt.attempts[|old(rt.attempts)|..|old(rt.attempts)| + 1])
    ensures UndoCalls(r, job, rt.attempts[|old(rt.attempts)| + 1..])
    ensures Reported(rt.attempts, |old(rt.attempts)|) ==> deleted
    ensures Reported(rt.attempts, |old(rt.attempts)| + 2) ==> restarted
    ensures rt.containers == Undone(old(rt.containers), job, newId, deleted, renamed, restarted)
    ensures r in {StartFailedRenameFailed, StartFailedRestartFailed, StartFailedRolledBack}
    ensures r.StartFailedRenameFailed? ==> !restarted
    ensures r.StartFailedRestartFailed? ==> renamed && !old(oldNode.running)
    ensures r.StartFailedRolledBack? ==> renamed && restarted == !old(oldNode.running)
    ensures renamed && job.newName == original ==> deleted
    ensures oldNode.name ==
            if r.StartFailedRestartFailed? || r.StartFailedRolledBack? then original else old(oldNode.name)
  {
    hide UniqueNames, Matches, Carries, OnlyMatch, NameUsed, Daemon.Valid, KeptSince, Starting, Deleting, UndoCalls;
    restarted := false;
    ghost var t0 := rt.attempts;
    var ok;
    ok, deleted := DeleteKept(rt, newNode, job, newId, start);
    assert ok;  // without the load-balancer update deleting reports no error
    ghost var t1 := rt.attempts;
    ghost var c1 := rt.containers;
    ok, renamed := UndoRename(rt, oldNode, job, original, start);
    assert renamed && newId in c1 ==> c1[newId].name != original;
    ghost var t2 := rt.attempts;
    if !ok {
      r := StartFailedRenameFailed;
      UndoTail(r, job, t0, t1, t2, t2);
      return;
    }
    oldNode.name := original;
    ok, restarted := StartKept(rt, oldNode, job, job.oldId, start);
    r := if ok then StartFailedRolledBack else StartFailedRestartFailed;
    AlreadyRunning(job.oldRunning, job.original, rt.attempts[|t2|..], ok);
    UndoTail(r, job, t0, t1, t2, rt.attempts);
  }

  /** Starting a node that is taken to be running cannot fail. */
  lemma AlreadyRunning(running: bool, name: string, t: seq<Attempt>, ok: bool)
    requires Starting(running, name, t, ok)
    ensures running ==> ok
  {}

  lemma UndoTail(r: ReplaceResult, job: Job, t0: seq<Attempt>, t1: seq<Attempt>, t2: seq<Attempt>, t: seq<Attempt>)
    requires r in {StartFailedRenameFailed, StartFailedRestartFailed, StartFailedRolledBack}
    requires t0 <= t1 && Deleting(job.newName, t1[|t0|..])
    requires t2 == t1 + [Attempt(Rename(job.temp, job.original), !r.StartFailedRenameFailed?)] && t2 <= t
    requires if r.StartFailedRenameFailed? then t == t2
             else Starting(job.oldRunning, job.original, t[|t2|..], r.StartFailedRolledBack?)
    ensures t0 <= t && |t| > |t0| && |t1| == |t0| + 1
    ensures Deleting(job.newName, t[|t0|..|t0| + 1]) && UndoCalls(r, job, t[|t0| + 1..])
  {
    hide Starting;
    var u := t[|t0| + 1..];
    assert t[|t0|..|t0| + 1] == t1[|t0|..];
    assert u[0] == t2[|t1|] && u[1..] == t[|t2|..];
  }

  lemma UndoneOutcome(r: ReplaceResult, before: map<Id, Container>, job: Job, newId: Id,
                      started: bool, deleted: bool, renamed: bool, restarted: bool)
    requires job.oldId in before && before[job.oldId].name == job.original && newId !in before
    requires r in {StartFailedRenameFailed, StartFailedRestartFailed, StartFailedRolledBack}
    requires r.StartFailedRenameFailed? ==> !restarted
    requires r.StartFailedRestartFailed? ==> renamed && !job.oldRunning
    requires r.StartFailedRolledBack? ==> renamed && restarted == !job.oldRunning
    requires renamed && job.newName == job.original ==> deleted
    ensures var prepared := Prepared(before, job, newId);
            var c := if started then Switched(prepared, newId, true) else prepared;
            Outcome(r, before, Undone(c, job, newId, deleted, renamed, restarted), job, newId)
  {
    var prepared := Prepared(before, job, newId);
    var c := if started then Switched(prepared, newId, true) else prepared;
    var after := Undone(c, job, newId, deleted, renamed, restarted);
    assert Undoing(before, after, job, newId, renamed, restarted);
  }

  /** The new node is created and the old one stopped: start the new one, then drop the old. */
  method SwitchOver(rt: Daemon, oldNode: Node, newNode: Node, ghost job: Job, original: string,
                    ghost newId: Id, ghost start: seq<Snapshot>, ghost before: map<Id, Container>)
    returns (r: ReplaceResult)
    requires rt.Valid() && oldNode != newNode && job.oldId != newId
    requires job.oldId in before && before[job.oldId].name == job.original && newId !in before
    requires rt.containers == Prepared(before, job, newId)
    requires oldNode.name == job.temp && original == job.original && oldNode.running == job.oldRunning
    requires Carries(before[job.oldId].labels, oldNode.labels)
    requires newNode.name == job.newName && newNode.labels == job.newLabels
    requires newNode.running == job.newRunning && newNode.role == job.newRole
    requires KeptSince(rt.history, start, job)
    modifies rt, oldNode`name, oldNode`running, newNode`running
    ensures rt.Valid() && KeptSince(rt.history, start, job)
    ensures old(rt.attempts) < rt.attempts && SwitchCalls(r, job, rt.attempts[|old(rt.attempts)|..])
    ensures Outcome(r, before, rt.containers, job, newId)
    ensures TookEffect(r, rt.containers, job, newId, rt.attempts[|old(rt.attempts)|..])
    ensures r in {StartFailedRenameFailed, StartFailedRestartFailed, StartFailedRolledBack, Replaced}
    ensures oldNode.name == if r.StartFailedRestartFailed? || r.StartFailedRolledBack? then job.original else job.temp
  {
    hide UniqueNames, Carries, Daemon.Valid, KeptSince, Outcome, TookEffect, Prepared, Undone;
    hide SwitchCalls, UndoCalls, Starting, Deleting;
    CarriesItself(newNode.labels);
    PreparedHas(before, job, newId);
    ghost var t0 := rt.attempts;
    ghost var started;
    var ok;
    ok, started := StartKept(rt, newNode, job, newId, start);
    ghost var t1 := rt.attempts;
    if !ok {
      ghost var deleted, renamed, restarted;
      r, deleted, renamed, restarted := UndoStart(rt, oldNode, newNode, job, original, newId, start);
      UndoneOutcome(r, before, job, newId, started, deleted, renamed, restarted);
      UndoneEffect(r, before, job, newId, t0, t1, rt.attempts, started, deleted, renamed, restarted);
      SwitchTail(r, job, t0, t1, rt.attempts);
      return;
    }
    assert !job.newRunning ==> Serves(rt.Now(), newId, job.newName, HasReadyMessage(job.newRole));
    ghost var deleted;
    ok, deleted := DeleteKept(rt, oldNode, job, job.oldId, start);
    assert ok;  // without the load-balancer update deleting reports no error
    ReplacedOutcome(before, rt.containers, job, newId, deleted);
    ReplacedEffect(before, rt.containers, job, newId, t0, t1, rt.attempts, deleted);
    r := Replaced;
    DeletingOne(job.temp, rt.attempts, |t1|);
    SwitchTail(r, job, t0, t1, rt.attempts);
  }

  /** The first calls after the old node was stopped are those of starting the new one. */
  lemma StartsIs(name: string, running: bool, ok: bool, t0: seq<Attempt>, t1: seq<Attempt>, t: seq<Attempt>)
    requires t0 <= t1 <= t && Starting(running, name, t1[|t0|..], ok)
    requires |t| > |t1| && t[|t1|].call.Delete?
    ensures Starts(t[|t0|..], name) == |t1| - |t0| <= 1
    ensures forall k: nat :: Reported(t[|t0|..], k) <==> Reported(t, |t0| + k)
    ensures |t1| > |t0| ==> t[|t0|..][0] == t1[|t0|]
  {
    var starting := t1[|t0|..];
    assert t[|t0|..][0] == if starting == [] then t[|t1|] else starting[0];
  }

  lemma ReplacedEffect(before: map<Id, Container>, after: map<Id, Container>, job: Job, newId: Id,
                       t0: seq<Attempt>, t1: seq<Attempt>, t: seq<Attempt>, deleted: bool)
    requires job.oldId in before && newId !in before
    requires t0 <= t1 <= t && Starting(job.newRunning, job.newName, t1[|t0|..], true)
    requires Deleting(job.temp, t[|t1|..]) && (Reported(t, |t1|) ==> deleted)
    requires after == Taken(before, job, newId, deleted)
    ensures TookEffect(Replaced, after, job, newId, t[|t0|..])
  {
    StartsIs(job.newName, job.newRunning, true, t0, t1, t);
  }

  lemma UndoneEffect(r: ReplaceResult, before: map<Id, Container>, job: Job, newId: Id,
                     t0: seq<Attempt>, t1: seq<Attempt>, t: seq<Attempt>,
                     started: bool, deleted: bool, renamed: bool, restarted: bool)
    requires job.oldId in before && newId !in before && !r.Replaced?
    requires t0 <= t1 <= t && Starting(job.newRunning, job.newName, t1[|t0|..], false)
    requires |t| > |t1| && Deleting(job.newName, t[|t1|..|t1| + 1])
    requires Reported(t1, |t0|) ==> started
    requires Reported(t, |t1|) ==> deleted
    requires Reported(t, |t1| + 2) ==> restarted
    ensures var prepared := Prepared(before, job, newId);
            var c := if started then Switched(prepared, newId, true) else prepared;
            TookEffect(r, Undone(c, job, newId, deleted, renamed, restarted), job, newId, t[|t0|..])
  {
    StartsIs(job.newName, job.newRunning, false, t0, t1, t);
  }

  lemma CarriesItself(labels: Labels)
    ensures Carries(labels, labels)
  {}

  lemma DeletingOne(name: string, t: seq<Attempt>, k: nat)
    requires k <= |t| && Deleting(name, t[k..])
    ensures |t| == k + 1 && t[k..k + 1] == t[k..]
  {}

  lemma SwitchTail(r: ReplaceResult, job: Job, t0: seq<Attempt>, t1: seq<Attempt>, t: seq<Attempt>)
    requires t0 <= t1 <= t && |t| > |t1|
    requires Starting(job.newRunning, job.newName, t1[|t0|..], r.Replaced?)
    requires Deleting(if r.Replaced? then job.temp else job.newName, t[|t1|..|t1| + 1])
    requires if r.Replaced? then |t| == |t1| + 1 else UndoCalls(r, job, t[|t1| + 1..])
    ensures t0 < t && SwitchCalls(r, job, t[|t0|..])
  {
    hide SwitchCalls, UndoCalls, Starting, Deleting;
    SwitchCallsIntro(r, job, t1[|t0|..], t[|t1|..|t1| + 1], t[|t1| + 1..]);
    assert t[|t0|..] == t1[|t0|..] + t[|t1|..|t1| + 1] + t[|t1| + 1..];
  }

  /** Rename the old container, create the new one, stop the old; undo the renaming if creating fails. */
  method Prepare(rt: Daemon, oldNode: Node, newNode: Node, suffix: string, ghost oldId: Id, ghost job: Job)
    returns (prepared: bool, r: ReplaceResult, ghost newId: Id)
    requires rt.Valid() && oldNode != newNode && job == JobOf(oldId, oldNode, newNode, suffix)
    requires IsOf(rt.containers, oldId, oldNode)
    modifies rt, oldNode`name
    ensures rt.Valid() && KeptSince(rt.history, old(rt.history), job)
    ensures prepared ==> newId !in old(rt.containers) && rt.containers == Prepared(old(rt.containers), job, newId)
    ensures prepared ==> rt.attempts == old(rt.attempts) + PreparingCalls(job)
    ensures !prepared ==> Outcome(r, old(rt.containers), rt.containers, job, newId)
    ensures !prepared ==> old(rt.attempts) <= rt.attempts && Calls(r, job, rt.attempts[|old(rt.attempts)|..])
    ensures !prepared ==> r in {RenameFailed, CreateFailedRolledBack, CreateFailedRenameFailed, StopFailed}
    ensures oldNode.name == if !prepared && r.RenameFailed? then job.original else job.temp
  {
    hide UniqueNames, Matches, Carries, OnlyMatch, NameUsed, Daemon.Valid, KeptSince, Outcome, Calls, FailedCalls;
    hide Prepared;
    ghost var before, start, t0 := rt.containers, rt.history, rt.attempts;
    ghost var done, id;
    var ok;
    prepared, newId := false, 0;
    KeptStart(start, job);

    var oldNameTemp := oldNode.name + "-" + suffix;
    var oldNameOriginal := oldNode.name;
    ok, done, id := rt.RenameNode(oldNode.name, oldNode.labels, oldNameTemp);
    if done {
      FoundByName(before, oldNameOriginal, oldNode.labels, oldId, id);
      KeptAppend(start, start, job, rt.Now());
    }
    if !ok {
      RenameOutcome(before, rt.containers, job, newId);
      r := RenameFailed;
      ShortCalls(r, job, t0, rt.attempts);
      return;
    }
    oldNode.name := oldNameTemp;

    ghost var h1 := rt.history;
    ok, done, newId := rt.CreateNode(newNode.name, newNode.labels);
    if done {
      KeptAppend(h1, start, job, rt.Now());
    }
    if !ok {
      ghost var created, back := done, false;
      ghost var c := rt.containers;
      ok, back := UndoRename(rt, oldNode, job, oldNameOriginal, start);
      CreateOutcome(ok, before, job, newId, created, back, c, rt.containers);
      r := if ok then CreateFailedRolledBack else CreateFailedRenameFailed;
      ShortCalls(r, job, t0, rt.attempts);
      return;
    }

    ghost var created, h2 := rt.containers, rt.history;
    ok, done, id := rt.StopNode(oldNode.name, oldNode.labels);
    if done {
      FoundByName(created, oldNameTemp, oldNode.labels, oldId, id);
      KeptAppend(h2, start, job, rt.Now());
    }
    r := StopFailed;
    if !ok {
      StopOutcome(before, created, rt.containers, job, newId);
      ShortCalls(r, job, t0, rt.attempts);
      return;
    }
    prepared := true;
    PreparedIs(before, job, newId);
    CallsSoFar(job, t0);
  }

  lemma PreparedIs(before: map<Id, Container>, job: Job, newId: Id)
    requires job.oldId in before
    ensures Prepared(before, job, newId) == Switched(Created(before, job, newId), job.oldId, false)
  {}

  lemma PreparedHas(before: map<Id, Container>, job: Job, newId: Id)
    requires job.oldId in before && job.oldId != newId
    ensures var prepared := Prepared(before, job, newId);
            && job.oldId in prepared && prepared[job.oldId] == LeftBehind(before, job)
            && newId in prepared && prepared[newId] == Container(job.newName, job.newLabels, false)
  {}

  lemma CallsSoFar(job: Job, t0: seq<Attempt>)
    ensures t0 + [Attempt(Rename(job.original, job.temp), true)] + [Attempt(Create(job.newName), true)] +
            [Attempt(Stop(job.temp), true)] == t0 + PreparingCalls(job)
  {}

  lemma ShortCalls(r: ReplaceResult, job: Job, t0: seq<Attempt>, t: seq<Attempt>)
    requires r in {RenameFailed, CreateFailedRolledBack, CreateFailedRenameFailed, StopFailed}
    requires var renamed, created := Attempt(Rename(job.original, job.temp), true), Attempt(Create(job.newName), true);
             match r
             case RenameFailed => t == t0 + [renamed.(ok := false)]
             case StopFailed => t == t0 + [renamed] + [created] + [Attempt(Stop(job.temp), false)]
             case _ => t == t0 + [renamed] + [created.(ok := false)] +
                            [Attempt(Rename(job.temp, job.original), r.CreateFailedRolledBack?)]
    ensures t0 <= t && Calls(r, job, t[|t0|..])
  {
    assert t[|t0|..] == FailedCalls(r, job);
  }

  method NodeReplace(rt: Daemon, oldNode: Node, newNode: Node, suffix: string, ghost oldId: Id)
    returns (r: ReplaceResult, ghost newId: Id)
    requires rt.Valid() && oldNode != newNode
    requires IsOf(rt.containers, oldId, oldNode)
    modifies rt, oldNode`name, oldNode`running, newNode`running
    ensures rt.Valid()
    ensures KeptSince(rt.history, old(rt.history), old(JobOf(oldId, oldNode, newNode, suffix)))
    ensures old(rt.attempts) <= rt.attempts
    ensures Calls(r, old(JobOf(oldId, oldNode, newNode, suffix)), rt.attempts[|old(rt.attempts)|..])
    ensures Outcome(r, old(rt.containers), rt.containers, old(JobOf(oldId, oldNode, newNode, suffix)), newId)
    ensures AllTookEffect(r, rt.containers, old(JobOf(oldId, oldNode, newNode, suffix)), newId,
                          rt.attempts[|old(rt.attempts)|..])
    ensures r.Replaced? && LastReported(rt.attempts) ==> oldId !in rt.containers
    ensures oldNode.name == if r.RenameFailed? || r.StartFailedRestartFailed? || r.StartFailedRolledBack?
                            then old(oldNode.name) else old(oldNode.name) + "-" + suffix
  {
    assert rt.containers[oldId].name == oldNode.name && Carries(rt.containers[oldId].labels, oldNode.labels);
    hide Daemon.Valid, KeptSince, Outcome, TookEffect, AllTookEffect, SwitchCalls, Calls, PreparingCalls;
    hide Prepared, Exchanged, LeftBehind, IsOf, Carries, LastReported;
    ghost var job := JobOf(oldId, oldNode, newNode, suffix);
    ghost var before, start, t0 := rt.containers, rt.history, rt.attempts;
    var oldNameOriginal := oldNode.name;
    var prepared;
    prepared, r, newId := Prepare(rt, oldNode, newNode, suffix, oldId, job);
    if prepared {
      ghost var t3 := rt.attempts;
      r := SwitchOver(rt, oldNode, newNode, job, oldNameOriginal, newId, start, before);
      CallsIntro(r, job, rt.attempts[|t3|..]);
      Continued(t0, PreparingCalls(job), rt.attempts);
      LateEffects(r, rt.containers, job, newId, rt.attempts[|t3|..]);
    } else {
      FailedEarly(r, rt.containers, job, newId, rt.attempts[|t0|..]);
    }
    if r.Replaced? {
      ReplacedExact(before, rt.containers, job, newId, rt.attempts[|t0|..]);
      LastOfAll(t0, rt.attempts);
    }
  }

  lemma Continued(t0: seq<Attempt>, first: seq<Attempt>, t: seq<Attempt>)
    requires t0 + first <= t
    ensures t0 <= t && t[|t0|..] == first + t[|t0 + first|..]
  {}

  lemma LastOfAll(t0: seq<Attempt>, t: seq<Attempt>)
    requires t0 <= t && |t| > |t0|
    ensures LastReported(t) <==> LastReported(t[|t0|..])
  {}

  lemma LateEffects(r: ReplaceResult, after: map<Id, Container>, job: Job, newId: Id, rest: seq<Attempt>)
    requires TookEffect(r, after, job, newId, rest)
    ensures AllTookEffect(r, after, job, newId, PreparingCalls(job) + rest)
  {
    hide TookEffect;
    assert (PreparingCalls(job) + rest)[3..] == rest;
  }

  /** A replacement that fails before the new node is started makes at most three calls. */
  lemma FailedEarly(r: ReplaceResult, after: map<Id, Container>, job: Job, newId: Id, t: seq<Attempt>)
    requires r in {RenameFailed, CreateFailedRolledBack, CreateFailedRenameFailed, StopFailed} && Calls(r, job, t)
    ensures AllTookEffect(r, after, job, newId, t)
  {}

  ghost function JobOf(oldId: Id, oldNode: Node, newNode: Node, suffix: string): Job
    reads oldNode, newNode
  {
    Job(oldId, oldNode.name, oldNode.name + "-" + suffix, oldNode.running,
        newNode.name, newNode.labels, newNode.running, newNode.role)
  }

  lemma KeptStart(start: seq<Snapshot>, job: Job)
    ensures KeptSince(start, start, job)
  {}

  lemma RenameOutcome(before: map<Id, Container>, after: map<Id, Container>, job: Job, newId: Id)
    requires job.oldId in before
    requires after == before || after == Renamed(before, job.oldId, job.temp)
    ensures Outcome(RenameFailed, before, after, job, newId)
  {}

  lemma CreateOutcome(ok: bool, before: map<Id, Container>, job: Job, newId: Id, created: bool, back: bool,
                      c: map<Id, Container>, after: map<Id, Container>)
    requires job.oldId in before && before[job.oldId].name == job.original
    requires created ==> newId !in before
    requires c == if created then Created(before, job, newId) else Renamed(before, job.oldId, job.temp)
    requires after == if back then Renamed(c, job.oldId, job.original) else c
    requires back ==> forall i | i in c :: c[i].name != job.original
    requires ok ==> back
    ensures Outcome(if ok then CreateFailedRolledBack else CreateFailedRenameFailed, before, after, job, newId)
  {
    assert created ==> newId in c && c[newId].name == job.newName;
    if ok {
      assert after == if created then before[newId := Container(job.newName, job.newLabels, false)] else before;
    }
  }

  lemma StopOutcome(before: map<Id, Container>, created: map<Id, Container>, after: map<Id, Container>, job: Job,
                    newId: Id)
    requires job.oldId in before && newId !in before
    requires created == Created(before, job, newId)
    requires after == created || after == Switched(created, job.oldId, false)
    ensures Outcome(StopFailed, before, after, job, newId)
  {}

  lemma ReplacedOutcome(before: map<Id, Container>, after: map<Id, Container>, job: Job, newId: Id, done: bool)
    requires job.oldId in before && newId !in before
    requires after == Taken(before, job, newId, done)
    ensures Outcome(Replaced, before, after, job, newId)
  {
    hide Taken, Prepared;
    TakenIs(before, job, newId, done);
  }

  lemma TakenIs(before: map<Id, Container>, job: Job, newId: Id, deleted: bool)
    requires job.oldId in before && newId !in before
    ensures Taken(before, job, newId, deleted) ==
            if deleted then Exchanged(before, job, newId)
            else Exchanged(before, job, newId)[job.oldId := LeftBehind(before, job)]
  {}

  /**
   A complete rollback after a failed start brings back the containers of the beginning if and only
   if memory was wrong about the old one: the rollback starts it unless memory says that it is
   running, and the replacement has stopped it.  So a container that was running and marked so is
   left stopped, and one that was stopped and marked so is started.
   */
  lemma RollbackExact(before: map<Id, Container>, after: map<Id, Container>, job: Job, newId: Id)
    requires job.oldId in before && before[job.oldId].name == job.original
    requires job.newName == job.original
    requires Outcome(StartFailedRolledBack, before, after, job, newId)
    ensures after == before <==> before[job.oldId].running == !job.oldRunning
    ensures after.Keys == before.Keys && forall i | i in before :: after[i].name == before[i].name
  {
    if before[job.oldId].running == !job.oldRunning {
      assert forall i | i in before :: after[i] == before[i];
    }
  }

  /** The containers after a rollback in which every call took effect. */
  function RolledBack(before: map<Id, Container>, job: Job, newId: Id): map<Id, Container>
    requires job.oldId in before && newId !in before
  {
    Undone(Switched(Prepared(before, job, newId), newId, true), job, newId, true, true, !job.oldRunning)
  }

  /** Two replacements that memory is right about, each rolled back without a failing call. */
  lemma RollbackExamples()
    ensures forall running :: var job := ExampleJob(running);
              RolledBack(map[0 := ExampleContainer(running)], job, 1) == map[0 := ExampleContainer(!running)]
  {
    forall running ensures RolledBack(map[0 := ExampleContainer(running)], ExampleJob(running), 1) ==
                           map[0 := ExampleContainer(!running)] {}
  }

  function ExampleContainer(running: bool): Container { Container("k3d-c-serverlb", map["app" := "k3d"], running) }

  /** Replacing that container, whose node is marked as it is. */
  function ExampleJob(running: bool): Job {
    Job(0, "k3d-c-serverlb", "k3d-c-serverlb-abcde", running, "k3d-c-serverlb", map["app" := "k3d"], false,
        LoadBalancer)
  }

  /**
   After a successful replacement the containers are those of the beginning, less the old one, plus the
   new one, which runs, if and only if the old one is gone; otherwise it is left behind, stopped, under
   its temporary name.  It is gone if its deletion, the last call, reported success.
   */
  lemma ReplacedExact(before: map<Id, Container>, after: map<Id, Container>, job: Job, newId: Id, t: seq<Attempt>)
    requires job.oldId in before && Outcome(Replaced, before, after, job, newId)
    requires Calls(Replaced, job, t) && AllTookEffect(Replaced, after, job, newId, t)
    ensures after == Exchanged(before, job, newId) <==> job.oldId !in after
    ensures job.oldId in after ==> after == Exchanged(before, job, newId)[job.oldId := LeftBehind(before, job)]
    ensures t[|t| - 1].call == Delete(job.temp)
    ensures LastReported(t) ==> after == Exchanged(before, job, newId)
  {
    var s := t[3..];
    var k := Starts(s, job.newName);
    assert s[k..] == [s[k]];
    assert s[k] == t[|t| - 1];
  }

  /** A replacement of which only the last call fails: it is a success, and both containers are there. */
  lemma LeftBehindExample()
    ensures var before := map[0 := ExampleContainer(true)];
            var after := map[0 := Container("k3d-c-serverlb-abcde", map["app" := "k3d"], false),
                             1 := ExampleContainer(true)];
            var job := ExampleJob(true);
            var t := PreparingCalls(job) +
                     [Attempt(Start("k3d-c-serverlb"), true), Attempt(Delete("k3d-c-serverlb-abcde"), false)];
            && after == Taken(before, job, 1, false)
            && Outcome(Replaced, before, after, job, 1) && Calls(Replaced, job, t)
            && AllTookEffect(Replaced, after, job, 1, t)
  {
    var before, job := map[0 := ExampleContainer(true)], ExampleJob(true);
    var after := Taken(before, job, 1, false);
    ReplacedOutcome(before, after, job, 1, false);
    var starting := [Attempt(Start(job.newName), true)];
    var deleting := [Attempt(Delete(job.temp), false)];
    SwitchCallsIntro(Replaced, job, starting, deleting, []);
    assert starting + deleting + [] == [starting[0], deleting[0]];
    CallsIntro(Replaced, job, [starting[0], deleting[0]]);
    var t0 := PreparingCalls(job);
    ReplacedEffect(before, after, job, 1, t0, t0 + starting, t0 + starting + deleting, false);
    assert t0 + starting + deleting == t0 + [starting[0], deleting[0]];
    assert (t0 + [starting[0], deleting[0]])[3..] == (t0 + starting + deleting)[|t0|..];
  }

  /** A successful replacement hands the name over, so in the end it belongs to the new container. */
  lemma ReplacedRuns(before: map<Id, Container>, after: map<Id, Container>, job: Job, newId: Id)
    requires job.oldId in before && before[job.oldId].name == job.original
    requires job.newName == job.original && !job.newRunning
    requires UniqueNames(before) && UniqueNames(after)
    requires Outcome(Replaced, before, after, job, newId)
    ensures newId in after && after[newId].running
    ensures forall i | i in after :: after[i].name == job.original <==> i == newId
  {
    assert after[newId].name == job.original;
  }

  // ---------- the promises, spelled out ----------

  /**
   The service: in every state since the start the old container exists, or another container runs under the
   name and, unless the node has no role, has been seen ready.
   */
  lemma KeptMeaning(history: seq<Snapshot>, start: seq<Snapshot>, job: Job, i: nat)
    requires KeptSince(history, start, job) && !job.newRunning && |start| <= i < |history|
    ensures var s := history[i];
            || job.oldId in s.containers
            || exists n :: n in s.containers && s.containers[n].name == job.newName && s.containers[n].running &&
                           (job.newRole != NoRole ==> n in s.ready)
  {
    if job.oldId !in history[i].containers {
      var n :| Serves(history[i], n, job.newName, HasReadyMessage(job.newRole));
    }
  }

  /** Whatever the result, only the old container and one new one differ from what was there before. */
  lemma OthersStay(r: ReplaceResult, before: map<Id, Container>, after: map<Id, Container>, job: Job, newId: Id)
    requires job.oldId in before && Outcome(r, before, after, job, newId)
    ensures forall i | i in before && i != job.oldId :: i in after && after[i] == before[i]
    ensures forall i | i in after && i !in before :: i == newId
  {}

  /** What the failures leave: the old container under one of the two names, and what there is of the new one. */
  lemma AfterFailure(r: ReplaceResult, before: map<Id, Container>, after: map<Id, Container>, job: Job, newId: Id)
    requires job.oldId in before && Outcome(r, before, after, job, newId) && !r.Replaced?
    requires before[job.oldId].name == job.original && newId !in before
    ensures job.oldId in after
    ensures var was, now := before[job.oldId], after[job.oldId];
            && now.labels == was.labels && (now.name == job.original || now.name == job.temp)
            && (r.RenameFailed? ==> now.running == was.running && newId !in after)
            && (r.CreateFailedRolledBack? ==> now == was)
            && (r.CreateFailedRenameFailed? ==> now.running == was.running)
            && (r.StopFailed? ==> now.name == job.temp && newId in after && (now.running ==> was.running))
            && (r.StartFailedRenameFailed? ==> !now.running)
            && (r.StartFailedRestartFailed? ==> now.name == job.original && !job.oldRunning)
            && (r.StartFailedRolledBack? ==> now.name == job.original && now.running == !job.oldRunning)
    ensures newId in after ==>
              && after[newId].name == job.newName && after[newId].labels == job.newLabels
              && (r in {CreateFailedRolledBack, CreateFailedRenameFailed, StopFailed} ==> !after[newId].running)
    ensures job.newName == job.original && newId in after ==> after[job.oldId].name == job.temp
  {}

  /** The calls of a replacement that succeeds: five, or four when the copy claims to run already. */
  lemma CallsOfSuccess(job: Job, t: seq<Attempt>)
    requires Calls(Replaced, job, t)
    ensures |t| == (if job.newRunning then 4 else 5)
    ensures t[0] == Attempt(Rename(job.original, job.temp), true) && t[1] == Attempt(Create(job.newName), true)
    ensures t[2] == Attempt(Stop(job.temp), true) && t[|t| - 1].call == Delete(job.temp)
    ensures !job.newRunning ==> t[3] == Attempt(Start(job.newName), true)
  {
    var s := t[3..];
    var k := Starts(s, job.newName);
    assert |s[k..]| == 1 && s[k..][0] == s[k];
    assert t[0] == t[..3][0] && t[1] == t[..3][1] && t[2] == t[..3][2] && s[k] == t[3 + k];
    assert |s[..k]| == k;
    assert !job.newRunning ==> s[..k][0] == t[3];
  }

  /** The calls of a replacement that fails before the new node is started: up to the failing one, and its undoing. */
  lemma CallsOfFailure(r: ReplaceResult, job: Job, t: seq<Attempt>)
    requires r in {RenameFailed, CreateFailedRolledBack, CreateFailedRenameFailed, StopFailed} && Calls(r, job, t)
    ensures r.RenameFailed? ==> t == [Attempt(Rename(job.original, job.temp), false)]
    ensures r.CreateFailedRolledBack? || r.CreateFailedRenameFailed? ==>
              t == [Attempt(Rename(job.original, job.temp), true), Attempt(Create(job.newName), false),
                    Attempt(Rename(job.temp, job.original), r.CreateFailedRolledBack?)]
    ensures r.StopFailed? ==>
              t == [Attempt(Rename(job.original, job.temp), true), Attempt(Create(job.newName), true),
                    Attempt(Stop(job.temp), false)]
  {}

  /**
   The calls of a rollback: after the preparation at most one start of the new node, which failed in the call or
   in getting ready; then its deletion and the renaming; and unless that fails or memory says that the old node
   runs, at most one start of it, which is there and successful if the rollback is complete.
   */
  lemma CallsOfRollback(r: ReplaceResult, job: Job, t: seq<Attempt>)
    requires r in {StartFailedRenameFailed, StartFailedRestartFailed, StartFailedRolledBack} && Calls(r, job, t)
    ensures |t| > 4 && t[..3] == [Attempt(Rename(job.original, job.temp), true), Attempt(Create(job.newName), true),
                                  Attempt(Stop(job.temp), true)]
    ensures var k := if t[3].call == Start(job.newName) then 4 else 3;
            && |t| > k + 1 && t[k].call == Delete(job.newName)
            && t[k + 1] == Attempt(Rename(job.temp, job.original), !r.StartFailedRenameFailed?)
            && (r.StartFailedRenameFailed? ==> |t| == k + 2)
            && (|t| > k + 2 ==> |t| == k + 3 && !job.oldRunning && t[k + 2].call == Start(job.original))
            && (r.StartFailedRolledBack? && !job.oldRunning ==> |t| == k + 3 && t[k + 2].ok)
  {
    var s := t[3..];
    var k := Starts(s, job.newName);
    assert s[k..k + 1] == [s[k]];
    var u := s[k + 1..];
    assert s[0] == t[3] && s[k] == t[3 + k] && u[0] == t[k + 4];
    assert |u| > 1 ==> u[1] == t[k + 5];
    assert |u[1..]| == |u| - 1;
    assert |u| > 1 ==> u[1..][0] == u[1];
  }

  /**
   In a rollback, too, what reported success has taken effect: a started new container runs if it is still there,
   a deleted one is gone, and a restarted old one runs.
   */
  lemma EffectsOfRollback(r: ReplaceResult, after: map<Id, Container>, job: Job, newId: Id, t: seq<Attempt>)
    requires r in {StartFailedRenameFailed, StartFailedRestartFailed, StartFailedRolledBack}
    requires Calls(r, job, t) && AllTookEffect(r, after, job, newId, t)
    ensures |t| > 4
    ensures var k := if t[3].call == Start(job.newName) then 4 else 3;
            && (k == 4 && t[3].ok && newId in after ==> after[newId].running)
            && (t[k].ok ==> newId !in after)
            && (|t| == k + 3 && t[k + 2].ok ==> job.oldId in after && after[job.oldId].running)
  {
    CallsOfRollback(r, job, t);
    hide Calls;
    var s := t[3..];
    var k := Starts(s, job.newName);
    assert s[0] == t[3] && s[k] == t[3 + k];
    assert |t| == k + 6 ==> s[k + 2] == t[k + 5];
  }
}
