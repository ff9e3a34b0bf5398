# A verified model of k3d's orchestration logic

k3d runs Kubernetes clusters as containers.  Most of it drives a container runtime, but some of its
code decides things: in which order containers are created and started, what happens when a call
fails half-way, which nodes a filter selects, which ports and addresses are handed out.  This project
models that code in Dafny and proves what it promises.  `dafny verify dfyconfig.toml` checks all of it.

## What is modelled

- **Replacing and editing a node** (`Runtime`, `NodeReplace`, `NodeEdit`).  The runtime is an object
  whose calls may fail at any point, with or without having taken effect, and which records every state it
  passes through.  `NodeReplace` is proved for every schedule of failures: in each recorded state the old
  container exists, or another one runs and is ready under the original name.
- **Starting a cluster** (`StagedStart`, `ClusterStart`).  Stages of concurrent starts are a state machine
  with interleaved steps, failures and a log; the program refines it.  The safety results hold of every run of
  the machine, and a run that has not ended can always take a step that is not a failure.
- **Waiting for a log line** (`LogWait`).  The retry loop over log streams equals a declarative
  description with exactly one outcome.
- **From configuration to created cluster** (`ClusterConfig`, `ClusterCreate`, `Bootstrap`, `JoinOrder`).  Who
  starts the cluster, whom the others join, who publishes the API port, which labels and addresses the nodes
  record; and when the cluster is started, whoever joins is started only after the server it joins is ready.
- **Node filters** (`Regex`, `NodeFilter`, `FilterNodes`, `SuffixFilters`, `FilterLaws`).  The regular expression has
  its language as meaning, the captured groups are unambiguous, and the loops refine a denotation; which nodes each kind
  of filter selects is told by their roles and places.
- **Filters in flags** (`FlagSplit`).  Splitting a flag is inverse to writing it, and the accepted flags are
  characterised by counting unescaped '@' signs.
- **Ports and the load balancer** (`Tables`, `PortChanges`, `PortLaws`, `PortOrder`, `Ports`, `TransformPorts`,
  `PortRuns`, `PortVisits`, `PortTargets`, `ClusterEdit`).  Methods that change maps of lists in place refine a state
  machine of port changes; invariants and round trips are proved of all its runs, and exactly when the order in which a
  Go map is visited matters.  `PortTargets` says which nodes serve a mapping, and `ClusterEdit` puts ports, filters and
  the replacement of a node together.
- **Addresses of managed networks** (`IPSets`, `Ipam`).  First-free allocation out of a list of ranges that
  refines a set; distinctness, the i-th smallest address, and the exact capacity by counting.
- **Kubeconfigs** (`Kubeconfig`).  Runs of merges and removals refine a set of live clusters beside foreign entries.
- **Random strings** (`RandomString`) and **names** (`Names`): bit slicing with rejection; host names as defined
  in section 2.1 of RFC 1123, and names derived from cluster names.

What a definition of the model means is also told without it: names, orders, labels, bindings and selections
are characterised by the texts, fields, roles and places themselves, so that a contract does not rest on a
definition alone.

`Strings`, `Wrappers` and `Types` hold what several modules share.  A nondeterministic choice (`*` or `:|`)
stands for whatever the environment decides: failing calls, the order in which a Go map is visited, the members
of a network.  `hide` statements only keep proofs small.

## Results that differ from what one might expect

- A failed replacement that was rolled back in full starts the old container exactly if memory did not say that it
  was running.  The containers are therefore as before if and only if memory was wrong about the old one: a running
  container known to be running is left stopped, and a stopped one known to be stopped is started
  (`NodeReplace.RollbackExact`, and `NodeReplace.RollbackExamples` for both inputs).
- A successful replacement may leave the old container behind, stopped and under its temporary name, since a failing
  deletion is only logged (`NodeReplace.LeftBehindExample`).  The containers are those of the beginning, less the old
  one, plus the new one, if and only if the old one is gone, and it is gone whenever the deletion, the last call,
  reports success (`NodeReplace.ReplacedExact`).
- Removing ports can succeed or fail depending on the order in which the selections of one specification are
  visited: exactly if `PortVisits.OrderMatters` holds (`PortVisits.SuccessDependsOnOrder`), for instance for the
  filters "all" and "servers:*:proxy" (`PortVisits.VisitOrderExample`).  Two orders that both succeed have the same
  result (`PortVisits.RunsAgree`).  Neither caller reaches the failing case: the schema of configuration files has no
  key for removals (pkg/config/v1alpha5/schema.json:102-116), and editing a cluster first rejects filters with a suffix
  (pkg/client/cluster.go:1232-1248), which leaves one selection only (`PortVisits.EditIsUnmixed`).
- Adding a name to a load-balancer entry appends one copy for every target before its first occurrence.  Removing the
  added names again restores an existing entry, as a multiset, if and only if they are all one name and one target
  stands before the place of that name (`PortLaws.NamesRoundTrip`).  With two different names, as the default
  selection of all servers and agents gives, it is never restored (`PortLaws.NamesRoundTripExample`).
- Removing a port mapping can leave a bound port of the load balancer without an entry: exactly if the removal takes the
  last name out of the entry and leaves the port another binding (`PortOrder.RemovalCoverage`,
  `PortOrder.RemovalCoverageExample`).
- A port binding with a specific host address is not equal to itself; adding it twice binds it twice
  (`NodeEdit.BindingEquality`, `NodeEdit.AddTwice`, `NodeEdit.AddThenRemove`).
- Of several init servers only the last is started (`ClusterStart.AllPlannedExactly`, `ClusterStart.SeveralInitsExample`).
- The documentation calls for a free address or an error; when none is left the code indexes an empty list.  The
  model reports this case as `NoneLeft`, and `Ipam.Capacity` says when it arises; in a network of four addresses no
  server gets one (`Ipam.NoAddressLeftExample`).
- A flag in which every '@' is escaped is rejected, although it has no filter (`FlagSplit.AcceptedExactly`,
  `FlagSplit.EscapedOnlyExample`).

## Model

| member | source | states |
|---|---|---|
| Runtime.Daemon.RenameNode | pkg/runtimes/docker/node.go:480-491 | renames the one container that the look-up by labels and name finds or leaves everything; a taken name is refused; a failing call may have taken effect |
| Runtime.Daemon.CreateNode | pkg/runtimes/docker/node.go:45-60 | adds a stopped container with a new identity and a name not in use, or changes nothing |
| Runtime.Daemon.StartNode | pkg/runtimes/docker/node.go:101-138 | starts the container found by labels and name if k3d has made it; others untouched; reports and records the new state |
| Runtime.Daemon.StopNode | pkg/runtimes/docker/node.go:140-165 | stops the container found by labels and name if k3d has made it; others untouched |
| Runtime.Daemon.DeleteNode | pkg/runtimes/docker/node.go:62-65 | removes at most the container with that name |
| Runtime.LookupMeaning | pkg/runtimes/docker/container.go:130-167 | the look-up finds a container if it is the only one with all the labels and with the name, as it is or after "k3d-" |
| ReadyLog.ReadyMessageExists | pkg/types/k3slogs.go:32-70 | every role but the unknown one has a ready message for every intent |
| ReadyLog.ReadyMessages | pkg/types/k3slogs.go:33-70 | the message of every role, for init servers by intent |
| NodeReplace.NodeStart | pkg/client/node.go:438-503 | does nothing if memory says running; success means the container found by labels and name was switched on, memory has the state it was inspected in, and it was seen ready if that is awaited |
| NodeReplace.NodeDelete | pkg/client/node.go:679-717 | deletes at most the container of that name, and has deleted it if the call reports success; a failing removal is not an error |
| NodeReplace.Prepare | pkg/client/node.go:1033-1059 | renaming, creating and stopping in this order; each failure ends it with the prescribed containers and calls |
| NodeReplace.UndoRename | pkg/client/node.go:1047-1052 | rolling back a failed creation keeps the service in every recorded state and restores the name or changes nothing |
| NodeReplace.StartKept | pkg/client/node.go:438-503 | starting a known container keeps the service in every recorded state; the call is made exactly once, or not at all if memory says running; a reported success has started it |
| NodeReplace.DeleteKept | pkg/client/node.go:679-717 | deleting a known container keeps the service, provided another one serves when it is the old one; the call is made exactly once; a reported success has removed it |
| NodeReplace.UndoStart | pkg/client/node.go:1063-1074 | delete, rename, start are called in this order up to the first failure; which of them took effect determines the containers; the old node is restarted exactly if not marked running |
| NodeReplace.SwitchOver | pkg/client/node.go:1061-1081 | from a stopped old and a created new container, every result has the containers the outcome prescribes, and every call that reported success has taken effect |
| NodeReplace.NodeReplace | pkg/client/node.go:1032-1081 | for every schedule of failures: the service is kept in every state since the start; for each of eight results the containers, the in-memory name and the sequence of runtime calls are as prescribed; every call that reported success has taken effect, so that the old container is gone when all did |
| NodeReplace.ReplacedExact | pkg/client/node.go:1061-1081 | after success the containers are those of the beginning, less the old, plus the new one, running, if and only if the old one is gone, as it is if its deletion reported success; otherwise it is left, stopped, under the temporary name |
| NodeReplace.LeftBehindExample | pkg/client/node.go:1061-1081 | a successful replacement whose deletion fails, with both containers left |
| NodeReplace.KeptMeaning | pkg/client/node.go:1032-1081 | the service in plain terms: the old container exists, or one runs under the name and, unless the node has no role, was seen ready |
| NodeReplace.OthersStay | pkg/client/node.go:1032-1081 | with every result all other containers stay and at most one is new |
| NodeReplace.AfterFailure | pkg/client/node.go:1032-1081 | for every failure the name and state of the old container, and what there is of the new one |
| NodeReplace.CallsOfSuccess | pkg/client/node.go:1032-1081 | the calls of a successful replacement in order |
| NodeReplace.CallsOfFailure | pkg/client/node.go:1033-1059 | the calls of a replacement that fails before the new node is started |
| NodeReplace.CallsOfRollback | pkg/client/node.go:1061-1074 | the calls of a rollback in order |
| NodeReplace.EffectsOfRollback | pkg/client/node.go:1061-1074 | what reported success in a rollback has taken effect |
| NodeReplace.RollbackExact | pkg/client/node.go:1063-1074 | after a complete rollback the containers equal those at the start if and only if the old one ran exactly when memory said it did not; identities and names always do |
| NodeReplace.RollbackExamples | pkg/client/node.go:1063-1074 | a container whose state memory knows, running or stopped, is left in the other state |
| NodeReplace.ReplacedRuns | pkg/client/node.go:1061-1081 | after success the original name belongs to the new container alone, which runs |
| StagedStart.RunInv | pkg/client/cluster.go:932-1040 | the stage and log invariants hold in every state of every run of the machine |
| StagedStart.StartsInOrder | pkg/client/cluster.go:962-1040 | a node is started only after every awaited node of every earlier stage was ready |
| StagedStart.StartedOnce | pkg/client/cluster.go:962-1040 | no node is started twice, and none of a later stage than the present one |
| StagedStart.SuccessStartsAll | pkg/client/cluster.go:962-1040 | a successful run started every node of every stage once and saw the awaited ones ready |
| StagedStart.ReadyOnlyAwaited | pkg/client/cluster.go:962-1040 | only awaited nodes are seen ready, and only after they were started |
| StagedStart.FailureStopsHere | pkg/client/cluster.go:962-1040 | a failed run started nothing of the stages after the one that failed |
| StagedStart.NoDeadlock | pkg/client/cluster.go:962-1040 | a run that has not ended can take a step that is not a failure |
| StagedStart.RunGroup | pkg/client/cluster.go:990-1012 | the calls of one group, in any interleaving, extend the run until all have returned; it terminates |
| StagedStart.FinishGroup | pkg/client/cluster.go:990-1012 | waiting for a group extends the run and goes on to the next stage exactly if no call failed |
| ClusterStart.Categorize | pkg/client/cluster.go:928-951 | the loop finds the last init server and the positions of servers, agents and helpers that are not running, in order |
| ClusterStart.SortByName | pkg/client/cluster.go:953-956 | a permutation of the servers in which of any two names the earlier is a prefix of the later or has the smaller character where they first differ |
| ClusterStart.NameLeqMeaning | pkg/client/cluster.go:953-956 | the comparison of names is that order |
| ClusterStart.PlanValid | pkg/client/cluster.go:928-1036 | the plan puts every node into at most one place |
| ClusterStart.ClusterStart | pkg/client/cluster.go:914-1153 | log and stages are those of a run of the staged machine for the plan of the cluster; success means all stages succeeded, and after them only the preparation of started servers and agents can fail, outside the network of the host |
| ClusterStart.StartGuarantees | pkg/client/cluster.go:914-1040 | of the log of any start: a node is started only after all that must precede it were ready, at most once and only if planned, and exactly once on success |
| ClusterStart.WhenStarted | pkg/client/cluster.go:932-1036 | when a node is started it was stopped and not started before; the last stopped init server is ready, all other stopped servers are if it is no server, all stopped agents are if it is neither; and it is no init server before another one |
| ClusterStart.WhenServerStarted | pkg/client/cluster.go:953-988 | a stopped server is ready before one is started whose name comes after its own |
| ClusterStart.AfterSuccess | pkg/client/cluster.go:958-1036 | a successful start has started every stopped node once, init servers before the last one excepted, and has seen every server, agent and load balancer among them ready |
| ClusterStart.WhenReady | pkg/client/cluster.go:1014-1036 | only servers, agents and load balancers are awaited, each after it was started |
| ClusterStart.WithoutPreparation | pkg/client/cluster.go:1043-1060 | in the network of the host, or without a stopped agent or server other than an init server, a start fails only by its stages |
| ClusterStart.StartIsStaged | pkg/client/cluster.go:958-1036 | for every interleaving and failure: the init server is ready before anything else is started, all servers before agents and helpers, all agents before helpers |
| ClusterStart.ServersInNameOrder | pkg/client/cluster.go:953-988 | servers are started one at a time, each after the previous one was ready; of any two names the earlier is a prefix of the later or has the smaller character where they first differ |
| ClusterStart.OnlyPlannedStarted | pkg/client/cluster.go:932-951 | only nodes that were not running are started, each at most once |
| ClusterStart.SuccessStartsPlanned | pkg/client/cluster.go:932-1036 | a successful start started each planned node exactly once and no other |
| ClusterStart.AllPlannedExactly | pkg/client/cluster.go:932-940 | every node that is not running is planned if and only if at most one of them is an init server |
| ClusterStart.SeveralInitsExample | pkg/client/cluster.go:932-940 | of two init servers the first is never started, and the second is on success |
| ClusterStart.FailureStartsNothingLater | pkg/client/cluster.go:958-1036 | after a failure no node that must come later was started |
| LogWait.NodeWaitForLogMessage | pkg/client/node.go:791-899 | the outcome and the number of opened streams are those of the declarative description, cancellation and open errors included |
| LogWait.ExplanationUnique | pkg/client/node.go:833-899 | the description admits one outcome and one number of streams |
| LogWait.FoundExactly | pkg/client/node.go:833-892 | without cancellation waiting succeeds if and only if a line of some stream below the limit has the message, up to case, and all earlier streams lack it and have a last line with "level=fatal"; never more streams than the limit |
| Strings.ContainsMeaning | pkg/client/node.go:847-892 | a line contains a text if it is that text with something before and after it |
| LogWait.HowItEnds | pkg/client/node.go:833-899 | with cancellation: the first line that is cancelled or has the message, or the first stream that cannot be opened or does not end in a fatal line, decides, in this precedence |
| LogWait.Limits | pkg/client/node.go:791-803 | ten streams unless another limit is set |
| LogWait.EmptyStreamEndsTheWait | pkg/client/node.go:847-892 | an empty stream never counts as a crash: the wait gives up after opening one |
| ClusterConfig.LoadbalancerPrepare | pkg/client/loadbalancer.go:179-225 | a new load-balancer node that binds the API port, with an empty configuration |
| ClusterConfig.AddServer | pkg/config/transform.go:138-159 | keeps the shape of the cluster with one more server; only the first of several is the init node; its name joins the API targets |
| ClusterConfig.AddAgent | pkg/config/transform.go:161-170 | keeps the shape of the cluster with one more agent |
| ClusterConfig.TransformSimpleToClusterConfig | pkg/config/transform.go:103-170 | load balancer, servers, agents, in this order, distinct and named by role and index; an init node exists if and only if there are several servers, and it is the first; API targets are all servers |
| ClusterConfig.NodesAre | pkg/config/transform.go:103-170 | role, name and init flag of every node of a configured cluster by its place |
| ClusterConfig.ApiTargetsMeaning | pkg/config/transform.go:138-159 | the entry 6443.tcp of the load balancer has all servers in order |
| ClusterConfig.StartIsSound | pkg/config/transform.go:118-159 | with a load balancer and a server the port state starts sound, and the API port has its targets |
| ClusterCreate.RequestIP | pkg/client/cluster.go:469-478 | one request extends the run of address requests, whatever the members are at that time; an address is the next of the run |
| ClusterCreate.NodeSetup | pkg/client/cluster.go:453-502 | on success the environment is extended by the global one, for joining nodes only by the connection URL, and by the default one; the labels are the own, the global and the default ones, and for servers those of the address, of a joining server and of the API; a server of a managed network records the address of its one request |
| ClusterCreate.NodeCreate | pkg/client/node.go:603-631 | the default environment, the default labels and for servers the labels of the API |
| ClusterCreate.CreateNode | pkg/client/cluster.go:507-551 | one node is created with the right environment and labels, the init server marked; at most the publishing server gets the API port |
| ClusterCreate.CreateNext | pkg/client/cluster.go:516-551 | one more node is created while all others stay as they were; the servers created have the addresses handed out, in order |
| ClusterCreate.CreateServersAndAgents | pkg/client/cluster.go:507-553 | nodes are created in the order init node, then the list without it, up to the first failure; afterwards ports, environments and labels of all nodes are as prescribed, and the servers have recorded the addresses handed out |
| ClusterCreate.InListOrder | pkg/client/cluster.go:507-553 | the init node is created first, and of two other nodes the one that is earlier in the list |
| ClusterCreate.EnsureLoadbalancer | pkg/client/cluster.go:563-583 | a missing load balancer is made with the API port bound; a missing configuration is generated |
| ClusterCreate.CreateLoadbalancer | pkg/client/cluster.go:563-615 | the load balancer, made if missing, gets the global and the default labels and the default environment |
| ClusterCreate.ClusterCreate | pkg/client/cluster.go:449-618 | creation order with the load balancer last, prefix of it on failure; without a load balancer the init node or else the first server publishes the API port |
| ClusterCreate.StartsWith | pkg/client/cluster.go:530-553 | what has been created at a failure is a prefix of the whole order |
| Bootstrap.ServerZeroFirst | pkg/client/cluster.go:507-553 | with at least one server the first node created is the server of index 0 |
| Bootstrap.JoinersComeLater | pkg/client/cluster.go:449-502 | the first node joins nobody; every joining node comes after it and its K3S_URL names it |
| Bootstrap.WhoJoins | pkg/client/cluster.go:449-502 | every server and agent gets the entry K3S_URL=https://k3d-<cluster>-server-0:6443, except the node of that name |
| Bootstrap.WhatLabelsSay | pkg/client/cluster.go:453-520 | every label of a created node by its key, and the labels it was given under all other keys |
| Bootstrap.EveryNodeOnce | pkg/client/cluster.go:507-553 | exactly the servers and agents are created, each once |
| Bootstrap.RunElsewhere | pkg/client/ports.go:134-158 | port changes that avoid a port leave its bindings alone on every node |
| Bootstrap.MapPorts | pkg/config/transform.go:191-193 | applying the configured mappings keeps the cluster's shape, the API port, soundness and, for additions, coverage |
| Bootstrap.ConfigureCluster | pkg/config/transform.go:103-193 | a configured cluster has its shape, publishes the API port on the load balancer alone if there is one and nowhere else, and its port state is sound and covered |
| Bootstrap.CountCreated | pkg/client/cluster.go:507-553 | as many servers are created as were configured |
| Bootstrap.ClusterPrepNetwork | pkg/client/cluster.go:333-340 | a managed network starts its run of requests with one reservation |
| Bootstrap.CreateNodes | pkg/client/cluster.go:370-618 | reservation and creation of all nodes, with the environment, labels and addresses of each |
| Bootstrap.CreateCluster | pkg/client/cluster.go:370-618 | on success the first node created is k3d-<cluster>-server-0; the environment of every server and agent entry by entry, with the K3S_URL of that server for all but itself; the API port 6443 is bound by the load balancer alone, or without one by that server alone; labels; reservation and servers together are one run of address requests, one each; in a managed network every server has an address inside the prefix that is not reserved, used before, the gateway or another server's |
| Bootstrap.ServersApart | pkg/client/cluster.go:469-478 | with distinct addresses recorded in order, every server has one of them and no two share one |
| Bootstrap.AddressedMeaning | pkg/client/ipam.go:37-65 | the addresses of the servers in numbers: quotient and remainder by the size of the prefix, gateway, and those used before |
| JoinOrder.JoinersStartLater | pkg/client/cluster.go:449-502 | in a start of a configured cluster, whatever is interleaved and whatever fails: if k3d-<cluster>-server-0 is stopped, every other server and every agent is started only after it was seen ready |
| NodeFilter.FindSubmatchMeaning | pkg/util/filter.go:50 | a group, subset and suffix are found if and only if the pattern can capture them: the grammar is unambiguous |
| NodeFilter.FindSubmatchTotal | pkg/util/filter.go:50 | parsing succeeds exactly on the strings the regular expression matches |
| NodeFilter.CapturesMeaning | pkg/util/filter.go:50 | what the pattern captures, in terms of lists, ranges, wildcard and letters |
| FilterNodes.FilterNodes | pkg/util/filter.go:105-254 | the loop returns the denotation of the filter list, errors included |
| FilterNodes.ApplyFilter | pkg/util/filter.go:134-249 | one filter continues, fails, selects all or stops at the load balancer as its meaning says; the selection stays the deduplication of what was picked |
| FilterNodes.SelectList | pkg/util/filter.go:174-189 | the indices of a list are appended without repetition, or the filter fails on a number out of range |
| FilterNodes.SelectRange | pkg/util/filter.go:192-235 | the bounds of a range default to the whole group, are checked, and all nodes between them are appended without repetition |
| FilterNodes.SelectWildcard | pkg/util/filter.go:238-247 | all nodes of the group are appended without repetition |
| FilterNodes.SortByRole | pkg/util/filter.go:113-126 | servers and agents in order, and the last load balancer |
| FilterNodes.DedupMeaning | pkg/util/filter.go:128-129 | deduplication keeps each element once, in the order of first occurrence |
| FilterNodes.DedupUnique | pkg/util/filter.go:128-129 | these conditions leave only one sequence |
| FilterNodes.ErrorExactly | pkg/util/filter.go:132-249 | evaluation fails exactly when a filter that is reached fails |
| FilterNodes.ListErrorExactly | pkg/util/filter.go:174-183 | a list is rejected exactly when one of its numbers is not an index of the group |
| FilterNodes.SelectionMeaning | pkg/util/filter.go:105-254 | the selection: picks before the first stopping filter, deduplicated in order, and what that filter makes of them |
| FilterLaws.SelectsAll | pkg/util/filter.go:158-162 | "servers:*" and the like select exactly the nodes of the role, each once, in the order of the list |
| FilterLaws.SelectsRange | pkg/util/filter.go:192-235 | "servers:a-b" selects the nodes of the role at the places a to b, an empty side being the first or the last place, and fails exactly on a bound out of range |
| FilterLaws.SelectsList | pkg/util/filter.go:174-189 | "servers:i,j" selects the nodes of the role at these places, and fails exactly on a number out of range |
| FilterLaws.SelectsBare | pkg/util/filter.go:105-156 | "all" and no filter select all nodes, "loadbalancer" the last load balancer or nothing |
| FilterLaws.FailsFirst | pkg/util/filter.go:134-156 | a filter with a suffix, or one the pattern does not match, fails |
| FilterLaws.RoleHasMembers | pkg/util/filter.go:113-126 | there is one such sequence of members for every role |
| SuffixFilters.CleanedMeaning | pkg/util/filter.go:66-84 | trimming the matched suffix leaves a filter with the same group and subset and no suffix |
| SuffixFilters.AloneMeaning | pkg/util/filter.go:66-93 | the trimmed filter selects what group and subset select on their own |
| SuffixFilters.AddFilter | pkg/util/filter.go:63-98 | one filter is accepted exactly if it parses, its suffix is allowed and it selects; its nodes go under its suffix only |
| SuffixFilters.FilterNodesWithSuffix | pkg/util/filter.go:53-102 | for every suffix the in-order concatenation of what its filters select; an error if one filter is not accepted |
| SuffixFilters.ResultBegins | pkg/util/filter.go:53-64 | the result has the key "all", with all nodes first, the key "nosuffix" and the allowed suffixes, and no other |
| FlagSplit.SplitFiltersFromFlag | cmd/util/filter.go:32-76 | the loop over segments with its buffer computes the split of the flag |
| FlagSplit.SplitPrint | cmd/util/filter.go:32-76 | splitting inverts writing for every expressible value and list of filters |
| FlagSplit.SplitIsInverseOfPrint | cmd/util/filter.go:32-76 | a flag gives a value and filters if and only if they are expressible and the flag is the way they are written |
| FlagSplit.NoFilters | cmd/util/filter.go:34-39 | a flag without '@' is a value without filters |
| FlagSplit.FlagForms | cmd/util/filter.go:32-76 | value, filters between semicolons, an escaped '@' and an escaped backslash, as texts |
| FlagSplit.GlueCount | cmd/util/filter.go:48-66 | the number of pieces is one more than the number of unescaped '@' signs |
| FlagSplit.AcceptedExactly | cmd/util/filter.go:34-73 | accepted are exactly the flags with no '@' or with exactly one unescaped '@'; which error otherwise |
| FlagSplit.EscapedOnly | cmd/util/filter.go:34-73 | a flag whose only '@' is escaped is rejected for a missing filter |
| FlagSplit.EscapedOnlyExample | cmd/util/filter.go:34-73 | one such flag |
| Tables.RemoveFirstFound | pkg/util/util.go:45-52 | the scan removes the first occurrence or nothing |
| Tables.RemoveFirstMultiset | pkg/util/util.go:45-52 | one occurrence less, everything else kept |
| Tables.RemoveAppended | pkg/util/util.go:41-52 | values appended to a list that has none of them are removed without a trace |
| Tables.RoundTrip | pkg/client/ports.go:134-158 | adding entries and removing the same ones restores keys and multisets, and lists where nothing was there before |
| Ports.AddPortMappings | pkg/client/ports.go:134-141 | the bindings are appended under their ports, in order |
| Ports.RemovePortMappings | pkg/client/ports.go:143-158 | the first occurrences are removed, and a port without bindings loses its key |
| Ports.LoadbalancerAddPortConfigs | pkg/client/loadbalancer.go:227-254 | refused exactly if a target is a load balancer; else the entry is created, or extended name by name |
| Ports.AddTargetName | pkg/client/loadbalancer.go:242-251 | the inner loop appends one copy for every target before the first occurrence of the name |
| Ports.LoadbalancerRemovePortConfigs | pkg/client/loadbalancer.go:256-280 | refused exactly if the entry exists and a target is a load balancer; names are removed and an empty entry is deleted |
| Ports.ChangeLBPortConfigs | pkg/client/ports.go:118-124 | success and the new configuration, for additions and removals |
| PortChanges.AddNamesUnion | pkg/client/loadbalancer.go:241-252 | a non-empty entry stays as prefix and its names become the union |
| PortChanges.AddNamesToEmpty | pkg/client/loadbalancer.go:241-252 | an entry that is an empty list stays empty |
| PortChanges.ConfigKeyMeaning | pkg/client/loadbalancer.go:228-240 | the key of a port is number.protocol, with tcp for a missing protocol |
| PortChanges.RunSound | pkg/client/ports.go:72-158 | over any run of additions and removals, stopping anywhere, no list is empty and every target is the name of a node that can serve |
| PortLaws.ProxyRoundTrip | pkg/client/ports.go:86-95 | adding and removing the same mappings: bound ports, binding multisets, new entries gone, other entries untouched, and what is left of old entries |
| PortLaws.FreshRoundTrip | pkg/client/loadbalancer.go:227-280 | if no entry existed before, the configuration is restored exactly |
| PortLaws.ProxyRoundTripExactly | pkg/client/loadbalancer.go:227-280 | adding mappings and removing them restores all entries, as multisets, if and only if for each existing entry under their ports the names are all one and one target stands before its place |
| PortLaws.NamesRoundTrip | pkg/client/loadbalancer.go:241-280 | an existing entry is restored, as a multiset, if and only if the names added are all one and exactly one target stands before its place |
| PortLaws.NamesRoundTripExample | pkg/client/loadbalancer.go:241-280 | the two servers of a cluster added to the port of the first one and removed again leave another entry behind |
| PortLaws.ChangedTargetsAt | pkg/client/ports.go:91-95 | with distinct ports every entry is changed once or not at all |
| PortOrder.AdditionTargets | pkg/client/loadbalancer.go:227-254 | a run of additions succeeds if and only if each is acceptable on its own; then the names of an entry are the old and the added ones |
| PortOrder.AdditionBindings | pkg/client/ports.go:134-141 | the bindings of a port after additions are the old and the added ones, on every node |
| PortOrder.AdditionsInAnyOrder | pkg/client/ports.go:76-109 | runs made of the same additions agree in success and, as sets, in targets and bindings |
| PortOrder.AdditionsCovered | pkg/client/ports.go:86-95 | over successful additions every port bound on the load balancer keeps an entry |
| PortOrder.RemovalOrderMatters | pkg/client/loadbalancer.go:256-268 | the order of two removals decides about success if and only if exactly one holds the load balancer and the other takes the last name out of every entry |
| PortOrder.RemovalCoverage | pkg/client/loadbalancer.go:256-280 | after a removal every bound port of the load balancer still has an entry if and only if the removal takes the last name out of no entry whose port it leaves bound |
| PortOrder.RemovalCoverageExample | pkg/client/loadbalancer.go:256-280 | a removal of one of two bindings of a port that leaves the other without an entry |
| PortOrder.RemovalsCommute | pkg/client/loadbalancer.go:256-280 | two removals that succeed in both orders end in the same bindings and targets, lists included |
| TransformPorts.ApplyProxy | pkg/client/ports.go:86-95 | a proxy mapping binds all ports on the load balancer, then changes the targets, or leaves them if it is refused |
| TransformPorts.ApplyKey | pkg/client/ports.go:76-109 | the selection under one suffix comes to the change of the state machine that belongs to it |
| TransformPorts.TransformSpec | pkg/client/ports.go:50-110 | one mapping with its filters performs the changes it stands for, in the order in which the suffixes are visited |
| TransformPorts.TransformPorts | pkg/client/ports.go:46-110 | bindings, targets and success equal the run of all changes up to the first refused one |
| TransformPorts.ContributionNodes | pkg/client/ports.go:57-68 | filters that do not name the load balancer select it only together with all nodes |
| TransformPorts.EffectiveAvoidsLoadbalancer | pkg/client/ports.go:52-63 | after defaulting no filter names the load balancer |
| PortTargets.DefaultChanges | pkg/client/ports.go:50-63 | without filters in a cluster of several nodes, or with a filter that names the load balancer, the only change is a proxy change for all servers, then all agents |
| PortTargets.DefaultServed | pkg/client/ports.go:50-103 | such an addition succeeds; then every server and agent is among the targets of every mapped port, which is bound on the load balancer |
| PortTargets.KeptFilters | pkg/client/ports.go:50-63 | other filters are taken as they are |
| PortTargets.SingleFilter | pkg/client/ports.go:65-102 | what one filter selects gets a proxy change without a suffix or with "proxy", and with "direct" a direct change if it is one node, and nothing if it is none |
| PortTargets.NoDefaultForOne | pkg/client/ports.go:52-55 | without filters and without several nodes a mapping is refused |
| PortTargets.ChangesInTurn | pkg/client/ports.go:50-103 | several specifications make their changes one after another |
| PortTargets.ProxyResult | pkg/client/ports.go:82-91 | a proxy change is refused exactly if the load balancer is among its targets, a removal only if one of its ports has an entry, or if there is no load balancer; then the targets stay; other nodes keep their ports |
| PortTargets.DirectResult | pkg/client/ports.go:92-98 | a direct change concerns the ports of its node only |
| PortTargets.FreshEntry | pkg/client/loadbalancer.go:227-240 | a new entry has the added names in order |
| PortTargets.AppendOrder | pkg/client/ports.go:134-141 | every mapping appends its binding to the list of its port |
| PortRuns.TransformKeepsSound | pkg/client/ports.go:46-110 | every call keeps the state sound, successful or not |
| PortRuns.NoLoop | pkg/client/loadbalancer.go:230-234 | in a sound state no entry targets the load balancer |
| PortRuns.TransformKeepsCovered | pkg/client/ports.go:46-110 | successful additions keep every bound port of the load balancer covered |
| PortRuns.VisitOrderIrrelevant | pkg/client/ports.go:76 | for additions the order of the suffix map matters neither for success nor for the sets of targets and bindings |
| PortVisits.KeyRun | pkg/client/ports.go:72-102 | visiting the selections comes to the proxy changes in their order, with the direct change at any time; it fails besides if a direct change is for several nodes |
| PortVisits.SuccessDependsOnOrder | pkg/client/ports.go:72-102 | whether a specification succeeds depends on the order of visits if and only if it removes through the load balancer from two selections of which exactly one holds the load balancer and the other empties every entry, and no direct change fails anyway |
| PortVisits.VisitOrderExample | pkg/client/ports.go:72-102 | nodes, a specification and a configuration for which the order decides |
| PortVisits.ResultIndependent | pkg/client/ports.go:72-102 | in two orders that both succeed, a removal, or a specification with at most one proxy selection, has one result |
| PortVisits.RunsAgree | pkg/client/ports.go:46-103 | two successful runs over the same such specifications end in the same state |
| PortVisits.UnmixedRunsAgree | pkg/client/ports.go:46-103 | without a specification of two proxy selections the order of visits decides neither about success nor about the result |
| PortVisits.EditIsUnmixed | pkg/client/cluster.go:1232-1248 | what passes the check of a cluster edit has at most one proxy selection and no direct one |
| ClusterEdit.CheckFilters | pkg/client/cluster.go:1232-1248 | accepted exactly if every specification has evaluable filters without a suffix |
| ClusterEdit.OthersUntouched | pkg/client/ports.go:72-102 | changes without a direct one leave all ports but those of the load balancer alone |
| ClusterEdit.ChangeCopy | pkg/client/cluster.go:1250-1255 | success, ports and targets of the copy are those of every run of the specifications, whatever the order of visits; the nodes keep their ports; additions leave no port of the copy uncovered |
| ClusterEdit.ClusterEditChangesetSimple | pkg/client/cluster.go:1206-1284 | filters rejected, ports rejected or node replaced, each exactly when; the copy has the ports and targets of every run, the original and the nodes keep theirs; the service is kept in every recorded state, and the containers are those that the outcome of the replacement prescribes |
| NodeEdit.BindingEquality | pkg/util/ports.go:48-64 | binding equality is symmetric and transitive, and reflexive exactly for the addresses that count as the same |
| NodeEdit.EditPorts | pkg/client/node.go:961-991 | in any order of the changeset, every port gets the result of its own edits |
| NodeEdit.EditMeaning | pkg/client/node.go:961-991 | one edit in terms of host ports and addresses: an addition appends the binding, a removal takes one away, exactly if there is none, or one, with the host port while both addresses are among the four that stand for all; nothing else moves |
| NodeEdit.OtherHostPorts | pkg/client/node.go:961-991 | bindings with a host port that no edit names stay |
| NodeEdit.AdditionsServed | pkg/client/node.go:961-991 | after additions some binding has each wanted host port, at the wanted address or at one that stands for all with it |
| NodeEdit.OneEdit | pkg/client/node.go:961-991 | one edit changes the list of its port only, and a port without bindings has no entry |
| NodeEdit.EditsInTurn | pkg/client/node.go:961-991 | a list of edits is made one after another |
| NodeEdit.EditsKeepDistinct | pkg/client/node.go:964-990 | edits bring in no two equal bindings and leave no empty list |
| NodeEdit.AddTwice | pkg/client/node.go:964-990 | adding twice equals adding once if and only if the address is not specific |
| NodeEdit.AddThenRemove | pkg/client/node.go:964-990 | a removal undoes an addition if and only if the address is not specific and no equal binding was there |
| NodeEdit.LoadbalancerGenerateConfig | pkg/client/loadbalancer.go:150-177 | exactly the API port and the bound ports have entries, each with all servers; the number of worker connections |
| NodeEdit.CopyNode | pkg/client/node.go:1087-1101 | a copy without state |
| NodeEdit.NodeEdit | pkg/client/node.go:946-1030 | the service is kept in every state, the ports are the edited ones, and a generated configuration covers them all |
| IPSets.WithoutMeaning | pkg/client/ipam.go:45-54 | removing an address from a list of ranges takes out that address and nothing else, and keeps the list normal |
| IPSets.FirstIsLeast | pkg/client/ipam.go:56-60 | the first range begins with the least address |
| IPSets.Builder.Remove | pkg/client/ipam.go:49-54 | the builder's set loses exactly that address |
| Ipam.GetIP | pkg/client/ipam.go:37-65 | the answer is the least address of the prefix that is not used, not its own and not its last; none exactly if there is none |
| Ipam.AnswerMeaning | pkg/client/ipam.go:37-65 | the answer is the least address with the quotient of the prefix that is not the prefix address, not the last of its block, not the gateway, configured or the one after the prefix address, and not used |
| Ipam.AssignIP | pkg/client/cluster.go:334-340 | the address handed out counts as used from then on |
| Ipam.RunStep | pkg/client/cluster.go:469-478 | one more answered request continues a run |
| Ipam.AssignmentsSafe | pkg/client/ipam.go:37-65 | whatever members come and go, the addresses are distinct, in the prefix, and never its own, its last, the gateway or a member's |
| Ipam.IthSmallest | pkg/client/ipam.go:43-60 | with fixed members the i-th request gets the i-th smallest free address |
| Ipam.RunLength | pkg/client/ipam.go:43-60 | with fixed members a run serves as many requests as there are free addresses |
| Ipam.FreeCount | pkg/client/ipam.go:43-54 | a canonical prefix with an ordinary gateway and u members has its size less 3 less u free addresses |
| Ipam.Capacity | pkg/client/cluster.go:334-340 | after the reservation exactly 2^(width - bits) - 4 - u servers can be set up |
| Ipam.NoAddressLeftExample | pkg/client/ipam.go:43-60 | in a network of four addresses the reservation takes the only free one, and no server gets any |
| Ipam.DefaultGateway | pkg/runtimes/docker/network.go:366-372 | the default gateway of a canonical prefix of at least three addresses is its second address, an ordinary host |
| Kubeconfig.KubeconfigGet | pkg/client/kubeconfig.go:164-187 | the default entries move to the names of the cluster with the new server URL; all other entries stay; a configuration of default entries alone becomes that of one cluster |
| Kubeconfig.MovedMeaning | pkg/client/kubeconfig.go:164-187 | a moved entry is gone from its old key and there under the new one, and nothing else has changed |
| Kubeconfig.KubeconfigMerge | pkg/client/kubeconfig.go:236-277 | refused exactly on a conflict without permission to overwrite; the file is the merged configuration or unchanged |
| Kubeconfig.MergeEntries | pkg/client/kubeconfig.go:240-265 | in any order of keys: refused exactly if a key is taken, else the union in which added entries win |
| Kubeconfig.KubeconfigRemoveCluster | pkg/client/kubeconfig.go:340-362 | the three entries are gone, everything else stays, and the current context moves to any other one, or to none if there is no other |
| Kubeconfig.MergeIntoFile | pkg/client/kubeconfig.go:80-106 | one step of a run on the file |
| Kubeconfig.KubeconfigRemoveClusterFromDefaultConfig | pkg/client/kubeconfig.go:326-337 | one step of a run on the file |
| Kubeconfig.NamesInjective | pkg/client/kubeconfig.go:167-177 | entry and user names determine the cluster |
| Kubeconfig.RefusedExactly | pkg/client/kubeconfig.go:240-265 | a merge without permission to overwrite is refused if and only if the cluster is live |
| Kubeconfig.MergeMeaning | pkg/client/kubeconfig.go:236-277 | a merge into a file entry by entry, under the names k3d-<cluster> and admin@k3d-<cluster>, and when it is refused |
| Kubeconfig.RemovalMeaning | pkg/client/kubeconfig.go:340-362 | a removal from a file entry by entry, and the current context after it |
| Kubeconfig.UnwrittenMeaning | pkg/client/kubeconfig.go:271-277 | an operation whose result cannot be written changes nothing |
| Kubeconfig.RunRepresents | pkg/client/kubeconfig.go:236-362 | after any run the maps are exactly the foreign entries and those of the live clusters, and the current context is empty or present |
| Kubeconfig.RepresentsMeaning | pkg/client/kubeconfig.go:236-362 | what the file holds after any run, name by name |
| Kubeconfig.LiveMeaning | pkg/client/kubeconfig.go:236-362 | the live clusters are those merged and not removed since |
| Kubeconfig.LiveContextsResolve | pkg/client/kubeconfig.go:179-184 | the context of a live cluster leads to its own entries |
| Kubeconfig.RemoveUndoesMerge | pkg/client/kubeconfig.go:236-362 | removing a newly merged cluster restores all entries, and the current context unless the merge had changed it |
| RandomString.GenerateRandomString | pkg/util/randomString.go:41-59 | the letters of the first n accepted groups of the stream, ten groups to a draw; how many draws were taken; it terminates |
| RandomString.AcceptedMeaning | pkg/util/randomString.go:47-58 | accepted letters are those of all groups below the number of letters, each once, in ascending order |
| RandomString.GroupsAreDigits | pkg/util/randomString.go:30-58 | the groups of a draw are its digits to the base 64, so no bit is used twice |
| RandomString.GroupsFit | pkg/util/randomString.go:28-38 | six bits to a group, ten groups and no more in 63 bits, and the 52 letters |
| RandomString.GroupMeaning | pkg/util/randomString.go:47-58 | a group is a draw divided by a power of 64, modulo 64; below 52 it gives the letter of that number |
| RandomString.NeededMeaning | pkg/util/randomString.go:47-58 | the number of groups read gives n letters, and the last of them gives one |
| RandomString.BoundedRejections | pkg/util/randomString.go:47-58 | if at most r groups in a row are rejected, (r + 1) * n groups give n letters |
| Names.HostnameMeaning | pkg/client/clusterName.go:32 | the pattern matches exactly dot-separated non-empty labels of letters, digits and inner hyphens |
| Names.HostnameSpelling | pkg/client/clusterName.go:32 | host names character by character: letters, digits, hyphens and dots, with letters or digits at both ends and beside every dot |
| Names.ValidateHostname | pkg/client/clusterName.go:49-59 | accepted are exactly the strings the pattern matches |
| Names.CheckName | pkg/client/clusterName.go:38-46 | accepted are exactly the host names of at most 32 characters |
| Names.CheckNameMeaning | pkg/client/clusterName.go:38-59 | the verdict on a name: missing, not such a host name, longer than 32 characters, or accepted |
| Names.NodeNames | pkg/client/cluster.go:909-911 | node names letter by letter |
| Names.NodeNameAccepted | pkg/client/cluster.go:909-911 | every node name of an accepted cluster name is a host name |
| Names.NodeNameLength | pkg/types/defaults.go:34-41 | server and agent names stay within 64 characters for indices of up to 20 digits |
| Names.NodeNameInjective | pkg/client/cluster.go:909-911 | a node name determines cluster, role and index |
| Names.LoadBalancerNameApart | pkg/client/loadbalancer.go:214 | the load balancer's name is no node's name |

## Left out

- Sharing of memory between slices and maps: lists are values here, so that `append` to a shared backing array, as with
  the hooks in `ClusterStart` or the server list in `LoadbalancerGenerateConfig`, cannot be observed.
- ClusterStart.ClusterStart: works on the names, roles and flags of the nodes as values and does not set their running
  flag in memory; each start is the sequence begin, started, ready, returned, any of which may fail.  The preparation
  after the stages (hosts files, records of the name service, pkg/client/cluster.go:1043-1153) is a step that may fail,
  without its effect.
- Containers that stop, or lose readiness, on their own: only k3d's calls change the runtime.
- Node creation inside the runtime (images, mounts, networks), hooks, fixes and the wait timeouts: each can fail, nothing more.
- NodeReplace.NodeReplace: two error branches for a failing deletion are absent, since a deletion without load-balancer
  update reports no error.
- NodeReplace.Prepare: the copy's labels are taken to be those its container gets; that creating it refreshes the default
  labels, such as the version of k3d, is part of ClusterCreate.NodeCreate only.
- ClusterEdit.ClusterEditChangesetSimple: a cluster without a load balancer, on which the program dereferences nil
  (pkg/client/cluster.go:1213-1216), is excluded by the type of the parameter.
- NodeReplace.NodeDelete: the load-balancer update after deleting a server is a step that may fail, without its effect.
- LogWait.NodeWaitForLogMessage: the text of errors, the status request at the end and the warning goroutine are not
  modelled; the lower-casing function is a parameter.
- Strings are sequences of characters, not of bytes; characters outside ASCII are compared as such.
- TransformPorts.TransformPorts: parsing a port specification is done by a library; its result is a parameter, None for an
  error.  Bootstrap.MapPorts relies on parsed ports having the form number/protocol.
- ClusterCreate.ClusterCreate: `--cluster-init` and other arguments, memory limits, volumes, GPU requests and registries
  are not modelled; how an address is written is a parameter; the nodes of a cluster are distinct objects and the init
  node is one of them.
- ClusterCreate.RequestIP: when the network cannot be inspected the program dereferences a nil network
  (pkg/client/ipam.go:38-40); the model ends the set-up with an error.
- Ipam.GetIP: the runtime call that lists the members can fail (see ClusterCreate.RequestIP); a used address that does not parse
  is not modelled.
- Kubeconfig.KubeconfigGet: fetching the file from the container and choosing the server; a file without default entries,
  on which the program panics, is excluded by a precondition.
- RandomString.GenerateRandomString: a negative length, on which the program panics; termination needs the number of groups that suffice.
- Load-balancer configuration overrides, `NodeAddToCluster`, registries, volumes, image names, plugins and host aliases: text
  plumbing or work of libraries.
- ClusterList's grouping of nodes by label, role counting and label parsing would only add easy members.
