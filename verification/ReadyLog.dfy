/** The log line by which a node shows that it is ready. */
module ReadyLog {
  import opened Types

  datatype Intent = ClusterCreate | ClusterStart | NodeCreate | NodeStart | Any

  function ReadyLogMessage(role: Role, isInit: bool, intent: Intent): string {
    match role
    case Server =>
      if !isInit then "k3s is up and running"
      else if intent == ClusterCreate then "Containerd is now running"
      else "Running kube-apiserver"
    case Agent => "Successfully registered node"
    case LoadBalancer => "start worker processes"
    case Registry => "listening on"
    case NoRole => ""
  }

  /** The roles for which waiting has something to wait for. */
  predicate HasReadyMessage(role: Role) { role != NoRole }

  lemma ReadyMessageExists(role: Role, isInit: bool, intent: Intent)
    ensures ReadyLogMessage(role, isInit, intent) != "" <==> HasReadyMessage(role)
  {}

  /** The messages of the table, for nodes that start, and whatever the intent if nothing is said of it. */
  lemma ReadyMessages(intent: Intent, isInit: bool)
    ensures ReadyLogMessage(Server, false, intent) == "k3s is up and running"
    ensures ReadyLogMessage(Server, true, intent) ==
            if intent == ClusterCreate then "Containerd is now running" else "Running kube-apiserver"
    ensures ReadyLogMessage(Agent, isInit, intent) == "Successfully registered node"
    ensures ReadyLogMessage(LoadBalancer, isInit, intent) == "start worker processes"
    ensures ReadyLogMessage(Registry, isInit, intent) == "listening on"
    ensures HasReadyMessage(Server) && HasReadyMessage(Agent) && HasReadyMessage(LoadBalancer)
    ensures HasReadyMessage(Registry) && !HasReadyMessage(NoRole)
  {}
}
