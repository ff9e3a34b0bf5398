/** Creating a cluster and then starting it: the order of creation meets the order of starting. */
module JoinOrder {
  import opened ClusterConfig
  import opened Names
  import opened ReadyLog
  import opened Types
  import Bootstrap
  import ClusterStart
  import StagedStart

  /** What a start sees of the nodes of a cluster. */
  ghost predicate Describes(ms: seq<ClusterStart.Member>, c: Cluster)
    reads c`nodes, (set n | n in c.nodes)`name, (set n | n in c.nodes)`isInit
  {
    && |ms| == |c.nodes|
    && forall i | 0 <= i < |ms| ::
         ms[i].name == c.nodes[i].name && ms[i].role == c.nodes[i].role && ms[i].isInit == c.nodes[i].isInit
  }

  /** Which node the server of index 0 is, and that only it can be an init server. */
  lemma TheZero(c: Cluster, servers: nat, agents: nat, ms: seq<ClusterStart.Member>, z: nat)
    requires Consists(c, servers, agents, servers) && servers > 0 && Describes(ms, c)
    requires z < |ms| && ms[z].name == GenerateNodeName(c.name, Server, 0)
    ensures z == if c.lb == null then 0 else 1
    ensures ms[z].role == Server && (ms[z].isInit <==> servers > 1)
    ensures forall k | 0 <= k < |ms| && k != z && ms[k].role == Server :: servers > 1 && !ms[k].isInit
  {
    hide GenerateNodeName, LoadBalancerName;
    var f := if c.lb == null then 0 else 1;
    LoadBalancerNameApart(c.name, c.name, Server, 0);
    if f <= z < f + servers {
      Bootstrap.NodeNameInjectiveIf(c.name, Server, z - f);
    } else if z >= f + servers {
      Bootstrap.NodeNameInjectiveIf(c.name, Agent, z - f - servers);
    }
  }

  /**
   In a cluster made from a configuration, whatever is interleaved and whatever fails: if the server of
   index 0 is stopped, every other server and every agent is started only after that server was seen ready.
   */
  lemma JoinersStartLater(c: Cluster, servers: nat, agents: nat, ms: seq<ClusterStart.Member>,
                          intent: Intent, hostNetwork: bool, ok: bool, log: seq<StagedStart.Event>,
                          z: nat, i: nat, p: nat)
    requires Consists(c, servers, agents, servers) && servers > 0 && Describes(ms, c)
    requires ClusterStart.Completes(ms, intent, hostNetwork, ok, log)
    requires z < |ms| && ms[z].name == "k3d-" + c.name + "-server-0" && !ms[z].running
    requires i < |ms| && i != z && (ms[i].role == Server || ms[i].role == Agent)
    requires p < |log| && log[p] == StagedStart.Started(i)
    ensures StagedStart.Ready(z) in log[..p]
  {
    NodeNames(c.name);
    TheZero(c, servers, agents, ms, z);
    hide GenerateNodeName, Consists, ClusterStart.Completes;
    ClusterStart.WhenStarted(ms, intent, hostNetwork, ok, log, p, i);
  }
}
