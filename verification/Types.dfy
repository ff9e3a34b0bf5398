/** The records of k3d that several components share. */
module Types {
  import opened Wrappers

  datatype Role = Server | Agent | LoadBalancer | Registry | NoRole

  /** A container port such as "80/tcp"; the protocol part may be missing. */
  type Port = string

  datatype PortBinding = PortBinding(hostIP: string, hostPort: string)

  /** One parsed port mapping. */
  datatype PortMapping = PortMapping(port: Port, binding: PortBinding)

  type PortMap = map<Port, seq<PortBinding>>

  /** The port of the Kubernetes API, as k3d itself writes it: without a protocol. */
  const API_PORT: Port := "6443"

  /** Runtime labels of a node or a container. */
  type Labels = map<string, string>

  /** A k3d node: the in-memory description of one container. */
  class Node {
    const role: Role
    var name: string
    var isInit: bool
    var labels: Labels
    var env: seq<string>
    var ports: PortMap
    var ip: Option<int>
    var running: bool

    constructor (name: string, role: Role)
      ensures this.name == name && this.role == role
      ensures !isInit && labels == map[] && env == [] && ports == map[] && ip == None && !running
    {
      this.name, this.role := name, role;
      isInit, labels, env, ports, ip, running := false, map[], [], map[], None, false;
    }
  }
}
