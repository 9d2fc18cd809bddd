/** The rows of the store and the container options they carry. */
module Specs {
  import opened Text

  datatype PortMap = PortMap(hostIP: string, hostPort: string, containerPort: string, proto: string)

  /** The stored container options. Only ports and labels are looked at; other stands for the rest. */
  datatype AdvancedSpec = AdvancedSpec(ports: seq<PortMap>, labels: map<string, string>, other: string)

  datatype Service = Service(
    name: string, owner: string, image: string, subdomain: string, containerPort: int, network: string,
    env: seq<string>, cpuMilli: int, memMB: int, replicas: int64, minReplicas: int64, maxReplicas: int64,
    autoscale: bool, targetCpuPct: int, gitRepo: string,
    gitBranch: string, gitDockerfile: string, webhookToken: string, lastImage: string,
    advanced: AdvancedSpec, endpointID: int)

  datatype Route = Route(
    subdomain: string, containerID: string, targetHost: string, targetPort: int, endpointID: int)

  datatype Endpoint = Endpoint(id: int, name: string)

  // ----------------------------------------------------------- replica names

  /** The name of the container that is replica i. */
  function ReplicaName(service: string, i: nat): string { service + "-" + Itoa(i) }

  /** Replicas of different services, or of one service at different indices, never share a name. */
  lemma ReplicaNameInjective(s: string, i: nat, t: string, j: nat)
    requires ReplicaName(s, i) == ReplicaName(t, j)
    ensures s == t && i == j
  {
    ItoaHasNoHyphen(i);
    ItoaHasNoHyphen(j);
    LastCutUnique(s, Itoa(i), t, Itoa(j), '-');
    ItoaInjective(i, j);
  }

  function ReplicaNames(service: string, n: nat): (names: seq<string>)
    ensures |names| == n && forall i :: 0 <= i < n ==> names[i] == ReplicaName(service, i)
  {
    if n == 0 then [] else ReplicaNames(service, n - 1) + [ReplicaName(service, n - 1)]
  }
}
