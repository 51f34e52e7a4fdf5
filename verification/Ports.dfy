/** Automatic selection of node ports: the used ports of the cluster are gathered
    once and every selected port is remembered. */
module Ports {
  import opened Common

  const PORT_MIN := 20000
  const PORT_MAX := 30000

  datatype ContainerPort = ContainerPort(hostPort: int, containerPort: int)

  datatype Pod = Pod(nodeName: string, phase: string, hostNetwork: bool, containers: seq<seq<ContainerPort>>)

  datatype Service = Service(serviceType: string, nodePorts: seq<int>)

  /** What listing pods and services gives. */
  datatype Cluster = Cluster(pods: seq<Pod>, services: seq<Service>)

  // ----- the ports a cluster uses

  predicate Excluded(p: Pod) { p.nodeName == "" || p.phase == "Succeeded" || p.phase == "Failed" }

  predicate Exposes(s: Service) { s.serviceType == "NodePort" || s.serviceType == "LoadBalancer" }

  /** A port that the cluster uses: the host port of an active pod (its container port
      on the host network), or a node port of a service. */
  ghost predicate UsedBy(c: Cluster, port: int) {
    || (exists p, ports, q :: p in c.pods && ports in p.containers && q in ports
          && p.nodeName != "" && p.phase != "Succeeded" && p.phase != "Failed"
          && port == (if p.hostNetwork then q.containerPort else q.hostPort))
    || (exists s :: s in c.services && s.serviceType in {"NodePort", "LoadBalancer"} && port in s.nodePorts)
  }

  function OnHost(hostNetwork: bool, ports: seq<ContainerPort>): seq<int> {
    if ports == [] then []
    else
      var q := ports[|ports| - 1];
      OnHost(hostNetwork, ports[..|ports| - 1]) + [if hostNetwork then q.containerPort else q.hostPort]
  }

  function PodPorts(hostNetwork: bool, containers: seq<seq<ContainerPort>>): seq<int> {
    if containers == [] then []
    else PodPorts(hostNetwork, containers[..|containers| - 1]) + OnHost(hostNetwork, containers[|containers| - 1])
  }

  function ActivePorts(pods: seq<Pod>): seq<int> {
    if pods == [] then []
    else
      var p := pods[|pods| - 1];
      ActivePorts(pods[..|pods| - 1]) + (if Excluded(p) then [] else PodPorts(p.hostNetwork, p.containers))
  }

  function ServicePorts(services: seq<Service>): seq<int> {
    if services == [] then []
    else
      var s := services[|services| - 1];
      ServicePorts(services[..|services| - 1]) + (if Exposes(s) then s.nodePorts else [])
  }

  function Gathered(c: Cluster): seq<int> { ActivePorts(c.pods) + ServicePorts(c.services) }

  lemma {:induction false} OnHostMeaning(hostNetwork: bool, ports: seq<ContainerPort>, port: int)
    ensures port in OnHost(hostNetwork, ports) <==>
              exists q :: q in ports && port == (if hostNetwork then q.containerPort else q.hostPort)
  {
    if ports != [] {
      OnHostMeaning(hostNetwork, ports[..|ports| - 1], port);
      assert ports == ports[..|ports| - 1] + [ports[|ports| - 1]];
    }
  }

  lemma {:induction false} PodPortsMeaning(hostNetwork: bool, containers: seq<seq<ContainerPort>>, port: int)
    ensures port in PodPorts(hostNetwork, containers) <==>
              exists ports, q :: ports in containers && q in ports && port == (if hostNetwork then q.containerPort else q.hostPort)
  {
    if containers != [] {
      PodPortsMeaning(hostNetwork, containers[..|containers| - 1], port);
      OnHostMeaning(hostNetwork, containers[|containers| - 1], port);
      assert containers == containers[..|containers| - 1] + [containers[|containers| - 1]];
    }
  }

  lemma {:induction false} ActivePortsMeaning(pods: seq<Pod>, port: int)
    ensures port in ActivePorts(pods) <==>
              exists p :: p in pods && !Excluded(p) && port in PodPorts(p.hostNetwork, p.containers)
  {
    if pods != [] {
      ActivePortsMeaning(pods[..|pods| - 1], port);
      assert pods == pods[..|pods| - 1] + [pods[|pods| - 1]];
    }
  }

  lemma {:induction false} ServicePortsMeaning(services: seq<Service>, port: int)
    ensures port in ServicePorts(services) <==> exists s :: s in services && Exposes(s) && port in s.nodePorts
  {
    if services != [] {
      ServicePortsMeaning(services[..|services| - 1], port);
      assert services == services[..|services| - 1] + [services[|services| - 1]];
    }
  }

  /** Gathering finds every port the cluster uses and no other. */
  lemma GatheredMeaning(c: Cluster, port: int)
    ensures port in Gathered(c) <==> UsedBy(c, port)
  {
    ActivePortsMeaning(c.pods, port);
    ServicePortsMeaning(c.services, port);
    forall p | p in c.pods
      ensures port in PodPorts(p.hostNetwork, p.containers) <==>
                exists ports, q :: ports in p.containers && q in ports && port == (if p.hostNetwork then q.containerPort else q.hostPort)
    {
      PodPortsMeaning(p.hostNetwork, p.containers, port);
    }
  }

  // ----- free ports

  /** The free ports of the range from `port` on, in increasing order. */
  function FreeFrom(used: seq<int>, port: int): seq<int>
    decreases PORT_MAX - port
  {
    if port >= PORT_MAX then []
    else if port in used then FreeFrom(used, port + 1)
    else [port] + FreeFrom(used, port + 1)
  }

  function Free(used: seq<int>): seq<int> { FreeFrom(used, PORT_MIN) }

  /** They are strictly increasing and exactly the unused ports of the range. */
  lemma {:induction false} FreeFromMeaning(used: seq<int>, port: int)
    ensures forall i, j :: 0 <= i < j < |FreeFrom(used, port)| ==> FreeFrom(used, port)[i] < FreeFrom(used, port)[j]
    ensures forall p :: p in FreeFrom(used, port) <==> port <= p < PORT_MAX && p !in used
    decreases PORT_MAX - port
  {
    if port < PORT_MAX {
      FreeFromMeaning(used, port + 1);
      var rest := FreeFrom(used, port + 1);
      assert forall j :: 0 <= j < |rest| ==> rest[j] in rest;
    }
  }

  lemma {:induction false} FreeWithout(used: seq<int>, taken: int, port: int)
    requires FreeFrom(used, port) != [] && FreeFrom(used, port)[0] == taken
    ensures FreeFrom(used + [taken], port) == FreeFrom(used, port)[1..]
    decreases PORT_MAX - port
  {
    FreeFromMeaning(used, port);
    if port in used {
      assert port in used + [taken];
      FreeWithout(used, taken, port + 1);
    } else {
      assert taken == port && FreeFrom(used, port)[1..] == FreeFrom(used, port + 1);
      assert port in used + [taken];
      FreeUnchanged(used, taken, port + 1);
    }
  }

  lemma {:induction false} FreeUnchanged(used: seq<int>, taken: int, port: int)
    requires taken < port
    ensures FreeFrom(used + [taken], port) == FreeFrom(used, port)
    decreases PORT_MAX - port
  {
    if port < PORT_MAX {
      FreeUnchanged(used, taken, port + 1);
    }
  }

  // ----- one call and sequences of calls

  /** The ports known when selection starts: gathered only while none are known. */
  function Known(used: seq<int>, gathered: seq<int>): seq<int> { if used == [] then gathered else used }

  function Select(known: seq<int>): (Option<int>, seq<int>) {
    var free := Free(known);
    if free == [] then (None, known) else (Some(free[0]), known + [free[0]])
  }

  /** What a sequence of calls returns; `gathered` is what each would gather. */
  function Results(used: seq<int>, gathered: seq<seq<int>>): seq<Option<int>>
    decreases |gathered|
  {
    if gathered == [] then []
    else
      var (port, after) := Select(Known(used, gathered[0]));
      [port] + Results(after, gathered[1..])
  }

  /** Over any sequence of calls the i-th one returns the i-th free port of what was
      known at the first call, and fails when there are no more. */
  lemma {:induction false} CallsReturnFreePorts(used: seq<int>, gathered: seq<seq<int>>)
    requires gathered != []
    ensures var free, results := Free(Known(used, gathered[0])), Results(used, gathered);
            && |results| == |gathered|
            && forall i :: 0 <= i < |results| ==> results[i] == if i < |free| then Some(free[i]) else None
    decreases |gathered|
  {
    var known := Known(used, gathered[0]);
    var free, after := Free(known), Select(known).1;
    var rest := gathered[1..];
    if free != [] {
      FreeWithout(known, free[0], PORT_MIN);
      assert Known(after, if rest == [] then [] else rest[0]) == after;
    } else {
      NonemptyWhenFull(known);
    }
    if rest != [] {
      CallsReturnFreePorts(after, rest);
      var left := if free == [] then [] else free[1..];
      assert Free(Known(after, rest[0])) == left;
      forall i | 0 < i < |gathered| ensures Results(used, gathered)[i] == if i < |free| then Some(free[i]) else None {
        assert Results(used, gathered)[i] == Results(after, rest)[i - 1];
      }
    }
  }

  lemma NonemptyWhenFull(known: seq<int>)
    requires Free(known) == []
    ensures known != []
  {
    FreeFromMeaning(known, PORT_MIN);
    assert PORT_MIN !in Free(known);
  }

  /** The returned ports strictly increase within the range, avoid every known port
      and skip no free one; a call fails exactly when all ports of the range are
      known to be used or have been returned. */
  lemma CallsAllocate(used: seq<int>, gathered: seq<seq<int>>, i: nat)
    requires i < |gathered|
    ensures var known, results := Known(used, gathered[0]), Results(used, gathered);
            && |results| == |gathered|
            && (match results[i]
                case Some(p) =>
                  && PORT_MIN <= p < PORT_MAX && p !in known
                  && (forall j :: 0 <= j < i ==> results[j].Some? && results[j].value < p)
                  && (forall q :: PORT_MIN <= q < p ==> q in known || Some(q) in results[..i])
                case None =>
                  forall q :: PORT_MIN <= q < PORT_MAX ==> q in known || Some(q) in results[..i])
  {
    CallsReturnFreePorts(used, gathered);
    var known, results := Known(used, gathered[0]), Results(used, gathered);
    var free := Free(known);
    FreeFromMeaning(known, PORT_MIN);
    var bound := if i < |free| then free[i] else PORT_MAX;
    assert i < |free| ==> free[i] in free;
    forall q | PORT_MIN <= q < bound && q !in known ensures Some(q) in results[..i] {
      assert q in free;
      var k :| 0 <= k < |free| && free[k] == q;
      assert k < i && results[..i][k] == Some(q);
    }
  }

  /** What must not be returned: the ports an allocator has remembered, or, if there are
      none yet, those that the cluster uses at the first call. */
  ghost predicate Reserved(used: seq<int>, first: Cluster, port: int) {
    if used == [] then UsedBy(first, port) else port in used
  }

  /** Over any sequence of calls, for the clusters found at each of them: no call
      returns a reserved port or one returned before, or skips a free one, and a call
      fails exactly when the whole range is reserved or returned. */
  lemma ClusterPortsAvoided(used: seq<int>, clusters: seq<Cluster>, i: nat)
    requires i < |clusters|
    ensures var results := Results(used, seq(|clusters|, k requires 0 <= k < |clusters| => Gathered(clusters[k])));
            && |results| == |clusters|
            && (match results[i]
                case Some(p) =>
                  && 20000 <= p < 30000 && !Reserved(used, clusters[0], p) && Some(p) !in results[..i]
                  && (forall q :: 20000 <= q < p ==> Reserved(used, clusters[0], q) || Some(q) in results[..i])
                case None =>
                  forall q :: 20000 <= q < 30000 ==> Reserved(used, clusters[0], q) || Some(q) in results[..i])
  {
    var gathered := seq(|clusters|, k requires 0 <= k < |clusters| => Gathered(clusters[k]));
    CallsAllocate(used, gathered, i);
    forall q ensures q in Known(used, gathered[0]) <==> Reserved(used, clusters[0], q) {
      GatheredMeaning(clusters[0], q);
    }
  }

  // ----- the allocator

  class Allocator {
    var k8sClusterUsedPorts: seq<int>

    constructor ()
      ensures k8sClusterUsedPorts == []
    {
      k8sClusterUsedPorts := [];
    }

    method GatherContainer(hostNetwork: bool, container: seq<ContainerPort>)
      modifies this
      ensures k8sClusterUsedPorts == old(k8sClusterUsedPorts) + OnHost(hostNetwork, container)
    {
      for j := 0 to |container|
        invariant k8sClusterUsedPorts == old(k8sClusterUsedPorts) + OnHost(hostNetwork, container[..j])
      {
        assert container[..j + 1][..j] == container[..j];
        var usedHostPort := container[j].hostPort;
        if hostNetwork {
          usedHostPort := container[j].containerPort;
        }
        k8sClusterUsedPorts := k8sClusterUsedPorts + [usedHostPort];
      }
      assert container[..|container|] == container;
    }

    method GatherPod(pod: Pod)
      modifies this
      ensures k8sClusterUsedPorts == old(k8sClusterUsedPorts) + PodPorts(pod.hostNetwork, pod.containers)
    {
      for i := 0 to |pod.containers|
        invariant k8sClusterUsedPorts == old(k8sClusterUsedPorts) + PodPorts(pod.hostNetwork, pod.containers[..i])
      {
        assert pod.containers[..i + 1][..i] == pod.containers[..i];
        GatherContainer(pod.hostNetwork, pod.containers[i]);
      }
      assert pod.containers[..|pod.containers|] == pod.containers;
    }

    method GatherPods(pods: seq<Pod>)
      modifies this
      ensures k8sClusterUsedPorts == old(k8sClusterUsedPorts) + ActivePorts(pods)
    {
      for i := 0 to |pods|
        invariant k8sClusterUsedPorts == old(k8sClusterUsedPorts) + ActivePorts(pods[..i])
      {
        assert pods[..i + 1][..i] == pods[..i];
        if !Excluded(pods[i]) {
          GatherPod(pods[i]);
        }
      }
      assert pods[..|pods|] == pods;
    }

    method GatherServices(services: seq<Service>)
      modifies this
      ensures k8sClusterUsedPorts == old(k8sClusterUsedPorts) + ServicePorts(services)
    {
      for i := 0 to |services|
        invariant k8sClusterUsedPorts == old(k8sClusterUsedPorts) + ServicePorts(services[..i])
      {
        var service := services[i];
        assert services[..i + 1][..i] == services[..i];
        if service.serviceType == "NodePort" || service.serviceType == "LoadBalancer" {
          GatherNodePorts(service.nodePorts);
        }
      }
      assert services[..|services|] == services;
    }

    method GatherNodePorts(nodePorts: seq<int>)
      modifies this
      ensures k8sClusterUsedPorts == old(k8sClusterUsedPorts) + nodePorts
    {
      for j := 0 to |nodePorts|
        invariant k8sClusterUsedPorts == old(k8sClusterUsedPorts) + nodePorts[..j]
      {
        k8sClusterUsedPorts := k8sClusterUsedPorts + [nodePorts[j]];
      }
    }

    method GetClusterUsedNodePorts(c: Cluster)
      modifies this
      ensures k8sClusterUsedPorts == old(k8sClusterUsedPorts) + Gathered(c)
    {
      GatherPods(c.pods);
      GatherServices(c.services);
    }

    method InitK8sClusterUsedPort(c: Cluster)
      modifies this
      ensures k8sClusterUsedPorts == Known(old(k8sClusterUsedPorts), Gathered(c))
    {
      if |k8sClusterUsedPorts| == 0 {
        GetClusterUsedNodePorts(c);
      }
    }

    method IsPortInUsed(port: int) returns (used: bool)
      ensures used <==> port in k8sClusterUsedPorts
    {
      for k := 0 to |k8sClusterUsedPorts|
        invariant port !in k8sClusterUsedPorts[..k]
      {
        if port == k8sClusterUsedPorts[k] {
          return true;
        }
      }
      return false;
    }

    /** None is the error that no port is available. */
    method SelectAvailablePort(c: Cluster) returns (selected: Option<int>)
      modifies this
      ensures (selected, k8sClusterUsedPorts) == Select(Known(old(k8sClusterUsedPorts), Gathered(c)))
    {
      InitK8sClusterUsedPort(c);
      var port := PORT_MIN;
      while port < PORT_MAX
        invariant PORT_MIN <= port <= PORT_MAX
        invariant k8sClusterUsedPorts == Known(old(k8sClusterUsedPorts), Gathered(c))
        invariant Free(k8sClusterUsedPorts) == FreeFrom(k8sClusterUsedPorts, port)
      {
        var used := IsPortInUsed(port);
        if !used {
          k8sClusterUsedPorts := k8sClusterUsedPorts + [port];
          return Some(port);
        }
        port := port + 1;
      }
      return None;
    }
  }
}
