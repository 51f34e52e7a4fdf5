/** GPU-share accounting: the pods of a node are charged to its devices, and the
    devices of a cluster add up to its pods. */
module GpuShare {
  import opened Common
  import Decimal

  const DEVICE_ANNOTATION := "ALIYUN_COM_GPU_MEM_IDX"

  /** `limits` is the GPU memory limit of each container, if it has one. */
  datatype Pod = Pod(name: string, nodeName: string, annotations: map<string, string>, limits: seq<Option<int>>)

  datatype Node = Node(name: string, gpuMemory: Option<int>, gpuCount: Option<int>)

  function TotalGPUMemory(n: Node): int { if n.gpuMemory.Some? then n.gpuMemory.value else 0 }

  function GPUCount(n: Node): int { if n.gpuCount.Some? then n.gpuCount.value else 0 }

  // ----- memory and device of a pod

  function LimitsSum(limits: seq<Option<int>>): int {
    if limits == [] then 0
    else LimitsSum(limits[..|limits| - 1]) + (match limits[|limits| - 1] case None => 0 case Some(m) => m)
  }

  /** Every limit counts once. */
  lemma {:induction false} LimitsAddUp(a: seq<Option<int>>, b: seq<Option<int>>)
    ensures LimitsSum(a + b) == LimitsSum(a) + LimitsSum(b)
  {
    if b == [] {
      assert a + b == a;
    } else {
      assert (a + b)[..|a + b| - 1] == a + b[..|b| - 1];
      LimitsAddUp(a, b[..|b| - 1]);
    }
  }

  function GpuMemory(p: Pod): int { LimitsSum(p.limits) }

  lemma LimitsOfOne(x: Option<int>)
    ensures LimitsSum([x]) == if x.Some? then x.value else 0
    ensures LimitsSum([]) == 0
  {
    assert [x][..0] == [];
  }

  /** Every container counts: with its limit if it has one, wherever it stands. */
  lemma ContainerCounts(p: Pod, before: seq<Option<int>>, x: Option<int>, after: seq<Option<int>>)
    requires p.limits == before + [x] + after
    ensures GpuMemory(p) == GpuMemory(p.(limits := before + after)) + (if x.Some? then x.value else 0)
    ensures GpuMemory(p.(limits := [])) == 0
  {
    LimitsAddUp(before + [x], after);
    LimitsAddUp(before, [x]);
    LimitsAddUp(before, after);
    LimitsOfOne(x);
  }

  method GpuMemoryInPod(p: Pod) returns (total: int)
    ensures total == GpuMemory(p)
  {
    total := 0;
    for k := 0 to |p.limits|
      invariant total == LimitsSum(p.limits[..k])
    {
      assert p.limits[..k + 1][..k] == p.limits[..k];
      match p.limits[k] {
        case None =>
        case Some(m) => total := total + m;
      }
    }
    assert p.limits[..|p.limits|] == p.limits;
  }

  /** The annotated device, or -1 when the annotation is absent or unparsable. */
  function DeviceId(p: Pod): int {
    if DEVICE_ANNOTATION !in p.annotations then -1
    else match Decimal.Atoi(p.annotations[DEVICE_ANNOTATION]) case None => -1 case Some(id) => id
  }

  /** An annotation that strconv.Itoa prints for an int64 names that device. */
  lemma AnnotatedDevice(p: Pod, id: int)
    requires MIN_INT64 <= id <= MAX_INT64
    ensures "ALIYUN_COM_GPU_MEM_IDX" in p.annotations && p.annotations["ALIYUN_COM_GPU_MEM_IDX"] == Decimal.Itoa(id) ==>
              DeviceId(p) == id
    ensures "ALIYUN_COM_GPU_MEM_IDX" !in p.annotations ==> DeviceId(p) == -1
    ensures "ALIYUN_COM_GPU_MEM_IDX" in p.annotations && !Decimal.IsInt64Text(p.annotations["ALIYUN_COM_GPU_MEM_IDX"]) ==>
              DeviceId(p) == -1
  {
    Decimal.AtoiItoa(id);
    if DEVICE_ANNOTATION in p.annotations {
      Decimal.AtoiDecided(p.annotations[DEVICE_ANNOTATION]);
    }
  }

  /** What a pod is charged: nothing unless its GPU memory is positive. */
  function Charge(p: Pod): nat { if GpuMemory(p) > 0 then GpuMemory(p) else 0 }

  function Charges(pods: seq<Pod>): nat {
    if pods == [] then 0 else Charges(pods[..|pods| - 1]) + Charge(pods[|pods| - 1])
  }

  lemma ChargesLast(pods: seq<Pod>, p: Pod)
    ensures Charges(pods + [p]) == Charges(pods) + Charge(p)
  {
    assert (pods + [p])[..|pods|] == pods;
  }

  /** The charged pods of one device, in order. */
  function OnDevice(pods: seq<Pod>, id: int): seq<Pod> {
    Filter(pods, (p: Pod) => GpuMemory(p) > 0 && DeviceId(p) == id)
  }

  lemma OnDeviceLast(pods: seq<Pod>, p: Pod, id: int)
    ensures OnDevice(pods + [p], id) ==
              if GpuMemory(p) > 0 && DeviceId(p) == id then OnDevice(pods, id) + [p] else OnDevice(pods, id)
  {
    FilterLast(pods, p, (p: Pod) => GpuMemory(p) > 0 && DeviceId(p) == id);
  }

  // ----- sums over maps

  ghost function MapSum<K(!new)>(m: map<K, nat>): nat {
    if m == map[] then 0
    else
      var k :| k in m;
      m[k] + MapSum(m - {k})
  }

  lemma {:induction false} MapSumAt<K(!new)>(m: map<K, nat>, k: K)
    requires k in m
    ensures MapSum(m) == m[k] + MapSum(m - {k})
    decreases |m|
  {
    var j :| j in m && MapSum(m) == m[j] + MapSum(m - {j});
    if j != k {
      MapSumAt(m - {j}, k);
      MapSumAt(m - {k}, j);
      assert m - {j} - {k} == m - {k} - {j};
    }
  }

  lemma MapSumUpdate<K(!new)>(m: map<K, nat>, k: K, x: nat)
    ensures MapSum(m[k := x]) + (if k in m then m[k] else 0) == MapSum(m) + x
  {
    MapSumAt(m[k := x], k);
    assert m[k := x] - {k} == m - {k};
    if k in m {
      MapSumAt(m, k);
    } else {
      assert m - {k} == m;
    }
  }

  lemma {:induction false} MapSumOrder<K(!new)>(a: map<K, nat>, b: map<K, nat>)
    requires a.Keys == b.Keys && forall k :: k in a ==> a[k] <= b[k]
    ensures MapSum(a) <= MapSum(b)
    ensures MapSum(a) == MapSum(b) <==> a == b
    decreases |a|
  {
    if a == map[] {
      assert b == map[];
    } else {
      var k :| k in a;
      MapSumAt(a, k);
      MapSumAt(b, k);
      MapSumOrder(a - {k}, b - {k});
      if a - {k} == b - {k} && a[k] == b[k] {
        forall j | j in a ensures a[j] == b[j] {
          if j != k {
            assert j in a - {k} && (a - {k})[j] == (b - {k})[j];
          }
        }
      }
    }
  }

  lemma {:induction false} MapSumZero<K(!new)>(m: map<K, nat>)
    requires forall k :: k in m ==> m[k] == 0
    ensures MapSum(m) == 0
    decreases |m|
  {
    if m != map[] {
      assert m.Keys != {};
      var k :| k in m.Keys;
      MapSumAt(m, k);
      MapSumZero(m - {k});
    }
  }

  // ----- the devices of one node, as values

  datatype Device = Device(idx: int, pods: seq<Pod>, used: nat, total: int)

  function DeviceTotal(memory: int, count: int): int {
    if count > 0 then GoDiv(memory, count) else 0
  }

  /** The devices a node has before any pod is charged. */
  function EmptyDevices(memory: int, count: int): map<int, Device> {
    map i | 0 <= i < count :: Device(i, [], 0, DeviceTotal(memory, count))
  }

  function ChargePod(devs: map<int, Device>, p: Pod, total: int): map<int, Device> {
    if GpuMemory(p) <= 0 then devs
    else
      var id := DeviceId(p);
      var dev := if id in devs then devs[id] else Device(id, [], 0, total);
      devs[id := dev.(used := dev.used + GpuMemory(p), pods := dev.pods + [p])]
  }

  function ChargePods(devs: map<int, Device>, pods: seq<Pod>, total: int): map<int, Device> {
    if pods == [] then devs else ChargePod(ChargePods(devs, pods[..|pods| - 1], total), pods[|pods| - 1], total)
  }

  function Devices(memory: int, count: int, pods: seq<Pod>): map<int, Device> {
    ChargePods(EmptyDevices(memory, count), pods, DeviceTotal(memory, count))
  }

  ghost function UsedById(devs: map<int, Device>): map<int, nat> {
    map id | id in devs :: devs[id].used
  }

  /** Each device lists exactly the charged pods annotated with it, in order, and its
      usage is what they are charged; a device exists when it is one of the node's
      or some charged pod names it. */
  lemma {:induction false} DeviceMeaning(memory: int, count: int, pods: seq<Pod>, id: int)
    ensures var devs := Devices(memory, count, pods);
            && (id in devs <==> 0 <= id < count || OnDevice(pods, id) != [])
            && (id in devs ==> devs[id] == Device(id, OnDevice(pods, id), Charges(OnDevice(pods, id)), DeviceTotal(memory, count)))
  {
    if pods != [] {
      var front, p := pods[..|pods| - 1], pods[|pods| - 1];
      DeviceMeaning(memory, count, front, id);
      assert pods == front + [p];
      OnDeviceLast(front, p, id);
      ChargesLast(OnDevice(front, id), p);
    }
  }

  /** The node's memory is shared out equally: what a device is given, over all of the
      node's devices, is the memory but for less than one unit a device. */
  lemma DeviceShare(node: Node, memory: int, count: int, pods: seq<Pod>, id: int)
    requires node.gpuMemory == Some(memory) && node.gpuCount == Some(count)
    requires memory >= 0 && count > 0
    ensures var devs := Devices(TotalGPUMemory(node), GPUCount(node), pods);
            && (0 <= id < count ==> id in devs)
            && (id in devs ==> devs[id].total * count <= memory < (devs[id].total + 1) * count)
  {
    DeviceMeaning(memory, count, pods, id);
    var total := memory / count;
    assert memory == total * count + memory % count;
    assert (total + 1) * count == total * count + count;
  }

  /** Every charged pod sits, as often as it occurs, on the one device it names. */
  lemma OnOneDevice(pods: seq<Pod>, id: int, p: Pod)
    ensures multiset(OnDevice(pods, id))[p] == if GpuMemory(p) > 0 && DeviceId(p) == id then multiset(pods)[p] else 0
  {
    FilterCounts(pods, (p: Pod) => GpuMemory(p) > 0 && DeviceId(p) == id, p);
  }

  /** The pods of a device stand in the order of the node's pods. */
  lemma DeviceOrder(pods: seq<Pod>, id: int) returns (at: seq<nat>)
    ensures |at| == |OnDevice(pods, id)|
    ensures forall k :: 0 <= k < |at| ==> at[k] < |pods| && OnDevice(pods, id)[k] == pods[at[k]]
    ensures forall k, l :: 0 <= k < l < |at| ==> at[k] < at[l]
  {
    at := FilterInOrder(pods, (p: Pod) => GpuMemory(p) > 0 && DeviceId(p) == id);
  }

  /** GPU memory is conserved on a node: its devices use what its pods are charged. */
  lemma {:induction false} NodeConservation(memory: int, count: int, pods: seq<Pod>)
    ensures MapSum(UsedById(Devices(memory, count, pods))) == Charges(pods)
  {
    if pods == [] {
      MapSumZero(UsedById(Devices(memory, count, pods)));
    } else {
      var front, p := pods[..|pods| - 1], pods[|pods| - 1];
      NodeConservation(memory, count, front);
      UsageStep(Devices(memory, count, front), p, DeviceTotal(memory, count));
    }
  }

  lemma UsageStep(devs: map<int, Device>, p: Pod, total: int)
    ensures MapSum(UsedById(ChargePod(devs, p, total))) == MapSum(UsedById(devs)) + Charge(p)
  {
    if GpuMemory(p) > 0 {
      var id := DeviceId(p);
      var used := (if id in devs then devs[id].used else 0) + GpuMemory(p);
      MapSumUpdate(UsedById(devs), id, used);
      assert UsedById(ChargePod(devs, p, total)) == UsedById(devs)[id := used];
    }
  }

  // ----- the cluster, as values

  datatype NodeEntry = NodeEntry(node: Node, pods: seq<Pod>)

  function PodsOn(pods: seq<Pod>, name: string): seq<Pod> {
    Filter(pods, (p: Pod) => p.nodeName == name)
  }

  /** One more node of the list: a repeated name appends its pods once more. */
  function WithNode(entries: map<string, NodeEntry>, n: Node, pods: seq<Pod>): map<string, NodeEntry> {
    var e := if n.name in entries then entries[n.name] else NodeEntry(n, []);
    entries[n.name := e.(pods := e.pods + PodsOn(pods, n.name))]
  }

  function Entries(nodes: seq<Node>, pods: seq<Pod>): map<string, NodeEntry> {
    if nodes == [] then map[] else WithNode(Entries(nodes[..|nodes| - 1], pods), nodes[|nodes| - 1], pods)
  }

  function Occurs(nodes: seq<Node>, name: string): nat {
    if nodes == [] then 0 else Occurs(nodes[..|nodes| - 1], name) + (if nodes[|nodes| - 1].name == name then 1 else 0)
  }

  /** The first node of this name. */
  ghost predicate IsFirst(nodes: seq<Node>, n: Node) {
    exists i :: 0 <= i < |nodes| && nodes[i] == n && forall j :: 0 <= j < i ==> nodes[j].name != n.name
  }

  lemma {:induction false} ChargesAppend(a: seq<Pod>, b: seq<Pod>)
    ensures Charges(a + b) == Charges(a) + Charges(b)
  {
    if b == [] {
      assert a + b == a;
    } else {
      assert (a + b)[..|a + b| - 1] == a + b[..|b| - 1];
      ChargesAppend(a, b[..|b| - 1]);
    }
  }

  lemma {:induction false} Occurrence(nodes: seq<Node>, name: string)
    ensures Occurs(nodes, name) == 0 <==> forall n :: n in nodes ==> n.name != name
  {
    if nodes != [] {
      Occurrence(nodes[..|nodes| - 1], name);
      assert nodes == nodes[..|nodes| - 1] + [nodes[|nodes| - 1]];
    }
  }

  lemma IsFirstGrows(front: seq<Node>, last: Node, n: Node)
    requires IsFirst(front, n) || (n == last && forall m :: m in front ==> m.name != n.name)
    ensures IsFirst(front + [last], n)
  {
    var nodes := front + [last];
    if IsFirst(front, n) {
      var i :| 0 <= i < |front| && front[i] == n && forall j :: 0 <= j < i ==> front[j].name != n.name;
      assert nodes[i] == n && forall j :: 0 <= j < i ==> nodes[j].name != n.name;
    } else {
      assert nodes[|front|] == n && forall j :: 0 <= j < |front| ==> nodes[j].name != n.name;
    }
  }

  /** An entry is made by the first node of its name. */
  lemma {:induction false} EntryNode(nodes: seq<Node>, pods: seq<Pod>, name: string)
    ensures name in Entries(nodes, pods) <==> Occurs(nodes, name) > 0
    ensures name in Entries(nodes, pods) ==>
              Entries(nodes, pods)[name].node.name == name && IsFirst(nodes, Entries(nodes, pods)[name].node)
  {
    if nodes != [] {
      var front, n := nodes[..|nodes| - 1], nodes[|nodes| - 1];
      assert nodes == front + [n];
      EntryNode(front, pods, name);
      Occurrence(front, name);
      if name in Entries(nodes, pods) {
        IsFirstGrows(front, n, Entries(nodes, pods)[name].node);
      }
    }
  }

  function EntryPods(entries: map<string, NodeEntry>, name: string): seq<Pod> {
    if name in entries then entries[name].pods else []
  }

  lemma WithNodeCharges(entries: map<string, NodeEntry>, n: Node, pods: seq<Pod>, name: string)
    ensures Charges(EntryPods(WithNode(entries, n, pods), name)) ==
              Charges(EntryPods(entries, name)) + (if n.name == name then Charges(PodsOn(pods, name)) else 0)
  {
    ChargesAppend(EntryPods(entries, name), PodsOn(pods, name));
  }

  /** A node listed k times charges its pods k times. */
  lemma {:induction false} EntryCharges(nodes: seq<Node>, pods: seq<Pod>, name: string, c: nat)
    requires c == Charges(PodsOn(pods, name))
    ensures Charges(EntryPods(Entries(nodes, pods), name)) == Occurs(nodes, name) * c
  {
    if nodes != [] {
      var front, n := nodes[..|nodes| - 1], nodes[|nodes| - 1];
      var k, more := Occurs(front, name), if n.name == name then 1 else 0;
      EntryCharges(front, pods, name, c);
      WithNodeCharges(Entries(front, pods), n, pods, name);
      assert Entries(nodes, pods) == WithNode(Entries(front, pods), n, pods) && Occurs(nodes, name) == k + more;
      assert (k + more) * c == k * c + (if n.name == name then c else 0) by { OneMore(k, c); }
    }
  }

  lemma OneMore(k: nat, x: nat)
    ensures k * x + x == (k + 1) * x
  {
  }

  /** A node whose devices are accounted at all. */
  predicate HasGPUs(e: NodeEntry) { TotalGPUMemory(e.node) > 0 }

  function UsedAt(e: NodeEntry): nat { if HasGPUs(e) then Charges(e.pods) else 0 }

  function DueAt(e: NodeEntry, pods: seq<Pod>, name: string): nat {
    if HasGPUs(e) then Charges(PodsOn(pods, name)) else 0
  }

  /** What the devices of each node account for. */
  ghost function UsedByNode(entries: map<string, NodeEntry>): map<string, nat> {
    map n | n in entries :: UsedAt(entries[n])
  }

  /** What they should account for: the charged pods of each GPU node, once. */
  ghost function DueByNode(entries: map<string, NodeEntry>, pods: seq<Pod>): map<string, nat> {
    map n | n in entries :: DueAt(entries[n], pods, n)
  }

  predicate Counted(p: Pod, entries: map<string, NodeEntry>) {
    p.nodeName in entries && HasGPUs(entries[p.nodeName])
  }

  /** The pods that sit on a listed node with GPU memory. */
  ghost function OnListed(pods: seq<Pod>, entries: map<string, NodeEntry>): seq<Pod> {
    Filter(pods, (p: Pod) => Counted(p, entries))
  }

  lemma ChargesFilterLast(pods: seq<Pod>, p: Pod, keep: Pod -> bool)
    ensures Charges(Filter(pods + [p], keep)) == Charges(Filter(pods, keep)) + (if keep(p) then Charge(p) else 0)
  {
    FilterLast(pods, p, keep);
    ChargesLast(Filter(pods, keep), p);
  }

  lemma {:induction false} DueIsListed(entries: map<string, NodeEntry>, pods: seq<Pod>)
    ensures MapSum(DueByNode(entries, pods)) == Charges(OnListed(pods, entries))
  {
    if pods == [] {
      MapSumZero(DueByNode(entries, pods));
    } else {
      var front, p := pods[..|pods| - 1], pods[|pods| - 1];
      assert pods == front + [p];
      DueIsListed(entries, front);
      DueStep(entries, front, p);
      ListedStep(entries, front, p);
    }
  }

  function Share(p: Pod, entries: map<string, NodeEntry>): nat { if Counted(p, entries) then Charge(p) else 0 }

  lemma DueStep(entries: map<string, NodeEntry>, pods: seq<Pod>, p: Pod)
    ensures MapSum(DueByNode(entries, pods + [p])) == MapSum(DueByNode(entries, pods)) + Share(p, entries)
  {
    var due := DueByNode(entries, pods);
    DueGrows(entries, pods, p);
    if Counted(p, entries) {
      MapSumUpdate(due, p.nodeName, due[p.nodeName] + Charge(p));
    }
  }

  lemma ListedStep(entries: map<string, NodeEntry>, pods: seq<Pod>, p: Pod)
    ensures Charges(OnListed(pods + [p], entries)) == Charges(OnListed(pods, entries)) + Share(p, entries)
  {
    ChargesFilterLast(pods, p, (p: Pod) => Counted(p, entries));
  }

  lemma DueGrows(entries: map<string, NodeEntry>, pods: seq<Pod>, p: Pod)
    ensures var due, more := DueByNode(entries, pods), DueByNode(entries, pods + [p]);
            more == if Counted(p, entries) then due[p.nodeName := due[p.nodeName] + Charge(p)] else due
  {
    var due, more := DueByNode(entries, pods), DueByNode(entries, pods + [p]);
    var target := if Counted(p, entries) then due[p.nodeName := due[p.nodeName] + Charge(p)] else due;
    assert more.Keys == target.Keys == entries.Keys;
    forall n | n in more ensures more[n] == target[n] {
      PodsOnLast(pods, p, n);
    }
  }

  lemma PodsOnLast(pods: seq<Pod>, p: Pod, name: string)
    ensures Charges(PodsOn(pods + [p], name)) == Charges(PodsOn(pods, name)) + (if p.nodeName == name then Charge(p) else 0)
  {
    ChargesFilterLast(pods, p, (p: Pod) => p.nodeName == name);
  }

  /** A node accounts for at least its due, and for exactly that unless it is a GPU
      node with charged pods that is listed more than once. */
  lemma NodeShare(nodes: seq<Node>, pods: seq<Pod>, name: string)
    requires name in Entries(nodes, pods)
    ensures var e := Entries(nodes, pods)[name];
            && DueAt(e, pods, name) <= UsedAt(e)
            && (DueAt(e, pods, name) == UsedAt(e) <==>
                  !HasGPUs(e) || Occurs(nodes, name) == 1 || Charges(PodsOn(pods, name)) == 0)
  {
    EntryNode(nodes, pods, name);
    EntryCharges(nodes, pods, name, Charges(PodsOn(pods, name)));
    Times(Occurs(nodes, name), Charges(PodsOn(pods, name)));
  }

  function EmptyOf(e: NodeEntry): map<int, Device> { EmptyDevices(TotalGPUMemory(e.node), GPUCount(e.node)) }

  /** What the listing shows of a node: its devices, charged if it has GPU memory. */
  function FinalOf(e: NodeEntry): map<int, Device> {
    if HasGPUs(e) then Devices(TotalGPUMemory(e.node), GPUCount(e.node), e.pods) else EmptyOf(e)
  }

  /** The devices of every listed node. */
  function Infos(nodes: seq<Node>, pods: seq<Pod>): map<string, map<int, Device>> {
    map n | n in Entries(nodes, pods) :: FinalOf(Entries(nodes, pods)[n])
  }

  /** A node's pods are charged to its devices exactly when it has GPU memory; otherwise
      it shows its devices unused. */
  lemma ChargedOnlyWithMemory(nodes: seq<Node>, pods: seq<Pod>, name: string, id: int)
    requires name in Entries(nodes, pods)
    ensures name in Infos(nodes, pods)
    ensures var e, shown := Entries(nodes, pods)[name], Infos(nodes, pods)[name];
            id in shown ==>
              if e.node.gpuMemory.Some? && e.node.gpuMemory.value > 0 then
                shown[id].pods == OnDevice(e.pods, id) && shown[id].used == Charges(OnDevice(e.pods, id))
              else
                shown[id].pods == [] && shown[id].used == 0 && 0 <= id < GPUCount(e.node)
  {
    var e := Entries(nodes, pods)[name];
    DeviceMeaning(TotalGPUMemory(e.node), GPUCount(e.node), e.pods, id);
  }

  /** What all devices of the cluster use. */
  ghost function ClusterUsage(infos: map<string, map<int, Device>>): nat {
    MapSum(map n | n in infos :: MapSum(UsedById(infos[n])))
  }

  /** The devices of a node use what its entry is charged. */
  lemma ShownUsage(e: NodeEntry)
    ensures MapSum(UsedById(FinalOf(e))) == UsedAt(e)
  {
    if HasGPUs(e) {
      NodeConservation(TotalGPUMemory(e.node), GPUCount(e.node), e.pods);
    } else {
      MapSumZero(UsedById(FinalOf(e)));
    }
  }

  lemma UsageByNode(nodes: seq<Node>, pods: seq<Pod>)
    ensures ClusterUsage(Infos(nodes, pods)) == MapSum(UsedByNode(Entries(nodes, pods)))
  {
    var entries, infos := Entries(nodes, pods), Infos(nodes, pods);
    forall n | n in infos ensures MapSum(UsedById(infos[n])) == UsedAt(entries[n]) {
      ShownUsage(entries[n]);
    }
    assert (map n | n in infos :: MapSum(UsedById(infos[n]))) == UsedByNode(entries);
  }

  /** Over the whole cluster the devices never use less than what the pods on listed
      GPU nodes are charged, and exactly that if and only if no GPU node with charged
      pods is listed more than once. */
  lemma ClusterConservation(nodes: seq<Node>, pods: seq<Pod>)
    ensures var entries := Entries(nodes, pods);
            var used, due := ClusterUsage(Infos(nodes, pods)), Charges(OnListed(pods, entries));
            && used >= due
            && (used == due <==>
                  forall n :: n in entries ==>
                    !HasGPUs(entries[n]) || Occurs(nodes, n) == 1 || Charges(PodsOn(pods, n)) == 0)
  {
    var entries := Entries(nodes, pods);
    DueAgainstUsed(nodes, pods);
    MapSumOrder(DueByNode(entries, pods), UsedByNode(entries));
    DueIsListed(entries, pods);
    UsageByNode(nodes, pods);
  }

  lemma DueAgainstUsed(nodes: seq<Node>, pods: seq<Pod>)
    ensures var entries := Entries(nodes, pods);
            var used, due := UsedByNode(entries), DueByNode(entries, pods);
            && used.Keys == due.Keys && (forall n :: n in due ==> due[n] <= used[n])
            && (due == used <==>
                  forall n :: n in entries ==>
                    !HasGPUs(entries[n]) || Occurs(nodes, n) == 1 || Charges(PodsOn(pods, n)) == 0)
  {
    var entries := Entries(nodes, pods);
    var used, due := UsedByNode(entries), DueByNode(entries, pods);
    forall n | n in entries
      ensures due[n] <= used[n]
      ensures due[n] == used[n] <==> !HasGPUs(entries[n]) || Occurs(nodes, n) == 1 || Charges(PodsOn(pods, n)) == 0
    {
      NodeShare(nodes, pods, n);
    }
    if forall n :: n in entries ==> !HasGPUs(entries[n]) || Occurs(nodes, n) == 1 || Charges(PodsOn(pods, n)) == 0 {
      assert forall n :: n in due ==> due[n] == used[n];
    }
  }

  /** With distinct node names GPU memory is conserved over the cluster. */
  lemma DistinctNodesConserve(nodes: seq<Node>, pods: seq<Pod>)
    requires forall i, j :: 0 <= i < j < |nodes| ==> nodes[i].name != nodes[j].name
    ensures ClusterUsage(Infos(nodes, pods)) == Charges(OnListed(pods, Entries(nodes, pods)))
  {
    ClusterConservation(nodes, pods);
    forall n | n in Entries(nodes, pods) ensures Occurs(nodes, n) == 1 {
      EntryNode(nodes, pods, n);
      OccursOnce(nodes, n);
    }
  }

  lemma {:induction false} OccursOnce(nodes: seq<Node>, name: string)
    requires forall i, j :: 0 <= i < j < |nodes| ==> nodes[i].name != nodes[j].name
    ensures Occurs(nodes, name) <= 1
  {
    if nodes != [] {
      OccursOnce(nodes[..|nodes| - 1], name);
      Occurrence(nodes[..|nodes| - 1], name);
    }
  }

  /** A GPU node listed twice, with one charged pod, is counted twice. */
  lemma ListedTwice(n: Node, p: Pod)
    requires TotalGPUMemory(n) > 0 && p.nodeName == n.name && GpuMemory(p) > 0
    ensures Charges(OnListed([p], Entries([n, n], [p]))) == GpuMemory(p)
    ensures ClusterUsage(Infos([n, n], [p])) == 2 * GpuMemory(p)
  {
    var entries := Entries([n, n], [p]);
    TwiceListed(n, p);
    assert [] + [p] == [p];
    ListedStep(entries, [], p);
    UsageByNode([n, n], [p]);
    MapSumAt(UsedByNode(entries), n.name);
    assert UsedByNode(entries) - {n.name} == map[];
  }

  lemma TwiceListed(n: Node, p: Pod)
    requires TotalGPUMemory(n) > 0 && p.nodeName == n.name && GpuMemory(p) > 0
    ensures var entries := Entries([n, n], [p]);
            && entries.Keys == {n.name} && HasGPUs(entries[n.name]) && Charges(entries[n.name].pods) == 2 * GpuMemory(p)
  {
    var nodes, entries := [n, n], Entries([n, n], [p]);
    forall m ensures m in entries <==> m == n.name {
      EntryNode(nodes, [p], m);
      OccursTwice(n, m);
    }
    EntryNode(nodes, [p], n.name);
    OccursTwice(n, n.name);
    assert [] + [p] == [p];
    PodsOnLast([], p, n.name);
    EntryCharges(nodes, [p], n.name, GpuMemory(p));
  }

  lemma OccursTwice(n: Node, name: string)
    ensures Occurs([n, n], name) == if n.name == name then 2 else 0
    ensures forall m :: IsFirst([n, n], m) ==> m == n
  {
    assert [n, n][..1] == [n] && [n][..0] == [];
    assert Occurs([n], name) == if n.name == name then 1 else 0;
  }

  lemma Times(k: nat, x: nat)
    requires k > 0
    ensures k * x >= x
    ensures k * x == x <==> k == 1 || x == 0
  {
    assert k * x == (k - 1) * x + x;
  }

  // ----- the accounting on objects

  class DeviceInfo {
    const idx: int
    var pods: seq<Pod>
    var usedGPUMem: nat
    const totalGPUMem: int

    constructor (idx: int, total: int)
      ensures View() == Device(idx, [], 0, total)
    {
      this.idx, this.totalGPUMem := idx, total;
      pods, usedGPUMem := [], 0;
    }

    function View(): Device
      reads this
    {
      Device(idx, pods, usedGPUMem, totalGPUMem)
    }
  }

  class GPUShareNodeInfo {
    const node: Node
    const gpuCount: int
    const gpuTotalMemory: int
    var pods: seq<Pod>
    var devs: map<int, DeviceInfo>

    /** The device objects are distinct and hold these devices. */
    ghost predicate Holds(devices: map<int, Device>)
      reads this, devs.Values
    {
      && (forall i, j :: i in devs && j in devs && i != j ==> devs[i] != devs[j])
      && devs.Keys == devices.Keys
      && forall id :: id in devs ==> devs[id].View() == devices[id]
    }

    constructor (node: Node)
      ensures this.node == node && pods == []
      ensures gpuCount == GPUCount(node) && gpuTotalMemory == TotalGPUMemory(node)
      ensures Holds(EmptyDevices(gpuTotalMemory, gpuCount))
      ensures forall k :: k in devs ==> fresh(devs[k])
    {
      this.node, this.gpuCount, this.gpuTotalMemory := node, GPUCount(node), TotalGPUMemory(node);
      pods, devs := [], map[];
      new;
      var i := 0;
      while i < gpuCount
        invariant 0 <= i && (gpuCount >= 0 ==> i <= gpuCount) && (gpuCount < 0 ==> i == 0) && pods == []
        invariant forall k :: k in devs <==> 0 <= k < i
        invariant forall k :: k in devs ==> devs[k].View() == Device(k, [], 0, DeviceTotal(gpuTotalMemory, gpuCount))
        invariant forall k, j :: k in devs && j in devs && k != j ==> devs[k] != devs[j]
        invariant forall k :: k in devs ==> fresh(devs[k])
      {
        var dev := new DeviceInfo(i, GoDiv(gpuTotalMemory, gpuCount));
        devs := devs[i := dev];
        i := i + 1;
      }
      assert forall k :: k in EmptyDevices(gpuTotalMemory, gpuCount) <==> k in devs;
    }

    method Show(ghost devices: map<int, Device>) returns (shown: map<int, Device>)
      requires Holds(devices)
      ensures shown == devices
    {
      shown := map id | id in devs :: devs[id].View();
      assert shown.Keys == devices.Keys;
      assert forall id :: id in shown ==> shown[id] == devices[id];
    }

    /** getDeivceInfo */
    method GetDeviceInfo(p: Pod) returns (id: int, memory: int)
      ensures id == DeviceId(p) && memory == GpuMemory(p)
    {
      id := -1;
      if |p.annotations| > 0 {
        if DEVICE_ANNOTATION in p.annotations {
          match Decimal.Atoi(p.annotations[DEVICE_ANNOTATION]) {
            case None => id := -1;
            case Some(value) => id := value;
          }
        }
      }
      memory := GpuMemoryInPod(p);
    }

    /** The body of the device loop for one pod. */
    method ChargeOne(pod: Pod, ghost devices: map<int, Device>)
      requires Holds(devices)
      modifies this`devs, devs.Values
      ensures Holds(ChargePod(devices, pod, DeviceTotal(gpuTotalMemory, gpuCount)))
      ensures forall d :: d in devs.Values ==> d in old(devs.Values) || fresh(d)
    {
      var positive := GpuMemoryInPod(pod);
      if positive <= 0 {
        return;
      }
      var devID, usedGPUMem := GetDeviceInfo(pod);
      if devID !in devs {
        var totalGPUMem := 0;
        if gpuCount > 0 {
          totalGPUMem := GoDiv(gpuTotalMemory, gpuCount);
        }
        var created := new DeviceInfo(devID, totalGPUMem);
        devs := devs[devID := created];
      }
      var dev := devs[devID];
      dev.usedGPUMem := dev.usedGPUMem + usedGPUMem;
      dev.pods := dev.pods + [pod];
    }

    method BuildDeviceInfo(ghost devices: map<int, Device>)
      requires Holds(devices)
      modifies this`devs, devs.Values
      ensures Holds(ChargePods(devices, pods, DeviceTotal(gpuTotalMemory, gpuCount)))
      ensures forall d :: d in devs.Values ==> d in old(devs.Values) || fresh(d)
    {
      ghost var total := DeviceTotal(gpuTotalMemory, gpuCount);
      for k := 0 to |pods|
        invariant Holds(ChargePods(devices, pods[..k], total))
        invariant forall d :: d in devs.Values ==> d in old(devs.Values) || fresh(d)
      {
        assert pods[..k + 1][..k] == pods[..k];
        ChargeOne(pods[k], ChargePods(devices, pods[..k], total));
      }
      assert pods[..|pods|] == pods;
    }
  }

  method AppendPodsOn(listed: seq<Pod>, pods: seq<Pod>, name: string) returns (more: seq<Pod>)
    ensures more == listed + PodsOn(pods, name)
  {
    more := listed;
    for k := 0 to |pods|
      invariant more == listed + PodsOn(pods[..k], name)
    {
      assert pods[..k + 1] == pods[..k] + [pods[k]];
      FilterLast(pods[..k], pods[k], (p: Pod) => p.nodeName == name);
      if pods[k].nodeName == name {
        more := more + [pods[k]];
      }
    }
    assert pods[..|pods|] == pods;
  }

  /** The node loop: each name keeps its first node and gathers its pods. */
  method GatherPods(pods: seq<Pod>, nodes: seq<Node>) returns (entries: map<string, NodeEntry>)
    ensures entries == Entries(nodes, pods)
  {
    entries := map[];
    for k := 0 to |nodes|
      invariant entries == Entries(nodes[..k], pods)
    {
      assert nodes[..k + 1][..k] == nodes[..k];
      var node := nodes[k];
      var e := NodeEntry(node, []);
      if node.name in entries {
        e := entries[node.name];
      }
      var listed := AppendPodsOn(e.pods, pods, node.name);
      entries := entries[node.name := NodeEntry(e.node, listed)];
    }
    assert nodes[..|nodes|] == nodes;
  }

  method BuildNode(e: NodeEntry) returns (devices: map<int, Device>)
    ensures devices == FinalOf(e)
  {
    var info := new GPUShareNodeInfo(e.node);
    info.pods := e.pods;
    if info.gpuTotalMemory > 0 {
      info.BuildDeviceInfo(EmptyOf(e));
    }
    assert info.Holds(FinalOf(e));
    devices := info.Show(FinalOf(e));
  }

  /** The devices of every node; the node map is walked in whatever order it gives. */
  method BuildAllGPUShareNodeInfos(pods: seq<Pod>, nodes: seq<Node>) returns (infos: map<string, map<int, Device>>)
    ensures infos == Infos(nodes, pods)
  {
    var entries := GatherPods(pods, nodes);
    infos := map[];
    var rest := entries.Keys;
    while rest != {}
      invariant rest <= entries.Keys && infos.Keys == entries.Keys - rest
      invariant forall n :: n in infos ==> infos[n] == FinalOf(entries[n])
    {
      var name :| name in rest;
      rest := rest - {name};
      var devices := BuildNode(entries[name]);
      infos := infos[name := devices];
    }
  }
}
