/** The two status loops over a pod's containers: the trainer's and the serving
    one. */
module PodStatus {
  import opened Common
  import opened Decimal

  datatype Terminated = Terminated(exitCode: int, signal: int, reason: string)

  /** `waiting` is the reason of a waiting state. */
  datatype Container = Container(
    restarts: int, ready: bool, waiting: Option<string>, running: bool, terminated: Option<Terminated>)

  datatype Condition = Condition(kind: string, status: string)

  datatype Pod = Pod(
    phase: string, reason: string, deleting: bool, conditions: seq<Condition>,
    initTotal: nat, inits: seq<Container>, total: nat, containers: seq<Container>)

  // ----- what the loops look for

  predicate InitSucceeded(c: Container) { c.terminated.Some? && c.terminated.value.exitCode == 0 }

  /** The first init container that has not succeeded. */
  function FirstBlocking(inits: seq<Container>): (i: nat)
    ensures i <= |inits| && (i < |inits| ==> !InitSucceeded(inits[i]))
    ensures forall j :: 0 <= j < i ==> InitSucceeded(inits[j])
  {
    if inits == [] || !InitSucceeded(inits[0]) then 0 else 1 + FirstBlocking(inits[1..])
  }

  function InitReason(c: Container, i: nat, total: nat): string {
    if c.terminated.Some? then
      var t := c.terminated.value;
      if t.reason != "" then "Init:" + t.reason
      else if t.signal != 0 then "Init:Signal:" + Itoa(t.signal)
      else "Init:ExitCode:" + Itoa(t.exitCode)
    else if c.waiting.Some? && c.waiting.value != "" && c.waiting.value != "PodInitializing" then
      "Init:" + c.waiting.value
    else "Init:" + Itoa(i) + "/" + Itoa(total)
  }

  /** The reason a container gives, if it gives one. */
  function Reason(c: Container): Option<string> {
    if c.waiting.Some? && c.waiting.value != "" then c.waiting
    else if c.terminated.Some? then
      var t := c.terminated.value;
      if t.reason != "" then Some(t.reason)
      else if t.signal != 0 then Some("Signal:" + Itoa(t.signal))
      else Some("ExitCode:" + Itoa(t.exitCode))
    else None
  }

  predicate IsRunning(c: Container) { Reason(c).None? && c.ready && c.running }

  /** The lowest-index container that gives a reason. */
  function FirstReason(cs: seq<Container>): (i: nat)
    ensures i <= |cs| && (i < |cs| ==> Reason(cs[i]).Some?)
    ensures forall j :: 0 <= j < i ==> Reason(cs[j]).None?
  {
    if cs == [] || Reason(cs[0]).Some? then 0 else 1 + FirstReason(cs[1..])
  }

  /** The reason of that container, or another one if there is none. */
  function ReasonFrom(cs: seq<Container>, otherwise: string): string {
    var i := FirstReason(cs);
    if i < |cs| then Reason(cs[i]).value else otherwise
  }

  function RunningCount(cs: seq<Container>): nat {
    if cs == [] then 0 else (if IsRunning(cs[0]) then 1 else 0) + RunningCount(cs[1..])
  }

  function Restarts(cs: seq<Container>): int {
    if cs == [] then 0 else cs[0].restarts + Restarts(cs[1..])
  }

  lemma {:induction false} SomeRunning(cs: seq<Container>)
    ensures RunningCount(cs) > 0 <==> exists c :: c in cs && IsRunning(c)
  {
    if cs != [] {
      SomeRunning(cs[1..]);
      assert forall c :: c in cs <==> c == cs[0] || c in cs[1..];
    }
  }

  predicate Initializing(p: Pod) { FirstBlocking(p.inits) < |p.inits| }

  function PodReason(p: Pod): string { if p.reason != "" then p.reason else p.phase }

  /** The reason before the correction for running containers and deletion. */
  function RawReason(p: Pod): string {
    var b := FirstBlocking(p.inits);
    if b < |p.inits| then InitReason(p.inits[b], b, p.initTotal) else ReasonFrom(p.containers, PodReason(p))
  }

  predicate HasReadyCondition(p: Pod) { Condition("Ready", "True") in p.conditions }

  /** Everything has completed and yet some container is running. */
  ghost predicate CompletedButRunning(p: Pod) {
    !Initializing(p) && RawReason(p) == "Completed" && exists c :: c in p.containers && IsRunning(c)
  }

  /** Shown while the pod is being deleted. */
  function Deletion(p: Pod): string { if p.reason == "NodeLost" then "Unknown" else "Terminating" }

  ghost function TrainerStatus(p: Pod): string {
    if p.deleting then Deletion(p)
    else if CompletedButRunning(p) then (if HasReadyCondition(p) then "Running" else "NotReady")
    else RawReason(p)
  }

  ghost function ServingStatus(p: Pod): string {
    if p.deleting then Deletion(p)
    else if CompletedButRunning(p) then "Running"
    else RawReason(p)
  }

  // ----- the loops

  method HasPodReadyCondition(conditions: seq<Condition>) returns (ready: bool)
    ensures ready <==> Condition("Ready", "True") in conditions
  {
    for k := 0 to |conditions|
      invariant Condition("Ready", "True") !in conditions[..k]
    {
      if conditions[k].kind == "Ready" && conditions[k].status == "True" {
        return true;
      }
    }
    return false;
  }

  lemma {:induction false} RestartsLast(cs: seq<Container>, i: nat)
    requires i < |cs|
    ensures Restarts(cs[..i + 1]) == Restarts(cs[..i]) + cs[i].restarts
  {
    if i > 0 {
      RestartsLast(cs[1..], i - 1);
      assert cs[..i + 1][1..] == cs[1..][..i] && cs[..i][1..] == cs[1..][..i - 1];
    }
  }

  // the trainer's copy

  method InitReasonOf(p: Pod) returns (initializing: bool, reason: string)
    ensures initializing <==> Initializing(p)
    ensures reason == if initializing then RawReason(p) else PodReason(p)
  {
    reason := p.phase;
    if p.reason != "" {
      reason := p.reason;
    }
    initializing := false;
    for i := 0 to |p.inits|
      invariant !initializing && reason == PodReason(p)
      invariant forall j :: 0 <= j < i ==> InitSucceeded(p.inits[j])
    {
      var c := p.inits[i];
      if c.terminated.Some? && c.terminated.value.exitCode == 0 {
        continue;
      } else if c.terminated.Some? {
        if |c.terminated.value.reason| == 0 {
          if c.terminated.value.signal != 0 {
            reason := "Init:Signal:" + Itoa(c.terminated.value.signal);
          } else {
            reason := "Init:ExitCode:" + Itoa(c.terminated.value.exitCode);
          }
        } else {
          reason := "Init:" + c.terminated.value.reason;
        }
        initializing := true;
      } else if c.waiting.Some? && |c.waiting.value| > 0 && c.waiting.value != "PodInitializing" {
        reason := "Init:" + c.waiting.value;
        initializing := true;
      } else {
        reason := "Init:" + Itoa(i) + "/" + Itoa(p.initTotal);
        initializing := true;
      }
      assert i == FirstBlocking(p.inits);
      break;
    }
  }

  method ContainerReasonOf(p: Pod, initial: string) returns (reason: string, hasRunning: bool)
    ensures reason == ReasonFrom(p.containers, initial)
    ensures hasRunning <==> RunningCount(p.containers) > 0
  {
    reason := initial;
    hasRunning := false;
    var i := |p.containers|;
    while i > 0
      invariant 0 <= i <= |p.containers|
      invariant reason == ReasonFrom(p.containers[i..], initial)
      invariant hasRunning <==> RunningCount(p.containers[i..]) > 0
    {
      i := i - 1;
      var c := p.containers[i];
      assert p.containers[i..][1..] == p.containers[i + 1..];
      if c.waiting.Some? && c.waiting.value != "" {
        reason := c.waiting.value;
      } else if c.terminated.Some? && c.terminated.value.reason != "" {
        reason := c.terminated.value.reason;
      } else if c.terminated.Some? && c.terminated.value.reason == "" {
        if c.terminated.value.signal != 0 {
          reason := "Signal:" + Itoa(c.terminated.value.signal);
        } else {
          reason := "ExitCode:" + Itoa(c.terminated.value.exitCode);
        }
      } else if c.ready && c.running {
        hasRunning := true;
      }
    }
  }

  method GetStatusColumnFromPodStatus(p: Pod) returns (reason: string)
    ensures reason == TrainerStatus(p)
  {
    var initializing;
    initializing, reason := InitReasonOf(p);
    SomeRunning(p.containers);
    if !initializing {
      var hasRunning;
      reason, hasRunning := ContainerReasonOf(p, reason);
      if reason == "Completed" && hasRunning {
        var readyCondition := HasPodReadyCondition(p.conditions);
        if readyCondition {
          reason := "Running";
        } else {
          reason := "NotReady";
        }
      }
    }
    if p.deleting && p.reason == "NodeLost" {
      reason := "Unknown";
    } else if p.deleting {
      reason := "Terminating";
    }
  }

  // the serving copy, which also counts

  method InitStatus(p: Pod) returns (initializing: bool, reason: string, restarts: int)
    ensures initializing <==> Initializing(p)
    ensures reason == if initializing then RawReason(p) else PodReason(p)
    ensures initializing ==> restarts == Restarts(p.inits[..FirstBlocking(p.inits) + 1])
  {
    reason := p.phase;
    if p.reason != "" {
      reason := p.reason;
    }
    initializing, restarts := false, 0;
    for i := 0 to |p.inits|
      invariant !initializing && reason == PodReason(p) && restarts == Restarts(p.inits[..i])
      invariant forall j :: 0 <= j < i ==> InitSucceeded(p.inits[j])
    {
      var c := p.inits[i];
      RestartsLast(p.inits, i);
      restarts := restarts + c.restarts;
      if c.terminated.Some? && c.terminated.value.exitCode == 0 {
        continue;
      } else if c.terminated.Some? {
        if |c.terminated.value.reason| == 0 {
          if c.terminated.value.signal != 0 {
            reason := "Init:Signal:" + Itoa(c.terminated.value.signal);
          } else {
            reason := "Init:ExitCode:" + Itoa(c.terminated.value.exitCode);
          }
        } else {
          reason := "Init:" + c.terminated.value.reason;
        }
        initializing := true;
      } else if c.waiting.Some? && |c.waiting.value| > 0 && c.waiting.value != "PodInitializing" {
        reason := "Init:" + c.waiting.value;
        initializing := true;
      } else {
        reason := "Init:" + Itoa(i) + "/" + Itoa(p.initTotal);
        initializing := true;
      }
      assert i == FirstBlocking(p.inits);
      break;
    }
  }

  method ContainerStatus(p: Pod, initial: string) returns (reason: string, restarts: int, ready: nat, hasRunning: bool)
    ensures reason == ReasonFrom(p.containers, initial)
    ensures restarts == Restarts(p.containers) && ready == RunningCount(p.containers)
    ensures hasRunning <==> ready > 0
  {
    reason := initial;
    restarts, ready, hasRunning := 0, 0, false;
    var i := |p.containers|;
    while i > 0
      invariant 0 <= i <= |p.containers|
      invariant reason == ReasonFrom(p.containers[i..], initial)
      invariant restarts == Restarts(p.containers[i..]) && ready == RunningCount(p.containers[i..])
      invariant hasRunning <==> ready > 0
    {
      i := i - 1;
      var c := p.containers[i];
      assert p.containers[i..][1..] == p.containers[i + 1..];
      restarts := restarts + c.restarts;
      if c.waiting.Some? && c.waiting.value != "" {
        reason := c.waiting.value;
      } else if c.terminated.Some? && c.terminated.value.reason != "" {
        reason := c.terminated.value.reason;
      } else if c.terminated.Some? && c.terminated.value.reason == "" {
        if c.terminated.value.signal != 0 {
          reason := "Signal:" + Itoa(c.terminated.value.signal);
        } else {
          reason := "ExitCode:" + Itoa(c.terminated.value.exitCode);
        }
      } else if c.ready && c.running {
        hasRunning := true;
        ready := ready + 1;
      }
    }
  }

  method DefinePodPhaseStatus(p: Pod) returns (reason: string, total: nat, restarts: int, ready: nat)
    ensures reason == ServingStatus(p) && total == p.total
    ensures restarts == if Initializing(p) then Restarts(p.inits[..FirstBlocking(p.inits) + 1]) else Restarts(p.containers)
    ensures ready == if Initializing(p) then 0 else RunningCount(p.containers)
  {
    total, ready := p.total, 0;
    var initializing;
    initializing, reason, restarts := InitStatus(p);
    SomeRunning(p.containers);
    if !initializing {
      var hasRunning;
      reason, restarts, ready, hasRunning := ContainerStatus(p, reason);
      if reason == "Completed" && hasRunning {
        reason := "Running";
      }
    }
    if p.deleting && p.reason == "NodeLost" {
      reason := "Unknown";
    } else if p.deleting {
      reason := "Terminating";
    }
  }

  // ----- how they compare

  /** The two sources show different reasons exactly for an undeleted pod that has
      completed except for a running container and lacks the Ready condition; then
      the trainer shows NotReady and the serving one Running. */
  lemma StatusesDifferExactlyWhen(p: Pod)
    ensures TrainerStatus(p) != ServingStatus(p) <==> !p.deleting && CompletedButRunning(p) && !HasReadyCondition(p)
    ensures TrainerStatus(p) != ServingStatus(p) ==> TrainerStatus(p) == "NotReady" && ServingStatus(p) == "Running"
  {
    assert "NotReady"[0] != "Running"[0];
  }

  /** Once initialised, a pod that is not being deleted shows the reason of its
      lowest-index container that has one; only when that reason is Completed and some
      container is running it is replaced. */
  lemma LowestContainerWins(p: Pod, i: nat)
    requires !Initializing(p) && i < |p.containers| && Reason(p.containers[i]).Some?
    requires forall j :: 0 <= j < i ==> Reason(p.containers[j]).None?
    ensures var reason := Reason(p.containers[i]).value;
            && RawReason(p) == reason
            && (!p.deleting ==>
                  if reason == "Completed" && exists c :: c in p.containers && IsRunning(c) then
                    ServingStatus(p) == "Running" && TrainerStatus(p) == (if HasReadyCondition(p) then "Running" else "NotReady")
                  else
                    TrainerStatus(p) == ServingStatus(p) == reason)
  {
    assert FirstReason(p.containers) == i;
  }

  /** Without any such container it is the pod's own reason, or its phase. */
  lemma NoContainerReason(p: Pod)
    requires !Initializing(p) && forall c :: c in p.containers ==> Reason(c).None?
    ensures RawReason(p) == if p.reason != "" then p.reason else p.phase
  {
    assert FirstReason(p.containers) == |p.containers|;
  }

  // ----- the texts

  /** The container waits for a reason that it gives. */
  ghost predicate WaitsFor(c: Container) { c.waiting.Some? && c.waiting.value != "" }

  /** A pod being deleted shows nothing else. */
  lemma DeletingShows(p: Pod)
    requires p.deleting
    ensures TrainerStatus(p) == ServingStatus(p) == (if p.reason == "NodeLost" then "Unknown" else "Terminating")
  {
  }

  /** Otherwise the first init container that has not ended with exit code 0 decides
      what is shown. */
  lemma InitialisingShows(p: Pod, i: nat)
    requires !p.deleting && i < |p.inits|
    requires forall j :: 0 <= j < i ==> p.inits[j].terminated.Some? && p.inits[j].terminated.value.exitCode == 0
    requires p.inits[i].terminated.Some? ==> p.inits[i].terminated.value.exitCode != 0
    ensures var c, shown := p.inits[i], TrainerStatus(p);
            && shown == ServingStatus(p)
            && (c.terminated.Some? && c.terminated.value.reason != "" ==> shown == "Init:" + c.terminated.value.reason)
            && (c.terminated.Some? && c.terminated.value.reason == "" && c.terminated.value.signal != 0 ==>
                  shown == "Init:Signal:" + Itoa(c.terminated.value.signal))
            && (c.terminated.Some? && c.terminated.value.reason == "" && c.terminated.value.signal == 0 ==>
                  shown == "Init:ExitCode:" + Itoa(c.terminated.value.exitCode))
            && (c.terminated.None? && WaitsFor(c) && c.waiting.value != "PodInitializing" ==>
                  shown == "Init:" + c.waiting.value)
            && (c.terminated.None? && (WaitsFor(c) ==> c.waiting.value == "PodInitializing") ==>
                  shown == "Init:" + Itoa(i) + "/" + Itoa(p.initTotal))
  {
    assert FirstBlocking(p.inits) == i;
  }

  /** The first container that waits for a reason, or has terminated, decides what an
      initialised pod shows, unless everything has completed. */
  lemma ContainerShows(p: Pod, i: nat)
    requires !p.deleting && i < |p.containers|
    requires forall c :: c in p.inits ==> c.terminated.Some? && c.terminated.value.exitCode == 0
    requires forall j :: 0 <= j < i ==> p.containers[j].terminated.None? && !WaitsFor(p.containers[j])
    requires p.containers[i].terminated.Some? || WaitsFor(p.containers[i])
    ensures var c, shown := p.containers[i], RawReason(p);
            && (shown != "Completed" ==> TrainerStatus(p) == ServingStatus(p) == shown)
            && (WaitsFor(c) ==> shown == c.waiting.value)
            && (!WaitsFor(c) && c.terminated.value.reason != "" ==> shown == c.terminated.value.reason)
            && (!WaitsFor(c) && c.terminated.value.reason == "" && c.terminated.value.signal != 0 ==>
                  shown == "Signal:" + Itoa(c.terminated.value.signal))
            && (!WaitsFor(c) && c.terminated.value.reason == "" && c.terminated.value.signal == 0 ==>
                  shown == "ExitCode:" + Itoa(c.terminated.value.exitCode))
  {
    NotInitialising(p);
    assert FirstReason(p.containers) == i;
  }

  lemma NotInitialising(p: Pod)
    requires forall c :: c in p.inits ==> c.terminated.Some? && c.terminated.value.exitCode == 0
    ensures !Initializing(p)
  {
    assert forall j :: 0 <= j < |p.inits| ==> p.inits[j] in p.inits;
  }

  /** The ready containers are those that run, are ready, and neither wait for a reason
      nor have terminated; each counts once. */
  lemma {:induction false} ReadyAddUp(a: seq<Container>, b: seq<Container>)
    ensures RunningCount(a + b) == RunningCount(a) + RunningCount(b)
    ensures a == [] ==> RunningCount(a) == 0
    ensures |a| == 1 ==>
              var c := a[0];
              RunningCount(a) == if c.ready && c.running && c.terminated.None? && !WaitsFor(c) then 1 else 0
  {
    if a == [] {
      assert a + b == b;
    } else {
      assert (a + b)[1..] == a[1..] + b;
      ReadyAddUp(a[1..], b);
    }
  }

  /** Every container's restarts count once. */
  lemma {:induction false} RestartsAddUp(a: seq<Container>, b: seq<Container>)
    ensures Restarts(a + b) == Restarts(a) + Restarts(b)
    ensures |a| == 1 ==> Restarts(a) == a[0].restarts
    ensures a == [] ==> Restarts(a) == 0
  {
    if a == [] {
      assert a + b == b;
    } else {
      assert (a + b)[1..] == a[1..] + b;
      RestartsAddUp(a[1..], b);
    }
  }
}
