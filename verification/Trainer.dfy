/** Listing training jobs: pods are grouped under their top owner, then merged with
    the job resources that still exist. */
module Trainer {
  import opened Common

  const SCHEDULER := "runai-scheduler"

  type Uid = string

  datatype OwnerRef = OwnerRef(kind: string, name: string, uid: Uid, isController: bool)

  datatype Pod = Pod(
    name: string, namespace: string, uid: Uid, labels: map<string, string>,
    schedulerName: string, owners: seq<OwnerRef>, created: int)

  datatype ReplicaSet = ReplicaSet(uid: Uid, owners: seq<OwnerRef>)

  /** A Job, StatefulSet, Deployment, RunaiJob or ownerless Pod seen as a job. */
  datatype Resource = Resource(
    name: string, namespace: string, uid: Uid, labels: map<string, string>,
    schedulerName: string, resourceType: string, created: int)

  predicate FromCLI(labels: map<string, string>) { "app" in labels && labels["app"] == "runaijob" }

  predicate IsMPI(labels: map<string, string>) { "mpi_job_name" in labels }

  predicate EligiblePod(p: Pod) { !IsMPI(p.labels) && p.schedulerName == SCHEDULER }

  predicate EligibleResource(r: Resource) { r.schedulerName == SCHEDULER && !IsMPI(r.labels) }

  // ----- the top owner of a pod

  /** The owner the source reads off a replica set; it fails when there is none, which
      the methods below exclude. */
  function FirstOwner(r: ReplicaSet): OwnerRef {
    if r.owners == [] then OwnerRef("", "", "", false) else r.owners[0]
  }

  predicate OwnedByKnownSet(o: OwnerRef, sets: map<Uid, ReplicaSet>) {
    o.isController && o.kind == "ReplicaSet" && o.uid in sets
  }

  /** The pod itself when it has no owner; the first owner of the first known replica
      set that controls it; otherwise its last owner. */
  ghost predicate IsTopOwner(p: Pod, sets: map<Uid, ReplicaSet>, name: string, uid: Uid)
  {
    if p.owners == [] then
      name == p.name && uid == p.uid
    else if exists i :: 0 <= i < |p.owners| && OwnedByKnownSet(p.owners[i], sets) then
      exists i :: 0 <= i < |p.owners| && OwnedByKnownSet(p.owners[i], sets)
        && (forall j :: 0 <= j < i ==> !OwnedByKnownSet(p.owners[j], sets))
        && name == FirstOwner(sets[p.owners[i].uid]).name && uid == FirstOwner(sets[p.owners[i].uid]).uid
    else
      name == p.owners[|p.owners| - 1].name && uid == p.owners[|p.owners| - 1].uid
  }

  function WalkOwners(owners: seq<OwnerRef>, sets: map<Uid, ReplicaSet>): (top: (string, Uid))
    requires owners != []
  {
    if OwnedByKnownSet(owners[0], sets) then
      (FirstOwner(sets[owners[0].uid]).name, FirstOwner(sets[owners[0].uid]).uid)
    else if |owners| == 1 then (owners[0].name, owners[0].uid)
    else WalkOwners(owners[1..], sets)
  }

  function TopOwner(p: Pod, sets: map<Uid, ReplicaSet>): (string, Uid) {
    if p.owners == [] then (p.name, p.uid) else WalkOwners(p.owners, sets)
  }

  /** The first owner that is a known controlling replica set. */
  function FirstKnown(owners: seq<OwnerRef>, sets: map<Uid, ReplicaSet>): (i: nat)
    ensures i <= |owners| && (i < |owners| ==> OwnedByKnownSet(owners[i], sets))
    ensures forall j :: 0 <= j < i ==> !OwnedByKnownSet(owners[j], sets)
  {
    if owners == [] || OwnedByKnownSet(owners[0], sets) then 0 else 1 + FirstKnown(owners[1..], sets)
  }

  lemma {:induction false} WalkStops(owners: seq<OwnerRef>, sets: map<Uid, ReplicaSet>)
    requires owners != []
    ensures var i := FirstKnown(owners, sets);
            WalkOwners(owners, sets) ==
              if i < |owners| then (FirstOwner(sets[owners[i].uid]).name, FirstOwner(sets[owners[i].uid]).uid)
              else (owners[|owners| - 1].name, owners[|owners| - 1].uid)
  {
    if |owners| > 1 && !OwnedByKnownSet(owners[0], sets) {
      WalkStops(owners[1..], sets);
    }
  }

  lemma TopOwnerIsTop(p: Pod, sets: map<Uid, ReplicaSet>)
    ensures IsTopOwner(p, sets, TopOwner(p, sets).0, TopOwner(p, sets).1)
  {
    if p.owners != [] {
      WalkStops(p.owners, sets);
    }
  }

  /** The first known replica set that controls the pod, if any, has an owner. */
  ghost predicate Walkable(p: Pod, sets: map<Uid, ReplicaSet>) {
    forall i :: 0 <= i < |p.owners| && OwnedByKnownSet(p.owners[i], sets)
      && (forall j :: 0 <= j < i ==> !OwnedByKnownSet(p.owners[j], sets))
      ==> sets[p.owners[i].uid].owners != []
  }

  method GetPodTopOwner(p: Pod, sets: map<Uid, ReplicaSet>) returns (controller: string, uid: Uid)
    requires Walkable(p, sets)
    ensures (controller, uid) == TopOwner(p, sets)
  {
    controller, uid := "", "";
    if |p.owners| == 0 {
      return p.name, p.uid;
    }
    for k := 0 to |p.owners|
      invariant forall j :: 0 <= j < k ==> !OwnedByKnownSet(p.owners[j], sets)
      invariant k < |p.owners| ==> TopOwner(p, sets) == WalkOwners(p.owners[k..], sets)
      invariant k == |p.owners| ==> (controller, uid) == TopOwner(p, sets)
    {
      var owner := p.owners[k];
      assert p.owners[k..][0] == owner && p.owners[k..][1..] == p.owners[k + 1..];
      if owner.isController {
        if owner.kind == "ReplicaSet" {
          if owner.uid in sets {
            controller := sets[owner.uid].owners[0].name;
            uid := sets[owner.uid].owners[0].uid;
            return;
          }
        }
      }
      controller := owner.name;
      uid := owner.uid;
    }
  }

  // ----- grouping

  function TopUid(p: Pod, sets: map<Uid, ReplicaSet>): Uid {
    TopOwner(p, sets).1
  }

  /** The pod has an entry under this UID, though it is not necessarily listed in it. */
  predicate Under(p: Pod, sets: map<Uid, ReplicaSet>, uid: Uid) {
    EligiblePod(p) && TopUid(p, sets) == uid
  }

  predicate ListedUnder(p: Pod, sets: map<Uid, ReplicaSet>, uid: Uid) {
    Under(p, sets, uid) && TopOwner(p, sets).0 != ""
  }

  function Uids(pods: seq<Pod>, sets: map<Uid, ReplicaSet>): set<Uid> {
    set p | p in pods && EligiblePod(p) :: TopUid(p, sets)
  }

  function PodsUnder(pods: seq<Pod>, sets: map<Uid, ReplicaSet>, uid: Uid): seq<Pod> {
    Filter(pods, (p: Pod) => ListedUnder(p, sets, uid))
  }

  lemma PodsUnderLast(pods: seq<Pod>, p: Pod, sets: map<Uid, ReplicaSet>, uid: Uid)
    ensures PodsUnder(pods + [p], sets, uid) == PodsUnder(pods, sets, uid) + (if ListedUnder(p, sets, uid) then [p] else [])
  {
    FilterLast(pods, p, (p: Pod) => ListedUnder(p, sets, uid));
  }

  /** The pod that made the entry. */
  function FirstUnder(pods: seq<Pod>, sets: map<Uid, ReplicaSet>, uid: Uid): (first: Pod)
    requires uid in Uids(pods, sets)
    ensures first in pods && Under(first, sets, uid)
  {
    if Under(pods[0], sets, uid) then pods[0]
    else
      assert pods == [pods[0]] + pods[1..];
      FirstUnder(pods[1..], sets, uid)
  }

  lemma {:induction false} FirstUnderGrows(pods: seq<Pod>, p: Pod, sets: map<Uid, ReplicaSet>, uid: Uid)
    requires uid in Uids(pods + [p], sets)
    ensures FirstUnder(pods + [p], sets, uid) == if uid in Uids(pods, sets) then FirstUnder(pods, sets, uid) else p
  {
    if pods == [] {
      assert pods + [p] == [p];
    } else if !Under(pods[0], sets, uid) {
      assert (pods + [p])[1..] == pods[1..] + [p];
      assert pods == [pods[0]] + pods[1..];
      FirstUnderGrows(pods[1..], p, sets, uid);
    }
  }

  lemma UidsGrow(pods: seq<Pod>, p: Pod, sets: map<Uid, ReplicaSet>)
    ensures Uids(pods + [p], sets) == Uids(pods, sets) + (if EligiblePod(p) then {TopUid(p, sets)} else {})
  {
  }

  /** Grouping is a partition: an eligible pod with a named top owner is listed, as
      often as it occurs, under its top owner's UID and nowhere else, and no other
      pod is listed anywhere. */
  lemma GroupingIsPartition(pods: seq<Pod>, sets: map<Uid, ReplicaSet>, uid: Uid, p: Pod)
    ensures multiset(PodsUnder(pods, sets, uid))[p] == if ListedUnder(p, sets, uid) then multiset(pods)[p] else 0
  {
    FilterCounts(pods, (p: Pod) => ListedUnder(p, sets, uid), p);
  }

  /** What an entry holds. */
  datatype Entry = Entry(
    name: string, namespace: string, pods: seq<Pod>, createdByCLI: bool, deleted: bool,
    owner: Option<Resource>)

  class RunaiJobInfo {
    var name: string
    var namespace: string
    var pods: seq<Pod>
    var createdByCLI: bool
    var deleted: bool
    var owner: Option<Resource>

    function View(): Entry
      reads this
    {
      Entry(name, namespace, pods, createdByCLI, deleted, owner)
    }

    constructor (name: string, namespace: string, createdByCLI: bool, deleted: bool)
      ensures View() == Entry(name, namespace, [], createdByCLI, deleted, None)
    {
      this.name, this.namespace, this.createdByCLI, this.deleted := name, namespace, createdByCLI, deleted;
      pods, owner := [], None;
    }
  }

  function PodEntry(pods: seq<Pod>, sets: map<Uid, ReplicaSet>, uid: Uid): Entry
    requires uid in Uids(pods, sets)
  {
    var first := FirstUnder(pods, sets, uid);
    Entry(TopOwner(first, sets).0, first.namespace, PodsUnder(pods, sets, uid), FromCLI(first.labels), true, None)
  }

  /** Different UIDs have different objects. */
  ghost predicate Separate(jobs: map<Uid, RunaiJobInfo>) {
    forall u, v :: u in jobs && v in jobs && u != v ==> jobs[u] != jobs[v]
  }

  function EntryWith(e: Entry, more: seq<Pod>): Entry { e.(pods := e.pods + more) }

  function FreshEntry(controller: string, p: Pod): Entry {
    Entry(controller, p.namespace, [], FromCLI(p.labels), true, None)
  }

  lemma PodEntryContinues(pods: seq<Pod>, p: Pod, sets: map<Uid, ReplicaSet>, uid: Uid)
    requires uid in Uids(pods, sets) && uid in Uids(pods + [p], sets)
    ensures PodEntry(pods + [p], sets, uid) ==
              EntryWith(PodEntry(pods, sets, uid), if ListedUnder(p, sets, uid) then [p] else [])
  {
    FirstUnderGrows(pods, p, sets, uid);
    PodsUnderLast(pods, p, sets, uid);
  }

  lemma PodEntryBegins(pods: seq<Pod>, p: Pod, sets: map<Uid, ReplicaSet>, uid: Uid)
    requires uid !in Uids(pods, sets) && uid in Uids(pods + [p], sets)
    ensures PodEntry(pods + [p], sets, uid) ==
              EntryWith(FreshEntry(TopOwner(p, sets).0, p), if ListedUnder(p, sets, uid) then [p] else [])
  {
    FirstUnderGrows(pods, p, sets, uid);
    PodsUnderLast(pods, p, sets, uid);
    NobodyUnder(pods, sets, uid);
  }

  lemma NobodyUnder(pods: seq<Pod>, sets: map<Uid, ReplicaSet>, uid: Uid)
    requires uid !in Uids(pods, sets)
    ensures PodsUnder(pods, sets, uid) == []
  {
    FilterNone(pods, (p: Pod) => ListedUnder(p, sets, uid));
  }

  // ----- the two stages on values

  /** One more pod of the listing. */
  function WithPod(entries: map<Uid, Entry>, p: Pod, sets: map<Uid, ReplicaSet>): map<Uid, Entry> {
    if !EligiblePod(p) then entries
    else
      var (controller, uid) := TopOwner(p, sets);
      WithPodUnder(entries, p, controller, uid)
  }

  function WithPodUnder(entries: map<Uid, Entry>, p: Pod, controller: string, uid: Uid): map<Uid, Entry> {
    var e := if uid in entries then entries[uid] else FreshEntry(controller, p);
    entries[uid := EntryWith(e, if controller != "" then [p] else [])]
  }

  function PodEntries(pods: seq<Pod>, sets: map<Uid, ReplicaSet>): map<Uid, Entry> {
    if pods == [] then map[] else WithPod(PodEntries(pods[..|pods| - 1], sets), pods[|pods| - 1], sets)
  }

  /** The grouping loop computes, under each top owner UID, the first pod's data and
      the listed pods in their order. */
  lemma {:induction false} PodEntriesMeaning(pods: seq<Pod>, sets: map<Uid, ReplicaSet>)
    ensures PodEntries(pods, sets).Keys == Uids(pods, sets)
    ensures forall u :: u in Uids(pods, sets) ==> PodEntries(pods, sets)[u] == PodEntry(pods, sets, u)
  {
    if pods != [] {
      var front, p := pods[..|pods| - 1], pods[|pods| - 1];
      assert pods == front + [p];
      PodEntriesMeaning(front, sets);
      UidsGrow(front, p, sets);
      forall u | u in Uids(pods, sets)
        ensures u in PodEntries(pods, sets) && PodEntries(pods, sets)[u] == PodEntry(pods, sets, u)
      {
        WithPodMeaning(PodEntries(front, sets), front, p, sets, u);
      }
    }
  }

  lemma WithPodMeaning(entries: map<Uid, Entry>, pods: seq<Pod>, p: Pod, sets: map<Uid, ReplicaSet>, uid: Uid)
    requires entries.Keys == Uids(pods, sets) && uid in Uids(pods + [p], sets)
    requires uid in entries ==> entries[uid] == PodEntry(pods, sets, uid)
    ensures uid in WithPod(entries, p, sets)
    ensures WithPod(entries, p, sets)[uid] == PodEntry(pods + [p], sets, uid)
  {
    UidsGrow(pods, p, sets);
    if uid in Uids(pods, sets) {
      PodEntryContinues(pods, p, sets, uid);
    } else {
      PodEntryBegins(pods, p, sets, uid);
    }
  }

  /** One more resource of the merge stage. */
  function WithResource(entries: map<Uid, Entry>, r: Resource): map<Uid, Entry> {
    if !EligibleResource(r) then entries
    else
      entries[r.uid := OwnedBy(if r.uid in entries then entries[r.uid] else NewEntry(r), r)]
  }

  /** The entry of a resource that has no pods. */
  function NewEntry(r: Resource): Entry { Entry(r.name, r.namespace, [], false, false, None) }

  function OwnedBy(e: Entry, r: Resource): Entry {
    e.(deleted := false, owner := Some(r), createdByCLI := e.createdByCLI || FromCLI(r.labels))
  }

  function Merged(entries: map<Uid, Entry>, resources: seq<Resource>): map<Uid, Entry> {
    if resources == [] then entries
    else WithResource(Merged(entries, resources[..|resources| - 1]), resources[|resources| - 1])
  }

  predicate StandsFor(r: Resource, uid: Uid) { EligibleResource(r) && r.uid == uid }

  ghost predicate Exists(resources: seq<Resource>, uid: Uid) {
    exists r :: r in resources && StandsFor(r, uid)
  }

  ghost predicate FromCLIResource(resources: seq<Resource>, uid: Uid) {
    exists r :: r in resources && StandsFor(r, uid) && FromCLI(r.labels)
  }

  ghost predicate IsFirst(resources: seq<Resource>, r: Resource, uid: Uid) {
    exists i :: 0 <= i < |resources| && resources[i] == r && StandsFor(r, uid)
      && forall j :: 0 <= j < i ==> !StandsFor(resources[j], uid)
  }

  ghost predicate IsLast(resources: seq<Resource>, r: Resource, uid: Uid) {
    exists i :: 0 <= i < |resources| && resources[i] == r && StandsFor(r, uid)
      && forall j :: i < j < |resources| ==> !StandsFor(resources[j], uid)
  }

  /** What merging makes of the entry under a UID: its pods stay; it is marked deleted
      only if it was and no eligible resource stands for it; its owner is the last
      such resource; and an entry that had no pods is named after the first one. */
  ghost predicate MergedEntry(e: Entry, before: Option<Entry>, resources: seq<Resource>, uid: Uid) {
    && e.pods == (if before.Some? then before.value.pods else [])
    && (match before
        case Some(b) => e.name == b.name && e.namespace == b.namespace
        case None => exists r :: IsFirst(resources, r, uid) && e.name == r.name && e.namespace == r.namespace)
    && (e.deleted <==> before.Some? && before.value.deleted && !Exists(resources, uid))
    && (e.createdByCLI <==> (before.Some? && before.value.createdByCLI) || FromCLIResource(resources, uid))
    && (if Exists(resources, uid) then e.owner.Some? && IsLast(resources, e.owner.value, uid) else before == Some(e))
  }

  lemma {:induction false} MergedMeaning(entries: map<Uid, Entry>, resources: seq<Resource>, uid: Uid)
    ensures uid in Merged(entries, resources) <==> uid in entries || Exists(resources, uid)
    ensures uid in Merged(entries, resources) ==>
              MergedEntry(Merged(entries, resources)[uid], if uid in entries then Some(entries[uid]) else None, resources, uid)
  {
    if resources == [] {
      assert !Exists(resources, uid) && !FromCLIResource(resources, uid);
    } else {
      var front, last := resources[..|resources| - 1], resources[|resources| - 1];
      MergedMeaning(entries, front, uid);
      assert resources == front + [last];
      var merged := Merged(entries, front);
      MergedStep(if uid in merged then Some(merged[uid]) else None, if uid in entries then Some(entries[uid]) else None,
                 front, last, uid);
    }
  }

  /** One more resource, for the entry under one UID; `e` is that entry so far. */
  lemma MergedStep(e: Option<Entry>, before: Option<Entry>, front: seq<Resource>, last: Resource, uid: Uid)
    requires e.Some? ==> MergedEntry(e.value, before, front, uid)
    requires e.None? ==> before.None? && !Exists(front, uid)
    ensures Exists(front + [last], uid) <==> Exists(front, uid) || StandsFor(last, uid)
    ensures StandsFor(last, uid) ==>
              MergedEntry(OwnedBy(if e.Some? then e.value else NewEntry(last), last), before, front + [last], uid)
    ensures !StandsFor(last, uid) && e.Some? ==> MergedEntry(e.value, before, front + [last], uid)
  {
    ResourcesGrow(front, last, uid);
    if e.Some? && before.None? {
      var r :| IsFirst(front, r, uid) && e.value.name == r.name && e.value.namespace == r.namespace;
      assert IsFirst(front + [last], r, uid);
    } else if e.None? && StandsFor(last, uid) {
      NoCLI(front, uid);
      assert IsFirst(front + [last], last, uid);
    }
  }

  lemma NoCLI(resources: seq<Resource>, uid: Uid)
    requires !Exists(resources, uid)
    ensures !FromCLIResource(resources, uid)
  {
  }

  lemma ResourcesGrow(front: seq<Resource>, last: Resource, uid: Uid)
    ensures Exists(front + [last], uid) <==> Exists(front, uid) || StandsFor(last, uid)
    ensures FromCLIResource(front + [last], uid) <==> FromCLIResource(front, uid) || (StandsFor(last, uid) && FromCLI(last.labels))
    ensures forall r :: IsFirst(front, r, uid) ==> IsFirst(front + [last], r, uid)
    ensures !Exists(front, uid) && StandsFor(last, uid) ==> IsFirst(front + [last], last, uid)
    ensures StandsFor(last, uid) ==> IsLast(front + [last], last, uid)
    ensures !StandsFor(last, uid) ==> forall r :: IsLast(front, r, uid) ==> IsLast(front + [last], r, uid)
  {
    var all := front + [last];
    assert forall r :: r in all <==> r in front || r == last;
    assert all[|front|] == last && forall j :: 0 <= j < |front| ==> all[j] == front[j];
    forall r | IsFirst(front, r, uid) ensures IsFirst(all, r, uid) {
      var i :| 0 <= i < |front| && front[i] == r && StandsFor(r, uid) && forall j :: 0 <= j < i ==> !StandsFor(front[j], uid);
      assert all[i] == r;
    }
    if !StandsFor(last, uid) {
      forall r | IsLast(front, r, uid) ensures IsLast(all, r, uid) {
        var i :| 0 <= i < |front| && front[i] == r && StandsFor(r, uid)
          && forall j :: i < j < |front| ==> !StandsFor(front[j], uid);
        assert all[i] == r;
      }
    }
  }

  /** What the listing shows, for all pods, replica sets and resources: one entry
      for every top owner of an eligible pod and every eligible resource; its pods
      are those listed under its UID; and it is marked deleted exactly when no
      eligible resource has its UID. */
  lemma ListingIsPartition(pods: seq<Pod>, sets: map<Uid, ReplicaSet>, resources: seq<Resource>, uid: Uid)
    ensures var jobs := Merged(PodEntries(pods, sets), resources);
            && (uid in jobs <==> uid in Uids(pods, sets) || Exists(resources, uid))
            && (uid in jobs ==> jobs[uid].pods == PodsUnder(pods, sets, uid))
            && (uid in jobs ==> (jobs[uid].deleted <==> !Exists(resources, uid)))
  {
    PodEntriesMeaning(pods, sets);
    MergedMeaning(PodEntries(pods, sets), resources, uid);
    if uid !in Uids(pods, sets) {
      NobodyUnder(pods, sets, uid);
    }
  }

  // ----- the stages on objects

  /** The replica sets by UID; a later one replaces an earlier one. */
  function SetsByUid(replicaSets: seq<ReplicaSet>): map<Uid, ReplicaSet> {
    if replicaSets == [] then map[]
    else
      var last := replicaSets[|replicaSets| - 1];
      SetsByUid(replicaSets[..|replicaSets| - 1])[last.uid := last]
  }

  /** The last replica set of the list with this UID. */
  ghost predicate LastSet(replicaSets: seq<ReplicaSet>, uid: Uid, r: ReplicaSet) {
    exists i :: 0 <= i < |replicaSets| && replicaSets[i] == r && r.uid == uid
      && forall j :: i < j < |replicaSets| ==> replicaSets[j].uid != uid
  }

  lemma {:induction false} SetsByUidMeaning(replicaSets: seq<ReplicaSet>, uid: Uid)
    ensures uid in SetsByUid(replicaSets) <==> exists r :: r in replicaSets && r.uid == uid
    ensures uid in SetsByUid(replicaSets) ==> LastSet(replicaSets, uid, SetsByUid(replicaSets)[uid])
  {
    if replicaSets != [] {
      var n := |replicaSets| - 1;
      var front, last := replicaSets[..n], replicaSets[n];
      SetsByUidMeaning(front, uid);
      assert replicaSets == front + [last];
      if last.uid == uid {
        assert LastSet(replicaSets, uid, last);
      } else if uid in SetsByUid(front) {
        var i :| 0 <= i < n && front[i] == SetsByUid(front)[uid] && front[i].uid == uid
          && forall j :: i < j < n ==> front[j].uid != uid;
        assert replicaSets[i] == front[i];
      }
    }
  }

  lemma LastSetUnique(replicaSets: seq<ReplicaSet>, uid: Uid, r: ReplicaSet, q: ReplicaSet)
    requires LastSet(replicaSets, uid, r) && LastSet(replicaSets, uid, q)
    ensures r == q
  {
  }

  /** The owner is a controlling replica set of the list. */
  ghost predicate ListedSet(o: OwnerRef, replicaSets: seq<ReplicaSet>) {
    o.isController && o.kind == "ReplicaSet" && exists r :: r in replicaSets && r.uid == o.uid
  }

  /** Who a pod belongs to, read off the list of replica sets: without owners to itself;
      through the first of its owners that is a listed controlling replica set, to that
      set's first owner; otherwise to its last owner. */
  ghost predicate BelongsTo(p: Pod, replicaSets: seq<ReplicaSet>, name: string, uid: Uid) {
    if p.owners == [] then name == p.name && uid == p.uid
    else if exists i :: 0 <= i < |p.owners| && ListedSet(p.owners[i], replicaSets) then
      exists i, r ::
        && 0 <= i < |p.owners| && ListedSet(p.owners[i], replicaSets) && LastSet(replicaSets, p.owners[i].uid, r)
        && (forall j :: 0 <= j < i ==> !ListedSet(p.owners[j], replicaSets))
        && r.owners != [] && name == r.owners[0].name && uid == r.owners[0].uid
    else
      name == p.owners[|p.owners| - 1].name && uid == p.owners[|p.owners| - 1].uid
  }

  lemma BelongsToTopOwner(p: Pod, replicaSets: seq<ReplicaSet>, name: string, uid: Uid)
    requires BelongsTo(p, replicaSets, name, uid)
    ensures TopOwner(p, SetsByUid(replicaSets)) == (name, uid)
  {
    var sets := SetsByUid(replicaSets);
    forall o: OwnerRef ensures ListedSet(o, replicaSets) <==> OwnedByKnownSet(o, sets) {
      SetsByUidMeaning(replicaSets, o.uid);
    }
    if p.owners != [] {
      WalkStops(p.owners, sets);
      var k := FirstKnown(p.owners, sets);
      if k < |p.owners| {
        assert ListedSet(p.owners[k], replicaSets);
        var i, r :| 0 <= i < |p.owners| && ListedSet(p.owners[i], replicaSets) && LastSet(replicaSets, p.owners[i].uid, r)
          && (forall j :: 0 <= j < i ==> !ListedSet(p.owners[j], replicaSets))
          && r.owners != [] && name == r.owners[0].name && uid == r.owners[0].uid;
        assert i == k;
        SetsByUidMeaning(replicaSets, p.owners[i].uid);
        LastSetUnique(replicaSets, p.owners[i].uid, r, sets[p.owners[i].uid]);
      }
    }
  }

  /** A pod of the scheduler that is not an MPI pod stands, as often as it occurs, in the
      row of the one it belongs to and in no other; any other pod stands in no row. */
  lemma PodStandsInItsRow(pods: seq<Pod>, replicaSets: seq<ReplicaSet>, resources: seq<Resource>,
                          p: Pod, name: string, uid: Uid, row: Uid)
    requires BelongsTo(p, replicaSets, name, uid)
    ensures var jobs := Merged(PodEntries(pods, SetsByUid(replicaSets)), resources);
            var listed := p.schedulerName == "runai-scheduler" && "mpi_job_name" !in p.labels;
            && (p in pods && listed ==> uid in jobs)
            && (row in jobs ==>
                  multiset(jobs[row].pods)[p] == if listed && name != "" && row == uid then multiset(pods)[p] else 0)
  {
    var sets := SetsByUid(replicaSets);
    BelongsToTopOwner(p, replicaSets, name, uid);
    ListingIsPartition(pods, sets, resources, uid);
    ListingIsPartition(pods, sets, resources, row);
    GroupingIsPartition(pods, sets, row, p);
  }

  /** A resource of the scheduler that is not an MPI one, with this UID. */
  ghost predicate IsJobOf(r: Resource, row: Uid) {
    r.uid == row && r.schedulerName == "runai-scheduler" && "mpi_job_name" !in r.labels
  }

  /** The marks of a row: deleted unless a listed resource of the scheduler has its UID,
      and made by the command line if the pod that began it or such a resource says so. */
  lemma RowMarks(pods: seq<Pod>, replicaSets: seq<ReplicaSet>, resources: seq<Resource>, row: Uid)
    ensures var sets := SetsByUid(replicaSets);
            var jobs := Merged(PodEntries(pods, sets), resources);
            row in jobs ==>
              && (jobs[row].deleted <==> forall r :: r in resources ==> !IsJobOf(r, row))
              && (jobs[row].createdByCLI <==>
                    || (row in Uids(pods, sets) && MarkedCLI(FirstUnder(pods, sets, row).labels))
                    || exists r :: r in resources && IsJobOf(r, row) && MarkedCLI(r.labels))
  {
    var sets := SetsByUid(replicaSets);
    PodEntriesMeaning(pods, sets);
    ListingIsPartition(pods, sets, resources, row);
    MergedMeaning(PodEntries(pods, sets), resources, row);
    assert forall r :: r in resources ==> (StandsFor(r, row) <==> IsJobOf(r, row));
  }

  /** A row that pods began has the namespace of the first of them and the name of whoever
      it belongs to; any other row is named after its first resource. */
  lemma RowNames(pods: seq<Pod>, replicaSets: seq<ReplicaSet>, resources: seq<Resource>, row: Uid, name: string)
    ensures var sets := SetsByUid(replicaSets);
            var jobs := Merged(PodEntries(pods, sets), resources);
            row in jobs ==>
              if row in Uids(pods, sets) then
                var first := FirstUnder(pods, sets, row);
                && jobs[row].namespace == first.namespace
                && (BelongsTo(first, replicaSets, name, row) ==> jobs[row].name == name)
              else
                exists r :: IsFirst(resources, r, row) && jobs[row].name == r.name && jobs[row].namespace == r.namespace
  {
    var sets := SetsByUid(replicaSets);
    PodEntriesMeaning(pods, sets);
    MergedMeaning(PodEntries(pods, sets), resources, row);
    if row in Uids(pods, sets) {
      var first := FirstUnder(pods, sets, row);
      if BelongsTo(first, replicaSets, name, row) {
        BelongsToTopOwner(first, replicaSets, name, row);
      }
    }
  }

  ghost predicate MarkedCLI(labels: map<string, string>) { ("app", "runaijob") in labels.Items }

  method IndexReplicaSets(replicaSets: seq<ReplicaSet>) returns (sets: map<Uid, ReplicaSet>)
    ensures sets == SetsByUid(replicaSets)
  {
    sets := map[];
    for k := 0 to |replicaSets|
      invariant sets == SetsByUid(replicaSets[..k])
    {
      assert replicaSets[..k + 1][..k] == replicaSets[..k];
      sets := sets[replicaSets[k].uid := replicaSets[k]];
    }
    assert replicaSets[..|replicaSets|] == replicaSets;
  }

  /** The objects hold these entries. */
  ghost predicate Represents(jobs: map<Uid, RunaiJobInfo>, entries: map<Uid, Entry>)
    reads jobs.Values
  {
    && Separate(jobs) && jobs.Keys == entries.Keys
    && forall u :: u in jobs ==> jobs[u].View() == entries[u]
  }

  /** What the grouping loop does with an eligible pod and its top owner. */
  method AddPod(jobs: map<Uid, RunaiJobInfo>, pod: Pod, controller: string, uid: Uid, ghost entries: map<Uid, Entry>)
    returns (more: map<Uid, RunaiJobInfo>)
    requires Represents(jobs, entries)
    modifies jobs.Values
    ensures Represents(more, WithPodUnder(entries, pod, controller, uid))
    ensures forall u :: u in more ==> (u in jobs && more[u] == jobs[u]) || fresh(more[u])
  {
    more := jobs;
    if uid !in more {
      var info := new RunaiJobInfo(controller, pod.namespace, FromCLI(pod.labels), true);
      more := more[uid := info];
    }
    if controller != "" {
      more[uid].pods := more[uid].pods + [pod];
    }
  }

  /** The grouping loop over the pods; `sets` indexes the replica sets. */
  method GetPodJobMap(pods: seq<Pod>, sets: map<Uid, ReplicaSet>) returns (jobs: map<Uid, RunaiJobInfo>)
    requires forall p :: p in pods && EligiblePod(p) ==> Walkable(p, sets)
    ensures Represents(jobs, PodEntries(pods, sets))
    ensures forall u :: u in jobs ==> fresh(jobs[u])
  {
    jobs := map[];
    for k := 0 to |pods|
      invariant forall u :: u in jobs ==> fresh(jobs[u])
      invariant Represents(jobs, PodEntries(pods[..k], sets))
    {
      var pod := pods[k];
      assert pods[..k + 1][..k] == pods[..k];
      if IsMPI(pod.labels) || pod.schedulerName != SCHEDULER {
        continue;
      }
      var controller, uid := GetPodTopOwner(pod, sets);
      jobs := AddPod(jobs, pod, controller, uid, PodEntries(pods[..k], sets));
    }
    assert pods[..|pods|] == pods;
  }

  /** The body of the merge loop for an eligible resource. */
  method AddResource(jobs: map<Uid, RunaiJobInfo>, job: Resource, ghost entries: map<Uid, Entry>)
    returns (more: map<Uid, RunaiJobInfo>)
    requires Represents(jobs, entries) && EligibleResource(job)
    modifies jobs.Values
    ensures Represents(more, WithResource(entries, job))
    ensures forall u :: u in more ==> (u in jobs && more[u] == jobs[u]) || fresh(more[u])
  {
    more := jobs;
    if job.uid !in more {
      var created := new RunaiJobInfo(job.name, job.namespace, false, false);
      more := more[job.uid := created];
    }
    var info := more[job.uid];
    info.deleted := false;
    info.owner := Some(job);
    if FromCLI(job.labels) {
      info.createdByCLI := true;
    }
  }

  /** What the listing shows of one entry. */
  datatype Row = Row(uid: Uid, entry: Entry, lastCreated: Option<Pod>)

  /** The merge loop over the resources. */
  method MergeResources(jobs: map<Uid, RunaiJobInfo>, resources: seq<Resource>, ghost entries: map<Uid, Entry>)
    returns (merged: map<Uid, RunaiJobInfo>)
    requires Represents(jobs, entries)
    modifies jobs.Values
    ensures Represents(merged, Merged(entries, resources))
  {
    merged := jobs;
    for k := 0 to |resources|
      invariant forall u :: u in merged ==> merged[u] in jobs.Values || fresh(merged[u])
      invariant Represents(merged, Merged(entries, resources[..k]))
    {
      var job := resources[k];
      assert resources[..k + 1][..k] == resources[..k];
      if job.schedulerName != SCHEDULER || IsMPI(job.labels) {
        continue;
      }
      merged := AddResource(merged, job, Merged(entries, resources[..k]));
    }
    assert resources[..|resources|] == resources;
  }

  /** A row shows an entry and its last created pod. */
  ghost predicate RowOf(row: Row, entries: map<Uid, Entry>) {
    && row.uid in entries && row.entry == entries[row.uid]
    && IsLastCreated(row.lastCreated, row.entry.pods)
  }

  /** The keys of a map in whatever order it gives them. */
  method Enumerate(keys: set<Uid>) returns (order: seq<Uid>)
    ensures |order| == |keys| && forall u :: u in order <==> u in keys
    ensures forall i, j :: 0 <= i < j < |order| ==> order[i] != order[j]
  {
    order := [];
    var rest := keys;
    while rest != {}
      invariant rest <= keys && |order| + |rest| == |keys|
      invariant forall u :: u in keys <==> u in rest || u in order
      invariant forall i :: 0 <= i < |order| ==> order[i] !in rest
      invariant forall i, j :: 0 <= i < j < |order| ==> order[i] != order[j]
    {
      var u :| u in rest;
      rest := rest - {u};
      order := order + [u];
    }
  }

  /** One row for each entry, in the order of the map. */
  method Rows(jobs: map<Uid, RunaiJobInfo>, ghost entries: map<Uid, Entry>) returns (rows: seq<Row>)
    requires Represents(jobs, entries)
    ensures |rows| == |entries.Keys|
    ensures forall i, j :: 0 <= i < j < |rows| ==> rows[i].uid != rows[j].uid
    ensures forall i :: 0 <= i < |rows| ==> RowOf(rows[i], entries)
  {
    var order := Enumerate(jobs.Keys);
    rows := [];
    for k := 0 to |order|
      invariant |rows| == k
      invariant forall i :: 0 <= i < k ==> rows[i].uid == order[i] && RowOf(rows[i], entries)
    {
      var entry := jobs[order[k]].View();
      var last := GetLastCreatedPod(entry.pods);
      rows := rows + [Row(order[k], entry, last)];
    }
  }

  method ListTrainingJobs(pods: seq<Pod>, replicaSets: seq<ReplicaSet>, resources: seq<Resource>) returns (rows: seq<Row>)
    requires forall p :: p in pods && EligiblePod(p) ==> Walkable(p, SetsByUid(replicaSets))
    ensures var entries := Merged(PodEntries(pods, SetsByUid(replicaSets)), resources);
            && |rows| == |entries.Keys|
            && (forall i, j :: 0 <= i < j < |rows| ==> rows[i].uid != rows[j].uid)
            && (forall i :: 0 <= i < |rows| ==> RowOf(rows[i], entries))
  {
    var sets := IndexReplicaSets(replicaSets);
    var jobs := GetPodJobMap(pods, sets);
    jobs := MergeResources(jobs, resources, PodEntries(pods, sets));
    rows := Rows(jobs, Merged(PodEntries(pods, sets), resources));
  }

  // ----- the last created pod

  /** The latest creation time, and the earliest such pod in the list. */
  ghost predicate IsLastCreated(last: Option<Pod>, pods: seq<Pod>) {
    match last
    case None => pods == []
    case Some(p) =>
      exists i ::
        && 0 <= i < |pods| && pods[i] == p
        && (forall j :: 0 <= j < i ==> pods[j].created < p.created)
        && (forall j :: i <= j < |pods| ==> pods[j].created <= p.created)
  }

  method GetLastCreatedPod(pods: seq<Pod>) returns (last: Option<Pod>)
    ensures IsLastCreated(last, pods)
  {
    if |pods| == 0 {
      return None;
    }
    var latest := pods[0];
    ghost var at := 0;
    for k := 1 to |pods|
      invariant 0 <= at < k && pods[at] == latest
      invariant forall j :: 0 <= j < at ==> pods[j].created < latest.created
      invariant forall j :: at <= j < k ==> pods[j].created <= latest.created
    {
      if latest.created < pods[k].created {
        latest := pods[k];
        at := k;
      }
    }
    return Some(latest);
  }
}
