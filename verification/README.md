# Verified models of runai-cli

Dafny models of the parts of runai-cli (a Kubernetes job CLI written in Go) that
carry a protocol, an allocator, a transformation or an accounting rule, with
proofs of what they guarantee.

Run `dafny verify dfyconfig.toml` to check everything.

## How the models are built

- Concurrent code is a step machine on values: a state, the actions enabled in it,
  and the next state. A run is a list of actions; theorems speak of every run. The
  source's object is a class with the source's fields, whose methods are proved to
  take exactly these steps. Where the source is a retry loop against the API server,
  the loop is a method that takes arbitrary steps of other clients before each of its
  requests, and it is proved that everything that happened is a run of the machine.
- Sequential code that updates state is a method with the source's loops, proved
  equal to a function of its inputs; the properties are lemmas about that function.
- Go's map iteration order and the arrival order on a channel are nondeterministic
  choices, so a postcondition holds for every order.
- `LazyCache.dfy`: the lazy cache, one step per statement, with its mutex, its
  waiter counter and the rendezvous on the unbuffered channel.
- `JobNames.dfy`: config-map names allocated by racing submitters and deleters, in a
  namespace that others use too.
- `JobIndex.dfy`: the shared job counter updated by compare-and-swap.
- `Random.dfy`: the stored linear congruential generator modulo 2^32.
- `Trainer.dfy`, `GpuShare.dfy`, `Prometheus.dfy`: grouping of pods, GPU memory
  accounting, fan-out of queries and regrouping of their results.
- `Pvc.dfy`, `EnvMerge.dfy`, `PodStatus.dfy`, `Ports.dfy`, `Formats.dfy`: the smaller
  loops and transformations.
- `Common.dfy`, `Decimal.dfy`, `GoStrings.dfy`: shared vocabulary; decimal printing
  and parsing as in Go's strconv, splitting as in Go's strings.

## What turned out not to hold everywhere

- The cache's comment says that get_data is called only once. That is so in every
  complete run exactly when the calls are all Gets or one single Refresh
  (`FetchedOnceExactlyWhen`); `FetchCountsExactly` says which counts are possible for
  any set of calls. Get reads data and err after unlocking, so it can return the data
  of one call with the error of another (`TornRun`); `PairsWholeExactlyWhen` says for
  which sets of calls this is impossible.
- `getSmallestUnoccupiedIndex` returns an occupied index exactly when the labels are
  {1..n} (`SmallestUnoccupiedMeaning`, with an instance in `OccupiedIndexFound`).
- Three causes do not explain every name found taken in the retry loop: a config map
  that no submission made can hold it too (`FailedCreateExplained`);
  `UndisturbedRetrySucceedsExactlyWhen` says when an undisturbed retry works.
- PVC normalisation is idempotent except for a two-field parameter whose mount path
  looks like a size (`NormaliseIdempotent`, with an instance in `NotIdempotent`).
- After a failed query the collecting caller returns early and other goroutines can
  stay blocked for ever (`LeakingRun`, `LeftBehindForever`). No schedule leaves one
  behind if and only if every query succeeds or there is at most one
  (`NoLeakExactlyWhen`).
- The comment on the port allocator says that 20001 follows 20000; the code, and the
  model, give the next free port.

For lists that an API server never returns: a GPU node listed twice is counted twice
(`ListedTwice`), and `ClusterConservation` says exactly when the cluster sum is off;
with distinct node names it never is (`DistinctNodesConserve`).

## Model

| member | source | states |
|---|---|---|
| LazyCache.NeverStuck | pkg/util/cache.go:58-103 | in a state satisfying the invariant some call can step unless all have returned, even while the lock holder is blocked sending |
| LazyCache.NoEndlessRun | pkg/util/cache.go:58-103 | for any number of Gets and Refreshes every run is at most 13 steps per call long |
| LazyCache.EveryCallReturns | pkg/util/cache.go:58-103 | a run cannot go on exactly when every call has returned |
| LazyCache.WaitersAccounted | pkg/util/cache.go:62-103 | outside delivery the counter equals the calls committed to wait and is nonzero only while fetching; fetching means a refresh is in flight; during delivery the sends left equal the calls still waiting |
| LazyCache.DoneForever | pkg/util/cache.go:58-60 | a call that has returned is never touched again, so no waiter is served twice |
| LazyCache.FetchedAtMostOncePerRefresh | pkg/util/cache.go:62-103 | in every run, complete or not, get_data is called at most R + 1 times with R Refresh calls, and when all calls have returned at least R times and at least once |
| LazyCache.FetchCountsExactly | pkg/util/cache.go:62-103 | a complete run with k get_data calls exists if and only if k is R, with a Refresh or no calls at all, or R + 1, with a Get |
| LazyCache.FetchedOnceExactlyWhen | pkg/util/cache.go:18-32 | every complete run calls get_data exactly once if and only if there are calls and they are all Gets or one single Refresh |
| LazyCache.Completion | pkg/util/cache.go:58-103 | every state satisfying the invariant has a run after which all calls have returned |
| LazyCache.StepFetch | pkg/util/cache.go:62-103 | every step keeps the count of get_data calls made and owed, and Empty is never re-entered |
| LazyCache.GetOnly | pkg/util/cache.go:18-32 | with Gets alone get_data is called exactly once and every Get returns exactly its data and error |
| LazyCache.HalvesAreFetched | pkg/util/cache.go:74-76 | in every run of any mix of calls each half of a returned pair was returned by some get_data call |
| LazyCache.OwnOutcome | pkg/util/cache.go:88-103 | in every run a call whose own get_data call came back with an outcome ends with exactly that outcome |
| LazyCache.ServedOutcome | pkg/util/cache.go:58-60 | in every run a call that a refresh sent to ends with exactly the outcome of that refresh's own get_data call |
| LazyCache.WaiterGetsFetched | pkg/util/cache.go:58-103 | in every run a Get that waited and returned was sent to by some refresh and returned exactly what that one fetched |
| LazyCache.NothingOlder | pkg/util/cache.go:62-81 | each half that a Get returns is what the field held when the Get began, or was written since |
| LazyCache.NothingFromBeforeRefresh | pkg/util/cache.go:62-103 | a Get that begins after a Refresh took the lock to declare Fetching returns only values written since then |
| LazyCache.PairsWholeExactlyWhen | pkg/util/cache.go:74-76 | every returned pair is one that get_data returned, in all runs, if and only if there is no Refresh, or no Get, or at most two calls |
| LazyCache.TornRun | pkg/util/cache.go:74-76 | a concrete schedule of three calls in which a Get returns data and error of different get_data calls |
| LazyCache.CacheImpl.StepGet | pkg/util/cache.go:62-81 | the statements of Get change the cache's fields as the step machine says |
| LazyCache.CacheImpl.StepRefresh | pkg/util/cache.go:88-103 | the statements of Refresh change the cache's fields as the step machine says |
| LazyCache.CacheImpl.RunToCompletion | pkg/util/cache.go:39-103 | whatever enabled step a scheduler picks each time, what happens is a run of the machine, and the loop ends with all calls returned and get_data called between R and R + 1 times |
| JobNames.GetSmallestUnoccupiedIndex | pkg/workflow/workflow.go:184-197 | the map-filling and search loops compute the specified index |
| JobNames.SmallestUnoccupiedMeaning | pkg/workflow/workflow.go:184-197 | every smaller positive index is occupied; the index itself is occupied exactly when the labels are {1..n} with n at least 1; with label 0 listed it is free |
| JobNames.OccupiedIndexFound | pkg/workflow/workflow.go:184-197 | a listing whose computed index is occupied |
| JobNames.OccupiedMeaning | pkg/workflow/workflow.go:184-188 | the occupied texts are the index labels listed, with the empty text for a map without one |
| JobNames.StoreNaming | pkg/workflow/workflow.go:199-204 | in every run over any initial store, a config map created by a submission is named by its base name with index 0 or by base and index as labelled, a map nobody created in the run is unchanged, and numbered well-named maps of one base have different indices |
| JobNames.FailedCreateExplained | pkg/workflow/workflow.go:224-235 | in every run over any initial store, a name found taken in the retry loop was created by somebody else after the List, or is the explicit name of a job with another base name, or came from labels that were exactly {1..n}, or belongs to a map that no submission makes |
| JobNames.UndisturbedRetrySucceedsExactlyWhen | pkg/workflow/workflow.go:224-235 | an undisturbed retry succeeds if and only if the chosen name is not that of an unrelated map or an explicit name, and the listing is not full with its last index held by a submission's map; among submissions' maps alone the latter is labels {1..n}, which index 0 in the listing rules out |
| JobNames.SubmissionsAccounted | pkg/workflow/workflow.go:206-259 | each submission creates exactly the map it returns on success and none on failure, with at most 6 Creates and 5 Lists; equal returned names mean a deletion of that name |
| JobNames.FailuresExplained | pkg/workflow/workflow.go:206-238 | in every run a client fails with access denied, already exists, list failed or retries exhausted if and only if its requests and their replies are those for which the source says so, and otherwise can make its next request; a suffixed client whose first Create failed undenied can List |
| JobNames.RequestsCounted | pkg/workflow/workflow.go:206-238 | the request counters of a client are the numbers of its Creates and Lists in the run |
| JobNames.CreateDecided | pkg/workflow/workflow.go:199-259 | in every run a Create works if and only if it is served and its name, given by the job's name and its last listing, is free, and then exactly that map with its three labels is added |
| JobNames.ReturnedMapStands | pkg/workflow/workflow.go:206-259 | in every run a submission that succeeded returned its own name and that map stands with its labels unless deleted |
| JobNames.Namespace.CreateEmptyConfigMap | pkg/workflow/workflow.go:240-259 | a Create with the three labels changes the store and the client as the protocol says |
| JobNames.Namespace.RetryOnce | pkg/workflow/workflow.go:224-235 | one pass of the retry loop under arbitrary interference is part of a protocol run and ends where the protocol says |
| JobNames.Namespace.SubmitConfigMap | pkg/workflow/workflow.go:206-238 | the whole submission under arbitrary interference and replies is a protocol run and returns its outcome |
| JobIndex.IndicesGapless | cmd/job/submit/submit.go:362-405 | in every run the i-th successful update writes the i-th successor of the initial index, which is initial + i exactly while that fits int64; each client has written once if it returned and never otherwise |
| JobIndex.ReturnedIndicesDiffer | cmd/job/submit/submit.go:362-405 | a client returns the index it wrote, and two clients never return the same one, short of 2^64 updates |
| JobIndex.ConflictMeansOvertaken | cmd/job/submit/submit.go:375-405 | in every run a pending Update will conflict if and only if another client's update was accepted since this client's Get |
| JobIndex.GiveUpMeansOvertaken | cmd/job/submit/submit.go:362-373 | a client's failed tries are at most the commits of others; one that gives up failed five times, wrote nothing, and competes with at least five others |
| JobIndex.GiveUpPossibleExactlyWhen | cmd/job/submit/submit.go:362-373 | some run makes a client give up if and only if at least six clients compete |
| JobIndex.EveryClientFinishes | cmd/job/submit/submit.go:362-405 | every client is done after at most ten requests, and at the end at least five of them, or all if fewer, have an index |
| JobIndex.UnusableIndexFailsAll | cmd/job/submit/submit.go:381-392 | without the config map or with an unparsable index nothing is written and every client fails at its first Get |
| JobIndex.IndexConfigMap.TryGetJobIndexOnce | cmd/job/submit/submit.go:375-405 | one try under arbitrary interference returns the new index as text, asks for another try on conflict, or fails, as the protocol says |
| JobIndex.IndexConfigMap.GetJobIndex | cmd/job/submit/submit.go:362-373 | the retry loop under arbitrary interference is a protocol run and returns its outcome |
| Random.GeometricValuation | pkg/util/random.go:38 | for a multiplier that is 1 modulo 4 the geometric sum of n terms is divisible by the same powers of two as n |
| Random.FullPeriod | pkg/util/random.go:38 | two states of an orbit are equal exactly when their distance is a multiple of 2^32 |
| Random.EveryStateVisited | pkg/util/random.go:38 | one period visits every uint32 |
| Random.NoRepeatBeforeReseed | pkg/util/random.go:31-42 | from a nonzero stored state the reseeding state 0 comes after fewer than 2^32 calls and no state repeats up to then, whatever the seeds |
| Random.NewGeneratorFollowsSeed | pkg/util/random.go:31-42 | n calls on a new generator leave the n-th state of its first seed's orbit, as long as no state in between is 0 |
| Random.SeedsTellApart | pkg/util/random.go:31-42 | two new generators with different first seeds have different states after every call, until a state is 0 |
| Random.ShownIsNineDigits | pkg/util/random.go:41 | the returned string has exactly nine digits whose value is the state modulo 10^9 |
| Random.Generator.RandomInt32 | pkg/util/random.go:31-42 | one call stores the next state of the stored one, or of the seed when that is 0, and returns its nine digits |
| Trainer.GetPodTopOwner | cmd/trainer/trainer_runai.go:571-591 | the owner loop computes the specified top owner |
| Trainer.TopOwnerIsTop | cmd/trainer/trainer_runai.go:571-591 | the top owner is the pod itself, the first owner of the first known controlling replica set, or else the last owner |
| Trainer.GroupingIsPartition | cmd/trainer/trainer_runai.go:526-550 | an eligible pod with a named top owner is listed under its top owner UID as often as it occurs, and nowhere else |
| Trainer.PodEntriesMeaning | cmd/trainer/trainer_runai.go:526-550 | the entries are exactly those of the top owners of eligible pods, each with the first pod's data, its pods in order, and marked deleted |
| Trainer.MergedMeaning | cmd/trainer/trainer_runai.go:450-486 | merging keeps pods, adds one entry per eligible resource without one, clears deleted exactly for UIDs with an eligible resource, and records the last such resource |
| Trainer.ListingIsPartition | cmd/trainer/trainer_runai.go:406-551 | both stages together: one entry per top owner or eligible resource, holding the pods of its UID, deleted exactly when no eligible resource has the UID |
| Trainer.GetPodJobMap | cmd/trainer/trainer_runai.go:506-552 | the grouping loop over heap objects computes the specified entries |
| Trainer.MergeResources | cmd/trainer/trainer_runai.go:450-486 | the merge loop over heap objects computes the specified entries |
| Trainer.SetsByUidMeaning | cmd/trainer/trainer_runai.go:521-524 | the index of replica sets knows exactly the listed UIDs, each with the last set of the list that has it |
| Trainer.PodStandsInItsRow | cmd/trainer/trainer_runai.go:506-591 | over the list of replica sets: a pod of the scheduler that is not an MPI pod stands, as often as it occurs, in the row of the one it belongs to and in no other, and other pods in none |
| Trainer.RowMarks | cmd/trainer/trainer_runai.go:450-550 | a row is deleted exactly when no eligible resource has its UID, and marked as made by the command line exactly when its first pod or such a resource is |
| Trainer.RowNames | cmd/trainer/trainer_runai.go:450-550 | a row begun by pods has the namespace of the first and the name of whoever it belongs to, any other those of its first resource |
| Trainer.ListTrainingJobs | cmd/trainer/trainer_runai.go:385-504 | one row for each entry of the two stages, over the indexed list of replica sets, with its last created pod |
| Trainer.GetLastCreatedPod | cmd/trainer/trainer_runai.go:723-736 | the earliest listed pod among those with the latest creation time |
| GpuShare.DeviceMeaning | pkg/types/nodeinfo_share.go:174-206 | a device lists exactly the charged pods annotated with it in order, uses the sum of their memory, and exists when it is one of the node's or some charged pod names it |
| GpuShare.OnOneDevice | pkg/types/nodeinfo_share.go:208-232 | each pod with positive GPU memory sits on exactly the device it names, -1 when unparsable or absent |
| GpuShare.NodeConservation | pkg/types/nodeinfo_share.go:174-206 | the usage of a node's devices sums to the memory of its charged pods |
| GpuShare.ClusterConservation | pkg/types/nodeinfo_share.go:41-111 | the usage of all devices of the cluster is at least what the pods on listed GPU nodes are charged, and equal exactly when no such node with charged pods is listed twice |
| GpuShare.DistinctNodesConserve | pkg/types/nodeinfo_share.go:41-111 | with distinct node names the usage of all devices equals what the pods on listed GPU nodes are charged |
| GpuShare.ListedTwice | pkg/types/nodeinfo_share.go:72-111 | a GPU node listed twice with one charged pod uses twice the pod's memory |
| GpuShare.GPUShareNodeInfo.BuildDeviceInfo | pkg/types/nodeinfo_share.go:174-206 | the device loop over heap objects computes the specified devices |
| GpuShare.GpuMemoryInPod | pkg/types/nodeinfo_share.go:161-171 | the loop adds up the containers' GPU memory limits |
| GpuShare.LimitsAddUp | pkg/types/nodeinfo_share.go:161-171 | the sum over two lists of containers is the sum of the two sums |
| GpuShare.ContainerCounts | pkg/types/nodeinfo_share.go:161-171 | every container adds its own limit, or nothing without one, wherever it stands |
| GpuShare.AnnotatedDevice | pkg/types/nodeinfo_share.go:208-232 | the printed number of an int64 names that device; without the annotation, or with a text that is no int64, it is -1 |
| GpuShare.DeviceShare | pkg/types/nodeinfo_share.go:72-111 | every device of a node with memory and devices is given the equal share, short of less than one unit a device |
| GpuShare.DeviceOrder | pkg/types/nodeinfo_share.go:174-206 | a device's pods stand in the order of the node's pods |
| GpuShare.ChargedOnlyWithMemory | pkg/types/nodeinfo_share.go:41-54 | a node's pods are charged to its devices exactly when it has positive GPU memory, otherwise its devices are unused |
| GpuShare.BuildAllGPUShareNodeInfos | pkg/types/nodeinfo_share.go:41-54 | every listed node gets the specified devices, charged only when it has GPU memory |
| Prometheus.EverySchedule | pkg/prometheus/client.go:248-271 | for every schedule the caller can always go on, fails exactly when some query failed, and otherwise returns all results with no goroutine left |
| Prometheus.EveryScheduleEnds | pkg/prometheus/client.go:248-271 | every schedule has at most two steps for each query |
| Prometheus.NoLeakExactlyWhen | pkg/prometheus/client.go:248-271 | no schedule leaves a goroutine unreceived after the caller returned if and only if every query succeeds or there is at most one |
| Prometheus.LeakingRun | pkg/prometheus/client.go:263-267 | with a failing query and any other one there is a schedule after which the caller has failed and the other goroutine is blocked sending |
| Prometheus.LeftBehindForever | pkg/prometheus/client.go:263-267 | a goroutine left behind stays so in every continuation, blocked in its send once it gets there |
| Prometheus.QueryAndGetResponse | pkg/prometheus/client.go:248-271 | the receive loop, for every arrival order, returns an error exactly when some query failed and otherwise all results |
| Prometheus.GroupMultiQueriesToItems | pkg/prometheus/client.go:217-246 | succeeds exactly when all queries do and every result has the label, and then the items are a grouping |
| Prometheus.GroupingUnique | pkg/prometheus/client.go:224-244 | there is only one grouping, so map iteration order does not matter |
| Prometheus.GroupingConserves | pkg/prometheus/client.go:224-244 | a result stands as often as its query returned it under its own label value and nowhere else |
| Prometheus.GroupingInOrder | pkg/prometheus/client.go:224-244 | the results in a place are those of the query with that label value, in its order |
| Pvc.RequestDecided | pkg/util/validate.go:44 | the greedy matcher accepts exactly the texts of the resource request pattern |
| Pvc.LabelDecided | pkg/util/validate.go:30-40 | the storage class check accepts exactly the texts of the label pattern |
| Pvc.Decided | cmd/job/submit/volume_handler.go:28-126 | a parameter is accepted exactly when its fields have no fault, and otherwise rejected with the first of its faults |
| Pvc.RebuiltFields | cmd/job/submit/volume_handler.go:92-126 | accepted or not, 2 to 4 fields are rewritten to 3 in the existing form and 4 in the dynamic one, with at most an empty last field added |
| Pvc.AcceptedFields | cmd/job/submit/volume_handler.go:92-126 | an accepted parameter is rewritten to 3 fields if existing and 4 if dynamic, its own fields plus at most an empty last one |
| Pvc.NormaliseIdempotent | cmd/job/submit/volume_handler.go:28-126 | rewriting again changes neither text nor classification, except that a two-field parameter whose mount path matches the request pattern is then rejected |
| Pvc.NotIdempotent | cmd/job/submit/volume_handler.go:28-126 | p:5Gi is rewritten to p:5Gi:, which is rejected for lack of a mount path |
| Pvc.SubmitArgs.HandlePvcParams | cmd/job/submit/volume_handler.go:28-54 | on success all parameters are rewritten; on failure the first rejected one gives the error and the list is left as the source leaves it |
| GoStrings.SplitJoin | cmd/job/submit/volume_handler.go:105-125 | splitting undoes printing when no field holds the separator |
| EnvMerge.MergeEnvironmentVariables | pkg/templates/submit_template_merger.go:107-131 | the two loops append in place exactly the specified merge, even when both pointers are the same |
| EnvMerge.MergeAssociative | pkg/templates/submit_template_merger.go:107-131 | merging is associative |
| EnvMerge.MergeIdempotent | pkg/templates/submit_template_merger.go:107-131 | merging a list with itself changes nothing |
| EnvMerge.MergePriority | pkg/templates/submit_template_merger.go:107-131 | the higher list stays as a prefix, and an entry of the lower one is appended, as often as it occurs, exactly when well formed with a key the higher one lacks |
| EnvMerge.WellFormedMeaning | pkg/templates/submit_template_merger.go:111-122 | an entry defines a key exactly when it is two texts without an equals sign joined by one |
| EnvMerge.FirstLayerWins | pkg/templates/submit_template_merger.go:107-131 | of entries for the same key, whatever the values, none of the lower layer is added if the higher layer has one, and otherwise each as often as it occurs |
| EnvMerge.LayersAgree | pkg/templates/submit_template_merger.go:39-48 | command line over administrator over user gives one result and all keys, however bracketed |
| PodStatus.GetStatusColumnFromPodStatus | cmd/trainer/trainer_common.go:71-152 | the trainer's loops compute the specified reason |
| PodStatus.DefinePodPhaseStatus | pkg/jobs/serving/utils.go:87-159 | the serving loops compute the specified reason, restarts and ready containers |
| PodStatus.StatusesDifferExactlyWhen | pkg/jobs/serving/utils.go:87-159 | what the two separate copies of the loops compute differs exactly for an undeleted pod completed but for a running container and not Ready, and then is NotReady and Running |
| PodStatus.LowestContainerWins | cmd/trainer/trainer_common.go:115-133 | after init the lowest-index container with a reason decides it, whatever the reason; only Completed with a running container is then replaced |
| PodStatus.DeletingShows | cmd/trainer/trainer_common.go:145-149 | a pod being deleted shows Unknown if its node is lost and Terminating otherwise |
| PodStatus.InitialisingShows | cmd/trainer/trainer_common.go:84-112 | what both statuses show for each state of the first init container that has not ended with exit code 0 |
| PodStatus.ContainerShows | cmd/trainer/trainer_common.go:113-133 | what both statuses show for each state of the first container that waits for a reason or has terminated |
| PodStatus.ReadyAddUp | pkg/jobs/serving/utils.go:124-142 | ready containers are those ready and running that neither wait for a reason nor have terminated, each counted once |
| PodStatus.RestartsAddUp | pkg/jobs/serving/utils.go:94-142 | every container's restarts count once |
| Ports.GatheredMeaning | pkg/util/port_allocate.go:58-106 | gathering finds exactly the host ports of active pods and the node ports of services |
| Ports.CallsReturnFreePorts | pkg/util/port_allocate.go:28-52 | over any sequence of calls the i-th returns the i-th free port and fails when there is none left |
| Ports.CallsAllocate | pkg/util/port_allocate.go:28-52 | returned ports strictly increase in the range, avoid known ports and skip no free one; failure means every port of the range is known or returned |
| Ports.ClusterPortsAvoided | pkg/util/port_allocate.go:28-119 | over any sequence of calls no port that the cluster used at the first call of a new allocator, or that an old one remembers, is returned, nor one returned before, none in 20000 to 29999 is skipped, and failure means that all of them are taken |
| Ports.Allocator.SelectAvailablePort | pkg/util/port_allocate.go:28-41 | the search loop selects and remembers the first free port |
| Formats.ByteCount | pkg/ui/formats.go:48-74 | for every int64 from the unit on the loop ends with div a power of the unit, div at most b and b below unit times div, no overflow, and a suffix index in range |
| Formats.ScaleUnique | pkg/ui/formats.go:48-74 | that scale is the only one |
| Formats.ClockFields | pkg/ui/formats.go:38-44 | hours, minutes and seconds recombine to the seconds, with the sign of the count and minutes and seconds below 60 in size |
| Formats.TimeFormatReadsBack | pkg/ui/formats.go:38-44 | for every int64, negative ones included, the printed time splits into three texts of at least two characters, exactly two for minutes and seconds of a nonnegative count, that parse to hours, minutes and seconds and give the count back |

## Left out

- LazyCache: the unknown-status branch of Get, which no reachable state takes, and the unsynchronised Status accessor.
- A goroutine making several cache calls in turn is not tied together: each call is its own goroutine, so every such interleaving is among the runs.
- JobNames: a Create that fails with a server error is taken not to have created the map; name and label syntax rules of the API server are not modelled, nor is anybody editing the labels of an existing map.
- JobIndex: the config map is neither deleted nor edited by anyone else while clients run, and an Update fails only on a version conflict.
- Random: the clock and process id behind reseed are a parameter.
- Trainer: service URLs, ingress, node addresses, annotations and the statuses shown in a row are left out; the listed resources are a parameter. A known replica set without owners that controls an eligible pod makes the source panic and is excluded by precondition.
- GpuShare: node objects are modelled on values while pods are gathered, so sharing of a node object between two occurrences of its name is not captured; device objects are on the heap. Sums are unbounded integers, and the MiB/GiB unit choice is left out.
- Prometheus: slices behind pointers are modelled on values; HTTP, JSON decoding and the two backends are an answer per query.
- EnvMerge: the reflection over the other template fields, and git-sync merging.
- Ports: gathering that fails part-way.
- Formats: the floating-point text of a scaled size, the plain byte text, and the conversion of arbitrary values to int64.
- Kubernetes client code, generated code, login, logs, tables and command-line parsing: input and output without a property of this kind.
