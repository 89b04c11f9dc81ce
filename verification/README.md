# Metric lifecycle of the ephemeral-storage exporter

The exporter scrapes the stats summary of every monitored node and publishes what it finds in 21 pod gauge vectors
and 4 node gauge vectors. This project models how series come, change and go: the gauges, the per-node miss
trackers, the monitored set, the kubelet endpoints and the pod-spec cache, under scrapes, failed queries, node events
and pod events. It proves that the gauges hold what the cluster last reported and keep nothing for what is gone, and
it says exactly where that stops being true.

## How it is built

| file | content |
|---|---|
| `Sequences.dfy`, `Series.dfy`, `Settings.dfy` | the last match in a list; gauges, label records, partial-match deletion; settings |
| `Tracker.dfy` | miss counting: the sweep over the tracker map, and what the counts mean |
| `PodSpecs.dfy`, `PodMetrics.dfy` | what is kept of a manifest; what one pod record writes |
| `PodCollector.dfy`, `NodeMonitor.dfy`, `Exporter.dfy` | the classes with the code's methods and loops, and the step each event makes |
| `Runs.dfy`, `GaugeHistory.dfy`, `CacheHistory.dfy`, `Lifecycle.dfy`, `Percentages.dfy` | theorems over all runs |
| `Figures.dfy` | what each of the 25 gauges shows over whole runs, written out in fields, labels and settings |
| `EmptyRecords.dfy` | which records set no series at all |
| `Rounds.dfy` | exactly when the order of a round can be seen |
| `Interleaving.dfy` | the finer model, in which scrapes and evictions interleave, and what still holds there |
| `Guards.dfy`, `Overlaps.dfy` | the laws that interleaving can break: exactly what each needs, and runs that break it |
| `DaemonSets.dfy` | what a failed query of a DaemonSet ends when scrapes overlap |

The classes change maps in place, as the code does. Their contracts give the new state as a function of the old one
(`Exporter.Step`), and the theorems are about that function: `Exporter.App.Handle` shows that the code makes exactly
that step for every event, and `Exporter.App.Valid` that its state is always the run of its event log. What a record
or a summary writes is a map, merged so that a later write wins, because a gauge keeps the value set last.

What a record means for the gauges is said twice. `PodMetrics.dfy` and `NodeMonitor.dfy` follow the code and its helper
functions; `Figures.dfy` names gauges, labels, fields, settings and literals only. `Figures.GaugesShowFigures` and
`Figures.RateShowsAdjustment` connect the two: over every run each series shows the figure written there.

The main model treats a scrape (query, eviction, publication) as one step, possible only for a node monitored at that
moment. That is an assumption: the code takes a snapshot of the monitored set and runs scrapes concurrently.
`Interleaving.dfy` drops it.

The range loop over the tracker map follows The Go Programming Language Specification, section "For statements with
range clause": the order is not specified, and an entry removed before it is reached is not produced. The loop here
picks any remaining key, and `Tracker.SweepAnyOrder` shows that the outcome does not depend on the choice.

## What the proofs say about the code

- In a Deployment a node whose query failed comes back with the next ready event and starts counting misses afresh.
  The comment in `pkg/node/k8s.go:89-90`, by which the update handler picks the node back up, holds for a Deployment
  only. As a DaemonSet there is no node watch: a failed query silences the exporter, for good if no other scrape of the
  node is waiting or under way (`DaemonSets.LoneFailureIsFinal`), and in general exactly until another one is answered
  or publishes something (`DaemonSets.SilentAfterFailureExactly`). What such an overlapping scrape shows is then never
  updated, nor removed unless a pod watch reports the deletion of the pod (`DaemonSets.BackForGood`,
  `DaemonSets.IdleForGood`).
- The pod-spec cache is filled only if one of the two limit percentages is enabled. With both disabled, volume usage
  never shows a series, although its own flag is on. A volume series can be shown in some run exactly when its flag is
  on and the pod watch runs (`CacheHistory.VolumeReachable`).
- A pod is evicted by name alone, so a scrape of one node can clear a same-named pod of another. The order of a round
  can be seen exactly when one of its scrapes gives up a pod name that another publishes (`Rounds.AnyOrderExactly`), and
  every Deployment that publishes pod usage can come to such a round (`Rounds.SharedNameReachable`).
- A rootfs or logs percentage is not refreshed by a record without capacity: it can be older than the byte series
  beside it (`GaugeHistory.PercentageLeftBehind`). The gauges tell: percentage, used bytes and capacity come from the
  same stats entry exactly when the capacity shown is positive (`GaugeHistory.PercentageAgreesExactly`), and then the
  percentage is the quotient of the other two (`GaugeHistory.PercentageOfBytes`).
- A node that is scraped through its kubelet needs an endpoint. A ready node without an internal address is monitored
  with an empty endpoint, so each of its queries fails and evicts it (`NodeMonitor.Node.Query`).

When scrapes interleave with evictions and with each other, laws can break that hold when scrapes are single
steps. For each the finer model tells what one move has to find, no more and no less; along a run the law holds all the
time exactly when every such move finds it:

| law | broken by | what it needs |
|---|---|---|
| a scrape was handed out before its node was last dropped | `cmd/app/main.go:162` | the node is monitored when it is handed out (`Guards.InTimeExactly`) |
| a series on an unmonitored node comes from such a scrape | `cmd/app/main.go:103-104`, `cmd/app/main.go:129-131` | each publication that has something to set belongs to such a scrape (`Guards.SeriesInTimeExactly`) |
| unmonitored nodes have no series | `cmd/app/main.go:103-104`, `cmd/app/main.go:129-131` | the node is monitored at each publication that has something to set (`Guards.SilentExactly`) |
| unmonitored nodes have no tracker | `cmd/app/main.go:88` | the node is monitored when its answer comes (`Guards.TrackersMonitoredExactly`) |
| pod series have a tracked pod | `cmd/app/main.go:104` | the node's tracker counts the pod at each publication that has something to set (`Guards.NothingUntrackedExactly`) |

The last one is not covered by checking that the node is monitored: with two overlapping rounds a failed query can drop
the tracker and a ready event bring the node back before an older scrape publishes (`Overlaps.UntrackedReachable`), and
then no later miss of the node's own scrapes removes the series: misses remove a series exactly if the tracker counts
its pod, once they reach the tolerance (`Overlaps.AgedOutExactly`). What holds without any check
is that a series left on an unmonitored node comes from a snapshot taken before the node was last dropped
(`Interleaving.LeftoversPredateDrop`).

## Model

| member | source | states |
|---|---|---|
| Series.GaugeStore.DeletePartialMatch | pkg/pod/metrics.go:556-579 | deletes from one vector exactly the series whose labels extend the given ones |
| Tracker.SweepAnyOrder | pkg/pod/metrics.go:640-651 | every visiting order of the tracker map gives the same counts and the same evicted names |
| Tracker.SweepSoFar | pkg/pod/metrics.go:640-651 | part way through the loop exactly the visited keys have been incremented or evicted |
| Tracker.CountsAreAges | pkg/pod/metrics.go:621-623 | a pod's count is the number of scrapes since the latest that reported it, and it is tracked only while that is below the tolerance |
| Tracker.GivenUpAfterTolerance | pkg/pod/metrics.go:617-623 | a name is evicted exactly by the scrape that misses it for the tolerance-th time in a row |
| Tracker.TracksRecentNames | pkg/pod/metrics.go:627-652 | the tracked names are the union of the names of the last tolerance scrapes |
| PodSpecs.SizeOfExact | pkg/pod/k8s.go:166-176 | the recorded size is that of the last emptyDir volume of the name, 0 without a limit |
| PodSpecs.MountedVolumesExact | pkg/pod/k8s.go:178-187 | a container keeps exactly its mounts of emptyDir volumes, each with the volume's size |
| PodSpecs.RecordedAllExact | pkg/pod/k8s.go:66-68 | after a list of pods a name's entry is that of the last Running pod of the name in the list, or as before |
| PodMetrics.VolumeWritesExact | pkg/pod/metrics.go:428-475 | the triple loop sets a series exactly for a cached mount whose volume is listed, with the last listed volume's value |
| PodMetrics.LimitWritesExact | pkg/pod/metrics.go:477-500 | the limit loop sets one series per container and source, from its own limit or from the node |
| PodMetrics.FsWritesExact | pkg/pod/metrics.go:502-536 | the rootfs and logs loops set each series from the last stats of the container that provide it |
| PodMetrics.PodWritesExact | pkg/pod/metrics.go:416-553 | publishing a record gives every series of all gauges exactly the stated value, and touches no other |
| PodMetrics.PodWritesStayHome | pkg/pod/metrics.go:416-553 | a record writes only pod gauges, and only under its own pod, namespace and node |
| PodCollector.Collector.EvictPodByName | pkg/pod/metrics.go:556-587 | removes the series with the pod name from all 21 vectors, in every namespace and on every node, and nothing else |
| PodCollector.Collector.EvictPodByNode | pkg/pod/metrics.go:590-615 | removes the node's tracker and its series in all 21 vectors, and nothing else |
| PodCollector.Collector.EvictStalePods | pkg/pod/metrics.go:627-652 | evicts exactly the stale names and moves only this node's counts, whatever the iteration order |
| PodCollector.Collector.SweepTracker | pkg/pod/metrics.go:640-651 | the range loop visits every key present at its start once and evicts as it goes |
| PodCollector.Collector.SetMetrics | pkg/pod/metrics.go:416-553 | the loops make exactly the writes of the record, on top of what was there |
| PodCollector.Collector.GetContainerData | pkg/pod/k8s.go:157-201 | indexing the volumes and filtering the mounts yields the specified container data |
| PodCollector.Collector.GetPodData | pkg/pod/k8s.go:34-46 | a Running pod replaces its name's entry; any other phase changes nothing |
| PodCollector.Collector.ListPods | pkg/pod/k8s.go:52-64 | accumulates the items of all pages up to the first without a continue token |
| PodCollector.Collector.InitGetPodsData | pkg/pod/k8s.go:48-71 | the initial list records every listed pod in order |
| PodCollector.Collector.OnPodDeleted | pkg/pod/k8s.go:112-132 | a delete clears the cache entry and the series of the name, and leaves the trackers |
| NodeMonitor.CheckKubeletStatus | pkg/node/k8s.go:34-42 | true exactly if some condition has the reason KubeletReady |
| NodeMonitor.Node.Evict | pkg/node/metrics.go:95-107 | the node leaves the set with all its series and its tracker; its endpoint stays |
| NodeMonitor.Node.Query | pkg/node/k8s.go:44-97 | a query succeeds exactly if it can be sent and is answered; it can be sent without an endpoint only by a DaemonSet or through the API server; a failed one evicts the node |
| NodeMonitor.Node.OnNodeUpdated | pkg/node/k8s.go:128-141 | a ready node is monitored again and its endpoint stored; otherwise nothing changes |
| NodeMonitor.Node.OnNodeDeleted | pkg/node/k8s.go:142-162 | a deleted node is evicted and its endpoint forgotten |
| Figures.GaugesShowFigures | pkg/pod/metrics.go:416-553 | over every run each series of the 24 gauges that records set shows the figure that the latest record with one gives, by gauge, labels, field and setting, and exists exactly if nothing cleared it since |
| Figures.RateShowsAdjustment | cmd/app/main.go:125-131 | over every run the polling-rate series shows the adjustment of the node's latest scrape since it was dropped, if enabled |
| Figures.ManifestExact | pkg/pod/k8s.go:34-46 | the cache holds the data of the latest manifest in phase Running under a name, unless the pod was deleted since |
| Figures.CountedExactly | cmd/app/main.go:99-104 | a record sets the pod's usage exactly if it has a namespace and one of its six figures is not zero |
| Figures.UncountedSetsNothing | cmd/app/main.go:99-102 | any other record leaves every pod and node storage series as the eviction of stale pods left it |
| Figures.RootfsGaugesShow | pkg/pod/metrics.go:502-518 | the six rootfs byte and inode gauges of a container show, each by name, their own field of its latest stats entry |
| Figures.LogsGaugesShow | pkg/pod/metrics.go:520-536 | the six logs byte and inode gauges of a container show, each by name, their own field of its latest stats entry |
| Figures.ContainerPercentagesShow | pkg/pod/metrics.go:509-529 | the two percentages show used over capacity of that entry, times 100, if it has a capacity |
| Figures.VolumeLimitIsShare | pkg/pod/metrics.go:448-475 | over every run a volume-limit percentage times the size limit is 1.024 times the listed volume's used bytes times 100, up to the limit, and 100 beyond it |
| Figures.ContainerLimitIsShare | pkg/pod/metrics.go:477-500 | over every run a container-limit percentage from the container is that share of the limit under "ephemeral-storage" in its latest Running manifest |
| Exporter.SummaryWritesExact | cmd/app/main.go:90-105 | a summary gives a series the value of the last record not skipped that sets it |
| Exporter.App.SetMetricsFromSummary | cmd/app/main.go:77-108 | an undecodable summary changes nothing; a decoded one evicts stale pods, then publishes every record not skipped |
| Exporter.App.SetMetrics | cmd/app/main.go:110-132 | one node: a failed query drops it, an undecodable answer changes nothing, any other answer is published; the log gains that event |
| Exporter.App.Round | cmd/app/main.go:158-163 | a round run one node after the other handles each monitored node once, in some order, each with the event its outcome and its endpoint lead to |
| Exporter.App.Handle | cmd/app/main.go:110-132 | for every event the code makes exactly the model's step |
| Runs.StepEffect | cmd/app/main.go:83-105 | the effect of any event on any series: cleared first, then set, otherwise unchanged |
| Runs.ScrapeEffect | cmd/app/main.go:77-108 | after a scrape a series has its last record's value, or is gone if its pod was given up, or is as before |
| Runs.NodeGaugesAfterScrape | pkg/node/metrics.go:72-93 | the node gauges hold the last published record's figures, or are unchanged if none was published |
| Runs.Reachable | pkg/pod/metrics.go:590-652 | in every reachable state unmonitored nodes have no series and no tracker, and every pod series has a tracked pod below the tolerance |
| Runs.TrackerFollowsLog | pkg/pod/metrics.go:627-652 | a node's tracker is the replay of its scrapes since it was last dropped |
| Runs.CountsFollowLog | pkg/pod/metrics.go:627-652 | over whole runs, counts are ages and tracked names are the recent names |
| GaugeHistory.SeriesFollowLog | pkg/pod/metrics.go:556-652 | every series holds what the latest event to set it gave it, and exists exactly if nothing cleared it since |
| GaugeHistory.SeriesFollowRecords | cmd/app/main.go:83-105 | the same for pod and node series, in terms of published records |
| GaugeHistory.UsageFollowsLog | pkg/pod/metrics.go:538-543 | the pod-usage series is the used bytes of the latest published record not cleared since |
| GaugeHistory.PercentageFollowsLog | pkg/pod/metrics.go:509-511 | a rootfs or logs percentage is that of the latest published record with a positive capacity |
| GaugeHistory.EntryFollowsLog | pkg/pod/metrics.go:502-536 | over whole runs a rootfs or logs byte series or percentage holds the figure of the stats entry that set it last, and exists exactly if nothing cleared it since |
| GaugeHistory.PercentageAgreesExactly | pkg/pod/metrics.go:506-511 | in every state percentage, used bytes and capacity were set last by one and the same stats entry exactly when the capacity shown is positive |
| GaugeHistory.PercentageOfBytes | pkg/pod/metrics.go:509-511 | if the capacity shown is positive, the percentage shown is the used bytes shown over it, times 100 |
| GaugeHistory.PercentageNeverAlone | pkg/pod/metrics.go:506-511 | a percentage is never shown without the byte series beside it |
| GaugeHistory.PercentageLeftBehind | pkg/pod/metrics.go:502-536 | the other case of `PercentageAgreesExactly` occurs: a log after which the capacity shown is not positive and the percentage is that of an older record |
| CacheHistory.CacheFollowsLog | pkg/pod/k8s.go:103-132 | a cache entry is the data of the latest Running pod of the name since its last delete |
| CacheHistory.VolumeJoin | pkg/pod/k8s.go:163-191 | from manifest to series: a volume series is set exactly for an emptyDir mount whose volume is listed, with its size limit where a limit is needed |
| CacheHistory.VolumeFollowsLog | pkg/pod/metrics.go:428-475 | over whole runs a volume series holds the used bytes, or their share of the size limit, from the latest record that listed a volume mounted by the pod's latest Running manifest of the time, and exists exactly if nothing cleared it since |
| CacheHistory.NoJoinWithoutWatcher | pkg/pod/factory.go:88-92 | with both limit percentages disabled there is never a volume or container-limit series |
| CacheHistory.VolumeReachable | pkg/pod/factory.go:88-92 | a volume series can be shown in some run exactly if its flag is on and the pod watch runs, under a namespace, and by a DaemonSet on its own node |
| CacheHistory.LimitReachable | pkg/pod/metrics.go:477-500 | a container-limit series can be shown in some run exactly if its flag is on and its source is the container or the node |
| Lifecycle.BoundedStaleness | pkg/pod/metrics.go:617-652 | once tolerance scrapes of a node have missed a pod, no gauge shows the pod there until a scrape reports it |
| Lifecycle.DroppedUntilReady | pkg/node/k8s.go:87-93 | from a failed query or delete until a ready event, nothing of the node is shown |
| Lifecycle.ReadyRestarts | pkg/node/k8s.go:128-141 | a ready event restores the node, to be scraped exactly if it gives the endpoint that is needed, and miss counting restarts from an empty tracker |
| Lifecycle.DaemonSetNeverRecovers | pkg/node/factory.go:94-100 | as a DaemonSet whose scrapes are single steps, after the first failed query every later state is empty |
| Lifecycle.OnlyMonitoredQueried | pkg/node/k8s.go:52-66 | when scrapes are single steps, a node is queried only while monitored, and answers only with a non-empty endpoint where one is needed |
| Lifecycle.MonitoredFollowsLog | pkg/node/k8s.go:115-162 | a node is monitored exactly if a report with the reason KubeletReady made it so, or a DaemonSet started with it, and no failed query or delete dropped it since |
| Lifecycle.EndpointsFollowLog | pkg/node/k8s.go:115-162 | the endpoint kept for a node is that of its latest ready report since its last delete |
| Lifecycle.MonitoredHaveEndpoints | pkg/node/k8s.go:115-162 | in a Deployment scraping kubelets every monitored node has an endpoint between events |
| Percentages.ShareOfLimitMeaning | pkg/pod/metrics.go:465-466 | up to the limit the percentage times the limit is 1.024 times the used bytes times 100, beyond it it is 100; so it is in [0, 100], 100 exactly with the limit, and grows with the used bytes |
| Percentages.ShareOfNodeMeaning | pkg/node/metrics.go:85-88 | a node percentage is NaN exactly without capacity; otherwise times the capacity it is the part not available times 100, and 0 if more than the capacity is available |
| Percentages.ClampedPercentages | pkg/pod/metrics.go:477-500 | in every reachable state the clamped percentages are NaN or in [0, 100], and NaN exactly if the latest record came without a capacity and the percentage is the node's or a container's without a limit |
| EmptyRecords.RecordSetsNothingExactly | cmd/app/main.go:103-104 | a record sets no series at all exactly if no enabled gauge finds anything in it and in the cached containers |
| Rounds.ExchangeExactly | cmd/app/main.go:158-163 | two round events on different nodes commute exactly when neither clears what the other sets |
| Rounds.InterferesByName | pkg/pod/metrics.go:640-651 | one event clears what another sets exactly when it gives up a pod name under which the other publishes something |
| Rounds.AnyOrder | cmd/app/main.go:158-163 | any permutation of an independent round ends in the same state |
| Rounds.AnyOrderExactly | cmd/app/main.go:158-163 | all permutations of a round end in the same state exactly when no scrape of it gives up a name that another publishes |
| Rounds.DisjointRoundAnyOrder | cmd/app/main.go:158-163 | nodes that share no tracked or reported pod name may be scraped in any order |
| Rounds.SharedNameOrderMatters | pkg/pod/metrics.go:645 | with a shared name the order decides whether the series survives |
| Rounds.SharedNameReachable | pkg/pod/metrics.go:640-651 | such a round is reached for every tolerance: one node reports a pod and then misses it, the other reports it in the round that gives it up |
| Interleaving.LeftoversPredateDrop | cmd/app/main.go:158-163 | under any interleaving a series on an unmonitored node was set by a scrape whose snapshot is older than the node's latest drop |
| Interleaving.RoundHandsOutAll | cmd/app/main.go:158-163 | from one snapshot to the next exactly the nodes of the first are handed out, each once |
| Interleaving.EndsOnce | cmd/app/main.go:110-132 | once a scrape has finished, failed or been garbled, no later move of a run is its own |
| Interleaving.NoEndpointNoAnswer | pkg/node/k8s.go:60-62 | in a Deployment scraping kubelets a scrape whose node was deleted before its query was sent never gets an answer unless the node is reported ready again |
| Interleaving.UninterruptedIsAtomic | cmd/app/main.go:110-132 | a scrape that nothing interrupts makes the atomic step |
| Guards.InvokeExactly | cmd/app/main.go:162 | handing a node out keeps invocations ahead of drops exactly when the node is monitored at that moment |
| Guards.InTimeExactly | cmd/app/main.go:159-163 | along a run no scrape is handed out after its node was dropped, exactly when every node handed out was monitored |
| Guards.LeftoversInvokedBeforeDrop | cmd/app/main.go:159-163 | with that check, a series on an unmonitored node was set by a scrape handed out before the node's latest drop |
| Guards.SeriesInTimeExactly | cmd/app/main.go:103-131 | along a run every series left on an unmonitored node was set by a scrape handed out before the drop, exactly when every publication that had something to set came from such a scrape |
| Guards.QuietExactly | cmd/app/main.go:99-131 | a publication keeps unmonitored nodes silent exactly when its node is monitored or, by the skip rule and the flags, it has nothing to set |
| Guards.SilentExactly | cmd/app/main.go:103-131 | along a run unmonitored nodes are silent all the time exactly when every publication is such |
| Guards.TrackersMonitoredExactly | cmd/app/main.go:88 | along a run unmonitored nodes have no tracker exactly when every answer comes while its node is monitored, because the answer makes the tracker |
| Guards.TrackedExactly | cmd/app/main.go:104 | publishing a record leaves no untracked series exactly when the pod is tracked on the node or there is nothing to set |
| Guards.NothingUntrackedExactly | cmd/app/main.go:104 | the same along a run |
| Guards.InvExactly | cmd/app/main.go:83-105 | all invariants of the atomic model hold along an interleaved run exactly when every answer and publication finds what these laws need |
| Overlaps.InvokedAfterDropReachable | cmd/app/main.go:158-163 | a scrape can be handed out after its node was dropped and bring its series back: a run that shows it in any Deployment |
| Overlaps.UntrackedReachable | cmd/app/main.go:77-108 | a run in which every answer and publication finds its node monitored, and still a pod series is left untracked |
| Overlaps.AgedOutExactly | pkg/pod/metrics.go:640-651 | scrapes of its node that miss a pod remove its series exactly if the tracker counts the pod and its count and they together reach the tolerance; until then the series keeps its value |
| DaemonSets.SilentAfterFailureExactly | pkg/node/k8s.go:87-93 | after a failed query a DaemonSet shows nothing exactly as long as no other scrape is answered and none publishes anything |
| DaemonSets.LoneFailureIsFinal | pkg/node/k8s.go:87-93 | a failed query silences a DaemonSet for good if no other scrape is waiting or under way |
| DaemonSets.IdleForGood | pkg/node/factory.go:94-100 | once a DaemonSet monitors nothing and scrapes nothing, it stays so, and its series go exactly with the reported deletion of their pod |
| DaemonSets.BackForGood | cmd/app/main.go:158-163 | a run with a failed query that ends so, with a series set by a scrape handed out after the failure |

## Left out

- Interleaving.LeftoversPredateDrop: speaks of the snapshot behind a scrape, not of the moment it was handed to a
  worker, because for that moment the statement is false (`Overlaps.InvokedAfterDropReachable`); `Guards.InTimeExactly`
  and `Guards.LeftoversInvokedBeforeDrop` give the condition under which it is true.
- Lifecycle.DaemonSetNeverRecovers: assumes that scrapes are single steps; with overlapping scrapes it is false
  (`DaemonSets.BackForGood`), and `DaemonSets.SilentAfterFailureExactly` says exactly when a failed query is final.
- Exporter.App.Round: runs the nodes of a round one after the other, with nothing in between; the code hands them to
  concurrent workers, which only `Interleaving.dfy` models.
- Interleaving within an eviction or within one record: in the finer model `EvictStalePods` is one step, and so is the
  publication of one record. A tracker dropped while a sweep still holds it is not represented, because trackers are
  values in a map and are not shared; nor are the mutexes.
- `SetMetrics` and the two evictions are split into methods by section; the order of their writes and deletes is kept.
- JSON decoding: a summary is given decoded, or not at all.
- Queries, retries, the worker pool and its size: a query that can be sent succeeds or fails, as the environment
  chooses. Of several attempts only the last looks up the endpoint.
- Kubernetes lists, watches and tombstones: their outcomes are events. The paged list is a sequence of pages.
- Deriving the kubelet endpoint from a node's addresses and port: the endpoint is a given string.
- Quantities and floating point: limits and sizes are given reals, arithmetic is exact, NaN is a value of its own.
- The adjusted polling time: a given number, written to one more node gauge.
- Metric registration, help texts, the text format, HTTP servers, probes, profiling and logging.
- Clocks, sampling interval and the initial wait for the pod list.
- Reading settings from the environment, except that a tolerance below 1 becomes 2.
