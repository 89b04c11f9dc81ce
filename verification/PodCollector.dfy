/** The pod collector: the trackers and the pod-spec cache it keeps, and every method that changes them or the
    pod gauges. */
module PodCollector {
  import opened Sequences
  import opened Series
  import opened Settings
  import opened PodSpecs
  import opened PodMetrics
  import Tracker

  type Trackers = map<string, Tracker.Counts>

  function CountsOf(trackers: Trackers, node: string): Tracker.Counts {
    if node in trackers then trackers[node] else map[]
  }

  function Names(pods: seq<string>): set<string> {
    set p | p in pods
  }

  class Collector {
    const cfg: Config
    const gauges: GaugeStore
    var nodeTrackers: Trackers
    var lookup: Lookup

    constructor (cfg: Config, gauges: GaugeStore)
      ensures this.cfg == cfg && this.gauges == gauges && nodeTrackers == map[] && lookup == map[]
    {
      this.cfg := cfg;
      this.gauges := gauges;
      nodeTrackers := map[];
      lookup := map[];
    }

    // ---- Eviction ----

    /** The fourteen vectors that both evictions delete from in the same order, in two blocks of the list. */
    method DeleteFilesystemSeries(labels: Labels)
      modifies gauges
      ensures forall k {:trigger Get(gauges.samples, k)} ::
                Get(gauges.samples, k) ==
                if k.gauge.OfFilesystem() && k.labels.Extends(labels) then None else Get(old(gauges.samples), k)
    {
      hide Get, Labels.Extends;
      gauges.DeletePartialMatch(RootfsUsed, labels);
      gauges.DeletePartialMatch(RootfsAvailable, labels);
      gauges.DeletePartialMatch(RootfsCapacity, labels);
      gauges.DeletePartialMatch(LogsUsed, labels);
      gauges.DeletePartialMatch(LogsAvailable, labels);
      gauges.DeletePartialMatch(LogsCapacity, labels);
      gauges.DeletePartialMatch(RootfsPercentage, labels);
      gauges.DeletePartialMatch(LogsPercentage, labels);
    }

    method DeleteContainerInodeSeries(labels: Labels)
      modifies gauges
      ensures forall k {:trigger Get(gauges.samples, k)} ::
                Get(gauges.samples, k) ==
                if k.gauge.OfContainerInodes() && k.labels.Extends(labels) then None else Get(old(gauges.samples), k)
    {
      hide Get, Labels.Extends;
      gauges.DeletePartialMatch(RootfsInodes, labels);
      gauges.DeletePartialMatch(RootfsInodesFree, labels);
      gauges.DeletePartialMatch(RootfsInodesUsed, labels);
      gauges.DeletePartialMatch(LogsInodes, labels);
      gauges.DeletePartialMatch(LogsInodesFree, labels);
      gauges.DeletePartialMatch(LogsInodesUsed, labels);
    }

    /** Every pod-gauge series with this pod name goes, in every namespace and on every node; nothing else does. */
    method EvictPodByName(podName: string)
      modifies gauges
      ensures gauges.samples == WithoutPods(old(gauges.samples), {podName})
    {
      hide WithoutPods, Get, Labels.Extends, Gauge.OfFilesystem, Gauge.OfContainerInodes;
      var labels := PodNamed(podName);
      gauges.DeletePartialMatch(PodUsage, labels);
      gauges.DeletePartialMatch(Inodes, labels);
      gauges.DeletePartialMatch(InodesFree, labels);
      gauges.DeletePartialMatch(InodesUsed, labels);
      DeleteFilesystemSeries(labels);
      DeleteContainerInodeSeries(labels);
      gauges.DeletePartialMatch(VolumeUsage, labels);
      gauges.DeletePartialMatch(LimitPercentage, labels);
      gauges.DeletePartialMatch(VolumeLimitPercentage, labels);
      ClearedByName(old(gauges.samples), gauges.samples, podName);
    }

    /** Every pod-gauge series of the node goes, and the node's tracker with them. */
    method EvictPodByNode(node: string)
      modifies this`nodeTrackers, gauges
      ensures nodeTrackers == old(nodeTrackers) - {node}
      ensures forall k {:trigger Get(gauges.samples, k)} ::
                Get(gauges.samples, k) == if k.gauge.OfPods() && k.OfNode(node) then None
                    else Get(old(gauges.samples), k)
    {
      hide Get, Labels.Extends, Gauge.OfFilesystem, Gauge.OfContainerInodes;
      nodeTrackers := nodeTrackers - {node};
      var labels := NodeNamed(node);
      gauges.DeletePartialMatch(PodUsage, labels);
      gauges.DeletePartialMatch(VolumeUsage, labels);
      gauges.DeletePartialMatch(LimitPercentage, labels);
      gauges.DeletePartialMatch(VolumeLimitPercentage, labels);
      DeleteFilesystemSeries(labels);
      DeleteContainerInodeSeries(labels);
      gauges.DeletePartialMatch(Inodes, labels);
      gauges.DeletePartialMatch(InodesFree, labels);
      gauges.DeletePartialMatch(InodesUsed, labels);
      ClearedByNode(old(gauges.samples), gauges.samples, node);
    }

    /** One scrape of a node has reported `currentPods`.  The range loop may visit the tracked names in any order;
        the outcome is the same: exactly the stale names lose their series, and only this node's counts move. */
    method EvictStalePods(node: string, currentPods: seq<string>)
      modifies this`nodeTrackers, gauges
      ensures nodeTrackers == old(nodeTrackers)[node :=
          Tracker.Next(CountsOf(old(nodeTrackers), node), Names(currentPods), cfg.scrapeMissTolerance)]
      ensures gauges.samples == WithoutPods(old(gauges.samples),
                Tracker.Stale(CountsOf(old(nodeTrackers), node), Names(currentPods), cfg.scrapeMissTolerance))
    {
      hide WithoutPods, Tracker.Next, Tracker.Stale, Tracker.VisitAll, Names;
      ghost var counts := CountsOf(nodeTrackers, node);
      var currentSet := MarkPresent(node, currentPods);
      var order := SweepTracker(node, currentSet);
      Tracker.SweepAnyOrder(counts, order, currentSet, cfg.scrapeMissTolerance);
    }

    /** The first loop of `EvictStalePods`: every reported name is back to zero misses. */
    method MarkPresent(node: string, currentPods: seq<string>) returns (currentSet: set<string>)
      modifies this`nodeTrackers
      ensures currentSet == Names(currentPods)
      ensures nodeTrackers == old(nodeTrackers)[node := Tracker.Reset(CountsOf(old(nodeTrackers), node), currentSet)]
    {
      hide Names, Tracker.Reset;
      ghost var counts := CountsOf(nodeTrackers, node);
      if node !in nodeTrackers {
        nodeTrackers := nodeTrackers[node := map[]];
      }
      currentSet := {};
      ResetNone(counts, currentPods);
      for i := 0 to |currentPods|
        invariant currentSet == Names(currentPods[..i])
        invariant node in nodeTrackers
        invariant nodeTrackers == old(nodeTrackers)[node := Tracker.Reset(counts, currentSet)]
      {
        ResetOne(counts, currentPods, i);
        currentSet := currentSet + {currentPods[i]};
        var lastSeen: Tracker.Counts := nodeTrackers[node][currentPods[i] := 0];
        nodeTrackers := nodeTrackers[node := lastSeen];
      }
      assert currentPods[..|currentPods|] == currentPods;
    }

    /** The range loop of `EvictStalePods`: it visits every key present at its start once, in some order. */
    method SweepTracker(node: string, currentSet: set<string>) returns (ghost visited: seq<string>)
      requires node in nodeTrackers
      modifies this`nodeTrackers, gauges
      ensures Tracker.Distinct(visited)
      ensures forall p :: p in visited <==> p in old(nodeTrackers)[node]
      ensures var swept := Tracker.VisitAll(Tracker.Sweep(old(nodeTrackers)[node], {}), visited, currentSet,
          cfg.scrapeMissTolerance);
              && nodeTrackers == old(nodeTrackers)[node := swept.counts]
              && gauges.samples == WithoutPods(old(gauges.samples), swept.evicted)
    {
      hide WithoutPods, Tracker.VisitAll, Tracker.Distinct;
      visited := [];
      var ahead := nodeTrackers[node].Keys;
      ghost var start := Tracker.Sweep(nodeTrackers[node], {});
      Tracker.VisitNone(start, currentSet, cfg.scrapeMissTolerance);
      WithoutNoPods(gauges.samples);
      while ahead != {}
        invariant node in nodeTrackers
        invariant Tracker.Distinct(visited)
        invariant forall p :: p in visited <==> p in start.counts && p !in ahead
        invariant forall p | p in ahead :: p in nodeTrackers[node]
        invariant nodeTrackers == old(nodeTrackers)[node :=
            Tracker.VisitAll(start, visited, currentSet, cfg.scrapeMissTolerance).counts]
        invariant gauges.samples == WithoutPods(old(gauges.samples),
            Tracker.VisitAll(start, visited, currentSet, cfg.scrapeMissTolerance).evicted)
        decreases ahead
      {
        var podName :| podName in ahead;
        ahead := ahead - {podName};
        ghost var swept := Tracker.VisitAll(start, visited, currentSet, cfg.scrapeMissTolerance);
        Tracker.VisitOneMore(start, visited, podName, currentSet, cfg.scrapeMissTolerance);
        var misses: nat := nodeTrackers[node][podName];
        if podName !in currentSet {
          misses := misses + 1;
          if misses >= cfg.scrapeMissTolerance {
            EvictPodByName(podName);
            WithoutPodsTwice(old(gauges.samples), swept.evicted, {podName});
            var lastSeen: Tracker.Counts := nodeTrackers[node] - {podName};
            nodeTrackers := nodeTrackers[node := lastSeen];
          } else {
            var lastSeen: Tracker.Counts := nodeTrackers[node][podName := misses];
            nodeTrackers := nodeTrackers[node := lastSeen];
          }
        }
        visited := visited + [podName];
      }
    }

    // ---- Publishing ----

    method SetVolumeUsage(w: Place, cs: seq<Container>, volumes: seq<Volume>)
      modifies gauges
      ensures gauges.samples == Merge(old(gauges.samples),
          When(cfg.containerVolumeUsage, VolumeWrites(VolumeUsage, w, cs, volumes)))
    {
      hide Merge, One;
      ghost var s0 := gauges.samples;
      MergeNothing(s0);
      if !cfg.containerVolumeUsage {
        return;
      }
      for i := 0 to |cs|
        invariant gauges.samples == Merge(s0, VolumeWrites(VolumeUsage, w, cs[..i], volumes))
      {
        PrefixStep(cs, i);
        var ms := cs[i].emptyDirVolumes;
        ghost var s1 := gauges.samples;
        MergeNothing(s1);
        for j := 0 to |ms|
          invariant gauges.samples == Merge(s1, MountWrites(VolumeUsage, w, cs[i].name, ms[..j], volumes))
        {
          PrefixStep(ms, j);
          ghost var s2 := gauges.samples;
          MergeNothing(s2);
          for l := 0 to |volumes|
            invariant gauges.samples == Merge(s2, MatchWrites(VolumeUsage, w, cs[i].name, ms[j], volumes[..l]))
          {
            PrefixStep(volumes, l);
            MergeNothing(MatchWrites(VolumeUsage, w, cs[i].name, ms[j], volumes[..l]));
            if ms[j].name == volumes[l].name {
              var labels := VolumeLabels(w, cs[i].name, volumes[l].name, ms[j].mountPath);
              var setValue := Real(volumes[l].usedBytes as real);
              gauges.Set(VolumeUsage, labels, setValue);
              MergeTwice(s2, MatchWrites(VolumeUsage, w, cs[i].name, ms[j], volumes[..l]),
                  One(VolumeUsage, labels, setValue));
            }
          }
          assert volumes[..|volumes|] == volumes;
          MergeTwice(s1, MountWrites(VolumeUsage, w, cs[i].name, ms[..j], volumes),
              MatchWrites(VolumeUsage, w, cs[i].name, ms[j], volumes));
        }
        assert ms[..|ms|] == ms;
        MergeTwice(s0, VolumeWrites(VolumeUsage, w, cs[..i], volumes),
            MountWrites(VolumeUsage, w, cs[i].name, ms, volumes));
      }
      assert cs[..|cs|] == cs;
    }

    method SetVolumeLimits(w: Place, cs: seq<Container>, volumes: seq<Volume>)
      modifies gauges
      ensures gauges.samples == Merge(old(gauges.samples),
          When(cfg.containerVolumeLimitsPercentage, VolumeWrites(VolumeLimitPercentage, w, cs, volumes)))
    {
      hide Merge, One;
      ghost var s0 := gauges.samples;
      MergeNothing(s0);
      if !cfg.containerVolumeLimitsPercentage {
        return;
      }
      for i := 0 to |cs|
        invariant gauges.samples == Merge(s0, VolumeWrites(VolumeLimitPercentage, w, cs[..i], volumes))
      {
        PrefixStep(cs, i);
        var ms := cs[i].emptyDirVolumes;
        ghost var s1 := gauges.samples;
        MergeNothing(s1);
        for j := 0 to |ms|
          invariant gauges.samples == Merge(s1, MountWrites(VolumeLimitPercentage, w, cs[i].name, ms[..j], volumes))
        {
          PrefixStep(ms, j);
          MergeNothing(MountWrites(VolumeLimitPercentage, w, cs[i].name, ms[..j], volumes));
          if ms[j].sizeLimit != 0.0 {
            ghost var s2 := gauges.samples;
            MergeNothing(s2);
            for l := 0 to |volumes|
              invariant gauges.samples == Merge(s2,
                  MatchWrites(VolumeLimitPercentage, w, cs[i].name, ms[j], volumes[..l]))
            {
              PrefixStep(volumes, l);
              MergeNothing(MatchWrites(VolumeLimitPercentage, w, cs[i].name, ms[j], volumes[..l]));
              if ms[j].name == volumes[l].name {
                var labels := VolumeLabels(w, cs[i].name, volumes[l].name, ms[j].mountPath);
                var usedBiBytes := volumes[l].usedBytes as real * 1.024;
                var setValue := Real(Min(usedBiBytes / ms[j].sizeLimit * 100.0, 100.0));
                gauges.Set(VolumeLimitPercentage, labels, setValue);
                MergeTwice(s2, MatchWrites(VolumeLimitPercentage, w, cs[i].name, ms[j], volumes[..l]),
                    One(VolumeLimitPercentage, labels, setValue));
              }
            }
            assert volumes[..|volumes|] == volumes;
            MergeTwice(s1, MountWrites(VolumeLimitPercentage, w, cs[i].name, ms[..j], volumes),
                MatchWrites(VolumeLimitPercentage, w, cs[i].name, ms[j], volumes));
          }
        }
        assert ms[..|ms|] == ms;
        MergeTwice(s0, VolumeWrites(VolumeLimitPercentage, w, cs[..i], volumes),
            MountWrites(VolumeLimitPercentage, w, cs[i].name, ms, volumes));
      }
      assert cs[..|cs|] == cs;
    }

    method SetLimits(w: Place, cs: seq<Container>, r: PodRecord)
      modifies gauges
      ensures gauges.samples == Merge(old(gauges.samples), When(cfg.containerLimitsPercentage, LimitWrites(w, cs, r)))
    {
      hide Merge, One;
      ghost var s0 := gauges.samples;
      MergeNothing(s0);
      if !cfg.containerLimitsPercentage {
        return;
      }
      for i := 0 to |cs|
        invariant gauges.samples == Merge(s0, LimitWrites(w, cs[..i], r))
      {
        PrefixStep(cs, i);
        var source, setValue := "node", NaN;
        if cs[i].limit != 0.0 {
          var usedBiBytes := r.usedBytes * 1.024;
          setValue := Real(Min(usedBiBytes / cs[i].limit * 100.0, 100.0));
          source := "container";
        } else if r.capacityBytes > 0.0 {
          setValue := Real(Max(r.capacityBytes - r.availableBytes, 0.0) * 100.0 / r.capacityBytes);
        }
        gauges.Set(LimitPercentage, LimitLabels(w, cs[i].name, source), setValue);
        MergeTwice(s0, LimitWrites(w, cs[..i], r), One(LimitPercentage, LimitLabels(w, cs[i].name, source), setValue));
      }
      assert cs[..|cs|] == cs;
    }

    /** The rootfs loop and the logs loop are the same loop over different vectors. */
    method SetFilesystem(fs: Filesystem, enabled: bool, w: Place, cs: seq<ContainerStats>)
      modifies gauges
      ensures gauges.samples == Merge(old(gauges.samples), When(enabled, FsWrites(fs, cfg.inodes, w, cs)))
    {
      hide Merge, StatsWrites;
      ghost var s0 := gauges.samples;
      MergeNothing(s0);
      if !enabled {
        return;
      }
      for i := 0 to |cs|
        invariant gauges.samples == Merge(s0, FsWrites(fs, cfg.inodes, w, cs[..i]))
      {
        PrefixStep(cs, i);
        SetContainerStats(fs, w, cs[i]);
        MergeTwice(s0, FsWrites(fs, cfg.inodes, w, cs[..i]), StatsWrites(fs, cfg.inodes, w, cs[i]));
      }
      assert cs[..|cs|] == cs;
    }

    method SetContainerStats(fs: Filesystem, w: Place, c: ContainerStats)
      modifies gauges
      ensures gauges.samples == Merge(old(gauges.samples), StatsWrites(fs, cfg.inodes, w, c))
    {
      hide Merge, One;
      ghost var s0 := gauges.samples;
      var labels, s := ContainerLabels(w, c.name), fs.StatsOf(c);
      gauges.Set(fs.Used(), labels, Real(s.usedBytes as real));
      gauges.Set(fs.Available(), labels, Real(s.availableBytes as real));
      gauges.Set(fs.Capacity(), labels, Real(s.capacityBytes as real));
      MergeThree(s0, One(fs.Used(), labels, Real(s.usedBytes as real)),
          One(fs.Available(), labels, Real(s.availableBytes as real)),
                 One(fs.Capacity(), labels, Real(s.capacityBytes as real)));
      ghost var s1 := gauges.samples;
      MergeNothing(s1);
      if s.capacityBytes > 0 {
        gauges.Set(fs.Percentage(), labels, Real(s.usedBytes as real / s.capacityBytes as real * 100.0));
      }
      MergeTwice(s0, ByteWrites(fs, labels, s), PercentageWrites(fs, labels, s));
      ghost var s2 := gauges.samples;
      MergeNothing(s2);
      if cfg.inodes {
        SetInodes(fs, labels, s);
      }
      MergeTwice(s0, Merge(ByteWrites(fs, labels, s), PercentageWrites(fs, labels, s)),
          When(cfg.inodes, FsInodeWrites(fs, labels, s)));
    }

    method SetInodes(fs: Filesystem, labels: Labels, s: FsStats)
      modifies gauges
      ensures gauges.samples == Merge(old(gauges.samples), FsInodeWrites(fs, labels, s))
    {
      hide Merge, One;
      gauges.Set(fs.InodesTotal(), labels, Real(s.inodes as real));
      gauges.Set(fs.InodesLeft(), labels, Real(s.inodesFree as real));
      gauges.Set(fs.InodesTaken(), labels, Real(s.inodesUsed as real));
      MergeThree(old(gauges.samples), One(fs.InodesTotal(), labels, Real(s.inodes as real)),
                 One(fs.InodesLeft(), labels, Real(s.inodesFree as real)),
                     One(fs.InodesTaken(), labels, Real(s.inodesUsed as real)));
    }

    method SetMetrics(node: string, r: PodRecord)
      modifies gauges
      ensures gauges.samples == Merge(old(gauges.samples), PodWrites(cfg, Containers(lookup, r.name), node, r))
    {
      hide Merge, When, VolumeWrites, LimitWrites, FsWrites, UsageWrites, InodeWrites;
      var w := PlaceOf(node, r);
      var cs := Containers(lookup, r.name);
      SetVolumeUsage(w, cs, r.volumes);
      SetVolumeLimits(w, cs, r.volumes);
      SetLimits(w, cs, r);
      SetFilesystem(Rootfs, cfg.containerRootfsUsage, w, r.containers);
      SetFilesystem(Logs, cfg.containerLogsUsage, w, r.containers);
      SetPodUsage(w, r);
      SetPodInodes(w, r);
      MergeSeven(
        old(gauges.samples),
        When(cfg.containerVolumeUsage, VolumeWrites(VolumeUsage, w, cs, r.volumes)),
        When(cfg.containerVolumeLimitsPercentage, VolumeWrites(VolumeLimitPercentage, w, cs, r.volumes)),
        When(cfg.containerLimitsPercentage, LimitWrites(w, cs, r)),
        When(cfg.containerRootfsUsage, FsWrites(Rootfs, cfg.inodes, w, r.containers)),
        When(cfg.containerLogsUsage, FsWrites(Logs, cfg.inodes, w, r.containers)),
        When(cfg.podUsage, UsageWrites(w, r)),
        When(cfg.inodes, InodeWrites(w, r)));
    }

    method SetPodUsage(w: Place, r: PodRecord)
      modifies gauges
      ensures gauges.samples == Merge(old(gauges.samples), When(cfg.podUsage, UsageWrites(w, r)))
    {
      hide Merge, One;
      MergeNothing(gauges.samples);
      if cfg.podUsage {
        gauges.Set(PodUsage, PodLabels(w), Real(r.usedBytes));
      }
    }

    method SetPodInodes(w: Place, r: PodRecord)
      modifies gauges
      ensures gauges.samples == Merge(old(gauges.samples), When(cfg.inodes, InodeWrites(w, r)))
    {
      hide Merge, One;
      MergeNothing(gauges.samples);
      if !cfg.inodes {
        return;
      }
      gauges.Set(Inodes, PodLabels(w), Real(r.inodes));
      gauges.Set(InodesFree, PodLabels(w), Real(r.inodesFree));
      gauges.Set(InodesUsed, PodLabels(w), Real(r.inodesUsed));
      MergeThree(old(gauges.samples), One(Inodes, PodLabels(w), Real(r.inodes)),
                 One(InodesFree, PodLabels(w), Real(r.inodesFree)), One(InodesUsed, PodLabels(w), Real(r.inodesUsed)));
    }

    // ---- The pod-spec cache ----

    method GetContainerData(c: ContainerSpec, p: PodObject) returns (r: Container)
      ensures r == ContainerData(cfg, c, p)
      ensures r.name == c.name
      ensures r.limit == if cfg.containerLimitsPercentage && "ephemeral-storage" in c.limits
          then c.limits["ephemeral-storage"] else 0.0
    {
      r := Container(c.name, 0.0, []);
      if cfg.containerVolumeUsage || cfg.containerVolumeLimitsPercentage {
        var collectMounts := false;
        var podMounts: map<string, real> := map[];
        for i := 0 to |p.volumes|
          invariant forall name :: Get(podMounts, name) == SizeOf(p.volumes[..i], name)
          invariant !collectMounts ==> podMounts == map[]
        {
          var v := p.volumes[i];
          if v.emptyDir.Some? {
            podMounts := podMounts[v.name := 0.0];
            collectMounts := true;
            if v.emptyDir.value.sizeLimit.Some? {
              podMounts := podMounts[v.name := v.emptyDir.value.sizeLimit.value];
            }
          }
          SizeOfStep(p.volumes, i);
        }
        assert p.volumes[..|p.volumes|] == p.volumes;
        if collectMounts {
          var collectVolumes: seq<Mounted> := [];
          for i := 0 to |c.mounts|
            invariant collectVolumes == MountedVolumes(c.mounts[..i], p.volumes)
          {
            if c.mounts[i].name in podMounts {
              collectVolumes := collectVolumes
                  + [Mounted(c.mounts[i].name, c.mounts[i].mountPath, podMounts[c.mounts[i].name])];
            }
            assert Get(podMounts, c.mounts[i].name) == SizeOf(p.volumes, c.mounts[i].name);
            PrefixStep(c.mounts, i);
          }
          assert c.mounts[..|c.mounts|] == c.mounts;
          r := r.(emptyDirVolumes := collectVolumes);
        } else {
          NothingMounted(c.mounts, p.volumes);
        }
      }
      if cfg.containerLimitsPercentage {
        var keys := c.limits.Keys;
        while keys != {}
          invariant r.limit == 0.0 && r.name == c.name
          invariant r.emptyDirVolumes == ContainerData(cfg, c, p).emptyDirVolumes
          invariant EPHEMERAL_STORAGE in c.limits ==> EPHEMERAL_STORAGE in keys
          invariant keys <= c.limits.Keys
          decreases keys
        {
          var key :| key in keys;
          keys := keys - {key};
          if key == EPHEMERAL_STORAGE {
            r := r.(limit := c.limits[key]);
            break;
          }
        }
      }
    }

    /** An update for a pod, or a pod of the initial list.  Only a Running pod is recorded. */
    method GetPodData(p: PodObject)
      modifies this`lookup
      ensures lookup == Recorded(cfg, old(lookup), p)
      ensures p.phase == "Running" ==> lookup == old(lookup)[p.name := PodData(cfg, p)]
      ensures p.phase != "Running" ==> lookup == old(lookup)
    {
      hide ContainerData;
      if p.phase == RUNNING {
        var collectContainers: seq<Container> := [];
        for i := 0 to |p.containers|
          invariant collectContainers == ContainersData(cfg, p.containers[..i], p)
          invariant lookup == old(lookup)
        {
          var c := GetContainerData(p.containers[i], p);
          collectContainers := collectContainers + [c];
          PrefixStep(p.containers, i);
        }
        assert p.containers[..|p.containers|] == p.containers;
        lookup := lookup[p.name := PodEntry(collectContainers)];
      }
    }

    /** The initial list, page after page.  The server's pages end with one that has no continue token; whatever
        `pages` holds after that one is never asked for. */
    method ListPods(pages: seq<Page>) returns (allPods: seq<PodObject>)
      requires exists i :: 0 <= i < |pages| && pages[i].continueToken == ""
      ensures allPods == Listed(pages)
    {
      hide Listed;
      allPods := [];
      var n := 0;
      assert pages[0..] == pages;
      while true
        invariant n < |pages|
        invariant exists i :: n <= i < |pages| && pages[i].continueToken == ""
        invariant Listed(pages) == allPods + Listed(pages[n..])
        decreases |pages| - n
      {
        ListedFrom(pages, n);
        allPods := allPods + pages[n].items;
        if pages[n].continueToken == "" {
          break;
        }
        n := n + 1;
      }
    }

    method InitGetPodsData(pages: seq<Page>)
      requires exists i :: 0 <= i < |pages| && pages[i].continueToken == ""
      modifies this`lookup
      ensures lookup == RecordedAll(cfg, old(lookup), Listed(pages))
    {
      hide Recorded;
      var allPods := ListPods(pages);
      for i := 0 to |allPods|
        invariant lookup == RecordedAll(cfg, old(lookup), allPods[..i])
      {
        PrefixStep(allPods, i);
        GetPodData(allPods[i]);
      }
      assert allPods[..|allPods|] == allPods;
    }

    /** A pod is gone: its cache entry and its series go.  The trackers are left as they are. */
    method OnPodDeleted(name: string)
      modifies this`lookup, gauges
      ensures lookup == old(lookup) - {name}
      ensures gauges.samples == WithoutPods(old(gauges.samples), {name})
    {
      lookup := lookup - {name};
      EvictPodByName(name);
    }
  }

  lemma MergeThree(s: Samples, a: Samples, b: Samples, c: Samples)
    ensures Merge(Merge(Merge(s, a), b), c) == Merge(s, Merge(Merge(a, b), c))
  {
    hide Merge;
    MergeTwice(s, a, b);
    MergeTwice(s, Merge(a, b), c);
  }

  lemma MergeSeven(s: Samples, a: Samples, b: Samples, c: Samples, d: Samples, e: Samples, f: Samples, g: Samples)
    ensures Merge(Merge(Merge(Merge(Merge(Merge(Merge(s, a), b), c), d), e), f), g)
         == Merge(s, Merge(Merge(Merge(Merge(Merge(Merge(a, b), c), d), e), f), g))
  {
    hide Merge;
    var abc := Merge(Merge(a, b), c);
    MergeThree(s, a, b, c);
    MergeThree(s, abc, d, e);
    MergeThree(s, Merge(Merge(abc, d), e), f, g);
  }

  /** The two eviction lists, group by group. */
  predicate InEvictionList(g: Gauge) {
    || g == PodUsage || g == Inodes || g == InodesFree || g == InodesUsed
    || g == VolumeUsage || g == LimitPercentage || g == VolumeLimitPercentage
    || g.OfFilesystem() || g.OfContainerInodes()
  }

  ghost predicate AllCleared(before: Samples, after: Samples, labels: Labels) {
    forall k :: Get(after, k) == if InEvictionList(k.gauge) && k.labels.Extends(labels) then None else Get(before, k)
  }

  lemma ClearedByName(before: Samples, after: Samples, pod: string)
    requires AllCleared(before, after, PodNamed(pod))
    ensures after == WithoutPods(before, {pod})
  {
    forall k ensures Get(after, k) == Get(WithoutPods(before, {pod}), k) {
    }
    SameSamples(after, WithoutPods(before, {pod}));
  }

  lemma ClearedByNode(before: Samples, after: Samples, node: string)
    requires AllCleared(before, after, NodeNamed(node))
    ensures forall k {:trigger Get(after, k)} ::
              Get(after, k) == if k.gauge.OfPods() && k.OfNode(node) then None else Get(before, k)
  {
  }

  lemma ResetNone(counts: Tracker.Counts, pods: seq<string>)
    ensures Names(pods[..0]) == {}
    ensures Tracker.Reset(counts, {}) == counts
  {
  }

  lemma ResetOne(counts: Tracker.Counts, pods: seq<string>, i: nat)
    requires i < |pods|
    ensures Names(pods[..i + 1]) == Names(pods[..i]) + {pods[i]}
    ensures Tracker.Reset(counts, Names(pods[..i + 1])) == Tracker.Reset(counts, Names(pods[..i]))[pods[i] := 0]
  {
    assert pods[..i + 1] == pods[..i] + [pods[i]];
  }

  lemma {:induction false} NothingMounted(mounts: seq<VolumeMount>, volumes: seq<VolumeSpec>)
    requires forall name :: SizeOf(volumes, name) == None
    ensures MountedVolumes(mounts, volumes) == []
  {
    if mounts != [] {
      NothingMounted(mounts[..|mounts| - 1], volumes);
    }
  }
}
