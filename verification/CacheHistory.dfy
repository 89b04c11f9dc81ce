/** The pod-spec cache over whole runs, and what the gauges that depend on it show. */
module CacheHistory {
  import opened Sequences
  import opened Series
  import opened Settings
  import opened PodSpecs
  import opened PodMetrics
  import NodeMonitor
  import opened Exporter
  import Runs
  import opened GaugeHistory
  import Lifecycle

  // ---- The cache and the log ----

  /** The Running pod of this name that the event brings, the last one if it is a list. */
  function Brings(e: Event, name: string): Option<PodObject> {
    match e
    case PodsListed(pods) => Last(pods, RunningNamed(name))
    case PodUpdated(p) => if RunningNamed(name)(p) then Some(p) else None
    case _ => None
  }

  /** Event `i` brought `p`, and since then the name was neither brought again nor deleted. */
  ghost predicate LatestRunning(log: Log, name: string, i: int, p: PodObject) {
    && 0 <= i < |log| && Brings(log[i], name) == Some(p)
    && forall j | i < j < |log| :: Brings(log[j], name) == None && log[j] != PodDeleted(name)
  }

  lemma LookupStep(cfg: Config, s: State, e: Event, name: string)
    ensures Get(Step(cfg, s, e).lookup, name) ==
            match Brings(e, name)
            case Some(p) => Some(PodData(cfg, p))
            case None => if e == PodDeleted(name) then None else Get(s.lookup, name)
  {
    hide Merge, ScrapeWrites, WithoutPods, WithoutNode, PodData, Last;
    if e.PodsListed? {
      RecordedAllExact(cfg, s.lookup, e.pods, name);
    }
  }

  lemma LatestRunningStep(front: Log, e: Event, name: string, i: int, p: PodObject)
    ensures LatestRunning(front + [e], name, i, p) <==>
            if i == |front| then Brings(e, name) == Some(p)
            else Brings(e, name) == None && e != PodDeleted(name) && LatestRunning(front, name, i, p)
  {
    hide Brings;
    var log := front + [e];
    assert forall j | 0 <= j < |front| :: log[j] == front[j];
    if 0 <= i < |front| && LatestRunning(log, name, i, p) {
      assert log[|front|] == e;
    }
  }

  /** In every state a name's cache entry is the container data of the latest Running pod with that name since its
      last delete, and there is no entry otherwise. */
  lemma {:induction false} CacheFollowsLog(cfg: Config, log: Log, name: string, entry: PodEntry)
    ensures Get(Run(cfg, log).lookup, name) == Some(entry) <==>
            exists i, p :: LatestRunning(log, name, i, p) && entry == PodData(cfg, p)
  {
    hide Step, Brings, PodData, LatestRunning, RunFrom;
    if log == [] {
      NothingCachedAtFirst(cfg, log, name);
    } else {
      var front, e := log[..|log| - 1], log[|log| - 1];
      assert log == front + [e];
      CacheFollowsLog(cfg, front, name, entry);
      RunOneMore(cfg, Init(cfg), front, e);
      LookupStep(cfg, Run(cfg, front), e, name);
      forall i, p ensures LatestRunning(log, name, i, p) <==>
            if i == |front| then Brings(e, name) == Some(p)
            else Brings(e, name) == None && e != PodDeleted(name) && LatestRunning(front, name, i, p)
      {
        LatestRunningStep(front, e, name, i, p);
      }
      if Brings(e, name).Some? {
        assert LatestRunning(log, name, |front|, Brings(e, name).value);
      } else if i, p :| LatestRunning(front, name, i, p) && entry == PodData(cfg, p) {
        BroughtInside(front, name, i, p);
      }
    }
  }

  lemma BroughtInside(log: Log, name: string, i: int, p: PodObject)
    requires LatestRunning(log, name, i, p)
    ensures 0 <= i < |log|
  {
  }

  lemma NothingCachedAtFirst(cfg: Config, log: Log, name: string)
    requires log == []
    ensures Get(Run(cfg, log).lookup, name) == None
    ensures forall i, p :: !LatestRunning(log, name, i, p)
  {
  }

  // ---- The volume join, from the manifest ----

  /** A container of manifest `p` mounts at this path an emptyDir volume of this name, and the volume is listed; `v` is
      the used bytes of the last volume listed under the name, or their share of the size limit, which must exist. */
  ghost predicate MountedAndListed(g: Gauge, p: PodObject, vs: seq<Volume>, container: string, volume: string,
      path: string, v: Value)
  {
    exists c, m, j :: && c in p.containers && c.name == container
                      && Mounts(c, p, m) && m.name == volume && m.mountPath == path
                      && (g.VolumeLimitPercentage? ==> m.sizeLimit != 0.0)
                      && IsLast(vs, VolumeNamed(volume), j)
                      && v == if g.VolumeLimitPercentage? then ShareOfLimit(vs[j].usedBytes as real, m.sizeLimit)
                           else Real(vs[j].usedBytes as real)
  }

  /** The volume gauge is enabled. */
  predicate VolumeGauge(cfg: Config, g: Gauge) {
    || (g.VolumeUsage? && cfg.containerVolumeUsage)
    || (g.VolumeLimitPercentage? && cfg.containerVolumeLimitsPercentage)
  }

  function VolumeKey(g: Gauge, w: Place, container: string, volume: string, path: string): Key {
    Key(g, VolumeLabels(w, container, volume, path))
  }

  lemma ManifestJoin(cfg: Config, g: Gauge, p: PodObject, vs: seq<Volume>, container: string, volume: string,
      path: string, v: Value)
    requires VolumeGauge(cfg, g)
    ensures ContainersPublished(g, PodData(cfg, p).containers, vs, container, volume, path) == Some(v)
       <==> MountedAndListed(g, p, vs, container, volume, path, v)
  {
    hide ShareOfLimit, PodData, Last, Mounts, MountingAt, MountAt, ContainersPublished;
    if ContainersPublished(g, PodData(cfg, p).containers, vs, container, volume, path) == Some(v) {
      JoinFound(cfg, g, p, vs, container, volume, path, v);
    }
    if c, m, j :| && c in p.containers && c.name == container
                  && Mounts(c, p, m) && m.name == volume && m.mountPath == path
                  && (g.VolumeLimitPercentage? ==> m.sizeLimit != 0.0)
                  && IsLast(vs, VolumeNamed(volume), j)
                  && v == if g.VolumeLimitPercentage? then ShareOfLimit(vs[j].usedBytes as real, m.sizeLimit)
                       else Real(vs[j].usedBytes as real)
    {
      JoinWritten(cfg, g, p, vs, c, m, j);
    }
  }

  lemma PublishedVolume(cfg: Config, cs: seq<Container>, g: Gauge, node: string, r: PodRecord, container: string,
      volume: string, path: string)
    requires VolumeGauge(cfg, g)
    ensures Published(cfg, cs, node, r, VolumeKey(g, PlaceOf(node, r), container, volume, path))
         == ContainersPublished(g, cs, r.volumes, container, volume, path)
  {
    hide ContainersPublished;
  }

  /** For a pod recorded from manifest `p`, publishing a record sets the volume series of (container, volume, path)
      exactly when the manifest mounts the volume there and the record lists it. */
  lemma VolumeJoin(cfg: Config, g: Gauge, p: PodObject, node: string, r: PodRecord, container: string, volume: string,
      path: string, v: Value)
    requires VolumeGauge(cfg, g)
    ensures Published(cfg, PodData(cfg, p).containers, node, r, VolumeKey(g, PlaceOf(node, r), container, volume, path))
         == Some(v)
       <==> MountedAndListed(g, p, r.volumes, container, volume, path, v)
  {
    hide ContainersPublished, MountedAndListed, Published, PodData;
    PublishedVolume(cfg, PodData(cfg, p).containers, g, node, r, container, volume, path);
    ManifestJoin(cfg, g, p, r.volumes, container, volume, path, v);
  }

  lemma JoinFound(cfg: Config, g: Gauge, p: PodObject, vs: seq<Volume>, container: string, volume: string,
      path: string, v: Value)
    requires cfg.containerVolumeUsage || cfg.containerVolumeLimitsPercentage
    requires ContainersPublished(g, PodData(cfg, p).containers, vs, container, volume, path) == Some(v)
    ensures MountedAndListed(g, p, vs, container, volume, path, v)
  {
    hide ShareOfLimit, MountedVolumes, SizeOf, ContainersData, ContainerData;
    var cs := PodData(cfg, p).containers;
    var kept := Last(cs, MountingAt(g, container, volume, path)).value;
    LastIsIn(cs, MountingAt(g, container, volume, path));
    var i :| 0 <= i < |cs| && cs[i] == kept;
    var m := Last(kept.emptyDirVolumes, MountAt(g, volume, path)).value;
    LastIsIn(kept.emptyDirVolumes, MountAt(g, volume, path));
    KeptFromManifest(cfg, p.containers[i], p, m);
    LastExact(vs, VolumeNamed(volume));
    var j :| IsLast(vs, VolumeNamed(volume), j) && vs[j] == Last(vs, VolumeNamed(volume)).value;
    assert p.containers[i] in p.containers;
  }

  lemma KeptFromManifest(cfg: Config, c: ContainerSpec, p: PodObject, m: Mounted)
    requires cfg.containerVolumeUsage || cfg.containerVolumeLimitsPercentage
    ensures ContainerData(cfg, c, p).name == c.name
    ensures m in ContainerData(cfg, c, p).emptyDirVolumes <==> Mounts(c, p, m)
  {
    MountedVolumesExact(c.mounts, p.volumes, m);
  }

  /** All containers see the same size for a volume, so it does not matter which of several mounts is the last. */
  lemma SameMount(cfg: Config, g: Gauge, p: PodObject, c: ContainerSpec, m: Mounted)
    requires cfg.containerVolumeUsage || cfg.containerVolumeLimitsPercentage
    requires c in p.containers && Mounts(c, p, m) && (g.VolumeLimitPercentage? ==> m.sizeLimit != 0.0)
    ensures var kept := Last(PodData(cfg, p).containers, MountingAt(g, c.name, m.name, m.mountPath));
            kept.Some? && Last(kept.value.emptyDirVolumes, MountAt(g, m.name, m.mountPath)) == Some(m)
  {
    hide MountedVolumes, SizeOf, ContainersData, ContainerData;
    var cs := PodData(cfg, p).containers;
    var here, at := MountingAt(g, c.name, m.name, m.mountPath), MountAt(g, m.name, m.mountPath);
    var i :| 0 <= i < |p.containers| && p.containers[i] == c;
    KeptFromManifest(cfg, c, p, m);
    SomeLast(cs[i].emptyDirVolumes, at, m);
    SomeLast(cs, here, cs[i]);
    var kept := Last(cs, here).value;
    LastIsIn(cs, here);
    var i' :| 0 <= i' < |cs| && cs[i'] == kept;
    LastIsIn(kept.emptyDirVolumes, at);
    KeptFromManifest(cfg, p.containers[i'], p, Last(kept.emptyDirVolumes, at).value);
  }

  lemma JoinWritten(cfg: Config, g: Gauge, p: PodObject, vs: seq<Volume>, c: ContainerSpec, m: Mounted, j: int)
    requires cfg.containerVolumeUsage || cfg.containerVolumeLimitsPercentage
    requires c in p.containers && Mounts(c, p, m) && (g.VolumeLimitPercentage? ==> m.sizeLimit != 0.0)
    requires IsLast(vs, VolumeNamed(m.name), j)
    ensures ContainersPublished(g, PodData(cfg, p).containers, vs, c.name, m.name, m.mountPath) ==
        Some(VolumeValue(g, m, vs[j]))
  {
    hide VolumeValue, PodData, Last, Mounts, MountingAt, MountAt;
    SameMount(cfg, g, p, c, m);
    LastExact(vs, VolumeNamed(m.name));
  }

  // ---- The volume series over whole runs ----

  /** Record `j` of scrape `i` is published for this pod, the latest Running manifest of the pod before that scrape
      mounts the volume there, and the record lists the volume. */
  ghost predicate JoinedAt(log: Log, g: Gauge, i: int, j: int, w: Place, container: string, volume: string,
      path: string, v: Value)
  {
    && PublishedAt(log, i, j, w)
    && exists n, p :: && LatestRunning(log[..i], w.pod, n, p)
                      && MountedAndListed(g, p, log[i].summary[j].volumes, container, volume, path, v)
  }

  lemma VolumePlace(cfg: Config, log: Log, g: Gauge, i: int, j: int, w: Place, container: string, volume: string,
      path: string)
    requires VolumeGauge(cfg, g)
    ensures RecordAt(cfg, log, i, j, VolumeKey(g, w, container, volume, path)).Some? ==> PublishedAt(log, i, j, w)
  {
    hide Run, VolumePublished, LimitPublished, FsPublished;
  }

  lemma VolumeRecords(cfg: Config, log: Log, g: Gauge, i: int, j: int, w: Place, container: string, volume: string,
      path: string, v: Value)
    requires VolumeGauge(cfg, g)
    ensures RecordAt(cfg, log, i, j, VolumeKey(g, w, container, volume, path)) == Some(v)
       <==> JoinedAt(log, g, i, j, w, container, volume, path, v)
  {
    hide Run, LatestRunning, MountedAndListed, VolumeKey, Published, PodData;
    VolumePlace(cfg, log, g, i, j, w, container, volume, path);
    if PublishedAt(log, i, j, w) {
      var r, lookup := log[i].summary[j], Run(cfg, log[..i]).lookup;
      VolumeRecord(cfg, log[..i], g, log[i].node, r, container, volume, path, v);
      assert VolumeKey(g, w, container, volume, path).gauge.OfPods() by {
        PodKey(g, w, container, volume, path);
      }
    }
  }

  lemma PodKey(g: Gauge, w: Place, container: string, volume: string, path: string)
    requires g.VolumeUsage? || g.VolumeLimitPercentage?
    ensures VolumeKey(g, w, container, volume, path).gauge.OfPods()
  {
  }

  lemma VolumeRecord(cfg: Config, past: Log, g: Gauge, node: string, r: PodRecord, container: string, volume: string,
      path: string, v: Value)
    requires VolumeGauge(cfg, g)
    ensures Published(cfg, Containers(Run(cfg, past).lookup, r.name), node, r,
        VolumeKey(g, PlaceOf(node, r), container, volume, path)) == Some(v)
       <==> exists n, p :: LatestRunning(past, r.name, n, p)
                        && MountedAndListed(g, p, r.volumes, container, volume, path, v)
  {
    hide Run, LatestRunning, MountedAndListed, VolumeKey, Published, PodData;
    var lookup := Run(cfg, past).lookup;
    if r.name in lookup {
      CacheFollowsLog(cfg, past, r.name, lookup[r.name]);
      var n, p :| LatestRunning(past, r.name, n, p) && lookup[r.name] == PodData(cfg, p);
      VolumeJoin(cfg, g, p, node, r, container, volume, path, v);
    } else {
      NoneWithoutEntry(cfg, g, node, r, container, volume, path);
    }
    forall n, p | LatestRunning(past, r.name, n, p) && MountedAndListed(g, p, r.volumes, container, volume, path, v)
      ensures Published(cfg, Containers(lookup, r.name), node, r,
          VolumeKey(g, PlaceOf(node, r), container, volume, path)) == Some(v)
    {
      CacheFollowsLog(cfg, past, r.name, PodData(cfg, p));
      VolumeJoin(cfg, g, p, node, r, container, volume, path, v);
    }
  }

  lemma NoneWithoutEntry(cfg: Config, g: Gauge, node: string, r: PodRecord, container: string, volume: string,
      path: string)
    requires VolumeGauge(cfg, g)
    ensures Published(cfg, [], node, r, VolumeKey(g, PlaceOf(node, r), container, volume, path)) == None
  {
  }

  /** Record `j` of scrape `i` is the latest to join with a manifest, and nothing has cleared the series since. */
  ghost predicate LatestJoined(cfg: Config, log: Log, g: Gauge, i: int, j: int, w: Place, container: string,
      volume: string, path: string, v: Value)
  {
    && JoinedAt(log, g, i, j, w, container, volume, path, v) && 0 <= i < |log|
    && (forall i', j', v' | JoinedAt(log, g, i', j', w, container, volume, path, v') :: i' < i || (i' == i && j' <= j))
    && (forall i' | i < i' < |log| :: !ClearsAt(cfg, log, i', VolumeKey(g, w, container, volume, path)))
  }

  lemma LatestJoinedIsLatestRecord(cfg: Config, log: Log, g: Gauge, i: int, j: int, w: Place, container: string,
      volume: string, path: string, v: Value)
    requires VolumeGauge(cfg, g)
    ensures LatestJoined(cfg, log, g, i, j, w, container, volume, path, v)
       <==> LatestRecord(cfg, log, i, j, VolumeKey(g, w, container, volume, path))
            && RecordAt(cfg, log, i, j, VolumeKey(g, w, container, volume, path)) == Some(v)
  {
    hide Run, RecordAt, ClearsAt, JoinedAt, VolumeKey;
    var k := VolumeKey(g, w, container, volume, path);
    forall i', j', v'
      ensures RecordAt(cfg, log, i', j', k) == Some(v') <==> JoinedAt(log, g, i', j', w, container, volume, path, v')
    {
      VolumeRecords(cfg, log, g, i', j', w, container, volume, path, v');
    }
    forall i', j'
      ensures RecordAt(cfg, log, i', j', k).Some?
         <==> exists v' :: JoinedAt(log, g, i', j', w, container, volume, path, v')
    {
      if RecordAt(cfg, log, i', j', k).Some? {
        assert JoinedAt(log, g, i', j', w, container, volume, path, RecordAt(cfg, log, i', j', k).value);
      }
    }
  }

  /** In every state a volume series holds what the latest record to set it said: it exists exactly when there is a
      published record that lists the volume, the latest Running manifest of the pod before that scrape mounts it as an
      emptyDir, and nothing has cleared the series since. */
  lemma VolumeFollowsLog(cfg: Config, log: Log, g: Gauge, w: Place, container: string, volume: string, path: string,
      v: Value)
    requires VolumeGauge(cfg, g)
    ensures Get(Run(cfg, log).samples, VolumeKey(g, w, container, volume, path)) == Some(v)
       <==> exists i, j :: LatestJoined(cfg, log, g, i, j, w, container, volume, path, v)
  {
    hide Run, RecordAt, LatestRecord, LatestJoined, VolumeKey;
    var k := VolumeKey(g, w, container, volume, path);
    PodKey(g, w, container, volume, path);
    SeriesFollowRecords(cfg, log, k, v);
    forall i, j
      ensures LatestJoined(cfg, log, g, i, j, w, container, volume, path, v)
         <==> LatestRecord(cfg, log, i, j, k) && RecordAt(cfg, log, i, j, k) == Some(v)
    {
      LatestJoinedIsLatestRecord(cfg, log, g, i, j, w, container, volume, path, v);
    }
  }

  // ---- No watcher, no cache ----

  lemma {:induction false} NothingCached(cfg: Config, log: Log)
    requires EnabledRun(cfg, log) && !cfg.WatchesPods()
    ensures Run(cfg, log).lookup == map[]
  {
    hide Merge, ScrapeWrites, WithoutPods, WithoutNode;
    if log != [] {
      NothingCached(cfg, log[..|log| - 1]);
    }
  }

  /** With both limit percentages disabled the cache stays empty in every run, so no volume and no container-limit
      series ever exists, even with volume usage enabled. */
  lemma NoJoinWithoutWatcher(cfg: Config, log: Log, k: Key)
    requires EnabledRun(cfg, log) && !cfg.containerLimitsPercentage && !cfg.containerVolumeLimitsPercentage
    requires k.gauge.VolumeUsage? || k.gauge.VolumeLimitPercentage? || k.gauge.LimitPercentage?
    ensures k !in Run(cfg, log).samples && Run(cfg, log).lookup == map[]
  {
    hide Run;
    NothingCached(cfg, log);
    if k in Run(cfg, log).samples {
      SeriesFollowRecords(cfg, log, k, Run(cfg, log).samples[k]);
      var i, j :| LatestRecord(cfg, log, i, j, k);
      Lifecycle.EnabledAt(cfg, log, i);
      NothingCached(cfg, log[..i]);
    }
  }

  // ---- What can be shown at all ----

  /** A pod is shown only under a namespace, and by a DaemonSet only on its own node. */
  predicate CanShow(cfg: Config, w: Place) {
    w.namespace != "" && (cfg.deployment || w.node == cfg.currentNode)
  }

  lemma ShownOnlyIf(cfg: Config, log: Log, w: Place, k: Key) returns (lookup: Lookup, r: PodRecord)
    requires EnabledRun(cfg, log) && k in Run(cfg, log).samples && AtHome(w, k)
    ensures CanShow(cfg, w)
    ensures Published(cfg, Containers(lookup, r.name), w.node, r, k).Some?
  {
    hide Run, Published;
    SeriesFollowRecords(cfg, log, k, Run(cfg, log).samples[k]);
    var i, j :| LatestRecord(cfg, log, i, j, k);
    Runs.Reachable(cfg, log);
    if !cfg.deployment {
      Lifecycle.DaemonSetNode(cfg, log);
    }
    lookup, r := Run(cfg, log[..i]).lookup, log[i].summary[j];
  }

  function AddedFirst(cfg: Config, w: Place): Log {
    if cfg.deployment then [NodeAdded(NodeMonitor.NodeObject(w.node, [NodeMonitor.KUBELET_READY], "endpoint"))] else []
  }

  /** The node is added if there is a node watch, the manifest arrives, the node is scraped. */
  function Showing(cfg: Config, w: Place, p: PodObject, r: PodRecord): Log {
    AddedFirst(cfg, w) + [PodUpdated(p)] + [Scraped(w.node, [r], 0)]
  }

  lemma ManifestKnown(cfg: Config, w: Place, p: PodObject) returns (log: Log)
    requires cfg.WatchesPods() && CanShow(cfg, w) && p.phase == RUNNING && p.name == w.pod
    ensures forall r :: Showing(cfg, w, p, r) == log + [Scraped(w.node, [r], 0)]
    ensures EnabledRun(cfg, log) && forall r :: Enabled(cfg, Run(cfg, log), Scraped(w.node, [r], 0))
    ensures Run(cfg, log).lookup == map[w.pod := PodData(cfg, p)]
  {
    hide PodData, EnabledRun, RunFrom;
    var first := AddedFirst(cfg, w);
    log := first + [PodUpdated(p)];
    EmptyRun(cfg);
    if cfg.deployment {
      assert [] + first == first;
      RunOneMore(cfg, Init(cfg), [], first[0]);
    }
    RunOneMore(cfg, Init(cfg), first, PodUpdated(p));
  }

  lemma ShownIf(cfg: Config, w: Place, p: PodObject, r: PodRecord, k: Key)
    requires cfg.WatchesPods() && CanShow(cfg, w) && p.phase == RUNNING && p.name == w.pod
    requires !r.Skipped() && r.name == w.pod && k.gauge.OfPods()
    requires Published(cfg, PodData(cfg, p).containers, w.node, r, k).Some?
    ensures EnabledRun(cfg, Showing(cfg, w, p, r)) && k in Run(cfg, Showing(cfg, w, p, r)).samples
  {
    hide EnabledRun, RunFrom, Enabled, PodData, Published, Step;
    var log := ManifestKnown(cfg, w, p);
    var s := Run(cfg, log);
    RunOneMore(cfg, Init(cfg), log, Scraped(w.node, [r], 0));
    Runs.StepEffect(cfg, s, Scraped(w.node, [r], 0), k);
    SomeLast([r], Sets(cfg, s.lookup, w.node, k), r);
  }

  /** A manifest with one container that mounts one emptyDir with a size limit, and a record that lists the volume. */
  function OneMount(w: Place, container: string, volume: string, path: string, limits: map<string, real>): PodObject {
    PodObject(w.pod, RUNNING, [ContainerSpec(container, [VolumeMount(volume, path)], limits)],
              [VolumeSpec(volume, Some(EmptyDir(Some(1.0))))])
  }

  function OneVolume(w: Place, volume: string): PodRecord {
    PodRecord(w.pod, w.namespace, 1.0, 0.0, 0.0, 0.0, 0.0, 0.0, [Volume(volume, 0, 0, 1)], [])
  }

  lemma OneMountListed(g: Gauge, w: Place, container: string, volume: string, path: string)
    returns (v: Value)
    requires g.VolumeUsage? || g.VolumeLimitPercentage?
    ensures MountedAndListed(g, OneMount(w, container, volume, path, map[]), OneVolume(w, volume).volumes, container,
        volume, path, v)
  {
    var p, vs, m := OneMount(w, container, volume, path, map[]), OneVolume(w, volume).volumes,
        Mounted(volume, path, 1.0);
    v := VolumeValue(g, m, vs[0]);
    SomeLast(p.volumes, EmptyDirNamed(volume), p.volumes[0]);
    LastIsIn(p.volumes, EmptyDirNamed(volume));
    var c := p.containers[0];
    assert Mounts(c, p, m);
    assert IsLast(vs, VolumeNamed(volume), 0);
    assert c in p.containers;
  }

  /** A volume series can be shown in some run exactly when its gauge is enabled and the pod watch runs; for volume
      usage the second does not follow from the first. */
  lemma VolumeReachable(cfg: Config, g: Gauge, w: Place, container: string, volume: string, path: string)
    requires g.VolumeUsage? || g.VolumeLimitPercentage?
    ensures (exists log :: EnabledRun(cfg, log) && VolumeKey(g, w, container, volume, path) in Run(cfg, log).samples)
       <==> (cfg.containerLimitsPercentage || cfg.containerVolumeLimitsPercentage) && VolumeGauge(cfg, g)
            && CanShow(cfg, w)
  {
    hide Run, EnabledRun, Published, CanShow, Containers;
    var k := VolumeKey(g, w, container, volume, path);
    if log :| EnabledRun(cfg, log) && k in Run(cfg, log).samples {
      var lookup, r := ShownOnlyIf(cfg, log, w, k);
      VolumeFlag(cfg, Containers(lookup, r.name), w.node, r, k);
      if !cfg.WatchesPods() {
        NoJoinWithoutWatcher(cfg, log, k);
      }
    }
    if cfg.WatchesPods() && VolumeGauge(cfg, g) && CanShow(cfg, w) {
      var p, r := OneMount(w, container, volume, path, map[]), OneVolume(w, volume);
      var v := OneMountListed(g, w, container, volume, path);
      VolumeJoin(cfg, g, p, w.node, r, container, volume, path, v);
      Recordable(cfg, w, volume);
      ShownIf(cfg, w, p, r, k);
    }
  }

  lemma VolumeFlag(cfg: Config, cs: seq<Container>, node: string, r: PodRecord, k: Key)
    requires k.gauge.VolumeUsage? || k.gauge.VolumeLimitPercentage?
    requires Published(cfg, cs, node, r, k).Some?
    ensures VolumeGauge(cfg, k.gauge)
  {
  }

  lemma Recordable(cfg: Config, w: Place, volume: string)
    requires CanShow(cfg, w)
    ensures !OneVolume(w, volume).Skipped() && PlaceOf(w.node, OneVolume(w, volume)) == w
  {
  }

  function LimitKey(w: Place, container: string, source: string): Key {
    Key(LimitPercentage, LimitLabels(w, container, source))
  }

  /** A container-limit series can be shown in some run exactly when its gauge is enabled and its source is one of the
      two. */
  lemma LimitReachable(cfg: Config, w: Place, container: string, source: string)
    ensures (exists log :: EnabledRun(cfg, log) && LimitKey(w, container, source) in Run(cfg, log).samples)
       <==> cfg.containerLimitsPercentage && CanShow(cfg, w) && (source == "container" || source == "node")
  {
    hide Run, EnabledRun, Published, CanShow, Containers;
    var k := LimitKey(w, container, source);
    if log :| EnabledRun(cfg, log) && k in Run(cfg, log).samples {
      var lookup, r := ShownOnlyIf(cfg, log, w, k);
      LimitFlag(cfg, Containers(lookup, r.name), w, r, container, source);
    }
    if cfg.containerLimitsPercentage && CanShow(cfg, w) && (source == "container" || source == "node") {
      var limits := if source == "container" then map[EPHEMERAL_STORAGE := 1.0] else map[];
      Recordable(cfg, w, "");
      OneLimit(cfg, w, container, source, limits);
      ShownIf(cfg, w, OneMount(w, container, "", "", limits), OneVolume(w, ""), k);
    }
  }

  lemma LimitFlag(cfg: Config, cs: seq<Container>, w: Place, r: PodRecord, container: string, source: string)
    requires Published(cfg, cs, w.node, r, LimitKey(w, container, source)).Some?
    ensures cfg.containerLimitsPercentage && (source == "container" || source == "node")
  {
    hide LimitShare;
  }

  lemma OneLimit(cfg: Config, w: Place, container: string, source: string, limits: map<string, real>)
    requires cfg.containerLimitsPercentage && (source == "container" || source == "node")
    requires limits == if source == "container" then map[EPHEMERAL_STORAGE := 1.0] else map[]
    ensures Published(cfg, PodData(cfg, OneMount(w, container, "", "", limits)).containers, w.node, OneVolume(w, ""),
        LimitKey(w, container, source)).Some?
  {
    hide LimitShare, MountedVolumes;
    var cs := PodData(cfg, OneMount(w, container, "", "", limits)).containers;
    assert SourceOf(cs[0]) == source;
    SomeLast(cs, LimitedBy(container, source), cs[0]);
  }
}
