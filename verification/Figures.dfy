/** What every gauge shows, written out: each of the 25 gauges by name, with its labels, in the fields of the records,
    the manifests and the settings.  `Figure` is a second description of what a record sets, made from nothing but these
    fields; the theorems say that over whole runs the gauges show just that. */
module Figures {
  import opened Sequences
  import opened Series
  import opened Settings
  import opened PodSpecs
  import opened PodMetrics
  import NodeMonitor
  import opened Exporter
  import opened Runs
  import opened GaugeHistory
  import CacheHistory
  import Tracker

  // ---- What is published, and from what ----

  /** A record counts if it has a namespace and any of its six figures is not zero. */
  predicate Counts(r: PodRecord) {
    && r.namespace != ""
    && (|| r.usedBytes != 0.0 || r.availableBytes != 0.0 || r.capacityBytes != 0.0
        || r.inodes != 0.0 || r.inodesFree != 0.0 || r.inodesUsed != 0.0)
  }

  /** The latest Running manifest under this name, unless the pod was deleted since. */
  function Manifest(log: Log, name: string): Option<PodObject> {
    if log == [] then None
    else
      var before := Manifest(log[..|log| - 1], name);
      var running := (p: PodObject) => p.phase == "Running" && p.name == name;
      match log[|log| - 1]
      case PodsListed(ps) => if Last(ps, running).Some? then Last(ps, running) else before
      case PodUpdated(p) => if running(p) then Some(p) else before
      case PodDeleted(deleted) => if deleted == name then None else before
      case _ => before
  }

  /** The last stats entry for the container. */
  function EntryOf(r: PodRecord, container: string): Option<ContainerStats> {
    Last(r.containers, (c: ContainerStats) => c.name == container)
  }

  function RootfsWithCapacity(r: PodRecord, container: string): Option<ContainerStats> {
    Last(r.containers, (c: ContainerStats) => c.name == container && c.rootfs.capacityBytes > 0)
  }

  function LogsWithCapacity(r: PodRecord, container: string): Option<ContainerStats> {
    Last(r.containers, (c: ContainerStats) => c.name == container && c.logs.capacityBytes > 0)
  }

  /** The last listed volume of this name. */
  function ListedVolume(r: PodRecord, volume: string): Option<Volume> {
    Last(r.volumes, (v: Volume) => v.name == volume)
  }

  /** The last emptyDir volume of this name that the manifest declares. */
  function Declared(p: PodObject, volume: string): Option<EmptyDir> {
    match Last(p.volumes, (v: VolumeSpec) => v.name == volume && v.emptyDir.Some?)
    case None => None
    case Some(v) => v.emptyDir
  }

  predicate HasMount(p: PodObject, container: string, volume: string, path: string) {
    exists c :: c in p.containers && c.name == container && VolumeMount(volume, path) in c.mounts
  }

  /** The limit a container has of its own, if it is not zero. */
  function OwnLimit(c: ContainerSpec): Option<real> {
    if "ephemeral-storage" in c.limits && c.limits["ephemeral-storage"] != 0.0 then Some(c.limits["ephemeral-storage"])
    else None
  }

  function WithOwnLimit(p: PodObject, container: string): Option<ContainerSpec> {
    Last(p.containers, (c: ContainerSpec) => c.name == container && OwnLimit(c).Some?)
  }

  function WithoutOwnLimit(p: PodObject, container: string): Option<ContainerSpec> {
    Last(p.containers, (c: ContainerSpec) => c.name == container && OwnLimit(c).None?)
  }

  // ---- The figures ----

  function AtMost100(percent: real): Value {
    Real(if percent <= 100.0 then percent else 100.0)
  }

  /** The part of the node's storage that is not available. */
  function NodeShare(r: PodRecord): Value {
    if r.capacityBytes <= 0.0 then NaN
    else if r.availableBytes >= r.capacityBytes then Real(0.0)
    else Real((r.capacityBytes - r.availableBytes) * 100.0 / r.capacityBytes)
  }

  function Given<T>(on: bool, x: Option<T>): Option<T> {
    if on then x else None
  }

  /** What the node's storage gauges take from a record. */
  function NodeFigure(cfg: Config, node: string, r: PodRecord, k: Key): Option<Value> {
    if k.labels != Labels(Some(node), None, None, None, None, None, None) then None
    else match k.gauge
      case NodeAvailable => Given(cfg.nodeAvailable, Some(Real(r.availableBytes)))
      case NodeCapacity => Given(cfg.nodeCapacity, Some(Real(r.capacityBytes)))
      case NodePercentage => Given(cfg.nodePercentage, Some(NodeShare(r)))
      case _ => None
  }

  /** What the pod gauges take from a record. */
  function PodFigure(cfg: Config, node: string, r: PodRecord, k: Key): Option<Value> {
    if k.labels != Labels(Some(node), Some(r.name), Some(r.namespace), None, None, None, None) then None
    else match k.gauge
      case PodUsage => Given(cfg.podUsage, Some(Real(r.usedBytes)))
      case Inodes => Given(cfg.inodes, Some(Real(r.inodes)))
      case InodesFree => Given(cfg.inodes, Some(Real(r.inodesFree)))
      case InodesUsed => Given(cfg.inodes, Some(Real(r.inodesUsed)))
      case _ => None
  }

  function OfEntry(c: Option<ContainerStats>, figure: ContainerStats -> int): Option<Value> {
    if c.None? then None else Some(Real(figure(c.value) as real))
  }

  function RootfsShare(c: Option<ContainerStats>): Option<Value>
    requires c.Some? ==> c.value.rootfs.capacityBytes > 0
  {
    if c.None? then None
    else Some(Real(c.value.rootfs.usedBytes as real / c.value.rootfs.capacityBytes as real * 100.0))
  }

  function LogsShare(c: Option<ContainerStats>): Option<Value>
    requires c.Some? ==> c.value.logs.capacityBytes > 0
  {
    if c.None? then None
    else Some(Real(c.value.logs.usedBytes as real / c.value.logs.capacityBytes as real * 100.0))
  }

  /** What the rootfs and logs gauges of a container take from a record. */
  function ContainerFigure(cfg: Config, node: string, r: PodRecord, k: Key): Option<Value> {
    if k.labels.container.None?
       || k.labels != Labels(Some(node), Some(r.name), Some(r.namespace), k.labels.container, None, None, None)
    then None
    else
      var container := k.labels.container.value;
      var c := EntryOf(r, container);
      var rootfs, logs := cfg.containerRootfsUsage, cfg.containerLogsUsage;
      match k.gauge
      case RootfsUsed => Given(rootfs, OfEntry(c, (c: ContainerStats) => c.rootfs.usedBytes))
      case RootfsAvailable => Given(rootfs, OfEntry(c, (c: ContainerStats) => c.rootfs.availableBytes))
      case RootfsCapacity => Given(rootfs, OfEntry(c, (c: ContainerStats) => c.rootfs.capacityBytes))
      case RootfsPercentage => Given(rootfs, RootfsShare(RootfsWithCapacity(r, container)))
      case RootfsInodes => Given(rootfs && cfg.inodes, OfEntry(c, (c: ContainerStats) => c.rootfs.inodes))
      case RootfsInodesFree => Given(rootfs && cfg.inodes, OfEntry(c, (c: ContainerStats) => c.rootfs.inodesFree))
      case RootfsInodesUsed => Given(rootfs && cfg.inodes, OfEntry(c, (c: ContainerStats) => c.rootfs.inodesUsed))
      case LogsUsed => Given(logs, OfEntry(c, (c: ContainerStats) => c.logs.usedBytes))
      case LogsAvailable => Given(logs, OfEntry(c, (c: ContainerStats) => c.logs.availableBytes))
      case LogsCapacity => Given(logs, OfEntry(c, (c: ContainerStats) => c.logs.capacityBytes))
      case LogsPercentage => Given(logs, LogsShare(LogsWithCapacity(r, container)))
      case LogsInodes => Given(logs && cfg.inodes, OfEntry(c, (c: ContainerStats) => c.logs.inodes))
      case LogsInodesFree => Given(logs && cfg.inodes, OfEntry(c, (c: ContainerStats) => c.logs.inodesFree))
      case LogsInodesUsed => Given(logs && cfg.inodes, OfEntry(c, (c: ContainerStats) => c.logs.inodesUsed))
      case _ => None
  }

  /** What a volume gauge takes, once the labels fit. */
  function VolumeShown(g: Gauge, p: PodObject, r: PodRecord, container: string, volume: string, path: string):
      Option<Value>
  {
    var declared, listed := Declared(p, volume), ListedVolume(r, volume);
    if !HasMount(p, container, volume, path) || declared.None? || listed.None? then None
    else if g.VolumeUsage? then Some(Real(listed.value.usedBytes as real))
    else if declared.value.sizeLimit.None? || declared.value.sizeLimit.value == 0.0 then None
    else Some(AtMost100(listed.value.usedBytes as real * 1.024 / declared.value.sizeLimit.value * 100.0))
  }

  /** What the volume gauges take from a record and the manifest of its pod. */
  function VolumeFigure(cfg: Config, node: string, r: PodRecord, p: PodObject, k: Key): Option<Value> {
    if k.labels.container.None? || k.labels.volume.None? || k.labels.mountPath.None?
       || k.labels != Labels(Some(node), Some(r.name), Some(r.namespace), k.labels.container, k.labels.volume,
                             k.labels.mountPath, None)
    then None
    else
      var shown := VolumeShown(k.gauge, p, r, k.labels.container.value, k.labels.volume.value,
          k.labels.mountPath.value);
      match k.gauge
      case VolumeUsage => Given(cfg.containerVolumeUsage, shown)
      case VolumeLimitPercentage => Given(cfg.containerVolumeLimitsPercentage, shown)
      case _ => None
  }

  /** What the container-limit gauge takes from a record and the manifest of its pod. */
  function LimitFigure(cfg: Config, node: string, r: PodRecord, p: PodObject, k: Key): Option<Value> {
    if !cfg.containerLimitsPercentage || !k.gauge.LimitPercentage? || k.labels.container.None? || k.labels.source.None?
       || k.labels != Labels(Some(node), Some(r.name), Some(r.namespace), k.labels.container, None, None,
                             k.labels.source)
    then None
    else
      var limited, unlimited := WithOwnLimit(p, k.labels.container.value), WithoutOwnLimit(p, k.labels.container.value);
      if k.labels.source.value == "container" && limited.Some? then
        Some(AtMost100(r.usedBytes * 1.024 / OwnLimit(limited.value).value * 100.0))
      else if k.labels.source.value == "node" && unlimited.Some? then Some(NodeShare(r))
      else None
  }

  /** What a series takes from a record, given the manifest of its pod if one is known. */
  function Figure(cfg: Config, node: string, r: PodRecord, p: Option<PodObject>, k: Key): Option<Value> {
    if k.gauge in {NodeAvailable, NodeCapacity, NodePercentage} then NodeFigure(cfg, node, r, k)
    else if k.gauge in {PodUsage, Inodes, InodesFree, InodesUsed} then PodFigure(cfg, node, r, k)
    else if k.gauge in {VolumeUsage, VolumeLimitPercentage} then
      if p.None? then None else VolumeFigure(cfg, node, r, p.value, k)
    else if k.gauge == LimitPercentage then
      if p.None? then None else LimitFigure(cfg, node, r, p.value, k)
    else ContainerFigure(cfg, node, r, k)
  }

  // ---- They are what the code sets ----

  lemma NodeExact(cfg: Config, node: string, r: PodRecord, k: Key)
    requires !k.gauge.OfPods()
    ensures NodeMonitor.NodePublished(cfg, node, r.availableBytes, r.capacityBytes, k) == NodeFigure(cfg, node, r, k)
  {
    NodeShareExact(r);
  }

  lemma NodeShareExact(r: PodRecord)
    ensures ShareOfNode(r.availableBytes, r.capacityBytes) == NodeShare(r)
  {
    if r.capacityBytes > 0.0 && r.availableBytes >= r.capacityBytes {
      assert 0.0 * 100.0 / r.capacityBytes == 0.0;
    }
  }

  lemma PodExact(cfg: Config, cs: seq<Container>, node: string, r: PodRecord, k: Key)
    requires k.gauge in {PodUsage, Inodes, InodesFree, InodesUsed}
    ensures Published(cfg, cs, node, r, k) == PodFigure(cfg, node, r, k)
  {
    hide VolumePublished, LimitPublished, FsPublished;
  }

  lemma RootfsEntry(inodes: bool, g: Gauge, r: PodRecord, container: string)
    requires FsGauge(Rootfs, g)
    ensures Last(r.containers, Reporting(Rootfs, inodes, g, container)) ==
            if g.RootfsPercentage? then RootfsWithCapacity(r, container)
            else if inodes || g.RootfsUsed? || g.RootfsAvailable? || g.RootfsCapacity? then EntryOf(r, container)
            else None
  {
    var reporting := Reporting(Rootfs, inodes, g, container);
    if g.RootfsPercentage? {
      SameLast(r.containers, reporting, (c: ContainerStats) => c.name == container && c.rootfs.capacityBytes > 0);
    } else if inodes || Rootfs.SetsAlways(g) {
      SameLast(r.containers, reporting, (c: ContainerStats) => c.name == container);
    } else {
      LastExact(r.containers, reporting);
    }
  }

  lemma RootfsExact(cfg: Config, node: string, r: PodRecord, k: Key)
    requires FsGauge(Rootfs, k.gauge) && cfg.containerRootfsUsage
    ensures FsPublished(Rootfs, cfg.inodes, PlaceOf(node, r), r.containers, k) == ContainerFigure(cfg, node, r, k)
  {
    hide Reporting, EntryOf, Last;
    if k.labels.container.Some? {
      RootfsEntry(cfg.inodes, k.gauge, r, k.labels.container.value);
    }
  }

  lemma LogsEntry(inodes: bool, g: Gauge, r: PodRecord, container: string)
    requires FsGauge(Logs, g)
    ensures Last(r.containers, Reporting(Logs, inodes, g, container)) ==
            if g.LogsPercentage? then LogsWithCapacity(r, container)
            else if inodes || g.LogsUsed? || g.LogsAvailable? || g.LogsCapacity? then EntryOf(r, container)
            else None
  {
    var reporting := Reporting(Logs, inodes, g, container);
    if g.LogsPercentage? {
      SameLast(r.containers, reporting, (c: ContainerStats) => c.name == container && c.logs.capacityBytes > 0);
    } else if inodes || Logs.SetsAlways(g) {
      SameLast(r.containers, reporting, (c: ContainerStats) => c.name == container);
    } else {
      LastExact(r.containers, reporting);
    }
  }

  lemma LogsExact(cfg: Config, node: string, r: PodRecord, k: Key)
    requires FsGauge(Logs, k.gauge) && cfg.containerLogsUsage
    ensures FsPublished(Logs, cfg.inodes, PlaceOf(node, r), r.containers, k) == ContainerFigure(cfg, node, r, k)
  {
    hide Reporting, EntryOf, Last;
    if k.labels.container.Some? {
      LogsEntry(cfg.inodes, k.gauge, r, k.labels.container.value);
    }
  }

  lemma ContainerExact(cfg: Config, cs: seq<Container>, node: string, r: PodRecord, k: Key)
    requires FsGauge(Rootfs, k.gauge) || FsGauge(Logs, k.gauge)
    ensures Published(cfg, cs, node, r, k) == ContainerFigure(cfg, node, r, k)
  {
    hide FsPublished, VolumePublished, LimitPublished;
    if FsGauge(Rootfs, k.gauge) && cfg.containerRootfsUsage {
      RootfsExact(cfg, node, r, k);
    }
    if FsGauge(Logs, k.gauge) && cfg.containerLogsUsage {
      LogsExact(cfg, node, r, k);
    }
  }

  // ---- Volumes ----

  lemma DeclaredExact(p: PodObject, volume: string, size: real)
    ensures SizeOf(p.volumes, volume) == Some(size) <==>
            && Declared(p, volume).Some?
            && size == if Declared(p, volume).value.sizeLimit.Some? then Declared(p, volume).value.sizeLimit.value
                else 0.0
  {
    SameLast(p.volumes, EmptyDirNamed(volume), (v: VolumeSpec) => v.name == volume && v.emptyDir.Some?);
  }

  lemma ListedExact(r: PodRecord, volume: string)
    ensures Last(r.volumes, VolumeNamed(volume)) == ListedVolume(r, volume)
  {
    SameLast(r.volumes, VolumeNamed(volume), (v: Volume) => v.name == volume);
  }

  lemma ShareExact(used: real, limit: real)
    requires limit != 0.0
    ensures ShareOfLimit(used, limit) == AtMost100(used * 1.024 / limit * 100.0)
  {
  }

  lemma ShownFromMount(g: Gauge, p: PodObject, r: PodRecord, c: ContainerSpec, m: Mounted, j: int)
    requires g.VolumeUsage? || g.VolumeLimitPercentage?
    requires c in p.containers && Mounts(c, p, m) && (g.VolumeLimitPercentage? ==> m.sizeLimit != 0.0)
    requires IsLast(r.volumes, VolumeNamed(m.name), j)
    ensures VolumeShown(g, p, r, c.name, m.name, m.mountPath) ==
        Some(if g.VolumeLimitPercentage? then ShareOfLimit(r.volumes[j].usedBytes as real, m.sizeLimit)
             else Real(r.volumes[j].usedBytes as real))
  {
    hide SizeOf, Declared, ShareOfLimit, AtMost100, ListedVolume, Last;
    DeclaredExact(p, m.name, m.sizeLimit);
    ListedExact(r, m.name);
    LastExact(r.volumes, VolumeNamed(m.name));
    if g.VolumeLimitPercentage? {
      ShareExact(r.volumes[j].usedBytes as real, m.sizeLimit);
    }
  }

  lemma VolumeShownIfJoined(g: Gauge, p: PodObject, r: PodRecord, container: string, volume: string, path: string,
      v: Value)
    requires g.VolumeUsage? || g.VolumeLimitPercentage?
    requires CacheHistory.MountedAndListed(g, p, r.volumes, container, volume, path, v)
    ensures VolumeShown(g, p, r, container, volume, path) == Some(v)
  {
    hide VolumeShown, Mounts, ShareOfLimit, VolumeNamed, Last;
    var c, m, j :| c in p.containers && c.name == container
                   && Mounts(c, p, m) && m.name == volume && m.mountPath == path
                   && (g.VolumeLimitPercentage? ==> m.sizeLimit != 0.0)
                   && IsLast(r.volumes, VolumeNamed(volume), j)
                   && v == if g.VolumeLimitPercentage? then ShareOfLimit(r.volumes[j].usedBytes as real, m.sizeLimit)
                        else Real(r.volumes[j].usedBytes as real);
    ShownFromMount(g, p, r, c, m, j);
  }

  lemma JoinedIfShown(cfg: Config, g: Gauge, p: PodObject, r: PodRecord, container: string, volume: string,
      path: string)
    requires CacheHistory.VolumeGauge(cfg, g)
    requires VolumeShown(g, p, r, container, volume, path).Some?
    ensures ContainersPublished(g, PodData(cfg, p).containers, r.volumes, container, volume, path) ==
        VolumeShown(g, p, r, container, volume, path)
  {
    hide SizeOf, Declared, ShareOfLimit, AtMost100, ListedVolume, PodData, ContainersPublished;
    var declared := Declared(p, volume).value;
    var m := Mounted(volume, path, if declared.sizeLimit.Some? then declared.sizeLimit.value else 0.0);
    var c :| c in p.containers && c.name == container && VolumeMount(volume, path) in c.mounts;
    DeclaredExact(p, volume, m.sizeLimit);
    ListedExact(r, volume);
    LastExact(r.volumes, VolumeNamed(volume));
    var j :| IsLast(r.volumes, VolumeNamed(volume), j) && r.volumes[j] == ListedVolume(r, volume).value;
    CacheHistory.JoinWritten(cfg, g, p, r.volumes, c, m, j);
    if g.VolumeLimitPercentage? {
      ShareExact(r.volumes[j].usedBytes as real, m.sizeLimit);
    }
  }

  lemma VolumeExact(cfg: Config, node: string, r: PodRecord, p: PodObject, k: Key)
    requires CacheHistory.VolumeGauge(cfg, k.gauge)
    ensures Published(cfg, PodData(cfg, p).containers, node, r, k) == VolumeFigure(cfg, node, r, p, k)
  {
    hide MountsPublished, ContainersPublished, PodData, Declared, ListedVolume, HasMount, AtMost100;
    if IsVolumeKey(k.gauge, PlaceOf(node, r), k) {
      var container, volume, path := k.labels.container.value, k.labels.volume.value, k.labels.mountPath.value;
      var published := ContainersPublished(k.gauge, PodData(cfg, p).containers, r.volumes, container, volume, path);
      if published.Some? {
        CacheHistory.ManifestJoin(cfg, k.gauge, p, r.volumes, container, volume, path, published.value);
        VolumeShownIfJoined(k.gauge, p, r, container, volume, path, published.value);
      } else if VolumeShown(k.gauge, p, r, container, volume, path).Some? {
        JoinedIfShown(cfg, k.gauge, p, r, container, volume, path);
      }
    }
  }

  // ---- Container limits ----

  /** The last match at the same place in two lists. */
  lemma {:induction false} LastAlong<S, T>(a: seq<S>, b: seq<T>, p: S -> bool, q: T -> bool) returns (i: int)
    requires |a| == |b| && forall n | 0 <= n < |a| :: p(a[n]) == q(b[n])
    ensures Last(a, p).Some? <==> Last(b, q).Some?
    ensures Last(a, p).Some? ==> 0 <= i < |a| && Last(a, p) == Some(a[i]) && Last(b, q) == Some(b[i])
  {
    i := -1;
    if a != [] {
      if p(a[|a| - 1]) {
        i := |a| - 1;
      } else {
        i := LastAlong(a[..|a| - 1], b[..|b| - 1], p, q);
      }
    }
  }

  lemma OwnLimitKept(cfg: Config, p: PodObject, i: nat)
    requires i < |p.containers| && cfg.containerLimitsPercentage
    ensures var kept := PodData(cfg, p).containers[i];
            && kept.name == p.containers[i].name
            && (kept.limit != 0.0 <==> OwnLimit(p.containers[i]).Some?)
            && (kept.limit != 0.0 ==> OwnLimit(p.containers[i]) == Some(kept.limit))
  {
    hide MountedVolumes;
  }

  lemma LimitedExact(cfg: Config, p: PodObject, container: string, source: string) returns (i: int)
    requires cfg.containerLimitsPercentage && (source == "container" || source == "node")
    ensures var cs := PodData(cfg, p).containers;
            var last := Last(cs, LimitedBy(container, source));
            var manifest := if source == "container" then WithOwnLimit(p, container) else WithoutOwnLimit(p, container);
            && (last.Some? <==> manifest.Some?)
            && (last.Some? ==> 0 <= i < |cs| && last == Some(cs[i]) && manifest == Some(p.containers[i]))
  {
    hide PodData, OwnLimit, Last;
    var cs := PodData(cfg, p).containers;
    SameLength(cfg, p);
    forall n | 0 <= n < |cs|
      ensures LimitedBy(container, source)(cs[n]) ==
          (&& p.containers[n].name == container
           && if source == "container" then OwnLimit(p.containers[n]).Some? else OwnLimit(p.containers[n]).None?)
    {
      OwnLimitKept(cfg, p, n);
      assert "container"[0] != "node"[0];
    }
    if source == "container" {
      i := LastAlong(cs, p.containers, LimitedBy(container, source),
          (c: ContainerSpec) => c.name == container && OwnLimit(c).Some?);
    } else {
      i := LastAlong(cs, p.containers, LimitedBy(container, source),
          (c: ContainerSpec) => c.name == container && OwnLimit(c).None?);
    }
  }

  lemma SameLength(cfg: Config, p: PodObject)
    ensures |PodData(cfg, p).containers| == |p.containers|
  {
  }

  lemma LimitExact(cfg: Config, node: string, r: PodRecord, p: PodObject, k: Key)
    requires k.gauge.LimitPercentage? && cfg.containerLimitsPercentage
    ensures LimitPublished(PlaceOf(node, r), PodData(cfg, p).containers, r, k) == LimitFigure(cfg, node, r, p, k)
  {
    hide PodData, ShareOfLimit, ShareOfNode, AtMost100, NodeShare, OwnLimit, WithOwnLimit, WithoutOwnLimit, Last;
    NodeShareExact(r);
    if k.labels.container.Some? && k.labels.source.Some? {
      var container, source := k.labels.container.value, k.labels.source.value;
      var cs := PodData(cfg, p).containers;
      if source == "container" || source == "node" {
        var i := LimitedExact(cfg, p, container, source);
        SameLength(cfg, p);
        if Last(cs, LimitedBy(container, source)).Some? {
          OwnLimitKept(cfg, p, i);
          assert LimitedBy(container, source)(cs[i]);
          if cs[i].limit != 0.0 {
            ShareExact(r.usedBytes, cs[i].limit);
          }
        }
        assert "container"[0] != "node"[0];
      } else {
        LastExact(cs, LimitedBy(container, source));
      }
    }
  }

  // ---- Every gauge, over whole runs ----

  /** What the cache keeps of the manifest. */
  function Kept(cfg: Config, p: Option<PodObject>): seq<Container> {
    if p.Some? then PodData(cfg, p.value).containers else []
  }

  lemma FigureExact(cfg: Config, node: string, r: PodRecord, p: Option<PodObject>, k: Key)
    requires !k.gauge.AdjustedPollingRate?
    ensures (if k.gauge.OfPods() then Published(cfg, Kept(cfg, p), node, r, k)
             else NodeMonitor.NodePublished(cfg, node, r.availableBytes, r.capacityBytes, k)) ==
        Figure(cfg, node, r, p, k)
  {
    hide Published, NodeMonitor.NodePublished, NodeFigure, PodFigure, ContainerFigure, PodData;
    if !k.gauge.OfPods() {
      NodeExact(cfg, node, r, k);
    } else if k.gauge in {PodUsage, Inodes, InodesFree, InodesUsed} {
      PodExact(cfg, Kept(cfg, p), node, r, k);
    } else if FsGauge(Rootfs, k.gauge) || FsGauge(Logs, k.gauge) {
      ContainerExact(cfg, Kept(cfg, p), node, r, k);
    } else {
      FromManifestExact(cfg, node, r, p, k);
    }
  }

  lemma FromManifestExact(cfg: Config, node: string, r: PodRecord, p: Option<PodObject>, k: Key)
    requires k.gauge in {VolumeUsage, VolumeLimitPercentage, LimitPercentage}
    ensures Published(cfg, Kept(cfg, p), node, r, k) == Figure(cfg, node, r, p, k)
  {
    hide PodData, VolumeShown, AtMost100, NodeShare, WithOwnLimit, WithoutOwnLimit;
    if p.None? {
      NothingFromNothing(cfg, node, r, k);
    } else if k.gauge.LimitPercentage? {
      if cfg.containerLimitsPercentage {
        LimitExact(cfg, node, r, p.value, k);
      }
    } else if CacheHistory.VolumeGauge(cfg, k.gauge) {
      VolumeExact(cfg, node, r, p.value, k);
    }
  }

  lemma NothingFromNothing(cfg: Config, node: string, r: PodRecord, k: Key)
    requires k.gauge in {VolumeUsage, VolumeLimitPercentage, LimitPercentage}
    ensures Published(cfg, [], node, r, k) == None
  {
  }

  lemma {:induction false} ManifestExact(cfg: Config, log: Log, name: string)
    ensures Containers(Run(cfg, log).lookup, name) == Kept(cfg, Manifest(log, name))
    ensures name in Run(cfg, log).lookup <==> Manifest(log, name).Some?
  {
    hide Step, PodData, RunFrom;
    if log == [] {
      EmptyRun(cfg);
    } else {
      var front, e := log[..|log| - 1], log[|log| - 1];
      assert log == front + [e];
      ManifestExact(cfg, front, name);
      RunOneMore(cfg, Init(cfg), front, e);
      CacheHistory.LookupStep(cfg, Run(cfg, front), e, name);
      if e.PodsListed? {
        SameLast(e.pods, RunningNamed(name), (p: PodObject) => p.phase == "Running" && p.name == name);
      }
    }
  }

  /** What record `j` of scrape `i` gives to the series. */
  function FigureAt(cfg: Config, log: Log, i: int, j: int, k: Key): Option<Value> {
    if 0 <= i < |log| && log[i].Scraped? && 0 <= j < |log[i].summary| && Counts(log[i].summary[j]) then
      Figure(cfg, log[i].node, log[i].summary[j], Manifest(log[..i], log[i].summary[j].name), k)
    else None
  }

  lemma FigureAtExact(cfg: Config, log: Log, i: int, j: int, k: Key)
    requires !k.gauge.AdjustedPollingRate?
    ensures RecordAt(cfg, log, i, j, k) == FigureAt(cfg, log, i, j, k)
  {
    hide Run, Figure, Manifest, Published, NodeMonitor.NodePublished, Kept;
    if 0 <= i < |log| && log[i].Scraped? && 0 <= j < |log[i].summary| {
      var r := log[i].summary[j];
      ManifestExact(cfg, log[..i], r.name);
      FigureExact(cfg, log[i].node, r, Manifest(log[..i], r.name), k);
    }
  }

  /** Record `j` of scrape `i` is the latest with a figure for the series, and nothing has cleared the series since. */
  ghost predicate LatestFigure(cfg: Config, log: Log, i: int, j: int, k: Key) {
    && FigureAt(cfg, log, i, j, k).Some? && 0 <= i < |log|
    && (forall i', j' | FigureAt(cfg, log, i', j', k).Some? :: i' < i || (i' == i && j' <= j))
    && (forall i' | i < i' < |log| :: !ClearsAt(cfg, log, i', k))
  }

  lemma LatestFigureExact(cfg: Config, log: Log, i: int, j: int, k: Key)
    requires !k.gauge.AdjustedPollingRate?
    ensures LatestFigure(cfg, log, i, j, k) <==> LatestRecord(cfg, log, i, j, k)
  {
    hide FigureAt, RecordAt, ClearsAt;
    forall i', j' ensures RecordAt(cfg, log, i', j', k) == FigureAt(cfg, log, i', j', k) {
      FigureAtExact(cfg, log, i', j', k);
    }
  }

  /** In every state each of the 24 gauges that records set shows, for every series, the figure that the latest record
      with one for it gives, and the series exists exactly if nothing cleared it since. */
  lemma GaugesShowFigures(cfg: Config, log: Log, k: Key, v: Value)
    requires !k.gauge.AdjustedPollingRate?
    ensures Get(Run(cfg, log).samples, k) == Some(v)
       <==> exists i, j :: LatestFigure(cfg, log, i, j, k) && FigureAt(cfg, log, i, j, k) == Some(v)
  {
    hide Run, FigureAt, RecordAt, LatestFigure, LatestRecord;
    SeriesFollowRecords(cfg, log, k, v);
    forall i, j
      ensures LatestFigure(cfg, log, i, j, k) <==> LatestRecord(cfg, log, i, j, k)
      ensures RecordAt(cfg, log, i, j, k) == FigureAt(cfg, log, i, j, k)
    {
      LatestFigureExact(cfg, log, i, j, k);
      FigureAtExact(cfg, log, i, j, k);
    }
  }

  /** Scrape `i` is the node's latest, and no event has dropped the node since. */
  ghost predicate LatestScrape(log: Log, node: string, i: int) {
    && 0 <= i < |log| && log[i].Scraped? && log[i].node == node
    && forall j | i < j < |log| ::
         && !(log[j].Scraped? && log[j].node == node)
         && log[j] != QueryFailed(node) && log[j] != NodeDeleted(node)
  }

  function RateKey(node: string): Key {
    Key(AdjustedPollingRate, Labels(Some(node), None, None, None, None, None, None))
  }

  lemma RateEvents(cfg: Config, log: Log, node: string, i: nat)
    requires i < |log|
    ensures PutAt(cfg, log, i, RateKey(node)) ==
            if cfg.adjustedPollingRate && log[i].Scraped? && log[i].node == node then Some(Real(log[i].adjust as real))
            else None
    ensures ClearsAt(cfg, log, i, RateKey(node)) <==>
            cfg.adjustedPollingRate && (log[i] == QueryFailed(node) || log[i] == NodeDeleted(node))
  {
    hide Run, SummaryValue, ReportedNames, Scrapes, Tracker.ReportedAgo;
  }

  lemma RateLive(cfg: Config, log: Log, node: string, i: int, v: Value)
    ensures LiveSince(cfg, log, RateKey(node), i, v) <==>
        cfg.adjustedPollingRate && LatestScrape(log, node, i) && v == Real(log[i].adjust as real)
  {
    hide PutAt, ClearsAt, RateKey;
    forall j | 0 <= j < |log|
      ensures PutAt(cfg, log, j, RateKey(node)) ==
              if cfg.adjustedPollingRate && log[j].Scraped? && log[j].node == node
              then Some(Real(log[j].adjust as real)) else None
      ensures ClearsAt(cfg, log, j, RateKey(node)) <==>
              cfg.adjustedPollingRate && (log[j] == QueryFailed(node) || log[j] == NodeDeleted(node))
    {
      RateEvents(cfg, log, node, j);
    }
  }

  /** The polling-rate gauge, the 25th, shows the adjustment of the node's latest scrape. */
  lemma RateShowsAdjustment(cfg: Config, log: Log, node: string, v: Value)
    ensures Get(Run(cfg, log).samples, RateKey(node)) == Some(v) <==>
            cfg.adjustedPollingRate && exists i :: LatestScrape(log, node, i) && v == Real(log[i].adjust as real)
  {
    hide Run, LiveSince, RateKey;
    SeriesFollowLog(cfg, log, RateKey(node), v);
    forall i
      ensures LiveSince(cfg, log, RateKey(node), i, v) <==>
              cfg.adjustedPollingRate && LatestScrape(log, node, i) && v == Real(log[i].adjust as real)
    {
      RateLive(cfg, log, node, i, v);
    }
  }

  // ---- One scrape of one record ----

  /** The skip rule: a scrape of one record sets the pod's usage to the record's exactly if the record has a namespace
      and one of its six figures is not zero. */
  lemma CountedExactly(cfg: Config, s: State, node: string, r: PodRecord, adjust: int)
    requires cfg.podUsage
    ensures var k := Key(PodUsage, Labels(Some(node), Some(r.name), Some(r.namespace), None, None, None, None));
            Put(cfg, s, Scraped(node, [r], adjust), k) ==
            if && r.namespace != ""
               && (|| r.usedBytes != 0.0 || r.availableBytes != 0.0 || r.capacityBytes != 0.0
                   || r.inodes != 0.0 || r.inodesFree != 0.0 || r.inodesUsed != 0.0)
            then Some(Real(r.usedBytes)) else None
  {
    var k := Key(PodUsage, Labels(Some(node), Some(r.name), Some(r.namespace), None, None, None, None));
    OneRecord(cfg, s.lookup, node, r, k);
    PodExact(cfg, Containers(s.lookup, r.name), node, r, k);
  }

  lemma OneRecord(cfg: Config, lookup: Lookup, node: string, r: PodRecord, k: Key)
    ensures SummaryValue(cfg, lookup, node, [r], k) == if Counts(r) then RecordValue(cfg, lookup, node, k, r) else None
  {
    hide RecordValue;
    var sets := Sets(cfg, lookup, node, k);
    LastIsIn([r], sets);
    if sets(r) {
      SomeLast([r], sets, r);
    }
  }

  /** A record that does not count leaves every series that records set as the eviction of stale pods leaves it. */
  lemma UncountedSetsNothing(cfg: Config, s: State, node: string, r: PodRecord, adjust: int, k: Key)
    requires !k.gauge.AdjustedPollingRate?
    requires || r.namespace == ""
             || (&& r.usedBytes == 0.0 && r.availableBytes == 0.0 && r.capacityBytes == 0.0
                 && r.inodes == 0.0 && r.inodesFree == 0.0 && r.inodesUsed == 0.0)
    ensures Get(Step(cfg, s, Scraped(node, [r], adjust)).samples, k) ==
        Get(WithoutPods(s.samples, StaleNow(cfg, s, node, [r])), k)
  {
    hide Step, StaleNow, SummaryValue, Figure;
    StepEffect(cfg, s, Scraped(node, [r], adjust), k);
    OneRecord(cfg, s.lookup, node, r, k);
  }

  // ---- The container gauges, field by field ----

  /** Record `j` of scrape `i` is published for this pod, `c` is its last stats entry for the container, no later
      published record of the pod has one, and nothing has cleared the container's series since. */
  ghost predicate LatestEntry(cfg: Config, log: Log, w: Place, container: string, i: int, j: int, c: ContainerStats) {
    && EntryAt(log, w, container, i, j) == Some(c) && 0 <= i < |log|
    && (forall i', j' | EntryAt(log, w, container, i', j').Some? :: i' < i || (i' == i && j' <= j))
    && (forall i' | i < i' < |log| :: !ClearsAt(cfg, log, i', OfContainer(RootfsUsed, w, container)))
  }

  function EntryAt(log: Log, w: Place, container: string, i: int, j: int): Option<ContainerStats> {
    if && 0 <= i < |log| && log[i].Scraped? && log[i].node == w.node && 0 <= j < |log[i].summary|
       && Counts(log[i].summary[j]) && log[i].summary[j].name == w.pod && log[i].summary[j].namespace == w.namespace
    then EntryOf(log[i].summary[j], container)
    else None
  }

  function OfContainer(g: Gauge, w: Place, container: string): Key {
    Key(g, Labels(Some(w.node), Some(w.pod), Some(w.namespace), Some(container), None, None, None))
  }

  /** The field of a stats entry that a byte or inode gauge shows, and the settings that enable the gauge. */
  function Field(cfg: Config, g: Gauge, c: ContainerStats): Option<int> {
    match g
    case RootfsUsed => Given(cfg.containerRootfsUsage, Some(c.rootfs.usedBytes))
    case RootfsAvailable => Given(cfg.containerRootfsUsage, Some(c.rootfs.availableBytes))
    case RootfsCapacity => Given(cfg.containerRootfsUsage, Some(c.rootfs.capacityBytes))
    case RootfsInodes => Given(cfg.containerRootfsUsage && cfg.inodes, Some(c.rootfs.inodes))
    case RootfsInodesFree => Given(cfg.containerRootfsUsage && cfg.inodes, Some(c.rootfs.inodesFree))
    case RootfsInodesUsed => Given(cfg.containerRootfsUsage && cfg.inodes, Some(c.rootfs.inodesUsed))
    case LogsUsed => Given(cfg.containerLogsUsage, Some(c.logs.usedBytes))
    case LogsAvailable => Given(cfg.containerLogsUsage, Some(c.logs.availableBytes))
    case LogsCapacity => Given(cfg.containerLogsUsage, Some(c.logs.capacityBytes))
    case LogsInodes => Given(cfg.containerLogsUsage && cfg.inodes, Some(c.logs.inodes))
    case LogsInodesFree => Given(cfg.containerLogsUsage && cfg.inodes, Some(c.logs.inodesFree))
    case LogsInodesUsed => Given(cfg.containerLogsUsage && cfg.inodes, Some(c.logs.inodesUsed))
    case _ => None
  }

  predicate OfFields(g: Gauge) {
    (g.OfFilesystem() || g.OfContainerInodes()) && !g.RootfsPercentage? && !g.LogsPercentage?
  }

  lemma FieldAt(cfg: Config, log: Log, w: Place, container: string, i: int, j: int, g: Gauge)
    requires OfFields(g)
    ensures FigureAt(cfg, log, i, j, OfContainer(g, w, container)) ==
            match EntryAt(log, w, container, i, j)
            case None => None
            case Some(c) => if Field(cfg, g, c).Some? then Some(Real(Field(cfg, g, c).value as real)) else None
  {
    hide EntryOf, Manifest;
  }

  /** Each byte and inode gauge of a container shows its own field of the latest entry, if it is enabled. */
  lemma ShowsField(cfg: Config, log: Log, w: Place, container: string, i: int, j: int, c: ContainerStats, g: Gauge)
    requires LatestEntry(cfg, log, w, container, i, j, c) && OfFields(g) && Field(cfg, g, c).Some?
    ensures Get(Run(cfg, log).samples, OfContainer(g, w, container)) == Some(Real(Field(cfg, g, c).value as real))
  {
    hide Run, EntryAt, FigureAt, ClearsAt, OfContainer, Field;
    var k := OfContainer(g, w, container);
    forall i', j' | FigureAt(cfg, log, i', j', k).Some? ensures i' < i || (i' == i && j' <= j) {
      FieldAt(cfg, log, w, container, i', j', g);
    }
    FieldAt(cfg, log, w, container, i, j, g);
    forall i' | i < i' < |log| ensures !ClearsAt(cfg, log, i', k) {
      SameClears(cfg, log, i', g, w, container);
    }
    NotRate(g, w, container);
    GaugesShowFigures(cfg, log, k, Real(Field(cfg, g, c).value as real));
    assert LatestFigure(cfg, log, i, j, k);
  }

  lemma NotRate(g: Gauge, w: Place, container: string)
    requires OfFields(g)
    ensures !OfContainer(g, w, container).gauge.AdjustedPollingRate?
  {
  }

  lemma SameClears(cfg: Config, log: Log, i: nat, g: Gauge, w: Place, container: string)
    requires i < |log| && OfFields(g)
    ensures ClearsAt(cfg, log, i, OfContainer(g, w, container)) <==>
        ClearsAt(cfg, log, i, OfContainer(RootfsUsed, w, container))
  {
    hide ReportedNames, Scrapes, Tracker.ReportedAgo;
  }

  function Shown(cfg: Config, log: Log, g: Gauge, w: Place, container: string): Option<Value> {
    Get(Run(cfg, log).samples, OfContainer(g, w, container))
  }

  /** The byte and inode gauges of a container's rootfs, one by one, after the latest record with an entry for it. */
  lemma RootfsGaugesShow(cfg: Config, log: Log, w: Place, container: string, i: int, j: int, c: ContainerStats)
    requires LatestEntry(cfg, log, w, container, i, j, c)
    ensures cfg.containerRootfsUsage ==>
              && Shown(cfg, log, RootfsUsed, w, container) == Some(Real(c.rootfs.usedBytes as real))
              && Shown(cfg, log, RootfsAvailable, w, container) == Some(Real(c.rootfs.availableBytes as real))
              && Shown(cfg, log, RootfsCapacity, w, container) == Some(Real(c.rootfs.capacityBytes as real))
    ensures cfg.containerRootfsUsage && cfg.inodes ==>
              && Shown(cfg, log, RootfsInodes, w, container) == Some(Real(c.rootfs.inodes as real))
              && Shown(cfg, log, RootfsInodesFree, w, container) == Some(Real(c.rootfs.inodesFree as real))
              && Shown(cfg, log, RootfsInodesUsed, w, container) == Some(Real(c.rootfs.inodesUsed as real))
  {
    hide Run, LatestEntry, OfContainer;
    if cfg.containerRootfsUsage {
      ShowsField(cfg, log, w, container, i, j, c, RootfsUsed);
      ShowsField(cfg, log, w, container, i, j, c, RootfsAvailable);
      ShowsField(cfg, log, w, container, i, j, c, RootfsCapacity);
    }
    if cfg.containerRootfsUsage && cfg.inodes {
      ShowsField(cfg, log, w, container, i, j, c, RootfsInodes);
      ShowsField(cfg, log, w, container, i, j, c, RootfsInodesFree);
      ShowsField(cfg, log, w, container, i, j, c, RootfsInodesUsed);
    }
  }

  /** The byte and inode gauges of a container's logs, one by one, after the latest record with an entry for it. */
  lemma LogsGaugesShow(cfg: Config, log: Log, w: Place, container: string, i: int, j: int, c: ContainerStats)
    requires LatestEntry(cfg, log, w, container, i, j, c)
    ensures cfg.containerLogsUsage ==>
              && Shown(cfg, log, LogsUsed, w, container) == Some(Real(c.logs.usedBytes as real))
              && Shown(cfg, log, LogsAvailable, w, container) == Some(Real(c.logs.availableBytes as real))
              && Shown(cfg, log, LogsCapacity, w, container) == Some(Real(c.logs.capacityBytes as real))
    ensures cfg.containerLogsUsage && cfg.inodes ==>
              && Shown(cfg, log, LogsInodes, w, container) == Some(Real(c.logs.inodes as real))
              && Shown(cfg, log, LogsInodesFree, w, container) == Some(Real(c.logs.inodesFree as real))
              && Shown(cfg, log, LogsInodesUsed, w, container) == Some(Real(c.logs.inodesUsed as real))
  {
    hide Run, LatestEntry, OfContainer;
    if cfg.containerLogsUsage {
      ShowsField(cfg, log, w, container, i, j, c, LogsUsed);
      ShowsField(cfg, log, w, container, i, j, c, LogsAvailable);
      ShowsField(cfg, log, w, container, i, j, c, LogsCapacity);
    }
    if cfg.containerLogsUsage && cfg.inodes {
      ShowsField(cfg, log, w, container, i, j, c, LogsInodes);
      ShowsField(cfg, log, w, container, i, j, c, LogsInodesFree);
      ShowsField(cfg, log, w, container, i, j, c, LogsInodesUsed);
    }
  }

  /** The two percentages, if that entry has a capacity. */
  lemma ContainerPercentagesShow(cfg: Config, log: Log, w: Place, container: string, i: int, j: int, c: ContainerStats)
    requires LatestEntry(cfg, log, w, container, i, j, c)
    ensures cfg.containerRootfsUsage && c.rootfs.capacityBytes > 0 ==>
              Shown(cfg, log, RootfsPercentage, w, container) ==
                  Some(Real(c.rootfs.usedBytes as real / c.rootfs.capacityBytes as real * 100.0))
    ensures cfg.containerLogsUsage && c.logs.capacityBytes > 0 ==>
              Shown(cfg, log, LogsPercentage, w, container) ==
                  Some(Real(c.logs.usedBytes as real / c.logs.capacityBytes as real * 100.0))
  {
    hide Run, LatestEntry;
    RootfsGaugesShow(cfg, log, w, container, i, j, c);
    LogsGaugesShow(cfg, log, w, container, i, j, c);
    if cfg.containerRootfsUsage && c.rootfs.capacityBytes > 0 {
      var used := PercentageOfBytes(cfg, log, Rootfs, w, container, c.rootfs.capacityBytes as real);
    }
    if cfg.containerLogsUsage && c.logs.capacityBytes > 0 {
      var used := PercentageOfBytes(cfg, log, Logs, w, container, c.logs.capacityBytes as real);
    }
  }

  // ---- The clamped percentages, as quotients ----

  /** Up to the limit the quotient of the used bytes, in binary units, and the limit; beyond it 100. */
  predicate IsShare(share: real, used: real, limit: real) {
    if used * 1.024 <= limit then share * limit == used * 1.024 * 100.0 else share == 100.0
  }

  lemma AtMost100IsShare(used: real, limit: real)
    requires limit > 0.0
    ensures IsShare(AtMost100(used * 1.024 / limit * 100.0).r, used, limit)
  {
    var quotient := used * 1.024 / limit;
    assert quotient * limit == used * 1.024 && quotient * 100.0 * limit == quotient * limit * 100.0;
    if used * 1.024 <= limit {
      assert quotient * limit <= 1.0 * limit;
      assert quotient <= 1.0;
    } else {
      assert quotient * limit > 1.0 * limit;
      assert quotient > 1.0;
    }
  }

  lemma LatestIsShown(cfg: Config, log: Log, i: int, j: int, k: Key)
    requires !k.gauge.AdjustedPollingRate? && LatestFigure(cfg, log, i, j, k)
    ensures Get(Run(cfg, log).samples, k) == FigureAt(cfg, log, i, j, k)
    ensures 0 <= i < |log| && log[i].Scraped? && 0 <= j < |log[i].summary|
  {
    hide Run, Figure, ClearsAt;
    GaugesShowFigures(cfg, log, k, FigureAt(cfg, log, i, j, k).value);
  }

  /** A volume-limit percentage is the share that the listed volume's used bytes are of the size limit. */
  lemma VolumeLimitIsShare(cfg: Config, log: Log, i: int, j: int, k: Key) returns (used: real, limit: real, share: real)
    requires k.gauge.VolumeLimitPercentage? && LatestFigure(cfg, log, i, j, k)
    ensures 0 <= i < |log| && log[i].Scraped? && 0 <= j < |log[i].summary| && k.labels.volume.Some?
    ensures var r := log[i].summary[j];
            var p := Manifest(log[..i], r.name);
            && p.Some? && Declared(p.value, k.labels.volume.value) == Some(EmptyDir(Some(limit)))
            && ListedVolume(r, k.labels.volume.value).Some?
            && used == ListedVolume(r, k.labels.volume.value).value.usedBytes as real
    ensures Get(Run(cfg, log).samples, k) == Some(Real(share)) && (limit > 0.0 ==> IsShare(share, used, limit))
  {
    hide Run, ClearsAt, Manifest, Declared, ListedVolume, HasMount, IsShare;
    LatestIsShown(cfg, log, i, j, k);
    var r := log[i].summary[j];
    var p := Manifest(log[..i], r.name).value;
    used := ListedVolume(r, k.labels.volume.value).value.usedBytes as real;
    limit := Declared(p, k.labels.volume.value).value.sizeLimit.value;
    share := FigureAt(cfg, log, i, j, k).value.r;
    if limit > 0.0 {
      AtMost100IsShare(used, limit);
    }
  }

  /** A container-limit percentage from the container is the share that the record's used bytes are of its own limit. */
  lemma ContainerLimitIsShare(cfg: Config, log: Log, i: int, j: int, k: Key) returns (limit: real, share: real)
    requires k.gauge.LimitPercentage? && k.labels.source == Some("container") && LatestFigure(cfg, log, i, j, k)
    ensures 0 <= i < |log| && log[i].Scraped? && 0 <= j < |log[i].summary| && k.labels.container.Some?
    ensures var p := Manifest(log[..i], log[i].summary[j].name);
            && p.Some? && WithOwnLimit(p.value, k.labels.container.value).Some?
            && OwnLimit(WithOwnLimit(p.value, k.labels.container.value).value) == Some(limit)
    ensures Get(Run(cfg, log).samples, k) == Some(Real(share))
    ensures limit > 0.0 ==> IsShare(share, log[i].summary[j].usedBytes, limit)
  {
    hide Run, ClearsAt, Manifest, IsShare;
    LatestIsShown(cfg, log, i, j, k);
    var r := log[i].summary[j];
    var p := Manifest(log[..i], r.name).value;
    limit := OwnLimit(WithOwnLimit(p, k.labels.container.value).value).value;
    share := FigureAt(cfg, log, i, j, k).value.r;
    if limit > 0.0 {
      AtMost100IsShare(r.usedBytes, limit);
    }
  }
}
