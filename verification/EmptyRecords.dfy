/** Which published records set no series at all: decided by the flags, the record and the cached containers. */
module EmptyRecords {
  import opened Sequences
  import opened Series
  import opened Settings
  import PodSpecs
  import opened PodMetrics
  import Exporter

  predicate NodeSetsNothing(cfg: Config) {
    !cfg.nodeAvailable && !cfg.nodeCapacity && !cfg.nodePercentage
  }

  /** Some cached mount has its volume in the record, and a size limit if the gauge needs one. */
  ghost predicate Joins(g: Gauge, cs: seq<PodSpecs.Container>, vs: seq<Volume>) {
    exists c, m, v :: c in cs && m in c.emptyDirVolumes && v in vs && m.name == v.name
                      && (g.VolumeLimitPercentage? ==> m.sizeLimit != 0.0)
  }

  /** No enabled pod gauge finds anything in the record and the cached containers. */
  ghost predicate PodSetsNothing(cfg: Config, cs: seq<PodSpecs.Container>, r: PodRecord) {
    && !cfg.podUsage && !cfg.inodes
    && (cfg.containerRootfsUsage || cfg.containerLogsUsage ==> r.containers == [])
    && (cfg.containerLimitsPercentage ==> cs == [])
    && (cfg.containerVolumeUsage ==> !Joins(VolumeUsage, cs, r.volumes))
    && (cfg.containerVolumeLimitsPercentage ==> !Joins(VolumeLimitPercentage, cs, r.volumes))
  }

  lemma NothingJoined(g: Gauge, w: Place, cs: seq<PodSpecs.Container>, vs: seq<Volume>, k: Key)
    requires g.OfPods() && !Joins(g, cs, vs)
    ensures VolumePublished(g, w, cs, vs, k) == None
  {
    hide VolumeValue;
    if IsVolumeKey(g, w, k) {
      var container, volume, path := k.labels.container.value, k.labels.volume.value, k.labels.mountPath.value;
      LastIsIn(cs, MountingAt(g, container, volume, path));
      if Last(cs, MountingAt(g, container, volume, path)).Some? {
        var c := Last(cs, MountingAt(g, container, volume, path)).value;
        LastIsIn(c.emptyDirVolumes, MountAt(g, volume, path));
        LastIsIn(vs, VolumeNamed(volume));
      }
    }
  }

  lemma JoinedIsPublished(g: Gauge, w: Place, cs: seq<PodSpecs.Container>, vs: seq<Volume>) returns (k: Key)
    requires g.OfPods() && Joins(g, cs, vs)
    ensures k.gauge == g && VolumePublished(g, w, cs, vs, k).Some?
  {
    hide VolumeValue;
    var c, m, v :| c in cs && m in c.emptyDirVolumes && v in vs && m.name == v.name
                   && (g.VolumeLimitPercentage? ==> m.sizeLimit != 0.0);
    SomeLast(vs, VolumeNamed(v.name), v);
    SomeLast(c.emptyDirVolumes, MountAt(g, v.name, m.mountPath), m);
    SomeLast(cs, MountingAt(g, c.name, v.name, m.mountPath), c);
    k := Key(g, VolumeLabels(w, c.name, v.name, m.mountPath));
  }

  lemma FsSetsSomething(fs: Filesystem, inodes: bool, w: Place, cs: seq<ContainerStats>) returns (k: Key)
    requires cs != []
    ensures FsGauge(fs, k.gauge) && FsPublished(fs, inodes, w, cs, k).Some?
  {
    k := Key(fs.Used(), ContainerLabels(w, cs[0].name));
    SomeLast(cs, Reporting(fs, inodes, fs.Used(), cs[0].name), cs[0]);
  }

  lemma LimitSetsSomething(w: Place, cs: seq<PodSpecs.Container>, r: PodRecord) returns (k: Key)
    requires cs != []
    ensures k.gauge.LimitPercentage? && LimitPublished(w, cs, r, k).Some?
  {
    hide LimitShare;
    k := Key(LimitPercentage, LimitLabels(w, cs[0].name, SourceOf(cs[0])));
    SomeLast(cs, LimitedBy(cs[0].name, SourceOf(cs[0])), cs[0]);
  }

  lemma PodSetsNone(cfg: Config, cs: seq<PodSpecs.Container>, node: string, r: PodRecord, k: Key)
    requires PodSetsNothing(cfg, cs, r)
    ensures Published(cfg, cs, node, r, k) == None
  {
    hide Joins, VolumePublished;
    if cfg.containerVolumeUsage {
      NothingJoined(VolumeUsage, PlaceOf(node, r), cs, r.volumes, k);
    }
    if cfg.containerVolumeLimitsPercentage {
      NothingJoined(VolumeLimitPercentage, PlaceOf(node, r), cs, r.volumes, k);
    }
  }

  lemma PodSetsSome(cfg: Config, cs: seq<PodSpecs.Container>, node: string, r: PodRecord) returns (k: Key)
    requires !PodSetsNothing(cfg, cs, r)
    ensures Published(cfg, cs, node, r, k).Some?
  {
    hide Joins, VolumePublished, LimitPublished, FsPublished;
    var w := PlaceOf(node, r);
    if cfg.podUsage {
      k := Key(PodUsage, PodLabels(w));
    } else if cfg.inodes {
      k := Key(Inodes, PodLabels(w));
    } else if cfg.containerRootfsUsage && r.containers != [] {
      k := FsSetsSomething(Rootfs, cfg.inodes, w, r.containers);
    } else if cfg.containerLogsUsage && r.containers != [] {
      k := FsSetsSomething(Logs, cfg.inodes, w, r.containers);
    } else if cfg.containerLimitsPercentage && cs != [] {
      k := LimitSetsSomething(w, cs, r);
    } else if cfg.containerVolumeUsage && Joins(VolumeUsage, cs, r.volumes) {
      k := JoinedIsPublished(VolumeUsage, w, cs, r.volumes);
    } else {
      k := JoinedIsPublished(VolumeLimitPercentage, w, cs, r.volumes);
    }
  }

  /** The flags, the record and the cache decide whether a record sets any series at all. */
  lemma RecordSetsNothingExactly(cfg: Config, lookup: PodSpecs.Lookup, node: string, r: PodRecord)
    ensures Exporter.RecordWrites(cfg, lookup, node, r) == map[]
       <==> NodeSetsNothing(cfg) && PodSetsNothing(cfg, Containers(lookup, r.name), r)
  {
    hide Exporter.RecordWrites, Published, PodSetsNothing;
    var cs := Containers(lookup, r.name);
    if !PodSetsNothing(cfg, cs, r) {
      var k := PodSetsSome(cfg, cs, node, r);
      Exporter.RecordWritesExact(cfg, lookup, node, r, k);
    } else if !NodeSetsNothing(cfg) {
      var g := if cfg.nodeAvailable then NodeAvailable else if cfg.nodeCapacity then NodeCapacity else NodePercentage;
      Exporter.RecordWritesExact(cfg, lookup, node, r, Key(g, NodeNamed(node)));
    } else {
      forall k ensures k !in Exporter.RecordWrites(cfg, lookup, node, r) {
        Exporter.RecordWritesExact(cfg, lookup, node, r, k);
        PodSetsNone(cfg, cs, node, r, k);
      }
    }
  }
}
