/** What publishing one pod record writes to the pod gauges.  Writes are maps merged left to right, the right one
    winning, because a gauge keeps the last value set.  `PodWrites` follows the code; `Published` says, series by
    series, what the code is for; `PodWritesExact` proves the two equal. */
module PodMetrics {
  import opened Sequences
  import opened Series
  import opened Settings
  import opened PodSpecs

  // ---- The kubelet's stats summary ----

  datatype FsStats = FsStats(
    availableBytes: int, capacityBytes: int, usedBytes: int, inodes: int, inodesFree: int, inodesUsed: int)
  datatype Volume = Volume(name: string, availableBytes: int, capacityBytes: int, usedBytes: int)
  datatype ContainerStats = ContainerStats(name: string, rootfs: FsStats, logs: FsStats)
  datatype PodRecord = PodRecord(
    name: string,
    namespace: string,
    usedBytes: real,
    availableBytes: real,
    capacityBytes: real,
    inodes: real,
    inodesFree: real,
    inodesUsed: real,
    volumes: seq<Volume>,
    containers: seq<ContainerStats>)
  {
    /** A record without a namespace, or with nothing but zeros, is not published. */
    predicate Skipped() {
      || namespace == ""
      || (usedBytes == 0.0 && availableBytes == 0.0 && capacityBytes == 0.0
          && inodes == 0.0 && inodesFree == 0.0 && inodesUsed == 0.0)
    }
  }

  // ---- Label records ----

  /** The pod a record is about. */
  datatype Place = Place(node: string, namespace: string, pod: string)

  function PlaceOf(node: string, r: PodRecord): Place {
    Place(node, r.namespace, r.name)
  }

  function PodLabels(w: Place): Labels {
    Labels(Some(w.node), Some(w.pod), Some(w.namespace), None, None, None, None)
  }

  function ContainerLabels(w: Place, container: string): Labels {
    Labels(Some(w.node), Some(w.pod), Some(w.namespace), Some(container), None, None, None)
  }

  function LimitLabels(w: Place, container: string, source: string): Labels {
    Labels(Some(w.node), Some(w.pod), Some(w.namespace), Some(container), None, None, Some(source))
  }

  function VolumeLabels(w: Place, container: string, volume: string, mountPath: string): Labels {
    Labels(Some(w.node), Some(w.pod), Some(w.namespace), Some(container), Some(volume), Some(mountPath), None)
  }

  /** The series is one of this pod's, in this namespace and on this node. */
  predicate AtHome(w: Place, k: Key) {
    k.gauge.OfPods() && k.labels.node == Some(w.node) && k.labels.namespace == Some(w.namespace)
        && k.labels.pod == Some(w.pod)
  }

  // ---- Percentages ----

  function Min(a: real, b: real): real { if a <= b then a else b }
  function Max(a: real, b: real): real { if a >= b then a else b }

  /** Used bytes as a share of a limit given in binary units: used * 1.024 against the limit, at most 100. */
  function ShareOfLimit(used: real, limit: real): Value
    requires limit != 0.0
  {
    Real(Min(used * 1.024 / limit * 100.0, 100.0))
  }

  /** The part of the node's capacity that is not available, NaN without a capacity. */
  function ShareOfNode(available: real, capacity: real): Value {
    if capacity > 0.0 then Real(Max(capacity - available, 0.0) * 100.0 / capacity) else NaN
  }

  /** A container's own limit decides if it has one; otherwise the node's storage does. */
  function LimitShare(c: Container, r: PodRecord): Value {
    if c.limit != 0.0 then ShareOfLimit(r.usedBytes, c.limit) else ShareOfNode(r.availableBytes, r.capacityBytes)
  }

  function SourceOf(c: Container): string {
    if c.limit != 0.0 then "container" else "node"
  }

  // ---- Volume gauges: the join of cached mounts with reported volumes ----

  function VolumeValue(g: Gauge, m: Mounted, v: Volume): Value
    requires g.VolumeLimitPercentage? ==> m.sizeLimit != 0.0
  {
    if g.VolumeLimitPercentage? then ShareOfLimit(v.usedBytes as real, m.sizeLimit) else Real(v.usedBytes as real)
  }

  function MatchWrites(g: Gauge, w: Place, container: string, m: Mounted, vs: seq<Volume>): Samples
    requires g.VolumeLimitPercentage? ==> m.sizeLimit != 0.0
  {
    if vs == [] then map[]
    else
      var v := vs[|vs| - 1];
      Merge(
        MatchWrites(g, w, container, m, vs[..|vs| - 1]),
        if m.name == v.name
        then One(g, VolumeLabels(w, container, v.name, m.mountPath), VolumeValue(g, m, v))
        else map[])
  }

  function MountWrites(g: Gauge, w: Place, container: string, ms: seq<Mounted>, vs: seq<Volume>): Samples {
    if ms == [] then map[]
    else
      var m := ms[|ms| - 1];
      Merge(
        MountWrites(g, w, container, ms[..|ms| - 1], vs),
        if g.VolumeLimitPercentage? && m.sizeLimit == 0.0 then map[] else MatchWrites(g, w, container, m, vs))
  }

  function VolumeWrites(g: Gauge, w: Place, cs: seq<Container>, vs: seq<Volume>): Samples {
    if cs == [] then map[]
    else
      var c := cs[|cs| - 1];
      Merge(VolumeWrites(g, w, cs[..|cs| - 1], vs), MountWrites(g, w, c.name, c.emptyDirVolumes, vs))
  }

  function VolumeNamed(name: string): Volume -> bool {
    (v: Volume) => v.name == name
  }

  /** The mount concerns this volume and path, and has what the gauge needs: a limit percentage needs a limit. */
  function MountAt(g: Gauge, volume: string, mountPath: string): Mounted -> bool {
    (m: Mounted) => m.name == volume && m.mountPath == mountPath && (g.VolumeLimitPercentage? ==> m.sizeLimit != 0.0)
  }

  function MountingAt(g: Gauge, container: string, volume: string, mountPath: string): Container -> bool {
    (c: Container) => c.name == container && Last(c.emptyDirVolumes, MountAt(g, volume, mountPath)).Some?
  }

  /** What the mounts of one container set for a volume and path. */
  function MountsPublished(g: Gauge, ms: seq<Mounted>, vs: seq<Volume>, volume: string, path: string): Option<Value> {
    var m, v := Last(ms, MountAt(g, volume, path)), Last(vs, VolumeNamed(volume));
    if m.None? || v.None? then None else Some(VolumeValue(g, m.value, v.value))
  }

  function ContainersPublished(g: Gauge, cs: seq<Container>, vs: seq<Volume>, container: string, volume: string,
      path: string): Option<Value> {
    match Last(cs, MountingAt(g, container, volume, path))
    case None => None
    case Some(c) => MountsPublished(g, c.emptyDirVolumes, vs, volume, path)
  }

  predicate IsVolumeKey(g: Gauge, w: Place, k: Key) {
    k.labels.container.Some? && k.labels.volume.Some? && k.labels.mountPath.Some?
    && k == Key(g, VolumeLabels(w, k.labels.container.value, k.labels.volume.value, k.labels.mountPath.value))
  }

  /** A series for (container, volume, path) is published exactly when a cached container of that name mounts that
      volume there and the summary lists the volume, with the last such volume's bytes. */
  function VolumePublished(g: Gauge, w: Place, cs: seq<Container>, vs: seq<Volume>, k: Key): (r: Option<Value>)
    requires g.OfPods()
    ensures r.Some? ==> k.gauge == g && AtHome(w, k)
  {
    if IsVolumeKey(g, w, k) then
      ContainersPublished(g, cs, vs, k.labels.container.value, k.labels.volume.value, k.labels.mountPath.value)
    else None
  }

  lemma {:induction false} MatchWritesExact(g: Gauge, w: Place, container: string, m: Mounted, vs: seq<Volume>, k: Key)
    requires g.VolumeLimitPercentage? ==> m.sizeLimit != 0.0
    ensures Get(MatchWrites(g, w, container, m, vs), k) ==
            if k != Key(g, VolumeLabels(w, container, m.name, m.mountPath)) then None
            else match Last(vs, VolumeNamed(m.name)) case None => None case Some(v) => Some(VolumeValue(g, m, v))
  {
    if vs != [] {
      MatchWritesExact(g, w, container, m, vs[..|vs| - 1], k);
    }
  }

  lemma {:induction false} MountWritesElsewhere(g: Gauge, w: Place, container: string, ms: seq<Mounted>,
      vs: seq<Volume>, k: Key)
    requires k in MountWrites(g, w, container, ms, vs)
    ensures IsVolumeKey(g, w, k) && k.labels.container.value == container
  {
    var m := ms[|ms| - 1];
    if k in MountWrites(g, w, container, ms[..|ms| - 1], vs) {
      MountWritesElsewhere(g, w, container, ms[..|ms| - 1], vs, k);
    } else {
      MatchWritesExact(g, w, container, m, vs, k);
    }
  }

  lemma {:induction false} MountWritesAt(g: Gauge, w: Place, container: string, ms: seq<Mounted>, vs: seq<Volume>,
      volume: string, path: string)
    ensures Get(MountWrites(g, w, container, ms, vs), Key(g, VolumeLabels(w, container, volume, path)))
         == MountsPublished(g, ms, vs, volume, path)
  {
    hide MatchWrites, VolumeValue, Merge;
    if ms != [] {
      var m := ms[|ms| - 1];
      var k := Key(g, VolumeLabels(w, container, volume, path));
      MountWritesAt(g, w, container, ms[..|ms| - 1], vs, volume, path);
      if !(g.VolumeLimitPercentage? && m.sizeLimit == 0.0) {
        MatchWritesExact(g, w, container, m, vs, k);
        MergeExact(MountWrites(g, w, container, ms[..|ms| - 1], vs), MatchWrites(g, w, container, m, vs), k);
      } else {
        MergeNothing(MountWrites(g, w, container, ms[..|ms| - 1], vs));
      }
    }
  }

  lemma {:induction false} VolumeWritesElsewhere(g: Gauge, w: Place, cs: seq<Container>, vs: seq<Volume>, k: Key)
    requires k in VolumeWrites(g, w, cs, vs)
    ensures IsVolumeKey(g, w, k)
  {
    var c := cs[|cs| - 1];
    if k in VolumeWrites(g, w, cs[..|cs| - 1], vs) {
      VolumeWritesElsewhere(g, w, cs[..|cs| - 1], vs, k);
    } else {
      MountWritesElsewhere(g, w, c.name, c.emptyDirVolumes, vs, k);
    }
  }

  lemma {:induction false} VolumeWritesAt(g: Gauge, w: Place, cs: seq<Container>, vs: seq<Volume>, container: string,
      volume: string, path: string)
    ensures Get(VolumeWrites(g, w, cs, vs), Key(g, VolumeLabels(w, container, volume, path)))
         == ContainersPublished(g, cs, vs, container, volume, path)
  {
    hide MountWrites, VolumeValue, Merge;
    if cs != [] {
      var c := cs[|cs| - 1];
      var k := Key(g, VolumeLabels(w, container, volume, path));
      VolumeWritesAt(g, w, cs[..|cs| - 1], vs, container, volume, path);
      MergeExact(VolumeWrites(g, w, cs[..|cs| - 1], vs), MountWrites(g, w, c.name, c.emptyDirVolumes, vs), k);
      if c.name == container {
        MountWritesAt(g, w, container, c.emptyDirVolumes, vs, volume, path);
      } else if k in MountWrites(g, w, c.name, c.emptyDirVolumes, vs) {
        MountWritesElsewhere(g, w, c.name, c.emptyDirVolumes, vs, k);
      }
    }
  }

  lemma VolumeWritesExact(g: Gauge, w: Place, cs: seq<Container>, vs: seq<Volume>, k: Key)
    requires g.OfPods()
    ensures Get(VolumeWrites(g, w, cs, vs), k) == VolumePublished(g, w, cs, vs, k)
  {
    hide VolumeWrites;
    if k in VolumeWrites(g, w, cs, vs) {
      VolumeWritesElsewhere(g, w, cs, vs, k);
    }
    if IsVolumeKey(g, w, k) {
      VolumeWritesAt(g, w, cs, vs, k.labels.container.value, k.labels.volume.value, k.labels.mountPath.value);
    }
  }

  // ---- Container limit gauge ----

  function LimitWrites(w: Place, cs: seq<Container>, r: PodRecord): Samples {
    if cs == [] then map[]
    else
      var c := cs[|cs| - 1];
      Merge(LimitWrites(w, cs[..|cs| - 1], r),
          One(LimitPercentage, LimitLabels(w, c.name, SourceOf(c)), LimitShare(c, r)))
  }

  function LimitedBy(container: string, source: string): Container -> bool {
    (c: Container) => c.name == container && SourceOf(c) == source
  }

  function LimitPublished(w: Place, cs: seq<Container>, r: PodRecord, k: Key): (v: Option<Value>)
    ensures v.Some? ==> k.gauge.LimitPercentage? && AtHome(w, k)
  {
    if k.gauge != LimitPercentage || k.labels.container.None? || k.labels.source.None?
       || k.labels != LimitLabels(w, k.labels.container.value, k.labels.source.value)
    then None
    else match Last(cs, LimitedBy(k.labels.container.value, k.labels.source.value))
      case None => None
      case Some(c) => Some(LimitShare(c, r))
  }

  lemma {:induction false} LimitWritesExact(w: Place, cs: seq<Container>, r: PodRecord, k: Key)
    ensures Get(LimitWrites(w, cs, r), k) == LimitPublished(w, cs, r, k)
  {
    if cs != [] {
      LimitWritesExact(w, cs[..|cs| - 1], r, k);
    }
  }

  // ---- Container rootfs and logs gauges ----

  datatype Filesystem = Rootfs | Logs {
    function StatsOf(c: ContainerStats): FsStats { if Rootfs? then c.rootfs else c.logs }
    function Used(): Gauge { if Rootfs? then RootfsUsed else LogsUsed }
    function Available(): Gauge { if Rootfs? then RootfsAvailable else LogsAvailable }
    function Capacity(): Gauge { if Rootfs? then RootfsCapacity else LogsCapacity }
    function Percentage(): Gauge { if Rootfs? then RootfsPercentage else LogsPercentage }
    function InodesTotal(): Gauge { if Rootfs? then RootfsInodes else LogsInodes }
    function InodesLeft(): Gauge { if Rootfs? then RootfsInodesFree else LogsInodesFree }
    function InodesTaken(): Gauge { if Rootfs? then RootfsInodesUsed else LogsInodesUsed }

    predicate SetsAlways(g: Gauge) { g == Used() || g == Available() || g == Capacity() }
    predicate SetsInodes(g: Gauge) { g == InodesTotal() || g == InodesLeft() || g == InodesTaken() }
  }

  /** Used against capacity, not clamped. */
  function ShareOfCapacity(s: FsStats): Value
    requires s.capacityBytes > 0
  {
    Real(s.usedBytes as real / s.capacityBytes as real * 100.0)
  }

  function ByteWrites(fs: Filesystem, l: Labels, s: FsStats): Samples {
    Merge(Merge(
      One(fs.Used(), l, Real(s.usedBytes as real)),
      One(fs.Available(), l, Real(s.availableBytes as real))),
      One(fs.Capacity(), l, Real(s.capacityBytes as real)))
  }

  function PercentageWrites(fs: Filesystem, l: Labels, s: FsStats): Samples {
    if s.capacityBytes > 0 then One(fs.Percentage(), l, ShareOfCapacity(s)) else map[]
  }

  function FsInodeWrites(fs: Filesystem, l: Labels, s: FsStats): Samples {
    Merge(Merge(
      One(fs.InodesTotal(), l, Real(s.inodes as real)),
      One(fs.InodesLeft(), l, Real(s.inodesFree as real))),
      One(fs.InodesTaken(), l, Real(s.inodesUsed as real)))
  }

  function StatsWrites(fs: Filesystem, inodes: bool, w: Place, c: ContainerStats): Samples {
    var l, s := ContainerLabels(w, c.name), fs.StatsOf(c);
    Merge(Merge(ByteWrites(fs, l, s), PercentageWrites(fs, l, s)), When(inodes, FsInodeWrites(fs, l, s)))
  }

  function FsWrites(fs: Filesystem, inodes: bool, w: Place, cs: seq<ContainerStats>): Samples {
    if cs == [] then map[]
    else Merge(FsWrites(fs, inodes, w, cs[..|cs| - 1]), StatsWrites(fs, inodes, w, cs[|cs| - 1]))
  }

  /** The container's stats set this gauge: a percentage needs a positive capacity, inodes need the inode flag. */
  function Reporting(fs: Filesystem, inodes: bool, g: Gauge, container: string): ContainerStats -> bool {
    (c: ContainerStats) =>
      && c.name == container
      && (|| fs.SetsAlways(g)
          || (g == fs.Percentage() && fs.StatsOf(c).capacityBytes > 0)
          || (inodes && fs.SetsInodes(g)))
  }

  function FsValue(fs: Filesystem, g: Gauge, s: FsStats): Value {
    if g == fs.Used() then Real(s.usedBytes as real)
    else if g == fs.Available() then Real(s.availableBytes as real)
    else if g == fs.Capacity() then Real(s.capacityBytes as real)
    else if g == fs.InodesTotal() then Real(s.inodes as real)
    else if g == fs.InodesLeft() then Real(s.inodesFree as real)
    else if g == fs.InodesTaken() then Real(s.inodesUsed as real)
    else if s.capacityBytes > 0 then ShareOfCapacity(s) else NaN
  }

  function FsPublished(fs: Filesystem, inodes: bool, w: Place, cs: seq<ContainerStats>, k: Key): (v: Option<Value>)
    ensures v.Some? ==> FsGauge(fs, k.gauge) && AtHome(w, k)
  {
    if k.labels.container.None? || k.labels != ContainerLabels(w, k.labels.container.value) then None
    else match Last(cs, Reporting(fs, inodes, k.gauge, k.labels.container.value))
      case None => None
      case Some(c) => Some(FsValue(fs, k.gauge, fs.StatsOf(c)))
  }

  lemma ByteWritesExact(fs: Filesystem, l: Labels, s: FsStats, k: Key)
    ensures Get(ByteWrites(fs, l, s), k) == if k.labels == l && fs.SetsAlways(k.gauge)
        then Some(FsValue(fs, k.gauge, s)) else None
  {
    hide Merge, Get;
    ThreeExact(fs.Used(), fs.Available(), fs.Capacity(), l,
               Real(s.usedBytes as real), Real(s.availableBytes as real), Real(s.capacityBytes as real), k);
  }

  lemma FsInodeWritesExact(fs: Filesystem, l: Labels, s: FsStats, k: Key)
    ensures Get(FsInodeWrites(fs, l, s), k) == if k.labels == l && fs.SetsInodes(k.gauge)
        then Some(FsValue(fs, k.gauge, s)) else None
  {
    hide Merge, Get;
    ThreeExact(fs.InodesTotal(), fs.InodesLeft(), fs.InodesTaken(), l,
               Real(s.inodes as real), Real(s.inodesFree as real), Real(s.inodesUsed as real), k);
  }

  lemma StatsWritesExact(fs: Filesystem, inodes: bool, w: Place, c: ContainerStats, k: Key)
    ensures Get(StatsWrites(fs, inodes, w, c), k) ==
            if k.labels == ContainerLabels(w, c.name) && Reporting(fs, inodes, k.gauge, c.name)(c)
            then Some(FsValue(fs, k.gauge, fs.StatsOf(c))) else None
  {
    hide ByteWrites, FsInodeWrites;
    ByteWritesExact(fs, ContainerLabels(w, c.name), fs.StatsOf(c), k);
    FsInodeWritesExact(fs, ContainerLabels(w, c.name), fs.StatsOf(c), k);
  }

  lemma {:induction false} FsWritesExact(fs: Filesystem, inodes: bool, w: Place, cs: seq<ContainerStats>, k: Key)
    ensures Get(FsWrites(fs, inodes, w, cs), k) == FsPublished(fs, inodes, w, cs, k)
  {
    hide StatsWrites, FsValue, FsGauge, AtHome, Merge;
    if cs != [] {
      var c := cs[|cs| - 1];
      FsWritesExact(fs, inodes, w, cs[..|cs| - 1], k);
      StatsWritesExact(fs, inodes, w, c, k);
      MergeExact(FsWrites(fs, inodes, w, cs[..|cs| - 1]), StatsWrites(fs, inodes, w, c), k);
    }
  }

  // ---- A whole record ----

  function UsageWrites(w: Place, r: PodRecord): Samples {
    One(PodUsage, PodLabels(w), Real(r.usedBytes))
  }

  function InodeWrites(w: Place, r: PodRecord): Samples {
    Merge(Merge(
      One(Inodes, PodLabels(w), Real(r.inodes)),
      One(InodesFree, PodLabels(w), Real(r.inodesFree))),
      One(InodesUsed, PodLabels(w), Real(r.inodesUsed)))
  }

  /** Everything one record sets, from the cached containers `cs` of its pod. */
  function PodWrites(cfg: Config, cs: seq<Container>, node: string, r: PodRecord): Samples {
    var w := PlaceOf(node, r);
    Merge(Merge(Merge(Merge(Merge(Merge(
      When(cfg.containerVolumeUsage, VolumeWrites(VolumeUsage, w, cs, r.volumes)),
      When(cfg.containerVolumeLimitsPercentage, VolumeWrites(VolumeLimitPercentage, w, cs, r.volumes))),
      When(cfg.containerLimitsPercentage, LimitWrites(w, cs, r))),
      When(cfg.containerRootfsUsage, FsWrites(Rootfs, cfg.inodes, w, r.containers))),
      When(cfg.containerLogsUsage, FsWrites(Logs, cfg.inodes, w, r.containers))),
      When(cfg.podUsage, UsageWrites(w, r))),
      When(cfg.inodes, InodeWrites(w, r)))
  }

  function Containers(lookup: Lookup, pod: string): seq<Container> {
    if pod in lookup then lookup[pod].containers else []
  }

  predicate FsGauge(fs: Filesystem, g: Gauge) {
    if fs.Rootfs? then
      || g.RootfsUsed? || g.RootfsAvailable? || g.RootfsCapacity? || g.RootfsPercentage?
      || g.RootfsInodes? || g.RootfsInodesFree? || g.RootfsInodesUsed?
    else
      || g.LogsUsed? || g.LogsAvailable? || g.LogsCapacity? || g.LogsPercentage?
      || g.LogsInodes? || g.LogsInodesFree? || g.LogsInodesUsed?
  }

  /** The value a record gives to a series, if it sets the series at all. */
  function Published(cfg: Config, cs: seq<Container>, node: string, r: PodRecord, k: Key): (v: Option<Value>)
    ensures v.Some? ==> AtHome(PlaceOf(node, r), k)
  {
    var w := PlaceOf(node, r);
    if k.gauge.VolumeUsage? then
      if cfg.containerVolumeUsage then VolumePublished(VolumeUsage, w, cs, r.volumes, k) else None
    else if k.gauge.VolumeLimitPercentage? then
      if cfg.containerVolumeLimitsPercentage then VolumePublished(VolumeLimitPercentage, w, cs, r.volumes, k) else None
    else if k.gauge.LimitPercentage? then
      if cfg.containerLimitsPercentage then LimitPublished(w, cs, r, k) else None
    else if FsGauge(Rootfs, k.gauge) then
      if cfg.containerRootfsUsage then FsPublished(Rootfs, cfg.inodes, w, r.containers, k) else None
    else if FsGauge(Logs, k.gauge) then
      if cfg.containerLogsUsage then FsPublished(Logs, cfg.inodes, w, r.containers, k) else None
    else if k.labels != PodLabels(w) then None
    else match k.gauge
      case PodUsage => if cfg.podUsage then Some(Real(r.usedBytes)) else None
      case Inodes => if cfg.inodes then Some(Real(r.inodes)) else None
      case InodesFree => if cfg.inodes then Some(Real(r.inodesFree)) else None
      case InodesUsed => if cfg.inodes then Some(Real(r.inodesUsed)) else None
      case _ => None
  }

  lemma PodLevelExact(w: Place, r: PodRecord, k: Key)
    ensures Get(UsageWrites(w, r), k) == if k == Key(PodUsage, PodLabels(w)) then Some(Real(r.usedBytes)) else None
    ensures Get(InodeWrites(w, r), k) ==
            if k == Key(Inodes, PodLabels(w)) then Some(Real(r.inodes))
            else if k == Key(InodesFree, PodLabels(w)) then Some(Real(r.inodesFree))
            else if k == Key(InodesUsed, PodLabels(w)) then Some(Real(r.inodesUsed))
            else None
  {
  }

  /** The seven groups of writes, one after the other. */
  function InTurn(cfg: Config, cs: seq<Container>, w: Place, r: PodRecord, k: Key): Option<Value> {
    Later(Later(Later(Later(Later(Later(
      if cfg.containerVolumeUsage then VolumePublished(VolumeUsage, w, cs, r.volumes, k) else None,
      if cfg.containerVolumeLimitsPercentage then VolumePublished(VolumeLimitPercentage, w, cs, r.volumes, k)
          else None),
      if cfg.containerLimitsPercentage then LimitPublished(w, cs, r, k) else None),
      if cfg.containerRootfsUsage then FsPublished(Rootfs, cfg.inodes, w, r.containers, k) else None),
      if cfg.containerLogsUsage then FsPublished(Logs, cfg.inodes, w, r.containers, k) else None),
      if cfg.podUsage then Get(UsageWrites(w, r), k) else None),
      if cfg.inodes then Get(InodeWrites(w, r), k) else None)
  }

  lemma PodWritesInTurn(cfg: Config, cs: seq<Container>, node: string, r: PodRecord, k: Key)
    ensures Get(PodWrites(cfg, cs, node, r), k) == InTurn(cfg, cs, PlaceOf(node, r), r, k)
  {
    hide VolumeWrites, LimitWrites, FsWrites, VolumePublished, LimitPublished, FsPublished, When, UsageWrites,
        InodeWrites, Get;
    var w := PlaceOf(node, r);
    var usage, limits := VolumeWrites(VolumeUsage, w, cs, r.volumes),
        VolumeWrites(VolumeLimitPercentage, w, cs, r.volumes);
    var container := LimitWrites(w, cs, r);
    var rootfs, logs := FsWrites(Rootfs, cfg.inodes, w, r.containers), FsWrites(Logs, cfg.inodes, w, r.containers);
    VolumeWritesExact(VolumeUsage, w, cs, r.volumes, k);
    VolumeWritesExact(VolumeLimitPercentage, w, cs, r.volumes, k);
    LimitWritesExact(w, cs, r, k);
    FsWritesExact(Rootfs, cfg.inodes, w, r.containers, k);
    FsWritesExact(Logs, cfg.inodes, w, r.containers, k);
    WhenExact(cfg.containerVolumeUsage, usage, k);
    WhenExact(cfg.containerVolumeLimitsPercentage, limits, k);
    WhenExact(cfg.containerLimitsPercentage, container, k);
    WhenExact(cfg.containerRootfsUsage, rootfs, k);
    WhenExact(cfg.containerLogsUsage, logs, k);
    WhenExact(cfg.podUsage, UsageWrites(w, r), k);
    WhenExact(cfg.inodes, InodeWrites(w, r), k);
    var sum1 := When(cfg.containerVolumeUsage, usage);
    var sum2 := Merge(sum1, When(cfg.containerVolumeLimitsPercentage, limits));
    var sum3 := Merge(sum2, When(cfg.containerLimitsPercentage, container));
    var sum4 := Merge(sum3, When(cfg.containerRootfsUsage, rootfs));
    var sum5 := Merge(sum4, When(cfg.containerLogsUsage, logs));
    var sum6 := Merge(sum5, When(cfg.podUsage, UsageWrites(w, r)));
    MergeExact(sum1, When(cfg.containerVolumeLimitsPercentage, limits), k);
    MergeExact(sum2, When(cfg.containerLimitsPercentage, container), k);
    MergeExact(sum3, When(cfg.containerRootfsUsage, rootfs), k);
    MergeExact(sum4, When(cfg.containerLogsUsage, logs), k);
    MergeExact(sum5, When(cfg.podUsage, UsageWrites(w, r)), k);
    MergeExact(sum6, When(cfg.inodes, InodeWrites(w, r)), k);
  }

  /** Publishing a record writes to every series exactly the value it is meant to, and to no other series. */
  lemma PodWritesExact(cfg: Config, cs: seq<Container>, node: string, r: PodRecord, k: Key)
    ensures Get(PodWrites(cfg, cs, node, r), k) == Published(cfg, cs, node, r, k)
  {
    hide VolumeWrites, LimitWrites, FsWrites, VolumePublished, LimitPublished, FsPublished, When, UsageWrites,
      InodeWrites, PodWrites, Get, AtHome, PodLabels, PlaceOf;
    PodWritesInTurn(cfg, cs, node, r, k);
    PodLevelExact(PlaceOf(node, r), r, k);
  }

  /** A record touches only pod gauges, and there only its own pod, namespace and node. */
  lemma PodWritesStayHome(cfg: Config, cs: seq<Container>, node: string, r: PodRecord, k: Key)
    requires k in PodWrites(cfg, cs, node, r)
    ensures AtHome(PlaceOf(node, r), k)
  {
    hide PodWrites, Published;
    PodWritesExact(cfg, cs, node, r, k);
  }
}
