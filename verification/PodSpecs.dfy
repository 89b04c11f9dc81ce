/** What the exporter keeps of a pod's manifest: for each container its ephemeral-storage limit and the
    emptyDir volumes it mounts. */
module PodSpecs {
  import opened Sequences
  import opened Settings

  // ---- The manifest, as far as the exporter reads it ----

  datatype EmptyDir = EmptyDir(sizeLimit: Option<real>)
  datatype VolumeSpec = VolumeSpec(name: string, emptyDir: Option<EmptyDir>)
  datatype VolumeMount = VolumeMount(name: string, mountPath: string)
  datatype ContainerSpec = ContainerSpec(name: string, mounts: seq<VolumeMount>, limits: map<string, real>)
  datatype PodObject = PodObject(name: string, phase: string, containers: seq<ContainerSpec>, volumes: seq<VolumeSpec>)

  // ---- What is kept ----

  datatype Mounted = Mounted(name: string, mountPath: string, sizeLimit: real)
  datatype Container = Container(name: string, limit: real, emptyDirVolumes: seq<Mounted>)
  datatype PodEntry = PodEntry(containers: seq<Container>)

  const EPHEMERAL_STORAGE := "ephemeral-storage"
  const RUNNING := "Running"

  function EmptyDirNamed(name: string): VolumeSpec -> bool {
    (v: VolumeSpec) => v.name == name && v.emptyDir.Some?
  }

  /** The size limit of the pod's emptyDir volume of this name, 0 when it has none; nothing if there is no such
      volume.  Of several with the name the last counts. */
  function SizeOf(volumes: seq<VolumeSpec>, name: string): Option<real> {
    match Last(volumes, EmptyDirNamed(name))
    case None => None
    case Some(v) => Some(if v.emptyDir.value.sizeLimit.Some? then v.emptyDir.value.sizeLimit.value else 0.0)
  }

  /** The emptyDir volumes among the mounts, in the order they are mounted. */
  function MountedVolumes(mounts: seq<VolumeMount>, volumes: seq<VolumeSpec>): seq<Mounted> {
    if mounts == [] then []
    else
      var m := mounts[|mounts| - 1];
      var size := SizeOf(volumes, m.name);
      MountedVolumes(mounts[..|mounts| - 1], volumes)
      + if size.Some? then [Mounted(m.name, m.mountPath, size.value)] else []
  }

  function ContainerData(cfg: Config, c: ContainerSpec, p: PodObject): Container {
    Container(
      c.name,
      if cfg.containerLimitsPercentage && EPHEMERAL_STORAGE in c.limits then c.limits[EPHEMERAL_STORAGE] else 0.0,
      if cfg.containerVolumeUsage || cfg.containerVolumeLimitsPercentage then MountedVolumes(c.mounts, p.volumes)
          else [])
  }

  function ContainersData(cfg: Config, cs: seq<ContainerSpec>, p: PodObject): (r: seq<Container>)
    ensures |r| == |cs|
    ensures forall i | 0 <= i < |cs| :: r[i] == ContainerData(cfg, cs[i], p)
  {
    if cs == [] then [] else ContainersData(cfg, cs[..|cs| - 1], p) + [ContainerData(cfg, cs[|cs| - 1], p)]
  }

  function PodData(cfg: Config, p: PodObject): PodEntry {
    PodEntry(ContainersData(cfg, p.containers, p))
  }

  /** The container mounts, at this path, a volume that the pod declares as an emptyDir of that size. */
  ghost predicate Mounts(c: ContainerSpec, p: PodObject, m: Mounted) {
    VolumeMount(m.name, m.mountPath) in c.mounts && SizeOf(p.volumes, m.name) == Some(m.sizeLimit)
  }

  /** The kept volumes are exactly the mounts of emptyDir volumes, each with that volume's size. */
  lemma {:induction false} MountedVolumesExact(mounts: seq<VolumeMount>, volumes: seq<VolumeSpec>, m: Mounted)
    ensures m in MountedVolumes(mounts, volumes)
       <==> VolumeMount(m.name, m.mountPath) in mounts && SizeOf(volumes, m.name) == Some(m.sizeLimit)
  {
    if mounts != [] {
      var n := |mounts| - 1;
      MountedVolumesExact(mounts[..n], volumes, m);
      assert mounts == mounts[..n] + [mounts[n]];
    }
  }

  /** `SizeOf` is the limit of the last emptyDir volume with the name. */
  lemma SizeOfExact(volumes: seq<VolumeSpec>, name: string, size: real)
    ensures SizeOf(volumes, name) == Some(size) <==>
            exists i :: IsLast(volumes, EmptyDirNamed(name), i)
                     && size == if volumes[i].emptyDir.value.sizeLimit.Some?
                         then volumes[i].emptyDir.value.sizeLimit.value else 0.0
  {
    LastExact(volumes, EmptyDirNamed(name));
    if i :| IsLast(volumes, EmptyDirNamed(name), i) {
      assert Last(volumes, EmptyDirNamed(name)) == Some(volumes[i]);
    }
  }

  lemma SizeOfStep(volumes: seq<VolumeSpec>, i: nat)
    requires i < |volumes|
    ensures forall name :: SizeOf(volumes[..i + 1], name) ==
              if EmptyDirNamed(name)(volumes[i])
              then Some(if volumes[i].emptyDir.value.sizeLimit.Some?
                  then volumes[i].emptyDir.value.sizeLimit.value else 0.0)
              else SizeOf(volumes[..i], name)
  {
    PrefixStep(volumes, i);
  }

  // ---- The cache ----

  type Lookup = map<string, PodEntry>

  /** What an update for a pod does to the cache: a pod that is not Running leaves it alone. */
  function Recorded(cfg: Config, lookup: Lookup, p: PodObject): Lookup {
    if p.phase == RUNNING then lookup[p.name := PodData(cfg, p)] else lookup
  }

  function RecordedAll(cfg: Config, lookup: Lookup, ps: seq<PodObject>): Lookup {
    if ps == [] then lookup else Recorded(cfg, RecordedAll(cfg, lookup, ps[..|ps| - 1]), ps[|ps| - 1])
  }

  function RunningNamed(name: string): PodObject -> bool {
    (p: PodObject) => p.phase == RUNNING && p.name == name
  }

  /** After a list of pods, a name's entry comes from the last Running pod of that name in the list. */
  lemma {:induction false} RecordedAllExact(cfg: Config, lookup: Lookup, ps: seq<PodObject>, name: string)
    ensures var last := Last(ps, RunningNamed(name));
            var after := RecordedAll(cfg, lookup, ps);
            if last.Some? then name in after && after[name] == PodData(cfg, last.value)
            else (name in after <==> name in lookup) && (name in after ==> after[name] == lookup[name])
  {
    if ps != [] {
      RecordedAllExact(cfg, lookup, ps[..|ps| - 1], name);
    }
  }

  // ---- The paged initial list ----

  datatype Page = Page(items: seq<PodObject>, continueToken: string)

  /** The pods of the pages up to and including the first that carries no continue token. */
  function Listed(pages: seq<Page>): seq<PodObject> {
    if pages == [] then []
    else pages[0].items + if pages[0].continueToken == "" then [] else Listed(pages[1..])
  }

  lemma ListedFrom(pages: seq<Page>, n: nat)
    requires n < |pages|
    ensures Listed(pages[n..]) == pages[n].items + if pages[n].continueToken == "" then [] else Listed(pages[n + 1..])
  {
    assert pages[n..][1..] == pages[n + 1..];
  }
}
