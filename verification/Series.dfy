/** The in-memory gauges of the exporter: gauge vectors, label records, and the two operations the
    exporter performs on them, setting one series and deleting every series that matches a partial label record. */
module Series {
  import opened Sequences

  /** A sample.  The percentages are NaN when there is no capacity to divide by. */
  datatype Value = NaN | Real(r: real)

  /** The 21 pod gauge vectors, then the 4 node gauge vectors. */
  datatype Gauge =
    | PodUsage
    | VolumeUsage
    | LimitPercentage
    | VolumeLimitPercentage
    | RootfsUsed
    | RootfsAvailable
    | RootfsCapacity
    | LogsUsed
    | LogsAvailable
    | LogsCapacity
    | RootfsPercentage
    | LogsPercentage
    | RootfsInodes
    | RootfsInodesFree
    | RootfsInodesUsed
    | LogsInodes
    | LogsInodesFree
    | LogsInodesUsed
    | Inodes
    | InodesFree
    | InodesUsed
    | NodeAvailable
    | NodeCapacity
    | NodePercentage
    | AdjustedPollingRate
  {
    predicate OfPods() {
      !NodeAvailable? && !NodeCapacity? && !NodePercentage? && !AdjustedPollingRate?
    }

    /** Bytes and percentages of a container's rootfs and logs. */
    predicate OfFilesystem() {
      || RootfsUsed? || RootfsAvailable? || RootfsCapacity? || LogsUsed? || LogsAvailable? || LogsCapacity?
      || RootfsPercentage? || LogsPercentage?
    }

    predicate OfContainerInodes() {
      || RootfsInodes? || RootfsInodesFree? || RootfsInodesUsed? || LogsInodes? || LogsInodesFree? || LogsInodesUsed?
    }
  }

  /** A label record.  A gauge vector uses some of the labels; a partial match gives some of those. */
  datatype Labels = Labels(
    node: Option<string>,
    pod: Option<string>,
    namespace: Option<string>,
    container: Option<string>,
    volume: Option<string>,
    mountPath: Option<string>,
    source: Option<string>)
  {
    /** Every label that `m` gives has the same value here. */
    predicate Extends(m: Labels) {
      && (m.node.Some? ==> node == m.node)
      && (m.pod.Some? ==> pod == m.pod)
      && (m.namespace.Some? ==> namespace == m.namespace)
      && (m.container.Some? ==> container == m.container)
      && (m.volume.Some? ==> volume == m.volume)
      && (m.mountPath.Some? ==> mountPath == m.mountPath)
      && (m.source.Some? ==> source == m.source)
    }
  }

  function NodeNamed(node: string): Labels {
    Labels(Some(node), None, None, None, None, None, None)
  }

  function PodNamed(pod: string): Labels {
    Labels(None, Some(pod), None, None, None, None, None)
  }

  /** One time series: a gauge vector and a full label record. */
  datatype Key = Key(gauge: Gauge, labels: Labels)
  {
    /** The series belongs to a pod gauge and carries this pod name, in whatever namespace and on whatever node. */
    predicate OfPod(pod: string) {
      gauge.OfPods() && labels.pod == Some(pod)
    }

    predicate OfNode(node: string) {
      labels.node == Some(node)
    }
  }

  type Samples = map<Key, Value>

  function Get<K, V>(m: map<K, V>, k: K): Option<V> {
    if k in m then Some(m[k]) else None
  }

  /** One sample set. */
  function One(g: Gauge, labels: Labels, v: Value): Samples {
    map[Key(g, labels) := v]
  }

  /** Samples set on top of others: a series keeps the value it was given last. */
  function Merge(earlier: Samples, later: Samples): Samples {
    earlier + later
  }

  function When(on: bool, writes: Samples): Samples {
    if on then writes else map[]
  }

  function Later<V>(earlier: Option<V>, later: Option<V>): Option<V> {
    if later.Some? then later else earlier
  }

  lemma MergeExact(earlier: Samples, later: Samples, k: Key)
    ensures Get(Merge(earlier, later), k) == Later(Get(earlier, k), Get(later, k))
  {
  }

  lemma OneExact(g: Gauge, l: Labels, v: Value, k: Key)
    ensures Get(One(g, l, v), k) == if k == Key(g, l) then Some(v) else None
  {
  }

  lemma ThreeExact(g1: Gauge, g2: Gauge, g3: Gauge, l: Labels, v1: Value, v2: Value, v3: Value, k: Key)
    requires g1 != g2 && g2 != g3 && g1 != g3
    ensures Get(Merge(Merge(One(g1, l, v1), One(g2, l, v2)), One(g3, l, v3)), k) ==
            if k.labels != l then None
            else if k.gauge == g1 then Some(v1)
            else if k.gauge == g2 then Some(v2)
            else if k.gauge == g3 then Some(v3)
            else None
  {
    hide Merge, One, Get;
    OneExact(g1, l, v1, k);
    OneExact(g2, l, v2, k);
    OneExact(g3, l, v3, k);
    MergeExact(One(g1, l, v1), One(g2, l, v2), k);
    MergeExact(Merge(One(g1, l, v1), One(g2, l, v2)), One(g3, l, v3), k);
  }

  lemma WhenExact(on: bool, writes: Samples, k: Key)
    ensures Get(When(on, writes), k) == if on then Get(writes, k) else None
  {
  }

  lemma MergeTwice(a: Samples, b: Samples, c: Samples)
    ensures Merge(Merge(a, b), c) == Merge(a, Merge(b, c))
  {
  }

  lemma MergeNothing(a: Samples)
    ensures Merge(a, map[]) == a
  {
  }

  /** What remains once every pod-gauge series with one of these pod names is deleted. */
  function WithoutPods(samples: Samples, pods: set<string>): Samples {
    map k | k in samples && !(k.gauge.OfPods() && k.labels.pod.Some? && k.labels.pod.value in pods) :: samples[k]
  }

  /** What remains once the series of a node are deleted.  The polling-rate gauge exists, and is cleared, only
      when it is enabled. */
  function WithoutNode(samples: Samples, node: string, pollingRate: bool): Samples {
    map k | k in samples && !(k.OfNode(node) && (k.gauge.AdjustedPollingRate? ==> pollingRate)) :: samples[k]
  }

  lemma WithoutNoPods(samples: Samples)
    ensures WithoutPods(samples, {}) == samples
  {
  }

  lemma SameSamples(a: Samples, b: Samples)
    requires forall k :: Get(a, k) == Get(b, k)
    ensures a == b
  {
    forall k ensures k in a <==> k in b {
      assert Get(a, k) == Get(b, k);
    }
    forall k | k in a && k in b ensures a[k] == b[k] {
      assert Get(a, k) == Get(b, k);
    }
  }

  /** Evicting names one after the other is evicting them together. */
  lemma WithoutPodsTwice(samples: Samples, first: set<string>, second: set<string>)
    ensures WithoutPods(WithoutPods(samples, first), second) == WithoutPods(samples, first + second)
  {
  }

  /** All gauge vectors of the process. */
  class GaugeStore {
    var samples: Samples

    constructor ()
      ensures samples == map[]
    {
      samples := map[];
    }

    method Set(gauge: Gauge, labels: Labels, value: Value)
      modifies this
      ensures samples == Merge(old(samples), One(gauge, labels, value))
    {
      samples := samples[Key(gauge, labels) := value];
    }

    method DeletePartialMatch(gauge: Gauge, labels: Labels)
      modifies this
      ensures forall k {:trigger Get(samples, k)} ::
                Get(samples, k) == if k.gauge == gauge && k.labels.Extends(labels) then None else Get(old(samples), k)
    {
      samples := map k | k in samples && !(k.gauge == gauge && k.labels.Extends(labels)) :: samples[k];
    }
  }
}
