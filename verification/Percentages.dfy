/** The percentages: what they mean for one value, and the range they stay in over whole runs. */
module Percentages {
  import opened Sequences
  import opened Series
  import opened Settings
  import opened PodSpecs
  import opened PodMetrics
  import opened Exporter
  import GaugeHistory
  import CacheHistory

  // ---- One value ----

  lemma QuotientOrder(a: real, b: real, limit: real)
    requires limit > 0.0
    ensures a <= b <==> a / limit <= b / limit
  {
    var x, y := a / limit, b / limit;
    assert x * limit == a && y * limit == b;
    if x <= y {
      assert x * limit <= y * limit;
    } else {
      assert x * limit > y * limit;
    }
  }

  /** Up to the limit, a share of it is the quotient of the used bytes, converted to binary units, and the limit; beyond
      it, 100.  So it is a percentage, reaches 100 exactly with the limit, and grows with the used bytes. */
  lemma ShareOfLimitMeaning(used: real, more: real, limit: real)
    requires 0.0 <= used <= more && limit > 0.0
    ensures ShareOfLimit(used, limit).Real? && 0.0 <= ShareOfLimit(used, limit).r <= 100.0
    ensures used * 1.024 <= limit ==> ShareOfLimit(used, limit).r * limit == used * 1.024 * 100.0
    ensures ShareOfLimit(used, limit).r == 100.0 <==> used * 1.024 >= limit
    ensures ShareOfLimit(used, limit).r <= ShareOfLimit(more, limit).r
  {
    var share, larger := used * 1.024 / limit, more * 1.024 / limit;
    assert limit / limit == 1.0 && 0.0 / limit == 0.0;
    QuotientOrder(0.0, used * 1.024, limit);
    QuotientOrder(limit, used * 1.024, limit);
    QuotientOrder(used * 1.024, more * 1.024, limit);
    assert 0.0 <= share <= larger && (1.0 <= share <==> limit <= used * 1.024);
    assert ShareOfLimit(used, limit).r == Min(share * 100.0, 100.0);
    assert share * limit == used * 1.024 && share * 100.0 * limit == share * limit * 100.0;
    assert ShareOfLimit(more, limit).r == Min(larger * 100.0, 100.0);
  }

  /** A share of the node is NaN exactly without a capacity, and otherwise the part of the capacity that is not
      available, which makes it a percentage. */
  lemma ShareOfNodeMeaning(available: real, capacity: real)
    requires 0.0 <= available
    ensures ShareOfNode(available, capacity).NaN? <==> capacity <= 0.0
    ensures ShareOfNode(available, capacity).Real? ==> 0.0 <= ShareOfNode(available, capacity).r <= 100.0
    ensures ShareOfNode(available, capacity).Real? && available <= capacity ==>
        ShareOfNode(available, capacity).r * capacity == (capacity - available) * 100.0
    ensures ShareOfNode(available, capacity).Real? && capacity < available ==>
        ShareOfNode(available, capacity).r == 0.0
  {
    if capacity > 0.0 {
      var taken := Max(capacity - available, 0.0);
      QuotientOrder(0.0, taken * 100.0, capacity);
      QuotientOrder(taken * 100.0, capacity * 100.0, capacity);
      assert capacity * 100.0 / capacity == 100.0;
      assert taken * 100.0 / capacity * capacity == taken * 100.0;
    }
  }

  // ---- Whole runs ----

  predicate Percentage(v: Value) {
    v.NaN? || 0.0 <= v.r <= 100.0
  }

  /** The percentages that are clamped.  Those of rootfs and logs are not. */
  predicate Clamped(g: Gauge) {
    g.NodePercentage? || g.LimitPercentage? || g.VolumeLimitPercentage?
  }

  ghost predicate SaneRecord(r: PodRecord) {
    0.0 <= r.usedBytes && 0.0 <= r.availableBytes && forall v | v in r.volumes :: 0 <= v.usedBytes
  }

  ghost predicate SanePod(p: PodObject) {
    && (forall c, key | c in p.containers && key in c.limits :: 0.0 <= c.limits[key])
    && (forall v | v in p.volumes && v.emptyDir.Some?
        && v.emptyDir.value.sizeLimit.Some? :: 0.0 <= v.emptyDir.value.sizeLimit.value)
  }

  /** Byte counts and limits are not negative. */
  ghost predicate Sane(log: Log) {
    forall e | e in log ::
      && (e.Scraped? ==> forall r | r in e.summary :: SaneRecord(r))
      && (e.PodUpdated? ==> SanePod(e.pod))
      && (e.PodsListed? ==> forall p | p in e.pods :: SanePod(p))
  }

  ghost predicate SaneContainer(c: Container) {
    0.0 <= c.limit && forall m | m in c.emptyDirVolumes :: 0.0 <= m.sizeLimit
  }

  lemma SaneSizes(volumes: seq<VolumeSpec>, name: string)
    requires forall v | v in volumes && v.emptyDir.Some?
        && v.emptyDir.value.sizeLimit.Some? :: 0.0 <= v.emptyDir.value.sizeLimit.value
    ensures SizeOf(volumes, name).Some? ==> 0.0 <= SizeOf(volumes, name).value
  {
    LastIsIn(volumes, EmptyDirNamed(name));
  }

  lemma SaneData(cfg: Config, p: PodObject, c: ContainerSpec)
    requires SanePod(p) && c in p.containers
    ensures SaneContainer(ContainerData(cfg, c, p))
  {
    hide MountedVolumes, SizeOf;
    forall m | m in ContainerData(cfg, c, p).emptyDirVolumes ensures 0.0 <= m.sizeLimit {
      MountedVolumesExact(c.mounts, p.volumes, m);
      SaneSizes(p.volumes, m.name);
    }
  }

  lemma SaneCache(cfg: Config, log: Log, name: string)
    requires Sane(log)
    ensures forall c | c in Containers(Run(cfg, log).lookup, name) :: SaneContainer(c)
  {
    hide Run, SanePod, SaneContainer, ContainerData, ContainersData;
    var lookup := Run(cfg, log).lookup;
    if name in lookup {
      CacheHistory.CacheFollowsLog(cfg, log, name, lookup[name]);
      var i, p :| CacheHistory.LatestRunning(log, name, i, p) && lookup[name] == PodData(cfg, p);
      BroughtIsSane(log[i], name, p);
      var cs := PodData(cfg, p).containers;
      forall c | c in cs ensures SaneContainer(c) {
        var n :| 0 <= n < |cs| && cs[n] == c;
        SaneData(cfg, p, p.containers[n]);
      }
    }
  }

  lemma BroughtIsSane(e: Event, name: string, p: PodObject)
    requires CacheHistory.Brings(e, name) == Some(p)
    requires e.PodUpdated? ==> SanePod(e.pod)
    requires e.PodsListed? ==> forall q | q in e.pods :: SanePod(q)
    ensures SanePod(p)
  {
    hide SanePod;
    if e.PodsListed? {
      LastIsIn(e.pods, RunningNamed(name));
    }
  }

  lemma SaneVolumeValue(g: Gauge, cs: seq<Container>, vs: seq<Volume>, container: string, volume: string, path: string)
    requires g.VolumeLimitPercentage?
    requires forall c | c in cs :: SaneContainer(c)
    requires forall v | v in vs :: 0 <= v.usedBytes
    ensures var v := ContainersPublished(g, cs, vs, container, volume, path);
            v.Some? ==> v.value.Real? && Percentage(v.value)
  {
    hide ShareOfLimit, Last;
    LastIsIn(cs, MountingAt(g, container, volume, path));
    LastIsIn(vs, VolumeNamed(volume));
    if ContainersPublished(g, cs, vs, container, volume, path).Some? {
      var ms := Last(cs, MountingAt(g, container, volume, path)).value.emptyDirVolumes;
      LastIsIn(ms, MountAt(g, volume, path));
      var m, v := Last(ms, MountAt(g, volume, path)).value, Last(vs, VolumeNamed(volume)).value;
      ShareOfLimitMeaning(v.usedBytes as real, v.usedBytes as real, m.sizeLimit);
    }
  }

  lemma SaneLimitShare(w: Place, cs: seq<Container>, r: PodRecord, k: Key)
    requires SaneRecord(r)
    requires forall c | c in cs :: SaneContainer(c)
    ensures var v := LimitPublished(w, cs, r, k);
            v.Some? ==>
              && Percentage(v.value)
              && (v.value.NaN? <==> k.labels.source == Some("node") && r.capacityBytes <= 0.0)
  {
    hide ShareOfLimit, ShareOfNode, Last;
    if LimitPublished(w, cs, r, k).Some? {
      LastIsIn(cs, LimitedBy(k.labels.container.value, k.labels.source.value));
      var c := Last(cs, LimitedBy(k.labels.container.value, k.labels.source.value)).value;
      if c.limit != 0.0 {
        ShareOfLimitMeaning(r.usedBytes, r.usedBytes, c.limit);
        assert SourceOf(c) == "container";
        assert "container"[0] != "node"[0];
      } else {
        ShareOfNodeMeaning(r.availableBytes, r.capacityBytes);
      }
    }
  }

  /** What a sane record gives to a clamped percentage. */
  lemma SaneRecordValue(cfg: Config, lookup: Lookup, node: string, k: Key, r: PodRecord)
    requires Clamped(k.gauge) && SaneRecord(r)
    requires forall c | c in Containers(lookup, r.name) :: SaneContainer(c)
    ensures var v := RecordValue(cfg, lookup, node, k, r);
            v.Some? ==>
              && Percentage(v.value)
              && (v.value.NaN? <==>
                    && r.capacityBytes <= 0.0
                    && (k.gauge.NodePercentage? || (k.gauge.LimitPercentage? && k.labels.source == Some("node"))))
  {
    hide ShareOfLimit, ShareOfNode, SaneContainer, ContainersPublished, LimitPublished, FsPublished, SaneRecord;
    var cs := Containers(lookup, r.name);
    if k.gauge.NodePercentage? {
      NonNegativeAvailable(r);
      ShareOfNodeMeaning(r.availableBytes, r.capacityBytes);
    } else if k.gauge.LimitPercentage? {
      SaneLimitShare(PlaceOf(node, r), cs, r, k);
    } else if IsVolumeKey(k.gauge, PlaceOf(node, r), k) {
      NonNegativeAvailable(r);
      SaneVolumeValue(k.gauge, cs, r.volumes, k.labels.container.value, k.labels.volume.value,
          k.labels.mountPath.value);
    }
  }

  lemma NonNegativeAvailable(r: PodRecord)
    requires SaneRecord(r)
    ensures 0.0 <= r.availableBytes && forall v | v in r.volumes :: 0 <= v.usedBytes
  {
  }

  /** Every value the node, container-limit and volume-limit percentages ever hold is NaN or between 0 and 100; NaN
      exactly if the latest record came without a capacity and the percentage is one of the node's storage. */
  lemma ClampedPercentages(cfg: Config, log: Log, k: Key)
    requires Sane(log)
    requires k in Run(cfg, log).samples && Clamped(k.gauge)
    ensures var v := Run(cfg, log).samples[k];
            && Percentage(v)
            && (v.NaN? <==> exists i, j :: && GaugeHistory.LatestRecord(cfg, log, i, j, k)
                                           && log[i].summary[j].capacityBytes <= 0.0
                                           && (k.gauge.NodePercentage? || (k.gauge.LimitPercentage?
                                               && k.labels.source == Some("node"))))
  {
    hide Run, RecordValue, SaneRecord, SanePod, SaneContainer, GaugeHistory.ClearsAt, Containers, Percentage;
    var v := Run(cfg, log).samples[k];
    GaugeHistory.SeriesFollowRecords(cfg, log, k, v);
    var i, j :| GaugeHistory.LatestRecord(cfg, log, i, j, k) && GaugeHistory.RecordAt(cfg, log, i, j, k) == Some(v);
    var r := log[i].summary[j];
    assert log[i] in log && r in log[i].summary;
    forall e | e in log[..i] ensures e in log {
    }
    SaneCache(cfg, log[..i], r.name);
    SaneRecordValue(cfg, Run(cfg, log[..i]).lookup, log[i].node, k, r);
    forall i', j' | GaugeHistory.LatestRecord(cfg, log, i', j', k) ensures i' == i && j' == j {
      GaugeHistory.OneLatest(cfg, log, i, j, i', j', k);
    }
  }
}
