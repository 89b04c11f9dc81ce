/** What every series holds, read off the event log alone: a series exists exactly when some event set it and no
    later event cleared or replaced it. */
module GaugeHistory {
  import opened Sequences
  import opened Series
  import opened Settings
  import PodSpecs
  import opened PodMetrics
  import NodeMonitor
  import opened Exporter
  import opened Runs
  import Tracker

  // ---- Any series ----

  /** What the `i`-th event of the log sets the series to.  Of the earlier events only the cached pod specs matter. */
  function PutAt(cfg: Config, log: Log, i: nat, k: Key): Option<Value>
    requires i < |log|
  {
    Put(cfg, Run(cfg, log[..i]), log[i], k)
  }

  /** The `i`-th event clears the series: the pod is deleted, a node is dropped, or a scrape of some node misses the
      pod name for the tolerance-th time in a row since that node was last dropped. */
  ghost predicate ClearsAt(cfg: Config, log: Log, i: nat, k: Key)
    requires i < |log|
  {
    match log[i]
    case Scraped(node, summary, _) =>
      && k.gauge.OfPods() && k.labels.pod.Some?
      && k.labels.pod.value !in ReportedNames(summary)
      && Tracker.ReportedAgo(Scrapes(log[..i], node), k.labels.pod.value, cfg.scrapeMissTolerance - 1)
    case QueryFailed(node) => k.OfNode(node) && (k.gauge.AdjustedPollingRate? ==> cfg.adjustedPollingRate)
    case NodeDeleted(name) => k.OfNode(name) && (k.gauge.AdjustedPollingRate? ==> cfg.adjustedPollingRate)
    case PodDeleted(name) => k.OfPod(name)
    case _ => false
  }

  /** The `i`-th event set the series to `v`, and nothing has touched the series since. */
  ghost predicate LiveSince(cfg: Config, log: Log, k: Key, i: int, v: Value) {
    && 0 <= i < |log|
    && PutAt(cfg, log, i, k) == Some(v)
    && forall j | i < j < |log| :: PutAt(cfg, log, j, k) == None && !ClearsAt(cfg, log, j, k)
  }

  lemma ClearsFollowLog(cfg: Config, log: Log, i: nat, k: Key)
    requires i < |log|
    ensures ClearsAt(cfg, log, i, k) <==> Clears(cfg, Run(cfg, log[..i]), log[i], k)
  {
    hide Run, Scrapes, Tracker.Replay, Tracker.ReportedAgo, ReportedNames, Tracker.Stale;
    if log[i].Scraped? && k.labels.pod.Some? {
      TrackerFollowsLog(cfg, log[..i], log[i].node);
      Tracker.GivenUpAfterTolerance(Scrapes(log[..i], log[i].node), cfg.scrapeMissTolerance,
          ReportedNames(log[i].summary), k.labels.pod.value);
    }
  }

  lemma SamePast(cfg: Config, front: Log, e: Event, i: nat, k: Key)
    requires i < |front|
    ensures PutAt(cfg, front + [e], i, k) == PutAt(cfg, front, i, k)
    ensures ClearsAt(cfg, front + [e], i, k) <==> ClearsAt(cfg, front, i, k)
  {
    hide Run, Put, Scrapes, ReportedNames;
    assert (front + [e])[..i] == front[..i];
  }

  lemma LiveSinceStep(cfg: Config, front: Log, e: Event, k: Key, i: int, v: Value)
    ensures LiveSince(cfg, front + [e], k, i, v) <==>
            if i == |front| then PutAt(cfg, front + [e], |front|, k) == Some(v)
            else
              && PutAt(cfg, front + [e], |front|, k) == None && !ClearsAt(cfg, front + [e], |front|, k)
              && LiveSince(cfg, front, k, i, v)
  {
    hide PutAt, ClearsAt;
    var log := front + [e];
    forall j | 0 <= j < |front|
      ensures PutAt(cfg, log, j, k) == PutAt(cfg, front, j, k)
      ensures ClearsAt(cfg, log, j, k) <==> ClearsAt(cfg, front, j, k)
    {
      SamePast(cfg, front, e, j, k);
    }
    if 0 <= i < |front| && LiveSince(cfg, log, k, i, v) {
      assert PutAt(cfg, log, |front|, k) == None;
    }
  }

  /** The gauges refine the event log. */
  lemma {:induction false} SeriesFollowLog(cfg: Config, log: Log, k: Key, v: Value)
    ensures Get(Run(cfg, log).samples, k) == Some(v) <==> exists i :: LiveSince(cfg, log, k, i, v)
  {
    hide Step, Put, Clears, ClearsAt, LiveSince, RunFrom;
    if log == [] {
      NothingAtFirst(cfg, log, k, v);
    } else {
      var n := |log| - 1;
      var front, e := log[..n], log[n];
      assert log == front + [e];
      assert log[..n] == front;
      SeriesFollowLog(cfg, front, k, v);
      RunOneMore(cfg, Init(cfg), front, e);
      StepEffect(cfg, Run(cfg, front), e, k);
      ClearsFollowLog(cfg, log, n, k);
      forall i ensures LiveSince(cfg, log, k, i, v) <==>
            if i == n then PutAt(cfg, log, n, k) == Some(v)
            else PutAt(cfg, log, n, k) == None && !ClearsAt(cfg, log, n, k) && LiveSince(cfg, front, k, i, v)
      {
        LiveSinceStep(cfg, front, e, k, i, v);
      }
      if PutAt(cfg, log, n, k) == Some(v) {
        assert LiveSince(cfg, log, k, n, v);
      } else if i :| LiveSince(cfg, front, k, i, v) {
        assert LiveSince(cfg, log, k, i, v) <==> PutAt(cfg, log, n, k) == None && !ClearsAt(cfg, log, n, k) && i != n;
        LiveInside(cfg, front, k, i, v);
      }
    }
  }

  lemma LiveInside(cfg: Config, log: Log, k: Key, i: int, v: Value)
    requires LiveSince(cfg, log, k, i, v)
    ensures 0 <= i < |log|
  {
  }

  lemma NothingAtFirst(cfg: Config, log: Log, k: Key, v: Value)
    requires log == []
    ensures Get(Run(cfg, log).samples, k) == None
    ensures forall i :: !LiveSince(cfg, log, k, i, v)
  {
  }

  // ---- In terms of records ----

  /** The value record `j` of scrape `i` gives to the series, if it is published and sets it. */
  function RecordAt(cfg: Config, log: Log, i: int, j: int, k: Key): Option<Value> {
    if 0 <= i < |log| && log[i].Scraped? && 0 <= j < |log[i].summary| && !log[i].summary[j].Skipped() then
      RecordValue(cfg, Run(cfg, log[..i]).lookup, log[i].node, k, log[i].summary[j])
    else None
  }

  /** Record `j` of scrape `i` is the latest to set the series, and nothing has cleared the series since. */
  ghost predicate LatestRecord(cfg: Config, log: Log, i: int, j: int, k: Key) {
    && RecordAt(cfg, log, i, j, k).Some? && 0 <= i < |log|
    && (forall i', j' | RecordAt(cfg, log, i', j', k).Some? :: i' < i || (i' == i && j' <= j))
    && (forall i' | i < i' < |log| :: !ClearsAt(cfg, log, i', k))
  }

  /** The last record of the scrape to set the series. */
  ghost predicate LastInScrape(cfg: Config, log: Log, i: int, j: int, k: Key) {
    RecordAt(cfg, log, i, j, k).Some? && forall j' | RecordAt(cfg, log, i, j', k).Some? :: j' <= j
  }

  /** A scrape sets a series to what its last record that sets it says. */
  lemma RecordsOfScrape(cfg: Config, log: Log, i: nat, k: Key)
    requires i < |log| && !k.gauge.AdjustedPollingRate?
    ensures PutAt(cfg, log, i, k) == None <==> forall j :: RecordAt(cfg, log, i, j, k) == None
    ensures forall j | LastInScrape(cfg, log, i, j, k) :: PutAt(cfg, log, i, k) == RecordAt(cfg, log, i, j, k)
    ensures PutAt(cfg, log, i, k).Some? ==> exists j :: LastInScrape(cfg, log, i, j, k)
  {
    hide Run, RecordValue;
    if log[i].Scraped? {
      var lookup, node, summary := Run(cfg, log[..i]).lookup, log[i].node, log[i].summary;
      var sets := Sets(cfg, lookup, node, k);
      forall j | 0 <= j < |summary| ensures sets(summary[j]) <==> RecordAt(cfg, log, i, j, k).Some? {
      }
      LastExact(summary, sets);
      if Last(summary, sets).Some? {
        var j :| IsLast(summary, sets, j) && Last(summary, sets) == Some(summary[j]);
        assert LastInScrape(cfg, log, i, j, k);
      }
    }
  }

  lemma LiveFromRecord(cfg: Config, log: Log, k: Key, v: Value, i: int)
    requires !k.gauge.AdjustedPollingRate? && LiveSince(cfg, log, k, i, v)
    ensures exists j :: LatestRecord(cfg, log, i, j, k) && RecordAt(cfg, log, i, j, k) == Some(v)
  {
    hide Run, PutAt, ClearsAt, RecordAt;
    RecordsOfScrape(cfg, log, i, k);
    var j :| LastInScrape(cfg, log, i, j, k);
    forall i', j' | RecordAt(cfg, log, i', j', k).Some? ensures i' < i || (i' == i && j' <= j) {
      RecordInLog(cfg, log, i', j', k);
      if i' > i {
        RecordsOfScrape(cfg, log, i', k);
      }
    }
    assert LatestRecord(cfg, log, i, j, k);
  }

  lemma RecordInLog(cfg: Config, log: Log, i: int, j: int, k: Key)
    requires RecordAt(cfg, log, i, j, k).Some?
    ensures 0 <= i < |log|
  {
  }

  lemma OneLatest(cfg: Config, log: Log, i: int, j: int, i': int, j': int, k: Key)
    requires LatestRecord(cfg, log, i, j, k) && LatestRecord(cfg, log, i', j', k)
    ensures i == i' && j == j'
  {
    hide RecordAt, ClearsAt;
  }

  lemma LatestIsLive(cfg: Config, log: Log, k: Key, v: Value, i: int, j: int)
    requires !k.gauge.AdjustedPollingRate? && LatestRecord(cfg, log, i, j, k) && RecordAt(cfg, log, i, j, k) == Some(v)
    ensures LiveSince(cfg, log, k, i, v)
  {
    hide Run, PutAt, ClearsAt, RecordAt;
    RecordsOfScrape(cfg, log, i, k);
    assert LastInScrape(cfg, log, i, j, k);
    forall i' | i < i' < |log| ensures PutAt(cfg, log, i', k) == None {
      RecordsOfScrape(cfg, log, i', k);
    }
  }

  /** In every state a pod or node series holds what the latest record to set it said, and exists exactly when there
      is such a record and nothing has cleared the series since.  (The polling-rate gauge is not set by records.) */
  lemma SeriesFollowRecords(cfg: Config, log: Log, k: Key, v: Value)
    requires !k.gauge.AdjustedPollingRate?
    ensures Get(Run(cfg, log).samples, k) == Some(v)
       <==> exists i, j :: LatestRecord(cfg, log, i, j, k) && RecordAt(cfg, log, i, j, k) == Some(v)
  {
    hide Run, LiveSince, LatestRecord, RecordAt;
    SeriesFollowLog(cfg, log, k, v);
    if i :| LiveSince(cfg, log, k, i, v) {
      LiveFromRecord(cfg, log, k, v, i);
    }
    if i, j :| LatestRecord(cfg, log, i, j, k) && RecordAt(cfg, log, i, j, k) == Some(v) {
      LatestIsLive(cfg, log, k, v, i, j);
    }
  }

  // ---- Two gauges spelled out ----

  /** Record `j` of scrape `i` is published, for this pod on this node. */
  ghost predicate PublishedAt(log: Log, i: int, j: int, w: Place) {
    && 0 <= i < |log| && log[i].Scraped? && log[i].node == w.node
    && 0 <= j < |log[i].summary|
    && !log[i].summary[j].Skipped() && PlaceOf(w.node, log[i].summary[j]) == w
  }

  function UsageKey(w: Place): Key {
    Key(PodUsage, PodLabels(w))
  }

  lemma UsageRecords(cfg: Config, log: Log, i: int, j: int, w: Place)
    requires cfg.podUsage
    ensures RecordAt(cfg, log, i, j, UsageKey(w)) ==
            if PublishedAt(log, i, j, w) then Some(Real(log[i].summary[j].usedBytes)) else None
  {
    hide Run;
  }

  /** The container's stats in a record, the last of them whose capacity is positive. */
  function WithCapacity(fs: Filesystem, container: string): ContainerStats -> bool {
    (c: ContainerStats) => c.name == container && fs.StatsOf(c).capacityBytes > 0
  }

  function BytesKey(fs: Filesystem, g: Gauge, w: Place, container: string): Key
    requires g == fs.Percentage() || fs.SetsAlways(g)
  {
    Key(g, ContainerLabels(w, container))
  }

  function StatsNamed(container: string): ContainerStats -> bool {
    (c: ContainerStats) => c.name == container
  }

  predicate FsEnabled(cfg: Config, fs: Filesystem) {
    if fs.Rootfs? then cfg.containerRootfsUsage else cfg.containerLogsUsage
  }

  /** The entry for the container that decides the gauge: the last, and for the percentage the last with a capacity. */
  function Entry(fs: Filesystem, g: Gauge, container: string): ContainerStats -> bool {
    if g == fs.Percentage() then WithCapacity(fs, container) else StatsNamed(container)
  }

  lemma EntryPublished(fs: Filesystem, inodes: bool, w: Place, cs: seq<ContainerStats>, place: Place, g: Gauge,
      container: string)
    requires g == fs.Percentage() || fs.SetsAlways(g)
    ensures FsPublished(fs, inodes, place, cs, BytesKey(fs, g, w, container)) ==
            if place != w then None
            else match Last(cs, Entry(fs, g, container)) case None => None
                case Some(c) => Some(FsValue(fs, g, fs.StatsOf(c)))
  {
    hide FsValue, FsGauge, AtHome;
    SameLast(cs, Reporting(fs, inodes, g, container), Entry(fs, g, container));
  }

  lemma FsRecord(cfg: Config, cs: seq<PodSpecs.Container>, node: string, r: PodRecord, fs: Filesystem, g: Gauge,
      w: Place, container: string)
    requires g == fs.Percentage() || fs.SetsAlways(g)
    ensures var k := BytesKey(fs, g, w, container);
            k.gauge.OfPods() && Published(cfg, cs, node, r, k) ==
                if FsEnabled(cfg, fs) then FsPublished(fs, cfg.inodes, PlaceOf(node, r), r.containers, k) else None
  {
    hide FsPublished, VolumePublished, LimitPublished, ContainerLabels;
  }

  lemma EntryRecords(cfg: Config, log: Log, fs: Filesystem, g: Gauge, i: int, j: int, w: Place, container: string)
    requires g == fs.Percentage() || fs.SetsAlways(g)
    ensures RecordAt(cfg, log, i, j, BytesKey(fs, g, w, container)) ==
            if !FsEnabled(cfg, fs) || !PublishedAt(log, i, j, w) then None
            else match Last(log[i].summary[j].containers, Entry(fs, g, container))
              case None => None
              case Some(c) => Some(FsValue(fs, g, fs.StatsOf(c)))
  {
    hide Run, Published, FsPublished, FsValue, Entry, BytesKey, FsEnabled;
    if 0 <= i < |log| && log[i].Scraped? && 0 <= j < |log[i].summary| {
      var r := log[i].summary[j];
      FsRecord(cfg, Containers(Run(cfg, log[..i]).lookup, r.name), log[i].node, r, fs, g, w, container);
      EntryPublished(fs, cfg.inodes, w, r.containers, PlaceOf(log[i].node, r), g, container);
    }
  }

  lemma {:induction false} SameLast<T>(s: seq<T>, p: T -> bool, q: T -> bool)
    requires forall x | x in s :: p(x) == q(x)
    ensures Last(s, p) == Last(s, q)
  {
    if s != [] {
      SameLast(s[..|s| - 1], p, q);
    }
  }

  /** In every state the pod-usage series of a pod holds the used bytes of the latest record published for it, and
      exists exactly when there is one that no event has cleared since. */
  lemma UsageFollowsLog(cfg: Config, log: Log, w: Place, v: Value)
    requires cfg.podUsage
    ensures Get(Run(cfg, log).samples, UsageKey(w)) == Some(v) <==>
            exists i, j :: && PublishedAt(log, i, j, w) && v == Real(log[i].summary[j].usedBytes)
                           && (forall i', j' | PublishedAt(log, i', j', w) :: i' < i || (i' == i && j' <= j))
                           && (forall i' | i < i' < |log| :: !ClearsAt(cfg, log, i', UsageKey(w)))
  {
    hide Run, RecordAt, ClearsAt;
    SeriesFollowRecords(cfg, log, UsageKey(w), v);
    forall i, j ensures RecordAt(cfg, log, i, j, UsageKey(w)) ==
            if PublishedAt(log, i, j, w) then Some(Real(log[i].summary[j].usedBytes)) else None
    {
      UsageRecords(cfg, log, i, j, w);
    }
    if i, j :| LatestRecord(cfg, log, i, j, UsageKey(w)) && RecordAt(cfg, log, i, j, UsageKey(w)) == Some(v) {
      assert PublishedAt(log, i, j, w) && v == Real(log[i].summary[j].usedBytes);
    }
  }

  /** Record `j` of scrape `i` is published for this pod and reports the container with a positive capacity. */
  ghost predicate CapacityAt(log: Log, fs: Filesystem, i: int, j: int, w: Place, container: string) {
    PublishedAt(log, i, j, w) && Last(log[i].summary[j].containers, WithCapacity(fs, container)).Some?
  }

  /** In every state a rootfs or logs percentage is used over capacity of the latest published record that reported
      the container with a positive capacity.  Later records without one leave it standing beside newer byte series. */
  lemma PercentageFollowsLog(cfg: Config, log: Log, fs: Filesystem, w: Place, container: string, v: Value)
    requires FsEnabled(cfg, fs)
    ensures var k := BytesKey(fs, fs.Percentage(), w, container);
            Get(Run(cfg, log).samples, k) == Some(v) <==>
            exists i, j :: && CapacityAt(log, fs, i, j, w, container)
                           && v == ShareOfCapacity(fs.StatsOf(Last(log[i].summary[j].containers,
                               WithCapacity(fs, container)).value))
                           && (forall i', j' | CapacityAt(log, fs, i', j', w, container) ::
                                 i' < i || (i' == i && j' <= j))
                           && (forall i' | i < i' < |log| :: !ClearsAt(cfg, log, i', k))
  {
    hide Run, RecordAt, ClearsAt, ShareOfCapacity, BytesKey, FsEnabled, Filesystem.Percentage;
    var k := BytesKey(fs, fs.Percentage(), w, container);
    NotTheRate(fs, fs.Percentage(), w, container);
    SeriesFollowRecords(cfg, log, k, v);
    forall i, j ensures RecordAt(cfg, log, i, j, k) ==
            if CapacityAt(log, fs, i, j, w, container)
            then Some(ShareOfCapacity(fs.StatsOf(Last(log[i].summary[j].containers,
                WithCapacity(fs, container)).value))) else None
    {
      CapacityRecords(cfg, log, fs, i, j, w, container);
    }
    if i, j :| LatestRecord(cfg, log, i, j, k) && RecordAt(cfg, log, i, j, k) == Some(v) {
      assert CapacityAt(log, fs, i, j, w, container);
    }
  }

  lemma CapacityRecords(cfg: Config, log: Log, fs: Filesystem, i: int, j: int, w: Place, container: string)
    requires FsEnabled(cfg, fs)
    ensures RecordAt(cfg, log, i, j, BytesKey(fs, fs.Percentage(), w, container)) ==
            if CapacityAt(log, fs, i, j, w, container)
            then Some(ShareOfCapacity(fs.StatsOf(Last(log[i].summary[j].containers,
                WithCapacity(fs, container)).value))) else None
  {
    hide Run, RecordAt, ShareOfCapacity, BytesKey;
    EntryRecords(cfg, log, fs, fs.Percentage(), i, j, w, container);
  }

  lemma NotTheRate(fs: Filesystem, g: Gauge, w: Place, container: string)
    requires g == fs.Percentage() || fs.SetsAlways(g)
    ensures !BytesKey(fs, g, w, container).gauge.AdjustedPollingRate?
  {
  }

  // ---- When a percentage agrees with the bytes beside it ----

  /** Entry `l` of record `j` of scrape `i`, namely `c`, is what the gauge of this container was last set from, and
      nothing has cleared the series since. */
  ghost predicate SetFrom(cfg: Config, log: Log, fs: Filesystem, g: Gauge, w: Place, container: string, i: int, j: int,
      l: int, c: ContainerStats)
    requires g == fs.Percentage() || fs.SetsAlways(g)
  {
    && LatestRecord(cfg, log, i, j, BytesKey(fs, g, w, container))
    && PublishedAt(log, i, j, w)
    && IsLast(log[i].summary[j].containers, Entry(fs, g, container), l) && log[i].summary[j].containers[l] == c
  }

  lemma EntryOfRecord(cfg: Config, log: Log, fs: Filesystem, g: Gauge, w: Place, container: string, i: int, j: int,
      v: Value)
    requires g == fs.Percentage() || fs.SetsAlways(g)
    requires LatestRecord(cfg, log, i, j, BytesKey(fs, g, w, container))
    ensures RecordAt(cfg, log, i, j, BytesKey(fs, g, w, container)) == Some(v) <==>
            exists l, c :: SetFrom(cfg, log, fs, g, w, container, i, j, l, c) && v == FsValue(fs, g, fs.StatsOf(c))
  {
    hide Run, RecordAt, LatestRecord, FsValue, BytesKey, Entry, PublishedAt, FsEnabled;
    EntryRecords(cfg, log, fs, g, i, j, w, container);
    LatestIsSet(cfg, log, i, j, BytesKey(fs, g, w, container));
    assert PublishedAt(log, i, j, w);
    LastEntry(log, i, j, w, Entry(fs, g, container));
    if RecordAt(cfg, log, i, j, BytesKey(fs, g, w, container)) == Some(v) {
      var cs := Entries(log, i, j, w);
      var c := Last(cs, Entry(fs, g, container)).value;
      var l :| IsLast(cs, Entry(fs, g, container), l) && cs[l] == c;
      assert SetFrom(cfg, log, fs, g, w, container, i, j, l, c);
    }
  }

  function Entries(log: Log, i: int, j: int, w: Place): seq<ContainerStats>
    requires PublishedAt(log, i, j, w)
  {
    log[i].summary[j].containers
  }

  lemma LastEntry(log: Log, i: int, j: int, w: Place, p: ContainerStats -> bool)
    requires PublishedAt(log, i, j, w)
    ensures forall c :: Last(log[i].summary[j].containers, p) == Some(c) <==>
              exists l :: IsLast(log[i].summary[j].containers, p, l) && log[i].summary[j].containers[l] == c
  {
    LastExact(log[i].summary[j].containers, p);
  }

  lemma LatestIsSet(cfg: Config, log: Log, i: int, j: int, k: Key)
    requires LatestRecord(cfg, log, i, j, k)
    ensures RecordAt(cfg, log, i, j, k).Some?
  {
  }

  /** A series holds the value of the entry it was set from, and exists exactly if there is one. */
  lemma EntryFollowsLog(cfg: Config, log: Log, fs: Filesystem, g: Gauge, w: Place, container: string, v: Value)
    requires g == fs.Percentage() || fs.SetsAlways(g)
    ensures Get(Run(cfg, log).samples, BytesKey(fs, g, w, container)) == Some(v) <==>
            exists i, j, l, c :: && SetFrom(cfg, log, fs, g, w, container, i, j, l, c)
                                 && v == FsValue(fs, g, fs.StatsOf(c))
  {
    hide Run, RecordAt, LatestRecord, FsValue, BytesKey, SetFrom;
    var k := BytesKey(fs, g, w, container);
    NotTheRate(fs, g, w, container);
    SeriesFollowRecords(cfg, log, k, v);
    if i, j :| LatestRecord(cfg, log, i, j, k) && RecordAt(cfg, log, i, j, k) == Some(v) {
      EntryOfRecord(cfg, log, fs, g, w, container, i, j, v);
    }
    if i, j, l, c :| SetFrom(cfg, log, fs, g, w, container, i, j, l, c) && v == FsValue(fs, g, fs.StatsOf(c)) {
      SetFromLatest(cfg, log, fs, g, w, container, i, j, l, c);
      EntryOfRecord(cfg, log, fs, g, w, container, i, j, v);
    }
  }

  lemma SetFromLatest(cfg: Config, log: Log, fs: Filesystem, g: Gauge, w: Place, container: string, i: int, j: int,
      l: int, c: ContainerStats)
    requires g == fs.Percentage() || fs.SetsAlways(g)
    requires SetFrom(cfg, log, fs, g, w, container, i, j, l, c)
    ensures LatestRecord(cfg, log, i, j, BytesKey(fs, g, w, container))
    ensures g == fs.Percentage() ==> fs.StatsOf(c).capacityBytes > 0
  {
    hide LatestRecord, BytesKey;
  }

  lemma ClearedTogether(cfg: Config, log: Log, fs: Filesystem, g: Gauge, w: Place, container: string, i: nat)
    requires g == fs.Percentage() || fs.SetsAlways(g)
    requires i < |log|
    ensures ClearsAt(cfg, log, i, BytesKey(fs, g, w, container)) <==>
        ClearsAt(cfg, log, i, BytesKey(fs, fs.Capacity(), w, container))
  {
    hide ReportedNames, Scrapes, Tracker.ReportedAgo, ContainerLabels;
  }

  /** A record that sets the percentage sets the byte gauges, and the byte gauges are always set together. */
  lemma RecordedTogether(cfg: Config, log: Log, fs: Filesystem, g: Gauge, w: Place, container: string, i: int, j: int)
    requires g == fs.Percentage() || fs.SetsAlways(g)
    ensures RecordAt(cfg, log, i, j, BytesKey(fs, g, w, container)).Some? ==>
        RecordAt(cfg, log, i, j, BytesKey(fs, fs.Capacity(), w, container)).Some?
    ensures RecordAt(cfg, log, i, j, BytesKey(fs, fs.Capacity(), w, container)).Some? && fs.SetsAlways(g) ==>
        RecordAt(cfg, log, i, j, BytesKey(fs, g, w, container)).Some?
  {
    hide RecordAt, FsValue, BytesKey, FsEnabled;
    EntryRecords(cfg, log, fs, fs.Capacity(), i, j, w, container);
    EntryRecords(cfg, log, fs, g, i, j, w, container);
    if FsEnabled(cfg, fs) && PublishedAt(log, i, j, w) {
      EntryWithCapacity(fs, log[i].summary[j].containers, container);
    }
  }

  lemma EntryWithCapacity(fs: Filesystem, cs: seq<ContainerStats>, container: string)
    ensures Last(cs, WithCapacity(fs, container)).Some? ==> Last(cs, StatsNamed(container)).Some?
  {
    LastIsIn(cs, WithCapacity(fs, container));
    if Last(cs, WithCapacity(fs, container)).Some? {
      SomeLast(cs, StatsNamed(container), Last(cs, WithCapacity(fs, container)).value);
    }
  }

  lemma LatestOfFewer(cfg: Config, log: Log, i: int, j: int, k: Key, fewer: Key)
    requires LatestRecord(cfg, log, i, j, k) && RecordAt(cfg, log, i, j, fewer).Some?
    requires forall i', j' | RecordAt(cfg, log, i', j', fewer).Some? :: RecordAt(cfg, log, i', j', k).Some?
    requires forall i' | 0 <= i' < |log| :: ClearsAt(cfg, log, i', fewer) <==> ClearsAt(cfg, log, i', k)
    ensures LatestRecord(cfg, log, i, j, fewer)
  {
    hide RecordAt, ClearsAt;
  }

  lemma LatestTogether(cfg: Config, log: Log, fs: Filesystem, g: Gauge, w: Place, container: string, i: int, j: int)
    requires g == fs.Percentage() || fs.SetsAlways(g)
    requires LatestRecord(cfg, log, i, j, BytesKey(fs, fs.Capacity(), w, container))
    requires RecordAt(cfg, log, i, j, BytesKey(fs, g, w, container)).Some?
    ensures LatestRecord(cfg, log, i, j, BytesKey(fs, g, w, container))
  {
    hide RecordAt, ClearsAt, BytesKey, LatestRecord;
    var k, fewer := BytesKey(fs, fs.Capacity(), w, container), BytesKey(fs, g, w, container);
    forall i', j' | RecordAt(cfg, log, i', j', fewer).Some? ensures RecordAt(cfg, log, i', j', k).Some? {
      RecordedTogether(cfg, log, fs, g, w, container, i', j');
    }
    forall i' | 0 <= i' < |log| ensures ClearsAt(cfg, log, i', fewer) <==> ClearsAt(cfg, log, i', k) {
      ClearedTogether(cfg, log, fs, g, w, container, i');
    }
    LatestOfFewer(cfg, log, i, j, k, fewer);
  }

  /** The entry that set the capacity last set the used bytes last, and if it has a capacity the percentage as well. */
  lemma SetTogether(cfg: Config, log: Log, fs: Filesystem, g: Gauge, w: Place, container: string, i: int, j: int,
      l: int, c: ContainerStats)
    requires SetFrom(cfg, log, fs, fs.Capacity(), w, container, i, j, l, c)
    requires fs.SetsAlways(g) || (g == fs.Percentage() && fs.StatsOf(c).capacityBytes > 0)
    ensures SetFrom(cfg, log, fs, g, w, container, i, j, l, c)
  {
    hide RecordAt, BytesKey, LatestRecord, FsValue;
    assert IsLast(log[i].summary[j].containers, Entry(fs, g, container), l);
    SomeLast(log[i].summary[j].containers, Entry(fs, g, container), c);
    EntryRecords(cfg, log, fs, g, i, j, w, container);
    LatestIsSet(cfg, log, i, j, BytesKey(fs, fs.Capacity(), w, container));
    EntryRecords(cfg, log, fs, fs.Capacity(), i, j, w, container);
    LatestTogether(cfg, log, fs, g, w, container, i, j);
  }

  /** All three series of a container come from one and the same entry. */
  ghost predicate FromOneEntry(cfg: Config, log: Log, fs: Filesystem, w: Place, container: string) {
    exists i, j, l, c :: && SetFrom(cfg, log, fs, fs.Percentage(), w, container, i, j, l, c)
                         && SetFrom(cfg, log, fs, fs.Used(), w, container, i, j, l, c)
                         && SetFrom(cfg, log, fs, fs.Capacity(), w, container, i, j, l, c)
  }

  /** In every state the percentage and the byte series beside it come from one and the same entry exactly when the
      capacity shown is positive. */
  lemma PercentageAgreesExactly(cfg: Config, log: Log, fs: Filesystem, w: Place, container: string)
    ensures FromOneEntry(cfg, log, fs, w, container) <==>
            exists c :: c > 0.0
                && Get(Run(cfg, log).samples, BytesKey(fs, fs.Capacity(), w, container)) == Some(Real(c))
  {
    hide Run, SetFrom, BytesKey;
    var samples, k := Run(cfg, log).samples, BytesKey(fs, fs.Capacity(), w, container);
    if i, j, l, c :| && SetFrom(cfg, log, fs, fs.Percentage(), w, container, i, j, l, c)
                     && SetFrom(cfg, log, fs, fs.Used(), w, container, i, j, l, c)
                     && SetFrom(cfg, log, fs, fs.Capacity(), w, container, i, j, l, c)
    {
      var capacity := fs.StatsOf(c).capacityBytes as real;
      SetFromLatest(cfg, log, fs, fs.Percentage(), w, container, i, j, l, c);
      EntryFollowsLog(cfg, log, fs, fs.Capacity(), w, container, Real(capacity));
      assert capacity > 0.0 && Get(samples, k) == Some(Real(capacity));
    }
    if capacity :| capacity > 0.0 && Get(samples, k) == Some(Real(capacity)) {
      EntryFollowsLog(cfg, log, fs, fs.Capacity(), w, container, Real(capacity));
      var i, j, l, c :| SetFrom(cfg, log, fs, fs.Capacity(), w, container, i, j, l, c)
                        && Real(capacity) == FsValue(fs, fs.Capacity(), fs.StatsOf(c));
      SetTogether(cfg, log, fs, fs.Used(), w, container, i, j, l, c);
      SetTogether(cfg, log, fs, fs.Percentage(), w, container, i, j, l, c);
    }
  }

  /** Then the percentage is the quotient of the two series beside it. */
  lemma PercentageOfBytes(cfg: Config, log: Log, fs: Filesystem, w: Place, container: string, capacity: real)
    returns (used: real)
    requires capacity > 0.0
    requires Get(Run(cfg, log).samples, BytesKey(fs, fs.Capacity(), w, container)) == Some(Real(capacity))
    ensures Get(Run(cfg, log).samples, BytesKey(fs, fs.Used(), w, container)) == Some(Real(used))
    ensures Get(Run(cfg, log).samples, BytesKey(fs, fs.Percentage(), w, container)) ==
        Some(Real(used / capacity * 100.0))
  {
    hide Run, SetFrom, BytesKey, Get, Filesystem.StatsOf;
    EntryFollowsLog(cfg, log, fs, fs.Capacity(), w, container, Real(capacity));
    var i, j, l, c :| SetFrom(cfg, log, fs, fs.Capacity(), w, container, i, j, l, c)
                      && Real(capacity) == FsValue(fs, fs.Capacity(), fs.StatsOf(c));
    SetTogether(cfg, log, fs, fs.Used(), w, container, i, j, l, c);
    SetTogether(cfg, log, fs, fs.Percentage(), w, container, i, j, l, c);
    used := fs.StatsOf(c).usedBytes as real;
    EntryFollowsLog(cfg, log, fs, fs.Used(), w, container, Real(used));
    EntryFollowsLog(cfg, log, fs, fs.Percentage(), w, container, Real(used / capacity * 100.0));
  }

  lemma {:induction false} StaysUntilCleared(cfg: Config, log: Log, k: Key, i: nat, n: nat)
    requires i < n <= |log| && PutAt(cfg, log, i, k).Some?
    requires forall j | i < j < n :: !ClearsAt(cfg, log, j, k)
    ensures k in Run(cfg, log[..n]).samples
  {
    hide Step, Put, Clears, ClearsAt, RunFrom;
    assert log[..n] == log[..n - 1] + [log[n - 1]];
    RunOneMore(cfg, Init(cfg), log[..n - 1], log[n - 1]);
    StepEffect(cfg, Run(cfg, log[..n - 1]), log[n - 1], k);
    if i < n - 1 {
      StaysUntilCleared(cfg, log, k, i, n - 1);
      ClearsFollowLog(cfg, log, n - 1, k);
    }
  }

  /** A percentage is never shown without the byte series beside it. */
  lemma PercentageNeverAlone(cfg: Config, log: Log, fs: Filesystem, g: Gauge, w: Place, container: string)
    requires fs.SetsAlways(g)
    requires BytesKey(fs, fs.Percentage(), w, container) in Run(cfg, log).samples
    ensures BytesKey(fs, g, w, container) in Run(cfg, log).samples
  {
    hide Run, ClearsAt, BytesKey, LatestRecord, RecordAt, PutAt;
    var k, bytes := BytesKey(fs, fs.Percentage(), w, container), BytesKey(fs, g, w, container);
    NotTheRate(fs, fs.Percentage(), w, container);
    NotTheRate(fs, g, w, container);
    var v := Run(cfg, log).samples[k];
    SeriesFollowLog(cfg, log, k, v);
    var i :| LiveSince(cfg, log, k, i, v);
    RecordsOfScrape(cfg, log, i, k);
    RecordsOfScrape(cfg, log, i, bytes);
    var j :| RecordAt(cfg, log, i, j, k).Some?;
    RecordedTogether(cfg, log, fs, fs.Percentage(), w, container, i, j);
    RecordedTogether(cfg, log, fs, g, w, container, i, j);
    forall i' | i < i' < |log| ensures !ClearsAt(cfg, log, i', bytes) {
      ClearedTogether(cfg, log, fs, fs.Percentage(), w, container, i');
      ClearedTogether(cfg, log, fs, g, w, container, i');
    }
    StaysUntilCleared(cfg, log, bytes, i, |log|);
    assert log[..|log|] == log;
  }

  // ---- A percentage left behind ----

  /** A published record whose only container reports this filesystem so. */
  predicate ReportsOnly(r: PodRecord, fs: Filesystem, container: string, stats: FsStats) {
    !r.Skipped() && |r.containers| == 1 && r.containers[0].name == container && fs.StatsOf(r.containers[0]) == stats
  }

  lemma OneContainer(fs: Filesystem, inodes: bool, w: Place, r: PodRecord, g: Gauge, container: string, stats: FsStats)
    requires ReportsOnly(r, fs, container, stats)
    requires g == fs.Percentage() || fs.SetsAlways(g)
    ensures FsPublished(fs, inodes, w, r.containers, BytesKey(fs, g, w, container)) ==
            if g == fs.Percentage() && stats.capacityBytes <= 0 then None else Some(FsValue(fs, g, stats))
  {
    hide FsValue;
    var reports := Reporting(fs, inodes, g, container);
    var c := r.containers[0];
    assert r.containers == [c];
    LastIsIn(r.containers, reports);
    if reports(c) {
      SomeLast(r.containers, reports, c);
    }
  }

  lemma OneReportPublished(cfg: Config, cs: seq<PodSpecs.Container>, node: string, r: PodRecord, fs: Filesystem,
      g: Gauge, container: string, stats: FsStats)
    requires FsEnabled(cfg, fs)
    requires ReportsOnly(r, fs, container, stats)
    requires g == fs.Percentage() || fs.SetsAlways(g)
    ensures Published(cfg, cs, node, r, BytesKey(fs, g, PlaceOf(node, r), container)) ==
            if g == fs.Percentage() && stats.capacityBytes <= 0 then None else Some(FsValue(fs, g, stats))
  {
    hide FsValue, FsPublished, VolumePublished, LimitPublished, ReportsOnly, ContainerLabels;
    OneContainer(fs, cfg.inodes, PlaceOf(node, r), r, g, container, stats);
  }

  lemma NotStaleNow(cfg: Config, s: State, node: string, r: PodRecord)
    ensures r.name !in StaleNow(cfg, s, node, [r])
  {
    InReportedNames([r], r);
  }

  /** A scrape of one such record sets the byte series, and sets the percentage only with a capacity. */
  lemma OneReport(cfg: Config, s: State, node: string, r: PodRecord, fs: Filesystem, g: Gauge, container: string,
      stats: FsStats)
    requires FsEnabled(cfg, fs)
    requires ReportsOnly(r, fs, container, stats)
    requires g == fs.Percentage() || fs.SetsAlways(g)
    ensures var k := BytesKey(fs, g, PlaceOf(node, r), container);
            Get(Step(cfg, s, Scraped(node, [r], 0)).samples, k) ==
            if g == fs.Percentage() && stats.capacityBytes <= 0 then Get(s.samples, k)
            else Some(FsValue(fs, g, stats))
  {
    hide Step, StaleNow, Published, FsValue;
    var k := BytesKey(fs, g, PlaceOf(node, r), container);
    var sets := Sets(cfg, s.lookup, node, k);
    OneReportPublished(cfg, Containers(s.lookup, r.name), node, r, fs, g, container, stats);
    NotStaleNow(cfg, s, node, r);
    ScrapeEffect(cfg, s, node, [r], 0, k);
    LastIsIn([r], sets);
    if sets(r) {
      SomeLast([r], sets, r);
    }
  }

  /** The node is added, and two scrapes report the pod, each with one record. */
  function TwoScrapes(p: NodeMonitor.NodeObject, older: PodRecord, newer: PodRecord): Log {
    [NodeAdded(p)] + [Scraped(p.name, [older], 0)] + [Scraped(p.name, [newer], 0)]
  }

  lemma TwoScrapesRun(cfg: Config, p: NodeMonitor.NodeObject, older: PodRecord, newer: PodRecord)
    requires cfg.deployment && p.Ready() && (cfg.scrapeFromKubelet ==> p.endpoint != "")
    ensures EnabledRun(cfg, TwoScrapes(p, older, newer))
    ensures Run(cfg, TwoScrapes(p, older, newer)) ==
        Step(cfg, Step(cfg, Step(cfg, Init(cfg), NodeAdded(p)), Scraped(p.name, [older], 0)),
             Scraped(p.name, [newer], 0))
  {
    hide Merge, ScrapeWrites, WithoutPods, Tracker.Next, ReportedNames, RunFrom, EnabledRun;
    EmptyRun(cfg);
    assert [] + [NodeAdded(p)] == [NodeAdded(p)];
    RunOneMore(cfg, Init(cfg), [], NodeAdded(p));
    RunOneMore(cfg, Init(cfg), [NodeAdded(p)], Scraped(p.name, [older], 0));
    RunOneMore(cfg, Init(cfg), [NodeAdded(p)] + [Scraped(p.name, [older], 0)], Scraped(p.name, [newer], 0));
  }

  lemma LeftBehind(cfg: Config, s: State, node: string, fs: Filesystem, older: PodRecord, newer: PodRecord,
      container: string, before: FsStats, after: FsStats)
    requires FsEnabled(cfg, fs)
    requires older.name == newer.name && older.namespace == newer.namespace
    requires ReportsOnly(older, fs, container, before) && ReportsOnly(newer, fs, container, after)
    requires before.capacityBytes > 0 && after.capacityBytes <= 0
    ensures var w, t := PlaceOf(node, newer),
                Step(cfg, Step(cfg, s, Scraped(node, [older], 0)), Scraped(node, [newer], 0));
            && Get(t.samples, BytesKey(fs, fs.Percentage(), w, container)) == Some(ShareOfCapacity(before))
            && Get(t.samples, BytesKey(fs, fs.Used(), w, container)) == Some(Real(after.usedBytes as real))
            && Get(t.samples, BytesKey(fs, fs.Capacity(), w, container)) == Some(Real(after.capacityBytes as real))
  {
    hide Step, ReportsOnly, BytesKey, Get;
    var t := Step(cfg, s, Scraped(node, [older], 0));
    OneReport(cfg, s, node, older, fs, fs.Percentage(), container, before);
    OneReport(cfg, t, node, newer, fs, fs.Percentage(), container, after);
    OneReport(cfg, t, node, newer, fs, fs.Used(), container, after);
    OneReport(cfg, t, node, newer, fs, fs.Capacity(), container, after);
  }

  /** A percentage can be older than the byte series beside it: after a record with a capacity and one without, used
      and capacity are those of the newer record, and the percentage is still that of the older. */
  lemma PercentageLeftBehind(cfg: Config, fs: Filesystem, p: NodeMonitor.NodeObject, older: PodRecord, newer: PodRecord,
      container: string, before: FsStats, after: FsStats)
    requires cfg.deployment && p.Ready() && (cfg.scrapeFromKubelet ==> p.endpoint != "")
    requires FsEnabled(cfg, fs)
    requires older.name == newer.name && older.namespace == newer.namespace
    requires ReportsOnly(older, fs, container, before) && ReportsOnly(newer, fs, container, after)
    requires before.capacityBytes > 0 && after.capacityBytes <= 0
    ensures var log, w := TwoScrapes(p, older, newer), PlaceOf(p.name, newer);
            var samples := Run(cfg, log).samples;
            && EnabledRun(cfg, log)
            && Get(samples, BytesKey(fs, fs.Percentage(), w, container)) == Some(ShareOfCapacity(before))
            && Get(samples, BytesKey(fs, fs.Used(), w, container)) == Some(Real(after.usedBytes as real))
            && Get(samples, BytesKey(fs, fs.Capacity(), w, container)) == Some(Real(after.capacityBytes as real))
  {
    hide Step, RunFrom, EnabledRun, ReportsOnly, BytesKey, Get, ShareOfCapacity, TwoScrapes;
    TwoScrapesRun(cfg, p, older, newer);
    LeftBehind(cfg, Step(cfg, Init(cfg), NodeAdded(p)), p.name, fs, older, newer, container, before, after);
  }
}
