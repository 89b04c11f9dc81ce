/** What every event does to every series, and what holds in every reachable state. */
module Runs {
  import opened Sequences
  import opened Series
  import opened Settings
  import PodSpecs
  import PodMetrics
  import PodCollector
  import NodeMonitor
  import opened Exporter
  import Tracker

  // ---- One step, series by series ----

  /** The value the event gives to the series. */
  function Put(cfg: Config, s: State, e: Event, k: Key): Option<Value> {
    if e.Scraped? then ScrapeValue(cfg, s.lookup, e.node, e.summary, e.adjust, k) else None
  }

  /** The event deletes the series, if it exists. */
  predicate Clears(cfg: Config, s: State, e: Event, k: Key) {
    match e
    case Scraped(node, summary, _) => k.gauge.OfPods() && k.labels.pod.Some?
        && k.labels.pod.value in StaleNow(cfg, s, node, summary)
    case QueryFailed(node) => k.OfNode(node) && (k.gauge.AdjustedPollingRate? ==> cfg.adjustedPollingRate)
    case NodeDeleted(name) => k.OfNode(name) && (k.gauge.AdjustedPollingRate? ==> cfg.adjustedPollingRate)
    case PodDeleted(name) => k.OfPod(name)
    case _ => false
  }

  /** The whole effect of an event on a series: cleared first, then set, otherwise as before. */
  lemma StepEffect(cfg: Config, s: State, e: Event, k: Key)
    ensures Get(Step(cfg, s, e).samples, k) ==
        Later(if Clears(cfg, s, e, k) then None else Get(s.samples, k), Put(cfg, s, e, k))
  {
    hide ScrapeWrites, Merge, StaleNow, ScrapeValue, Tracker.Next;
    if e.Scraped? {
      var kept := WithoutPods(s.samples, StaleNow(cfg, s, e.node, e.summary));
      ScrapeWritesExact(cfg, s.lookup, e.node, e.summary, e.adjust, k);
      MergeExact(kept, ScrapeWrites(cfg, s.lookup, e.node, e.summary, e.adjust), k);
    }
  }

  /** One scrape in full.  A pod series takes the value of the last published record that sets it; failing that it
      goes if its pod name was given up by this scrape, and stays if not.  Node series are set, never cleared. */
  lemma ScrapeEffect(cfg: Config, s: State, node: string, summary: Summary, adjust: int, k: Key)
    requires !k.gauge.AdjustedPollingRate?
    ensures var after := Get(Step(cfg, s, Scraped(node, summary, adjust)).samples, k);
            match Last(summary, Sets(cfg, s.lookup, node, k))
            case Some(r) => after == RecordValue(cfg, s.lookup, node, k, r)
            case None =>
              after == if exists p :: k.OfPod(p) && p in StaleNow(cfg, s, node, summary) then None
                  else Get(s.samples, k)
  {
    hide Step, RecordValue, StaleNow;
    StepEffect(cfg, s, Scraped(node, summary, adjust), k);
  }

  function PublishedRecord(r: PodMetrics.PodRecord): bool {
    !r.Skipped()
  }

  /** A scrape leaves each enabled node gauge with the figures of its last published record, or as it was if it
      published none. */
  lemma NodeGaugesAfterScrape(cfg: Config, s: State, node: string, summary: Summary, adjust: int)
    ensures var t := Step(cfg, s, Scraped(node, summary, adjust));
            forall g | g in {NodeAvailable, NodeCapacity, NodePercentage} ::
              Get(t.samples, Key(g, NodeNamed(node))) ==
              match Last(summary, PublishedRecord)
              case None => Get(s.samples, Key(g, NodeNamed(node)))
              case Some(r) => Later(Get(s.samples, Key(g, NodeNamed(node))),
                  NodeMonitor.NodePublished(cfg, node, r.availableBytes, r.capacityBytes, Key(g, NodeNamed(node))))
  {
    hide Step, PodMetrics.ShareOfNode, StaleNow, PodMetrics.Published;
    forall g | g in {NodeAvailable, NodeCapacity, NodePercentage}
      ensures Get(Step(cfg, s, Scraped(node, summary, adjust)).samples, Key(g, NodeNamed(node))) ==
              match Last(summary, PublishedRecord)
              case None => Get(s.samples, Key(g, NodeNamed(node)))
              case Some(r) => Later(Get(s.samples, Key(g, NodeNamed(node))),
                  NodeMonitor.NodePublished(cfg, node, r.availableBytes, r.capacityBytes, Key(g, NodeNamed(node))))
    {
      var k := Key(g, NodeNamed(node));
      ScrapeEffect(cfg, s, node, summary, adjust, k);
      NodeRecordsSet(cfg, s.lookup, node, summary, k);
    }
  }

  lemma {:induction false} NodeRecordsSet(cfg: Config, lookup: PodSpecs.Lookup, node: string, summary: Summary, k: Key)
    requires k.labels == NodeNamed(node) && k.gauge in {NodeAvailable, NodeCapacity, NodePercentage}
    ensures Last(summary, Sets(cfg, lookup, node, k)) ==
            if (k.gauge.NodeAvailable? && cfg.nodeAvailable) || (k.gauge.NodeCapacity? && cfg.nodeCapacity)
                || (k.gauge.NodePercentage? && cfg.nodePercentage)
            then Last(summary, PublishedRecord) else None
  {
    hide PodMetrics.Published, PodMetrics.ShareOfNode;
    if summary != [] {
      NodeRecordsSet(cfg, lookup, node, summary[..|summary| - 1], k);
    }
  }

  // ---- Invariants ----

  /** Only monitored nodes have series or trackers. */
  ghost predicate Silent(s: State) {
    && (forall k | k in s.samples :: k.labels.node.Some? && k.labels.node.value in s.monitored)
    && s.trackers.Keys <= s.monitored
  }

  predicate Tracked(cfg: Config, trackers: PodCollector.Trackers, node: string, pod: string) {
    node in trackers && pod in trackers[node] && trackers[node][pod] < cfg.scrapeMissTolerance
  }

  /** Every pod series belongs to a pod that its node's tracker still counts, below the tolerance. */
  ghost predicate NothingUntracked(cfg: Config, s: State) {
    forall k | k in s.samples && k.gauge.OfPods() ::
      k.labels.node.Some? && k.labels.pod.Some? && Tracked(cfg, s.trackers, k.labels.node.value, k.labels.pod.value)
  }

  ghost predicate RateOnlyWhenEnabled(cfg: Config, s: State) {
    forall k | k in s.samples && k.gauge.AdjustedPollingRate? :: cfg.adjustedPollingRate
  }

  ghost predicate Inv(cfg: Config, s: State) {
    Silent(s) && NothingUntracked(cfg, s) && RateOnlyWhenEnabled(cfg, s)
  }

  lemma TrackedAfterScrape(cfg: Config, s: State, node: string, summary: Summary, adjust: int, m: string, pod: string)
    requires || (pod in ReportedNames(summary) && m == node)
             || (Tracked(cfg, s.trackers, m, pod) && pod !in StaleNow(cfg, s, node, summary))
    ensures Tracked(cfg, Scrape(cfg, s, node, summary, adjust).trackers, m, pod)
  {
    hide ScrapeWrites, Merge, WithoutPods, ReportedNames;
  }

  lemma SilentStep(cfg: Config, s: State, e: Event)
    requires Silent(s) && RateOnlyWhenEnabled(cfg, s) && Enabled(cfg, s, e)
    ensures Silent(Step(cfg, s, e)) && RateOnlyWhenEnabled(cfg, Step(cfg, s, e))
  {
    var t := Step(cfg, s, e);
    forall k | k in t.samples
      ensures k.labels.node.Some? && k.labels.node.value in t.monitored
      ensures k.gauge.AdjustedPollingRate? ==> cfg.adjustedPollingRate
    {
      hide Merge, ScrapeWrites, WithoutPods, WithoutNode, StaleNow, SummaryValue, Tracker.Next,
        PodSpecs.RecordedAll, PodSpecs.Recorded;
      StepEffect(cfg, s, e, k);
    }
    hide Merge, ScrapeWrites, WithoutPods, WithoutNode, Tracker.Next, ReportedNames,
        PodSpecs.RecordedAll, PodSpecs.Recorded;
    assert t.trackers.Keys <= t.monitored;
  }

  lemma NothingUntrackedStep(cfg: Config, s: State, e: Event)
    requires NothingUntracked(cfg, s)
    ensures NothingUntracked(cfg, Step(cfg, s, e))
  {
    hide Merge, ScrapeWrites, WithoutPods, WithoutNode, StaleNow, SummaryValue, Tracker.Next,
        PodSpecs.RecordedAll, PodSpecs.Recorded;
    var t := Step(cfg, s, e);
    forall k | k in t.samples && k.gauge.OfPods()
      ensures k.labels.node.Some? && k.labels.pod.Some?
          && Tracked(cfg, t.trackers, k.labels.node.value, k.labels.pod.value)
    {
      StepEffect(cfg, s, e, k);
      if e.Scraped? {
        if Put(cfg, s, e, k).Some? {
          var r :| r in e.summary && k.OfPod(r.name);
          InReportedNames(e.summary, r);
        }
        TrackedAfterScrape(cfg, s, e.node, e.summary, e.adjust, k.labels.node.value, k.labels.pod.value);
      }
    }
  }

  lemma InReportedNames(summary: Summary, r: PodMetrics.PodRecord)
    requires r in summary
    ensures r.name in ReportedNames(summary)
  {
    var i :| 0 <= i < |summary| && summary[i] == r;
    assert summary[i].name == r.name;
  }

  /** In every reachable state: unmonitored nodes have no series and no tracker, and no pod has a series unless its
      node's tracker counts it. */
  lemma {:induction false} Reachable(cfg: Config, log: Log)
    requires EnabledRun(cfg, log)
    ensures Inv(cfg, Run(cfg, log))
  {
    hide Step, Silent, NothingUntracked, RateOnlyWhenEnabled;
    if log != [] {
      var before := Run(cfg, log[..|log| - 1]);
      Reachable(cfg, log[..|log| - 1]);
      SilentStep(cfg, before, log[|log| - 1]);
      NothingUntrackedStep(cfg, before, log[|log| - 1]);
    } else {
      InitiallySilent(cfg);
    }
  }

  lemma InitiallySilent(cfg: Config)
    ensures Inv(cfg, Init(cfg))
  {
  }

  // ---- Trackers and the log ----

  /** The scrapes of a node since it was last dropped, oldest first: the names each reported. */
  function Scrapes(log: Log, node: string): Tracker.Scrapes {
    if log == [] then []
    else
      var e := log[|log| - 1];
      if e.Drops(node) then []
      else if e.Scraped? && e.node == node then Scrapes(log[..|log| - 1], node) + [ReportedNames(e.summary)]
      else Scrapes(log[..|log| - 1], node)
  }

  /** A node's tracker is what its scrapes since the last drop make it, and exists once there is such a scrape. */
  lemma {:induction false} TrackerFollowsLog(cfg: Config, log: Log, node: string)
    ensures PodCollector.CountsOf(Run(cfg, log).trackers, node) ==
        Tracker.Replay(Scrapes(log, node), cfg.scrapeMissTolerance)
    ensures node in Run(cfg, log).trackers <==> Scrapes(log, node) != []
  {
    hide Merge, ScrapeWrites, WithoutPods, WithoutNode, ReportedNames,
        PodSpecs.Recorded, PodSpecs.RecordedAll, Tracker.Next;
    if log != [] {
      var e := log[|log| - 1];
      var h := Scrapes(log[..|log| - 1], node);
      TrackerFollowsLog(cfg, log[..|log| - 1], node);
      if e.Scraped? && e.node == node {
        assert (h + [ReportedNames(e.summary)])[..|h|] == h;
      }
    }
  }

  /** The tracked names of a node are the names of its last `scrapeMissTolerance` scrapes, and a pod's count is the
      number of scrapes since the latest that reported it. */
  lemma CountsFollowLog(cfg: Config, log: Log, node: string, pod: string, c: nat)
    ensures Get(PodCollector.CountsOf(Run(cfg, log).trackers, node), pod) == Some(c)
       <==> c < cfg.scrapeMissTolerance && Tracker.ReportedAgo(Scrapes(log, node), pod, c)
    ensures PodCollector.CountsOf(Run(cfg, log).trackers, node).Keys ==
        Tracker.RecentNames(Scrapes(log, node), cfg.scrapeMissTolerance)
  {
    hide Run, Scrapes, Tracker.Replay, Tracker.ReportedAgo, Tracker.RecentNames;
    TrackerFollowsLog(cfg, log, node);
    Tracker.CountsAreAges(Scrapes(log, node), cfg.scrapeMissTolerance, pod, c);
    Tracker.TracksRecentNames(Scrapes(log, node), cfg.scrapeMissTolerance);
  }
}
