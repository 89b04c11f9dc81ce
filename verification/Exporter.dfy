/** The whole exporter: its state, the events that change it, the step each event makes, and the class whose
    methods make those steps. */
module Exporter {
  import opened Sequences
  import opened Series
  import opened Settings
  import opened PodSpecs
  import opened PodMetrics
  import opened PodCollector
  import opened NodeMonitor
  import Tracker

  // ---- One scrape ----

  type Summary = seq<PodRecord>

  /** The pod names of a summary, published or not. */
  function ReportedNames(summary: Summary): set<string> {
    set i | 0 <= i < |summary| :: summary[i].name
  }

  function RecordWrites(cfg: Config, lookup: Lookup, node: string, r: PodRecord): Samples {
    Merge(NodeWrites(cfg, node, r.availableBytes, r.capacityBytes), PodWrites(cfg, Containers(lookup, r.name), node, r))
  }

  function SummaryWrites(cfg: Config, lookup: Lookup, node: string, summary: Summary): Samples {
    if summary == [] then map[]
    else
      var r := summary[|summary| - 1];
      Merge(SummaryWrites(cfg, lookup, node, summary[..|summary| - 1]),
          When(!r.Skipped(), RecordWrites(cfg, lookup, node, r)))
  }

  /** The value a record gives to a series, of a pod gauge or of a node gauge. */
  function RecordValue(cfg: Config, lookup: Lookup, node: string, k: Key, r: PodRecord): Option<Value> {
    if k.gauge.OfPods() then Published(cfg, Containers(lookup, r.name), node, r, k)
    else NodePublished(cfg, node, r.availableBytes, r.capacityBytes, k)
  }

  function Sets(cfg: Config, lookup: Lookup, node: string, k: Key): PodRecord -> bool {
    (r: PodRecord) => !r.Skipped() && RecordValue(cfg, lookup, node, k, r).Some?
  }

  /** The value a summary gives to a series: that of the last record published for it. */
  function SummaryValue(cfg: Config, lookup: Lookup, node: string, summary: Summary, k: Key): Option<Value> {
    match Last(summary, Sets(cfg, lookup, node, k))
    case None => None
    case Some(r) => RecordValue(cfg, lookup, node, k, r)
  }

  lemma RecordWritesExact(cfg: Config, lookup: Lookup, node: string, r: PodRecord, k: Key)
    ensures Get(RecordWrites(cfg, lookup, node, r), k) == RecordValue(cfg, lookup, node, k, r)
  {
    hide PodWrites, NodeWrites, Published, NodePublished, Merge, Get;
    NodeWritesExact(cfg, node, r.availableBytes, r.capacityBytes, k);
    PodWritesExact(cfg, Containers(lookup, r.name), node, r, k);
    MergeExact(NodeWrites(cfg, node, r.availableBytes, r.capacityBytes),
        PodWrites(cfg, Containers(lookup, r.name), node, r), k);
  }

  lemma {:induction false} SummaryWritesExact(cfg: Config, lookup: Lookup, node: string, summary: Summary, k: Key)
    ensures Get(SummaryWrites(cfg, lookup, node, summary), k) == SummaryValue(cfg, lookup, node, summary, k)
  {
    if summary != [] {
      hide RecordWrites, RecordValue, Merge, When;
      var front, r := summary[..|summary| - 1], summary[|summary| - 1];
      SummaryWritesExact(cfg, lookup, node, front, k);
      RecordWritesExact(cfg, lookup, node, r, k);
      WhenExact(!r.Skipped(), RecordWrites(cfg, lookup, node, r), k);
      MergeExact(SummaryWrites(cfg, lookup, node, front), When(!r.Skipped(), RecordWrites(cfg, lookup, node, r)), k);
    }
  }

  /** Everything a successful scrape sets: the summary, then the polling-rate gauge if it is enabled. */
  function ScrapeWrites(cfg: Config, lookup: Lookup, node: string, summary: Summary, adjust: int): Samples {
    Merge(SummaryWrites(cfg, lookup, node, summary),
        When(cfg.adjustedPollingRate, One(AdjustedPollingRate, NodeNamed(node), Real(adjust as real))))
  }

  /** The value a successful scrape gives to a series. */
  function ScrapeValue(cfg: Config, lookup: Lookup, node: string, summary: Summary, adjust: int,
      k: Key): (v: Option<Value>)
    ensures v.Some? ==> k.OfNode(node)
    ensures v.Some? && k.gauge.OfPods() ==>
        exists r :: r in summary && k.OfPod(r.name) && k.labels.namespace == Some(r.namespace)
  {
    if k.gauge.AdjustedPollingRate? then
      if cfg.adjustedPollingRate && k.labels == NodeNamed(node) then Some(Real(adjust as real)) else None
    else
      LastIsIn(summary, Sets(cfg, lookup, node, k));
      SummaryValue(cfg, lookup, node, summary, k)
  }

  lemma ScrapeWritesExact(cfg: Config, lookup: Lookup, node: string, summary: Summary, adjust: int, k: Key)
    ensures Get(ScrapeWrites(cfg, lookup, node, summary, adjust), k) ==
        ScrapeValue(cfg, lookup, node, summary, adjust, k)
  {
    hide Merge, SummaryWrites, Get, One, When;
    var rate := One(AdjustedPollingRate, NodeNamed(node), Real(adjust as real));
    SummaryWritesExact(cfg, lookup, node, summary, k);
    OneExact(AdjustedPollingRate, NodeNamed(node), Real(adjust as real), k);
    WhenExact(cfg.adjustedPollingRate, rate, k);
    MergeExact(SummaryWrites(cfg, lookup, node, summary), When(cfg.adjustedPollingRate, rate), k);
    if k.gauge.AdjustedPollingRate? {
      NoRateInSummary(cfg, lookup, node, summary, k);
    }
  }

  lemma NoRateInSummary(cfg: Config, lookup: Lookup, node: string, summary: Summary, k: Key)
    requires k.gauge.AdjustedPollingRate?
    ensures SummaryValue(cfg, lookup, node, summary, k) == None
  {
    LastExact(summary, Sets(cfg, lookup, node, k));
  }

  // ---- State and events ----

  datatype State = State(
    samples: Samples,
    trackers: Trackers,
    monitored: set<string>,
    endpoints: Endpoints,
    lookup: Lookup)

  datatype Event =
    | Scraped(node: string, summary: Summary, adjust: int)   // the query succeeded and its answer was decoded
    | DecodeFailed(node: string)                              // the query succeeded, its answer was not decoded
    | QueryFailed(node: string)
    | NodeAdded(obj: NodeObject)
    | NodeUpdated(obj: NodeObject)
    | NodeDeleted(name: string)
    | PodsListed(pods: seq<PodObject>)
    | PodUpdated(pod: PodObject)
    | PodDeleted(name: string)
  {
    /** The events by which a round deals with one node. */
    predicate OfRound() {
      Scraped? || DecodeFailed? || QueryFailed?
    }

    /** The event forgets everything about this node. */
    predicate Drops(node: string) {
      (QueryFailed? && this.node == node) || (NodeDeleted? && name == node)
    }

    /** The event makes this node monitored. */
    predicate Readies(node: string) {
      (NodeAdded? || NodeUpdated?) && obj.name == node && obj.Ready()
    }
  }

  function Init(cfg: Config): State {
    State(map[], map[], if cfg.deployment then {} else {cfg.currentNode}, map[], map[])
  }

  function StaleNow(cfg: Config, s: State, node: string, summary: Summary): set<string> {
    Tracker.Stale(CountsOf(s.trackers, node), ReportedNames(summary), cfg.scrapeMissTolerance)
  }

  function Scrape(cfg: Config, s: State, node: string, summary: Summary, adjust: int): State {
    s.(samples := Merge(WithoutPods(s.samples, StaleNow(cfg, s, node, summary)),
        ScrapeWrites(cfg, s.lookup, node, summary, adjust)),
       trackers := s.trackers[node := Tracker.Next(CountsOf(s.trackers, node), ReportedNames(summary),
           cfg.scrapeMissTolerance)])
  }

  function Drop(cfg: Config, s: State, node: string): State {
    s.(samples := WithoutNode(s.samples, node, cfg.adjustedPollingRate),
       trackers := s.trackers - {node},
       monitored := s.monitored - {node})
  }

  function Monitor(cfg: Config, s: State, p: NodeObject): State {
    if p.Ready() then
      s.(monitored := s.monitored + {p.name},
         endpoints := if cfg.scrapeFromKubelet then s.endpoints[p.name := p.endpoint] else s.endpoints)
    else s
  }

  function Step(cfg: Config, s: State, e: Event): State {
    match e
    case Scraped(node, summary, adjust) => Scrape(cfg, s, node, summary, adjust)
    case DecodeFailed(_) => s
    case QueryFailed(node) => Drop(cfg, s, node)
    case NodeAdded(p) => Monitor(cfg, s, p)
    case NodeUpdated(p) => Monitor(cfg, s, p)
    case NodeDeleted(name) =>
      Drop(cfg, s, name).(endpoints := if cfg.scrapeFromKubelet then s.endpoints - {name} else s.endpoints)
    case PodsListed(pods) => s.(lookup := RecordedAll(cfg, s.lookup, pods))
    case PodUpdated(p) => s.(lookup := Recorded(cfg, s.lookup, p))
    case PodDeleted(name) => s.(samples := WithoutPods(s.samples, {name}), lookup := s.lookup - {name})
  }

  /** Which events can occur: scrapes and failed queries concern a node monitored at that moment, and only a query
      that can be sent is answered; node events need the node watch of a Deployment, pod events need the pod watch. */
  predicate Enabled(cfg: Config, s: State, e: Event) {
    match e
    case Scraped(node, _, _) => node in s.monitored && Queryable(cfg, s.endpoints, node)
    case DecodeFailed(node) => node in s.monitored && Queryable(cfg, s.endpoints, node)
    case QueryFailed(node) => node in s.monitored
    case NodeAdded(_) => cfg.deployment
    case NodeUpdated(_) => cfg.deployment
    case NodeDeleted(_) => cfg.deployment
    case PodsListed(_) => cfg.WatchesPods()
    case PodUpdated(_) => cfg.WatchesPods()
    case PodDeleted(_) => cfg.WatchesPods()
  }

  type Log = seq<Event>

  function RunFrom(cfg: Config, s: State, log: Log): State {
    if log == [] then s else Step(cfg, RunFrom(cfg, s, log[..|log| - 1]), log[|log| - 1])
  }

  function Run(cfg: Config, log: Log): State {
    RunFrom(cfg, Init(cfg), log)
  }

  predicate EnabledRun(cfg: Config, log: Log) {
    log == [] || (EnabledRun(cfg, log[..|log| - 1]) && Enabled(cfg, Run(cfg, log[..|log| - 1]), log[|log| - 1]))
  }

  lemma EmptyRun(cfg: Config)
    ensures EnabledRun(cfg, []) && RunFrom(cfg, Init(cfg), []) == Init(cfg)
  {
  }

  lemma RunOneMore(cfg: Config, s: State, log: Log, e: Event)
    ensures RunFrom(cfg, s, log + [e]) == Step(cfg, RunFrom(cfg, s, log), e)
    ensures EnabledRun(cfg, log + [e]) <==> EnabledRun(cfg, log) && Enabled(cfg, Run(cfg, log), e)
  {
    assert (log + [e])[..|log + [e]| - 1] == log;
  }

  // ---- The class ----

  /** How the query of a node turns out, if it can be sent. */
  datatype Outcome = Unreachable | Garbled | Answered(summary: Summary, adjust: int)

  function RoundEvent(cfg: Config, endpoints: Endpoints, node: string, outcome: Outcome): Event {
    if outcome.Unreachable? || !Queryable(cfg, endpoints, node) then QueryFailed(node)
    else if outcome.Garbled? then DecodeFailed(node)
    else Scraped(node, outcome.summary, outcome.adjust)
  }

  lemma RoundEventEnabled(cfg: Config, s: State, node: string, outcome: Outcome)
    requires node in s.monitored
    ensures Enabled(cfg, s, RoundEvent(cfg, s.endpoints, node, outcome))
  {
  }

  class App {
    const cfg: Config
    const gauges: GaugeStore
    const pods: Collector
    const nodes: Node
    ghost var log: Log

    predicate Wired() {
      && pods.gauges == gauges && nodes.gauges == gauges && nodes.pods == pods
      && pods.cfg == cfg && nodes.cfg == cfg
    }

    function Now(): State
      reads gauges, pods, nodes
    {
      State(gauges.samples, pods.nodeTrackers, nodes.monitored, nodes.endpoints, pods.lookup)
    }

    /** The state is what the events so far make it. */
    ghost predicate Valid()
      reads this, gauges, pods, nodes
    {
      Wired() && Now() == Run(cfg, log)
    }

    constructor (settings: Config, configuredTolerance: int)
      ensures Valid() && log == []
      ensures cfg == settings.(scrapeMissTolerance := if configuredTolerance < 1 then 2 else configuredTolerance)
      ensures fresh(gauges) && fresh(pods) && fresh(nodes)
    {
      var cfg := settings.(scrapeMissTolerance := Tolerance(configuredTolerance));
      var g := new GaugeStore();
      var p := new Collector(cfg, g);
      var n := new Node(cfg, g, p);
      this.cfg := cfg;
      gauges := g;
      pods := p;
      nodes := n;
      log := [];
    }

    /** The names passed to the eviction: every reported pod, published or not. */
    method CurrentPods(summary: Summary) returns (currentPods: seq<string>)
      ensures |currentPods| == |summary| && forall i | 0 <= i < |summary| :: currentPods[i] == summary[i].name
      ensures Names(currentPods) == ReportedNames(summary)
    {
      currentPods := [];
      for i := 0 to |summary|
        invariant |currentPods| == i && forall j | 0 <= j < i :: currentPods[j] == summary[j].name
      {
        currentPods := currentPods + [summary[i].name];
      }
      SameNames(summary, currentPods);
    }

    /** One decoded, or undecodable, summary.  Stale pods are evicted before anything is published. */
    method SetMetricsFromSummary(node: string, decoded: Option<Summary>) returns (ok: bool)
      requires Wired()
      modifies gauges, pods`nodeTrackers
      ensures ok <==> decoded.Some?
      ensures !ok ==> Now() == old(Now())
      ensures ok ==> Now() == old(Now()).(
                samples := Merge(WithoutPods(old(gauges.samples), StaleNow(cfg, old(Now()), node, decoded.value)),
                                 SummaryWrites(cfg, pods.lookup, node, decoded.value)),
                trackers := old(pods.nodeTrackers)[node := Tracker.Next(CountsOf(old(pods.nodeTrackers), node),
                                 ReportedNames(decoded.value), cfg.scrapeMissTolerance)])
    {
      hide Merge, WithoutPods, RecordWrites, Tracker.Next, Tracker.Stale, Names, ReportedNames;
      if decoded.None? {
        return false;
      }
      var summary := decoded.value;
      var currentPods := CurrentPods(summary);
      pods.EvictStalePods(node, currentPods);
      ghost var s0 := gauges.samples;
      ghost var trackers := pods.nodeTrackers;
      MergeNothing(s0);
      for i := 0 to |summary|
        invariant gauges.samples == Merge(s0, SummaryWrites(cfg, pods.lookup, node, summary[..i]))
        invariant pods.nodeTrackers == trackers
      {
        PrefixStep(summary, i);
        var r := summary[i];
        ghost var before := SummaryWrites(cfg, pods.lookup, node, summary[..i]);
        MergeNothing(before);
        if r.namespace == "" || (r.usedBytes == 0.0 && r.availableBytes == 0.0 && r.capacityBytes == 0.0
            && r.inodes == 0.0 && r.inodesFree == 0.0 && r.inodesUsed == 0.0) {
          continue;
        }
        PublishRecord(node, r);
        MergeTwice(s0, before, RecordWrites(cfg, pods.lookup, node, r));
      }
      assert summary[..|summary|] == summary;
      return true;
    }

    method PublishRecord(node: string, r: PodRecord)
      requires Wired()
      modifies gauges
      ensures gauges.samples == Merge(old(gauges.samples), RecordWrites(cfg, pods.lookup, node, r))
    {
      hide Merge, NodeWrites, PodWrites;
      nodes.SetMetrics(node, r.availableBytes, r.capacityBytes);
      pods.SetMetrics(node, r);
      MergeTwice(old(gauges.samples), NodeWrites(cfg, node, r.availableBytes, r.capacityBytes),
                 PodWrites(cfg, Containers(pods.lookup, r.name), node, r));
    }

    /** The summary, then the polling-rate gauge. */
    method SetMetricsFromAnswer(node: string, summary: Summary, adjust: int)
      requires Wired()
      modifies gauges, pods`nodeTrackers
      ensures Now() == Scrape(cfg, old(Now()), node, summary, adjust)
    {
      hide Merge, One, WithoutPods, SummaryWrites, Tracker.Next, StaleNow, ReportedNames, Run, RunFrom;
      var ok := SetMetricsFromSummary(node, Some(summary));
      MergeNothing(SummaryWrites(cfg, pods.lookup, node, summary));
      MergeTwice(WithoutPods(old(gauges.samples), StaleNow(cfg, old(Now()), node, summary)),
          SummaryWrites(cfg, pods.lookup, node, summary),
                 One(AdjustedPollingRate, NodeNamed(node), Real(adjust as real)));
      if nodes.cfg.adjustedPollingRate {
        gauges.Set(AdjustedPollingRate, NodeNamed(node), Real(adjust as real));
      }
    }

    /** Query a node and publish the answer. */
    method SetMetrics(node: string, outcome: Outcome)
      requires Valid()
      modifies this`log, gauges, pods`nodeTrackers, nodes`monitored
      ensures Valid() && log == old(log) + [RoundEvent(cfg, nodes.endpoints, node, outcome)]
      ensures nodes.monitored == old(nodes.monitored) -
          if RoundEvent(cfg, nodes.endpoints, node, outcome).QueryFailed? then {node} else {}
    {
      hide WithoutNode, Scrape, RunFrom, Queryable;
      ghost var before := Now();
      ghost var e := RoundEvent(cfg, nodes.endpoints, node, outcome);
      var ok := nodes.Query(node, !outcome.Unreachable?);
      if ok {
        if outcome.Garbled? {
          var decoded := SetMetricsFromSummary(node, None);
        } else {
          SetMetricsFromAnswer(node, outcome.summary, outcome.adjust);
        }
      }
      assert Now() == Step(cfg, before, e);
      RunOneMore(cfg, Init(cfg), log, e);
      log := log + [e];
    }

    /** One round over the monitored nodes, one after the other, in any order. */
    method Round(outcomes: map<string, Outcome>) returns (ghost order: seq<string>)
      requires Valid() && EnabledRun(cfg, log)
      requires nodes.monitored <= outcomes.Keys
      modifies this`log, gauges, pods`nodeTrackers, nodes`monitored
      ensures Valid() && EnabledRun(cfg, log)
      ensures Tracker.Distinct(order) && forall n :: n in order <==> n in old(nodes.monitored)
      ensures |log| == |old(log)| + |order| && log[..|old(log)|] == old(log)
      ensures forall i | 0 <= i < |order| ::
                order[i] in outcomes
                    && log[|old(log)| + i] == RoundEvent(cfg, nodes.endpoints, order[i], outcomes[order[i]])
    {
      hide Run, RunFrom, Enabled, RoundEvent, Queryable;
      order := [];
      var ahead := nodes.monitored;
      while ahead != {}
        invariant Valid() && EnabledRun(cfg, log)
        invariant ahead <= nodes.monitored
        invariant Tracker.Distinct(order)
        invariant forall n :: n in order <==> n in old(nodes.monitored) && n !in ahead
        invariant |log| == |old(log)| + |order| && log[..|old(log)|] == old(log)
        invariant forall i | 0 <= i < |order| ::
                    order[i] in outcomes
                    && log[|old(log)| + i] == RoundEvent(cfg, nodes.endpoints, order[i], outcomes[order[i]])
        decreases ahead
      {
        var node :| node in ahead;
        ahead := ahead - {node};
        RoundEventEnabled(cfg, Now(), node, outcomes[node]);
        RunOneMore(cfg, Init(cfg), log, RoundEvent(cfg, nodes.endpoints, node, outcomes[node]));
        SetMetrics(node, outcomes[node]);
        order := order + [node];
      }
    }

    /** Any event at all: the code makes the step the model says.  An answer comes only to a query that was sent. */
    method Handle(e: Event)
      requires Valid()
      requires e.Scraped? || e.DecodeFailed? ==> Queryable(cfg, nodes.endpoints, e.node)
      modifies this`log, gauges, pods, nodes
      ensures Valid() && log == old(log) + [e]
    {
      hide Merge, WithoutPods, WithoutNode, Scrape, Recorded, RecordedAll, RunFrom;
      ghost var before := Now();
      match e {
        case Scraped(node, summary, adjust) =>
          SetMetrics(node, Answered(summary, adjust));
          return;
        case DecodeFailed(node) =>
          SetMetrics(node, Garbled);
          return;
        case QueryFailed(node) =>
          SetMetrics(node, Unreachable);
          return;
        case NodeAdded(p) => nodes.OnNodeAdded(p);
        case NodeUpdated(p) => nodes.OnNodeUpdated(p);
        case NodeDeleted(name) => nodes.OnNodeDeleted(name);
        case PodsListed(ps) =>
          var pages := [Page(ps, "")];
          assert Listed(pages) == ps;
          assert pages[0].continueToken == "";
          pods.InitGetPodsData(pages);
        case PodUpdated(p) => pods.GetPodData(p);
        case PodDeleted(name) => pods.OnPodDeleted(name);
      }
      assert Now() == Step(cfg, before, e);
      RunOneMore(cfg, Init(cfg), log, e);
      log := log + [e];
    }
  }

  lemma SameNames(summary: Summary, names: seq<string>)
    requires |names| == |summary| && forall i | 0 <= i < |names| :: names[i] == summary[i].name
    ensures Names(names) == ReportedNames(summary)
  {
    forall p ensures p in Names(names) <==> p in ReportedNames(summary) {
      if p in Names(names) {
        var i :| 0 <= i < |names| && names[i] == p;
        assert summary[i].name == p;
      }
      if p in ReportedNames(summary) {
        var i :| 0 <= i < |summary| && summary[i].name == p;
        assert names[i] == p;
      }
    }
  }
}
