/** How long series outlive their pods and nodes, over whole runs. */
module Lifecycle {
  import opened Sequences
  import opened Series
  import opened Settings
  import PodSpecs
  import opened Exporter
  import Runs
  import Tracker

  lemma {:induction false} EnabledAt(cfg: Config, log: Log, i: nat)
    requires EnabledRun(cfg, log) && i < |log|
    ensures EnabledRun(cfg, log[..i]) && Enabled(cfg, Run(cfg, log[..i]), log[i])
  {
    hide Run, Enabled;
    if i < |log| - 1 {
      EnabledAt(cfg, log[..|log| - 1], i);
      assert log[..|log| - 1][..i] == log[..i];
    }
  }

  /** A node is queried only while it is monitored, and answers only if its endpoint is known where one is needed. */
  lemma OnlyMonitoredQueried(cfg: Config, log: Log, i: nat)
    requires EnabledRun(cfg, log) && i < |log|
    requires log[i].Scraped? || log[i].DecodeFailed? || log[i].QueryFailed?
    ensures log[i].node in Run(cfg, log[..i]).monitored
    ensures !log[i].QueryFailed? && cfg.deployment && cfg.scrapeFromKubelet ==>
              var endpoint := Get(Run(cfg, log[..i]).endpoints, log[i].node);
              endpoint.Some? && endpoint.value != ""
  {
    hide Run;
    EnabledAt(cfg, log, i);
  }

  // ---- Bounded staleness ----

  /** The number of successful scrapes of a node from event `from` on. */
  function ScrapesFrom(log: Log, from: nat, node: string): nat {
    if |log| <= from then 0
    else ScrapesFrom(log[..|log| - 1], from, node) + if log[|log| - 1].Scraped? && log[|log| - 1].node == node
        then 1 else 0
  }

  /** From event `from` on, no scrape of the node reports the pod. */
  ghost predicate NotReportedFrom(log: Log, from: nat, node: string, pod: string) {
    forall i | from <= i < |log| && log[i].Scraped? && log[i].node == node :: pod !in ReportedNames(log[i].summary)
  }

  lemma {:induction false} RecentScrapesMiss(log: Log, from: nat, node: string, pod: string, ago: nat)
    requires NotReportedFrom(log, from, node, pod)
    requires ago < ScrapesFrom(log, from, node) && ago < |Runs.Scrapes(log, node)|
    ensures pod !in Runs.Scrapes(log, node)[|Runs.Scrapes(log, node)| - 1 - ago]
  {
    hide ReportedNames;
    var front, e := log[..|log| - 1], log[|log| - 1];
    assert forall i | 0 <= i < |front| :: front[i] == log[i];
    if e.Scraped? && e.node == node {
      if ago > 0 {
        RecentScrapesMiss(front, from, node, pod, ago - 1);
      }
    } else {
      RecentScrapesMiss(front, from, node, pod, ago);
    }
  }

  /** Once as many successful scrapes of a node as the tolerance have missed a pod, no gauge has a series for that pod
      on that node, whatever else happened in between; and none appears until a scrape of the node reports the pod. */
  lemma BoundedStaleness(cfg: Config, log: Log, from: nat, node: string, pod: string)
    requires EnabledRun(cfg, log)
    requires NotReportedFrom(log, from, node, pod)
    requires ScrapesFrom(log, from, node) >= cfg.scrapeMissTolerance
    ensures forall k | k in Run(cfg, log).samples :: !(k.OfNode(node) && k.OfPod(pod))
  {
    hide Run, Runs.Scrapes, ScrapesFrom, Tracker.RecentNames;
    Runs.Reachable(cfg, log);
    forall k | k in Run(cfg, log).samples && k.OfNode(node) && k.OfPod(pod) ensures false {
      var c := Run(cfg, log).trackers[node][pod];
      Runs.CountsFollowLog(cfg, log, node, pod, c);
      RecentScrapesMiss(log, from, node, pod, c);
    }
  }

  // ---- Losing a node and getting it back ----

  lemma {:induction false} OutUntilReady(cfg: Config, log: Log, from: nat, node: string)
    requires from < |log| && log[from].Drops(node)
    requires forall i | from < i < |log| :: !log[i].Readies(node)
    ensures node !in Run(cfg, log).monitored
  {
    hide Merge, ScrapeWrites, WithoutPods, WithoutNode, Tracker.Next, PodSpecs.Recorded, PodSpecs.RecordedAll;
    var front := log[..|log| - 1];
    if from < |log| - 1 {
      assert forall i | 0 <= i < |front| :: front[i] == log[i];
      OutUntilReady(cfg, front, from, node);
    }
  }

  /** After a failed query or a delete, and until the node watch reports the node ready, the exporter shows nothing
      of the node: it is not monitored, has no tracker, and has no series in any gauge. */
  lemma DroppedUntilReady(cfg: Config, log: Log, from: nat, node: string)
    requires EnabledRun(cfg, log)
    requires from < |log| && log[from].Drops(node)
    requires forall i | from < i < |log| :: !log[i].Readies(node)
    ensures node !in Run(cfg, log).monitored && node !in Run(cfg, log).trackers
    ensures forall k | k in Run(cfg, log).samples :: !k.OfNode(node)
  {
    hide Run;
    OutUntilReady(cfg, log, from, node);
    Runs.Reachable(cfg, log);
  }

  /** A ready event brings an unmonitored node back, to be scraped if the event gives the endpoint that is needed.  Its
      miss counting starts from nothing: after the next scrape exactly the reported pods are tracked, each with no
      misses. */
  lemma ReadyRestarts(cfg: Config, log: Log, e: Event, node: string, summary: Summary, adjust: int)
    requires EnabledRun(cfg, log) && node !in Run(cfg, log).monitored
    requires e.Readies(node) && cfg.deployment
    ensures EnabledRun(cfg, log + [e])
    ensures EnabledRun(cfg, log + [e] + [Scraped(node, summary, adjust)])
       <==> (cfg.scrapeFromKubelet ==> e.obj.endpoint != "")
    ensures var s := Run(cfg, log + [e] + [Scraped(node, summary, adjust)]);
            node in s.monitored && node in s.trackers && s.trackers[node] == map p | p in ReportedNames(summary) :: 0
  {
    hide Merge, ScrapeWrites, WithoutPods, WithoutNode, ReportedNames, RunFrom, EnabledRun;
    Runs.Reachable(cfg, log);
    RunOneMore(cfg, Init(cfg), log, e);
    RunOneMore(cfg, Init(cfg), log + [e], Scraped(node, summary, adjust));
  }

  lemma DaemonSetStep(cfg: Config, s: State, e: Event)
    requires !cfg.deployment && Enabled(cfg, s, e)
    ensures Step(cfg, s, e).monitored <= s.monitored
    ensures forall node :: !e.Readies(node)
  {
    hide Merge, ScrapeWrites, WithoutPods, WithoutNode, Tracker.Next, PodSpecs.Recorded, PodSpecs.RecordedAll;
  }

  lemma {:induction false} DaemonSetNode(cfg: Config, log: Log)
    requires !cfg.deployment && EnabledRun(cfg, log)
    ensures Run(cfg, log).monitored <= {cfg.currentNode}
    ensures forall i, node | 0 <= i < |log| :: !log[i].Readies(node)
  {
    hide Step, Enabled, Event.Readies;
    if log != [] {
      var front := log[..|log| - 1];
      DaemonSetNode(cfg, front);
      DaemonSetStep(cfg, Run(cfg, front), log[|log| - 1]);
      assert forall i | 0 <= i < |front| :: front[i] == log[i];
    }
  }

  /** As a DaemonSet the exporter has no node watch: if scrapes are single steps, from its first failed query on it
      shows nothing, for good.  (`DaemonSets` says what overlapping scrapes do to this.) */
  lemma DaemonSetNeverRecovers(cfg: Config, log: Log, from: nat)
    requires !cfg.deployment && EnabledRun(cfg, log)
    requires from < |log| && log[from].QueryFailed?
    ensures var s := Run(cfg, log); s.samples == map[] && s.trackers == map[] && s.monitored == {}
  {
    hide Run;
    EnabledAt(cfg, log, from);
    DaemonSetNode(cfg, log[..from]);
    DaemonSetNode(cfg, log);
    OutUntilReady(cfg, log, from, cfg.currentNode);
    Runs.Reachable(cfg, log);
    assert Run(cfg, log).monitored == {};
    var s := Run(cfg, log);
    assert forall k :: k !in s.samples;
  }

  // ---- Kubelet endpoints ----

  /** In a Deployment that scrapes kubelets, every monitored node has an endpoint between events. */
  lemma {:induction false} MonitoredHaveEndpoints(cfg: Config, log: Log)
    requires cfg.deployment && cfg.scrapeFromKubelet
    ensures Run(cfg, log).monitored <= Run(cfg, log).endpoints.Keys
  {
    hide Merge, ScrapeWrites, WithoutPods, WithoutNode, Tracker.Next, PodSpecs.Recorded, PodSpecs.RecordedAll;
    if log != [] {
      MonitoredHaveEndpoints(cfg, log[..|log| - 1]);
    }
  }

  // ---- The monitored set and the endpoints, from the log ----

  /** If the event reports this node with a condition whose reason is that the kubelet is ready: the endpoint. */
  function ReadyReport(e: Event, node: string): Option<string> {
    if (e.NodeAdded? || e.NodeUpdated?) && e.obj.name == node && "KubeletReady" in e.obj.reasons
    then Some(e.obj.endpoint) else None
  }

  /** Event `i` made the node monitored (-1: it was from the start), and no later one dropped it. */
  ghost predicate MonitoredSince(cfg: Config, log: Log, node: string, i: int) {
    && -1 <= i < |log|
    && (if i == -1 then !cfg.deployment && node == cfg.currentNode else ReadyReport(log[i], node).Some?)
    && forall j | i < j < |log| :: log[j] != QueryFailed(node) && log[j] != NodeDeleted(node)
  }

  /** Event `i` is the latest to give the node's endpoint, and the node was not deleted since. */
  ghost predicate EndpointSince(log: Log, node: string, endpoint: string, i: int) {
    && 0 <= i < |log| && ReadyReport(log[i], node) == Some(endpoint)
    && forall j | i < j < |log| :: log[j] != NodeDeleted(node) && ReadyReport(log[j], node) == None
  }

  lemma NodeStep(cfg: Config, s: State, e: Event, node: string)
    ensures node in Step(cfg, s, e).monitored <==>
            || ReadyReport(e, node).Some?
            || (node in s.monitored && e != QueryFailed(node) && e != NodeDeleted(node))
    ensures Get(Step(cfg, s, e).endpoints, node) ==
            if !cfg.scrapeFromKubelet then Get(s.endpoints, node)
            else if ReadyReport(e, node).Some? then ReadyReport(e, node)
            else if e == NodeDeleted(node) then None
            else Get(s.endpoints, node)
  {
    hide Merge, ScrapeWrites, WithoutPods, WithoutNode, Tracker.Next, PodSpecs.Recorded, PodSpecs.RecordedAll;
  }

  lemma MonitoredSinceStep(cfg: Config, front: Log, e: Event, node: string, i: int)
    ensures MonitoredSince(cfg, front + [e], node, i) <==>
            if i == |front| then ReadyReport(e, node).Some?
            else MonitoredSince(cfg, front, node, i) && e != QueryFailed(node) && e != NodeDeleted(node)
  {
    hide ReadyReport;
    var log := front + [e];
    assert log[|front|] == e;
    assert forall j | 0 <= j < |front| :: log[j] == front[j];
  }

  /** A node is monitored exactly if a ready report made it so, or a DaemonSet started with it, and no failed query and
      no delete has dropped it since. */
  lemma {:induction false} MonitoredFollowsLog(cfg: Config, log: Log, node: string)
    ensures node in Run(cfg, log).monitored <==> exists i :: MonitoredSince(cfg, log, node, i)
  {
    hide Step, ReadyReport, MonitoredSince, RunFrom;
    if log == [] {
      AtFirst(cfg, node);
    } else {
      var front, e := log[..|log| - 1], log[|log| - 1];
      assert log == front + [e];
      MonitoredFollowsLog(cfg, front, node);
      RunOneMore(cfg, Init(cfg), front, e);
      NodeStep(cfg, Run(cfg, front), e, node);
      forall i ensures MonitoredSince(cfg, log, node, i) <==>
            if i == |front| then ReadyReport(e, node).Some?
            else MonitoredSince(cfg, front, node, i) && e != QueryFailed(node) && e != NodeDeleted(node)
      {
        MonitoredSinceStep(cfg, front, e, node, i);
      }
      if ReadyReport(e, node).Some? {
        assert MonitoredSince(cfg, log, node, |front|);
      } else if i :| MonitoredSince(cfg, front, node, i) {
        SinceInside(cfg, front, node, i);
        assert MonitoredSince(cfg, log, node, i) <==> e != QueryFailed(node) && e != NodeDeleted(node);
      }
    }
  }

  lemma SinceInside(cfg: Config, log: Log, node: string, i: int)
    requires MonitoredSince(cfg, log, node, i)
    ensures i < |log|
  {
  }

  lemma AtFirst(cfg: Config, node: string)
    ensures node in Run(cfg, []).monitored <==> exists i :: MonitoredSince(cfg, [], node, i)
    ensures Run(cfg, []).endpoints == map[]
  {
    if !cfg.deployment && node == cfg.currentNode {
      assert MonitoredSince(cfg, [], node, -1);
    }
  }

  lemma EndpointSinceStep(front: Log, e: Event, node: string, endpoint: string, i: int)
    ensures EndpointSince(front + [e], node, endpoint, i) <==>
            if i == |front| then ReadyReport(e, node) == Some(endpoint)
            else EndpointSince(front, node, endpoint, i) && e != NodeDeleted(node) && ReadyReport(e, node) == None
  {
    hide ReadyReport;
    var log := front + [e];
    assert log[|front|] == e;
    assert forall j | 0 <= j < |front| :: log[j] == front[j];
  }

  /** When kubelets are scraped, the endpoint kept for a node is the one of its latest ready report since it was last
      deleted; a failed query does not touch it. */
  lemma {:induction false} EndpointsFollowLog(cfg: Config, log: Log, node: string, endpoint: string)
    ensures Get(Run(cfg, log).endpoints, node) == Some(endpoint)
       <==> cfg.scrapeFromKubelet && exists i :: EndpointSince(log, node, endpoint, i)
  {
    hide Step, ReadyReport, EndpointSince, RunFrom;
    if log == [] {
      AtFirst(cfg, node);
      NoEndpointAtFirst(node, endpoint);
    } else {
      var front, e := log[..|log| - 1], log[|log| - 1];
      assert log == front + [e];
      EndpointsFollowLog(cfg, front, node, endpoint);
      RunOneMore(cfg, Init(cfg), front, e);
      NodeStep(cfg, Run(cfg, front), e, node);
      forall i ensures EndpointSince(log, node, endpoint, i) <==>
            if i == |front| then ReadyReport(e, node) == Some(endpoint)
            else EndpointSince(front, node, endpoint, i) && e != NodeDeleted(node) && ReadyReport(e, node) == None
      {
        EndpointSinceStep(front, e, node, endpoint, i);
      }
      ReadyIsNotDeleted(e, node);
      if ReadyReport(e, node) == Some(endpoint) {
        assert EndpointSince(log, node, endpoint, |front|);
      } else if i :| EndpointSince(front, node, endpoint, i) {
        EndpointInside(front, node, endpoint, i);
        assert EndpointSince(log, node, endpoint, i) <==> e != NodeDeleted(node) && ReadyReport(e, node) == None;
      }
    }
  }

  lemma NoEndpointAtFirst(node: string, endpoint: string)
    ensures forall i :: !EndpointSince([], node, endpoint, i)
  {
  }

  lemma ReadyIsNotDeleted(e: Event, node: string)
    ensures e == NodeDeleted(node) ==> ReadyReport(e, node) == None
  {
  }

  lemma EndpointInside(log: Log, node: string, endpoint: string, i: int)
    requires EndpointSince(log, node, endpoint, i)
    ensures i < |log|
  {
  }
}
