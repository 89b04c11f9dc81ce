/** The node collector: which nodes are monitored, where their kubelets answer, and the node gauges. */
module NodeMonitor {
  import opened Sequences
  import opened Series
  import opened Settings
  import PodMetrics
  import PodCollector

  /** A node as the watch reports it: the reasons of its conditions, and the kubelet endpoint derived from its
      addresses. */
  datatype NodeObject = NodeObject(name: string, reasons: seq<string>, endpoint: string)
  {
    predicate Ready() {
      KUBELET_READY in reasons
    }
  }

  const KUBELET_READY := "KubeletReady"

  type Endpoints = map<string, string>

  /** A query can be sent: a Deployment that scrapes kubelets needs a known endpoint, everyone else asks the API
      server. */
  predicate Queryable(cfg: Config, endpoints: Endpoints, node: string) {
    cfg.deployment && cfg.scrapeFromKubelet ==> node in endpoints && endpoints[node] != ""
  }

  // ---- Node gauges ----

  function NodeWrites(cfg: Config, node: string, available: real, capacity: real): Samples {
    Merge(Merge(
      When(cfg.nodeAvailable, One(NodeAvailable, NodeNamed(node), Real(available))),
      When(cfg.nodeCapacity, One(NodeCapacity, NodeNamed(node), Real(capacity)))),
      When(cfg.nodePercentage, One(NodePercentage, NodeNamed(node), PodMetrics.ShareOfNode(available, capacity))))
  }

  /** The value a published record gives to a series of its node. */
  function NodePublished(cfg: Config, node: string, available: real, capacity: real, k: Key): (v: Option<Value>)
    ensures v.Some? ==> !k.gauge.OfPods() && k.labels == NodeNamed(node)
  {
    if k.labels != NodeNamed(node) then None
    else match k.gauge
      case NodeAvailable => if cfg.nodeAvailable then Some(Real(available)) else None
      case NodeCapacity => if cfg.nodeCapacity then Some(Real(capacity)) else None
      case NodePercentage => if cfg.nodePercentage then Some(PodMetrics.ShareOfNode(available, capacity)) else None
      case _ => None
  }

  lemma NodeWritesExact(cfg: Config, node: string, available: real, capacity: real, k: Key)
    ensures Get(NodeWrites(cfg, node, available, capacity), k) == NodePublished(cfg, node, available, capacity, k)
  {
    hide Merge, Get, One, When, PodMetrics.ShareOfNode;
    var a, c := One(NodeAvailable, NodeNamed(node), Real(available)),
        One(NodeCapacity, NodeNamed(node), Real(capacity));
    var p := One(NodePercentage, NodeNamed(node), PodMetrics.ShareOfNode(available, capacity));
    OneExact(NodeAvailable, NodeNamed(node), Real(available), k);
    OneExact(NodeCapacity, NodeNamed(node), Real(capacity), k);
    OneExact(NodePercentage, NodeNamed(node), PodMetrics.ShareOfNode(available, capacity), k);
    WhenExact(cfg.nodeAvailable, a, k);
    WhenExact(cfg.nodeCapacity, c, k);
    WhenExact(cfg.nodePercentage, p, k);
    MergeExact(When(cfg.nodeAvailable, a), When(cfg.nodeCapacity, c), k);
    MergeExact(Merge(When(cfg.nodeAvailable, a), When(cfg.nodeCapacity, c)), When(cfg.nodePercentage, p), k);
  }

  method CheckKubeletStatus(reasons: seq<string>) returns (ready: bool)
    ensures ready <==> "KubeletReady" in reasons
  {
    for i := 0 to |reasons|
      invariant KUBELET_READY !in reasons[..i]
    {
      if reasons[i] == KUBELET_READY {
        return true;
      }
    }
    return false;
  }

  class Node {
    const cfg: Config
    const gauges: GaugeStore
    const pods: PodCollector.Collector
    var monitored: set<string>
    var endpoints: Endpoints

    /** A Deployment starts with no node and learns them from the watch; a DaemonSet pod starts with its own node. */
    constructor (cfg: Config, gauges: GaugeStore, pods: PodCollector.Collector)
      ensures this.cfg == cfg && this.gauges == gauges && this.pods == pods
      ensures monitored == (if cfg.deployment then {} else {cfg.currentNode}) && endpoints == map[]
    {
      this.cfg := cfg;
      this.gauges := gauges;
      this.pods := pods;
      monitored := if cfg.deployment then {} else {cfg.currentNode};
      endpoints := map[];
    }

    method SetMetrics(node: string, available: real, capacity: real)
      modifies gauges
      ensures gauges.samples == Merge(old(gauges.samples), NodeWrites(cfg, node, available, capacity))
    {
      hide Merge, One;
      ghost var s0 := gauges.samples;
      MergeNothing(s0);
      if cfg.nodeAvailable {
        gauges.Set(NodeAvailable, NodeNamed(node), Real(available));
      }
      MergeNothing(gauges.samples);
      if cfg.nodeCapacity {
        gauges.Set(NodeCapacity, NodeNamed(node), Real(capacity));
      }
      MergeNothing(gauges.samples);
      if cfg.nodePercentage {
        var setValue := NaN;
        if capacity > 0.0 {
          setValue := Real(PodMetrics.Max(capacity - available, 0.0) * 100.0 / capacity);
        }
        gauges.Set(NodePercentage, NodeNamed(node), setValue);
      }
      PodCollector.MergeThree(
        s0,
        When(cfg.nodeAvailable, One(NodeAvailable, NodeNamed(node), Real(available))),
        When(cfg.nodeCapacity, One(NodeCapacity, NodeNamed(node), Real(capacity))),
        When(cfg.nodePercentage, One(NodePercentage, NodeNamed(node), PodMetrics.ShareOfNode(available, capacity))));
    }

    /** The node leaves the monitored set; its series and its tracker go with it.  Its endpoint stays. */
    method Evict(node: string)
      requires pods.gauges == gauges
      modifies this`monitored, gauges, pods`nodeTrackers
      ensures monitored == old(monitored) - {node}
      ensures pods.nodeTrackers == old(pods.nodeTrackers) - {node}
      ensures gauges.samples == WithoutNode(old(gauges.samples), node, cfg.adjustedPollingRate)
    {
      hide Get, Labels.Extends, WithoutNode, Key.OfNode;
      monitored := monitored - {node};
      var labels := NodeNamed(node);
      gauges.DeletePartialMatch(NodeAvailable, labels);
      gauges.DeletePartialMatch(NodeCapacity, labels);
      gauges.DeletePartialMatch(NodePercentage, labels);
      if cfg.adjustedPollingRate {
        gauges.DeletePartialMatch(AdjustedPollingRate, labels);
      }
      pods.EvictPodByNode(node);
      NodeCleared(old(gauges.samples), gauges.samples, node, cfg.adjustedPollingRate);
    }

    /** Query a node.  `delivered` is whether the request, if it can be sent, is answered within the retries.  A node
        that gave no answer is evicted. */
    method Query(node: string, delivered: bool) returns (ok: bool)
      requires pods.gauges == gauges
      modifies this`monitored, gauges, pods`nodeTrackers
      ensures ok <==> delivered && Queryable(cfg, endpoints, node)
      ensures monitored == if ok then old(monitored) else old(monitored) - {node}
      ensures pods.nodeTrackers == if ok then old(pods.nodeTrackers) else old(pods.nodeTrackers) - {node}
      ensures gauges.samples == if ok then old(gauges.samples)
          else WithoutNode(old(gauges.samples), node, cfg.adjustedPollingRate)
    {
      hide WithoutNode;
      if !cfg.scrapeFromKubelet || !cfg.deployment {
        ok := delivered;
      } else if node !in endpoints || endpoints[node] == "" {
        ok := false;
      } else {
        ok := delivered;
      }
      if !ok {
        Evict(node);
      }
    }

    method OnNodeAdded(p: NodeObject)
      modifies this`monitored, this`endpoints
      ensures monitored == old(monitored) + if p.Ready() then {p.name} else {}
      ensures endpoints == if p.Ready() && cfg.scrapeFromKubelet then old(endpoints)[p.name := p.endpoint]
          else old(endpoints)
    {
      var ready := CheckKubeletStatus(p.reasons);
      if ready {
        monitored := monitored + {p.name};
        if cfg.scrapeFromKubelet {
          endpoints := endpoints[p.name := p.endpoint];
        }
      }
    }

    /** Brings back a node whose kubelet reports ready again. */
    method OnNodeUpdated(p: NodeObject)
      modifies this`monitored, this`endpoints
      ensures monitored == old(monitored) + if p.Ready() then {p.name} else {}
      ensures endpoints == if p.Ready() && cfg.scrapeFromKubelet then old(endpoints)[p.name := p.endpoint]
          else old(endpoints)
    {
      var ready := CheckKubeletStatus(p.reasons);
      if ready {
        monitored := monitored + {p.name};
        if cfg.scrapeFromKubelet {
          endpoints := endpoints[p.name := p.endpoint];
        }
      }
    }

    method OnNodeDeleted(name: string)
      requires pods.gauges == gauges
      modifies this`monitored, this`endpoints, gauges, pods`nodeTrackers
      ensures monitored == old(monitored) - {name}
      ensures endpoints == if cfg.scrapeFromKubelet then old(endpoints) - {name} else old(endpoints)
      ensures pods.nodeTrackers == old(pods.nodeTrackers) - {name}
      ensures gauges.samples == WithoutNode(old(gauges.samples), name, cfg.adjustedPollingRate)
    {
      Evict(name);
      if cfg.scrapeFromKubelet {
        endpoints := endpoints - {name};
      }
    }
  }

  lemma NodeCleared(before: Samples, after: Samples, node: string, pollingRate: bool)
    requires forall k ::
               Get(after, k) == if k.gauge.OfPods() && k.OfNode(node) then None
                                else if !k.gauge.OfPods() && (k.gauge.AdjustedPollingRate? ==> pollingRate)
                                    && k.labels.Extends(NodeNamed(node)) then None
                                else Get(before, k)
    ensures after == WithoutNode(before, node, pollingRate)
  {
    forall k ensures Get(after, k) == Get(WithoutNode(before, node, pollingRate), k) {
    }
    SameSamples(after, WithoutNode(before, node, pollingRate));
  }
}
