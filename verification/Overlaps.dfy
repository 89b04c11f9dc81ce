/** Runs that break the laws of the atomic model: two rounds overlap, and the failed query of one drops the node that
    the other is still scraping or has yet to scrape.  Neither needs the node to be deleted, so the node's endpoint
    stays known. */
module Overlaps {
  import opened Sequences
  import opened Series
  import opened Settings
  import PodSpecs
  import opened PodMetrics
  import opened PodCollector
  import opened NodeMonitor
  import opened Exporter
  import Runs
  import opened Interleaving
  import Guards
  import Tracker

  function UsageOf(node: string, r: PodRecord): Key {
    Key(PodUsage, PodLabels(PlaceOf(node, r)))
  }

  lemma UsageIsWritten(cfg: Config, lookup: PodSpecs.Lookup, node: string, r: PodRecord)
    requires cfg.podUsage
    ensures UsageOf(node, r) in RecordWrites(cfg, lookup, node, r)
  {
    hide RecordWrites;
    RecordWritesExact(cfg, lookup, node, r, UsageOf(node, r));
  }

  lemma AfterThree(cfg: Config, w: World, m1: Move, m2: Move, m3: Move)
    requires Possible(cfg, w, m1)
    requires Possible(cfg, Next(cfg, w, m1), m2)
    requires Possible(cfg, Next(cfg, Next(cfg, w, m1), m2), m3)
    ensures After(cfg, w, [m1, m2]) == Some(Next(cfg, Next(cfg, w, m1), m2))
    ensures After(cfg, w, [m1, m2, m3]) == Some(Next(cfg, Next(cfg, Next(cfg, w, m1), m2), m3))
  {
    hide Next, Possible;
    AfterOne(cfg, w, [], m1);
    AfterOne(cfg, w, [m1], m2);
    AfterOne(cfg, w, [m1, m2], m3);
    assert [] + [m1] == [m1] && [m1] + [m2] == [m1, m2] && [m1, m2] + [m3] == [m1, m2, m3];
  }

  // ---- The first round ----

  /** A node is added, a round takes its snapshot and hands the node out. */
  function Opening(p: NodeObject): seq<Move> {
    [Other(NodeAdded(p)), TakeSnapshot, Invoke(p.name)]
  }

  function Opened(cfg: Config, p: NodeObject): World {
    World(
      State(map[], map[], {p.name}, if cfg.scrapeFromKubelet then map[p.name := p.endpoint] else map[], map[]),
      4, {}, 2, map[3 := Job(p.name, Stamp(2, 3), Querying)], map[], map[])
  }

  lemma OpenedWith(cfg: Config, p: NodeObject)
    ensures var s := Opened(cfg, p).core; s.samples == map[] && s.trackers == map[] && s.monitored == {p.name}
  {
  }

  lemma OpeningRun(cfg: Config, p: NodeObject)
    requires cfg.deployment && p.Ready()
    ensures After(cfg, Start(cfg), Opening(p)) == Some(Opened(cfg, p))
  {
    var m1, m2, m3 := Other(NodeAdded(p)), TakeSnapshot, Invoke(p.name);
    var w1 := Next(cfg, Start(cfg), m1);
    assert w1.core.monitored == {p.name};
    AfterThree(cfg, Start(cfg), m1, m2, m3);
    assert Next(cfg, Next(cfg, w1, m2), m3).waiting == {};
  }

  // ---- Handed out after the drop ----

  /** A node that is not monitored has a series, set by a scrape that was invoked after the node was dropped. */
  ghost predicate BackAfterDrop(w: World, node: string, k: Key) {
    && k in w.core.samples && k.OfNode(node) && node !in w.core.monitored && node in w.droppedAt
    && k in w.writer && w.droppedAt[node] < w.writer[k].invoked
  }

  /** The next round takes its snapshot, the first scrape fails, and the next round hands the dropped node out. */
  lemma HandedOutAfterDrop(cfg: Config, p: NodeObject)
    requires cfg.deployment && p.Ready()
    ensures var end := After(cfg, Opened(cfg, p), [TakeSnapshot, Fail(3), Invoke(p.name)]);
            && end.Some? && end.value.core.endpoints == Opened(cfg, p).core.endpoints
            && p.name !in end.value.core.monitored
            && end.value.droppedAt == map[p.name := 5]
            && 6 in end.value.jobs && end.value.jobs[6] == Job(p.name, Stamp(4, 6), Querying)
  {
    hide WithoutNode;
    AfterThree(cfg, Opened(cfg, p), TakeSnapshot, Fail(3), Invoke(p.name));
  }

  lemma LatePublication(cfg: Config, w: World, id: nat, r: PodRecord)
    requires cfg.podUsage && !r.Skipped()
    requires id in w.jobs && w.jobs[id].work.Publishing? && w.jobs[id].work.rest == [r]
    requires w.jobs[id].node !in w.core.monitored
    requires w.jobs[id].node in w.droppedAt && w.droppedAt[w.jobs[id].node] < w.jobs[id].stamp.invoked
    ensures Possible(cfg, w, PublishNext(id))
    ensures BackAfterDrop(Next(cfg, w, PublishNext(id)), w.jobs[id].node, UsageOf(w.jobs[id].node, r))
  {
    hide RecordWrites, Merge;
    UsageIsWritten(cfg, w.core.lookup, w.jobs[id].node, r);
    MergeExact(w.core.samples, RecordWrites(cfg, w.core.lookup, w.jobs[id].node, r), UsageOf(w.jobs[id].node, r));
  }

  lemma LastRecordPublished(cfg: Config, w: World, id: nat, r: PodRecord, adjust: int)
    requires id in w.jobs && w.jobs[id].work == Publishing([r], adjust)
    ensures Possible(cfg, w, PublishNext(id))
    ensures var t := Next(cfg, w, PublishNext(id));
            && t.waiting == w.waiting && t.core.monitored == w.core.monitored
            && t.jobs == w.jobs[id := w.jobs[id].(work := Publishing([], adjust))]
  {
    hide RecordWrites, Merge, WritesOf;
    assert [r][1..] == [];
  }

  lemma SentAndAnswered(cfg: Config, w: World, id: nat, summary: Summary)
    requires id in w.jobs && w.jobs[id].work.Querying? && Queryable(cfg, w.core.endpoints, w.jobs[id].node)
    ensures Possible(cfg, w, Send(id)) && Possible(cfg, Next(cfg, w, Send(id)), Answer(id, summary, 0))
    ensures var t := Next(cfg, Next(cfg, w, Send(id)), Answer(id, summary, 0));
            && t.waiting == w.waiting && t.droppedAt == w.droppedAt && t.core.monitored == w.core.monitored
            && t.jobs == w.jobs[id := w.jobs[id].(work := Publishing(summary, 0))]
  {
    hide WithoutPods, StaleNow, Tracker.Next, ReportedNames, Queryable;
  }

  lemma LateScrape(cfg: Config, w: World, id: nat, r: PodRecord)
    requires cfg.podUsage && !r.Skipped()
    requires id in w.jobs && w.jobs[id].work.Querying? && Queryable(cfg, w.core.endpoints, w.jobs[id].node)
    requires w.jobs[id].node !in w.core.monitored
    requires w.jobs[id].node in w.droppedAt && w.droppedAt[w.jobs[id].node] < w.jobs[id].stamp.invoked
    ensures var end := After(cfg, w, [Send(id), Answer(id, [r], 0), PublishNext(id)]);
            && end.Some? && BackAfterDrop(end.value, w.jobs[id].node, UsageOf(w.jobs[id].node, r))
            && end.value.waiting == w.waiting && end.value.core.monitored == w.core.monitored
            && end.value.jobs == w.jobs[id := w.jobs[id].(work := Publishing([], 0))]
  {
    hide BackAfterDrop, Next, Possible, Queryable, UsageOf, PodRecord.Skipped, After;
    SentAndAnswered(cfg, w, id, [r]);
    var answered := Next(cfg, Next(cfg, w, Send(id)), Answer(id, [r], 0));
    LastRecordPublished(cfg, answered, id, r, 0);
    LatePublication(cfg, answered, id, r);
    AfterThree(cfg, w, Send(id), Answer(id, [r], 0), PublishNext(id));
  }

  /** Invocation times do not obey the law that snapshot times do, in any Deployment: nine moves from the start, a
      dropped node has a series that a scrape invoked after the drop has set. */
  lemma InvokedAfterDropReachable(cfg: Config, p: NodeObject, r: PodRecord)
    requires cfg.deployment && cfg.podUsage && p.Ready() && !r.Skipped()
    requires cfg.scrapeFromKubelet ==> p.endpoint != ""
    ensures exists moves :: && PossibleRun(cfg, moves)
                            && BackAfterDrop(At(cfg, moves, |moves|), p.name, UsageOf(p.name, r))
  {
    hide After, BackAfterDrop, Start, UsageOf;
    var second, third := [TakeSnapshot, Fail(3), Invoke(p.name)], [Send(6), Answer(6, [r], 0), PublishNext(6)];
    OpeningRun(cfg, p);
    HandedOutAfterDrop(cfg, p);
    LateScrape(cfg, After(cfg, Opened(cfg, p), second).value, 6, r);
    AfterBoth(cfg, Start(cfg), Opening(p), second);
    AfterBoth(cfg, Start(cfg), Opening(p) + second, third);
    AtStart(cfg, Opening(p) + second + third);
  }

  // ---- Published after the tracker is gone ----

  /** The next round hands the same node out while the first scrape waits for its answer.  Between that answer and the
      publication the second query gives up and the node is reported ready. */
  function Overlapping(p: NodeObject, r: PodRecord): seq<Move> {
    [Send(3), TakeSnapshot, Invoke(p.name)] + [Answer(3, [r], 0), Fail(6), Other(NodeUpdated(p))]
  }

  lemma BothWaiting(cfg: Config, p: NodeObject)
    requires cfg.scrapeFromKubelet ==> p.endpoint != ""
    ensures var w := After(cfg, Opened(cfg, p), [Send(3), TakeSnapshot, Invoke(p.name)]);
            && w.Some? && w.value.core == Opened(cfg, p).core && w.value.clock == 7
            && w.value.jobs == map[3 := Job(p.name, Stamp(2, 3), Sent), 6 := Job(p.name, Stamp(5, 6), Querying)]
  {
    AfterThree(cfg, Opened(cfg, p), Send(3), TakeSnapshot, Invoke(p.name));
  }

  lemma FailedAndBack(cfg: Config, w: World, p: NodeObject, kept: Job)
    requires cfg.deployment && p.Ready()
    requires w.core.trackers.Keys == {p.name} && w.core.monitored == {p.name}
    requires w.jobs == map[3 := kept, 6 := Job(p.name, Stamp(5, 6), Querying)]
    ensures Possible(cfg, w, Fail(6)) && Possible(cfg, Next(cfg, w, Fail(6)), Other(NodeUpdated(p)))
    ensures var t := Next(cfg, Next(cfg, w, Fail(6)), Other(NodeUpdated(p)));
            t.core.monitored == {p.name} && t.core.trackers == map[] && t.jobs == map[3 := kept]
  {
    hide WithoutNode;
  }

  lemma AnsweredBetween(cfg: Config, w: World, p: NodeObject, r: PodRecord)
    requires cfg.deployment && p.Ready()
    requires w.core.samples == map[] && w.core.trackers == map[] && w.core.monitored == {p.name}
    requires w.jobs == map[3 := Job(p.name, Stamp(2, 3), Sent), 6 := Job(p.name, Stamp(5, 6), Querying)]
    ensures var t := After(cfg, w, [Answer(3, [r], 0), Fail(6), Other(NodeUpdated(p))]);
            && t.Some? && t.value.core.monitored == {p.name} && t.value.core.trackers == map[]
            && t.value.jobs == map[3 := Job(p.name, Stamp(2, 3), Publishing([r], 0))]
  {
    hide StaleNow, Tracker.Next, ReportedNames, WithoutPods, Drop, Step, NodeObject.Ready, After;
    var answered := Next(cfg, w, Answer(3, [r], 0));
    FailedAndBack(cfg, answered, p, Job(p.name, Stamp(2, 3), Publishing([r], 0)));
    AfterThree(cfg, w, Answer(3, [r], 0), Fail(6), Other(NodeUpdated(p)));
  }

  /** A pod series of a monitored node that has no tracker. */
  ghost predicate LeftUntracked(w: World, node: string, k: Key) {
    k in w.core.samples && k.gauge.OfPods() && k.OfNode(node) && node in w.core.monitored && node !in w.core.trackers
  }

  lemma UntrackedPublication(cfg: Config, w: World, id: nat, r: PodRecord)
    requires cfg.podUsage && !r.Skipped()
    requires id in w.jobs && w.jobs[id].work.Publishing? && w.jobs[id].work.rest == [r]
    requires w.jobs[id].node in w.core.monitored && w.core.trackers == map[]
    ensures LeftUntracked(Next(cfg, w, PublishNext(id)), w.jobs[id].node, UsageOf(w.jobs[id].node, r))
  {
    hide RecordWrites, Merge;
    UsageIsWritten(cfg, w.core.lookup, w.jobs[id].node, r);
    MergeExact(w.core.samples, RecordWrites(cfg, w.core.lookup, w.jobs[id].node, r), UsageOf(w.jobs[id].node, r));
  }

  lemma UntilPublication(cfg: Config, p: NodeObject, r: PodRecord) returns (w: World)
    requires cfg.deployment && p.Ready()
    requires cfg.scrapeFromKubelet ==> p.endpoint != ""
    ensures After(cfg, Start(cfg), Opening(p) + Overlapping(p, r)) == Some(w)
    ensures w.core.monitored == {p.name} && w.core.trackers == map[]
    ensures w.jobs == map[3 := Job(p.name, Stamp(2, 3), Publishing([r], 0))]
  {
    hide After, Start, Opening, Opened;
    var second, third := [Send(3), TakeSnapshot, Invoke(p.name)], [Answer(3, [r], 0), Fail(6), Other(NodeUpdated(p))];
    OpeningRun(cfg, p);
    BothWaiting(cfg, p);
    OpenedWith(cfg, p);
    AnsweredBetween(cfg, After(cfg, Opened(cfg, p), second).value, p, r);
    AfterBoth(cfg, Opened(cfg, p), second, third);
    AfterBoth(cfg, Start(cfg), Opening(p), second + third);
    w := After(cfg, Start(cfg), Opening(p) + Overlapping(p, r)).value;
  }

  function Untracking(p: NodeObject, r: PodRecord): seq<Move> {
    Opening(p) + Overlapping(p, r) + [PublishNext(3)]
  }

  lemma UntrackingRun(cfg: Config, p: NodeObject, r: PodRecord)
    requires cfg.deployment && cfg.podUsage && p.Ready() && !r.Skipped()
    requires cfg.scrapeFromKubelet ==> p.endpoint != ""
    ensures var moves := Untracking(p, r);
            && |moves| == 10 && PossibleRun(cfg, moves)
            && p.name in At(cfg, moves, 9).core.monitored && 3 in At(cfg, moves, 9).jobs
            && At(cfg, moves, 9).jobs[3].node == p.name
            && LeftUntracked(At(cfg, moves, 10), p.name, UsageOf(p.name, r))
  {
    hide After, Start, LeftUntracked, UsageOf, Next;
    var w := UntilPublication(cfg, p, r);
    var moves := Untracking(p, r);
    AfterOne(cfg, Start(cfg), Opening(p) + Overlapping(p, r), PublishNext(3));
    UntrackedPublication(cfg, w, 3, r);
    assert moves[..9] == Opening(p) + Overlapping(p, r);
    AtStart(cfg, moves);
  }

  lemma AnsweredInOrder(cfg: Config, p: NodeObject, r: PodRecord)
    requires cfg.deployment && p.Ready() && PossibleRun(cfg, Untracking(p, r))
    requires cfg.scrapeFromKubelet ==> p.endpoint != ""
    ensures 3 in At(cfg, Untracking(p, r), 6).jobs && At(cfg, Untracking(p, r), 6).jobs[3].node == p.name
    ensures p.name in At(cfg, Untracking(p, r), 6).core.monitored
  {
    hide After, Start, Opening, Opened;
    var second := [Send(3), TakeSnapshot, Invoke(p.name)];
    OpeningRun(cfg, p);
    BothWaiting(cfg, p);
    OpenedWith(cfg, p);
    AfterBoth(cfg, Start(cfg), Opening(p), second);
    SixMoves(p, r);
  }

  lemma SixMoves(p: NodeObject, r: PodRecord)
    ensures |Untracking(p, r)| == 10
    ensures Untracking(p, r)[..6] == Opening(p) + [Send(3), TakeSnapshot, Invoke(p.name)]
  {
  }

  /** A pod series of a monitored node can be left untracked, although every answer came and every record was published
      while the node was monitored: the other round's failed query has dropped the tracker, and a ready event has
      brought the node back. */
  lemma UntrackedReachable(cfg: Config, p: NodeObject, r: PodRecord)
    requires cfg.deployment && cfg.podUsage && p.Ready() && !r.Skipped()
    requires cfg.scrapeFromKubelet ==> p.endpoint != ""
    ensures exists moves ::
              && PossibleRun(cfg, moves)
              && (forall n | 0 <= n < |moves| ::
                    Guards.PublishedMonitored(cfg, moves, n) && Guards.AnsweredMonitored(cfg, moves, n))
              && LeftUntracked(At(cfg, moves, |moves|), p.name, UsageOf(p.name, r))
  {
    hide At, LeftUntracked, UsageOf, PossibleRun, Guards.SetsNothing;
    var moves := Untracking(p, r);
    UntrackingRun(cfg, p, r);
    AnsweredInOrder(cfg, p, r);
    forall n | 0 <= n < |moves|
      ensures Guards.PublishedMonitored(cfg, moves, n) && Guards.AnsweredMonitored(cfg, moves, n)
    {
      assert Guards.Publishes(moves[n]) <==> n == 9;
      assert moves[n].Answer? <==> n == 6;
    }
  }

  /** A series outlives the scrapes of its node that miss its pod exactly if the pod is not tracked, or not for long
      enough: a miss is counted only for a tracked pod.  Until then it keeps its value. */
  lemma {:induction false} AgedOutExactly(cfg: Config, s: State, scrapes: Log, node: string, pod: string, k: Key)
    requires k.OfPod(pod)
    requires forall e | e in scrapes :: e.Scraped? && e.node == node && pod !in ReportedNames(e.summary)
    ensures Get(RunFrom(cfg, s, scrapes).samples, k) ==
            if AgedOut(cfg, s, |scrapes|, node, pod) then None else Get(s.samples, k)
    ensures Get(CountsOf(RunFrom(cfg, s, scrapes).trackers, node), pod) ==
            if pod !in CountsOf(s.trackers, node) || AgedOut(cfg, s, |scrapes|, node, pod) then None
            else Some(CountsOf(s.trackers, node)[pod] + |scrapes|)
  {
    hide Step;
    if scrapes != [] {
      var front, e := scrapes[..|scrapes| - 1], scrapes[|scrapes| - 1];
      AgedOutExactly(cfg, s, front, node, pod, k);
      AgedByOne(cfg, RunFrom(cfg, s, front), e, pod, k);
    }
  }

  lemma AgedByOne(cfg: Config, s: State, e: Event, pod: string, k: Key)
    requires k.OfPod(pod) && e.Scraped? && pod !in ReportedNames(e.summary)
    ensures Get(Step(cfg, s, e).samples, k) == if AgedOut(cfg, s, 1, e.node, pod) then None else Get(s.samples, k)
    ensures Get(CountsOf(Step(cfg, s, e).trackers, e.node), pod) ==
            if pod !in CountsOf(s.trackers, e.node) || AgedOut(cfg, s, 1, e.node, pod) then None
            else Some(CountsOf(s.trackers, e.node)[pod] + 1)
  {
    hide ReportedNames, Merge, ScrapeWrites, WithoutPods, SummaryValue;
    Runs.StepEffect(cfg, s, e, k);
    if Runs.Put(cfg, s, e, k).Some? {
      var r :| r in e.summary && k.OfPod(r.name);
      Runs.InReportedNames(e.summary, r);
    }
  }

  /** The node's tracker counts the pod, and this many more misses reach the tolerance. */
  predicate AgedOut(cfg: Config, s: State, misses: nat, node: string, pod: string) {
    && misses > 0 && pod in CountsOf(s.trackers, node)
    && CountsOf(s.trackers, node)[pod] + misses >= cfg.scrapeMissTolerance
  }
}
