/** One round visits the monitored nodes in no particular order.  When that order can and cannot be seen. */
module Rounds {
  import opened Sequences
  import opened Series
  import opened Settings
  import opened PodMetrics
  import PodCollector
  import opened NodeMonitor
  import opened Exporter
  import EmptyRecords
  import opened Runs
  import Tracker

  /** The first event clears a series that the second one sets. */
  ghost predicate Interferes(cfg: Config, s: State, a: Event, b: Event) {
    exists k :: Clears(cfg, s, a, k) && Put(cfg, s, b, k).Some?
  }

  /** Two round events on different nodes, neither clearing what the other sets. */
  ghost predicate Independent(cfg: Config, s: State, a: Event, b: Event) {
    a.OfRound() && b.OfRound() && a.node != b.node && !Interferes(cfg, s, a, b) && !Interferes(cfg, s, b, a)
  }

  /** A round event of another node changes nothing that an event's own effect depends on. */
  lemma OtherNode(cfg: Config, s: State, a: Event, b: Event, k: Key)
    requires a.OfRound() && b.OfRound() && a.node != b.node
    ensures Put(cfg, Step(cfg, s, a), b, k) == Put(cfg, s, b, k)
    ensures Clears(cfg, Step(cfg, s, a), b, k) <==> Clears(cfg, s, b, k)
  {
    hide Merge, ScrapeWrites, ScrapeValue, WithoutPods, WithoutNode, Tracker.Next, ReportedNames, Tracker.Stale;
  }

  function TrackersAfter(cfg: Config, trackers: PodCollector.Trackers, e: Event): PodCollector.Trackers
    requires e.OfRound()
  {
    match e
    case Scraped(node, summary, _) => trackers[node :=
        Tracker.Next(PodCollector.CountsOf(trackers, node), ReportedNames(summary), cfg.scrapeMissTolerance)]
    case QueryFailed(node) => trackers - {node}
    case DecodeFailed(_) => trackers
  }

  lemma SameTrackers(cfg: Config, trackers: PodCollector.Trackers, a: Event, b: Event)
    requires a.OfRound() && b.OfRound() && a.node != b.node
    ensures TrackersAfter(cfg, TrackersAfter(cfg, trackers, a), b) ==
        TrackersAfter(cfg, TrackersAfter(cfg, trackers, b), a)
  {
    hide Tracker.Next, ReportedNames;
  }

  lemma RoundStep(cfg: Config, s: State, e: Event)
    requires e.OfRound()
    ensures var t := Step(cfg, s, e);
            && t.trackers == TrackersAfter(cfg, s.trackers, e)
            && t.monitored == s.monitored - (if e.QueryFailed? then {e.node} else {})
            && t.endpoints == s.endpoints && t.lookup == s.lookup
  {
    hide Merge, ScrapeWrites, WithoutPods, WithoutNode, Tracker.Next, ReportedNames, StaleNow;
  }

  lemma SameOtherwise(cfg: Config, s: State, a: Event, b: Event)
    requires a.OfRound() && b.OfRound() && a.node != b.node
    ensures var ab, ba := Step(cfg, Step(cfg, s, a), b), Step(cfg, Step(cfg, s, b), a);
            ab.trackers == ba.trackers && ab.monitored == ba.monitored && ab.endpoints == ba.endpoints
                && ab.lookup == ba.lookup
  {
    hide Step, TrackersAfter;
    RoundStep(cfg, s, a);
    RoundStep(cfg, Step(cfg, s, a), b);
    RoundStep(cfg, s, b);
    RoundStep(cfg, Step(cfg, s, b), a);
    SameTrackers(cfg, s.trackers, a, b);
  }

  lemma DifferentNodesSet(cfg: Config, s: State, a: Event, b: Event, k: Key)
    requires a.OfRound() && b.OfRound() && a.node != b.node
    ensures Put(cfg, s, a, k) == None || Put(cfg, s, b, k) == None
  {
    hide ScrapeValue;
  }

  lemma BothOrders(cfg: Config, s: State, a: Event, b: Event, k: Key)
    requires a.OfRound() && b.OfRound() && a.node != b.node
    ensures Get(Step(cfg, Step(cfg, s, a), b).samples, k) ==
            if Put(cfg, s, b, k).Some? then Put(cfg, s, b, k)
            else if Clears(cfg, s, b, k) then None
            else if Put(cfg, s, a, k).Some? then Put(cfg, s, a, k)
            else if Clears(cfg, s, a, k) then None
            else Get(s.samples, k)
  {
    hide Step, Put, Clears;
    StepEffect(cfg, s, a, k);
    StepEffect(cfg, Step(cfg, s, a), b, k);
    OtherNode(cfg, s, a, b, k);
  }

  /** Two events of a round can be exchanged exactly when neither clears a series that the other sets. */
  lemma ExchangeExactly(cfg: Config, s: State, a: Event, b: Event)
    requires a.OfRound() && b.OfRound() && a.node != b.node
    ensures Step(cfg, Step(cfg, s, a), b) == Step(cfg, Step(cfg, s, b), a) <==> Independent(cfg, s, a, b)
  {
    hide Step, Put, Clears;
    var ab, ba := Step(cfg, Step(cfg, s, a), b), Step(cfg, Step(cfg, s, b), a);
    SameOtherwise(cfg, s, a, b);
    forall k
      ensures Get(ab.samples, k) == Get(ba.samples, k)
         <==> !(Clears(cfg, s, a, k) && Put(cfg, s, b, k).Some?) && !(Clears(cfg, s, b, k) && Put(cfg, s, a, k).Some?)
    {
      BothOrders(cfg, s, a, b, k);
      BothOrders(cfg, s, b, a, k);
      DifferentNodesSet(cfg, s, a, b, k);
    }
    if Independent(cfg, s, a, b) {
      SameSamples(ab.samples, ba.samples);
    }
  }

  /** The first scrape gives up a pod name under which the second publishes a record that sets something. */
  ghost predicate Collides(cfg: Config, s: State, a: Event, b: Event) {
    && a.Scraped? && b.Scraped?
    && exists r :: r in b.summary && !r.Skipped() && !EmptyRecords.PodSetsNothing(cfg, Containers(s.lookup, r.name), r)
                   && r.name in StaleNow(cfg, s, a.node, a.summary)
  }

  /** In terms of pod names: one event of a round clears what another sets exactly when it gives up a name that the
      other publishes. */
  lemma InterferesByName(cfg: Config, s: State, a: Event, b: Event)
    requires a.OfRound() && b.OfRound() && a.node != b.node
    ensures Interferes(cfg, s, a, b) <==> Collides(cfg, s, a, b)
  {
    hide StaleNow, EmptyRecords.PodSetsNothing, RecordValue, SummaryValue;
    if k :| Clears(cfg, s, a, k) && Put(cfg, s, b, k).Some? {
      var r := PublishedUnder(cfg, s, b, k);
    }
    if Collides(cfg, s, a, b) {
      var r :| r in b.summary && !r.Skipped() && !EmptyRecords.PodSetsNothing(cfg, Containers(s.lookup, r.name), r)
               && r.name in StaleNow(cfg, s, a.node, a.summary);
      var k := SetUnder(cfg, s, b, r);
      assert Clears(cfg, s, a, k);
    }
  }

  lemma IndependentByName(cfg: Config, s: State, a: Event, b: Event)
    requires a.OfRound() && b.OfRound() && a.node != b.node
    ensures Independent(cfg, s, a, b) <==> !Collides(cfg, s, a, b) && !Collides(cfg, s, b, a)
  {
    hide Interferes, Collides;
    InterferesByName(cfg, s, a, b);
    InterferesByName(cfg, s, b, a);
  }

  lemma PublishedUnder(cfg: Config, s: State, e: Event, k: Key) returns (r: PodRecord)
    requires e.Scraped? && k.gauge.OfPods() && Put(cfg, s, e, k).Some?
    ensures r in e.summary && !r.Skipped() && !EmptyRecords.PodSetsNothing(cfg, Containers(s.lookup, r.name), r)
    ensures k.OfPod(r.name)
  {
    hide EmptyRecords.PodSetsNothing, Published;
    var sets := Sets(cfg, s.lookup, e.node, k);
    LastIsIn(e.summary, sets);
    r := Last(e.summary, sets).value;
    assert sets(r);
    if EmptyRecords.PodSetsNothing(cfg, Containers(s.lookup, r.name), r) {
      EmptyRecords.PodSetsNone(cfg, Containers(s.lookup, r.name), e.node, r, k);
    }
  }

  lemma SetUnder(cfg: Config, s: State, e: Event, r: PodRecord) returns (k: Key)
    requires e.Scraped? && r in e.summary && !r.Skipped()
    requires !EmptyRecords.PodSetsNothing(cfg, Containers(s.lookup, r.name), r)
    ensures k.OfPod(r.name) && Put(cfg, s, e, k).Some?
  {
    hide EmptyRecords.PodSetsNothing, Published;
    k := EmptyRecords.PodSetsSome(cfg, Containers(s.lookup, r.name), e.node, r);
    SomeLast(e.summary, Sets(cfg, s.lookup, e.node, k), r);
  }

  /** The pod names an event of a round may touch: those its node's tracker counts and those it reports. */
  function Touched(s: State, e: Event): set<string> {
    if e.Scraped? then PodCollector.CountsOf(s.trackers, e.node).Keys + ReportedNames(e.summary) else {}
  }

  /** Nodes that share no tracked or reported pod name do not interfere. */
  lemma DisjointNamesIndependent(cfg: Config, s: State, a: Event, b: Event)
    requires a.OfRound() && b.OfRound() && a.node != b.node
    requires Touched(s, a) !! Touched(s, b)
    ensures Independent(cfg, s, a, b)
  {
    NoInterference(cfg, s, a, b);
    NoInterference(cfg, s, b, a);
  }

  lemma NoInterference(cfg: Config, s: State, a: Event, b: Event)
    requires a.OfRound() && b.OfRound() && a.node != b.node
    requires Touched(s, a) !! Touched(s, b)
    ensures !Interferes(cfg, s, a, b)
  {
    hide SummaryValue, ReportedNames;
    forall k | Clears(cfg, s, a, k) ensures Put(cfg, s, b, k) == None {
      if Put(cfg, s, b, k).Some? && a.Scraped? {
        var r :| r in b.summary && k.OfPod(r.name);
        InReportedNames(b.summary, r);
      }
    }
  }

  // ---- Permutations ----

  /** Round events, of different nodes. */
  ghost predicate OfDistinctNodes(round: Log) {
    && (forall i | 0 <= i < |round| :: round[i].OfRound())
    && (forall i, j | 0 <= i < |round| && 0 <= j < |round| && i != j :: round[i].node != round[j].node)
  }

  ghost predicate PairwiseIndependent(cfg: Config, s: State, round: Log) {
    forall i, j | 0 <= i < |round| && 0 <= j < |round| && i != j :: Independent(cfg, s, round[i], round[j])
  }

  /** Independence, and dependence, carry past the events of other nodes. */
  lemma {:induction false} StillIndependent(cfg: Config, s: State, done: Log, a: Event, b: Event)
    requires a.OfRound() && b.OfRound()
    requires forall e | e in done :: e.OfRound() && e.node != a.node && e.node != b.node
    ensures Independent(cfg, RunFrom(cfg, s, done), a, b) <==> Independent(cfg, s, a, b)
  {
    hide Step, Put, Clears;
    if done != [] {
      var front, e := done[..|done| - 1], done[|done| - 1];
      StillIndependent(cfg, s, front, a, b);
      forall k
        ensures Put(cfg, RunFrom(cfg, s, done), a, k) == Put(cfg, RunFrom(cfg, s, front), a, k)
        ensures Put(cfg, RunFrom(cfg, s, done), b, k) == Put(cfg, RunFrom(cfg, s, front), b, k)
        ensures Clears(cfg, RunFrom(cfg, s, done), a, k) <==> Clears(cfg, RunFrom(cfg, s, front), a, k)
        ensures Clears(cfg, RunFrom(cfg, s, done), b, k) <==> Clears(cfg, RunFrom(cfg, s, front), b, k)
      {
        OtherNode(cfg, RunFrom(cfg, s, front), e, a, k);
        OtherNode(cfg, RunFrom(cfg, s, front), e, b, k);
      }
    }
  }

  function Without(round: Log, i: nat): Log
    requires i < |round|
  {
    round[..i] + round[i + 1..]
  }

  lemma WithoutIsLess(round: Log, i: nat)
    requires i < |round|
    ensures multiset(Without(round, i)) == multiset(round) - multiset{round[i]}
    ensures |Without(round, i)| == |round| - 1
    ensures forall j | 0 <= j < |round| - 1 :: Without(round, i)[j] == round[if j < i then j else j + 1]
  {
    assert round == round[..i] + [round[i]] + round[i + 1..];
  }

  lemma RoundWithout(round: Log, i: nat)
    requires OfDistinctNodes(round) && i < |round|
    ensures OfDistinctNodes(Without(round, i))
    ensures multiset(Without(round, i)) == multiset(round) - multiset{round[i]}
    ensures forall e | e in Without(round, i) :: e in round && e.OfRound() && e.node != round[i].node
  {
    hide Without;
    WithoutIsLess(round, i);
    forall e | e in Without(round, i) ensures e in round && e.OfRound() && e.node != round[i].node {
      var j :| 0 <= j < |round| - 1 && Without(round, i)[j] == e;
      DistinctTwo(round, if j < i then j else j + 1, i);
    }
  }

  lemma StillPairwise(cfg: Config, s: State, round: Log, i: nat)
    requires PairwiseIndependent(cfg, s, round) && i < |round|
    ensures PairwiseIndependent(cfg, s, Without(round, i))
  {
    hide Independent;
    var w := Without(round, i);
    assert forall j | 0 <= j < |w| :: w[j] == round[if j < i then j else j + 1];
  }

  /** An event of an independent round can be put off to its end. */
  lemma {:induction false} PutOff(cfg: Config, s: State, round: Log, i: nat)
    requires OfDistinctNodes(round) && PairwiseIndependent(cfg, s, round) && i < |round|
    ensures RunFrom(cfg, s, round) == Step(cfg, RunFrom(cfg, s, Without(round, i)), round[i])
  {
    hide Step, Independent, Without;
    var n := |round| - 1;
    var front, last, e := round[..n], round[n], round[i];
    WithoutLast(round, i);
    if i < n {
      var rest := Without(front, i);
      PutOff(cfg, s, front, i);
      RunOneMore(cfg, s, rest, last);
      RunOneMore(cfg, s, rest, e);
      RoundWithout(front, i);
      Exchanged(cfg, s, rest, e, last);
    }
  }

  lemma WithoutLast(round: Log, i: nat)
    requires i < |round|
    ensures Without(round, i) == if i == |round| - 1 then round[..i]
        else Without(round[..|round| - 1], i) + [round[|round| - 1]]
  {
  }

  lemma Exchanged(cfg: Config, s: State, done: Log, a: Event, b: Event)
    requires Independent(cfg, s, a, b)
    requires forall e | e in done :: e.OfRound() && e.node != a.node && e.node != b.node
    ensures Step(cfg, Step(cfg, RunFrom(cfg, s, done), a), b) == Step(cfg, Step(cfg, RunFrom(cfg, s, done), b), a)
  {
    hide Step, Interferes, RunFrom;
    StillIndependent(cfg, s, done, a, b);
    ExchangeExactly(cfg, RunFrom(cfg, s, done), a, b);
  }

  /** The order of an independent round does not matter: any permutation of it ends in the same state. */
  lemma {:induction false} AnyOrder(cfg: Config, s: State, round: Log, other: Log)
    requires OfDistinctNodes(round) && PairwiseIndependent(cfg, s, round) && multiset(other) == multiset(round)
    ensures RunFrom(cfg, s, other) == RunFrom(cfg, s, round)
    decreases |other|
  {
    hide Step, OfDistinctNodes, PairwiseIndependent;
    assert |other| == |multiset(other)| && |round| == |multiset(round)|;
    if other != [] {
      var n := |other| - 1;
      assert other == other[..n] + [other[n]];
      assert other[n] in multiset(other);
      var i :| 0 <= i < |round| && round[i] == other[n];
      RoundWithout(round, i);
      StillPairwise(cfg, s, round, i);
      AnyOrder(cfg, s, Without(round, i), other[..n]);
      PutOff(cfg, s, round, i);
    }
  }

  /** The round without its events `i` and `j`. */
  lemma WithoutTwo(round: Log, i: nat, j: nat) returns (rest: Log)
    requires OfDistinctNodes(round) && i < j < |round|
    ensures multiset(round) == multiset(rest) + multiset{round[i]} + multiset{round[j]}
    ensures forall e | e in rest :: e.OfRound() && e.node != round[i].node && e.node != round[j].node
  {
    hide OfDistinctNodes, Without;
    RoundWithout(round, j);
    WithoutIsLess(round, j);
    rest := Without(Without(round, j), i);
    RoundWithout(Without(round, j), i);
    RemovedTwice(multiset(round), multiset(Without(round, j)), multiset(rest), round[i], round[j]);
  }

  lemma RemovedTwice(all: multiset<Event>, fewer: multiset<Event>, rest: multiset<Event>, a: Event, b: Event)
    requires fewer == all - multiset{b} && rest == fewer - multiset{a} && b in all && a in fewer
    ensures all == rest + multiset{a} + multiset{b}
  {
  }

  /** Which of two events came last in the round can be seen unless they are independent. */
  lemma LastTwo(cfg: Config, s: State, round: Log, i: nat, j: nat) returns (one: Log, other: Log)
    requires OfDistinctNodes(round) && i < j < |round|
    ensures multiset(one) == multiset(round) && multiset(other) == multiset(round)
    ensures RunFrom(cfg, s, one) == RunFrom(cfg, s, other) <==> Independent(cfg, s, round[i], round[j])
  {
    hide Step, Independent, OfDistinctNodes, RunFrom;
    var a, b := round[i], round[j];
    var rest := WithoutTwo(round, i, j);
    one, other := rest + [a] + [b], rest + [b] + [a];
    RunOneMore(cfg, s, rest, a);
    RunOneMore(cfg, s, rest + [a], b);
    RunOneMore(cfg, s, rest, b);
    RunOneMore(cfg, s, rest + [b], a);
    DistinctTwo(round, i, j);
    StillIndependent(cfg, s, rest, a, b);
    ExchangeExactly(cfg, RunFrom(cfg, s, rest), a, b);
  }

  lemma DistinctTwo(round: Log, i: nat, j: nat)
    requires OfDistinctNodes(round) && i < |round| && j < |round| && i != j
    ensures round[i].OfRound() && round[j].OfRound() && round[i].node != round[j].node
  {
  }

  /** Whatever permutation of the round is taken, it ends in the same state. */
  ghost predicate OrderUnseen(cfg: Config, s: State, round: Log) {
    forall other | multiset(other) == multiset(round) :: RunFrom(cfg, s, other) == RunFrom(cfg, s, round)
  }

  /** No scrape of the round gives up a pod name that another scrape of it publishes. */
  ghost predicate NoCollision(cfg: Config, s: State, round: Log) {
    forall i, j | 0 <= i < |round| && 0 <= j < |round| && i != j :: !Collides(cfg, s, round[i], round[j])
  }

  lemma NoCollisionPairwise(cfg: Config, s: State, round: Log)
    requires OfDistinctNodes(round)
    ensures NoCollision(cfg, s, round) <==> PairwiseIndependent(cfg, s, round)
  {
    hide Collides, Independent, OfDistinctNodes;
    forall i, j | 0 <= i < |round| && 0 <= j < |round| && i != j
      ensures Independent(cfg, s, round[i], round[j])
         <==> !Collides(cfg, s, round[i], round[j]) && !Collides(cfg, s, round[j], round[i])
    {
      DistinctTwo(round, i, j);
      IndependentByName(cfg, s, round[i], round[j]);
    }
  }

  lemma UnseenMeansIndependent(cfg: Config, s: State, round: Log)
    requires OfDistinctNodes(round) && OrderUnseen(cfg, s, round)
    ensures PairwiseIndependent(cfg, s, round)
  {
    hide Interferes, RunFrom, OfDistinctNodes;
    forall i, j | 0 <= i < |round| && 0 <= j < |round| && i != j ensures Independent(cfg, s, round[i], round[j]) {
      var lo, hi := if i < j then i else j, if i < j then j else i;
      var one, other := LastTwo(cfg, s, round, lo, hi);
      assert RunFrom(cfg, s, one) == RunFrom(cfg, s, round) == RunFrom(cfg, s, other);
      assert Independent(cfg, s, round[lo], round[hi]);
    }
  }

  /** The order of a round over different nodes cannot be seen exactly when no scrape of it gives up a pod name that
      another publishes. */
  lemma AnyOrderExactly(cfg: Config, s: State, round: Log)
    requires OfDistinctNodes(round)
    ensures OrderUnseen(cfg, s, round) <==> NoCollision(cfg, s, round)
  {
    hide NoCollision, PairwiseIndependent, OfDistinctNodes, RunFrom;
    NoCollisionPairwise(cfg, s, round);
    if NoCollision(cfg, s, round) {
      forall other | multiset(other) == multiset(round) ensures RunFrom(cfg, s, other) == RunFrom(cfg, s, round) {
        AnyOrder(cfg, s, round, other);
      }
    }
    if OrderUnseen(cfg, s, round) {
      UnseenMeansIndependent(cfg, s, round);
    }
  }

  /** Rounds over distinct nodes that share no tracked or reported pod name may run in any order. */
  lemma DisjointRoundAnyOrder(cfg: Config, s: State, round: Log, other: Log)
    requires OfDistinctNodes(round)
    requires forall i, j | 0 <= i < |round| && 0 <= j < |round| && i != j ::
               Touched(s, round[i]) !! Touched(s, round[j])
    requires multiset(other) == multiset(round)
    ensures RunFrom(cfg, s, other) == RunFrom(cfg, s, round)
  {
    hide Touched, Independent, OfDistinctNodes;
    forall i, j | 0 <= i < |round| && 0 <= j < |round| && i != j ensures Independent(cfg, s, round[i], round[j]) {
      DistinctTwo(round, i, j);
      DisjointNamesIndependent(cfg, s, round[i], round[j]);
    }
    AnyOrder(cfg, s, round, other);
  }

  // ---- Where the order is seen ----

  /** When one node's scrape gives up a pod name in the same round in which another node's scrape publishes it, the
      series survives in one order and is gone in the other. */
  lemma SharedNameOrderMatters(cfg: Config, s: State, a: Event, b: Event, k: Key, pod: string)
    requires a.Scraped? && b.Scraped? && a.node != b.node
    requires k.OfPod(pod) && pod in StaleNow(cfg, s, a.node, a.summary) && Put(cfg, s, b, k).Some?
    ensures Get(Step(cfg, Step(cfg, s, a), b).samples, k) == Put(cfg, s, b, k)
    ensures Get(Step(cfg, Step(cfg, s, b), a).samples, k) == None
  {
    hide Step, Put, StaleNow;
    BothOrders(cfg, s, a, b, k);
    BothOrders(cfg, s, b, a, k);
    DifferentNodesSet(cfg, s, a, b, k);
  }

  /** Two nodes are added, the first reports a pod, and then misses it this many times. */
  function Missing(p: NodeObject, q: NodeObject, r: PodRecord, misses: nat): Log {
    if misses == 0 then [NodeAdded(p)] + [NodeAdded(q)] + [Scraped(p.name, [r], 0)]
    else Missing(p, q, r, misses - 1) + [Scraped(p.name, [], 0)]
  }

  /** Both nodes are monitored and can be queried, and the first one's tracker counts these misses. */
  ghost predicate Missed(cfg: Config, s: State, p: NodeObject, q: NodeObject, pod: string, misses: nat) {
    && p.name in s.monitored && q.name in s.monitored
    && Queryable(cfg, s.endpoints, p.name) && Queryable(cfg, s.endpoints, q.name)
    && Get(PodCollector.CountsOf(s.trackers, p.name), pod) == Some(misses)
  }

  lemma MissedAtFirst(cfg: Config, p: NodeObject, q: NodeObject, r: PodRecord)
    requires cfg.deployment && p.Ready() && q.Ready() && p.name != q.name
    requires cfg.scrapeFromKubelet ==> p.endpoint != "" && q.endpoint != ""
    ensures EnabledRun(cfg, Missing(p, q, r, 0)) && Missed(cfg, Run(cfg, Missing(p, q, r, 0)), p, q, r.name, 0)
  {
    hide Merge, ScrapeWrites, WithoutPods, RunFrom, EnabledRun;
    RunOneMore(cfg, Init(cfg), [], NodeAdded(p));
    RunOneMore(cfg, Init(cfg), [NodeAdded(p)], NodeAdded(q));
    RunOneMore(cfg, Init(cfg), [NodeAdded(p)] + [NodeAdded(q)], Scraped(p.name, [r], 0));
    EmptyRun(cfg);
    assert [] + [NodeAdded(p)] == [NodeAdded(p)];
    InReportedNames([r], r);
  }

  lemma MissedOnceMore(cfg: Config, s: State, p: NodeObject, q: NodeObject, pod: string, misses: nat)
    requires Missed(cfg, s, p, q, pod, misses) && misses + 1 < cfg.scrapeMissTolerance
    ensures Missed(cfg, Step(cfg, s, Scraped(p.name, [], 0)), p, q, pod, misses + 1)
    ensures Enabled(cfg, s, Scraped(p.name, [], 0))
  {
    hide Merge, ScrapeWrites, WithoutPods;
  }

  lemma {:induction false} MissedOften(cfg: Config, p: NodeObject, q: NodeObject, r: PodRecord, misses: nat)
    requires cfg.deployment && p.Ready() && q.Ready() && p.name != q.name
    requires cfg.scrapeFromKubelet ==> p.endpoint != "" && q.endpoint != ""
    requires misses < cfg.scrapeMissTolerance
    ensures EnabledRun(cfg, Missing(p, q, r, misses))
    ensures Missed(cfg, Run(cfg, Missing(p, q, r, misses)), p, q, r.name, misses)
  {
    hide Step, RunFrom, EnabledRun, Enabled, Missed, NodeObject.Ready;
    if misses == 0 {
      MissedAtFirst(cfg, p, q, r);
    } else {
      MissedOften(cfg, p, q, r, misses - 1);
      MissedOnceMore(cfg, Run(cfg, Missing(p, q, r, misses - 1)), p, q, r.name, misses - 1);
      RunOneMore(cfg, Init(cfg), Missing(p, q, r, misses - 1), Scraped(p.name, [], 0));
    }
  }

  lemma UsageSet(cfg: Config, s: State, node: string, r: PodRecord, k: Key)
    requires cfg.podUsage && !r.Skipped() && k == Key(PodUsage, PodLabels(PlaceOf(node, r)))
    ensures Put(cfg, s, Scraped(node, [r], 0), k) == Some(Real(r.usedBytes))
  {
  }

  lemma GivenUpNow(cfg: Config, s: State, p: NodeObject, q: NodeObject, pod: string)
    requires Missed(cfg, s, p, q, pod, cfg.scrapeMissTolerance - 1)
    ensures pod in StaleNow(cfg, s, p.name, [])
  {
  }

  /** A round whose order is seen can be reached in any Deployment that publishes pod usage, whatever the tolerance:
      the first node misses the pod for the last time in the round in which the second reports it. */
  lemma SharedNameReachable(cfg: Config, p: NodeObject, q: NodeObject, r: PodRecord)
    requires cfg.deployment && cfg.podUsage && !r.Skipped()
    requires p.Ready() && q.Ready() && p.name != q.name
    requires cfg.scrapeFromKubelet ==> p.endpoint != "" && q.endpoint != ""
    ensures exists log ::
              var s, a, b := Run(cfg, log), Scraped(p.name, [], 0), Scraped(q.name, [r], 0);
              var k := Key(PodUsage, PodLabels(PlaceOf(q.name, r)));
              && EnabledRun(cfg, log + [a] + [b]) && EnabledRun(cfg, log + [b] + [a])
              && Get(Run(cfg, log + [a] + [b]).samples, k) == Some(Real(r.usedBytes))
              && Get(Run(cfg, log + [b] + [a]).samples, k) == None
  {
    hide RunFrom, EnabledRun, Put, StaleNow, Step, Missing;
    var log := Missing(p, q, r, cfg.scrapeMissTolerance - 1);
    var s, a, b := Run(cfg, log), Scraped(p.name, [], 0), Scraped(q.name, [r], 0);
    var k := Key(PodUsage, PodLabels(PlaceOf(q.name, r)));
    MissedOften(cfg, p, q, r, cfg.scrapeMissTolerance - 1);
    GivenUpNow(cfg, s, p, q, r.name);
    UsageSet(cfg, s, q.name, r, k);
    SharedNameOrderMatters(cfg, s, a, b, k, r.name);
    RunOneMore(cfg, Init(cfg), log, a);
    RunOneMore(cfg, Init(cfg), log + [a], b);
    RunOneMore(cfg, Init(cfg), log, b);
    RunOneMore(cfg, Init(cfg), log + [b], a);
    StillEnabled(cfg, s, a, b);
    StillEnabled(cfg, s, b, a);
  }

  lemma StillEnabled(cfg: Config, s: State, a: Event, b: Event)
    requires a.Scraped? && Enabled(cfg, s, b)
    ensures Enabled(cfg, Step(cfg, s, a), b)
  {
    hide Merge, ScrapeWrites, WithoutPods, Queryable;
  }
}
