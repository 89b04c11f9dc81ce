/** A finer model.  A round takes a snapshot of the monitored set and hands its nodes to workers one by one; a
    worker's query, eviction and publications are separate steps, and everything else can happen between them.
    Here a node can be dropped while it waits or while its scrape is under way. */
module Interleaving {
  import opened Sequences
  import opened Series
  import opened Settings
  import PodSpecs
  import PodMetrics
  import PodCollector
  import NodeMonitor
  import opened Exporter
  import Tracker

  /** When the snapshot behind a scrape was taken, and when the scrape was handed to a worker. */
  datatype Stamp = Stamp(snapshot: nat, invoked: nat)

  /** Sent: the endpoint has been looked up, if one is needed, and an answer may come.  An attempt that is retried
      leaves no trace. */
  datatype Work = Querying | Sent | Publishing(rest: Summary, adjust: int)
  datatype Job = Job(node: string, stamp: Stamp, work: Work)

  /** The state of the exporter, the round being handed out, the scrapes under way, and two pieces of history: when
      each node was last dropped, and which scrape last set each series. */
  datatype World = World(
    core: State,
    clock: nat,
    waiting: set<string>,
    snapshot: nat,
    jobs: map<nat, Job>,
    droppedAt: map<string, nat>,
    writer: map<Key, Stamp>)

  datatype Move =
    | TakeSnapshot
    | Invoke(node: string)
    | Send(id: nat)
    | Answer(id: nat, summary: Summary, adjust: int)   // the query succeeds; stale pods are evicted
    | PublishNext(id: nat)                             // one record of the summary
    | Finish(id: nat)
    | Garble(id: nat)
    | Fail(id: nat)
    | Other(e: Event)                                  // a node or pod event

  function Start(cfg: Config): World {
    World(Init(cfg), 1, {}, 0, map[], map[], map[])
  }

  predicate Possible(cfg: Config, w: World, m: Move) {
    match m
    case TakeSnapshot => w.waiting == {}
    case Invoke(node) => node in w.waiting
    case Send(id) =>
      id in w.jobs && w.jobs[id].work.Querying? && NodeMonitor.Queryable(cfg, w.core.endpoints, w.jobs[id].node)
    case Answer(id, _, _) => id in w.jobs && w.jobs[id].work.Sent?
    case PublishNext(id) => id in w.jobs && w.jobs[id].work.Publishing? && w.jobs[id].work.rest != []
    case Finish(id) => id in w.jobs && w.jobs[id].work.Publishing? && w.jobs[id].work.rest == []
    case Garble(id) => id in w.jobs && w.jobs[id].work.Sent?
    case Fail(id) => id in w.jobs && !w.jobs[id].work.Publishing?
    case Other(e) => !e.OfRound() && Enabled(cfg, w.core, e)
  }

  /** Set these samples on behalf of a scrape. */
  function Written(w: World, writes: Samples, stamp: Stamp): World {
    w.(core := w.core.(samples := Merge(w.core.samples, writes)),
       writer := w.writer + map k | k in writes :: stamp)
  }

  function WritesOf(cfg: Config, w: World, m: Move): Samples
    requires Possible(cfg, w, m)
  {
    match m
    case PublishNext(id) =>
      var r := w.jobs[id].work.rest[0];
      When(!r.Skipped(), RecordWrites(cfg, w.core.lookup, w.jobs[id].node, r))
    case Finish(id) =>
      When(cfg.adjustedPollingRate, One(AdjustedPollingRate, NodeNamed(w.jobs[id].node),
          Real(w.jobs[id].work.adjust as real)))
    case _ => map[]
  }

  function Evicted(cfg: Config, s: State, node: string, summary: Summary): State {
    s.(samples := WithoutPods(s.samples, StaleNow(cfg, s, node, summary)),
       trackers := s.trackers[node := Tracker.Next(PodCollector.CountsOf(s.trackers, node), ReportedNames(summary),
           cfg.scrapeMissTolerance)])
  }

  function Moved(cfg: Config, w: World, m: Move): World
    requires Possible(cfg, w, m)
  {
    match m
    case TakeSnapshot => w.(waiting := w.core.monitored, snapshot := w.clock)
    case Invoke(node) => w.(waiting := w.waiting - {node},
        jobs := w.jobs[w.clock := Job(node, Stamp(w.snapshot, w.clock), Querying)])
    case Send(id) => w.(jobs := w.jobs[id := w.jobs[id].(work := Sent)])
    case Answer(id, summary, adjust) =>
      w.(core := Evicted(cfg, w.core, w.jobs[id].node, summary),
          jobs := w.jobs[id := w.jobs[id].(work := Publishing(summary, adjust))])
    case PublishNext(id) =>
      Written(w, WritesOf(cfg, w, m), w.jobs[id].stamp).(jobs :=
          w.jobs[id := w.jobs[id].(work := w.jobs[id].work.(rest := w.jobs[id].work.rest[1..]))])
    case Finish(id) => Written(w, WritesOf(cfg, w, m), w.jobs[id].stamp).(jobs := w.jobs - {id})
    case Garble(id) => w.(jobs := w.jobs - {id})
    case Fail(id) =>
      w.(core := Drop(cfg, w.core, w.jobs[id].node), droppedAt := w.droppedAt[w.jobs[id].node := w.clock],
          jobs := w.jobs - {id})
    case Other(e) =>
      w.(core := Step(cfg, w.core, e), droppedAt := if e.NodeDeleted? then w.droppedAt[e.name := w.clock]
          else w.droppedAt)
  }

  /** Every move takes one tick. */
  function Next(cfg: Config, w: World, m: Move): World
    requires Possible(cfg, w, m)
  {
    Moved(cfg, w, m).(clock := w.clock + 1)
  }

  /** The worlds along these moves, if they are possible. */
  function After(cfg: Config, w: World, moves: seq<Move>): Option<World> {
    if moves == [] then Some(w)
    else
      var before := After(cfg, w, moves[..|moves| - 1]);
      if before.Some? && Possible(cfg, before.value, moves[|moves| - 1])
          then Some(Next(cfg, before.value, moves[|moves| - 1])) else None
  }

  // ---- Runs of moves ----

  lemma AfterOne(cfg: Config, w: World, moves: seq<Move>, m: Move)
    ensures After(cfg, w, moves + [m]) ==
            match After(cfg, w, moves)
            case None => None
            case Some(t) => if Possible(cfg, t, m) then Some(Next(cfg, t, m)) else None
  {
    hide Next, Possible;
    assert (moves + [m])[..|moves + [m]| - 1] == moves;
  }

  lemma {:induction false} AfterBoth(cfg: Config, w: World, first: seq<Move>, second: seq<Move>)
    ensures After(cfg, w, first + second) ==
            match After(cfg, w, first) case None => None case Some(t) => After(cfg, t, second)
  {
    hide Next, Possible;
    if second == [] {
      assert first + second == first;
    } else {
      var front, m := second[..|second| - 1], second[|second| - 1];
      assert first + second == (first + front) + [m] && second == front + [m];
      AfterBoth(cfg, w, first, front);
      AfterOne(cfg, w, first + front, m);
      match After(cfg, w, first)
      case None =>
      case Some(t) => AfterOne(cfg, t, front, m);
    }
  }

  /** These moves are possible from the start, one after the other. */
  predicate PossibleRun(cfg: Config, moves: seq<Move>) {
    After(cfg, Start(cfg), moves).Some?
  }

  lemma {:induction false} PrefixPossible(cfg: Config, moves: seq<Move>, n: nat)
    requires PossibleRun(cfg, moves) && n <= |moves|
    ensures PossibleRun(cfg, moves[..n])
  {
    assert moves == moves[..n] + moves[n..];
    AfterBoth(cfg, Start(cfg), moves[..n], moves[n..]);
  }

  /** The world after the first `n` moves. */
  function At(cfg: Config, moves: seq<Move>, n: nat): World
    requires PossibleRun(cfg, moves) && n <= |moves|
  {
    PrefixPossible(cfg, moves, n);
    After(cfg, Start(cfg), moves[..n]).value
  }

  lemma AtStart(cfg: Config, moves: seq<Move>)
    requires PossibleRun(cfg, moves)
    ensures At(cfg, moves, 0) == Start(cfg)
    ensures At(cfg, moves, |moves|) == After(cfg, Start(cfg), moves).value
  {
    assert moves[..|moves|] == moves;
  }

  lemma AtStep(cfg: Config, moves: seq<Move>, n: nat)
    requires PossibleRun(cfg, moves) && n < |moves|
    ensures Possible(cfg, At(cfg, moves, n), moves[n])
    ensures At(cfg, moves, n + 1) == Next(cfg, At(cfg, moves, n), moves[n])
  {
    hide Next, Possible;
    PrefixPossible(cfg, moves, n + 1);
    PrefixPossible(cfg, moves, n);
    assert moves[..n + 1] == moves[..n] + [moves[n]];
    AfterOne(cfg, Start(cfg), moves[..n], moves[n]);
  }

  // ---- What still holds ----

  /** A time in the past, and if the node is not monitored, from before the node was last dropped. */
  ghost predicate Predates(w: World, node: string, time: nat) {
    && time < w.clock
    && (node !in w.core.monitored ==> node in w.droppedAt && time < w.droppedAt[node])
  }

  ghost predicate SeriesPredate(w: World) {
    forall k | k in w.core.samples ::
      k.labels.node.Some? && k in w.writer && Predates(w, k.labels.node.value, w.writer[k].snapshot)
  }

  ghost predicate WorkPredates(w: World) {
    && (forall n | n in w.waiting :: Predates(w, n, w.snapshot))
    && (forall id | id in w.jobs :: Predates(w, w.jobs[id].node, w.jobs[id].stamp.snapshot))
  }

  /** Whatever the move, a time that was in order stays in order: a node stops being monitored only by being
      dropped, and is dropped now. */
  lemma StillPredates(cfg: Config, w: World, m: Move, node: string, time: nat)
    requires Possible(cfg, w, m) && Predates(w, node, time)
    ensures Predates(Next(cfg, w, m), node, time)
  {
    hide Merge, RecordWrites, WithoutPods, WithoutNode, Tracker.Next, StaleNow, ReportedNames,
        PodSpecs.Recorded, PodSpecs.RecordedAll;
  }

  /** A step other than a publication only removes series. */
  lemma OnlyRemoves(cfg: Config, w: World, m: Move, k: Key)
    requires Possible(cfg, w, m) && k in Next(cfg, w, m).core.samples
    ensures k in w.core.samples || k in WritesOf(cfg, w, m)
    ensures k in w.writer ==> k in Next(cfg, w, m).writer
    ensures k !in WritesOf(cfg, w, m) && k in w.writer ==> Next(cfg, w, m).writer[k] == w.writer[k]
    ensures k in WritesOf(cfg, w, m) ==>
        (m.PublishNext? || m.Finish?) && k in Next(cfg, w, m).writer && Next(cfg, w, m).writer[k] == w.jobs[m.id].stamp
  {
    hide RecordWrites, Tracker.Next, StaleNow, ReportedNames, PodSpecs.Recorded, PodSpecs.RecordedAll, When, One;
  }

  lemma WritesAtHome(cfg: Config, w: World, m: Move, k: Key)
    requires Possible(cfg, w, m) && k in WritesOf(cfg, w, m)
    ensures m.PublishNext? || m.Finish?
    ensures k.OfNode(w.jobs[m.id].node)
  {
    hide RecordWrites, PodMetrics.PodWrites;
    if m.PublishNext? {
      var r := w.jobs[m.id].work.rest[0];
      RecordWritesExact(cfg, w.core.lookup, w.jobs[m.id].node, r, k);
    }
  }

  lemma SeriesPredateStep(cfg: Config, w: World, m: Move)
    requires Possible(cfg, w, m) && SeriesPredate(w) && WorkPredates(w)
    ensures SeriesPredate(Next(cfg, w, m))
  {
    hide Next, Possible, WritesOf, Predates;
    var t := Next(cfg, w, m);
    forall k | k in t.core.samples
      ensures k.labels.node.Some? && k in t.writer && Predates(t, k.labels.node.value, t.writer[k].snapshot)
    {
      OnlyRemoves(cfg, w, m, k);
      if k in WritesOf(cfg, w, m) {
        WritesAtHome(cfg, w, m, k);
        JobExists(cfg, w, m);
        StillPredates(cfg, w, m, w.jobs[m.id].node, w.jobs[m.id].stamp.snapshot);
      } else {
        StillPredates(cfg, w, m, k.labels.node.value, w.writer[k].snapshot);
      }
    }
  }

  lemma JobExists(cfg: Config, w: World, m: Move)
    requires Possible(cfg, w, m) && (m.PublishNext? || m.Finish?)
    ensures m.id in w.jobs
  {
  }

  lemma WorkPredatesStep(cfg: Config, w: World, m: Move)
    requires Possible(cfg, w, m) && WorkPredates(w)
    ensures WorkPredates(Next(cfg, w, m))
  {
    hide Merge, RecordWrites, WithoutPods, WithoutNode, Tracker.Next, StaleNow, ReportedNames,
        PodSpecs.Recorded, PodSpecs.RecordedAll,
        Predates, Step, Evicted, Drop, WritesOf;
    var t := Next(cfg, w, m);
    forall n | n in t.waiting ensures Predates(t, n, t.snapshot) {
      if m.TakeSnapshot? {
        FreshSnapshot(cfg, w, n);
      } else {
        StillPredates(cfg, w, m, n, w.snapshot);
      }
    }
    forall id | id in t.jobs ensures Predates(t, t.jobs[id].node, t.jobs[id].stamp.snapshot) {
      if m.Invoke? && id == w.clock {
        StillPredates(cfg, w, m, m.node, w.snapshot);
      } else {
        StillPredates(cfg, w, m, w.jobs[id].node, w.jobs[id].stamp.snapshot);
      }
    }
  }

  lemma FreshSnapshot(cfg: Config, w: World, n: string)
    requires Possible(cfg, w, TakeSnapshot) && n in w.core.monitored
    ensures Predates(Next(cfg, w, TakeSnapshot), n, w.clock)
  {
  }

  /** In every world reachable by any interleaving, a series on a node that is not monitored was last set by a scrape
      whose round took its snapshot before the node was last dropped. */
  lemma {:induction false} LeftoversPredateDrop(cfg: Config, moves: seq<Move>, n: nat)
    requires PossibleRun(cfg, moves) && n <= |moves|
    ensures SeriesPredate(At(cfg, moves, n)) && WorkPredates(At(cfg, moves, n))
  {
    hide Next, Possible, SeriesPredate, WorkPredates, At, Start;
    if n == 0 {
      AtStart(cfg, moves);
      StartPredates(cfg);
    } else {
      var before := At(cfg, moves, n - 1);
      LeftoversPredateDrop(cfg, moves, n - 1);
      AtStep(cfg, moves, n - 1);
      SeriesPredateStep(cfg, before, moves[n - 1]);
      WorkPredatesStep(cfg, before, moves[n - 1]);
    }
  }

  lemma StartPredates(cfg: Config)
    ensures SeriesPredate(Start(cfg)) && WorkPredates(Start(cfg))
  {
  }

  // ---- Rounds and scrapes, from beginning to end ----

  /** The nodes handed out by the moves after `a` and before `b`. */
  function HandedOut(moves: seq<Move>, a: nat, b: nat): set<string>
    requires b <= |moves|
  {
    set i | a < i < b && moves[i].Invoke? :: moves[i].node
  }

  lemma WaitingStep(cfg: Config, w: World, m: Move)
    requires Possible(cfg, w, m)
    ensures Next(cfg, w, m).waiting ==
            if m.TakeSnapshot? then w.core.monitored
            else if m.Invoke? then w.waiting - {m.node}
            else w.waiting
    ensures m.Invoke? ==> m.node in w.waiting
    ensures m.TakeSnapshot? ==> w.waiting == {}
  {
    hide WritesOf, Evicted, Step, Drop;
  }

  lemma HandedOutOneMore(moves: seq<Move>, a: nat, n: nat)
    requires a < n < |moves|
    ensures HandedOut(moves, a, n + 1) == HandedOut(moves, a, n) + if moves[n].Invoke? then {moves[n].node} else {}
  {
  }

  lemma {:induction false} StillWaiting(cfg: Config, moves: seq<Move>, a: nat, n: nat)
    requires PossibleRun(cfg, moves) && a < n <= |moves| && moves[a].TakeSnapshot?
    requires forall i | a < i < n :: !moves[i].TakeSnapshot?
    ensures At(cfg, moves, n).waiting == At(cfg, moves, a).core.monitored - HandedOut(moves, a, n)
  {
    hide At, PossibleRun, Possible, Next, HandedOut;
    AtStep(cfg, moves, n - 1);
    WaitingStep(cfg, At(cfg, moves, n - 1), moves[n - 1]);
    if n - 1 > a {
      StillWaiting(cfg, moves, a, n - 1);
      HandedOutOneMore(moves, a, n - 1);
    } else {
      NoneHandedOut(moves, a);
    }
  }

  lemma NoneHandedOut(moves: seq<Move>, a: nat)
    requires a < |moves|
    ensures HandedOut(moves, a, a + 1) == {}
  {
  }

  /** From one snapshot to the next, exactly the nodes of the first are handed out, each once. */
  lemma RoundHandsOutAll(cfg: Config, moves: seq<Move>, a: nat, b: nat)
    requires PossibleRun(cfg, moves) && a < b < |moves| && moves[a].TakeSnapshot? && moves[b].TakeSnapshot?
    requires forall i | a < i < b :: !moves[i].TakeSnapshot?
    ensures HandedOut(moves, a, b) == At(cfg, moves, a).core.monitored
    ensures forall i, j | a < i < j < b && moves[i].Invoke? && moves[j].Invoke? :: moves[i].node != moves[j].node
  {
    hide At, PossibleRun, Next, Possible;
    StillWaiting(cfg, moves, a, b);
    AtStep(cfg, moves, b);
    WaitingStep(cfg, At(cfg, moves, b), moves[b]);
    forall j | a < j < b && moves[j].Invoke?
      ensures moves[j].node in At(cfg, moves, a).core.monitored && moves[j].node !in HandedOut(moves, a, j)
    {
      StillWaiting(cfg, moves, a, j);
      AtStep(cfg, moves, j);
      WaitingStep(cfg, At(cfg, moves, j), moves[j]);
    }
    var monitored := At(cfg, moves, a).core.monitored;
    assert monitored - HandedOut(moves, a, b) == {};
    assert forall n | n in monitored :: n in monitored - HandedOut(moves, a, b) || n in HandedOut(moves, a, b);
    forall i, j | a < i < j < b && moves[i].Invoke? && moves[j].Invoke? ensures moves[i].node != moves[j].node {
      assert moves[i].node in HandedOut(moves, a, j);
    }
  }

  /** The move ends the scrape. */
  predicate Ends(m: Move, id: nat) {
    (m.Finish? || m.Garble? || m.Fail?) && m.id == id
  }

  /** The move is one of the scrape's own. */
  predicate Concerns(m: Move, id: nat) {
    (m.Send? || m.Answer? || m.PublishNext? || m.Finish? || m.Garble? || m.Fail?) && m.id == id
  }

  lemma GoneStep(cfg: Config, w: World, m: Move, id: nat)
    requires Possible(cfg, w, m) && id < w.clock && (id !in w.jobs || Ends(m, id))
    ensures id < Next(cfg, w, m).clock && id !in Next(cfg, w, m).jobs
    ensures id !in w.jobs ==> !Concerns(m, id)
  {
    hide WritesOf, Evicted, Step, Drop, Written;
  }

  lemma KnownStep(cfg: Config, w: World, m: Move)
    requires Possible(cfg, w, m) && forall id | id in w.jobs :: id < w.clock
    ensures forall id | id in Next(cfg, w, m).jobs :: id < Next(cfg, w, m).clock
  {
    hide WritesOf, Evicted, Step, Drop, Written;
  }

  lemma {:induction false} IdsKnown(cfg: Config, moves: seq<Move>, n: nat)
    requires PossibleRun(cfg, moves) && n <= |moves|
    ensures forall id | id in At(cfg, moves, n).jobs :: id < At(cfg, moves, n).clock
  {
    hide Next, Possible, At;
    AtStart(cfg, moves);
    if n > 0 {
      IdsKnown(cfg, moves, n - 1);
      AtStep(cfg, moves, n - 1);
      KnownStep(cfg, At(cfg, moves, n - 1), moves[n - 1]);
    }
  }

  lemma {:induction false} GoneSince(cfg: Config, moves: seq<Move>, e: nat, id: nat, n: nat)
    requires PossibleRun(cfg, moves) && e < n <= |moves| && Ends(moves[e], id)
    ensures id < At(cfg, moves, n).clock && id !in At(cfg, moves, n).jobs
  {
    hide Next, Ends, At;
    AtStep(cfg, moves, n - 1);
    if n - 1 > e {
      GoneSince(cfg, moves, e, id, n - 1);
    } else {
      IdsKnown(cfg, moves, e);
      EndingExists(cfg, At(cfg, moves, e), moves[e], id);
    }
    GoneStep(cfg, At(cfg, moves, n - 1), moves[n - 1], id);
  }

  lemma EndingExists(cfg: Config, w: World, m: Move, id: nat)
    requires Possible(cfg, w, m) && Ends(m, id)
    ensures id in w.jobs
  {
  }

  /** A scrape ends once: after it has finished, failed or been garbled, no move is its own. */
  lemma EndsOnce(cfg: Config, moves: seq<Move>, e: nat, id: nat, n: nat)
    requires PossibleRun(cfg, moves) && e < n < |moves| && Ends(moves[e], id)
    ensures !Concerns(moves[n], id)
  {
    hide Next, Possible, Ends, At;
    GoneSince(cfg, moves, e, id, n);
    AtStep(cfg, moves, n);
    GoneStep(cfg, At(cfg, moves, n), moves[n], id);
  }

  // ---- No endpoint, no answer ----

  /** The scrape has ended, or its query is still not sent, and its node has no endpoint. */
  ghost predicate Unsent(w: World, id: nat, job: Job) {
    && id < w.clock && job.node !in w.core.endpoints
    && (id in w.jobs ==> w.jobs[id] == job)
  }

  lemma UnsentStep(cfg: Config, w: World, m: Move, id: nat, job: Job)
    requires cfg.deployment && cfg.scrapeFromKubelet && job.work.Querying?
    requires Possible(cfg, w, m) && Unsent(w, id, job) && !(m.Other? && m.e.Readies(job.node))
    ensures Unsent(Next(cfg, w, m), id, job)
  {
    hide Merge, WritesOf, WithoutPods, WithoutNode, Tracker.Next, StaleNow, ReportedNames, PodSpecs.Recorded,
        PodSpecs.RecordedAll;
  }

  /** In a Deployment that scrapes kubelets, a scrape whose node was deleted before its query was sent never gets an
      answer, and so evicts or publishes nothing, unless the node is reported ready again. */
  lemma {:induction false} NoEndpointNoAnswer(cfg: Config, w: World, moves: seq<Move>, id: nat, job: Job)
    requires cfg.deployment && cfg.scrapeFromKubelet && job.work.Querying?
    requires Unsent(w, id, job) && After(cfg, w, moves).Some?
    requires forall m | m in moves && m.Other? :: !m.e.Readies(job.node)
    ensures Unsent(After(cfg, w, moves).value, id, job)
  {
    hide Next, Possible, Unsent, Event.Readies;
    if moves != [] {
      NoEndpointNoAnswer(cfg, w, moves[..|moves| - 1], id, job);
      UnsentStep(cfg, After(cfg, w, moves[..|moves| - 1]).value, moves[|moves| - 1], id, job);
    }
  }

  // ---- Left alone, a scrape is the atomic step ----

  function Publications(id: nat, n: nat): seq<Move> {
    if n == 0 then [] else Publications(id, n - 1) + [PublishNext(id)]
  }

  lemma PublishedOne(cfg: Config, w: World, id: nat)
    requires id in w.jobs && w.jobs[id].work.Publishing? && w.jobs[id].work.rest != []
    ensures var t, job := Next(cfg, w, PublishNext(id)), w.jobs[id];
            var r := job.work.rest[0];
            && t.core == w.core.(samples := Merge(w.core.samples,
                When(!r.Skipped(), RecordWrites(cfg, w.core.lookup, job.node, r))))
            && id in t.jobs && t.jobs[id] == job.(work := job.work.(rest := job.work.rest[1..]))
  {
    hide RecordWrites, Merge, When;
  }

  lemma {:induction false} PublishedSoFar(cfg: Config, w: World, id: nat, n: nat)
    requires id in w.jobs && w.jobs[id].work.Publishing? && n <= |w.jobs[id].work.rest|
    ensures var t, job := After(cfg, w, Publications(id, n)), w.jobs[id];
            && t.Some?
            && t.value.core == w.core.(samples :=
                Merge(w.core.samples, SummaryWrites(cfg, w.core.lookup, job.node, job.work.rest[..n])))
            && id in t.value.jobs && t.value.jobs[id] == job.(work := job.work.(rest := job.work.rest[n..]))
  {
    hide RecordWrites, Merge, When, Next, WritesOf;
    var job := w.jobs[id];
    if n == 0 {
      MergeNothing(w.core.samples);
    } else {
      PublishedSoFar(cfg, w, id, n - 1);
      AfterOne(cfg, w, Publications(id, n - 1), PublishNext(id));
      PrefixStep(job.work.rest, n - 1);
      PublishedOne(cfg, After(cfg, w, Publications(id, n - 1)).value, id);
      var r := job.work.rest[n - 1];
      assert job.work.rest[n - 1..][1..] == job.work.rest[n..];
      MergeTwice(w.core.samples, SummaryWrites(cfg, w.core.lookup, job.node, job.work.rest[..n - 1]),
                 When(!r.Skipped(), RecordWrites(cfg, w.core.lookup, job.node, r)));
    }
  }

  lemma PublishedToTheEnd(cfg: Config, w: World, id: nat)
    requires id in w.jobs && w.jobs[id].work.Publishing?
    ensures var job := w.jobs[id];
            var published := After(cfg, w, Publications(id, |job.work.rest|));
            && published.Some? && Possible(cfg, published.value, Finish(id))
            && Next(cfg, published.value, Finish(id)).core == w.core.(samples := Merge(w.core.samples,
                ScrapeWrites(cfg, w.core.lookup, job.node, job.work.rest, job.work.adjust)))
  {
    hide RecordWrites, Merge, SummaryWrites, One, Publications;
    var job := w.jobs[id];
    PublishedSoFar(cfg, w, id, |job.work.rest|);
    assert job.work.rest[..|job.work.rest|] == job.work.rest;
    MergeTwice(w.core.samples, SummaryWrites(cfg, w.core.lookup, job.node, job.work.rest),
               When(cfg.adjustedPollingRate, One(AdjustedPollingRate, NodeNamed(job.node),
                   Real(job.work.adjust as real))));
  }

  /** A scrape that nothing interrupts makes, move by move, the step that the atomic model makes at once. */
  lemma UninterruptedIsAtomic(cfg: Config, w: World, id: nat, summary: Summary, adjust: int)
    requires id in w.jobs && w.jobs[id].work.Querying? && NodeMonitor.Queryable(cfg, w.core.endpoints, w.jobs[id].node)
    ensures var sent := Next(cfg, w, Send(id));
            && Possible(cfg, sent, Answer(id, summary, adjust))
            && var published := After(cfg, Next(cfg, sent, Answer(id, summary, adjust)), Publications(id, |summary|));
            && published.Some? && Possible(cfg, published.value, Finish(id))
            && Next(cfg, published.value, Finish(id)).core ==
                Step(cfg, w.core, Scraped(w.jobs[id].node, summary, adjust))
  {
    hide Merge, ScrapeWrites, WithoutPods, Tracker.Next, StaleNow, ReportedNames,
        NodeMonitor.Queryable, After, Publications;
    PublishedToTheEnd(cfg, Next(cfg, Next(cfg, w, Send(id)), Answer(id, summary, adjust)), id);
  }
}
