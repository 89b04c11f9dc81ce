/** The laws of the atomic model that interleaved scrapes can break.  For each, what one move must check so that the
    law survives it, no more and no less, and so for whole runs. */
module Guards {
  import opened Sequences
  import opened Series
  import opened Settings
  import PodSpecs
  import opened PodMetrics
  import opened Exporter
  import opened EmptyRecords
  import opened Runs
  import opened Interleaving
  import Tracker

  /** A property of worlds survives a run exactly when every move keeps it. */
  lemma {:induction false} Stepwise(n: nat, holds: int -> bool, keeps: int -> bool)
    requires holds(0)
    requires forall i | 0 <= i < n && holds(i) :: holds(i + 1) <==> keeps(i)
    ensures (forall i | 0 <= i <= n :: holds(i)) <==> (forall i | 0 <= i < n :: keeps(i))
  {
    if n > 0 {
      Stepwise(n - 1, holds, keeps);
      assert holds(n - 1) ==> (holds(n) <==> keeps(n - 1));
      if forall i | 0 <= i < n :: keeps(i) {
        assert forall i | 0 <= i <= n - 1 :: holds(i);
      }
      if forall i | 0 <= i <= n :: holds(i) {
        assert forall i | 0 <= i < n - 1 :: keeps(i);
      }
    }
  }

  predicate Publishes(m: Move) {
    m.PublishNext? || m.Finish?
  }

  // ---- Invocations ----

  ghost predicate DropsArePast(w: World) {
    forall n | n in w.droppedAt :: w.droppedAt[n] < w.clock
  }

  /** A scrape under way was handed out while its node was monitored, or before the node was last dropped. */
  ghost predicate JobsInTime(w: World) {
    forall id | id in w.jobs :: Predates(w, w.jobs[id].node, w.jobs[id].stamp.invoked)
  }

  /** The same of the scrape that last set a series. */
  ghost predicate SeriesInTime(w: World) {
    forall k | k in w.core.samples ::
      k.labels.node.Some? && k in w.writer && Predates(w, k.labels.node.value, w.writer[k].invoked)
  }

  /** Handing out a node keeps invocations ahead of drops exactly when the node is still monitored. */
  lemma InvokeExactly(cfg: Config, w: World, node: string)
    requires Possible(cfg, w, Invoke(node)) && JobsInTime(w) && DropsArePast(w)
    ensures JobsInTime(Next(cfg, w, Invoke(node))) <==> node in w.core.monitored
  {
    var t := Next(cfg, w, Invoke(node));
    assert w.clock in t.jobs && t.jobs[w.clock] == Job(node, Stamp(w.snapshot, w.clock), Querying);
    assert Predates(t, node, w.clock) <==> node in w.core.monitored;
    forall id | id in t.jobs && id != w.clock ensures Predates(t, t.jobs[id].node, t.jobs[id].stamp.invoked) {
      assert Predates(w, w.jobs[id].node, w.jobs[id].stamp.invoked);
      StillPredates(cfg, w, Invoke(node), w.jobs[id].node, w.jobs[id].stamp.invoked);
    }
  }

  lemma JobsInTimeStep(cfg: Config, w: World, m: Move)
    requires Possible(cfg, w, m) && JobsInTime(w) && !m.Invoke?
    ensures JobsInTime(Next(cfg, w, m))
  {
    hide Predates, Evicted, Drop, Step, Written, WritesOf;
    var t := Next(cfg, w, m);
    forall id | id in t.jobs ensures Predates(t, t.jobs[id].node, t.jobs[id].stamp.invoked) {
      StillPredates(cfg, w, m, w.jobs[id].node, w.jobs[id].stamp.invoked);
    }
  }

  lemma SeriesInTimeStep(cfg: Config, w: World, m: Move)
    requires Possible(cfg, w, m) && SeriesInTime(w)
    requires Publishes(m) ==> m.id in w.jobs && Predates(w, w.jobs[m.id].node, w.jobs[m.id].stamp.invoked)
    ensures SeriesInTime(Next(cfg, w, m))
  {
    hide Next, Possible, WritesOf, Predates;
    var t := Next(cfg, w, m);
    forall k | k in t.core.samples
      ensures k.labels.node.Some? && k in t.writer && Predates(t, k.labels.node.value, t.writer[k].invoked)
    {
      OnlyRemoves(cfg, w, m, k);
      if k in WritesOf(cfg, w, m) {
        WritesAtHome(cfg, w, m, k);
        StillPredates(cfg, w, m, w.jobs[m.id].node, w.jobs[m.id].stamp.invoked);
      } else {
        StillPredates(cfg, w, m, k.labels.node.value, w.writer[k].invoked);
      }
    }
  }

  lemma DropsArePastStep(cfg: Config, w: World, m: Move)
    requires Possible(cfg, w, m) && DropsArePast(w)
    ensures DropsArePast(Next(cfg, w, m))
  {
    hide Evicted, Drop, Step, WritesOf;
  }

  lemma {:induction false} DropsPast(cfg: Config, moves: seq<Move>, n: nat)
    requires PossibleRun(cfg, moves) && n <= |moves|
    ensures DropsArePast(At(cfg, moves, n))
  {
    hide Next, Possible, At;
    AtStart(cfg, moves);
    if n > 0 {
      DropsPast(cfg, moves, n - 1);
      AtStep(cfg, moves, n - 1);
      DropsArePastStep(cfg, At(cfg, moves, n - 1), moves[n - 1]);
    }
  }

  /** If move `n` hands out a node, the node is monitored at that moment. */
  predicate InvokedMonitored(cfg: Config, moves: seq<Move>, n: nat)
    requires PossibleRun(cfg, moves) && n < |moves|
  {
    moves[n].Invoke? ==> moves[n].node in At(cfg, moves, n).core.monitored
  }

  /** Along a run no scrape is ever handed out after its node was dropped, exactly when each node handed out was
      monitored at that moment. */
  lemma InTimeExactly(cfg: Config, moves: seq<Move>)
    requires PossibleRun(cfg, moves)
    ensures (forall n | 0 <= n <= |moves| :: JobsInTime(At(cfg, moves, n)))
       <==> (forall n | 0 <= n < |moves| :: InvokedMonitored(cfg, moves, n))
  {
    hide Next, Possible, JobsInTime, DropsArePast, PossibleRun, At;
    var holds := (n: int) => 0 <= n <= |moves| && JobsInTime(At(cfg, moves, n));
    var keeps := (n: int) => 0 <= n < |moves| && InvokedMonitored(cfg, moves, n);
    AtStart(cfg, moves);
    NoJobs(cfg);
    forall n | 0 <= n < |moves| && holds(n) ensures holds(n + 1) <==> keeps(n) {
      AtStep(cfg, moves, n);
      DropsPast(cfg, moves, n);
      if moves[n].Invoke? {
        InvokeExactly(cfg, At(cfg, moves, n), moves[n].node);
      } else {
        JobsInTimeStep(cfg, At(cfg, moves, n), moves[n]);
      }
    }
    Stepwise(|moves|, holds, keeps);
    assert forall n | 0 <= n <= |moves| :: JobsInTime(At(cfg, moves, n)) <==> holds(n);
    assert forall n | 0 <= n < |moves| :: InvokedMonitored(cfg, moves, n) <==> keeps(n);
  }

  lemma NoJobs(cfg: Config)
    ensures JobsInTime(Start(cfg)) && SeriesInTime(Start(cfg))
  {
  }

  lemma JobInTime(w: World, id: nat)
    requires JobsInTime(w) && id in w.jobs
    ensures Predates(w, w.jobs[id].node, w.jobs[id].stamp.invoked)
  {
  }

  lemma {:induction false} InTimeSoFar(cfg: Config, moves: seq<Move>, n: nat)
    requires PossibleRun(cfg, moves) && n <= |moves|
    requires forall i | 0 <= i < |moves| :: InvokedMonitored(cfg, moves, i)
    ensures SeriesInTime(At(cfg, moves, n))
  {
    hide Next, Possible, JobsInTime, SeriesInTime, InvokedMonitored, At;
    AtStart(cfg, moves);
    NoJobs(cfg);
    if n > 0 {
      InTimeSoFar(cfg, moves, n - 1);
      InTimeExactly(cfg, moves);
      assert JobsInTime(At(cfg, moves, n - 1));
      AtStep(cfg, moves, n - 1);
      if Publishes(moves[n - 1]) {
        JobExists(cfg, At(cfg, moves, n - 1), moves[n - 1]);
        JobInTime(At(cfg, moves, n - 1), moves[n - 1].id);
      }
      SeriesInTimeStep(cfg, At(cfg, moves, n - 1), moves[n - 1]);
    }
  }

  /** With that check a series left on a node that is not monitored was set by a scrape that was handed out before
      the node was last dropped. */
  lemma LeftoversInvokedBeforeDrop(cfg: Config, moves: seq<Move>, k: Key)
    requires PossibleRun(cfg, moves)
    requires forall n | 0 <= n < |moves| :: InvokedMonitored(cfg, moves, n)
    ensures var w := At(cfg, moves, |moves|);
            k in w.core.samples ==>
              && k.labels.node.Some? && k in w.writer
              && (k.labels.node.value !in w.core.monitored ==>
                    && k.labels.node.value in w.droppedAt
                    && w.writer[k].invoked < w.droppedAt[k.labels.node.value])
  {
    hide InvokedMonitored, At;
    InTimeSoFar(cfg, moves, |moves|);
  }

  // ---- Silence ----

  /** Only monitored nodes have series. */
  ghost predicate Quiet(w: World) {
    forall k | k in w.core.samples :: k.labels.node.Some? && k.labels.node.value in w.core.monitored
  }

  /** The publication has nothing to set: the record is skipped, or no enabled gauge finds anything in it; the end of
      a scrape sets the polling-rate gauge only. */
  ghost predicate SetsNothing(cfg: Config, w: World, m: Move)
    requires Possible(cfg, w, m) && Publishes(m)
  {
    if m.Finish? then !cfg.adjustedPollingRate
    else
      var r := w.jobs[m.id].work.rest[0];
      r.Skipped() || (NodeSetsNothing(cfg) && PodSetsNothing(cfg, Containers(w.core.lookup, r.name), r))
  }

  lemma SetsNothingExactly(cfg: Config, w: World, m: Move)
    requires Possible(cfg, w, m) && Publishes(m)
    ensures WritesOf(cfg, w, m) == map[] <==> SetsNothing(cfg, w, m)
  {
    hide RecordWrites, NodeSetsNothing, PodSetsNothing;
    if m.PublishNext? {
      RecordSetsNothingExactly(cfg, w.core.lookup, w.jobs[m.id].node, w.jobs[m.id].work.rest[0]);
    } else if cfg.adjustedPollingRate {
      var k := Key(AdjustedPollingRate, NodeNamed(w.jobs[m.id].node));
      assert k in WritesOf(cfg, w, m);
    }
  }

  lemma PublicationEffect(cfg: Config, w: World, m: Move)
    requires Possible(cfg, w, m) && Publishes(m)
    ensures var t := Next(cfg, w, m);
            && t.core == w.core.(samples := t.core.samples)
            && forall k :: k in t.core.samples <==> k in w.core.samples || k in WritesOf(cfg, w, m)
  {
    hide WritesOf;
  }

  /** A publication keeps unmonitored nodes silent exactly when it finds its node monitored, or has nothing to set. */
  lemma QuietExactly(cfg: Config, w: World, m: Move)
    requires Possible(cfg, w, m) && Publishes(m) && Quiet(w)
    ensures Quiet(Next(cfg, w, m)) <==> w.jobs[m.id].node in w.core.monitored || SetsNothing(cfg, w, m)
  {
    hide Next, WritesOf, SetsNothing;
    var t := Next(cfg, w, m);
    PublicationEffect(cfg, w, m);
    SetsNothingExactly(cfg, w, m);
    forall k | k in WritesOf(cfg, w, m) ensures k.OfNode(w.jobs[m.id].node) {
      WritesAtHome(cfg, w, m, k);
    }
    if WritesOf(cfg, w, m) != map[] {
      var k :| k in WritesOf(cfg, w, m);
      assert k in t.core.samples;
    }
  }

  ghost predicate RatesEnabled(cfg: Config, w: World) {
    forall k | k in w.core.samples && k.gauge.AdjustedPollingRate? :: cfg.adjustedPollingRate
  }

  lemma RatesEnabledStep(cfg: Config, w: World, m: Move)
    requires Possible(cfg, w, m) && RatesEnabled(cfg, w)
    ensures RatesEnabled(cfg, Next(cfg, w, m))
  {
    hide Next, Possible, WritesOf;
    forall k | k in Next(cfg, w, m).core.samples && k.gauge.AdjustedPollingRate? ensures cfg.adjustedPollingRate {
      OnlyRemoves(cfg, w, m, k);
      if k in WritesOf(cfg, w, m) {
        RateOnlyAtFinish(cfg, w, m, k);
      }
    }
  }

  lemma RateOnlyAtFinish(cfg: Config, w: World, m: Move, k: Key)
    requires Possible(cfg, w, m) && k in WritesOf(cfg, w, m) && k.gauge.AdjustedPollingRate?
    ensures cfg.adjustedPollingRate
  {
    hide RecordWrites;
    if m.PublishNext? {
      RecordWritesExact(cfg, w.core.lookup, w.jobs[m.id].node, w.jobs[m.id].work.rest[0], k);
    }
  }

  lemma {:induction false} RatesAlwaysEnabled(cfg: Config, moves: seq<Move>, n: nat)
    requires PossibleRun(cfg, moves) && n <= |moves|
    ensures RatesEnabled(cfg, At(cfg, moves, n))
  {
    hide Next, Possible, At;
    AtStart(cfg, moves);
    if n > 0 {
      RatesAlwaysEnabled(cfg, moves, n - 1);
      AtStep(cfg, moves, n - 1);
      RatesEnabledStep(cfg, At(cfg, moves, n - 1), moves[n - 1]);
    }
  }

  lemma QuietStep(cfg: Config, w: World, m: Move)
    requires Possible(cfg, w, m) && Quiet(w) && RatesEnabled(cfg, w) && !Publishes(m)
    ensures Quiet(Next(cfg, w, m))
  {
    hide Next, Possible, WritesOf;
    forall k | k in Next(cfg, w, m).core.samples
      ensures k.labels.node.Some? && k.labels.node.value in Next(cfg, w, m).core.monitored
    {
      OnlyRemoves(cfg, w, m, k);
      DroppedHaveNone(cfg, w, m, k);
    }
  }

  lemma DroppedHaveNone(cfg: Config, w: World, m: Move, k: Key)
    requires Possible(cfg, w, m)
    requires k in Next(cfg, w, m).core.samples && !Publishes(m)
    requires k.labels.node.Some? && k.labels.node.value in w.core.monitored
    requires k.gauge.AdjustedPollingRate? ==> cfg.adjustedPollingRate
    ensures k.labels.node.value in Next(cfg, w, m).core.monitored
  {
    hide WritesOf, Tracker.Next, StaleNow, ReportedNames, PodSpecs.Recorded, PodSpecs.RecordedAll, Merge, WithoutPods;
  }

  /** If move `n` publishes, its node is monitored at that moment, or it has nothing to set. */
  ghost predicate PublishedMonitored(cfg: Config, moves: seq<Move>, n: nat)
    requires PossibleRun(cfg, moves) && n < |moves|
  {
    AtStep(cfg, moves, n);
    var w, m := At(cfg, moves, n), moves[n];
    Publishes(m) ==> w.jobs[m.id].node in w.core.monitored || SetsNothing(cfg, w, m)
  }

  /** However the moves interleave, unmonitored nodes are silent all along exactly when every publication that had
      something to set found its node monitored. */
  lemma SilentExactly(cfg: Config, moves: seq<Move>)
    requires PossibleRun(cfg, moves)
    ensures (forall n | 0 <= n <= |moves| :: Quiet(At(cfg, moves, n)))
       <==> (forall n | 0 <= n < |moves| :: PublishedMonitored(cfg, moves, n))
  {
    hide Next, Possible, Quiet, RatesEnabled, SetsNothing, PossibleRun, At;
    var holds := (n: int) => 0 <= n <= |moves| && Quiet(At(cfg, moves, n));
    var keeps := (n: int) => 0 <= n < |moves| && PublishedMonitored(cfg, moves, n);
    AtStart(cfg, moves);
    NothingAtStart(cfg);
    forall n | 0 <= n < |moves| && holds(n) ensures holds(n + 1) <==> keeps(n) {
      AtStep(cfg, moves, n);
      RatesAlwaysEnabled(cfg, moves, n);
      if Publishes(moves[n]) {
        QuietExactly(cfg, At(cfg, moves, n), moves[n]);
      } else {
        QuietStep(cfg, At(cfg, moves, n), moves[n]);
      }
    }
    Stepwise(|moves|, holds, keeps);
    assert forall n | 0 <= n <= |moves| :: Quiet(At(cfg, moves, n)) <==> holds(n);
    assert forall n | 0 <= n < |moves| :: PublishedMonitored(cfg, moves, n) <==> keeps(n);
  }

  lemma NothingAtStart(cfg: Config)
    ensures Quiet(Start(cfg)) && NothingUntracked(cfg, Start(cfg).core)
  {
  }

  // ---- Tracking ----

  lemma RecordSeries(cfg: Config, lookup: PodSpecs.Lookup, node: string, r: PodRecord, k: Key)
    requires k in RecordWrites(cfg, lookup, node, r) && k.gauge.OfPods()
    ensures !PodSetsNothing(cfg, Containers(lookup, r.name), r)
    ensures k.labels.node == Some(node) && k.labels.pod == Some(r.name)
  {
    hide RecordWrites, Published, PodSetsNothing;
    RecordWritesExact(cfg, lookup, node, r, k);
    if PodSetsNothing(cfg, Containers(lookup, r.name), r) {
      PodSetsNone(cfg, Containers(lookup, r.name), node, r, k);
    }
  }

  lemma SomePodSeries(cfg: Config, lookup: PodSpecs.Lookup, node: string, r: PodRecord) returns (k: Key)
    requires !PodSetsNothing(cfg, Containers(lookup, r.name), r)
    ensures k in RecordWrites(cfg, lookup, node, r) && k.gauge.OfPods()
  {
    hide RecordWrites, Published, PodSetsNothing;
    k := PodSetsSome(cfg, Containers(lookup, r.name), node, r);
    RecordWritesExact(cfg, lookup, node, r, k);
  }

  /** Publishing a record leaves no untracked series exactly when the node's tracker counts the pod, or there is
      nothing to set. */
  lemma TrackedExactly(cfg: Config, w: World, id: nat)
    requires Possible(cfg, w, PublishNext(id)) && NothingUntracked(cfg, w.core)
    ensures var r := w.jobs[id].work.rest[0];
            NothingUntracked(cfg, Next(cfg, w, PublishNext(id)).core) <==>
            || r.Skipped() || PodSetsNothing(cfg, Containers(w.core.lookup, r.name), r)
            || Tracked(cfg, w.core.trackers, w.jobs[id].node, r.name)
  {
    hide Next, RecordWrites, PodSetsNothing, Tracked;
    var node, r := w.jobs[id].node, w.jobs[id].work.rest[0];
    var t := Next(cfg, w, PublishNext(id));
    PublicationEffect(cfg, w, PublishNext(id));
    if !r.Skipped() {
      forall k | k in RecordWrites(cfg, w.core.lookup, node, r) && k.gauge.OfPods()
        ensures !PodSetsNothing(cfg, Containers(w.core.lookup, r.name), r)
        ensures k.labels.node == Some(node) && k.labels.pod == Some(r.name)
      {
        RecordSeries(cfg, w.core.lookup, node, r, k);
      }
      if !PodSetsNothing(cfg, Containers(w.core.lookup, r.name), r) {
        var k := SomePodSeries(cfg, w.core.lookup, node, r);
        assert k in t.core.samples;
      }
    }
  }

  lemma TrackedStep(cfg: Config, w: World, m: Move)
    requires Possible(cfg, w, m) && NothingUntracked(cfg, w.core) && !m.PublishNext?
    ensures NothingUntracked(cfg, Next(cfg, w, m).core)
  {
    hide Merge, WithoutPods, WithoutNode, Tracker.Next, StaleNow, ReportedNames, NothingUntracked, Step, Evicted, Drop;
    match m
    case Other(e) => NothingUntrackedStep(cfg, w.core, e);
    case Fail(id) => NothingUntrackedStep(cfg, w.core, QueryFailed(w.jobs[id].node)); FailIsStep(cfg, w, id);
    case Answer(id, summary, adjust) => EvictedKeepsTracked(cfg, w.core, w.jobs[id].node, summary);
    case Finish(id) => FinishKeepsTracked(cfg, w, id);
    case _ =>
  }

  lemma FailIsStep(cfg: Config, w: World, id: nat)
    requires Possible(cfg, w, Fail(id))
    ensures Next(cfg, w, Fail(id)).core == Step(cfg, w.core, QueryFailed(w.jobs[id].node))
  {
    hide WithoutNode;
  }

  lemma EvictedKeepsTracked(cfg: Config, s: State, node: string, summary: Summary)
    requires NothingUntracked(cfg, s)
    ensures NothingUntracked(cfg, Evicted(cfg, s, node, summary))
  {
    hide Merge, ScrapeWrites, Tracker.Next, StaleNow, ReportedNames, Tracked;
    forall k | k in Evicted(cfg, s, node, summary).samples && k.gauge.OfPods()
      ensures k.labels.node.Some? && k.labels.pod.Some?
          && Tracked(cfg, Evicted(cfg, s, node, summary).trackers, k.labels.node.value, k.labels.pod.value)
    {
      TrackedAfterScrape(cfg, s, node, summary, 0, k.labels.node.value, k.labels.pod.value);
    }
  }

  lemma FinishKeepsTracked(cfg: Config, w: World, id: nat)
    requires Possible(cfg, w, Finish(id)) && NothingUntracked(cfg, w.core)
    ensures NothingUntracked(cfg, Next(cfg, w, Finish(id)).core)
  {
    hide Next, Tracked;
    PublicationEffect(cfg, w, Finish(id));
  }

  /** If move `n` publishes a record, the node's tracker counts the pod at that moment, or there is nothing to set. */
  ghost predicate PublishedTracked(cfg: Config, moves: seq<Move>, n: nat)
    requires PossibleRun(cfg, moves) && n < |moves|
  {
    AtStep(cfg, moves, n);
    var w, m := At(cfg, moves, n), moves[n];
    m.PublishNext? ==>
      var r := w.jobs[m.id].work.rest[0];
      || r.Skipped() || PodSetsNothing(cfg, Containers(w.core.lookup, r.name), r)
      || Tracked(cfg, w.core.trackers, w.jobs[m.id].node, r.name)
  }

  /** However the moves interleave, no pod series is ever untracked exactly when every record that had something to set
      was published for a pod that its node's tracker counted. */
  lemma NothingUntrackedExactly(cfg: Config, moves: seq<Move>)
    requires PossibleRun(cfg, moves)
    ensures (forall n | 0 <= n <= |moves| :: NothingUntracked(cfg, At(cfg, moves, n).core))
       <==> (forall n | 0 <= n < |moves| :: PublishedTracked(cfg, moves, n))
  {
    hide Next, Possible, NothingUntracked, PodSetsNothing, Tracked, PossibleRun, At;
    var holds := (n: int) => 0 <= n <= |moves| && NothingUntracked(cfg, At(cfg, moves, n).core);
    var keeps := (n: int) => 0 <= n < |moves| && PublishedTracked(cfg, moves, n);
    AtStart(cfg, moves);
    NothingAtStart(cfg);
    forall n | 0 <= n < |moves| && holds(n) ensures holds(n + 1) <==> keeps(n) {
      AtStep(cfg, moves, n);
      if moves[n].PublishNext? {
        TrackedExactly(cfg, At(cfg, moves, n), moves[n].id);
      } else {
        TrackedStep(cfg, At(cfg, moves, n), moves[n]);
      }
    }
    Stepwise(|moves|, holds, keeps);
    assert forall n | 0 <= n <= |moves| :: NothingUntracked(cfg, At(cfg, moves, n).core) <==> holds(n);
    assert forall n | 0 <= n < |moves| :: PublishedTracked(cfg, moves, n) <==> keeps(n);
  }

  // ---- Invocations, seen from the series ----

  ghost predicate JobsPast(w: World) {
    forall id | id in w.jobs :: w.jobs[id].stamp.invoked < w.clock
  }

  lemma JobsPastStep(cfg: Config, w: World, m: Move)
    requires Possible(cfg, w, m) && JobsPast(w)
    ensures JobsPast(Next(cfg, w, m))
  {
    hide Evicted, Drop, Step, WritesOf;
  }

  lemma {:induction false} JobsAlwaysPast(cfg: Config, moves: seq<Move>, n: nat)
    requires PossibleRun(cfg, moves) && n <= |moves|
    ensures JobsPast(At(cfg, moves, n))
  {
    hide Next, Possible, At;
    AtStart(cfg, moves);
    if n > 0 {
      JobsAlwaysPast(cfg, moves, n - 1);
      AtStep(cfg, moves, n - 1);
      JobsPastStep(cfg, At(cfg, moves, n - 1), moves[n - 1]);
    }
  }

  /** A publication leaves every series with a scrape that was handed out in time exactly when it has nothing to set,
      or its own scrape was. */
  lemma PublishedInTimeExactly(cfg: Config, w: World, m: Move)
    requires Possible(cfg, w, m) && Publishes(m) && SeriesInTime(w) && JobsPast(w)
    ensures SeriesInTime(Next(cfg, w, m))
       <==> SetsNothing(cfg, w, m) || Predates(w, w.jobs[m.id].node, w.jobs[m.id].stamp.invoked)
  {
    hide Next, WritesOf, SetsNothing;
    var t := Next(cfg, w, m);
    PublicationEffect(cfg, w, m);
    SetsNothingExactly(cfg, w, m);
    if Predates(w, w.jobs[m.id].node, w.jobs[m.id].stamp.invoked) {
      SeriesInTimeStep(cfg, w, m);
    } else if WritesOf(cfg, w, m) == map[] {
      forall k | k in t.core.samples
        ensures k.labels.node.Some? && k in t.writer && Predates(t, k.labels.node.value, t.writer[k].invoked)
      {
        OnlyRemoves(cfg, w, m, k);
        StillPredates(cfg, w, m, k.labels.node.value, w.writer[k].invoked);
      }
    } else {
      var k :| k in WritesOf(cfg, w, m);
      assert k in t.core.samples;
      OnlyRemoves(cfg, w, m, k);
      WritesAtHome(cfg, w, m, k);
      DropsUnchanged(cfg, w, m);
    }
  }

  lemma DropsUnchanged(cfg: Config, w: World, m: Move)
    requires Possible(cfg, w, m) && Publishes(m)
    ensures Next(cfg, w, m).droppedAt == w.droppedAt
  {
    hide WritesOf, Merge;
  }

  /** If move `n` publishes, its scrape was handed out in time, or it has nothing to set. */
  ghost predicate PublishedInTime(cfg: Config, moves: seq<Move>, n: nat)
    requires PossibleRun(cfg, moves) && n < |moves|
  {
    AtStep(cfg, moves, n);
    var w, m := At(cfg, moves, n), moves[n];
    Publishes(m) ==> SetsNothing(cfg, w, m) || Predates(w, w.jobs[m.id].node, w.jobs[m.id].stamp.invoked)
  }

  /** Along a run every series left on an unmonitored node was set by a scrape handed out before the node was last
      dropped, exactly when every publication that had something to set came from such a scrape. */
  lemma SeriesInTimeExactly(cfg: Config, moves: seq<Move>)
    requires PossibleRun(cfg, moves)
    ensures (forall n | 0 <= n <= |moves| :: SeriesInTime(At(cfg, moves, n)))
       <==> (forall n | 0 <= n < |moves| :: PublishedInTime(cfg, moves, n))
  {
    hide Next, Possible, SeriesInTime, JobsPast, SetsNothing, Predates, PossibleRun, At;
    var holds := (n: int) => 0 <= n <= |moves| && SeriesInTime(At(cfg, moves, n));
    var keeps := (n: int) => 0 <= n < |moves| && PublishedInTime(cfg, moves, n);
    AtStart(cfg, moves);
    NoJobs(cfg);
    forall n | 0 <= n < |moves| && holds(n) ensures holds(n + 1) <==> keeps(n) {
      AtStep(cfg, moves, n);
      JobsAlwaysPast(cfg, moves, n);
      if Publishes(moves[n]) {
        PublishedInTimeExactly(cfg, At(cfg, moves, n), moves[n]);
      } else {
        SeriesInTimeStep(cfg, At(cfg, moves, n), moves[n]);
      }
    }
    Stepwise(|moves|, holds, keeps);
    assert forall n | 0 <= n <= |moves| :: SeriesInTime(At(cfg, moves, n)) <==> holds(n);
    assert forall n | 0 <= n < |moves| :: PublishedInTime(cfg, moves, n) <==> keeps(n);
  }

  // ---- Trackers ----

  /** Only monitored nodes have trackers. */
  ghost predicate TrackersMonitored(w: World) {
    w.core.trackers.Keys <= w.core.monitored
  }

  /** Evicting stale pods writes the node's tracker, so the node has to be monitored. */
  lemma AnswerExactly(cfg: Config, w: World, m: Move)
    requires Possible(cfg, w, m) && m.Answer? && TrackersMonitored(w)
    ensures TrackersMonitored(Next(cfg, w, m)) <==> w.jobs[m.id].node in w.core.monitored
  {
    hide WithoutPods, Tracker.Next, StaleNow, ReportedNames;
    var node, t := w.jobs[m.id].node, Next(cfg, w, m);
    assert node in t.core.trackers;
    assert t.core.trackers.Keys == w.core.trackers.Keys + {node};
  }

  lemma TrackersMonitoredStep(cfg: Config, w: World, m: Move)
    requires Possible(cfg, w, m) && TrackersMonitored(w) && !m.Answer?
    ensures TrackersMonitored(Next(cfg, w, m))
  {
    hide WithoutPods, WithoutNode, WritesOf, Merge, PodSpecs.Recorded, PodSpecs.RecordedAll;
  }

  /** If move `n` brings an answer, its node is monitored at that moment. */
  predicate AnsweredMonitored(cfg: Config, moves: seq<Move>, n: nat)
    requires PossibleRun(cfg, moves) && n < |moves|
  {
    AtStep(cfg, moves, n);
    moves[n].Answer? ==> At(cfg, moves, n).jobs[moves[n].id].node in At(cfg, moves, n).core.monitored
  }

  lemma NoTrackersAtStart(cfg: Config)
    ensures TrackersMonitored(Start(cfg))
  {
  }

  lemma TrackersMonitoredExactly(cfg: Config, moves: seq<Move>)
    requires PossibleRun(cfg, moves)
    ensures (forall n | 0 <= n <= |moves| :: TrackersMonitored(At(cfg, moves, n)))
       <==> (forall n | 0 <= n < |moves| :: AnsweredMonitored(cfg, moves, n))
  {
    hide Next, Possible, TrackersMonitored, PossibleRun, At;
    var holds := (n: int) => 0 <= n <= |moves| && TrackersMonitored(At(cfg, moves, n));
    var keeps := (n: int) => 0 <= n < |moves| && AnsweredMonitored(cfg, moves, n);
    AtStart(cfg, moves);
    NoTrackersAtStart(cfg);
    forall n | 0 <= n < |moves| && holds(n) ensures holds(n + 1) <==> keeps(n) {
      AtStep(cfg, moves, n);
      if moves[n].Answer? {
        AnswerExactly(cfg, At(cfg, moves, n), moves[n]);
      } else {
        TrackersMonitoredStep(cfg, At(cfg, moves, n), moves[n]);
      }
    }
    Stepwise(|moves|, holds, keeps);
    assert forall n | 0 <= n <= |moves| :: TrackersMonitored(At(cfg, moves, n)) <==> holds(n);
    assert forall n | 0 <= n < |moves| :: AnsweredMonitored(cfg, moves, n) <==> keeps(n);
  }

  // ---- All of them ----

  /** What move `n` has to find so that it breaks no invariant of the atomic model. */
  ghost predicate InOrder(cfg: Config, moves: seq<Move>, n: nat)
    requires PossibleRun(cfg, moves) && n < |moves|
  {
    PublishedMonitored(cfg, moves, n) && AnsweredMonitored(cfg, moves, n) && PublishedTracked(cfg, moves, n)
  }

  lemma InvInParts(cfg: Config, w: World)
    ensures Inv(cfg, w.core) <==>
        Quiet(w) && TrackersMonitored(w) && NothingUntracked(cfg, w.core) && RatesEnabled(cfg, w)
  {
  }

  /** The invariants of the atomic model hold all along an interleaved run exactly when every answer came while its
      node was monitored, and every publication that had something to set found its node monitored and its pod
      tracked. */
  lemma InvExactly(cfg: Config, moves: seq<Move>)
    requires PossibleRun(cfg, moves)
    ensures (forall n | 0 <= n <= |moves| :: Inv(cfg, At(cfg, moves, n).core))
       <==> (forall n | 0 <= n < |moves| :: InOrder(cfg, moves, n))
  {
    hide PossibleRun, At, Inv, Quiet, TrackersMonitored, NothingUntracked, RatesEnabled;
    hide PublishedMonitored, AnsweredMonitored, PublishedTracked;
    SilentExactly(cfg, moves);
    TrackersMonitoredExactly(cfg, moves);
    NothingUntrackedExactly(cfg, moves);
    forall n | 0 <= n <= |moves|
      ensures Inv(cfg, At(cfg, moves, n).core) ==
          (Quiet(At(cfg, moves, n)) && TrackersMonitored(At(cfg, moves, n))
           && NothingUntracked(cfg, At(cfg, moves, n).core))
    {
      InvInParts(cfg, At(cfg, moves, n));
      RatesAlwaysEnabled(cfg, moves, n);
    }
    if forall n | 0 <= n < |moves| :: InOrder(cfg, moves, n) {
      forall n | 0 <= n < |moves|
        ensures PublishedMonitored(cfg, moves, n) && AnsweredMonitored(cfg, moves, n)
            && PublishedTracked(cfg, moves, n)
      {
        assert InOrder(cfg, moves, n);
      }
    }
    if forall n | 0 <= n <= |moves| :: Inv(cfg, At(cfg, moves, n).core) {
      forall n | 0 <= n <= |moves|
        ensures Quiet(At(cfg, moves, n)) && TrackersMonitored(At(cfg, moves, n))
            && NothingUntracked(cfg, At(cfg, moves, n).core)
      {
        assert Inv(cfg, At(cfg, moves, n).core);
      }
    }
  }
}
