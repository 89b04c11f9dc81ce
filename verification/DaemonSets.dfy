/** The exporter as a DaemonSet: one node, and no node watch to bring it back.  What a failed query of that node ends,
    and what it does not. */
module DaemonSets {
  import opened Sequences
  import opened Series
  import opened Settings
  import PodMetrics
  import Exporter
  import opened Interleaving
  import opened Guards
  import Overlaps
  import Tracker

  // ---- Everything is about the own node ----

  ghost predicate OwnNodeOnly(cfg: Config, w: World) {
    && w.core.monitored <= {cfg.currentNode} && w.waiting <= {cfg.currentNode}
    && w.core.trackers.Keys <= {cfg.currentNode}
    && (forall id | id in w.jobs :: w.jobs[id].node == cfg.currentNode)
    && (forall k | k in w.core.samples :: k.OfNode(cfg.currentNode))
  }

  lemma OwnSeriesStep(cfg: Config, w: World, m: Move)
    requires Possible(cfg, w, m) && OwnNodeOnly(cfg, w)
    ensures forall k | k in Next(cfg, w, m).core.samples :: k.OfNode(cfg.currentNode)
  {
    hide Next, Possible, WritesOf;
    forall k | k in Next(cfg, w, m).core.samples ensures k.OfNode(cfg.currentNode) {
      OnlyRemoves(cfg, w, m, k);
      if k in WritesOf(cfg, w, m) {
        WritesAtHome(cfg, w, m, k);
        JobExists(cfg, w, m);
      }
    }
  }

  lemma OwnNodeOnlyStep(cfg: Config, w: World, m: Move)
    requires !cfg.deployment && Possible(cfg, w, m) && OwnNodeOnly(cfg, w)
    ensures OwnNodeOnly(cfg, Next(cfg, w, m))
  {
    OwnSeriesStep(cfg, w, m);
    hide Merge, WithoutPods, WithoutNode, WritesOf, Tracker.Next, Exporter.StaleNow, Exporter.ReportedNames;
  }

  lemma {:induction false} OwnNodeAlways(cfg: Config, moves: seq<Move>, n: nat)
    requires !cfg.deployment && PossibleRun(cfg, moves) && n <= |moves|
    ensures OwnNodeOnly(cfg, At(cfg, moves, n))
  {
    hide Next, Possible, At;
    AtStart(cfg, moves);
    if n > 0 {
      OwnNodeAlways(cfg, moves, n - 1);
      AtStep(cfg, moves, n - 1);
      OwnNodeOnlyStep(cfg, At(cfg, moves, n - 1), moves[n - 1]);
    }
  }

  // ---- Silence after a failed query ----

  ghost predicate ShowsNothing(w: World) {
    w.core.samples == map[] && w.core.trackers == map[] && w.core.monitored == {}
  }

  lemma FailureEndsAll(cfg: Config, w: World, m: Move)
    requires Possible(cfg, w, m) && m.Fail? && OwnNodeOnly(cfg, w) && RatesEnabled(cfg, w)
    ensures ShowsNothing(Next(cfg, w, m))
  {
    var t := Next(cfg, w, m);
    assert forall k :: k !in t.core.samples;
    assert t.core.trackers.Keys == {};
  }

  /** With nothing shown, a move shows something exactly if it brings an answer or publishes something. */
  lemma ShowsNothingExactly(cfg: Config, w: World, m: Move)
    requires !cfg.deployment && Possible(cfg, w, m) && ShowsNothing(w)
    ensures ShowsNothing(Next(cfg, w, m)) <==> !m.Answer? && (Publishes(m) ==> SetsNothing(cfg, w, m))
  {
    hide WritesOf, SetsNothing, Tracker.Next, Exporter.ReportedNames;
    if Publishes(m) {
      PublicationEffect(cfg, w, m);
      SetsNothingExactly(cfg, w, m);
      if WritesOf(cfg, w, m) != map[] {
        var k :| k in WritesOf(cfg, w, m);
        assert k in Next(cfg, w, m).core.samples;
      }
    }
  }

  /** Move `n` brings no answer, and publishes nothing. */
  ghost predicate AddsNothing(cfg: Config, moves: seq<Move>, n: nat)
    requires PossibleRun(cfg, moves) && n < |moves|
  {
    AtStep(cfg, moves, n);
    !moves[n].Answer? && (Publishes(moves[n]) ==> SetsNothing(cfg, At(cfg, moves, n), moves[n]))
  }

  /** A failed query of a DaemonSet silences it, and it stays silent exactly as long as no other scrape is answered
      and no answered one publishes anything. */
  lemma SilentAfterFailureExactly(cfg: Config, moves: seq<Move>, f: nat)
    requires !cfg.deployment && PossibleRun(cfg, moves) && f < |moves| && moves[f].Fail?
    ensures (forall n | f < n <= |moves| :: ShowsNothing(At(cfg, moves, n)))
       <==> (forall n | f < n < |moves| :: AddsNothing(cfg, moves, n))
  {
    hide Next, Possible, ShowsNothing, OwnNodeOnly, RatesEnabled, SetsNothing, PossibleRun, At;
    var holds := (i: int) => 0 <= i <= |moves| - f - 1 && ShowsNothing(At(cfg, moves, f + 1 + i));
    var keeps := (i: int) => 0 <= i < |moves| - f - 1 && AddsNothing(cfg, moves, f + 1 + i);
    OwnNodeAlways(cfg, moves, f);
    RatesAlwaysEnabled(cfg, moves, f);
    AtStep(cfg, moves, f);
    FailureEndsAll(cfg, At(cfg, moves, f), moves[f]);
    forall i | 0 <= i < |moves| - f - 1 && holds(i) ensures holds(i + 1) <==> keeps(i) {
      var n := f + 1 + i;
      AtStep(cfg, moves, n);
      ShowsNothingExactly(cfg, At(cfg, moves, n), moves[n]);
      assert f + 1 + (i + 1) == n + 1;
      assert ShowsNothing(At(cfg, moves, n + 1)) <==> AddsNothing(cfg, moves, n);
    }
    Stepwise(|moves| - f - 1, holds, keeps);
    forall n | f < n <= |moves| ensures ShowsNothing(At(cfg, moves, n)) <==> holds(n - f - 1) {
      assert f + 1 + (n - f - 1) == n;
    }
    forall n | f < n < |moves| ensures AddsNothing(cfg, moves, n) <==> keeps(n - f - 1) {
      assert f + 1 + (n - f - 1) == n;
    }
  }

  // ---- Nothing under way ----

  /** No node is monitored or waiting to be handed out, and no scrape is under way. */
  predicate Idle(w: World) {
    w.core.monitored == {} && w.waiting == {} && w.jobs == map[]
  }

  function DeletedPods(moves: seq<Move>): set<string> {
    set n | 0 <= n < |moves| && moves[n].Other? && moves[n].e.PodDeleted? :: moves[n].e.name
  }

  lemma IdleStep(cfg: Config, w: World, m: Move)
    requires !cfg.deployment && Idle(w) && Possible(cfg, w, m)
    ensures Idle(Next(cfg, w, m)) && Next(cfg, w, m).core.trackers == w.core.trackers
    ensures Next(cfg, w, m).core.samples == WithoutPods(w.core.samples, DeletedPods([m]))
    ensures !cfg.WatchesPods() ==> Next(cfg, w, m).core == w.core
  {
    if m.Other? && m.e.PodDeleted? {
      assert [m][0] == m;
      assert DeletedPods([m]) == {m.e.name};
    } else {
      assert DeletedPods([m]) == {};
      WithoutNoPods(w.core.samples);
    }
  }

  /** An idle DaemonSet stays idle.  What it shows then goes only with the deletion of a pod, which only a pod watch
      reports; without one it is shown for good. */
  lemma {:induction false} IdleForGood(cfg: Config, w: World, moves: seq<Move>)
    requires !cfg.deployment && Idle(w) && After(cfg, w, moves).Some?
    ensures var t := After(cfg, w, moves).value;
            && Idle(t) && t.core.trackers == w.core.trackers
            && t.core.samples == WithoutPods(w.core.samples, DeletedPods(moves))
            && (!cfg.WatchesPods() ==> t.core == w.core)
  {
    hide Next, Possible, Idle, WithoutPods, DeletedPods;
    if moves == [] {
      NoneDeleted();
      WithoutNoPods(w.core.samples);
    } else {
      var front, m := moves[..|moves| - 1], moves[|moves| - 1];
      IdleForGood(cfg, w, front);
      IdleStep(cfg, After(cfg, w, front).value, m);
      WithoutPodsTwice(w.core.samples, DeletedPods(front), DeletedPods([m]));
      DeletedOneMore(front, m);
      assert moves == front + [m];
    }
  }

  lemma NoneDeleted()
    ensures DeletedPods([]) == {}
  {
  }

  lemma DeletedOneMore(front: seq<Move>, m: Move)
    ensures DeletedPods(front + [m]) == DeletedPods(front) + DeletedPods([m])
  {
    var moves := front + [m];
    forall p ensures p in DeletedPods(moves) <==> p in DeletedPods(front) + DeletedPods([m]) {
      if p in DeletedPods(moves) {
        var n :| 0 <= n < |moves| && moves[n].Other? && moves[n].e.PodDeleted? && moves[n].e.name == p;
        if n < |front| {
          assert front[n] == moves[n];
        } else {
          assert [m][0] == moves[n];
        }
      }
      if p in DeletedPods(front) {
        var n :| 0 <= n < |front| && front[n].Other? && front[n].e.PodDeleted? && front[n].e.name == p;
        assert moves[n] == front[n];
      }
      if p in DeletedPods([m]) {
        assert moves[|front|] == m;
      }
    }
  }

  /** A failed query silences a DaemonSet for good if no other scrape is waiting or under way at that moment. */
  lemma LoneFailureIsFinal(cfg: Config, moves: seq<Move>, f: nat)
    requires !cfg.deployment && PossibleRun(cfg, moves) && f < |moves| && moves[f].Fail?
    requires At(cfg, moves, f).waiting == {} && At(cfg, moves, f).jobs.Keys == {moves[f].id}
    ensures ShowsNothing(At(cfg, moves, |moves|))
  {
    hide Possible, OwnNodeOnly, RatesEnabled, At, PossibleRun, After;
    var w := At(cfg, moves, f + 1);
    OwnNodeAlways(cfg, moves, f);
    RatesAlwaysEnabled(cfg, moves, f);
    AtStep(cfg, moves, f);
    FailureEndsAll(cfg, At(cfg, moves, f), moves[f]);
    assert w.jobs.Keys == {};
    Onwards(cfg, moves, f + 1);
    IdleForGood(cfg, w, moves[f + 1..]);
    assert WithoutPods(map[], DeletedPods(moves[f + 1..])) == map[];
  }

  lemma Onwards(cfg: Config, moves: seq<Move>, n: nat)
    requires PossibleRun(cfg, moves) && n <= |moves|
    ensures After(cfg, At(cfg, moves, n), moves[n..]) == Some(At(cfg, moves, |moves|))
  {
    hide After;
    assert moves == moves[..n] + moves[n..];
    PrefixPossible(cfg, moves, n);
    AfterBoth(cfg, Start(cfg), moves[..n], moves[n..]);
    AtStart(cfg, moves);
  }

  // ---- Back for good ----

  lemma FinishKeeps(cfg: Config, w: World, id: nat, node: string, k: Key)
    requires Possible(cfg, w, Finish(id)) && Overlaps.BackAfterDrop(w, node, k) && k.gauge.OfPods()
    requires w.waiting == {} && w.core.monitored == {} && w.jobs.Keys == {id}
    ensures Overlaps.BackAfterDrop(Next(cfg, w, Finish(id)), node, k) && Idle(Next(cfg, w, Finish(id)))
  {
    var t := Next(cfg, w, Finish(id));
    assert k !in WritesOf(cfg, w, Finish(id));
    assert t.jobs.Keys == {};
  }

  lemma DroppedAndHandedOut(cfg: Config)
    requires !cfg.deployment
    ensures var n := cfg.currentNode;
            var w := After(cfg, Start(cfg), [TakeSnapshot, Invoke(n), TakeSnapshot] + [Fail(2), Invoke(n)]);
            && w.Some? && w.value.waiting == {} && w.value.core.monitored == {} && w.value.droppedAt == map[n := 4]
            && w.value.jobs == map[5 := Job(n, Stamp(3, 5), Querying)]
  {
    var n := cfg.currentNode;
    var m1, m2, m3, m4, m5 := TakeSnapshot, Invoke(n), TakeSnapshot, Fail(2), Invoke(n);
    var w3 := Next(cfg, Next(cfg, Next(cfg, Start(cfg), m1), m2), m3);
    Overlaps.AfterThree(cfg, Start(cfg), m1, m2, m3);
    AfterOne(cfg, Start(cfg), [m1, m2, m3], m4);
    AfterOne(cfg, Start(cfg), [m1, m2, m3] + [m4], m5);
    assert [m1, m2, m3] + [m4] + [m5] == [m1, m2, m3] + [m4, m5];
  }

  /** Nine moves from the start a DaemonSet whose query has failed shows a pod again, set by a scrape handed out after
      the failure, and is idle: with `IdleForGood`, the series outlives the pod and the node. */
  lemma BackForGood(cfg: Config, r: PodMetrics.PodRecord)
    requires !cfg.deployment && cfg.podUsage && !r.Skipped()
    ensures exists moves: seq<Move> ::
              && PossibleRun(cfg, moves) && (exists f :: 0 <= f < |moves| && moves[f].Fail?)
              && Idle(At(cfg, moves, |moves|))
              && Overlaps.BackAfterDrop(At(cfg, moves, |moves|), cfg.currentNode, Overlaps.UsageOf(cfg.currentNode, r))
  {
    hide After, Overlaps.BackAfterDrop, Start, Overlaps.UsageOf, Idle, Next;
    var n := cfg.currentNode;
    var first := [TakeSnapshot, Invoke(n), TakeSnapshot] + [Fail(2), Invoke(n)];
    var second := [Send(5), Answer(5, [r], 0), PublishNext(5)];
    DroppedAndHandedOut(cfg);
    var w := After(cfg, Start(cfg), first).value;
    Overlaps.LateScrape(cfg, w, 5, r);
    AfterBoth(cfg, Start(cfg), first, second);
    var t := After(cfg, w, second).value;
    UsageOfPods(n, r);
    FinishKeeps(cfg, t, 5, n, Overlaps.UsageOf(n, r));
    AfterOne(cfg, Start(cfg), first + second, Finish(5));
    var moves := first + second + [Finish(5)];
    assert moves[3] == Fail(2);
    AtStart(cfg, moves);
  }

  lemma UsageOfPods(node: string, r: PodMetrics.PodRecord)
    ensures Overlaps.UsageOf(node, r).gauge.OfPods()
  {
  }
}
