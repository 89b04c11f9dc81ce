/** Miss counting on one node: how many scrapes ago each pod was last reported, and when it is given up. */
module Tracker {
  import opened Settings

  /** Pod name to the number of scrapes that have missed it since it was last reported. */
  type Counts = map<string, nat>

  /** The names given up by a scrape that reports `current`. */
  function Stale(counts: Counts, current: set<string>, tolerance: nat): set<string> {
    set p | p in counts && p !in current && counts[p] + 1 >= tolerance
  }

  /** The counts after that scrape. */
  function Next(counts: Counts, current: set<string>, tolerance: nat): Counts {
    map p | p in counts.Keys + current && p !in Stale(counts, current, tolerance)
      :: if p in current then 0 else counts[p] + 1
  }

  /** Every reported name back to zero: the state in which the sweep over the map starts. */
  function Reset(counts: Counts, current: set<string>): Counts {
    counts + map p | p in current :: 0
  }

  // ---- The sweep: one pass over the map that updates and deletes entries of that same map ----

  datatype Sweep = Sweep(counts: Counts, evicted: set<string>)

  /** The body of the range loop for one key.  A key that is no longer in the map is not produced. */
  function Visit(s: Sweep, p: string, current: set<string>, tolerance: nat): Sweep {
    if p !in s.counts || p in current then s
    else if s.counts[p] + 1 >= tolerance then Sweep(s.counts - {p}, s.evicted + {p})
    else s.(counts := s.counts[p := s.counts[p] + 1])
  }

  function VisitAll(s: Sweep, order: seq<string>, current: set<string>, tolerance: nat): Sweep {
    if order == [] then s
    else Visit(VisitAll(s, order[..|order| - 1], current, tolerance), order[|order| - 1], current, tolerance)
  }

  ghost predicate Distinct(order: seq<string>) {
    forall i, j | 0 <= i < j < |order| :: order[i] != order[j]
  }

  lemma VisitNone(s: Sweep, current: set<string>, tolerance: nat)
    ensures VisitAll(s, [], current, tolerance) == s
    ensures Distinct([])
  {
  }

  lemma VisitOneMore(s: Sweep, visited: seq<string>, p: string, current: set<string>, tolerance: nat)
    ensures VisitAll(s, visited + [p], current, tolerance) ==
        Visit(VisitAll(s, visited, current, tolerance), p, current, tolerance)
    ensures Distinct(visited) && p !in visited ==> Distinct(visited + [p])
  {
    assert (visited + [p])[..|visited + [p]| - 1] == visited;
  }

  /** Part way through, exactly the visited keys have been treated. */
  lemma {:induction false} SweepSoFar(counts: Counts, order: seq<string>, current: set<string>, tolerance: nat)
    requires Distinct(order)
    ensures var s := VisitAll(Sweep(counts, {}), order, current, tolerance);
            && (forall p :: p in s.evicted <==> p in order && p in Stale(counts, current, tolerance))
            && (forall p :: p in s.counts <==> p in counts && p !in s.evicted)
            && forall p | p in s.counts :: s.counts[p] == if p in order && p !in current then counts[p] + 1
                else counts[p]
  {
    if order != [] {
      var n := |order| - 1;
      var front, p := order[..n], order[n];
      SweepSoFar(counts, front, current, tolerance);
      assert order == front + [p];
      assert p !in front;
    }
  }

  lemma ResetChangesNothingElse(counts: Counts, current: set<string>, tolerance: nat)
    ensures Stale(Reset(counts, current), current, tolerance) == Stale(counts, current, tolerance)
    ensures Next(Reset(counts, current), current, tolerance) == Next(counts, current, tolerance)
  {
    assert Stale(Reset(counts, current), current, tolerance) == Stale(counts, current, tolerance);
  }

  lemma SweptIsNext(start: Counts, swept: Counts, current: set<string>, tolerance: nat)
    requires forall p | p in current :: p in start && start[p] == 0
    requires forall p :: p in swept <==> p in start && p !in Stale(start, current, tolerance)
    requires forall p | p in swept :: swept[p] == if p in current then start[p] else start[p] + 1
    ensures swept == Next(start, current, tolerance)
  {
    var next := Next(start, current, tolerance);
    assert forall p :: p in next <==> p in swept;
  }

  /** Whatever order the range loop visits the keys in, it ends with the same counts and gives up the same names. */
  lemma SweepAnyOrder(counts: Counts, order: seq<string>, current: set<string>, tolerance: nat)
    requires Distinct(order)
    requires forall p :: p in order <==> p in Reset(counts, current)
    ensures VisitAll(Sweep(Reset(counts, current), {}), order, current, tolerance)
         == Sweep(Next(counts, current, tolerance), Stale(counts, current, tolerance))
  {
    var start := Reset(counts, current);
    SweepSoFar(start, order, current, tolerance);
    ResetChangesNothingElse(counts, current, tolerance);
    var s := VisitAll(Sweep(start, {}), order, current, tolerance);
    assert s.evicted == Stale(start, current, tolerance);
    SweptIsNext(start, s.counts, current, tolerance);
  }

  // ---- What the counts mean ----

  /** The pod names of each scrape of a node, oldest first. */
  type Scrapes = seq<set<string>>

  /** The latest of the scrapes to report `p` is the one `ago` scrapes before the last. */
  ghost predicate ReportedAgo(h: Scrapes, p: string, ago: nat) {
    && ago < |h|
    && p in h[|h| - 1 - ago]
    && forall j | |h| - ago <= j < |h| :: p !in h[j]
  }

  /** The counts after these scrapes, from an empty tracker. */
  function Replay(h: Scrapes, tolerance: nat): Counts {
    if h == [] then map[] else Next(Replay(h[..|h| - 1], tolerance), h[|h| - 1], tolerance)
  }

  lemma ReportedAgoStep(h: Scrapes, p: string, ago: nat)
    requires h != []
    ensures ReportedAgo(h, p, ago) <==>
            if ago == 0 then p in h[|h| - 1] else p !in h[|h| - 1] && ReportedAgo(h[..|h| - 1], p, ago - 1)
  {
    var front := h[..|h| - 1];
    if ago != 0 && ReportedAgo(h, p, ago) {
      assert front[|front| - 1 - (ago - 1)] == h[|h| - 1 - ago];
      assert forall j | |front| - (ago - 1) <= j < |front| :: front[j] == h[j];
    }
    if ago != 0 && p !in h[|h| - 1] && ReportedAgo(front, p, ago - 1) {
      assert forall j | |h| - ago <= j < |h| - 1 :: h[j] == front[j];
    }
  }

  /** A name is tracked with count `c` exactly when it was last reported `c` scrapes ago and `c` is below the
      tolerance. */
  lemma {:induction false} CountsAreAges(h: Scrapes, tolerance: Positive, p: string, c: nat)
    ensures p in Replay(h, tolerance) && Replay(h, tolerance)[p] == c <==> c < tolerance && ReportedAgo(h, p, c)
  {
    if h != [] {
      ReportedAgoStep(h, p, c);
      var before := Replay(h[..|h| - 1], tolerance);
      if c > 0 {
        CountsAreAges(h[..|h| - 1], tolerance, p, c - 1);
      }
      if p in before {
        CountsAreAges(h[..|h| - 1], tolerance, p, before[p]);
      }
    }
  }

  /** A name is given up exactly by the scrape that misses it for the tolerance-th time in a row. */
  lemma GivenUpAfterTolerance(h: Scrapes, tolerance: Positive, current: set<string>, p: string)
    ensures p in Stale(Replay(h, tolerance), current, tolerance) <==> p !in current && ReportedAgo(h, p, tolerance - 1)
  {
    var counts := Replay(h, tolerance);
    CountsAreAges(h, tolerance, p, tolerance - 1);
    if p in counts {
      CountsAreAges(h, tolerance, p, counts[p]);
    }
  }

  /** The last scrape that reports a name, if any does. */
  lemma {:induction false} SomeLastReport(h: Scrapes, p: string, i: nat) returns (ago: nat)
    requires i < |h| && p in h[i]
    ensures ReportedAgo(h, p, ago) && ago <= |h| - 1 - i
  {
    if p in h[|h| - 1] {
      ago := 0;
    } else {
      var before := SomeLastReport(h[..|h| - 1], p, i);
      ago := before + 1;
    }
    ReportedAgoStep(h, p, ago);
  }

  /** The names in the last `tolerance` scrapes. */
  ghost function RecentNames(h: Scrapes, tolerance: nat): set<string> {
    set i, p | 0 <= i < |h| && |h| - tolerance <= i && p in h[i] :: p
  }

  /** The tracked names are the names of the last `tolerance` scrapes, no more and no fewer; so the tracker
      never remembers more than those scrapes reported. */
  lemma TracksRecentNames(h: Scrapes, tolerance: Positive)
    ensures Replay(h, tolerance).Keys == RecentNames(h, tolerance)
  {
    var counts := Replay(h, tolerance);
    forall p ensures p in counts <==> p in RecentNames(h, tolerance) {
      if p in counts {
        CountsAreAges(h, tolerance, p, counts[p]);
      }
      if p in RecentNames(h, tolerance) {
        var i :| 0 <= i < |h| && |h| - tolerance <= i && p in h[i];
        var ago := SomeLastReport(h, p, i);
        CountsAreAges(h, tolerance, p, ago);
      }
    }
  }
}
