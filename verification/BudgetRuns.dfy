/**
 What a scan does with each unit over a whole run, and when a unit may start
 (crates/cli/src/scan_dir.rs:493-518, crates/cli/src/scan.rs:308-325).
 */
module BudgetRuns {
  import opened Wrappers
  import opened Budget

  /** Some worker is analysing the unit. */
  ghost predicate Runs(s: Scan, u: nat) {
    exists w: nat :: w < |s.workers| && s.workers[w] == Running(u)
  }

  /** The unit goes from not running to running in step `k`. */
  ghost predicate Begins(run: seq<Scan>, u: nat, k: nat) {
    k + 1 < |run| && !Runs(run[k], u) && Runs(run[k + 1], u)
  }

  // ------------------------------------------------------------ the life of a unit

  ghost predicate Taken(x: Worker, u: nat) {
    (x.Waiting? || x.Deciding?) && x.u == u
  }

  ghost predicate Pending(s: Scan, u: nat) {
    exists w: nat :: w < |s.workers| && Taken(s.workers[w], u)
  }

  /** Not yet claimed, claimed, running, over. */
  ghost function Stage(s: Scan, u: nat): nat {
    if s.next <= u then 0 else if Pending(s, u) then 1 else if Runs(s, u) then 2 else 3
  }

  /** No unit of an earlier scan is run, and workers only leave when every unit is claimed. */
  ghost predicate Orderly(p: Plan, s: Scan) {
    && (forall w: nat :: w < |s.workers| && (s.workers[w].Deciding? || s.workers[w].Running?) ==>
          s.workers[w].u !in p.resumed)
    && (forall w: nat :: w < |s.workers| && s.workers[w].Gone? ==> |p.costs| <= s.next)
  }

  lemma OrderlyStep(p: Plan, s: Scan, t: Scan, w: nat)
    requires Orderly(p, s) && Steps(p, s, t, w)
    ensures Orderly(p, t)
  {
    hide AddU64, SubU64, Fits;
    assert forall v: nat :: v < |s.workers| && v != w ==> t.workers[v] == s.workers[v];
  }

  /** What a step does to the worker that takes it; the others keep theirs. */
  lemma StepShape(p: Plan, s: Scan, t: Scan, w: nat)
    requires Steps(p, s, t, w)
    ensures w < |s.workers| == |t.workers| && t.workers == s.workers[w := t.workers[w]] && s.next <= t.next
    ensures var x, y := s.workers[w], t.workers[w];
            || (t.next == s.next && y == x)
            || (x.Idle? && t.next == s.next + 1 && y == Waiting(s.next))
            || (x.Idle? && t.next == s.next && y.Gone?)
            || (x.Waiting? && t.next == s.next && x.u in p.resumed && y.Idle?)
            || (x.Waiting? && t.next == s.next && x.u !in p.resumed && y.Deciding? && y.u == x.u)
            || (x.Deciding? && t.next == s.next && (y == Running(x.u) || y == Waiting(x.u)))
            || (x.Running? && t.next == s.next && y.Idle?)
  {
    hide AddU64, SubU64, Fits;
  }

  /** At most one worker has the unit. */
  lemma OnlyWith(p: Plan, s: Scan, w: nat, u: nat)
    requires Disjoint(p, s) && w < |s.workers| && Has(s.workers[w], u)
    ensures forall v: nat :: v < |s.workers| && v != w ==> !Has(s.workers[v], u)
    ensures Pending(s, u) <==> Taken(s.workers[w], u)
    ensures Runs(s, u) <==> s.workers[w] == Running(u)
    ensures u < s.next
  {
  }

  /** A step of a worker that neither has the unit nor gets it. */
  lemma ElsewhereSame(s: Scan, t: Scan, w: nat, u: nat)
    requires w < |s.workers| == |t.workers| && t.workers == s.workers[w := t.workers[w]]
    requires !Has(s.workers[w], u) && !Has(t.workers[w], u)
    ensures Pending(t, u) <==> Pending(s, u)
    ensures Runs(t, u) <==> Runs(s, u)
  {
    forall v: nat | v < |s.workers| ensures Taken(t.workers[v], u) <==> Taken(s.workers[v], u) {
    }
    if v: nat :| v < |s.workers| && Taken(s.workers[v], u) {
      assert Taken(t.workers[v], u);
    }
    if v: nat :| v < |s.workers| && s.workers[v] == Running(u) {
      assert t.workers[v] == Running(u);
    }
  }

  /** A worker gives the unit up, and no other has it. */
  lemma GivenUp(p: Plan, s: Scan, t: Scan, w: nat, u: nat)
    requires Disjoint(p, s) && w < |s.workers| == |t.workers| && t.workers == s.workers[w := t.workers[w]]
    requires Has(s.workers[w], u) && !Has(t.workers[w], u)
    ensures !Pending(t, u) && !Runs(t, u)
  {
    OnlyWith(p, s, w, u);
    assert forall v: nat :: v < |t.workers| ==> !Has(t.workers[v], u);
  }

  /** A unit is claimed, then runs unless it was done before, then is over. */
  lemma StageStep(p: Plan, s: Scan, t: Scan, w: nat, u: nat)
    requires Disjoint(p, s) && Disjoint(p, t) && Orderly(p, s) && Steps(p, s, t, w)
    ensures Stage(s, u) <= Stage(t, u)
    ensures u !in p.resumed ==> Stage(t, u) <= Stage(s, u) + 1
    ensures u in p.resumed && Stage(t, u) == 2 ==> Stage(s, u) == 2
  {
    StepShape(p, s, t, w);
    RunningFresh(p, s, w);
    hide Steps, Disjoint, Orderly, Pending, Runs;
    if Has(s.workers[w], u) {
      OnlyWith(p, s, w, u);
      if Has(t.workers[w], u) {
        OnlyWith(p, t, w, u);
      } else {
        GivenUp(p, s, t, w, u);
      }
    } else if Has(t.workers[w], u) {
      OnlyWith(p, t, w, u);
    } else {
      ElsewhereSame(s, t, w, u);
      NotClaimed(p, s, t, w, u);
    }
  }

  lemma RunningFresh(p: Plan, s: Scan, w: nat)
    requires Orderly(p, s) && w < |s.workers|
    ensures s.workers[w].Deciding? || s.workers[w].Running? ==> s.workers[w].u !in p.resumed
  {
  }

  lemma NotClaimed(p: Plan, s: Scan, t: Scan, w: nat, u: nat)
    requires Steps(p, s, t, w) && !Has(t.workers[w], u)
    ensures s.next <= u <==> t.next <= u
  {
    StepShape(p, s, t, w);
    hide Steps;
  }

  lemma StageRuns(p: Plan, s: Scan, u: nat)
    requires Disjoint(p, s)
    ensures Runs(s, u) <==> Stage(s, u) == 2
  {
    hide Pending;
    if w: nat :| w < |s.workers| && s.workers[w] == Running(u) {
      OnlyWith(p, s, w, u);
    }
  }

  // ------------------------------------------------------------ whole runs

  lemma {:induction false} RunOrderly(p: Plan, run: seq<Scan>, k: nat)
    requires IsRun(p, run) && k < |run|
    ensures Disjoint(p, run[k]) && Orderly(p, run[k]) && |run[k].workers| == |run[0].workers|
  {
    if k > 0 {
      var j := k - 1;
      RunOrderly(p, run, j);
      var w := StepAt(p, run, j);
      DisjointStep(p, run[j], run[k], w);
      OrderlyStep(p, run[j], run[k], w);
      StepShape(p, run[j], run[k], w);
    }
  }

  lemma StepAt(p: Plan, run: seq<Scan>, j: nat) returns (w: nat)
    requires IsRun(p, run) && j + 1 < |run|
    ensures Steps(p, run[j], run[j + 1], w)
  {
    var k := j + 1;
    w :| Steps(p, run[j], run[k], w);
  }

  lemma StageAt(p: Plan, run: seq<Scan>, u: nat, j: nat)
    requires IsRun(p, run) && j + 1 < |run|
    ensures Stage(run[j], u) <= Stage(run[j + 1], u)
    ensures u !in p.resumed ==> Stage(run[j + 1], u) <= Stage(run[j], u) + 1
    ensures u in p.resumed && Stage(run[j + 1], u) == 2 ==> Stage(run[j], u) == 2
  {
    RunOrderly(p, run, j);
    RunOrderly(p, run, j + 1);
    var w := StepAt(p, run, j);
    StageStep(p, run[j], run[j + 1], w, u);
  }

  lemma {:induction false} StageRises(p: Plan, run: seq<Scan>, u: nat, j: nat, k: nat)
    requires IsRun(p, run) && j <= k < |run|
    ensures Stage(run[j], u) <= Stage(run[k], u)
  {
    hide *;
    if j < k {
      StageRises(p, run, u, j, k - 1);
      StageAt(p, run, u, k - 1);
    }
  }

  lemma BeginsStage(p: Plan, run: seq<Scan>, u: nat, k: nat)
    requires IsRun(p, run) && k + 1 < |run|
    ensures Begins(run, u, k) <==> Stage(run[k], u) < 2 && Stage(run[k + 1], u) == 2
  {
    RunOrderly(p, run, k);
    RunOrderly(p, run, k + 1);
    StageRuns(p, run[k], u);
    StageRuns(p, run[k + 1], u);
    StageAt(p, run, u, k);
    hide Stage, Runs, IsRun, Disjoint, Orderly;
  }

  /** A unit never starts a second time. */
  lemma NotTwice(p: Plan, run: seq<Scan>, u: nat, j: nat, k: nat)
    requires IsRun(p, run) && Begins(run, u, j) && Begins(run, u, k)
    ensures j == k
  {
    BeginsStage(p, run, u, j);
    BeginsStage(p, run, u, k);
    hide *;
    if j < k {
      StageRises(p, run, u, j + 1, k);
    } else if k < j {
      StageRises(p, run, u, k + 1, j);
    }
  }

  lemma StageFirst(p: Plan, run: seq<Scan>, u: nat)
    requires IsRun(p, run)
    ensures Stage(run[0], u) == 0
  {
  }

  /** A unit that gets past running has started. */
  lemma {:induction false} HasBegun(p: Plan, run: seq<Scan>, u: nat, k: nat) returns (j: nat)
    requires IsRun(p, run) && k < |run| && u !in p.resumed && Stage(run[k], u) >= 2
    ensures Begins(run, u, j)
  {
    StageFirst(p, run, u);
    BeginsStage(p, run, u, k - 1);
    StageAt(p, run, u, k - 1);
    hide *;
    j := k - 1;
    if Stage(run[k - 1], u) >= 2 {
      j := HasBegun(p, run, u, k - 1);
    }
  }

  /** In a scan whose workers have all left every unit is over. */
  lemma AllOver(p: Plan, run: seq<Scan>, k: nat, u: nat)
    requires IsRun(p, run) && k < |run| && Finished(p, run[k]) && run[0].workers != [] && u < |p.costs|
    ensures Stage(run[k], u) == 3
  {
    RunOrderly(p, run, k);
    assert run[k].workers[0] == Gone;
  }

  lemma {:induction false} ResumedRests(p: Plan, run: seq<Scan>, u: nat, k: nat)
    requires IsRun(p, run) && u in p.resumed && k < |run|
    ensures Stage(run[k], u) != 2
  {
    StageFirst(p, run, u);
    if k > 0 {
      ResumedRests(p, run, u, k - 1);
      StageAt(p, run, u, k - 1);
    }
  }

  /**
   A scan that ends has analysed exactly the units that were not done before,
   each of them once, whatever the interleaving.
   */
  lemma EachUnitOnce(p: Plan, run: seq<Scan>, u: nat)
    requires IsRun(p, run) && run[0].workers != [] && Finished(p, run[|run| - 1]) && u < |p.costs|
    ensures u !in p.resumed ==>
              exists k: nat :: Begins(run, u, k) && forall j: nat :: Begins(run, u, j) ==> j == k
    ensures u in p.resumed ==> forall k: nat :: k < |run| ==> !Runs(run[k], u)
    ensures !Runs(run[|run| - 1], u)
  {
    AllOver(p, run, |run| - 1, u);
    RunOrderly(p, run, |run| - 1);
    StageRuns(p, run[|run| - 1], u);
    hide Begins, Runs, Stage, Finished, Disjoint, Orderly, IsRun;
    if u !in p.resumed {
      var k := HasBegun(p, run, u, |run| - 1);
      forall j: nat | Begins(run, u, j) ensures j == k {
        NotTwice(p, run, u, j, k);
      }
    } else {
      forall k: nat | k < |run| ensures !Runs(run[k], u) {
        RunOrderly(p, run, k);
        StageRuns(p, run[k], u);
        ResumedRests(p, run, u, k);
      }
    }
  }

  // ------------------------------------------------------------ every run can be finished

  lemma RunMore(p: Plan, run: seq<Scan>, t: Scan, w: nat)
    requires IsRun(p, run) && Steps(p, run[|run| - 1], t, w)
    ensures IsRun(p, run + [t])
  {
    var more := run + [t];
    assert Follows(p, run[|run| - 1], t);
    hide Follows, Steps;
    forall i: nat, j: nat | j == i + 1 < |more| ensures Follows(p, more[i], more[j]) {
      if j < |run| {
        assert Follows(p, run[i], run[j]);
      }
    }
  }

  /** From wherever a run has got, the workers can bring the scan to its end. */
  lemma {:induction false} CanFinish(p: Plan, run: seq<Scan>) returns (whole: seq<Scan>)
    requires Sensible(p) && IsRun(p, run)
    ensures IsRun(p, whole) && run <= whole && Finished(p, whole[|whole| - 1])
    decreases Changes(p, run[|run| - 1]), MovesLeft(run[|run| - 1])
  {
    hide *;
    RunNotEmpty(p, run);
    var s := run[|run| - 1];
    AlwaysSafe(p, run, |run| - 1);
    if Finished(p, s) {
      whole := run;
    } else {
      var w, t := NeverStuck(p, s);
      ActsSteps(p, s, t, w);
      EveryStepDescends(p, s, t, w);
      RunMore(p, run, t, w);
      MeasureStart(p, s);
      whole := CanFinish(p, run + [t]);
    }
  }

  lemma RunNotEmpty(p: Plan, run: seq<Scan>)
    requires IsRun(p, run)
    ensures run != []
  {
  }

  lemma ActsSteps(p: Plan, s: Scan, t: Scan, w: nat)
    requires Acts(p, s, t, w)
    ensures Steps(p, s, t, w)
  {
  }

  lemma MeasureStart(p: Plan, s: Scan)
    requires Inv(p, s)
    ensures Changes(p, s) >= 0 && MovesLeft(s) >= 0
  {
    TotalNonNegative(Ahead(), s.workers);
    TotalNonNegative(Moves(s.reserved), s.workers);
  }

  // ------------------------------------------------------------ admission

  /** Nothing is in flight, or the unit fits into the budget beside what is. */
  ghost predicate Room(p: Plan, s: Scan, u: nat) {
    u < |p.costs| && (InFlight(p, s) == 0 || InFlight(p, s) + p.costs[u] <= p.budget)
  }

  /** Left alone, worker `w` has its unit running after two steps. */
  ghost predicate GetsIn(p: Plan, s: Scan, w: nat, u: nat) {
    exists t: Scan, r: Scan :: GetsInBy(p, s, t, r, w, u)
  }

  ghost predicate GetsInBy(p: Plan, s: Scan, t: Scan, r: Scan, w: nat, u: nat) {
    Steps(p, s, t, w) && Steps(p, t, r, w) && w < |r.workers| && r.workers[w] == Running(u)
  }

  /** The addition of a unit that is not running does not wrap. */
  lemma NoWrap(p: Plan, s: Scan, w: nat)
    requires Sensible(p) && Inv(p, s) && w < |s.workers| && (s.workers[w].Waiting? || s.workers[w].Deciding?)
    ensures var u := s.workers[w].u;
            u < |p.costs| && InFlight(p, s) >= 0 && AddU64(InFlight(p, s), p.costs[u]) == InFlight(p, s) + p.costs[u]
  {
    var u := s.workers[w].u;
    assert Has(s.workers[w], u);
    var t := s.(workers := s.workers[w := Running(u)]);
    assert forall v: nat :: Has(t.workers[w], v) <==> Has(s.workers[w], v);
    assert forall v: nat :: v < |s.workers| && v != w ==> t.workers[v] == s.workers[v];
    TotalUpdate(Holding(p), s.workers, w, Running(u));
    InFlightBounded(p, s);
    InFlightBounded(p, t);
  }

  /** A waiting unit gets in if and only if there is room for it. */
  lemma AdmittedExactly(p: Plan, s: Scan, w: nat)
    requires Sensible(p) && Inv(p, s) && w < |s.workers|
    requires s.workers[w].Waiting? && s.workers[w].u !in p.resumed
    ensures GetsIn(p, s, w, s.workers[w].u) <==> Room(p, s, s.workers[w].u)
  {
    var u := s.workers[w].u;
    NoWrap(p, s, w);
    hide InFlight, AddU64, SubU64;
    if Room(p, s, u) {
      var t := s.(workers := s.workers[w := Deciding(u, s.reserved)]);
      var r := Scan(t.next, AddU64(t.reserved, p.costs[u]), t.workers[w := Running(u)]);
      assert Loads(p, s, t, w);
      assert Exchanges(p, t, r, w);
      assert GetsInBy(p, s, t, r, w, u);
    } else {
      forall t: Scan, r: Scan | Steps(p, s, t, w) ensures !GetsInBy(p, s, t, r, w, u) {
        assert t == s;
      }
    }
  }

  /** No unit starts without room, however the other workers step in between. */
  lemma StartsWithRoom(p: Plan, run: seq<Scan>, u: nat, k: nat)
    requires Sensible(p) && IsRun(p, run) && Begins(run, u, k)
    ensures Room(p, run[k], u)
  {
    var s, t := run[k], run[k + 1];
    AlwaysSafe(p, run, k);
    var w := StepAt(p, run, k);
    StepShape(p, s, t, w);
    hide IsRun, Sensible, Disjoint, InFlight, AddU64, SubU64;
    var v: nat :| v < |t.workers| && t.workers[v] == Running(u);
    assert v == w && s.workers[w].Deciding?;
    NoWrap(p, s, w);
  }
}
