/**
 Workers reserving memory: load the reserved total, decide, compare-and-exchange, run, release
 (crates/cli/src/scan.rs:292-325, crates/cli/src/scan_dir.rs:493-518). Any number of workers, any interleaving.
 */
module Budget {
  import opened Wrappers

  const BASE_MB: nat := 64

  /** The estimate for a unit, before it is cut to 64 bits: a fixed base plus a multiple of its size in MiB. */
  function FullCost(bytes: nat, factor: nat): nat {
    BASE_MB + bytes / (1024 * 1024) * factor
  }

  function UnitCost(bytes: nat, factor: nat): nat {
    FullCost(bytes, factor) % TWO_64
  }

  /** Where a worker is; `Deciding` has loaded `seen` and found that the unit fits. */
  datatype Worker = Idle | Waiting(u: nat) | Deciding(u: nat, seen: nat) | Running(u: nat) | Gone

  /** The shared counters and every worker. */
  datatype Scan = Scan(next: nat, reserved: nat, workers: seq<Worker>)

  /** What never changes during a scan: unit costs, units already done earlier, and the budget. */
  datatype Plan = Plan(costs: seq<nat>, resumed: set<nat>, budget: nat)

  ghost predicate Sensible(p: Plan) {
    && (forall i: nat :: i < |p.costs| ==> 0 < p.costs[i])
    && Sum(p.costs) < TWO_64
  }

  ghost function Sum(s: seq<nat>): nat {
    if s == [] then 0 else Sum(s[..|s| - 1]) + s[|s| - 1]
  }

  /** Unsigned 64-bit addition and subtraction. */
  function AddU64(a: nat, b: nat): nat {
    (a + b) % TWO_64
  }

  function SubU64(a: nat, b: nat): nat {
    (a - b) % TWO_64
  }

  /** An estimate survives the cut to 64 bits if and only if it fits. */
  lemma EstimateExactly(bytes: nat, factor: nat)
    ensures UnitCost(bytes, factor) == FullCost(bytes, factor) <==> FullCost(bytes, factor) < TWO_64
  {
  }

  function FullCosts(sizes: seq<nat>, factor: nat): (costs: seq<nat>)
    ensures |costs| == |sizes| && forall i: nat :: i < |sizes| ==> costs[i] == FullCost(sizes[i], factor) >= BASE_MB
  {
    seq(|sizes|, i requires 0 <= i < |sizes| => FullCost(sizes[i], factor))
  }

  lemma {:induction false} PartOfSum(costs: seq<nat>, i: nat)
    requires i < |costs|
    ensures costs[i] <= Sum(costs)
  {
    if i < |costs| - 1 {
      PartOfSum(costs[..|costs| - 1], i);
    }
  }

  /**
   The plan made of the cut estimates is what the protocol needs, with every
   estimate kept, if and only if the full estimates add up to less than 2^64,
   which can be computed from sizes and factor before the scan.
   */
  lemma EstimatesExactly(p: Plan, sizes: seq<nat>, factor: nat)
    requires |sizes| == |p.costs| && forall i: nat :: i < |sizes| ==> p.costs[i] == UnitCost(sizes[i], factor)
    ensures Sensible(p) && p.costs == FullCosts(sizes, factor) <==> Sum(FullCosts(sizes, factor)) < TWO_64
  {
    hide FullCost, UnitCost, Sum;
    var full := FullCosts(sizes, factor);
    if Sum(full) < TWO_64 {
      forall i: nat | i < |sizes| ensures p.costs[i] == full[i] {
        PartOfSum(full, i);
        EstimateExactly(sizes[i], factor);
      }
      assert p.costs == full;
    }
  }

  lemma {:induction false} DefaultTotal(sizes: seq<nat>)
    ensures Sum(FullCosts(sizes, 12)) * 1024 * 1024 <= 64 * 1024 * 1024 * |sizes| + 12 * Sum(sizes)
  {
    if sizes != [] {
      var init := sizes[..|sizes| - 1];
      DefaultTotal(init);
      assert FullCosts(sizes, 12)[..|sizes| - 1] == FullCosts(init, 12);
    }
  }

  /** With the default factor the estimates of up to 2^32 units of 2^64 bytes together are kept. */
  lemma DefaultSensible(p: Plan, sizes: seq<nat>)
    requires |sizes| == |p.costs| < 0x1_0000_0000 && Sum(sizes) < TWO_64
    requires forall i: nat :: i < |sizes| ==> p.costs[i] == UnitCost(sizes[i], 12)
    ensures Sensible(p) && p.costs == FullCosts(sizes, 12)
  {
    hide UnitCost, FullCost, Sum;
    DefaultTotal(sizes);
    EstimatesExactly(p, sizes, 12);
  }

  /** A factor that overflows the estimate can make a unit of 64 MiB cost nothing. */
  lemma EstimateCanVanish()
    ensures UnitCost(64 * 1024 * 1024, TWO_64 / 64 - 1) == 0
  {
  }

  // ------------------------------------------------------------ steps

  /** The unit may start: nothing is reserved, or it fits beside what is. */
  predicate Fits(p: Plan, reserved: nat, u: nat)
    requires u < |p.costs|
  {
    reserved == 0 || AddU64(reserved, p.costs[u]) <= p.budget
  }

  ghost predicate Claims(p: Plan, s: Scan, t: Scan, w: nat)
    requires w < |s.workers|
  {
    && s.workers[w] == Idle
    && t == if s.next < |p.costs| then Scan(s.next + 1, s.reserved, s.workers[w := Waiting(s.next)])
            else s.(workers := s.workers[w := Gone])
  }

  ghost predicate Skips(p: Plan, s: Scan, t: Scan, w: nat)
    requires w < |s.workers|
  {
    s.workers[w].Waiting? && s.workers[w].u in p.resumed && t == s.(workers := s.workers[w := Idle])
  }

  ghost predicate Loads(p: Plan, s: Scan, t: Scan, w: nat)
    requires w < |s.workers|
  {
    && s.workers[w].Waiting? && s.workers[w].u !in p.resumed && s.workers[w].u < |p.costs|
    && Fits(p, s.reserved, s.workers[w].u)
    && t == s.(workers := s.workers[w := Deciding(s.workers[w].u, s.reserved)])
  }

  /** The unit does not fit: sleep and look again. */
  ghost predicate Sleeps(p: Plan, s: Scan, t: Scan, w: nat)
    requires w < |s.workers|
  {
    && s.workers[w].Waiting? && s.workers[w].u !in p.resumed && s.workers[w].u < |p.costs|
    && !Fits(p, s.reserved, s.workers[w].u) && t == s
  }

  /** Compare-and-exchange: it succeeds when the total is still the one seen. */
  ghost predicate Exchanges(p: Plan, s: Scan, t: Scan, w: nat)
    requires w < |s.workers|
  {
    && s.workers[w].Deciding? && s.workers[w].u < |p.costs|
    && t == if s.reserved == s.workers[w].seen
            then Scan(s.next, AddU64(s.reserved, p.costs[s.workers[w].u]), s.workers[w := Running(s.workers[w].u)])
            else s.(workers := s.workers[w := Waiting(s.workers[w].u)])
  }

  ghost predicate Releases(p: Plan, s: Scan, t: Scan, w: nat)
    requires w < |s.workers|
  {
    && s.workers[w].Running? && s.workers[w].u < |p.costs|
    && t == Scan(s.next, SubU64(s.reserved, p.costs[s.workers[w].u]), s.workers[w := Idle])
  }

  /** A step that is not just sleeping. */
  ghost predicate Acts(p: Plan, s: Scan, t: Scan, w: nat) {
    w < |s.workers| &&
    (Claims(p, s, t, w) || Skips(p, s, t, w) || Loads(p, s, t, w) || Exchanges(p, s, t, w) || Releases(p, s, t, w))
  }

  ghost predicate Steps(p: Plan, s: Scan, t: Scan, w: nat) {
    Acts(p, s, t, w) || (w < |s.workers| && Sleeps(p, s, t, w))
  }

  ghost predicate Starts(s: Scan) {
    s.next == 0 && s.reserved == 0 && forall w: nat :: w < |s.workers| ==> s.workers[w] == Idle
  }

  ghost predicate Follows(p: Plan, s: Scan, t: Scan) {
    exists w: nat :: Steps(p, s, t, w)
  }

  /** A finite execution: any worker may take each step. */
  ghost predicate IsRun(p: Plan, run: seq<Scan>) {
    && run != [] && Starts(run[0])
    && forall i: nat, j: nat :: j == i + 1 < |run| ==> Follows(p, run[i], run[j])
  }

  // ------------------------------------------------------------ totals over workers

  ghost function Total(f: Worker -> int, ws: seq<Worker>): int {
    if ws == [] then 0 else Total(f, ws[..|ws| - 1]) + f(ws[|ws| - 1])
  }

  lemma {:induction false} TotalUpdate(f: Worker -> int, ws: seq<Worker>, w: nat, x: Worker)
    requires w < |ws|
    ensures Total(f, ws[w := x]) == Total(f, ws) - f(ws[w]) + f(x)
  {
    var n := |ws| - 1;
    if w == n {
      assert ws[w := x][..n] == ws[..n];
    } else {
      assert ws[w := x][..n] == ws[..n][w := x];
      TotalUpdate(f, ws[..n], w, x);
    }
  }

  lemma {:induction false} TotalAtLeast(f: Worker -> int, ws: seq<Worker>, w: nat)
    requires w < |ws| && forall x: Worker :: f(x) >= 0
    ensures 0 <= f(ws[w]) <= Total(f, ws)
  {
    TotalNonNegative(f, ws[..|ws| - 1]);
    if w < |ws| - 1 {
      TotalAtLeast(f, ws[..|ws| - 1], w);
    }
  }

  lemma {:induction false} TotalNonNegative(f: Worker -> int, ws: seq<Worker>)
    requires forall x: Worker :: f(x) >= 0
    ensures Total(f, ws) >= 0
  {
    if ws != [] {
      TotalNonNegative(f, ws[..|ws| - 1]);
    }
  }

  lemma {:induction false} TotalZero(f: Worker -> int, ws: seq<Worker>)
    requires (forall x: Worker :: f(x) >= 0) && Total(f, ws) == 0
    ensures forall w: nat :: w < |ws| ==> f(ws[w]) == 0
  {
    forall w: nat | w < |ws| ensures f(ws[w]) == 0 {
      TotalAtLeast(f, ws, w);
    }
  }

  /** What a worker holds reserved. */
  ghost function Holding(p: Plan): Worker -> int {
    (x: Worker) => if x.Running? && x.u < |p.costs| then p.costs[x.u] as int else 0
  }

  ghost function One(): Worker -> int {
    (x: Worker) => if x.Running? then 1 else 0
  }

  ghost function InFlight(p: Plan, s: Scan): int {
    Total(Holding(p), s.workers)
  }

  ghost function RunningCount(s: Scan): int {
    Total(One(), s.workers)
  }

  // ------------------------------------------------------------ units are handed out once

  ghost predicate Has(x: Worker, u: nat) {
    (x.Waiting? || x.Deciding? || x.Running?) && x.u == u
  }

  /** Each unit claimed so far is with at most one worker, and none is claimed early. */
  ghost predicate Disjoint(p: Plan, s: Scan) {
    && s.next <= |p.costs|
    && (forall w: nat, u: nat :: w < |s.workers| && Has(s.workers[w], u) ==> u < s.next)
    && Apart(s.workers)
  }

  ghost predicate Apart(ws: seq<Worker>) {
    forall v: nat, w: nat, u: nat :: v < |ws| && w < |ws| && v != w && Has(ws[v], u) ==> !Has(ws[w], u)
  }

  lemma DisjointStep(p: Plan, s: Scan, t: Scan, w: nat)
    requires Disjoint(p, s) && Steps(p, s, t, w)
    ensures Disjoint(p, t)
  {
    hide AddU64, SubU64, Fits;
    var x := t.workers[w];
    assert forall v: nat :: v < |s.workers| && v != w ==> t.workers[v] == s.workers[v];
    assert forall u: nat :: Has(x, u) ==> Has(s.workers[w], u) || (u == s.next && t.next == s.next + 1);
    hide Steps, Has;
  }

  // ------------------------------------------------------------ no wrap-around

  ghost function HoldingBelow(p: Plan, n: nat): Worker -> int {
    (x: Worker) => if x.Running? && x.u < n && x.u < |p.costs| then p.costs[x.u] as int else 0
  }

  ghost function HoldingAt(p: Plan, u: nat): Worker -> int {
    (x: Worker) => if x.Running? && x.u == u && u < |p.costs| then p.costs[u] as int else 0
  }

  lemma {:induction false} HoldingSplit(p: Plan, n: nat, ws: seq<Worker>)
    requires n < |p.costs|
    ensures Total(HoldingBelow(p, n + 1), ws) == Total(HoldingBelow(p, n), ws) + Total(HoldingAt(p, n), ws)
  {
    if ws != [] {
      HoldingSplit(p, n, ws[..|ws| - 1]);
    }
  }

  lemma {:induction false} HoldingNone(p: Plan, u: nat, ws: seq<Worker>)
    requires forall w: nat :: w < |ws| ==> !Has(ws[w], u)
    ensures Total(HoldingAt(p, u), ws) == 0
  {
    if ws != [] {
      HoldingNone(p, u, ws[..|ws| - 1]);
      assert !Has(ws[|ws| - 1], u);
    }
  }

  lemma {:induction false} HoldingOnce(p: Plan, u: nat, ws: seq<Worker>)
    requires u < |p.costs| && Apart(ws)
    ensures Total(HoldingAt(p, u), ws) <= p.costs[u]
  {
    if ws != [] {
      var n := |ws| - 1;
      if Has(ws[n], u) {
        HoldingNone(p, u, ws[..n]);
      } else {
        HoldingOnce(p, u, ws[..n]);
      }
    }
  }

  lemma {:induction false} HeldWithin(p: Plan, ws: seq<Worker>, n: nat)
    requires Apart(ws) && n <= |p.costs|
    ensures Total(HoldingBelow(p, n), ws) <= Sum(p.costs[..n])
  {
    if n == 0 {
      HoldingNothing(p, ws);
    } else {
      HeldWithin(p, ws, n - 1);
      HoldingSplit(p, n - 1, ws);
      HoldingOnce(p, n - 1, ws);
      assert p.costs[..n][..n - 1] == p.costs[..n - 1];
    }
  }

  lemma {:induction false} HoldingNothing(p: Plan, ws: seq<Worker>)
    ensures Total(HoldingBelow(p, 0), ws) == 0
  {
    if ws != [] {
      HoldingNothing(p, ws[..|ws| - 1]);
    }
  }

  lemma {:induction false} HoldingAll(p: Plan, ws: seq<Worker>)
    ensures Total(Holding(p), ws) == Total(HoldingBelow(p, |p.costs|), ws)
  {
    if ws != [] {
      HoldingAll(p, ws[..|ws| - 1]);
    }
  }

  /** Units in flight never cost more than all units together. */
  lemma InFlightBounded(p: Plan, s: Scan)
    requires Disjoint(p, s) && Sensible(p)
    ensures 0 <= InFlight(p, s) <= Sum(p.costs) < TWO_64
  {
    HeldWithin(p, s.workers, |p.costs|);
    HoldingAll(p, s.workers);
    TotalNonNegative(Holding(p), s.workers);
    assert p.costs[..|p.costs|] == p.costs;
  }

  // ------------------------------------------------------------ safety

  /** The total is the sum of the costs in flight, and is within the budget unless a single unit exceeds it alone. */
  ghost predicate Safe(p: Plan, s: Scan) {
    && s.reserved == InFlight(p, s)
    && (s.reserved <= p.budget || RunningCount(s) == 1)
  }

  /** A decision was right when it was taken, for the total it saw. */
  ghost predicate Decided(p: Plan, s: Scan) {
    forall w: nat :: w < |s.workers| && s.workers[w].Deciding? ==>
      s.workers[w].u < |p.costs| &&
          (s.workers[w].seen == 0 || AddU64(s.workers[w].seen, p.costs[s.workers[w].u]) <= p.budget)
  }

  ghost predicate Inv(p: Plan, s: Scan) {
    Disjoint(p, s) && Safe(p, s) && Decided(p, s)
  }

  lemma DecidedStep(p: Plan, s: Scan, t: Scan, w: nat)
    requires Decided(p, s) && Steps(p, s, t, w)
    ensures Decided(p, t)
  {
    hide AddU64, SubU64;
    assert forall v: nat :: v < |s.workers| && v != w ==> t.workers[v] == s.workers[v];
  }

  /** A step other than an exchange or a release changes neither the total nor what is in flight. */
  lemma QuietStep(p: Plan, s: Scan, t: Scan, w: nat)
    requires Safe(p, s) && w < |s.workers|
    requires Claims(p, s, t, w) || Skips(p, s, t, w) || Loads(p, s, t, w) || t == s
    ensures Safe(p, t)
  {
    if t != s {
      TotalUpdate(Holding(p), s.workers, w, t.workers[w]);
      TotalUpdate(One(), s.workers, w, t.workers[w]);
    }
  }

  /** With nothing reserved nothing is running, because every unit costs something. */
  lemma NothingRuns(p: Plan, s: Scan)
    requires Sensible(p) && Disjoint(p, s) && InFlight(p, s) == 0
    ensures RunningCount(s) == 0 && forall w: nat :: w < |s.workers| ==> !s.workers[w].Running?
  {
    TotalZero(Holding(p), s.workers);
    forall w: nat | w < |s.workers| ensures !s.workers[w].Running? {
      assert s.workers[w].Running? ==> Has(s.workers[w], s.workers[w].u);
      assert Holding(p)(s.workers[w]) == 0;
    }
    NoneCounted(s.workers);
  }

  lemma {:induction false} NoneCounted(ws: seq<Worker>)
    requires forall w: nat :: w < |ws| ==> !ws[w].Running?
    ensures Total(One(), ws) == 0
  {
    if ws != [] {
      NoneCounted(ws[..|ws| - 1]);
    }
  }

  lemma ExchangeStep(p: Plan, s: Scan, t: Scan, w: nat)
    requires Sensible(p) && Inv(p, s) && Disjoint(p, t) && w < |s.workers| && Exchanges(p, s, t, w)
    ensures Safe(p, t)
  {
    TotalUpdate(Holding(p), s.workers, w, t.workers[w]);
    TotalUpdate(One(), s.workers, w, t.workers[w]);
    if s.reserved == s.workers[w].seen {
      InFlightBounded(p, t);
      if s.reserved == 0 {
        NothingRuns(p, s);
      }
    }
  }

  lemma ReleaseStep(p: Plan, s: Scan, t: Scan, w: nat)
    requires Sensible(p) && Inv(p, s) && Disjoint(p, t) && w < |s.workers| && Releases(p, s, t, w)
    ensures Safe(p, t)
  {
    TotalUpdate(Holding(p), s.workers, w, t.workers[w]);
    TotalUpdate(One(), s.workers, w, t.workers[w]);
    InFlightBounded(p, t);
    InFlightBounded(p, s);
    if s.reserved > p.budget {
      CountedOut(t.workers);
      AllIdle(p, t.workers);
    }
  }

  lemma {:induction false} CountedOut(ws: seq<Worker>)
    requires Total(One(), ws) == 0
    ensures forall w: nat :: w < |ws| ==> !ws[w].Running?
  {
    TotalZero(One(), ws);
    forall w: nat | w < |ws| ensures !ws[w].Running? {
      assert One()(ws[w]) == 0;
    }
  }

  lemma {:induction false} AllIdle(p: Plan, ws: seq<Worker>)
    requires forall w: nat :: w < |ws| ==> !ws[w].Running?
    ensures Total(Holding(p), ws) == 0
  {
    if ws != [] {
      AllIdle(p, ws[..|ws| - 1]);
    }
  }

  lemma InvStep(p: Plan, s: Scan, t: Scan, w: nat)
    requires Sensible(p) && Inv(p, s) && Steps(p, s, t, w)
    ensures Inv(p, t)
  {
    DisjointStep(p, s, t, w);
    DecidedStep(p, s, t, w);
    hide Disjoint, Safe, Decided, Claims, Skips, Loads, Sleeps, Exchanges, Releases;
    if Exchanges(p, s, t, w) {
      ExchangeStep(p, s, t, w);
    } else if Releases(p, s, t, w) {
      ReleaseStep(p, s, t, w);
    } else {
      SleepSame(p, s, t, w);
      QuietStep(p, s, t, w);
    }
  }

  lemma SleepSame(p: Plan, s: Scan, t: Scan, w: nat)
    ensures w < |s.workers| && Sleeps(p, s, t, w) ==> t == s
  {
  }

  lemma InvStart(p: Plan, s: Scan)
    requires Starts(s)
    ensures Inv(p, s)
  {
    NoneCounted(s.workers);
    AllIdle(p, s.workers);
  }

  /**
   In every interleaving the reserved total is the sum of the costs in flight,
   and either it is within the budget or exactly one unit is running.
   */
  lemma {:induction false} AlwaysSafe(p: Plan, run: seq<Scan>, k: nat)
    requires Sensible(p) && IsRun(p, run) && k < |run|
    ensures Inv(p, run[k])
  {
    if k == 0 {
      InvStart(p, run[0]);
    } else {
      AlwaysSafe(p, run, k - 1);
      var j := k - 1;
      assert k == j + 1;
      var w: nat :| Steps(p, run[j], run[k], w);
      InvStep(p, run[j], run[k], w);
    }
  }

  // ------------------------------------------------------------ progress

  ghost predicate Finished(p: Plan, s: Scan) {
    forall w: nat :: w < |s.workers| ==> s.workers[w] == Gone
  }

  ghost function NextOf(p: Plan, s: Scan, w: nat): Scan
    requires w < |s.workers|
  {
    match s.workers[w]
    case Idle =>
      if s.next < |p.costs| then Scan(s.next + 1, s.reserved, s.workers[w := Waiting(s.next)])
      else s.(workers := s.workers[w := Gone])
    case Waiting(u) =>
      if u in p.resumed then s.(workers := s.workers[w := Idle])
          else s.(workers := s.workers[w := Deciding(u, s.reserved)])
    case Deciding(u, seen) =>
      if u >= |p.costs| then s
      else if s.reserved == seen then Scan(s.next, AddU64(s.reserved, p.costs[u]), s.workers[w := Running(u)])
      else s.(workers := s.workers[w := Waiting(u)])
    case Running(u) =>
      if u >= |p.costs| then s else Scan(s.next, SubU64(s.reserved, p.costs[u]), s.workers[w := Idle])
    case Gone => s
  }

  /** The scan is never stuck: until every worker is done, someone can do more than sleep. */
  lemma NeverStuck(p: Plan, s: Scan) returns (w: nat, t: Scan)
    requires Sensible(p) && Inv(p, s) && !Finished(p, s)
    ensures Acts(p, s, t, w)
  {
    w :| w < |s.workers| && s.workers[w] != Gone;
    if r: nat :| r < |s.workers| && s.workers[r].Running? {
      w := r;
      assert Has(s.workers[r], s.workers[r].u);
    } else {
      NoneCounted(s.workers);
      AllIdle(p, s.workers);
      assert s.workers[w].Waiting? || s.workers[w].Deciding? ==> Has(s.workers[w], s.workers[w].u);
    }
    t := NextOf(p, s, w);
  }

  /** A unit waiting while nothing is in flight is let in at once, however large. */
  lemma LoneUnitAdmitted(p: Plan, s: Scan, w: nat)
    requires Sensible(p) && Inv(p, s) && RunningCount(s) == 0
    requires w < |s.workers| && s.workers[w].Waiting? && s.workers[w].u !in p.resumed
    ensures s.workers[w].u < |p.costs| && Fits(p, s.reserved, s.workers[w].u)
  {
    CountedOut(s.workers);
    AllIdle(p, s.workers);
    assert Has(s.workers[w], s.workers[w].u);
  }

  /** Reservations and releases still to come; claims and skips count too. */
  ghost function Ahead(): Worker -> int {
    (x: Worker) => match x
      case Idle => 0
      case Waiting(_) => 2
      case Deciding(_, _) => 2
      case Running(_) => 1
      case Gone => 0
  }

  /** Moves possible before the total changes: a stale decision is one move further back than a fresh one. */
  ghost function Moves(reserved: nat): Worker -> int {
    (x: Worker) => match x
      case Idle => 1
      case Waiting(_) => 2
      case Deciding(_, seen) => if seen == reserved then 1 else 3
      case Running(_) => 1
      case Gone => 0
  }

  ghost function Changes(p: Plan, s: Scan): int {
    3 * (|p.costs| - s.next) + Total(Ahead(), s.workers)
  }

  ghost function MovesLeft(s: Scan): int {
    Total(Moves(s.reserved), s.workers)
  }

  /** Every step that is not sleeping brings the scan closer to its end. */
  lemma EveryStepDescends(p: Plan, s: Scan, t: Scan, w: nat)
    requires Sensible(p) && Inv(p, s) && Acts(p, s, t, w)
    ensures Changes(p, t) >= 0 && MovesLeft(t) >= 0
    ensures Changes(p, t) < Changes(p, s) || (Changes(p, t) == Changes(p, s) && MovesLeft(t) < MovesLeft(s))
  {
    TotalUpdate(Ahead(), s.workers, w, t.workers[w]);
    TotalUpdate(Moves(s.reserved), s.workers, w, t.workers[w]);
    TotalNonNegative(Ahead(), t.workers);
    TotalNonNegative(Moves(t.reserved), t.workers);
    hide AddU64, SubU64, Sensible;
  }
}
