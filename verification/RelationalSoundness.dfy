/**
 Running the zone analysis, and the whole-run theorem for the differences it reports
 (crates/absint/src/relational.rs). Every empty zone is stored as one value.
 */
module RelationalSoundness {
  import opened Wrappers
  import opened Graphs
  import opened Ir
  import opened Ssa
  import opened Zones
  import opened Relational
  import opened SharedTargets
  import IntervalAnalysis
  import Dominators
  import Engine
  import Loops

  function Canon(z: Zone): Zone {
    if z.bottom then BottomZone else z
  }

  ghost predicate ZoneOk(n: nat, z: Zone) {
    Sized(z, n) && Canon(z) == z
  }

  const ZoneLattice: Engine.Lattice<Zone> := Engine.Lattice(BottomZone, JoinZ, WidenZ)

  function CoarseZ(z: Zone): nat {
    if z.bottom then 1 else 0
  }

  ghost function ZoneLaws(n: nat): Engine.Laws<Zone> {
    Engine.Laws((z: Zone) => ZoneOk(n, z), LeqZ, CoarseZ, (z: Zone) => FiniteEntries(z.m))
  }

  lemma LeqTransZ(a: Zone, b: Zone, c: Zone)
    requires LeqZ(a, b) && LeqZ(b, c)
    ensures LeqZ(a, c)
  {
    if !a.bottom {
      forall i: nat, j: nat | i < |a.m| && j < |a.m| ensures BLe(At(a.m, i, j), At(c.m, i, j)) {
        assert BLe(At(a.m, i, j), At(b.m, i, j)) && BLe(At(b.m, i, j), At(c.m, i, j));
      }
    }
  }

  lemma RankZ(n: nat, a: Zone, b: Zone)
    requires ZoneOk(n, a) && ZoneOk(n, b) && WidenZ(a, b) != a
    ensures Engine.RankFalls(ZoneLaws(n), a, WidenZ(a, b))
  {
    if !a.bottom {
      WidenDropsBounds(a, b, n);
    }
  }

  lemma CombinesOk(n: nat, a: Zone, b: Zone)
    requires ZoneOk(n, a) && ZoneOk(n, b)
    ensures ZoneOk(n, JoinZ(a, b)) && ZoneOk(n, WidenZ(a, b))
    ensures LeqZ(a, a) && LeqZ(a, JoinZ(a, b)) && LeqZ(b, JoinZ(a, b)) && LeqZ(b, WidenZ(a, b))
  {
    JoinCovers(a, b, n);
    WidenCovers(a, b, n);
  }

  /** With one representative for empty zones, the domain meets everything the solver asks for. */
  lemma ZoneLawful(n: nat)
    requires 0 < n
    ensures Engine.Lawful(ZoneLattice, ZoneLaws(n))
  {
    forall a, b | ZoneOk(n, a) && ZoneOk(n, b)
      ensures ZoneOk(n, JoinZ(a, b)) && ZoneOk(n, WidenZ(a, b))
      ensures LeqZ(a, a) && LeqZ(a, JoinZ(a, b)) && LeqZ(b, JoinZ(a, b)) && LeqZ(b, WidenZ(a, b))
      ensures WidenZ(a, b) != a ==> Engine.RankFalls(ZoneLaws(n), a, WidenZ(a, b))
    {
      CombinesOk(n, a, b);
      if WidenZ(a, b) != a {
        RankZ(n, a, b);
      }
    }
    forall a, b, c | LeqZ(a, b) && LeqZ(b, c) ensures LeqZ(a, c) {
      LeqTransZ(a, b, c);
    }
    assert ZoneOk(n, BottomZone);
    assert forall a | ZoneOk(n, a) :: LeqZ(a, a);
    hide JoinZ, WidenZ, LeqZ, ZoneOk, CoarseZ, FiniteEntries;
  }

  // ------------------------------------------------------------- the problem

  function BlockZ(f: Function, cfg: Cfg, ix: Index, node: nat, z: Zone): Zone {
    if z.bottom || !Sized(z, |ix.regs| + 1) then z
    else if node < |cfg.blocks| then
      match Lookup(f, cfg.blocks[node])
      case Some(b) => Canon(ApplyAllZ(ix, b.insts, |b.insts|, z))
      case None => z
    else z
  }

  function TransferEdgeZ(f: Function, cfg: Cfg, ix: Index, from: nat, to: nat, z: Zone, cmps: map<nat, RValue>): Zone {
    if z.bottom || !Sized(z, |ix.regs| + 1) then z
    else if from < |cfg.blocks| && to < |cfg.blocks| then
      match (Lookup(f, cfg.blocks[from]), Lookup(f, cfg.blocks[to]))
      case (Some(b), Some(t)) => Canon(EdgeZ(ix, b, t, z, cmps))
      case _ => z
    else z
  }

  function ProblemOf(f: Function, cfg: Cfg, headers: set<nat>, ix: Index, cmps: map<nat, RValue>)
    : Engine.Problem<Zone>
  {
    Engine.Problem(cfg.g, cfg.entry, headers, ZoneLattice, TopZone(|ix.regs|),
                   (n: nat, z: Zone) => BlockZ(f, cfg, ix, n, z),
                   (p: nat, u: nat, z: Zone) => TransferEdgeZ(f, cfg, ix, p, u, z, cmps))
  }

  lemma {:induction false} ApplyAllSized(ix: Index, insts: seq<Inst>, n: nat, z: Zone)
    requires n <= |insts| && SizedFor(ix, z)
    ensures SizedFor(ix, ApplyAllZ(ix, insts, n, z))
  {
    if n > 0 {
      ApplyAllSized(ix, insts, n - 1, z);
      ApplyZSized(ix, insts[n - 1], ApplyAllZ(ix, insts, n - 1, z));
    }
  }

  lemma CanonOk(n: nat, z: Zone)
    requires Sized(z, n)
    ensures ZoneOk(n, Canon(z))
  {
  }

  lemma BlockOk(f: Function, cfg: Cfg, ix: Index, node: nat, z: Zone)
    requires ZoneOk(|ix.regs| + 1, z)
    ensures ZoneOk(|ix.regs| + 1, BlockZ(f, cfg, ix, node, z))
  {
    if !z.bottom && node < |cfg.blocks| && Lookup(f, cfg.blocks[node]).Some? {
      var b := Lookup(f, cfg.blocks[node]).value;
      ApplyAllSized(ix, b.insts, |b.insts|, z);
      CanonOk(|ix.regs| + 1, ApplyAllZ(ix, b.insts, |b.insts|, z));
    }
  }

  lemma EdgeOk(f: Function, cfg: Cfg, ix: Index, from: nat, to: nat, z: Zone, cmps: map<nat, RValue>)
    requires ZoneOk(|ix.regs| + 1, z)
    ensures ZoneOk(|ix.regs| + 1, TransferEdgeZ(f, cfg, ix, from, to, z, cmps))
  {
    if !z.bottom && from < |cfg.blocks| && to < |cfg.blocks| &&
       Lookup(f, cfg.blocks[from]).Some? && Lookup(f, cfg.blocks[to]).Some?
    {
      var b, t := Lookup(f, cfg.blocks[from]).value, Lookup(f, cfg.blocks[to]).value;
      EdgeZSized(ix, b, t, z, cmps);
      CanonOk(|ix.regs| + 1, EdgeZ(ix, b, t, z, cmps));
    }
  }

  lemma ProblemPosed(f: Function, cfg: Cfg, headers: set<nat>, ix: Index, cmps: map<nat, RValue>)
    requires IsCfg(f, cfg) && f.blocks != []
    ensures Engine.WellPosed(ProblemOf(f, cfg, headers, ix, cmps), ZoneLaws(|ix.regs| + 1))
  {
    var n := |ix.regs| + 1;
    ZoneLawful(n);
    assert cfg.entry < cfg.g.N();
    forall u: nat, z: Zone | ZoneOk(n, z) ensures ZoneOk(n, BlockZ(f, cfg, ix, u, z)) {
      BlockOk(f, cfg, ix, u, z);
    }
    forall p: nat, u: nat, z: Zone | ZoneOk(n, z) ensures ZoneOk(n, TransferEdgeZ(f, cfg, ix, p, u, z, cmps)) {
      EdgeOk(f, cfg, ix, p, u, z, cmps);
    }
    assert ZoneOk(n, TopZone(|ix.regs|));
    hide ZoneOk, BlockZ, TransferEdgeZ, Engine.Lawful, TopZone;
  }

  // ------------------------------------------------------------- the analysis

  datatype Analysis = Analysis(cfg: Cfg, index: Index, solution: Option<Engine.Solution<Zone>>)

  ghost predicate Solves(f: Function, a: Analysis, headers: set<nat>, cmps: map<nat, RValue>) {
    && IsCfg(f, a.cfg) && IndexOk(a.index) && IntervalAnalysis.IsCmpMap(f, cmps)
    && (a.solution.Some? ==>
          Engine.PostFixpoint(ProblemOf(f, a.cfg, headers, a.index, cmps), ZoneLaws(|a.index.regs| + 1),
                              a.solution.value))
  }

  ghost predicate IsAnalysis(f: Function, a: Analysis) {
    exists headers: set<nat>, cmps: map<nat, RValue> :: Solves(f, a, headers, cmps)
  }

  /** Nothing is widened but at targets of back edges, and at nodes that have changed 64 times. */
  ghost predicate WidensAtLoops(f: Function, a: Analysis, headers: set<nat>, cmps: map<nat, RValue>) {
    a.solution.Some? ==>
      && Loops.AreHeaders(a.cfg.g, a.cfg.entry, headers)
      && Engine.WidenedLate(ProblemOf(f, a.cfg, headers, a.index, cmps), a.solution.value)
  }

  /** Solve for the zones of `f`, unless no register is tracked: none defined, or more than thirty-two. */
  method AnalyzeZones(f: Function) returns (a: Analysis)
    requires f.blocks != []
    ensures IsAnalysis(f, a)
    ensures exists headers: set<nat>, cmps: map<nat, RValue> ::
              Solves(f, a, headers, cmps) && WidensAtLoops(f, a, headers, cmps)
    ensures a.solution.None? <==> a.index.regs == []
    ensures exists d: set<nat> :: Collected(f, d) && a.index.at.Keys == if |d| <= 32 then d else {}
  {
    hide Engine.WidenedLate, Loops.AreHeaders, Loops.IsLoop, Loops.BackEdge, Loops.LatchPerEdge, Collected;
    hide IsCfg, IntervalAnalysis.IsCmpMap, Engine.WellPosed, Engine.PostFixpoint, IndexOk;
    var cfg := FromFunction(f);
    var ix := BuildIndex(f);
    var cmps := IntervalAnalysis.CollectCmps(f);
    if ix.regs == [] {
      a := Analysis(cfg, ix, None);
      assert Solves(f, a, {}, cmps) && WidensAtLoops(f, a, {}, cmps);
      return;
    }
    CfgFacts(f, cfg);
    var dominators := Dominators.Build(cfg.g.N(), cfg.entry, cfg.g);
    var loops := Loops.Detect(cfg.g, cfg.entry, dominators);
    var headers := set i | 0 <= i < |loops| :: loops[i].header;
    Loops.HeadersFound(cfg.g, cfg.entry, loops, headers);
    ProblemPosed(f, cfg, headers, ix, cmps);
    var solution := Engine.Solve(ProblemOf(f, cfg, headers, ix, cmps), ZoneLaws(|ix.regs| + 1));
    a := Analysis(cfg, ix, Some(solution));
    assert Solves(f, a, headers, cmps) && WidensAtLoops(f, a, headers, cmps);
  }

  // --------------------------------------------------------- whole-run soundness

  /** The comparisons recorded for the branch of `b` say nothing about tracked registers. */
  ghost predicate GuardsIdle(ix: Index, f: Function, b: Block) {
    forall x: nat, j: nat ::
      RecordAt(f, x, j) && f.blocks[x].insts[j].value.Cmp? && b.term.CondBr? &&
          b.term.cond == Reg(f.blocks[x].insts[j].dst) ==>
      GuardIdle(ix, f.blocks[x].insts[j].value.cop, f.blocks[x].insts[j].value.lhs, f.blocks[x].insts[j].value.rhs)
  }

  /** Parameters can be bound one by one, and two sides that lead to one block can be treated alike. */
  ghost predicate UsableBetween(ix: Index, f: Function, b: Block, to: Block) {
    EdgeUsable(ix, b, to) && (BothSides(b, to) ==> GuardsIdle(ix, f, b))
  }

  ghost predicate EdgesUsable(ix: Index, f: Function) {
    forall x: nat, y: nat :: x < |f.blocks| && y < |f.blocks| ==> UsableBetween(ix, f, f.blocks[x], f.blocks[y])
  }

  /** The unsigned comparison that decides a branch reads operands of one sign. */
  ghost predicate PlainGuard(f: Function, b: Block, s: Store) {
    forall x: nat, j: nat, a: int, c: int ::
      RecordAt(f, x, j) && f.blocks[x].insts[j].value.Cmp? && b.term.CondBr? &&
          b.term.cond == Reg(f.blocks[x].insts[j].dst) &&
      Denotes(f.blocks[x].insts[j].value.lhs, s, a) && Denotes(f.blocks[x].insts[j].value.rhs, s, c) ==>
      OneSign(f.blocks[x].insts[j].value.cop, a, c)
  }

  ghost predicate PlainGuards(f: Function, run: seq<Visit>) {
    forall k: nat :: k < |run| && Ir.Finished(f, run[k]) ==> PlainGuard(f, f.blocks[run[k].node], Final(run[k]))
  }

  ghost predicate Usable(f: Function, a: Analysis, headers: set<nat>, cmps: map<nat, RValue>) {
    && DistinctIds(f) && f.blocks != [] && a.solution.Some? && EdgesUsable(a.index, f)
    && Solves(f, a, headers, cmps) && StrictSsa(f, a.cfg)
  }

  /** The comparison recorded for a branch condition was made in a block that dominates the branch. */
  lemma GuardSite(f: Function, a: Analysis, headers: set<nat>, cmps: map<nat, RValue>, y: nat, c: nat)
    returns (x: nat, j: nat)
    requires Usable(f, a, headers, cmps) && y < |f.blocks| && f.blocks[y].term.CondBr?
    requires f.blocks[y].term.cond == Reg(c) && c in cmps
    ensures RecordAt(f, x, j) && Dominates(a.cfg.g, a.cfg.entry, x, y) && cmps[c].Cmp?
    ensures f.blocks[x].insts[j] == Assign(c, cmps[c])
  {
    hide IsCfg, EdgesUsable, IndexOk, Engine.PostFixpoint, DistinctIds, Dominates;
    x, j :| IntervalAnalysis.CmpAt(f, x, j, c, cmps[c]);
    assert DefAt(f, x, j + 1, c);
  }

  /** Single assignment: the recorded comparison behind a branch condition describes the current store. */
  lemma GuardRecord(f: Function, a: Analysis, headers: set<nat>, cmps: map<nat, RValue>, v: Visit, c: nat)
    returns (p: int, q: int)
    requires Usable(f, a, headers, cmps) && Ir.Finished(f, v) && AllRecords(f, a.cfg, v.node, Final(v))
    requires PlainGuard(f, f.blocks[v.node], Final(v)) && f.blocks[v.node].term.CondBr?
    requires f.blocks[v.node].term.cond == Reg(c) && c in cmps
    ensures cmps[c].Cmp? && Denotes(cmps[c].lhs, Final(v), p) && Denotes(cmps[c].rhs, Final(v), q)
    ensures OneSign(cmps[c].cop, p, q) && (Val(Final(v), c) != 0 <==> Truth(cmps[c].cop, p, q))
  {
    var x, j := GuardSite(f, a, headers, cmps, v.node, c);
    hide Usable;
    var cmp := cmps[c];
    assert RecordHolds(f.blocks[x].insts[j], Final(v));
    hide AllRecords, RecordHolds, Truth;
    p, q :| Denotes(cmp.lhs, Final(v), p) && Denotes(cmp.rhs, Final(v), q) &&
            Val(Final(v), c) == (if Truth(cmp.cop, p, q) then 1 else 0);
    assert OneSign(cmp.cop, p, q);
  }

  /** With both sides on one block, the recorded comparison is idle. */
  lemma IdleHere(f: Function, a: Analysis, headers: set<nat>, cmps: map<nat, RValue>, y: nat, to: Block, c: nat)
    requires Usable(f, a, headers, cmps) && y < |f.blocks| && UsableBetween(a.index, f, f.blocks[y], to)
    requires BothSides(f.blocks[y], to) && f.blocks[y].term.cond == Reg(c) && c in cmps && cmps[c].Cmp?
    ensures GuardIdle(a.index, cmps[c].cop, cmps[c].lhs, cmps[c].rhs)
  {
    var x, j := GuardSite(f, a, headers, cmps, y, c);
    hide Usable, EdgeUsable, GuardIdle;
  }

  /** The guard of the edge taken keeps the store. */
  lemma GuardZSound(f: Function, a: Analysis, headers: set<nat>, cmps: map<nat, RValue>, v: Visit, to: Block, s': Store,
                    z: Zone)
    requires Usable(f, a, headers, cmps) && Ir.Finished(f, v) && AllRecords(f, a.cfg, v.node, Final(v))
    requires PlainGuard(f, f.blocks[v.node], Final(v)) && Passes(f.blocks[v.node], Final(v), to, s')
    requires UsableBetween(a.index, f, f.blocks[v.node], to) && SizedFor(a.index, z) && InZ(a.index, z, Final(v))
    ensures InZ(a.index, GuardZ(a.index, z, f.blocks[v.node].term, to.id, cmps), Final(v))
  {
    UsableIndex(f, a, headers, cmps);
    hide Usable, AllRecords, PlainGuard, In, Square, RefineZ, Truth, Binds, IndexOk, IsCfg, DistinctIds, StrictSsa,
      UsableBetween, GuardIdle;
    var b := f.blocks[v.node];
    if b.term.CondBr? && b.term.cond.Reg? && b.term.cond.r in cmps && cmps[b.term.cond.r].Cmp? {
      var c := b.term.cond.r;
      var cmp := cmps[c];
      var p, q := GuardRecord(f, a, headers, cmps, v, c);
      NegateExact(cmp.cop, p, q);
      if BothSides(b, to) {
        IdleHere(f, a, headers, cmps, v.node, to, c);
        IdleKeeps(a.index, z, cmp.cop, cmp.lhs, cmp.rhs, Final(v));
      } else if to.id == b.term.thenBlk && Truth(cmp.cop, p, q) {
        RefineZSound(a.index, z, cmp.cop, cmp.lhs, cmp.rhs, Final(v), p, q);
      } else if to.id == b.term.elseBlk && !Truth(cmp.cop, p, q) {
        RefineZSound(a.index, z, Negate(cmp.cop), cmp.lhs, cmp.rhs, Final(v), p, q);
      }
    }
  }

  /** What crosses an edge is inside the edge's zone. */
  lemma EdgeZSound(f: Function, a: Analysis, headers: set<nat>, cmps: map<nat, RValue>, v: Visit, to: Block, s': Store,
                   z: Zone)
    requires Usable(f, a, headers, cmps) && Ir.Finished(f, v) && AllRecords(f, a.cfg, v.node, Final(v))
    requires PlainGuard(f, f.blocks[v.node], Final(v)) && Passes(f.blocks[v.node], Final(v), to, s')
    requires UsableBetween(a.index, f, f.blocks[v.node], to) && SizedFor(a.index, z) && InZ(a.index, z, Final(v))
    ensures InZ(a.index, EdgeZ(a.index, f.blocks[v.node], to, z, cmps), s')
  {
    var b := f.blocks[v.node];
    var g := GuardZ(a.index, z, b.term, to.id, cmps);
    GuardZSound(f, a, headers, cmps, v, to, s', z);
    EdgeZSized(a.index, b, to, z, cmps);
    UsableIndex(f, a, headers, cmps);
    hide Usable, AllRecords, PlainGuard, IndexOk, Square, GuardZ, BindZ, In, EdgeUsable, GuardsIdle;
    match EdgeArgsOf(b.term, to.id)
    case Some(args) =>
      EdgeBindSound(a.index, g, b, to, Final(v), s', args);
    case None =>
  }

  lemma UsableIndex(f: Function, a: Analysis, headers: set<nat>, cmps: map<nat, RValue>)
    requires Usable(f, a, headers, cmps)
    ensures IndexOk(a.index) && DistinctIds(f) && IsCfg(f, a.cfg) && a.solution.Some? && StrictSsa(f, a.cfg)
  {
  }

  lemma SolvedZones(f: Function, a: Analysis, headers: set<nat>, cmps: map<nat, RValue>, u: nat)
    requires Usable(f, a, headers, cmps) && u < |f.blocks|
    ensures |a.solution.value.inStates| == |a.solution.value.outStates| == |f.blocks|
    ensures SizedFor(a.index, a.solution.value.inStates[u]) && SizedFor(a.index, a.solution.value.outStates[u])
  {
    hide StrictSsa, EdgesUsable, IndexOk, IntervalAnalysis.IsCmpMap;
    assert ZoneLaws(|a.index.regs| + 1).ok(a.solution.value.inStates[u]);
    assert ZoneLaws(|a.index.regs| + 1).ok(a.solution.value.outStates[u]);
  }

  lemma {:induction false} ApplyAllEmpty(ix: Index, insts: seq<Inst>, n: nat, z: Zone)
    requires n <= |insts| && z.bottom
    ensures ApplyAllZ(ix, insts, n, z).bottom
  {
    if n > 0 {
      ApplyAllEmpty(ix, insts, n - 1, z);
    }
  }

  lemma InNotBottom(ix: Index, z: Zone, s: Store)
    requires InZ(ix, z, s)
    ensures !z.bottom && Canon(z) == z
  {
  }

  /** The exit zone of a block covers the store its instructions produce. */
  lemma ExitZone(f: Function, a: Analysis, headers: set<nat>, cmps: map<nat, RValue>, u: nat, s: Store)
    requires Usable(f, a, headers, cmps) && Graphs.Reachable(a.cfg.g, a.cfg.entry, u) && u < |f.blocks|
    requires |a.solution.value.inStates| == |a.solution.value.outStates| == |f.blocks|
    requires SizedFor(a.index, a.solution.value.inStates[u])
    requires InZ(a.index, ApplyAllZ(a.index, f.blocks[u].insts, |f.blocks[u].insts|, a.solution.value.inStates[u]), s)
    ensures InZ(a.index, a.solution.value.outStates[u], s)
  {
    var pb := ProblemOf(f, a.cfg, headers, a.index, cmps);
    var z := a.solution.value.inStates[u];
    ProblemPosed(f, a.cfg, headers, a.index, cmps);
    Engine.FlowsIn(pb, ZoneLaws(|a.index.regs| + 1), a.solution.value, 0, u);
    LookupNode(f, u);
    CfgIds(f, a.cfg, u);
    InNotBottom(a.index, ApplyAllZ(a.index, f.blocks[u].insts, |f.blocks[u].insts|, z), s);
    hide Usable, Engine.WellPosed, Engine.PostFixpoint, DistinctIds, IsCfg, InZ, Square;
    if z.bottom {
      ApplyAllEmpty(a.index, f.blocks[u].insts, |f.blocks[u].insts|, z);
    }
    assert pb.transfer(u, z) == BlockZ(f, a.cfg, a.index, u, z);
  }

  lemma EdgeFlows(f: Function, a: Analysis, headers: set<nat>, cmps: map<nat, RValue>, v: nat, u: nat)
    requires Usable(f, a, headers, cmps) && a.cfg.g.Edge(v, u) && u < |f.blocks| && v < |f.blocks|
    requires Graphs.Reachable(a.cfg.g, a.cfg.entry, u)
    ensures |a.solution.value.inStates| == |a.solution.value.outStates| == |f.blocks|
    ensures LeqZ(TransferEdgeZ(f, a.cfg, a.index, v, u, a.solution.value.outStates[v], cmps),
            a.solution.value.inStates[u])
  {
    var pb := ProblemOf(f, a.cfg, headers, a.index, cmps);
    SolvedZones(f, a, headers, cmps, v);
    ProblemPosed(f, a.cfg, headers, a.index, cmps);
    hide StrictSsa, EdgesUsable, IndexOk, IntervalAnalysis.IsCmpMap, Engine.WellPosed, Engine.PostFixpoint, DistinctIds,
      Square, LeqZ, TransferEdgeZ, Graphs.Reachable;
    Engine.FlowsIn(pb, ZoneLaws(|a.index.regs| + 1), a.solution.value, v, u);
  }

  lemma EdgeFacts(f: Function, a: Analysis, headers: set<nat>, cmps: map<nat, RValue>, run: seq<Visit>, k: nat)
    requires Usable(f, a, headers, cmps) && IsRun(f, run) && PlainGuards(f, run) && 0 < k < |run|
    requires Follows(f, run[k - 1], run[k])
    ensures var v, u := run[k - 1], run[k].node;
            && AllRecords(f, a.cfg, v.node, Final(v)) && PlainGuard(f, f.blocks[v.node], Final(v))
            && UsableBetween(a.index, f, f.blocks[v.node], f.blocks[u])
  {
    hide *;
    UsableIndex(f, a, headers, cmps);
    VisitFacts(f, run, k);
    FollowsFinished(f, run[k - 1], run[k]);
    RecordsAtBranch(f, a.cfg, run, k - 1);
    GuardAt(f, run, k - 1);
    UsableEdge(f, a, headers, cmps, run[k - 1].node, run[k].node);
  }

  lemma FollowsFinished(f: Function, v: Visit, w: Visit)
    requires Follows(f, v, w)
    ensures Ir.Finished(f, v) && v.stores != []
  {
  }

  lemma GuardAt(f: Function, run: seq<Visit>, k: nat)
    requires PlainGuards(f, run) && k < |run| && Ir.Finished(f, run[k]) && run[k].node < |f.blocks|
    requires run[k].stores != []
    ensures PlainGuard(f, f.blocks[run[k].node], Final(run[k]))
  {
  }

  lemma UsableEdge(f: Function, a: Analysis, headers: set<nat>, cmps: map<nat, RValue>, x: nat, y: nat)
    requires Usable(f, a, headers, cmps) && x < |f.blocks| && y < |f.blocks|
    ensures UsableBetween(a.index, f, f.blocks[x], f.blocks[y])
  {
    hide UsableBetween;
  }

  lemma EdgeCovers(f: Function, a: Analysis, headers: set<nat>, cmps: map<nat, RValue>, run: seq<Visit>, k: nat,
                   z: Zone)
    requires Usable(f, a, headers, cmps) && IsRun(f, run) && PlainGuards(f, run) && 0 < k < |run|
    requires Follows(f, run[k - 1], run[k]) && SizedFor(a.index, z) && InZ(a.index, z, Final(run[k - 1]))
    ensures InZ(a.index, TransferEdgeZ(f, a.cfg, a.index, run[k - 1].node, run[k].node, z, cmps), run[k].stores[0])
  {
    var v, u := run[k - 1], run[k].node;
    EdgeFacts(f, a, headers, cmps, run, k);
    UsableIndex(f, a, headers, cmps);
    hide Usable, IsRun, PlainGuards, PlainGuard, AllRecords, DistinctIds, IsCfg, StrictSsa, UsableBetween, In, Square,
      IndexOk, Passes, EdgeZ;
    LookupNode(f, v.node);
    LookupNode(f, u);
    CfgIds(f, a.cfg, v.node);
    CfgIds(f, a.cfg, u);
    EdgeZSound(f, a, headers, cmps, v, f.blocks[u], run[k].stores[0], z);
    InNotBottom(a.index, z, Final(v));
    InNotBottom(a.index, EdgeZ(a.index, f.blocks[v.node], f.blocks[u], z, cmps), run[k].stores[0]);
  }

  /** The store of visit `k` before instruction `i` lies in the zone computed for that point. */
  ghost predicate InZoneAt(f: Function, a: Analysis, run: seq<Visit>, k: nat, i: nat) {
    && k < |run| && i < |run[k].stores| && a.solution.Some?
    && run[k].node < |f.blocks| == |a.solution.value.inStates| && i <= |f.blocks[run[k].node].insts|
    && SizedFor(a.index, a.solution.value.inStates[run[k].node])
    && InZ(a.index, ApplyAllZ(a.index, f.blocks[run[k].node].insts, i, a.solution.value.inStates[run[k].node]),
           run[k].stores[i])
  }

  lemma StepInZone(f: Function, a: Analysis, headers: set<nat>, cmps: map<nat, RValue>, run: seq<Visit>, k: nat, i: nat)
    requires Usable(f, a, headers, cmps) && IsRun(f, run) && 0 < i && InZoneAt(f, a, run, k, i - 1)
    requires i < |run[k].stores|
    ensures InZoneAt(f, a, run, k, i)
  {
    VisitFacts(f, run, k);
    UsableIndex(f, a, headers, cmps);
    hide Usable, IsRun, In, Square, IndexOk, DistinctIds, IsCfg, StrictSsa, Follows;
    var insts := f.blocks[run[k].node].insts;
    var z := a.solution.value.inStates[run[k].node];
    assert Steps(insts[i - 1], run[k].stores[i - 1], run[k].stores[i - 1 + 1]);
    ApplyAllSized(a.index, insts, i - 1, z);
    ApplyZSound(a.index, insts[i - 1], ApplyAllZ(a.index, insts, i - 1, z), run[k].stores[i - 1], run[k].stores[i]);
  }

  /** Every store of every run lies in the zone computed for its point. */
  lemma {:induction false} RunStaysInZone(f: Function, a: Analysis, headers: set<nat>, cmps: map<nat, RValue>,
                                          run: seq<Visit>, k: nat, i: nat)
    requires Usable(f, a, headers, cmps) && IsRun(f, run) && PlainGuards(f, run)
    requires k < |run| && i < |run[k].stores|
    ensures InZoneAt(f, a, run, k, i)
    decreases k, i
  {
    hide *;
    if i > 0 {
      RunStaysInZone(f, a, headers, cmps, run, k, i - 1);
      StepInZone(f, a, headers, cmps, run, k, i);
    } else if k == 0 {
      EntryInZone(f, a, headers, cmps, run);
    } else {
      VisitBefore(f, run, k);
      RunStaysInZone(f, a, headers, cmps, run, k - 1, |run[k - 1].stores| - 1);
      EdgeInZone(f, a, headers, cmps, run, k);
    }
  }

  lemma VisitBefore(f: Function, run: seq<Visit>, k: nat)
    requires IsRun(f, run) && 0 < k < |run|
    ensures run[k - 1].stores != []
  {
    assert IsVisit(f, run[k - 1]);
  }

  lemma EntryInZone(f: Function, a: Analysis, headers: set<nat>, cmps: map<nat, RValue>, run: seq<Visit>)
    requires Usable(f, a, headers, cmps) && IsRun(f, run)
    ensures InZoneAt(f, a, run, 0, 0)
  {
    var pb := ProblemOf(f, a.cfg, headers, a.index, cmps);
    var v := Vec(a.index, run[0].stores[0]);
    UsableIndex(f, a, headers, cmps);
    VisitFacts(f, run, 0);
    EntryNode(f, a.cfg, run);
    ReachRefl(a.cfg.g, a.cfg.entry);
    ProblemPosed(f, a.cfg, headers, a.index, cmps);
    SolvedZones(f, a, headers, cmps, a.cfg.entry);
    hide StrictSsa, EdgesUsable, IndexOk, IntervalAnalysis.IsCmpMap, DistinctIds, IsRun, IsCfg, Engine.WellPosed,
      Engine.PostFixpoint, Square, LeqZ, TopZone, In;
    Engine.FlowsIn(pb, ZoneLaws(|a.index.regs| + 1), a.solution.value, 0, a.cfg.entry);
    VecNth(a.index, run[0].stores[0], 0);
    TopHolds(|a.index.regs|, v);
    LeqSound(TopZone(|a.index.regs|), a.solution.value.inStates[a.cfg.entry], v);
  }

  lemma EdgeInZone(f: Function, a: Analysis, headers: set<nat>, cmps: map<nat, RValue>, run: seq<Visit>, k: nat)
    requires Usable(f, a, headers, cmps) && IsRun(f, run) && PlainGuards(f, run) && 0 < k < |run|
    requires run[k - 1].stores != [] && InZoneAt(f, a, run, k - 1, |run[k - 1].stores| - 1)
    ensures InZoneAt(f, a, run, k, 0)
  {
    var v, u := run[k - 1], run[k].node;
    VisitFacts(f, run, k);
    UsableIndex(f, a, headers, cmps);
    EdgeTaken(f, a.cfg, run, k);
    hide Usable, IsRun, PlainGuards, In, Square, IndexOk, DistinctIds, IsCfg, StrictSsa, Graphs.Reachable, LeqZ,
      TransferEdgeZ, Follows, Passes, Vec, PlainGuard, EdgesUsable, AllRecords, Steps;
    SolvedZones(f, a, headers, cmps, v.node);
    SolvedZones(f, a, headers, cmps, u);
    ExitZone(f, a, headers, cmps, v.node, Final(v));
    var z := a.solution.value.outStates[v.node];
    EdgeCovers(f, a, headers, cmps, run, k, z);
    EdgeFlows(f, a, headers, cmps, v.node, u);
    LeqSound(TransferEdgeZ(f, a.cfg, a.index, v.node, u, z, cmps), a.solution.value.inStates[u],
             Vec(a.index, run[k].stores[0]));
  }

  // ------------------------------------------------------------- the answer

  /** A reported triple `(x, y, c)`: the zone at the block's entry bounds `x - y` by `c`. */
  ghost predicate Reported(a: Analysis, block: nat, x: nat, y: nat, c: int) {
    && a.solution.Some? && block in a.cfg.indexOf && a.cfg.indexOf[block] < |a.solution.value.inStates|
    && var z := a.solution.value.inStates[a.cfg.indexOf[block]];
       && !z.bottom && x != y && x in a.index.at && y in a.index.at && Square(z.m)
       && a.index.at[x] < |z.m| && a.index.at[y] < |z.m| && At(z.m, a.index.at[y], a.index.at[x]) == Some(c)
  }

  /** Every tracked pair with a finite bound at the entry of the block. */
  method EntryDiffs(f: Function, a: Analysis, block: nat) returns (out: set<(nat, nat, int)>)
    requires IndexOk(a.index)
    requires a.solution.Some? && block in a.cfg.indexOf ==>
               a.cfg.indexOf[block] < |a.solution.value.inStates| &&
               SizedFor(a.index, a.solution.value.inStates[a.cfg.indexOf[block]])
    ensures forall x: nat, y: nat, c: int :: (x, y, c) in out <==> Reported(a, block, x, y, c)
  {
    out := {};
    if a.solution.None? || block !in a.cfg.indexOf {
      return;
    }
    var zone := a.solution.value.inStates[a.cfg.indexOf[block]];
    if zone.bottom {
      return;
    }
    var n := |a.index.regs|;
    for i := 0 to n
      invariant forall x: nat, y: nat, c: int :: (x, y, c) in out <==>
                  Reported(a, block, x, y, c) && a.index.at[x] <= i
    {
      for j := 0 to n
        invariant forall x: nat, y: nat, c: int :: (x, y, c) in out <==>
                    Reported(a, block, x, y, c) &&
                    (a.index.at[x] <= i || (a.index.at[x] == i + 1 && a.index.at[y] <= j))
      {
        var x, y := a.index.regs[i], a.index.regs[j];
        if x != y && At(zone.m, j + 1, i + 1).Some? {
          out := out + {(x, y, At(zone.m, j + 1, i + 1).value)};
        }
      }
    }
  }

  /** Every reported difference bound holds whenever any run enters the block. */
  lemma EntryDiffsSound(f: Function, a: Analysis, run: seq<Visit>, k: nat, x: nat, y: nat, c: int)
    requires DistinctIds(f) && f.blocks != [] && EdgesUsable(a.index, f) && IsAnalysis(f, a) && StrictSsa(f, a.cfg)
    requires IsRun(f, run) && PlainGuards(f, run) && k < |run| && run[k].node < |f.blocks|
    requires Reported(a, f.blocks[run[k].node].id, x, y, c)
    ensures run[k].stores != [] && Val(run[k].stores[0], x) - Val(run[k].stores[0], y) <= c
  {
    var headers: set<nat>, cmps: map<nat, RValue> :| Solves(f, a, headers, cmps);
    VisitFacts(f, run, k);
    RunStaysInZone(f, a, headers, cmps, run, k, 0);
    var u := run[k].node;
    var id := f.blocks[u].id;
    assert id in a.cfg.indexOf && f.blocks[a.cfg.indexOf[id]].id == id;
    assert a.cfg.indexOf[id] == u;
    var s := run[k].stores[0];
    VecAt(a.index, s, x);
    VecAt(a.index, s, y);
    var z := a.solution.value.inStates[u];
    hide DistinctIds, EdgesUsable, IsAnalysis, StrictSsa, IsRun, PlainGuards, Solves, IndexOk, Vec;
    assert Obeys(At(z.m, a.index.at[y], a.index.at[x]),
           Vec(a.index, s)[a.index.at[x]] - Vec(a.index, s)[a.index.at[y]]);
  }
}
