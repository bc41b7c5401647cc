/**
 Running the interval analysis and the whole-run theorem: every finite concrete run
 stays inside the computed intervals (crates/absint/src/analysis.rs).
 */
module IntervalSoundness {
  import opened Wrappers
  import opened Graphs
  import opened Ir
  import opened Ssa
  import opened Intervals
  import opened Env
  import opened IntervalAnalysis
  import Conditions
  import Dominators
  import Engine
  import Loops

  function ProblemOf(f: Function, cfg: Cfg, headers: set<nat>, cmps: map<nat, RValue>, copies: map<nat, nat>)
    : Engine.Problem<State>
  {
    Engine.Problem(cfg.g, cfg.entry, headers, StateLattice, TopState,
                   (n: nat, st: State) => TransferBlock(f, cfg, n, st),
                   (p: nat, u: nat, st: State) => TransferEdge(f, cfg, p, u, st, cmps, copies))
  }

  // ------------------------------------------- transfers keep endpoints small

  lemma {:induction false} FindFromMember(blocks: seq<Block>, id: nat, i: nat)
    requires i <= |blocks|
    ensures FindFrom(blocks, id, i).Some? ==> FindFrom(blocks, id, i).value in blocks
    decreases |blocks| - i
  {
    if i < |blocks| {
      FindFromMember(blocks, id, i + 1);
    }
  }

  lemma LookupMember(f: Function, id: nat)
    ensures Lookup(f, id).Some? ==> Lookup(f, id).value in f.blocks
  {
    FindFromMember(f.blocks, id, 0);
  }

  lemma TransferBlockOk(f: Function, cfg: Cfg, node: nat, st: State)
    requires ConstantsSmall(f) && StateOk(st)
    ensures StateOk(TransferBlock(f, cfg, node, st))
  {
    if st.Reachable? && node < |cfg.blocks| && Lookup(f, cfg.blocks[node]).Some? {
      LookupMember(f, cfg.blocks[node]);
      var b := Lookup(f, cfg.blocks[node]).value;
      var x :| 0 <= x < |f.blocks| && f.blocks[x] == b;
      ApplyFirstOk(b.insts, |b.insts|, st);
    }
  }

  lemma {:induction false} RefineRegOk(st: State, reg: nat, iv: Interval, copies: map<nat, nat>, n: nat)
    requires StateOk(st) && IntervalOk(iv)
    ensures StateOk(RefineReg(st, reg, iv, copies, n))
    decreases n
  {
    if n > 0 {
      GetOk(st, reg);
      ArithmeticOk(Get(st, reg), iv);
      var next := Put(st, reg, Meet(Get(st, reg), iv));
      PutOk(st, reg, Meet(Get(st, reg), iv));
      if reg in copies && copies[reg] != reg {
        RefineRegOk(next, copies[reg], iv, copies, n - 1);
      }
    }
  }

  lemma RefineSideOk(st: State, side: Operand, iv: Interval, guard: Option<Interval>, copies: map<nat, nat>)
    requires StateOk(st) && IntervalOk(iv) && (guard.Some? ==> IntervalOk(guard.value))
    ensures StateOk(RefineSide(st, side, iv, guard, copies))
  {
    if side.Reg? && guard.Some? {
      ArithmeticOk(iv, guard.value);
      RefineRegOk(st, side.r, Meet(iv, guard.value), copies, COPY_LIMIT);
    }
  }

  lemma RefineByCmpOk(st: State, cop: CmpOp, lhs: Operand, rhs: Operand, negate: bool, copies: map<nat, nat>)
    requires StateOk(st) && OperandSmall(lhs) && OperandSmall(rhs)
    ensures StateOk(RefineByCmp(st, cop, lhs, rhs, negate, copies))
  {
    var op := if negate then Negate(cop) else cop;
    var li, ri := EvalOperand(lhs, st), EvalOperand(rhs, st);
    EvalOperandOk(lhs, st);
    EvalOperandOk(rhs, st);
    ArithmeticOk(li, ri);
    ArithmeticOk(ri, li);
    hide StateOk, IntervalOk, EvalOperand, AsUpper, AsLower, Meet, AddI, SubI, MulI;
    RefineSideOk(st, lhs, li, LeftGuard(op, ri), copies);
    RefineSideOk(RefineSide(st, lhs, li, LeftGuard(op, ri), copies), rhs, ri, RightGuard(op, li), copies);
  }

  lemma {:induction false} BindFirstOk(params: seq<nat>, args: seq<Operand>, n: nat, exit: State, st: State)
    requires n <= |params| && StateOk(exit) && StateOk(st) && ArgsSmall(args)
    ensures StateOk(BindFirst(params, args, n, exit, st))
  {
    if n > 0 {
      BindFirstOk(params, args, n - 1, exit, st);
      if n - 1 < |args| {
        EvalOperandOk(args[n - 1], exit);
      }
      PutOk(BindFirst(params, args, n - 1, exit, st), params[n - 1],
            if n - 1 < |args| then EvalOperand(args[n - 1], exit) else Top);
    }
  }

  lemma {:induction false} BindListsOk(params: seq<nat>, lists: seq<seq<Operand>>, n: nat, exit: State)
    requires n <= |lists| && StateOk(exit) && forall i :: 0 <= i < |lists| ==> ArgsSmall(lists[i])
    ensures StateOk(BindLists(params, lists, n, exit))
  {
    if n > 0 {
      BindListsOk(params, lists, n - 1, exit);
      BindFirstOk(params, lists[n - 1], |params|, exit, exit);
      CombineOk(BindLists(params, lists, n - 1, exit), BindFirst(params, lists[n - 1], |params|, exit, exit));
    }
  }

  lemma CmpOperandsSmall(f: Function, cmps: map<nat, RValue>, c: nat)
    requires ConstantsSmall(f) && IsCmpMap(f, cmps) && c in cmps
    ensures cmps[c].Cmp? && OperandSmall(cmps[c].lhs) && OperandSmall(cmps[c].rhs)
  {
    var x: nat, j: nat :| CmpAt(f, x, j, c, cmps[c]);
    assert InstSmall(f.blocks[x].insts[j]);
  }

  lemma EdgeStateOk(f: Function, x: nat, to: Block, exit: State, cmps: map<nat, RValue>, copies: map<nat, nat>)
    requires ConstantsSmall(f) && IsCmpMap(f, cmps) && x < |f.blocks| && StateOk(exit)
    ensures StateOk(EdgeState(f.blocks[x], to, exit, cmps, copies))
  {
    var b := f.blocks[x];
    if b.term.CondBr? && b.term.cond.Reg? && b.term.cond.r in cmps {
      CmpOperandsSmall(f, cmps, b.term.cond.r);
      var cmp := cmps[b.term.cond.r];
      RefineByCmpOk(exit, cmp.cop, cmp.lhs, cmp.rhs, b.term.elseBlk == to.id, copies);
    }
    var lists := MatchingArgs(b.term, to.id);
    BindListsOk(to.params, lists, |lists|, Guarded(b, to.id, exit, cmps, copies));
  }

  lemma TransferEdgeOk(f: Function, cfg: Cfg, from: nat, to: nat, exit: State,
                       cmps: map<nat, RValue>, copies: map<nat, nat>)
    requires ConstantsSmall(f) && IsCmpMap(f, cmps) && StateOk(exit)
    ensures StateOk(TransferEdge(f, cfg, from, to, exit, cmps, copies))
  {
    if exit.Reachable? && from < |cfg.blocks| && to < |cfg.blocks| &&
       Lookup(f, cfg.blocks[from]).Some? && Lookup(f, cfg.blocks[to]).Some?
    {
      LookupMember(f, cfg.blocks[from]);
      var b := Lookup(f, cfg.blocks[from]).value;
      var x :| 0 <= x < |f.blocks| && f.blocks[x] == b;
      EdgeStateOk(f, x, Lookup(f, cfg.blocks[to]).value, exit, cmps, copies);
    }
  }

  lemma ProblemPosed(f: Function, cfg: Cfg, headers: set<nat>, cmps: map<nat, RValue>, copies: map<nat, nat>)
    requires ConstantsSmall(f) && IsCfg(f, cfg) && f.blocks != [] && IsCmpMap(f, cmps)
    ensures Engine.WellPosed(ProblemOf(f, cfg, headers, cmps, copies), StateLaws)
  {
    StateLawful();
    assert cfg.entry < cfg.g.N();
    forall n: nat, st: State | StateOk(st) ensures StateOk(TransferBlock(f, cfg, n, st)) {
      TransferBlockOk(f, cfg, n, st);
    }
    forall p: nat, u: nat, st: State | StateOk(st) ensures StateOk(TransferEdge(f, cfg, p, u, st, cmps, copies)) {
      TransferEdgeOk(f, cfg, p, u, st, cmps, copies);
    }
    assert StateOk(TopState);
    hide StateOk, TransferBlock, TransferEdge, Engine.Lawful, IsCmpMap, ConstantsSmall;
  }

  // ------------------------------------------------------------ the analysis

  datatype Analysis = Analysis(cfg: Cfg, solution: Engine.Solution<State>)

  /** The solution is a post-fixpoint of the function's problem. */
  ghost predicate IsAnalysis(f: Function, a: Analysis) {
    && IsCfg(f, a.cfg)
    && exists headers: set<nat>, cmps: map<nat, RValue>, copies: map<nat, nat> ::
         Solves(f, a, headers, cmps, copies)
  }

  ghost predicate Solves(f: Function, a: Analysis, headers: set<nat>, cmps: map<nat, RValue>, copies: map<nat, nat>) {
    && IsCmpMap(f, cmps) && IsCopyMap(f, copies)
    && Engine.PostFixpoint(ProblemOf(f, a.cfg, headers, cmps, copies), StateLaws, a.solution)
  }

  /** Nothing is widened but at targets of back edges, and at nodes that have changed 64 times. */
  ghost predicate WidensAtLoops(f: Function, a: Analysis, headers: set<nat>, cmps: map<nat, RValue>, copies: map<nat,
                                nat>) {
    && Loops.AreHeaders(a.cfg.g, a.cfg.entry, headers)
    && Engine.WidenedLate(ProblemOf(f, a.cfg, headers, cmps, copies), a.solution)
  }

  /** Build the graph, find the widening points, collect the recorded facts and solve. */
  method AnalyzeIntervals(f: Function) returns (a: Analysis)
    requires f.blocks != [] && ConstantsSmall(f)
    ensures IsAnalysis(f, a)
    ensures exists headers: set<nat>, cmps: map<nat, RValue>, copies: map<nat, nat> ::
              Solves(f, a, headers, cmps, copies) && WidensAtLoops(f, a, headers, cmps, copies)
  {
    hide Engine.WidenedLate, Loops.AreHeaders, Loops.IsLoop, Loops.BackEdge, Loops.LatchPerEdge;
    hide IsCfg, IsCmpMap, IsCopyMap, ConstantsSmall, Engine.WellPosed, Engine.PostFixpoint;
    var cfg := FromFunction(f);
    CfgFacts(f, cfg);
    var dominators := Dominators.Build(cfg.g.N(), cfg.entry, cfg.g);
    var loops := Loops.Detect(cfg.g, cfg.entry, dominators);
    var headers := set i | 0 <= i < |loops| :: loops[i].header;
    Loops.HeadersFound(cfg.g, cfg.entry, loops, headers);
    var cmps := CollectCmps(f);
    var copies := CollectCopies(f);
    ProblemPosed(f, cfg, headers, cmps, copies);
    var solution := Engine.Solve(ProblemOf(f, cfg, headers, cmps, copies), StateLaws);
    a := Analysis(cfg, solution);
    assert Solves(f, a, headers, cmps, copies) && WidensAtLoops(f, a, headers, cmps, copies);
  }

  // --------------------------------------------------------- whole-run soundness

  /** The run computes with small values, and zero-extends nothing negative. */
  ghost predicate Faithful(f: Function, run: seq<Visit>) {
    && (forall k: nat, i: nat :: k < |run| && i < |run[k].stores| ==> StoreSmall(run[k].stores[i]))
    && (forall k: nat, i: nat :: k < |run| && i + 1 < |run[k].stores| ==> ZExtPlainAt(f, run[k], i))
  }

  ghost predicate ZExtPlainAt(f: Function, v: Visit, i: nat)
    requires i < |v.stores|
  {
    v.node < |f.blocks| && i < |f.blocks[v.node].insts| ==> ZExtPlain(f.blocks[v.node].insts[i], v.stores[i])
  }

  ghost predicate Usable(f: Function, a: Analysis, headers: set<nat>, cmps: map<nat, RValue>, copies: map<nat, nat>) {
    && DistinctIds(f) && ConstantsSmall(f) && IsCfg(f, a.cfg) && f.blocks != []
    && StrictSsa(f, a.cfg) && Solves(f, a, headers, cmps, copies)
  }

  lemma SolvedStates(f: Function, a: Analysis, headers: set<nat>, cmps: map<nat, RValue>, copies: map<nat, nat>, u: nat)
    requires Usable(f, a, headers, cmps, copies) && u < |f.blocks|
    ensures |a.solution.inStates| == |a.solution.outStates| == |f.blocks| == |a.cfg.blocks|
    ensures StateOk(a.solution.inStates[u]) && StateOk(a.solution.outStates[u])
  {
    hide StrictSsa, ConstantsSmall, IsCmpMap, IsCopyMap, StateOk;
    var pb := ProblemOf(f, a.cfg, headers, cmps, copies);
    assert StateLaws.ok(a.solution.inStates[u]) && StateLaws.ok(a.solution.outStates[u]);
  }

  /** Every store before instruction `i` of visit `k` lies in the intervals computed for that point. */
  lemma {:induction false} RunStaysInside(f: Function, a: Analysis, headers: set<nat>, cmps: map<nat, RValue>,
                                          copies: map<nat, nat>, run: seq<Visit>, k: nat, i: nat)
    requires Usable(f, a, headers, cmps, copies) && IsRun(f, run) && Faithful(f, run)
    requires k < |run| && i < |run[k].stores|
    ensures run[k].node < |f.blocks| == |a.solution.inStates| && i <= |f.blocks[run[k].node].insts|
    ensures Models(ApplyFirst(f.blocks[run[k].node].insts, i, a.solution.inStates[run[k].node]), run[k].stores[i])
    decreases k, i
  {
    hide *;
    VisitFacts(f, run, k);
    var u := run[k].node;
    SolvedStates(f, a, headers, cmps, copies, u);
    FirstOfNone(f.blocks[u].insts, a.solution.inStates[u]);
    if i > 0 {
      RunStaysInside(f, a, headers, cmps, copies, run, k, i - 1);
      UsableConstants(f, a, headers, cmps, copies);
      StepInside(f, a, run, k, i, a.solution.inStates[u]);
    } else if k == 0 {
      EntryInside(f, a, headers, cmps, copies, run);
    } else {
      VisitFacts(f, run, k - 1);
      FinalIs(run[k - 1]);
      RunStaysInside(f, a, headers, cmps, copies, run, k - 1, |run[k - 1].stores| - 1);
      EdgeInside(f, a, headers, cmps, copies, run, k);
    }
  }

  lemma FinalIs(v: Visit)
    requires v.stores != []
    ensures Final(v) == v.stores[|v.stores| - 1]
  {
  }

  lemma FirstOfNone(insts: seq<Inst>, st: State)
    ensures ApplyFirst(insts, 0, st) == st
  {
  }

  lemma UsableConstants(f: Function, a: Analysis, headers: set<nat>, cmps: map<nat, RValue>, copies: map<nat, nat>)
    requires Usable(f, a, headers, cmps, copies)
    ensures ConstantsSmall(f)
  {
  }

  lemma StepInside(f: Function, a: Analysis, run: seq<Visit>, k: nat, i: nat, st: State)
    requires ConstantsSmall(f) && IsRun(f, run) && Faithful(f, run) && StateOk(st)
    requires k < |run| && 0 < i < |run[k].stores| && run[k].node < |f.blocks|
    requires i <= |f.blocks[run[k].node].insts|
    requires Models(ApplyFirst(f.blocks[run[k].node].insts, i - 1, st), run[k].stores[i - 1])
    ensures Models(ApplyFirst(f.blocks[run[k].node].insts, i, st), run[k].stores[i])
  {
    var insts := f.blocks[run[k].node].insts;
    assert IsVisit(f, run[k]);
    assert Steps(insts[i - 1], run[k].stores[i - 1], run[k].stores[i]);
    assert ZExtPlainAt(f, run[k], i - 1);
    assert StoreSmall(run[k].stores[i - 1]) && StoreSmall(run[k].stores[i]);
    assert forall j: nat :: j < |insts| ==> InstSmall(insts[j]);
    hide ConstantsSmall, IsRun, Faithful, StateOk, Models, StoreSmall, InstSmall, Steps, ZExtPlain;
    ApplyFirstOk(insts, i - 1, st);
    ApplyInstSound(insts[i - 1], ApplyFirst(insts, i - 1, st), run[k].stores[i - 1], run[k].stores[i]);
  }

  lemma EntryInside(f: Function, a: Analysis, headers: set<nat>, cmps: map<nat, RValue>, copies: map<nat, nat>,
                    run: seq<Visit>)
    requires Usable(f, a, headers, cmps, copies) && IsRun(f, run)
    ensures run[0].node < |a.solution.inStates| && Models(a.solution.inStates[run[0].node], run[0].stores[0])
  {
    var pb := ProblemOf(f, a.cfg, headers, cmps, copies);
    EntryNode(f, a.cfg, run);
    ReachRefl(a.cfg.g, a.cfg.entry);
    ProblemPosed(f, a.cfg, headers, cmps, copies);
    SolvedStates(f, a, headers, cmps, copies, a.cfg.entry);
    Engine.FlowsIn(pb, StateLaws, a.solution, 0, a.cfg.entry);
    LeqModels(TopState, a.solution.inStates[a.cfg.entry], run[0].stores[0]);
  }

  /** A node whose entry state models a store has the exit state its instructions compute. */
  lemma ExitState(f: Function, a: Analysis, headers: set<nat>, cmps: map<nat, RValue>, copies: map<nat, nat>,
                  u: nat, s: Store)
    requires Usable(f, a, headers, cmps, copies) && Graphs.Reachable(a.cfg.g, a.cfg.entry, u) && u < |f.blocks|
    requires |a.solution.inStates| == |a.solution.outStates| == |f.blocks|
    requires Models(ApplyFirst(f.blocks[u].insts, |f.blocks[u].insts|, a.solution.inStates[u]), s)
    ensures Models(a.solution.outStates[u], s)
  {
    var pb := ProblemOf(f, a.cfg, headers, cmps, copies);
    ProblemPosed(f, a.cfg, headers, cmps, copies);
    Engine.FlowsIn(pb, StateLaws, a.solution, 0, u);
    LookupNode(f, u);
    hide StrictSsa, ConstantsSmall, IsCmpMap, IsCopyMap, Engine.WellPosed, Engine.PostFixpoint, DistinctIds;
    if a.solution.inStates[u].Unreachable? {
      ApplyUnreachable(f.blocks[u].insts, |f.blocks[u].insts|);
    } else {
      assert pb.transfer(u, a.solution.inStates[u]) == TransferBlock(f, a.cfg, u, a.solution.inStates[u]);
    }
  }

  lemma {:induction false} ApplyUnreachable(insts: seq<Inst>, n: nat)
    requires n <= |insts|
    ensures ApplyFirst(insts, n, State.Unreachable) == State.Unreachable
  {
    if n > 0 {
      ApplyUnreachable(insts, n - 1);
    }
  }

  lemma FinalSmall(f: Function, run: seq<Visit>, k: nat)
    requires Faithful(f, run) && k < |run| && run[k].stores != []
    ensures StoreSmall(Final(run[k]))
  {
    assert StoreSmall(run[k].stores[|run[k].stores| - 1]);
  }

  /** What crosses an edge of the run is inside the solver's contribution for that edge. */
  lemma EdgeCovers(f: Function, a: Analysis, headers: set<nat>, cmps: map<nat, RValue>, copies: map<nat, nat>,
                   run: seq<Visit>, k: nat, st: State)
    requires Usable(f, a, headers, cmps, copies) && IsRun(f, run) && Faithful(f, run) && 0 < k < |run|
    requires Follows(f, run[k - 1], run[k]) && StateOk(st) && Models(st, Final(run[k - 1]))
    ensures Models(TransferEdge(f, a.cfg, run[k - 1].node, run[k].node, st, cmps, copies), run[k].stores[0])
  {
    var v, u := run[k - 1], run[k].node;
    FinalSmall(f, run, k - 1);
    RecordsAtBranch(f, a.cfg, run, k - 1);
    hide IsRun, Faithful, StrictSsa, AllRecords, Engine.PostFixpoint, StoreSmall;
    LookupNode(f, v.node);
    LookupNode(f, u);
    CfgIds(f, a.cfg, v.node);
    CfgIds(f, a.cfg, u);
    hide IsRun, Faithful, Engine.PostFixpoint, IsCfg, StateOk, Models, EdgeState, StrictSsa, AllRecords,
      IsCmpMap, IsCopyMap, ConstantsSmall, Passes, StoreSmall, DistinctIds;
    EdgeStateSound(f, a.cfg, v, f.blocks[u], run[k].stores[0], st, cmps, copies);
    ModelsReachable(st, Final(v));
  }

  /** The solver's inequality for an edge between visited blocks. */
  lemma EdgeFlows(f: Function, a: Analysis, headers: set<nat>, cmps: map<nat, RValue>, copies: map<nat, nat>,
                  v: nat, u: nat)
    requires Usable(f, a, headers, cmps, copies) && a.cfg.g.Edge(v, u) && u < |f.blocks| && v < |f.blocks|
    requires Graphs.Reachable(a.cfg.g, a.cfg.entry, u)
    ensures |a.solution.inStates| == |a.solution.outStates| == |f.blocks|
    ensures LeqS(TransferEdge(f, a.cfg, v, u, a.solution.outStates[v], cmps, copies), a.solution.inStates[u])
  {
    var pb := ProblemOf(f, a.cfg, headers, cmps, copies);
    SolvedStates(f, a, headers, cmps, copies, v);
    ProblemPosed(f, a.cfg, headers, cmps, copies);
    CfgIds(f, a.cfg, v);
    hide StrictSsa, ConstantsSmall, IsCmpMap, IsCopyMap, Engine.WellPosed, Engine.PostFixpoint, DistinctIds,
      StateOk, LeqS, TransferEdge, Graphs.Reachable;
    Engine.FlowsIn(pb, StateLaws, a.solution, v, u);
  }

  lemma EdgeInside(f: Function, a: Analysis, headers: set<nat>, cmps: map<nat, RValue>, copies: map<nat, nat>,
                   run: seq<Visit>, k: nat)
    requires Usable(f, a, headers, cmps, copies) && IsRun(f, run) && Faithful(f, run) && 0 < k < |run|
    requires Follows(f, run[k - 1], run[k])
    requires |a.solution.inStates| == |f.blocks|
    requires var v := run[k - 1];
             Models(ApplyFirst(f.blocks[v.node].insts, |f.blocks[v.node].insts|, a.solution.inStates[v.node]), Final(v))
    ensures Models(a.solution.inStates[run[k].node], run[k].stores[0])
  {
    var v, u := run[k - 1], run[k].node;
    VisitFacts(f, run, k);
    UsableCfg(f, a, headers, cmps, copies);
    EdgeTaken(f, a.cfg, run, k);
    hide Usable, IsRun, Faithful, StateOk, Models, LeqS, TransferEdge, Follows, Graphs.Reachable, IsCfg, DistinctIds,
      Passes, Steps, ApplyFirst;
    SolvedStates(f, a, headers, cmps, copies, v.node);
    ExitState(f, a, headers, cmps, copies, v.node, Final(v));
    var st := a.solution.outStates[v.node];
    EdgeCovers(f, a, headers, cmps, copies, run, k, st);
    EdgeFlows(f, a, headers, cmps, copies, v.node, u);
    LeqModels(TransferEdge(f, a.cfg, v.node, u, st, cmps, copies), a.solution.inStates[u], run[k].stores[0]);
  }

  lemma UsableCfg(f: Function, a: Analysis, headers: set<nat>, cmps: map<nat, RValue>, copies: map<nat, nat>)
    requires Usable(f, a, headers, cmps, copies)
    ensures DistinctIds(f) && IsCfg(f, a.cfg)
  {
  }

  lemma ModelsReachable(st: State, s: Store)
    requires Models(st, s)
    ensures st.Reachable?
  {
  }

  // ------------------------------------------------------------- queries

  /** The state before an instruction, rebuilt from the block-entry invariant. */
  function StateBefore(f: Function, a: Analysis, block: nat, index: nat): Option<State> {
    if block in a.cfg.indexOf && a.cfg.indexOf[block] < |a.solution.inStates| then
      var entry := a.solution.inStates[a.cfg.indexOf[block]];
      match Lookup(f, block)
      case Some(b) => Some(ApplyFirst(b.insts, if index < |b.insts| then index else |b.insts|, entry))
      case None => Some(entry)
    else None
  }

  /** The interval of a register before an instruction; top for unknown or unreachable blocks. */
  function IntervalAt(f: Function, a: Analysis, block: nat, index: nat, reg: nat): Interval {
    match StateBefore(f, a, block, index)
    case Some(st) => if st.Unreachable? then Top else Get(st, reg)
    case None => Top
  }

  /** Decide a condition before an instruction; it holds vacuously where no execution arrives. */
  function EvalCondition(f: Function, a: Analysis, block: nat, index: nat, c: Conditions.Condition)
    : Conditions.Trivalent
  {
    match StateBefore(f, a, block, index)
    case Some(st) => if st.Unreachable? then Conditions.Yes else Conditions.Eval(c, st)
    case None => Conditions.Unknown
  }

  lemma QueryState(f: Function, a: Analysis, run: seq<Visit>, k: nat, i: nat)
    requires DistinctIds(f) && ConstantsSmall(f) && f.blocks != [] && IsAnalysis(f, a) && StrictSsa(f, a.cfg)
    requires IsRun(f, run) && Faithful(f, run) && k < |run| && i < |run[k].stores|
    ensures run[k].node < |f.blocks|
    ensures StateBefore(f, a, f.blocks[run[k].node].id, i).Some?
    ensures Models(StateBefore(f, a, f.blocks[run[k].node].id, i).value, run[k].stores[i])
  {
    var headers: set<nat>, cmps: map<nat, RValue>, copies: map<nat, nat> :| Solves(f, a, headers, cmps, copies);
    RunStaysInside(f, a, headers, cmps, copies, run, k, i);
    var u := run[k].node;
    LookupNode(f, u);
    var id := f.blocks[u].id;
    assert id in a.cfg.indexOf && f.blocks[a.cfg.indexOf[id]].id == id;
    assert a.cfg.indexOf[id] == u;
  }

  /** The reported interval holds the register's value at that point of every run. */
  lemma IntervalAtSound(f: Function, a: Analysis, run: seq<Visit>, k: nat, i: nat, reg: nat)
    requires DistinctIds(f) && ConstantsSmall(f) && f.blocks != [] && IsAnalysis(f, a) && StrictSsa(f, a.cfg)
    requires IsRun(f, run) && Faithful(f, run) && k < |run| && i < |run[k].stores|
    ensures run[k].node < |f.blocks|
    ensures Has(IntervalAt(f, a, f.blocks[run[k].node].id, i, reg), Val(run[k].stores[i], reg))
  {
    QueryState(f, a, run, k, i);
    ModelsGet(StateBefore(f, a, f.blocks[run[k].node].id, i).value, run[k].stores[i], reg);
  }

  /** A definite verdict on a condition is right at that point of every run. */
  lemma EvalConditionSound(f: Function, a: Analysis, run: seq<Visit>, k: nat, i: nat, c: Conditions.Condition,
                           o: nat -> int)
    requires DistinctIds(f) && ConstantsSmall(f) && f.blocks != [] && IsAnalysis(f, a) && StrictSsa(f, a.cfg)
    requires IsRun(f, run) && Faithful(f, run) && k < |run| && i < |run[k].stores|
    requires Conditions.SignsAgree(c, run[k].stores[i], o)
    ensures run[k].node < |f.blocks|
    ensures EvalCondition(f, a, f.blocks[run[k].node].id, i, c) == Conditions.Yes ==>
              Conditions.Holds(c, run[k].stores[i], o)
    ensures EvalCondition(f, a, f.blocks[run[k].node].id, i, c) == Conditions.No ==>
              !Conditions.Holds(c, run[k].stores[i], o)
  {
    QueryState(f, a, run, k, i);
    Conditions.EvalSound(c, StateBefore(f, a, f.blocks[run[k].node].id, i).value, run[k].stores[i], o);
  }
}
