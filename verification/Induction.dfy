/**
 Counting loops that leave on equality: recognising them, and what the counter
 does in every run (crates/absint/src/induction.rs:64-174, 247-323).
 */
module Induction {
  import opened Wrappers
  import opened Graphs
  import opened Ir
  import opened Ssa
  import opened Loops
  import Dominators
  import Relational
  import opened BranchSides

  /** The register counts up by `stride` until it equals `bound`. */
  datatype IndVar = IndVar(reg: nat, bound: Operand, stride: int)

  datatype ExitShape = ExitShape(reg: nat, bound: Operand, latch: nat, pos: nat)

  // ------------------------------------------------------------ recognition

  /** The comparison a register is assigned in a block: the first one. */
  function FindCmp(insts: seq<Inst>, c: nat, i: nat): Option<nat>
    requires i <= |insts|
    decreases |insts| - i
  {
    if i == |insts| then None
    else if insts[i].Assign? && insts[i].dst == c && insts[i].value.Cmp? then Some(i)
    else FindCmp(insts, c, i + 1)
  }

  lemma {:induction false} FindCmpIs(insts: seq<Inst>, c: nat, i: nat)
    requires i <= |insts| && FindCmp(insts, c, i).Some?
    ensures var j := FindCmp(insts, c, i).value;
            j < |insts| && insts[j].Assign? && insts[j].dst == c && insts[j].value.Cmp?
    decreases |insts| - i
  {
    if !(insts[i].Assign? && insts[i].dst == c && insts[i].value.Cmp?) {
      FindCmpIs(insts, c, i + 1);
    }
  }

  /** Which side of the comparison is a header parameter, and what it is compared with. */
  function InductionAndBound(params: seq<nat>, lhs: Operand, rhs: Operand): Option<(nat, Operand)> {
    if lhs.Reg? && lhs.r in params then Some((lhs.r, rhs))
    else if rhs.Reg? && rhs.r in params then Some((rhs.r, lhs))
    else None
  }

  predicate InBody(cfg: Cfg, l: Loop, id: nat) {
    id in cfg.indexOf && cfg.indexOf[id] in l.body
  }

  predicate Defines(b: Block, r: nat) {
    r in b.params || exists i :: 0 <= i < |b.insts| && DefinedReg(b.insts[i]) == Some(r)
  }

  predicate DefinesAt(f: Function, cfg: Cfg, node: nat, r: nat) {
    node < |cfg.blocks| && Lookup(f, cfg.blocks[node]).Some? && Defines(Lookup(f, cfg.blocks[node]).value, r)
  }

  predicate DefinedInLoop(f: Function, cfg: Cfg, l: Loop, r: nat) {
    exists node :: node in l.body && DefinesAt(f, cfg, node, r)
  }

  function Position(params: seq<nat>, r: nat, i: nat): Option<nat>
    requires i <= |params|
    decreases |params| - i
  {
    if i == |params| then None else if params[i] == r then Some(i) else Position(params, r, i + 1)
  }

  lemma {:induction false} PositionIs(params: seq<nat>, r: nat, i: nat)
    requires i <= |params| && Position(params, r, i).Some?
    ensures Position(params, r, i).value < |params| && params[Position(params, r, i).value] == r
    decreases |params| - i
  {
    if params[i] != r {
      PositionIs(params, r, i + 1);
    }
  }

  /** The edge that stays in the loop is the one taken while the operands differ. */
  predicate ContinuesOnDifference(cop: CmpOp, thenIn: bool, elseIn: bool) {
    thenIn != elseIn && (cop == Ne || cop == Eq) && thenIn == (cop == Ne)
  }

  function ExitShapeOf(f: Function, cfg: Cfg, l: Loop): Option<ExitShape> {
    if |l.latches| != 1 || l.header >= |cfg.blocks| then None
    else
      match Lookup(f, cfg.blocks[l.header])
      case None => None
      case Some(header) =>
        if !header.term.CondBr? || !header.term.cond.Reg? then None
        else
          match FindCmp(header.insts, header.term.cond.r, 0)
          case None => None
          case Some(j) =>
            if j < |header.insts| && header.insts[j].Assign? && header.insts[j].value.Cmp? then
              ShapeOf(f, cfg, l, header, header.insts[j].value)
            else None
  }

  function ShapeOf(f: Function, cfg: Cfg, l: Loop, header: Block, cmp: RValue): Option<ExitShape>
    requires |l.latches| == 1 && header.term.CondBr? && cmp.Cmp?
  {
    if !ContinuesOnDifference(cmp.cop, InBody(cfg, l, header.term.thenBlk),
                              InBody(cfg, l, header.term.elseBlk)) then None
    else
      match InductionAndBound(header.params, cmp.lhs, cmp.rhs)
      case None => None
      case Some((reg, bound)) =>
        if bound.Reg? && DefinedInLoop(f, cfg, l, bound.r) then None
        else
          match Position(header.params, reg, 0)
          case None => None
          case Some(pos) => Some(ExitShape(reg, bound, l.latches[0], pos))
  }

  /** The register passed back to the header for the induction parameter. */
  function BackEdgeNext(f: Function, cfg: Cfg, l: Loop, s: ExitShape): Option<nat> {
    if s.latch >= |cfg.blocks| || l.header >= |cfg.blocks| then None
    else
      match Lookup(f, cfg.blocks[s.latch])
      case None => None
      case Some(latch) =>
        match Relational.EdgeArgsOf(latch.term, cfg.blocks[l.header])
        case None => None
        case Some(args) => if s.pos < |args| && args[s.pos].Reg? then Some(args[s.pos].r) else None
  }

  /** The signed constant that `inst` adds to `base`. */
  function StepOf(inst: Inst, base: nat): Option<int> {
    if inst.Assign? && IsStep(inst.value) && inst.value.lhs.r == base
    then Some(if inst.value.bop.Sub? then -inst.value.rhs.v else inst.value.rhs.v) else None
  }

  /** Instruction `j` of a body block defines `nv` as `base` plus `c`. */
  ghost predicate StepAt(f: Function, cfg: Cfg, l: Loop, nv: nat, base: nat, c: int, node: nat, j: nat) {
    && node in l.body && node < |cfg.blocks| && Lookup(f, cfg.blocks[node]).Some?
    && var b := Lookup(f, cfg.blocks[node]).value;
       j < |b.insts| && DefinedReg(b.insts[j]) == Some(nv) && StepOf(b.insts[j], base) == Some(c)
  }

  ghost predicate StepIn(f: Function, cfg: Cfg, l: Loop, nv: nat, base: nat, c: int) {
    exists node: nat, j: nat :: StepAt(f, cfg, l, nv, base, c, node, j)
  }

  /** Every definition of `nv` in the loop is that step. */
  ghost predicate OnlySteps(f: Function, cfg: Cfg, l: Loop, nv: nat, base: nat, c: int) {
    forall node: nat :: node in l.body ==> NodeSteps(f, cfg, nv, base, c, node)
  }

  ghost predicate NodeSteps(f: Function, cfg: Cfg, nv: nat, base: nat, c: int, node: nat) {
    && node < |cfg.blocks| && Lookup(f, cfg.blocks[node]).Some?
    && forall j: nat :: j < |Lookup(f, cfg.blocks[node]).value.insts| ==>
         DefinedReg(Lookup(f, cfg.blocks[node]).value.insts[j]) == Some(nv) ==>
         StepOf(Lookup(f, cfg.blocks[node]).value.insts[j], base) == Some(c)
  }

  ghost predicate NoneIn(f: Function, cfg: Cfg, nv: nat, node: nat) {
    && node < |cfg.blocks| && Lookup(f, cfg.blocks[node]).Some?
    && forall j: nat :: j < |Lookup(f, cfg.blocks[node]).value.insts| ==>
         DefinedReg(Lookup(f, cfg.blocks[node]).value.insts[j]) != Some(nv)
  }

  /** Search the loop, in some order, for the definition of `nv`; it must be a constant step of `base`. */
  method SelfIncrement(f: Function, cfg: Cfg, l: Loop, nv: nat, base: nat) returns (r: Option<int>)
    requires forall node: nat :: node in l.body ==> node < |cfg.blocks|
    ensures r.Some? ==> StepIn(f, cfg, l, nv, base, r.value)
    ensures forall c: int :: StepIn(f, cfg, l, nv, base, c) && OnlySteps(f, cfg, l, nv, base, c) ==> r == Some(c)
  {
    hide Lookup;
    var left := l.body;
    while left != {}
      invariant left <= l.body
      invariant forall node: nat :: node in l.body ==> NoneIn(f, cfg, nv, node) || node in left
    {
      var node :| node in left;
      left := left - {node};
      var found := Lookup(f, cfg.blocks[node]);
      if found.None? {
        assert forall c: int :: !NodeSteps(f, cfg, nv, base, c, node);
        return None;
      }
      var insts := found.value.insts;
      for j := 0 to |insts|
        invariant forall k: nat :: k < j ==> DefinedReg(insts[k]) != Some(nv)
      {
        if DefinedReg(insts[j]) == Some(nv) {
          r := StepOf(insts[j], base);
          assert r.Some? ==> StepAt(f, cfg, l, nv, base, r.value, node, j);
          assert forall c: int :: NodeSteps(f, cfg, nv, base, c, node) ==> r == Some(c);
          return;
        }
      }
    }
    NoStepLeft(f, cfg, l, nv, base);
    r := None;
  }

  lemma NoStepLeft(f: Function, cfg: Cfg, l: Loop, nv: nat, base: nat)
    requires forall node: nat :: node in l.body ==> NoneIn(f, cfg, nv, node)
    ensures forall c: int :: !StepIn(f, cfg, l, nv, base, c)
  {
    hide Lookup;
  }

  ghost predicate Recognized(f: Function, cfg: Cfg, l: Loop, iv: IndVar) {
    exists s: ExitShape, nv: nat :: RecognizedBy(f, cfg, l, iv, s, nv)
  }

  ghost predicate RecognizedBy(f: Function, cfg: Cfg, l: Loop, iv: IndVar, s: ExitShape, nv: nat) {
    && ExitShapeOf(f, cfg, l) == Some(s) && BackEdgeNext(f, cfg, l, s) == Some(nv)
    && StepIn(f, cfg, l, nv, s.reg, iv.stride) && iv.stride > 0 && iv.reg == s.reg && iv.bound == s.bound
  }

  /** Recognised, and by the only definition there is. */
  ghost predicate Recognizable(f: Function, cfg: Cfg, l: Loop, iv: IndVar) {
    exists s: ExitShape, nv: nat :: RecognizedBy(f, cfg, l, iv, s, nv) && OnlySteps(f, cfg, l, nv, s.reg, iv.stride)
  }

  /** Recognise an integer counter that leaves on equality. */
  method RecognizeInt(f: Function, cfg: Cfg, l: Loop) returns (r: Option<IndVar>)
    requires forall node: nat :: node in l.body ==> node < |cfg.blocks|
    ensures r.Some? ==> Recognized(f, cfg, l, r.value)
    ensures forall iv: IndVar :: Recognizable(f, cfg, l, iv) ==> r == Some(iv)
    ensures Setting(f, cfg, l) ==> forall iv: IndVar :: r == Some(iv) <==> CountsUp(f, l, iv)
  {
    hide ExitShapeOf, BackEdgeNext, StepIn, OnlySteps, Setting, CountsUp;
    forall iv: IndVar | Setting(f, cfg, l)
      ensures CountsUp(f, l, iv) <==> Recognized(f, cfg, l, iv)
      ensures CountsUp(f, l, iv) <==> Recognizable(f, cfg, l, iv)
    {
      CountsExactly(f, cfg, l, iv);
    }
    r := None;
    var shape := ExitShapeOf(f, cfg, l);
    if shape.None? {
      return;
    }
    var s := shape.value;
    var next := BackEdgeNext(f, cfg, l, s);
    if next.None? {
      return;
    }
    var stride := SelfIncrement(f, cfg, l, next.value, s.reg);
    if stride.None? || stride.value <= 0 {
      return;
    }
    r := Some(IndVar(s.reg, s.bound, stride.value));
    assert RecognizedBy(f, cfg, l, r.value, s, next.value);
  }

  /** The counter was recognised in a loop of the function whose header is block `id`. */
  ghost predicate FoundIn(f: Function, cfg: Cfg, l: Loop, id: nat, iv: IndVar) {
    && IsLoop(cfg.g, cfg.entry, l) && LatchPerEdge(cfg.g, l)
    && l.header < |cfg.blocks| && cfg.blocks[l.header] == id && Recognized(f, cfg, l, iv)
  }

  ghost predicate AllFound(f: Function, cfg: Cfg, loops: seq<Loop>, byHeader: map<nat, seq<IndVar>>) {
    forall id: nat, iv: IndVar :: id in byHeader && iv in byHeader[id] ==>
      exists i: nat :: i < |loops| && FoundIn(f, cfg, loops[i], id, iv)
  }

  ghost predicate NoneMissed(f: Function, cfg: Cfg, loops: seq<Loop>, byHeader: map<nat, seq<IndVar>>, n: nat) {
    forall i: nat, iv: IndVar :: i < |loops| && i < n && Recognizable(f, cfg, loops[i], iv) ==>
      Entered(cfg, loops[i], byHeader, iv)
  }

  /** Under a header's id are the counters its loop has by its text, and nothing else. */
  ghost predicate CountersListed(f: Function, loops: seq<Loop>, byHeader: map<nat, seq<IndVar>>) {
    forall id: nat, iv: IndVar :: (id in byHeader && iv in byHeader[id]) <==> CountsUnderSome(f, loops, id, iv)
  }

  ghost predicate CountsUnderSome(f: Function, loops: seq<Loop>, id: nat, iv: IndVar) {
    exists i: nat :: i < |loops| && CountsUnder(f, loops[i], id, iv)
  }

  ghost predicate CountsUnder(f: Function, l: Loop, id: nat, iv: IndVar) {
    l.header < |f.blocks| && f.blocks[l.header].id == id && CountsUp(f, l, iv)
  }

  ghost predicate AllLoops(cfg: Cfg, loops: seq<Loop>) {
    forall i: nat :: i < |loops| ==> IsLoop(cfg.g, cfg.entry, loops[i]) && LatchPerEdge(cfg.g, loops[i])
  }

  ghost predicate Entered(cfg: Cfg, l: Loop, byHeader: map<nat, seq<IndVar>>, iv: IndVar) {
    l.header < |cfg.blocks| && cfg.blocks[l.header] in byHeader && iv in byHeader[cfg.blocks[l.header]]
  }

  /** Recognise the integer counters of every natural loop. */
  method AnalyzeInduction(f: Function) returns (cfg: Cfg, loops: seq<Loop>, byHeader: map<nat, seq<IndVar>>)
    requires f.blocks != []
    ensures IsCfg(f, cfg) && Listed(f, cfg)
    ensures AllFound(f, cfg, loops, byHeader) && NoneMissed(f, cfg, loops, byHeader, |loops|)
    ensures AllLoops(cfg, loops)
    ensures forall n: nat, h: nat :: BackEdge(cfg.g, cfg.entry, n, h) ==>
              exists i :: 0 <= i < |loops| && loops[i].header == h
    ensures DistinctIds(f) && StrictSsa(f, cfg) ==> CountersListed(f, loops, byHeader)
  {
    hide IsCfg, Listed, IsLoop, LatchPerEdge, BackEdge, Recognized, Recognizable, FoundIn, Entered;
    hide DistinctIds, StrictSsa, CountersListed, CountsUp, Setting;
    cfg := FromFunction(f);
    CfgFacts(f, cfg);
    var dominators := Dominators.Build(cfg.g.N(), cfg.entry, cfg.g);
    loops := Detect(cfg.g, cfg.entry, dominators);
    byHeader := map[];
    for i := 0 to |loops|
      invariant AllFound(f, cfg, loops, byHeader) && NoneMissed(f, cfg, loops, byHeader, i)
    {
      LoopNodes(f, cfg, loops[i]);
      var header := cfg.blocks[loops[i].header];
      var found := RecognizeInt(f, cfg, loops[i]);
      if found.Some? {
        var sofar := if header in byHeader then byHeader[header] else [];
        FoundMore(f, cfg, loops, byHeader, i, sofar, found.value);
        byHeader := byHeader[header := sofar + [found.value]];
      }
    }
    if DistinctIds(f) && StrictSsa(f, cfg) {
      ListedByText(f, cfg, loops, byHeader);
    }
  }

  lemma ListedByText(f: Function, cfg: Cfg, loops: seq<Loop>, byHeader: map<nat, seq<IndVar>>)
    requires IsCfg(f, cfg) && Listed(f, cfg) && DistinctIds(f) && StrictSsa(f, cfg) && AllLoops(cfg, loops)
    requires AllFound(f, cfg, loops, byHeader) && NoneMissed(f, cfg, loops, byHeader, |loops|)
    ensures CountersListed(f, loops, byHeader)
  {
    hide IsCfg, Listed, DistinctIds, StrictSsa, IsLoop, LatchPerEdge, CountsUp, Recognized, Recognizable, Setting;
    forall i: nat, iv: IndVar | i < |loops|
      ensures Setting(f, cfg, loops[i]) && loops[i].header < |cfg.blocks| == |f.blocks|
      ensures cfg.blocks[loops[i].header] == f.blocks[loops[i].header].id
      ensures CountsUp(f, loops[i], iv) <==> Recognized(f, cfg, loops[i], iv)
      ensures CountsUp(f, loops[i], iv) <==> Recognizable(f, cfg, loops[i], iv)
    {
      SettingIntro(f, cfg, loops[i]);
      HeaderNode(f, cfg, loops[i]);
      NodeId(f, cfg, loops[i], loops[i].header);
      CountsExactly(f, cfg, loops[i], iv);
    }
    forall id: nat, iv: IndVar
      ensures (id in byHeader && iv in byHeader[id]) <==> CountsUnderSome(f, loops, id, iv)
    {
      if id in byHeader && iv in byHeader[id] {
        var i: nat :| i < |loops| && FoundIn(f, cfg, loops[i], id, iv);
        assert CountsUnder(f, loops[i], id, iv);
      }
      if i: nat :| i < |loops| && CountsUnder(f, loops[i], id, iv) {
        assert Entered(cfg, loops[i], byHeader, iv);
      }
    }
  }

  lemma SettingIntro(f: Function, cfg: Cfg, l: Loop)
    requires DistinctIds(f) && IsCfg(f, cfg) && StrictSsa(f, cfg) && IsLoop(cfg.g, cfg.entry, l)
    requires Listed(f, cfg) && LatchPerEdge(cfg.g, l)
    ensures Setting(f, cfg, l)
  {
  }

  lemma LoopNodes(f: Function, cfg: Cfg, l: Loop)
    requires IsCfg(f, cfg) && IsLoop(cfg.g, cfg.entry, l)
    ensures l.header < |cfg.blocks| && forall node: nat :: node in l.body ==> node < |cfg.blocks|
  {
    forall node: nat | node in l.body ensures node < |cfg.blocks| {
      if node != l.header {
        var p :| LatchPath(cfg.g, l.header, l.latches, node, p);
        if |p| == 1 {
          assert BackEdge(cfg.g, cfg.entry, node, l.header);
        } else {
          assert cfg.g.Edge(p[0], p[1]);
        }
      }
    }
  }

  lemma FoundMore(f: Function, cfg: Cfg, loops: seq<Loop>, byHeader: map<nat, seq<IndVar>>, i: nat,
                  sofar: seq<IndVar>, iv: IndVar)
    requires AllFound(f, cfg, loops, byHeader) && NoneMissed(f, cfg, loops, byHeader, i) && i < |loops|
    requires IsLoop(cfg.g, cfg.entry, loops[i]) && LatchPerEdge(cfg.g, loops[i]) && Recognized(f, cfg, loops[i], iv)
    requires forall other: IndVar :: Recognizable(f, cfg, loops[i], other) ==> other == iv
    requires loops[i].header < |cfg.blocks|
    requires var header := cfg.blocks[loops[i].header]; sofar == if header in byHeader then byHeader[header] else []
    ensures var after := byHeader[cfg.blocks[loops[i].header] := sofar + [iv]];
            AllFound(f, cfg, loops, after) && NoneMissed(f, cfg, loops, after, i + 1)
  {
    hide IsLoop, LatchPerEdge, Recognized, Recognizable;
    var header := cfg.blocks[loops[i].header];
    var after := byHeader[header := sofar + [iv]];
    assert FoundIn(f, cfg, loops[i], header, iv);
    forall k: nat, v: IndVar | k < |loops| && k < i + 1 && Recognizable(f, cfg, loops[k], v)
      ensures Entered(cfg, loops[k], after, v)
    {
      if k < i {
        assert Entered(cfg, loops[k], byHeader, v);
      }
    }
  }

  // ------------------------------------------------------------ what recognition found

  /** A loop of a single-assignment function, as loop detection finds it: with one latch entry for each back edge. */
  ghost predicate Setting(f: Function, cfg: Cfg, l: Loop) {
    && DistinctIds(f) && IsCfg(f, cfg) && StrictSsa(f, cfg) && IsLoop(cfg.g, cfg.entry, l)
    && Listed(f, cfg) && LatchPerEdge(cfg.g, l)
  }

  /** Definitions dominate their use as an argument of the latch's branch. */
  ghost predicate ArgumentDefined(f: Function, cfg: Cfg, u: nat, r: nat) {
    forall d: nat, k: nat :: DefAt(f, d, k, r) ==> Dominates(cfg.g, cfg.entry, d, u)
  }

  ghost predicate LatchPasses(f: Function, l: Loop, u: nat, pos: nat, r: nat) {
    u < |f.blocks| && l.header < |f.blocks| && Passed(f.blocks[u].term, f.blocks[l.header].id, pos, r)
  }

  /** Single assignment at the back edge: what it passes to the header is defined on every path to it. */
  ghost predicate LatchArgumentsDefined(f: Function, cfg: Cfg, l: Loop) {
    forall u: nat, pos: nat, r: nat :: u in l.latches && LatchPasses(f, l, u, pos, r) ==> ArgumentDefined(f, cfg, u, r)
  }

  /** Everything the proof uses about a recognised loop. */
  datatype Facts = Facts(latch: nat, pos: nat, nv: nat, cmpAt: nat, stepNode: nat, stepAt: nat)

  ghost predicate HeaderTests(b: Block, iv: IndVar, j: nat) {
    && b.term.CondBr? && b.term.cond.Reg? && j < |b.insts| && b.insts[j].Assign? && b.insts[j].dst == b.term.cond.r
    && b.insts[j].value.Cmp? && (b.insts[j].value.cop == Ne || b.insts[j].value.cop == Eq)
    && ((b.insts[j].value.lhs == Reg(iv.reg) && b.insts[j].value.rhs == iv.bound) ||
        (b.insts[j].value.rhs == Reg(iv.reg) && b.insts[j].value.lhs == iv.bound))
  }

  ghost predicate HeaderStays(cfg: Cfg, l: Loop, b: Block, j: nat)
    requires j < |b.insts| && b.insts[j].Assign? && b.insts[j].value.Cmp? && b.term.CondBr?
  {
    ContinuesOnDifference(b.insts[j].value.cop, InBody(cfg, l, b.term.thenBlk), InBody(cfg, l, b.term.elseBlk))
  }

  ghost predicate HeaderFacts(f: Function, cfg: Cfg, l: Loop, iv: IndVar, x: Facts) {
    && l.header < |f.blocks| && HeaderTests(f.blocks[l.header], iv, x.cmpAt)
    && HeaderStays(cfg, l, f.blocks[l.header], x.cmpAt)
    && x.pos < |f.blocks[l.header].params| && f.blocks[l.header].params[x.pos] == iv.reg
    && (iv.bound.Reg? ==> !DefinedInLoop(f, cfg, l, iv.bound.r))
  }

  ghost predicate LatchFacts(f: Function, l: Loop, x: Facts) {
    && l.header < |f.blocks| && x.latch < |f.blocks| && l.latches == [x.latch]
    && Passed(f.blocks[x.latch].term, f.blocks[l.header].id, x.pos, x.nv)
  }

  ghost predicate StepFacts(f: Function, iv: IndVar, x: Facts) {
    && iv.stride > 0 && x.stepNode < |f.blocks| && x.stepAt < |f.blocks[x.stepNode].insts|
    && DefinedReg(f.blocks[x.stepNode].insts[x.stepAt]) == Some(x.nv)
    && StepOf(f.blocks[x.stepNode].insts[x.stepAt], iv.reg) == Some(iv.stride)
  }

  ghost predicate HasFacts(f: Function, cfg: Cfg, l: Loop, iv: IndVar, x: Facts) {
    HeaderFacts(f, cfg, l, iv, x) && LatchFacts(f, l, x) && StepFacts(f, iv, x)
  }

  lemma ShapeFacts(f: Function, cfg: Cfg, l: Loop, s: ExitShape) returns (j: nat)
    requires Setting(f, cfg, l) && ExitShapeOf(f, cfg, l) == Some(s)
    ensures l.header < |f.blocks| && l.latches == [s.latch]
    ensures var b := f.blocks[l.header];
            && HeaderTests(b, IndVar(s.reg, s.bound, 0), j) && HeaderStays(cfg, l, b, j)
            && s.pos < |b.params| && b.params[s.pos] == s.reg
    ensures s.bound.Reg? ==> !DefinedInLoop(f, cfg, l, s.bound.r)
  {
    hide StrictSsa, IsLoop;
    LookupNode(f, l.header);
    var b := f.blocks[l.header];
    assert cfg.blocks[l.header] == b.id;
    j := FindCmp(b.insts, b.term.cond.r, 0).value;
    FindCmpIs(b.insts, b.term.cond.r, 0);
    PositionIs(b.params, s.reg, 0);
    hide DistinctIds, IsCfg, DefinedInLoop, InBody;
    assert ShapeOf(f, cfg, l, b, b.insts[j].value) == Some(s);
  }

  lemma FactsOf(f: Function, cfg: Cfg, l: Loop, iv: IndVar) returns (x: Facts)
    requires Setting(f, cfg, l) && Recognized(f, cfg, l, iv)
    ensures HasFacts(f, cfg, l, iv, x)
  {
    hide Setting, ExitShapeOf, HeaderStays, HeaderTests, DefinedInLoop, Passed, BackEdgeNext, StepOf;
    var s: ExitShape, nv: nat :| RecognizedBy(f, cfg, l, iv, s, nv);
    var j := ShapeFacts(f, cfg, l, s);
    TestsSame(f.blocks[l.header], IndVar(s.reg, s.bound, 0), iv, j);
    var node: nat, at: nat :| StepAt(f, cfg, l, nv, s.reg, iv.stride, node, at);
    NextFacts(f, cfg, l, s, nv);
    NodeFacts(f, cfg, l, node);
    x := Facts(s.latch, s.pos, nv, j, node, at);
  }

  lemma TestsSame(b: Block, a: IndVar, iv: IndVar, j: nat)
    requires HeaderTests(b, a, j) && a.reg == iv.reg && a.bound == iv.bound
    ensures HeaderTests(b, iv, j)
  {
  }

  /** Under single assignment the answer is exact. */
  lemma RecognizedOnly(f: Function, cfg: Cfg, l: Loop, iv: IndVar)
    requires Setting(f, cfg, l) && Recognized(f, cfg, l, iv)
    requires forall node: nat :: node in l.body ==> node < |cfg.blocks|
    ensures Recognizable(f, cfg, l, iv)
  {
    var s: ExitShape, nv: nat :| RecognizedBy(f, cfg, l, iv, s, nv);
    var node: nat, at: nat :| StepAt(f, cfg, l, nv, s.reg, iv.stride, node, at);
    forall y: nat | y in l.body ensures NodeSteps(f, cfg, nv, s.reg, iv.stride, y) {
      OneDefinition(f, cfg, l, nv, s.reg, iv.stride, node, at, y);
    }
    hide RecognizedBy, StepAt;
  }

  lemma OneDefinition(f: Function, cfg: Cfg, l: Loop, nv: nat, base: nat, c: int, node: nat, at: nat, y: nat)
    requires Setting(f, cfg, l) && StepAt(f, cfg, l, nv, base, c, node, at) && y < |cfg.blocks|
    ensures NodeSteps(f, cfg, nv, base, c, y)
  {
    NodeFacts(f, cfg, l, node);
    NodeFacts(f, cfg, l, y);
    SettingParts(f, cfg, l);
    hide Setting, IsCfg, DistinctIds, IsLoop, Lookup, StepOf;
    assert DefAt(f, node, at + 1, nv);
    forall j: nat | j < |f.blocks[y].insts| && DefinedReg(f.blocks[y].insts[j]) == Some(nv)
      ensures StepOf(f.blocks[y].insts[j], base) == Some(c)
    {
      assert DefAt(f, y, j + 1, nv);
    }
  }

  lemma NextFacts(f: Function, cfg: Cfg, l: Loop, s: ExitShape, nv: nat)
    requires Setting(f, cfg, l) && BackEdgeNext(f, cfg, l, s) == Some(nv) && l.header < |f.blocks|
    ensures s.latch < |f.blocks| && Passed(f.blocks[s.latch].term, f.blocks[l.header].id, s.pos, nv)
  {
    hide StrictSsa, IsLoop;
    LookupNode(f, s.latch);
    assert cfg.blocks[s.latch] == f.blocks[s.latch].id && cfg.blocks[l.header] == f.blocks[l.header].id;
  }

  lemma NodeFacts(f: Function, cfg: Cfg, l: Loop, node: nat)
    requires Setting(f, cfg, l) && node < |cfg.blocks|
    ensures node < |f.blocks| && Lookup(f, cfg.blocks[node]) == Some(f.blocks[node])
  {
    hide StrictSsa, IsLoop;
    LookupNode(f, node);
    assert cfg.blocks[node] == f.blocks[node].id;
  }

  // ------------------------------------------------------------ what a counting loop is

  /** Where a loop has its comparison, its counter, its way back, the register passed, and the step. */
  datatype Text = Text(at: nat, pos: nat, latch: nat, next: nat, node: nat, step: nat)

  ghost predicate InLoop(f: Function, l: Loop, id: nat) {
    exists w: nat :: w in l.body && w < |f.blocks| && f.blocks[w].id == id
  }

  /** Control may go on from the end of the block to the block named `id`. */
  ghost predicate Goes(b: Block, s: Store, id: nat)
    requires b.term.CondBr?
  {
    || (b.term.thenBlk == id && MayTake(b.term.cond, s, true))
    || (b.term.elseBlk == id && MayTake(b.term.cond, s, false))
  }

  /** The register branched on has the outcome of the comparison for the values `x` and `y`. */
  ghost predicate Outcome(b: Block, at: nat, x: int, y: int, s: Store)
    requires b.term.CondBr? && b.term.cond.Reg? && at < |b.insts| && b.insts[at].Assign? && b.insts[at].value.Cmp?
  {
    var cmp := b.insts[at].value;
    && Denotes(cmp.lhs, s, x) && Denotes(cmp.rhs, s, y)
    && Val(s, b.term.cond.r) == if Truth(cmp.cop, x, y) then 1 else 0
  }

  /** From the header control stays in the loop exactly when the compared values differ. */
  ghost predicate StaysApart(f: Function, l: Loop, b: Block, at: nat)
    requires b.term.CondBr? && b.term.cond.Reg? && at < |b.insts| && b.insts[at].Assign? && b.insts[at].value.Cmp?
  {
    forall x: int, y: int, s: Store, id: nat :: Outcome(b, at, x, y, s) && Goes(b, s, id) ==>
      (InLoop(f, l, id) <==> x != y)
  }

  /** No block of the loop defines the register. */
  ghost predicate Unchanged(f: Function, l: Loop, r: nat) {
    forall w: nat, k: nat :: w in l.body ==> !DefAt(f, w, k, r)
  }

  ghost predicate CountingHeader(f: Function, l: Loop, iv: IndVar, x: Text) {
    && l.header < |f.blocks| && HeaderTests(f.blocks[l.header], iv, x.at)
    && StaysApart(f, l, f.blocks[l.header], x.at)
    && x.pos < |f.blocks[l.header].params| && f.blocks[l.header].params[x.pos] == iv.reg
    && (forall q: nat :: q < x.pos ==> f.blocks[l.header].params[q] != iv.reg)
    && (iv.bound.Reg? ==> Unchanged(f, l, iv.bound.r))
  }

  /** A side of the branch leads to block `to` and passes the register in position `pos`. */
  predicate Sends(t: Terminator, to: nat, pos: nat, r: nat) {
    match t
    case Br(target, args) => target == to && pos < |args| && args[pos] == Reg(r)
    case CondBr(_, thenBlk, thenArgs, elseBlk, elseArgs) =>
      || (thenBlk == to && pos < |thenArgs| && thenArgs[pos] == Reg(r))
      || (elseBlk == to && pos < |elseArgs| && elseArgs[pos] == Reg(r))
    case _ => false
  }

  ghost predicate CountingLatch(f: Function, l: Loop, x: Text) {
    && l.header < |f.blocks| && l.latches == [x.latch] && x.latch < |f.blocks|
    && Sends(f.blocks[x.latch].term, f.blocks[l.header].id, x.pos, x.next)
  }

  predicate AddsTo(inst: Inst, dst: nat, base: nat, c: int) {
    inst == Assign(dst, Bin(Add, Reg(base), IntConst(c))) || inst == Assign(dst, Bin(Sub, Reg(base), IntConst(-c)))
  }

  ghost predicate CountingStep(f: Function, l: Loop, iv: IndVar, x: Text) {
    && iv.stride > 0 && x.node in l.body && x.node < |f.blocks| && x.step < |f.blocks[x.node].insts|
    && AddsTo(f.blocks[x.node].insts[x.step], x.next, iv.reg, iv.stride)
  }

  /** The text says that register `iv.reg` counts up by `iv.stride` until it equals `iv.bound`. */
  ghost predicate CountsUp(f: Function, l: Loop, iv: IndVar) {
    exists x: Text :: CountsUpBy(f, l, iv, x)
  }

  ghost predicate CountsUpBy(f: Function, l: Loop, iv: IndVar, x: Text) {
    CountingHeader(f, l, iv, x) && CountingLatch(f, l, x) && CountingStep(f, l, iv, x)
  }

  lemma BodyIds(f: Function, cfg: Cfg, l: Loop, id: nat)
    requires Setting(f, cfg, l)
    ensures InLoop(f, l, id) <==> InBody(cfg, l, id)
  {
    LoopNodes(f, cfg, l);
    hide StrictSsa, IsLoop, LatchPerEdge, Listed;
    if w: nat :| w in l.body && w < |f.blocks| && f.blocks[w].id == id {
      assert id in cfg.indexOf && f.blocks[cfg.indexOf[id]].id == id;
      assert cfg.indexOf[id] == w;
    }
    if InBody(cfg, l, id) {
      assert cfg.indexOf[id] in l.body && f.blocks[cfg.indexOf[id]].id == id;
    }
  }

  lemma UnchangedText(f: Function, cfg: Cfg, l: Loop, r: nat)
    requires Setting(f, cfg, l)
    ensures Unchanged(f, l, r) <==> !DefinedInLoop(f, cfg, l, r)
  {
    LoopNodes(f, cfg, l);
    hide Setting, IsCfg, IsLoop;
    forall w: nat | w in l.body ensures DefinesAt(f, cfg, w, r) <==> exists k: nat :: DefAt(f, w, k, r) {
      DefinesText(f, cfg, l, w, r);
    }
  }

  lemma DefinesText(f: Function, cfg: Cfg, l: Loop, w: nat, r: nat)
    requires Setting(f, cfg, l) && w < |cfg.blocks|
    ensures DefinesAt(f, cfg, w, r) <==> exists k: nat :: DefAt(f, w, k, r)
  {
    NodeFacts(f, cfg, l, w);
    hide Setting, Lookup;
    var b := f.blocks[w];
    if r in b.params {
      assert DefAt(f, w, 0, r);
    }
    if i :| 0 <= i < |b.insts| && DefinedReg(b.insts[i]) == Some(r) {
      assert DefAt(f, w, i + 1, r);
    }
    if k: nat :| DefAt(f, w, k, r) {
      assert k > 0 ==> DefinedReg(b.insts[k - 1]) == Some(r);
    }
  }

  /** Neither compared register is the one that takes the outcome. */
  ghost predicate OutcomeApart(b: Block, iv: IndVar) {
    b.term.CondBr? && b.term.cond.Reg? && b.term.cond.r != iv.reg && iv.bound != b.term.cond && iv.bound != Reg(iv.reg)
  }

  /** The compared values can differ, and they can be the same. */
  lemma SomeOutcome(b: Block, iv: IndVar, at: nat, apart: bool) returns (x: int, y: int, s: Store)
    requires HeaderTests(b, iv, at) && OutcomeApart(b, iv)
    ensures Outcome(b, at, x, y, s) && (x != y <==> apart)
    ensures Goes(b, s, if apart == b.insts[at].value.cop.Ne? then b.term.thenBlk else b.term.elseBlk)
  {
    var n := if iv.bound.IntConst? then iv.bound.v else 0;
    var m := if apart then n + 1 else n;
    var cmp := b.insts[at].value;
    var c := if apart == cmp.cop.Ne? then 1 else 0;
    s := if iv.bound.Reg? then map[iv.bound.r := n, iv.reg := m, b.term.cond.r := c]
    else map[iv.reg := m, b.term.cond.r := c];
    if cmp.lhs == Reg(iv.reg) && cmp.rhs == iv.bound {
      x, y := m, n;
    } else {
      x, y := n, m;
    }
    assert Denotes(b.term.cond, s, c);
  }

  lemma StaysText(f: Function, cfg: Cfg, l: Loop, b: Block, iv: IndVar, at: nat)
    requires Setting(f, cfg, l) && HeaderTests(b, iv, at) && OutcomeApart(b, iv)
    ensures StaysApart(f, l, b, at) <==> HeaderStays(cfg, l, b, at)
  {
    BodyIds(f, cfg, l, b.term.thenBlk);
    BodyIds(f, cfg, l, b.term.elseBlk);
    hide Setting, InBody, InLoop;
    if StaysApart(f, l, b, at) {
      var x, y, s := SomeOutcome(b, iv, at, true);
      var u, v, t := SomeOutcome(b, iv, at, false);
    }
  }

  /** Single assignment: the outcome is another register than what is compared. */
  lemma HeaderApart(f: Function, cfg: Cfg, l: Loop, iv: IndVar, at: nat)
    requires Setting(f, cfg, l) && l.header < |f.blocks| && HeaderTests(f.blocks[l.header], iv, at)
    requires iv.reg in f.blocks[l.header].params && (iv.bound.Reg? ==> Unchanged(f, l, iv.bound.r))
    ensures OutcomeApart(f.blocks[l.header], iv)
    ensures iv.bound.Reg? ==> iv.bound.r !in f.blocks[l.header].params
    ensures FindCmp(f.blocks[l.header].insts, f.blocks[l.header].term.cond.r, 0) == Some(at)
  {
    var b := f.blocks[l.header];
    SettingParts(f, cfg, l);
    HeaderIn(cfg, l);
    hide Setting, IsLoop, IsCfg, DistinctIds, FindCmp;
    assert DefAt(f, l.header, at + 1, b.term.cond.r);
    assert DefAt(f, l.header, 0, iv.reg);
    assert forall r: nat :: r in b.params ==> DefAt(f, l.header, 0, r);
    forall j: nat | j < |b.insts| && DefinedReg(b.insts[j]) == Some(b.term.cond.r) ensures j == at {
      assert DefAt(f, l.header, j + 1, b.term.cond.r);
    }
    FindCmpFinds(b.insts, b.term.cond.r, 0, at);
  }

  lemma {:induction false} FindCmpFinds(insts: seq<Inst>, c: nat, i: nat, at: nat)
    requires i <= at < |insts| && insts[at].Assign? && insts[at].dst == c && insts[at].value.Cmp?
    requires forall j: nat :: j < |insts| && DefinedReg(insts[j]) == Some(c) ==> j == at
    ensures FindCmp(insts, c, i) == Some(at)
    decreases at - i
  {
    if i < at {
      assert DefinedReg(insts[i]) != Some(c);
      FindCmpFinds(insts, c, i + 1, at);
    }
  }

  lemma {:induction false} PositionFirst(params: seq<nat>, r: nat, i: nat, pos: nat)
    requires i <= pos < |params| && params[pos] == r && forall q: nat :: i <= q < pos ==> params[q] != r
    ensures Position(params, r, i) == Some(pos)
    decreases pos - i
  {
    if i < pos {
      PositionFirst(params, r, i + 1, pos);
    }
  }

  lemma {:induction false} PositionBefore(params: seq<nat>, r: nat, i: nat)
    requires i <= |params| && Position(params, r, i).Some?
    ensures forall q: nat :: i <= q < Position(params, r, i).value && q < |params| ==> params[q] != r
    decreases |params| - i
  {
    if params[i] != r {
      PositionBefore(params, r, i + 1);
    }
  }

  lemma ShapeFound(f: Function, cfg: Cfg, l: Loop, iv: IndVar, x: Text)
    requires Setting(f, cfg, l) && CountingHeader(f, l, iv, x) && l.latches == [x.latch]
    ensures ExitShapeOf(f, cfg, l) == Some(ExitShape(iv.reg, iv.bound, x.latch, x.pos))
  {
    var b := f.blocks[l.header];
    HeaderApart(f, cfg, l, iv, x.at);
    StaysText(f, cfg, l, b, iv, x.at);
    PositionFirst(b.params, iv.reg, 0, x.pos);
    HeaderNode(f, cfg, l);
    NodeFacts(f, cfg, l, l.header);
    if iv.bound.Reg? {
      UnchangedText(f, cfg, l, iv.bound.r);
    }
    hide Setting, StaysApart, Unchanged, DefinedInLoop, InBody, Position, FindCmp, Lookup, ContinuesOnDifference;
    assert ShapeOf(f, cfg, l, b, b.insts[x.at].value) == Some(ExitShape(iv.reg, iv.bound, x.latch, x.pos));
  }

  lemma HeaderNode(f: Function, cfg: Cfg, l: Loop)
    requires Setting(f, cfg, l)
    ensures l.header < |cfg.blocks| == |f.blocks|
  {
  }

  /** With one edge to the block, the side that sends the register is the one read. */
  lemma SentIsPassed(t: Terminator, to: nat, pos: nat, r: nat)
    requires multiset(Successors(t))[to] == 1
    ensures Sends(t, to, pos, r) <==> Passed(t, to, pos, r)
  {
  }

  lemma NextFound(f: Function, cfg: Cfg, l: Loop, iv: IndVar, x: Text)
    requires Setting(f, cfg, l) && CountingLatch(f, l, x)
    ensures BackEdgeNext(f, cfg, l, ExitShape(iv.reg, iv.bound, x.latch, x.pos)) == Some(x.next)
  {
    assert multiset(l.latches)[x.latch] == 1;
    LatchRow(f, cfg, l, x.latch);
    SentIsPassed(f.blocks[x.latch].term, f.blocks[l.header].id, x.pos, x.next);
    HeaderNode(f, cfg, l);
    NodeFacts(f, cfg, l, x.latch);
    NodeId(f, cfg, l, l.header);
    hide Setting, Lookup, Sends;
  }

  lemma NodeId(f: Function, cfg: Cfg, l: Loop, node: nat)
    requires Setting(f, cfg, l) && node < |f.blocks|
    ensures node < |cfg.blocks| && cfg.blocks[node] == f.blocks[node].id
  {
  }

  lemma StepFound(f: Function, cfg: Cfg, l: Loop, iv: IndVar, x: Text)
    requires Setting(f, cfg, l) && CountingStep(f, l, iv, x)
    ensures StepIn(f, cfg, l, x.next, iv.reg, iv.stride)
  {
    HeaderNode(f, cfg, l);
    NodeFacts(f, cfg, l, x.node);
    AddsStep(f.blocks[x.node].insts[x.step], x.next, iv.reg, iv.stride);
    hide Setting, Lookup, AddsTo, StepOf, DefinedReg;
    assert StepAt(f, cfg, l, x.next, iv.reg, iv.stride, x.node, x.step);
  }

  lemma AddsStep(inst: Inst, dst: nat, base: nat, c: int)
    ensures AddsTo(inst, dst, base, c) <==> DefinedReg(inst) == Some(dst) && StepOf(inst, base) == Some(c)
  {
  }

  lemma CountsRecognized(f: Function, cfg: Cfg, l: Loop, iv: IndVar)
    requires Setting(f, cfg, l) && CountsUp(f, l, iv)
    ensures Recognized(f, cfg, l, iv)
  {
    hide *;
    var x := TextOf(f, l, iv);
    ShapeFound(f, cfg, l, iv, x);
    NextFound(f, cfg, l, iv, x);
    StepFound(f, cfg, l, iv, x);
    RecognizedIntro(f, cfg, l, iv, x);
  }

  lemma TextOf(f: Function, l: Loop, iv: IndVar) returns (x: Text)
    requires CountsUp(f, l, iv)
    ensures CountingHeader(f, l, iv, x) && CountingLatch(f, l, x) && CountingStep(f, l, iv, x)
    ensures l.latches == [x.latch] && iv.stride > 0
  {
    hide CountingHeader;
    x :| CountsUpBy(f, l, iv, x);
  }

  lemma RecognizedIntro(f: Function, cfg: Cfg, l: Loop, iv: IndVar, x: Text)
    requires ExitShapeOf(f, cfg, l) == Some(ExitShape(iv.reg, iv.bound, x.latch, x.pos))
    requires BackEdgeNext(f, cfg, l, ExitShape(iv.reg, iv.bound, x.latch, x.pos)) == Some(x.next)
    requires StepIn(f, cfg, l, x.next, iv.reg, iv.stride) && iv.stride > 0
    ensures Recognized(f, cfg, l, iv)
  {
    hide ExitShapeOf, BackEdgeNext, StepIn;
    assert RecognizedBy(f, cfg, l, iv, ExitShape(iv.reg, iv.bound, x.latch, x.pos), x.next);
  }

  lemma FirstParameter(f: Function, cfg: Cfg, l: Loop, s: ExitShape)
    requires Setting(f, cfg, l) && ExitShapeOf(f, cfg, l) == Some(s)
    ensures l.header < |f.blocks| && s.pos < |f.blocks[l.header].params|
    ensures forall q: nat :: q < s.pos ==> f.blocks[l.header].params[q] != s.reg
  {
    var j := ShapeFacts(f, cfg, l, s);
    HeaderNode(f, cfg, l);
    NodeFacts(f, cfg, l, l.header);
    PositionBefore(f.blocks[l.header].params, s.reg, 0);
    hide Setting, DefinedInLoop, InBody, Lookup, ContinuesOnDifference;
  }

  lemma RecognizedIsText(f: Function, cfg: Cfg, l: Loop, iv: IndVar)
    requires Setting(f, cfg, l) && Recognized(f, cfg, l, iv)
    ensures CountsUp(f, l, iv)
  {
    hide Setting, ExitShapeOf, HeaderStays, HeaderTests, DefinedInLoop, Passed, BackEdgeNext, CountingHeader, Unchanged;
    var s: ExitShape, nv: nat :| RecognizedBy(f, cfg, l, iv, s, nv);
    var at := ShapeFacts(f, cfg, l, s);
    FirstParameter(f, cfg, l, s);
    TestsSame(f.blocks[l.header], IndVar(s.reg, s.bound, 0), iv, at);
    var node: nat, step: nat :| StepAt(f, cfg, l, nv, s.reg, iv.stride, node, step);
    NextFacts(f, cfg, l, s, nv);
    NodeFacts(f, cfg, l, node);
    var x := Text(at, s.pos, s.latch, nv, node, step);
    HeaderText(f, cfg, l, iv, x);
    assert multiset(l.latches)[x.latch] == 1;
    LatchRow(f, cfg, l, x.latch);
    SentIsPassed(f.blocks[x.latch].term, f.blocks[l.header].id, x.pos, x.next);
    assert CountsUpBy(f, l, iv, x);
  }

  lemma HeaderText(f: Function, cfg: Cfg, l: Loop, iv: IndVar, x: Text)
    requires Setting(f, cfg, l) && l.header < |f.blocks| && HeaderTests(f.blocks[l.header], iv, x.at)
    requires HeaderStays(cfg, l, f.blocks[l.header], x.at)
    requires x.pos < |f.blocks[l.header].params| && f.blocks[l.header].params[x.pos] == iv.reg
    requires forall q: nat :: q < x.pos ==> f.blocks[l.header].params[q] != iv.reg
    requires iv.bound.Reg? ==> !DefinedInLoop(f, cfg, l, iv.bound.r)
    ensures CountingHeader(f, l, iv, x)
  {
    if iv.bound.Reg? {
      UnchangedText(f, cfg, l, iv.bound.r);
    }
    HeaderApart(f, cfg, l, iv, x.at);
    StaysText(f, cfg, l, f.blocks[l.header], iv, x.at);
    hide Setting, StaysApart, Unchanged, DefinedInLoop, HeaderStays;
  }

  /** Recognition finds a counter if and only if the text of the loop is that of a counting loop. */
  lemma CountsExactly(f: Function, cfg: Cfg, l: Loop, iv: IndVar)
    requires Setting(f, cfg, l)
    ensures CountsUp(f, l, iv) <==> Recognized(f, cfg, l, iv)
    ensures CountsUp(f, l, iv) <==> Recognizable(f, cfg, l, iv)
  {
    SettingParts(f, cfg, l);
    LoopNodes(f, cfg, l);
    hide Setting, CountsUp, RecognizedBy, OnlySteps, IsCfg, IsLoop, DistinctIds, StrictSsa;
    if CountsUp(f, l, iv) {
      CountsRecognized(f, cfg, l, iv);
      RecognizedOnly(f, cfg, l, iv);
    }
    if Recognizable(f, cfg, l, iv) {
      var s: ExitShape, nv: nat :| RecognizedBy(f, cfg, l, iv, s, nv) && OnlySteps(f, cfg, l, nv, s.reg, iv.stride);
    }
    if Recognized(f, cfg, l, iv) {
      RecognizedIsText(f, cfg, l, iv);
    }
  }

  // ------------------------------------------------------------ the counter in a run

  /** From a visit of the header on, the run stays in the loop up to visit `k1`. */
  ghost predicate Stays(f: Function, l: Loop, run: seq<Visit>, k0: nat, k1: nat) {
    && IsRun(f, run) && k0 <= k1 < |run| && run[k0].node == l.header
    && forall k: nat :: k0 <= k <= k1 ==> run[k].node in l.body
  }

  /** Visits of the header after `k0`. */
  ghost function Laps(l: Loop, run: seq<Visit>, k0: nat, k: nat): nat
    requires k < |run|
  {
    if k <= k0 then 0 else Laps(l, run, k0, k - 1) + if run[k].node == l.header then 1 else 0
  }

  /** The bound's value; an opaque constant has none. */
  function BoundVal(op: Operand, s: Store): int {
    match op
    case Reg(r) => Val(s, r)
    case IntConst(c) => c
    case NullConst => 0
    case OpaqueConst(_) => 0
  }

  ghost predicate NotDefinedBy(b: Block, r: nat) {
    forall i: nat :: i < |b.insts| ==> DefinedReg(b.insts[i]) != Some(r)
  }

  lemma {:induction false} VisitKeeps(f: Function, v: Visit, r: nat, i: nat)
    requires IsVisit(f, v) && i < |v.stores| && NotDefinedBy(f.blocks[v.node], r)
    ensures Val(v.stores[i], r) == Val(v.stores[0], r)
  {
    if i > 0 {
      VisitKeeps(f, v, r, i - 1);
      var j := i - 1;
      assert i == j + 1;
      assert Steps(f.blocks[v.node].insts[j], v.stores[j], v.stores[i]);
      StepFrame(f.blocks[v.node].insts[j], v.stores[j], v.stores[i], r);
    }
  }

  /** Single assignment: the counter is defined only as a parameter of the header. */
  lemma CounterAlone(f: Function, cfg: Cfg, l: Loop, iv: IndVar, x: Facts, y: nat)
    requires StrictSsa(f, cfg) && HeaderFacts(f, cfg, l, iv, x) && y < |f.blocks|
    ensures NotDefinedBy(f.blocks[y], iv.reg) && (iv.reg in f.blocks[y].params ==> y == l.header)
  {
    assert DefAt(f, l.header, 0, iv.reg);
    forall i: nat | i < |f.blocks[y].insts| ensures DefinedReg(f.blocks[y].insts[i]) != Some(iv.reg) {
      assert DefAt(f, y, i + 1, iv.reg) ==> i + 1 == 0;
    }
    assert DefAt(f, y, 0, iv.reg) ==> y == l.header;
  }

  /** A register the loop does not define is defined by none of its blocks. */
  lemma BoundAlone(f: Function, cfg: Cfg, l: Loop, r: nat, y: nat)
    requires DistinctIds(f) && IsCfg(f, cfg) && !DefinedInLoop(f, cfg, l, r) && y in l.body && y < |f.blocks|
    ensures NotDefinedBy(f.blocks[y], r) && r !in f.blocks[y].params
  {
    LookupNode(f, y);
    assert cfg.blocks[y] == f.blocks[y].id && |cfg.blocks| == |f.blocks|;
    hide IsCfg, DistinctIds, Lookup;
    assert !DefinesAt(f, cfg, y, r);
    assert !Defines(f.blocks[y], r);
  }

  /** What one step between visits inside the loop does. */
  ghost predicate Joined(f: Function, v: Visit, w: Visit) {
    v.node < |f.blocks| && w.node < |f.blocks| && IsVisit(f, v) && IsVisit(f, w) && Follows(f, v, w)
  }

  lemma JoinedAt(f: Function, l: Loop, run: seq<Visit>, k0: nat, k1: nat, k: nat)
    requires Stays(f, l, run, k0, k1) && k0 < k <= k1
    ensures Joined(f, run[k - 1], run[k]) && run[k].node in l.body && run[k - 1].node in l.body
  {
    var j := k - 1;
    assert k == j + 1;
    assert Follows(f, run[j], run[k]);
  }

  /** The bound keeps its value across a step inside the loop. */
  lemma BoundKept(f: Function, cfg: Cfg, l: Loop, iv: IndVar, x: Facts, v: Visit, w: Visit)
    requires Setting(f, cfg, l) && HeaderFacts(f, cfg, l, iv, x) && Joined(f, v, w)
    requires v.node in l.body && w.node in l.body
    ensures v.stores != [] && w.stores != []
    ensures BoundVal(iv.bound, Final(v)) == BoundVal(iv.bound, v.stores[0])
    ensures BoundVal(iv.bound, w.stores[0]) == BoundVal(iv.bound, v.stores[0])
  {
    if iv.bound.Reg? {
      BoundAlone(f, cfg, l, iv.bound.r, v.node);
      BoundAlone(f, cfg, l, iv.bound.r, w.node);
      hide Setting, HeaderFacts;
      VisitKeeps(f, v, iv.bound.r, |v.stores| - 1);
      PassFrame(f, v, w);
    }
  }

  /** Away from the header the counter keeps its value. */
  lemma CounterKept(f: Function, cfg: Cfg, l: Loop, iv: IndVar, x: Facts, v: Visit, w: Visit)
    requires Setting(f, cfg, l) && HeaderFacts(f, cfg, l, iv, x) && Joined(f, v, w)
    ensures v.stores != [] && w.stores != [] && Val(Final(v), iv.reg) == Val(v.stores[0], iv.reg)
    ensures w.node != l.header ==> Val(w.stores[0], iv.reg) == Val(v.stores[0], iv.reg)
  {
    CounterAlone(f, cfg, l, iv, x, v.node);
    CounterAlone(f, cfg, l, iv, x, w.node);
    hide Setting, HeaderFacts;
    VisitKeeps(f, v, iv.reg, |v.stores| - 1);
    PassFrame(f, v, w);
  }

  /** The only way back to the header from inside the loop is the latch. */
  lemma BackFromLatch(f: Function, cfg: Cfg, l: Loop, x: Facts, v: nat)
    requires Setting(f, cfg, l) && LatchFacts(f, l, x) && v in l.body
    requires Reachable(cfg.g, cfg.entry, v) && cfg.g.Edge(v, l.header)
    ensures v == x.latch
  {
    HeaderDominatesBody(cfg.g, cfg.entry, l, v);
    hide StrictSsa, IsCfg, DistinctIds, Reachable, Dominates;
    assert BackEdge(cfg.g, cfg.entry, v, l.header);
  }

  /** Around the back edge the counter grows by the stride. */
  lemma CounterSteps(f: Function, cfg: Cfg, l: Loop, iv: IndVar, x: Facts, v: Visit, w: Visit)
    requires Setting(f, cfg, l) && HasFacts(f, cfg, l, iv, x) && Joined(f, v, w) && w.node == l.header
    requires v.node == x.latch
    requires AllRecords(f, cfg, v.node, Final(v)) && ArgumentDefined(f, cfg, x.latch, x.nv)
    ensures v.stores != [] && w.stores != [] && Val(w.stores[0], iv.reg) == Val(v.stores[0], iv.reg) + iv.stride
  {
    CounterKept(f, cfg, l, iv, x, v, w);
    StepRecord(f, cfg, l, iv, x, v);
    LatchBinds(f, cfg, l, iv, x, v, w);
  }

  /** The step instruction, made in a dominating block, describes the store at the latch. */
  lemma StepRecord(f: Function, cfg: Cfg, l: Loop, iv: IndVar, x: Facts, v: Visit)
    requires StepFacts(f, iv, x) && v.node == x.latch && v.stores != [] && AllRecords(f, cfg, v.node, Final(v))
    requires ArgumentDefined(f, cfg, x.latch, x.nv)
    ensures Val(Final(v), x.nv) == Val(Final(v), iv.reg) + iv.stride
  {
    assert DefAt(f, x.stepNode, x.stepAt + 1, x.nv);
    assert RecordAt(f, x.stepNode, x.stepAt);
    assert Dominates(cfg.g, cfg.entry, x.stepNode, v.node);
    assert RecordHolds(f.blocks[x.stepNode].insts[x.stepAt], Final(v));
  }

  /**
   A loop with a single latch entry has a single edge from it: no second side
   of its branch leads to the header, so the arguments the recogniser reads are
   those of every way back.
   */
  lemma OneSideOnly(f: Function, cfg: Cfg, l: Loop, x: Facts)
    requires Setting(f, cfg, l) && LatchFacts(f, l, x)
    ensures SidesAgree(f.blocks[x.latch].term, f.blocks[l.header].id, x.pos, x.nv)
  {
    hide *;
    LatchOf(f, l, x);
    LatchRow(f, cfg, l, x.latch);
    OneEdgeAgrees(f.blocks[x.latch].term, f.blocks[l.header].id, x.pos, x.nv);
  }

  lemma LatchOf(f: Function, l: Loop, x: Facts)
    requires LatchFacts(f, l, x)
    ensures l.header < |f.blocks| && x.latch < |f.blocks| && x.latch in l.latches && multiset(l.latches)[x.latch] == 1
    ensures Passed(f.blocks[x.latch].term, f.blocks[l.header].id, x.pos, x.nv)
  {
    hide Passed;
  }

  /** A latch with both sides of its branch on the header is listed twice, and the loop is not recognised. */
  lemma BothSidesRefused(f: Function, cfg: Cfg, l: Loop, u: nat)
    requires Setting(f, cfg, l) && u in l.latches && u < |f.blocks| && l.header < |f.blocks| && f.blocks[u].term.CondBr?
    requires f.blocks[u].term.thenBlk == f.blocks[l.header].id == f.blocks[u].term.elseBlk
    ensures ExitShapeOf(f, cfg, l).None?
  {
    LatchRow(f, cfg, l, u);
    hide Setting;
    assert multiset(l.latches)[u] == 2;
  }

  /** The latch's row has one entry for each target that is the header. */
  lemma LatchRow(f: Function, cfg: Cfg, l: Loop, u: nat)
    requires Setting(f, cfg, l) && u in l.latches && u < |f.blocks| && l.header < |f.blocks|
    ensures multiset(l.latches)[u] == multiset(Successors(f.blocks[u].term))[f.blocks[l.header].id]
  {
    hide StrictSsa, IsLoop;
    EdgesNamed(f, cfg, u, l.header);
  }

  lemma LatchBinds(f: Function, cfg: Cfg, l: Loop, iv: IndVar, x: Facts, v: Visit, w: Visit)
    requires Setting(f, cfg, l) && HeaderFacts(f, cfg, l, iv, x) && LatchFacts(f, l, x)
    requires Joined(f, v, w) && w.node == l.header && v.node == x.latch
    ensures v.stores != [] && w.stores != [] && Val(w.stores[0], iv.reg) == Val(Final(v), x.nv)
  {
    OneSideOnly(f, cfg, l, x);
    hide Setting, HeaderTests, HeaderStays, DefinedInLoop, Passes;
    SidesBind(f.blocks[x.latch], f.blocks[l.header], x.pos, x.nv, Final(v), w.stores[0]);
  }

  /** Hypotheses about a recognised loop and a stretch of a run inside it. */
  ghost predicate Counting(f: Function, cfg: Cfg, l: Loop, iv: IndVar, x: Facts, run: seq<Visit>, k0: nat, k1: nat) {
    && Setting(f, cfg, l) && HasFacts(f, cfg, l, iv, x) && ArgumentDefined(f, cfg, x.latch, x.nv)
    && Stays(f, l, run, k0, k1)
  }

  lemma EdgeInside(f: Function, cfg: Cfg, l: Loop, iv: IndVar, x: Facts, run: seq<Visit>, k0: nat, k1: nat, k: nat)
    requires Counting(f, cfg, l, iv, x, run, k0, k1) && k0 < k <= k1
    ensures Joined(f, run[k - 1], run[k]) && run[k].node in l.body && run[k - 1].node in l.body
    ensures AllRecords(f, cfg, run[k - 1].node, Final(run[k - 1]))
    ensures run[k].node == l.header ==> run[k - 1].node == x.latch
  {
    hide *;
    CountingParts(f, cfg, l, iv, x, run, k0, k1);
    SettingParts(f, cfg, l);
    StaysParts(f, l, run, k0, k1);
    JoinedAt(f, l, run, k0, k1, k);
    JoinedParts(f, run[k - 1], run[k]);
    EdgeTaken(f, cfg, run, k);
    RecordsAtBranch(f, cfg, run, k - 1);
    if run[k].node == l.header {
      BackFromLatch(f, cfg, l, x, run[k - 1].node);
    }
  }

  lemma CountingParts(f: Function, cfg: Cfg, l: Loop, iv: IndVar, x: Facts, run: seq<Visit>, k0: nat, k1: nat)
    requires Counting(f, cfg, l, iv, x, run, k0, k1)
    ensures Setting(f, cfg, l) && HasFacts(f, cfg, l, iv, x) && HeaderFacts(f, cfg, l, iv, x) && LatchFacts(f, l, x)
    ensures StepFacts(f, iv, x) && iv.stride > 0 && ArgumentDefined(f, cfg, x.latch, x.nv) && Stays(f, l, run, k0, k1)
  {
    hide Setting, HeaderFacts, LatchFacts, ArgumentDefined, Stays;
  }

  lemma SettingParts(f: Function, cfg: Cfg, l: Loop)
    requires Setting(f, cfg, l)
    ensures DistinctIds(f) && IsCfg(f, cfg) && StrictSsa(f, cfg) && IsLoop(cfg.g, cfg.entry, l)
  {
  }

  lemma StaysParts(f: Function, l: Loop, run: seq<Visit>, k0: nat, k1: nat)
    requires Stays(f, l, run, k0, k1)
    ensures IsRun(f, run) && k1 < |run| && run[k0].node == l.header
  {
  }

  lemma JoinedParts(f: Function, v: Visit, w: Visit)
    requires Joined(f, v, w)
    ensures Follows(f, v, w) && Ir.Finished(f, v) && v.stores != [] && w.stores != []
    ensures v.node < |f.blocks| && w.node < |f.blocks|
  {
  }

  /** The counter is its starting value plus the stride for every lap, and the bound does not move. */
  lemma {:induction false} CounterAfterLaps(f: Function, cfg: Cfg, l: Loop, iv: IndVar, x: Facts, run: seq<Visit>,
                                            k0: nat, k1: nat, k: nat)
    requires Counting(f, cfg, l, iv, x, run, k0, k1) && k0 <= k <= k1
    ensures run[k0].stores != [] && run[k].stores != []
    ensures Val(run[k].stores[0], iv.reg) == Val(run[k0].stores[0], iv.reg) + Laps(l, run, k0, k) * iv.stride
    ensures BoundVal(iv.bound, run[k].stores[0]) == BoundVal(iv.bound, run[k0].stores[0])
  {
    hide *;
    CountingParts(f, cfg, l, iv, x, run, k0, k1);
    StaysParts(f, l, run, k0, k1);
    if k == k0 {
      StartVisit(f, l, run, k0, k1);
      LapsStart(l, run, k0);
    } else {
      CounterAfterLaps(f, cfg, l, iv, x, run, k0, k1, k - 1);
      EdgeInside(f, cfg, l, iv, x, run, k0, k1, k);
      JoinedParts(f, run[k - 1], run[k]);
      BoundKept(f, cfg, l, iv, x, run[k - 1], run[k]);
      LapsNext(l, run, k0, k);
      var laps := Laps(l, run, k0, k - 1);
      if run[k].node == l.header {
        CounterSteps(f, cfg, l, iv, x, run[k - 1], run[k]);
        assert (laps + 1) * iv.stride == laps * iv.stride + iv.stride;
      } else {
        CounterKept(f, cfg, l, iv, x, run[k - 1], run[k]);
      }
    }
  }

  lemma StartVisit(f: Function, l: Loop, run: seq<Visit>, k0: nat, k1: nat)
    requires Stays(f, l, run, k0, k1)
    ensures run[k0].stores != []
  {
    assert IsVisit(f, run[k0]);
  }

  lemma LapsStart(l: Loop, run: seq<Visit>, k0: nat)
    requires k0 < |run|
    ensures Laps(l, run, k0, k0) == 0
  {
  }

  lemma LapsNext(l: Loop, run: seq<Visit>, k0: nat, k: nat)
    requires k0 < k < |run|
    ensures Laps(l, run, k0, k) == Laps(l, run, k0, k - 1) + if run[k].node == l.header then 1 else 0
  {
  }

  /** Whoever stays in the loop after the header has not reached the bound. */
  lemma StayingDiffers(f: Function, cfg: Cfg, l: Loop, iv: IndVar, x: Facts, v: Visit, w: Visit)
    requires Setting(f, cfg, l) && HeaderFacts(f, cfg, l, iv, x) && Joined(f, v, w) && v.node == l.header
    requires w.node in l.body
    requires !iv.bound.OpaqueConst? && AllRecords(f, cfg, v.node, Final(v)) && l.header in l.body
    ensures v.stores != [] && Val(v.stores[0], iv.reg) != BoundVal(iv.bound, v.stores[0])
  {
    CounterKept(f, cfg, l, iv, x, v, w);
    BoundKept(f, cfg, l, iv, x, v, w);
    var s := Final(v);
    var b := f.blocks[l.header];
    var cmp := b.insts[x.cmpAt].value;
    assert RecordAt(f, l.header, x.cmpAt);
    DominatesSelf(cfg, l.header);
    assert RecordHolds(b.insts[x.cmpAt], s);
    NodeOfId(f, cfg, l, w.node);
    hide AllRecords, DefinedInLoop, Dominates, DistinctIds, IsCfg, StrictSsa, IsLoop, RecordAt;
    TakenSide(cfg, l, b, s, f.blocks[w.node], w.stores[0], x.cmpAt);
    hide Setting, InBody, Passes;
    CompareValues(iv, cmp, s, Val(s, b.term.cond.r));
  }

  lemma DominatesSelf(cfg: Cfg, h: nat)
    ensures Dominates(cfg.g, cfg.entry, h, h)
  {
    forall p | PathFromTo(cfg.g, p, cfg.entry, h) ensures h in p {
      assert p[|p| - 1] == h;
    }
  }

  lemma NodeOfId(f: Function, cfg: Cfg, l: Loop, w: nat)
    requires DistinctIds(f) && IsCfg(f, cfg) && w in l.body && w < |f.blocks|
    ensures InBody(cfg, l, f.blocks[w].id)
  {
    var id := f.blocks[w].id;
    assert id in cfg.indexOf && f.blocks[cfg.indexOf[id]].id == id;
    assert cfg.indexOf[id] == w;
  }

  /** The branch taken into the loop is the one that says the operands differ. */
  lemma TakenSide(cfg: Cfg, l: Loop, b: Block, s: Store, to: Block, s': Store, j: nat)
    requires b.term.CondBr? && b.term.cond.Reg? && j < |b.insts| && b.insts[j].Assign? && b.insts[j].value.Cmp?
    requires HeaderStays(cfg, l, b, j) && InBody(cfg, l, to.id) && Passes(b, s, to, s')
    ensures (Val(s, b.term.cond.r) != 0) == (b.insts[j].value.cop == Ne)
  {
    hide InBody, Binds;
  }

  lemma CompareValues(iv: IndVar, cmp: RValue, s: Store, v: int)
    requires cmp.Cmp? && (cmp.cop == Ne || cmp.cop == Eq) && !iv.bound.OpaqueConst?
    requires (cmp.lhs == Reg(iv.reg) && cmp.rhs == iv.bound) || (cmp.rhs == Reg(iv.reg) && cmp.lhs == iv.bound)
    requires Compared(cmp.cop, cmp.lhs, cmp.rhs, s, v) && (v != 0) == (cmp.cop == Ne)
    ensures Val(s, iv.reg) != BoundVal(iv.bound, s)
  {
    var a, c :| Denotes(cmp.lhs, s, a) && Denotes(cmp.rhs, s, c) && v == (if Truth(cmp.cop, a, c) then 1 else 0);
  }

  /** A positive multiple of the stride is at least the stride. */
  lemma NextOnGrid(start: int, laps: nat, stride: int, bound: int)
    requires stride > 0 && (bound - start) % stride == 0 && start + laps * stride < bound
    ensures start + (laps + 1) * stride <= bound
  {
    var q := (bound - start) / stride;
    assert bound - start == q * stride;
    Monotone(q, laps, stride);
    Monotone(laps + 1, q, stride);
  }

  lemma Monotone(a: int, b: int, stride: int)
    requires stride > 0
    ensures a <= b ==> a * stride <= b * stride
  {
  }

  /** The counter never passes the bound, and is below it away from the header. */
  lemma {:induction false} CounterBounded(f: Function, cfg: Cfg, l: Loop, iv: IndVar, x: Facts, run: seq<Visit>,
                                          k0: nat, k1: nat, k: nat)
    requires Counting(f, cfg, l, iv, x, run, k0, k1) && k0 <= k <= k1 && !iv.bound.OpaqueConst?
    requires run[k0].stores != []
    requires var start, bound := Val(run[k0].stores[0], iv.reg), BoundVal(iv.bound, run[k0].stores[0]);
             start <= bound && (bound - start) % iv.stride == 0
    ensures run[k].stores != [] && Val(run[k].stores[0], iv.reg) <= BoundVal(iv.bound, run[k0].stores[0])
    ensures run[k].node != l.header ==> Val(run[k].stores[0], iv.reg) < BoundVal(iv.bound, run[k0].stores[0])
  {
    hide *;
    CounterAfterLaps(f, cfg, l, iv, x, run, k0, k1, k);
    CountingParts(f, cfg, l, iv, x, run, k0, k1);
    StaysParts(f, l, run, k0, k1);
    LapsStart(l, run, k0);
    if k > k0 {
      CounterBounded(f, cfg, l, iv, x, run, k0, k1, k - 1);
      NotYet(f, cfg, l, iv, x, run, k0, k1, k);
      CounterAfterLaps(f, cfg, l, iv, x, run, k0, k1, k - 1);
      LapsNext(l, run, k0, k);
      NextOnGrid(Val(run[k0].stores[0], iv.reg), Laps(l, run, k0, k - 1), iv.stride,
                 BoundVal(iv.bound, run[k0].stores[0]));
    }
  }

  /** Before a visit inside the loop the counter was still below the bound. */
  lemma NotYet(f: Function, cfg: Cfg, l: Loop, iv: IndVar, x: Facts, run: seq<Visit>, k0: nat, k1: nat, k: nat)
    requires Counting(f, cfg, l, iv, x, run, k0, k1) && k0 < k <= k1 && !iv.bound.OpaqueConst?
    requires run[k0].stores != [] && run[k - 1].stores != []
    requires var v, bound := Val(run[k - 1].stores[0], iv.reg), BoundVal(iv.bound, run[k0].stores[0]);
             v <= bound && (run[k - 1].node != l.header ==> v < bound)
    ensures Val(run[k - 1].stores[0], iv.reg) < BoundVal(iv.bound, run[k0].stores[0])
  {
    hide *;
    CountingParts(f, cfg, l, iv, x, run, k0, k1);
    SettingParts(f, cfg, l);
    StaysParts(f, l, run, k0, k1);
    CounterAfterLaps(f, cfg, l, iv, x, run, k0, k1, k - 1);
    EdgeInside(f, cfg, l, iv, x, run, k0, k1, k);
    HeaderIn(cfg, l);
    if run[k - 1].node == l.header {
      StayingDiffers(f, cfg, l, iv, x, run[k - 1], run[k]);
    }
  }

  lemma HeaderIn(cfg: Cfg, l: Loop)
    requires IsLoop(cfg.g, cfg.entry, l)
    ensures l.header in l.body
  {
    hide BackEdge, ReachesLatch;
  }

  /**
   A recognised counter that starts at or below its bound, a whole number of
   strides away, is `start + laps * stride` at every header visit, never exceeds
   the bound, and visits the header at most `(bound - start) / stride + 1` times.
   */
  lemma RecognizedCounts(f: Function, cfg: Cfg, l: Loop, iv: IndVar, run: seq<Visit>, k0: nat, k1: nat, k: nat)
    requires Setting(f, cfg, l) && Recognized(f, cfg, l, iv) && Stays(f, l, run, k0, k1) && k0 <= k <= k1
    requires LatchArgumentsDefined(f, cfg, l) && !iv.bound.OpaqueConst? && run[k0].stores != [] && iv.stride > 0
    requires var start, bound := Val(run[k0].stores[0], iv.reg), BoundVal(iv.bound, run[k0].stores[0]);
             start <= bound && (bound - start) % iv.stride == 0
    ensures var start, bound := Val(run[k0].stores[0], iv.reg), BoundVal(iv.bound, run[k0].stores[0]);
            && run[k].stores != []
            && Val(run[k].stores[0], iv.reg) == start + Laps(l, run, k0, k) * iv.stride <= bound
            && Laps(l, run, k0, k) + 1 <= (bound - start) / iv.stride + 1
  {
    hide *;
    StaysParts(f, l, run, k0, k1);
    var x := FactsOf(f, cfg, l, iv);
    CountingIntro(f, cfg, l, iv, x, run, k0, k1);
    CounterAfterLaps(f, cfg, l, iv, x, run, k0, k1, k);
    CounterBounded(f, cfg, l, iv, x, run, k0, k1, k);
    LapsWithin(Val(run[k0].stores[0], iv.reg), Laps(l, run, k0, k), iv.stride, BoundVal(iv.bound, run[k0].stores[0]));
  }

  lemma CountingIntro(f: Function, cfg: Cfg, l: Loop, iv: IndVar, x: Facts, run: seq<Visit>, k0: nat, k1: nat)
    requires Setting(f, cfg, l) && HasFacts(f, cfg, l, iv, x) && Stays(f, l, run, k0, k1)
    requires LatchArgumentsDefined(f, cfg, l)
    ensures Counting(f, cfg, l, iv, x, run, k0, k1)
  {
    hide Setting, HeaderFacts, StepFacts, Stays, ArgumentDefined, Passed;
    assert x.latch in l.latches;
    assert LatchPasses(f, l, x.latch, x.pos, x.nv);
  }

  lemma LapsWithin(start: int, laps: nat, stride: int, bound: int)
    requires stride > 0 && start + laps * stride <= bound
    ensures laps <= (bound - start) / stride
  {
    var q := (bound - start) / stride;
    assert bound - start < (q + 1) * stride;
    Monotone(q + 1, laps, stride);
  }
}
