/**
 The interval analysis (crates/absint/src/analysis.rs): transfer functions and
 guard refinement along copy chains.

 Every step is shown to keep a store inside the state, given that the recorded
 comparisons and copies are true of it. Running the analysis and the theorem
 about whole runs are in `IntervalSoundness`.
 */
module IntervalAnalysis {
  import opened Wrappers
  import opened Graphs
  import opened Ir
  import opened Ssa
  import opened Intervals
  import opened Env

  // ------------------------------------------------------ transfer functions

  function EvalOperand(op: Operand, st: State): Interval {
    match op
    case Reg(r) => Get(st, r)
    case IntConst(c) => Singleton(c)
    case NullConst => Singleton(0)
    case OpaqueConst(_) => Top
  }

  function EvalRValue(rv: RValue, st: State): Interval {
    match rv
    case Use(op) => EvalOperand(op, st)
    case Bin(bop, lhs, rhs) =>
      var a, b := EvalOperand(lhs, st), EvalOperand(rhs, st);
      (match bop
       case Add => AddI(a, b)
       case Sub => SubI(a, b)
       case Mul => MulI(a, b)
       case OtherBin => Top)
    case Cmp(_, _, _) => MakeRange(0, 1)
    case Cast(castOp, _, operand) =>
      if castOp == ZExt || castOp == SExt then EvalOperand(operand, st) else Top
    case Select => Top
  }

  function ApplyInst(inst: Inst, st: State): State {
    match inst
    case Assign(dst, value) => Put(st, dst, EvalRValue(value, st))
    case Define(dst) => Put(st, dst, Top)
    case Effect => st
  }

  /** The first `n` instructions folded onto a state. */
  function ApplyFirst(insts: seq<Inst>, n: nat, st: State): State
    requires n <= |insts|
  {
    if n == 0 then st else ApplyInst(insts[n - 1], ApplyFirst(insts, n - 1, st))
  }

  method ApplyLoop(insts: seq<Inst>, n: nat, st: State) returns (out: State)
    requires n <= |insts|
    ensures out == ApplyFirst(insts, n, st)
  {
    out := st;
    for i := 0 to n
      invariant out == ApplyFirst(insts, i, st)
    {
      out := ApplyInst(insts[i], out);
    }
  }

  const COPY_LIMIT: nat := 64

  /** Tighten `reg`, then the register it was copied from, for at most `n` links. */
  function RefineReg(st: State, reg: nat, iv: Interval, copies: map<nat, nat>, n: nat): State
    decreases n
  {
    if n == 0 then st
    else
      var next := Put(st, reg, Meet(Get(st, reg), iv));
      if reg in copies && copies[reg] != reg then RefineReg(next, copies[reg], iv, copies, n - 1) else next
  }

  method RefineRegLoop(st: State, reg0: nat, iv: Interval, copies: map<nat, nat>) returns (out: State)
    ensures out == RefineReg(st, reg0, iv, copies, COPY_LIMIT)
  {
    out := st;
    var reg := reg0;
    for i := 0 to COPY_LIMIT
      invariant RefineReg(out, reg, iv, copies, COPY_LIMIT - i) == RefineReg(st, reg0, iv, copies, COPY_LIMIT)
    {
      out := Put(out, reg, Meet(Get(out, reg), iv));
      if reg in copies && copies[reg] != reg {
        reg := copies[reg];
      } else {
        return;
      }
    }
  }

  /** What the guard `lhs op rhs` says about its left and right side; none for unsigned tests and `!=`. */
  function LeftGuard(op: CmpOp, right: Interval): Option<Interval> {
    match op
    case Slt => Some(AsUpper(right, true))
    case Sle => Some(AsUpper(right, false))
    case Sgt => Some(AsLower(right, true))
    case Sge => Some(AsLower(right, false))
    case Eq => Some(right)
    case _ => None
  }

  function RightGuard(op: CmpOp, left: Interval): Option<Interval> {
    match op
    case Slt => Some(AsLower(left, true))
    case Sle => Some(AsLower(left, false))
    case Sgt => Some(AsUpper(left, true))
    case Sge => Some(AsUpper(left, false))
    case Eq => Some(left)
    case _ => None
  }

  function RefineSide(st: State, side: Operand, iv: Interval, guard: Option<Interval>, copies: map<nat, nat>): State {
    if side.Reg? && guard.Some? then RefineReg(st, side.r, Meet(iv, guard.value), copies, COPY_LIMIT) else st
  }

  /** Assert the comparison, or its negation, on the state. */
  function RefineByCmp(st: State, cop: CmpOp, lhs: Operand, rhs: Operand, negate: bool, copies: map<nat, nat>): State {
    var op := if negate then Negate(cop) else cop;
    var li, ri := EvalOperand(lhs, st), EvalOperand(rhs, st);
    RefineSide(RefineSide(st, lhs, li, LeftGuard(op, ri), copies), rhs, ri, RightGuard(op, li), copies)
  }

  function TransferBlock(f: Function, cfg: Cfg, node: nat, st: State): State {
    if st.Unreachable? then State.Unreachable
    else if node < |cfg.blocks| then
      match Lookup(f, cfg.blocks[node])
      case Some(b) => ApplyFirst(b.insts, |b.insts|, st)
      case None => st
    else st
  }

  function MatchingArgs(t: Terminator, to: nat): seq<seq<Operand>> {
    match t
    case Br(target, args) => if target == to then [args] else []
    case CondBr(_, thenBlk, thenArgs, elseBlk, elseArgs) =>
      (if thenBlk == to then [thenArgs] else []) + (if elseBlk == to then [elseArgs] else [])
    case _ => []
  }

  /** Set the first `n` parameters from the arguments, which are read in `exit`. */
  function BindFirst(params: seq<nat>, args: seq<Operand>, n: nat, exit: State, st: State): State
    requires n <= |params|
  {
    if n == 0 then st
    else
      Put(BindFirst(params, args, n - 1, exit, st), params[n - 1],
          if n - 1 < |args| then EvalOperand(args[n - 1], exit) else Top)
  }

  /** Join of the states bound from the first `n` argument lists. */
  function BindLists(params: seq<nat>, lists: seq<seq<Operand>>, n: nat, exit: State): State
    requires n <= |lists|
  {
    if n == 0 then State.Unreachable
    else JoinS(BindLists(params, lists, n - 1, exit), BindFirst(params, lists[n - 1], |params|, exit, exit))
  }

  /** The guard of the edge `b -> to`, asserted when it is unambiguously one side. */
  function Guarded(b: Block, to: nat, exit: State, cmps: map<nat, RValue>, copies: map<nat, nat>): State {
    if b.term.CondBr? && b.term.cond.Reg? && b.term.cond.r in cmps && cmps[b.term.cond.r].Cmp? &&
       (b.term.thenBlk == to) != (b.term.elseBlk == to)
    then
      var cmp := cmps[b.term.cond.r];
      RefineByCmp(exit, cmp.cop, cmp.lhs, cmp.rhs, b.term.elseBlk == to, copies)
    else exit
  }

  function EdgeState(b: Block, to: Block, exit: State, cmps: map<nat, RValue>, copies: map<nat, nat>): State {
    var refined := Guarded(b, to.id, exit, cmps, copies);
    var lists := MatchingArgs(b.term, to.id);
    if lists == [] then refined else BindLists(to.params, lists, |lists|, refined)
  }

  function TransferEdge(f: Function, cfg: Cfg, from: nat, to: nat, exit: State,
                        cmps: map<nat, RValue>, copies: map<nat, nat>): State {
    if exit.Unreachable? then State.Unreachable
    else if from < |cfg.blocks| && to < |cfg.blocks| then
      match (Lookup(f, cfg.blocks[from]), Lookup(f, cfg.blocks[to]))
      case (Some(b), Some(t)) => EdgeState(b, t, exit, cmps, copies)
      case _ => exit
    else exit
  }

  // ------------------------------------------------------ recorded facts

  ghost predicate CmpAt(f: Function, x: nat, j: nat, r: nat, rv: RValue) {
    x < |f.blocks| && j < |f.blocks[x].insts| && f.blocks[x].insts[j] == Assign(r, rv) && rv.Cmp?
  }

  ghost predicate CopyAt(f: Function, x: nat, j: nat, r: nat, src: nat) {
    x < |f.blocks| && j < |f.blocks[x].insts| && f.blocks[x].insts[j] == Assign(r, Use(Reg(src)))
  }

  /** Each recorded comparison is some instruction of the function, and none is missed. */
  ghost predicate IsCmpMap(f: Function, cmps: map<nat, RValue>) {
    && (forall r: nat :: r in cmps ==> exists x: nat, j: nat :: CmpAt(f, x, j, r, cmps[r]))
    && (forall x: nat, j: nat, r: nat, rv: RValue :: CmpAt(f, x, j, r, rv) ==> r in cmps)
  }

  ghost predicate IsCopyMap(f: Function, copies: map<nat, nat>) {
    && (forall r: nat :: r in copies ==> exists x: nat, j: nat :: CopyAt(f, x, j, r, copies[r]))
    && (forall x: nat, j: nat, r: nat, src: nat :: CopyAt(f, x, j, r, src) ==> r in copies)
  }

  method CollectCmps(f: Function) returns (cmps: map<nat, RValue>)
    ensures IsCmpMap(f, cmps)
  {
    cmps := map[];
    for x := 0 to |f.blocks|
      invariant forall r: nat :: r in cmps ==> exists y: nat, j: nat :: CmpAt(f, y, j, r, cmps[r])
      invariant forall y: nat, j: nat, r: nat, rv: RValue :: y < x && CmpAt(f, y, j, r, rv) ==> r in cmps
    {
      var insts := f.blocks[x].insts;
      for i := 0 to |insts|
        invariant forall r: nat :: r in cmps ==> exists y: nat, j: nat :: CmpAt(f, y, j, r, cmps[r])
        invariant forall y: nat, j: nat, r: nat, rv: RValue ::
                    (y < x || (y == x && j < i)) && CmpAt(f, y, j, r, rv) ==> r in cmps
      {
        if insts[i].Assign? && insts[i].value.Cmp? {
          assert CmpAt(f, x, i, insts[i].dst, insts[i].value);
          cmps := cmps[insts[i].dst := insts[i].value];
        }
      }
    }
  }

  method CollectCopies(f: Function) returns (copies: map<nat, nat>)
    ensures IsCopyMap(f, copies)
  {
    copies := map[];
    for x := 0 to |f.blocks|
      invariant forall r: nat :: r in copies ==> exists y: nat, j: nat :: CopyAt(f, y, j, r, copies[r])
      invariant forall y: nat, j: nat, r: nat, src: nat :: y < x && CopyAt(f, y, j, r, src) ==> r in copies
    {
      var insts := f.blocks[x].insts;
      for i := 0 to |insts|
        invariant forall r: nat :: r in copies ==> exists y: nat, j: nat :: CopyAt(f, y, j, r, copies[r])
        invariant forall y: nat, j: nat, r: nat, src: nat ::
                    (y < x || (y == x && j < i)) && CopyAt(f, y, j, r, src) ==> r in copies
      {
        if insts[i].Assign? && insts[i].value.Use? && insts[i].value.op.Reg? {
          assert CopyAt(f, x, i, insts[i].dst, insts[i].value.op.r);
          copies := copies[insts[i].dst := insts[i].value.op.r];
        }
      }
    }
  }

  // ---------------------------------------------------- one step is sound

  /** Every register holds a value of magnitude at most 2^126. */
  ghost predicate StoreSmall(s: Store) {
    forall r: nat :: Small(Val(s, r))
  }

  predicate OperandSmall(op: Operand) {
    op.IntConst? ==> Small(op.v)
  }

  /** Integer constants of the function are small too. */
  ghost predicate InstSmall(inst: Inst) {
    inst.Assign? ==>
      match inst.value
      case Use(op) => OperandSmall(op)
      case Bin(_, lhs, rhs) => OperandSmall(lhs) && OperandSmall(rhs)
      case Cmp(_, lhs, rhs) => OperandSmall(lhs) && OperandSmall(rhs)
      case Cast(_, _, operand) => OperandSmall(operand)
      case Select => true
  }

  ghost predicate ArgsSmall(args: seq<Operand>) {
    forall i :: 0 <= i < |args| ==> OperandSmall(args[i])
  }

  ghost predicate ConstantsSmall(f: Function) {
    forall x: nat :: x < |f.blocks| ==>
      && (forall j: nat :: j < |f.blocks[x].insts| ==> InstSmall(f.blocks[x].insts[j]))
      && (f.blocks[x].term.Br? ==> ArgsSmall(f.blocks[x].term.args))
      && (f.blocks[x].term.CondBr? ==> ArgsSmall(f.blocks[x].term.thenArgs) && ArgsSmall(f.blocks[x].term.elseArgs))
  }

  /** A zero extension reads a value that is not negative. */
  ghost predicate ZExtPlain(inst: Inst, s: Store) {
    inst.Assign? && inst.value.Cast? && inst.value.castOp == ZExt ==>
      match inst.value.operand
      case Reg(r) => Val(s, r) >= 0
      case IntConst(c) => c >= 0
      case _ => true
  }

  lemma EvalOperandSound(op: Operand, st: State, s: Store, v: int)
    requires Models(st, s) && Denotes(op, s, v)
    ensures Has(EvalOperand(op, st), v)
  {
  }

  lemma EvalOperandOk(op: Operand, st: State)
    requires StateOk(st) && OperandSmall(op)
    ensures IntervalOk(EvalOperand(op, st))
  {
    if op.Reg? {
      GetOk(st, op.r);
    }
  }

  lemma EvalBinSound(bop: BinOp, a: Interval, b: Interval, x: int, y: int, v: int)
    requires IntervalOk(a) && IntervalOk(b) && Has(a, x) && Has(b, y) && Computes(bop, x, y, v) && Small(v)
    requires (a == Top || Small(x)) && (b == Top || Small(y))
    ensures bop == Add ==> Has(AddI(a, b), v)
    ensures bop == Sub ==> Has(SubI(a, b), v)
    ensures bop == Mul ==> Has(MulI(a, b), v)
  {
    hide AddI, SubI, MulI, Has;
    match bop
    case Add => AddSound(a, b, x, y);
    case Sub => SubSound(a, b, x, y);
    case Mul => MulSound(a, b, x, y);
    case OtherBin =>
  }

  lemma OperandMagnitude(op: Operand, st: State, s: Store, v: int)
    requires StoreSmall(s) && OperandSmall(op) && Denotes(op, s, v)
    ensures EvalOperand(op, st) == Top || Small(v)
  {
  }

  lemma EvalRValueSound(inst: Inst, st: State, s: Store, v: int)
    requires inst.Assign? && InstSmall(inst) && StateOk(st) && Models(st, s) && StoreSmall(s)
    requires Evaluates(inst.value, s, v) && Small(v) && ZExtPlain(inst, s)
    ensures Has(EvalRValue(inst.value, st), v)
  {
    hide StoreSmall, StateOk, Models, SubI, AddI, MulI;
    match inst.value
    case Use(op) => EvalOperandSound(op, st, s, v);
    case Bin(bop, lhs, rhs) =>
      var x, y :| Denotes(lhs, s, x) && Denotes(rhs, s, y) && Computes(bop, x, y, v);
      EvalOperandSound(lhs, st, s, x);
      EvalOperandSound(rhs, st, s, y);
      EvalOperandOk(lhs, st);
      EvalOperandOk(rhs, st);
      OperandMagnitude(lhs, st, s, x);
      OperandMagnitude(rhs, st, s, y);
      EvalBinSound(bop, EvalOperand(lhs, st), EvalOperand(rhs, st), x, y, v);
    case Cmp(_, _, _) =>
    case Cast(castOp, bits, operand) =>
      if castOp == SExt {
        EvalOperandSound(operand, st, s, v);
      } else if castOp == ZExt {
        var a :| Denotes(operand, s, a) && v == ZeroExtended(bits, a);
        EvalOperandSound(operand, st, s, a);
      }
    case Select =>
  }

  lemma EvalRValueOk(inst: Inst, st: State)
    requires inst.Assign? && InstSmall(inst) && StateOk(st)
    ensures IntervalOk(EvalRValue(inst.value, st))
  {
    hide SubI, AddI, MulI, StateOk, Get;
    match inst.value
    case Use(op) => EvalOperandOk(op, st);
    case Bin(bop, lhs, rhs) =>
      EvalOperandOk(lhs, st);
      EvalOperandOk(rhs, st);
      ArithmeticOk(EvalOperand(lhs, st), EvalOperand(rhs, st));
    case Cmp(_, _, _) =>
    case Cast(castOp, _, operand) => EvalOperandOk(operand, st);
    case Select =>
  }

  lemma ApplyInstSound(inst: Inst, st: State, s: Store, s': Store)
    requires InstSmall(inst) && StateOk(st) && Models(st, s) && StoreSmall(s) && StoreSmall(s')
    requires Steps(inst, s, s') && ZExtPlain(inst, s)
    ensures Models(ApplyInst(inst, st), s')
  {
    match inst
    case Assign(dst, value) =>
      assert Small(Val(s', dst));
      hide Models, EvalRValue, Evaluates, StoreSmall, StateOk, InstSmall, ZExtPlain;
      EvalRValueSound(inst, st, s, s'[dst]);
      AssignModels(st, s, s', dst, EvalRValue(value, st));
    case Define(dst) =>
      AssignModels(st, s, s', dst, Top);
    case Effect =>
  }

  lemma ApplyInstOk(inst: Inst, st: State)
    requires InstSmall(inst) && StateOk(st)
    ensures StateOk(ApplyInst(inst, st))
  {
    hide EvalRValue, StateOk;
    match inst
    case Assign(dst, value) =>
      EvalRValueOk(inst, st);
      PutOk(st, dst, EvalRValue(value, st));
    case Define(dst) =>
      PutOk(st, dst, Top);
    case Effect =>
  }

  lemma {:induction false} ApplyFirstOk(insts: seq<Inst>, n: nat, st: State)
    requires n <= |insts| && StateOk(st) && forall j: nat :: j < |insts| ==> InstSmall(insts[j])
    ensures StateOk(ApplyFirst(insts, n, st))
  {
    if n > 0 {
      ApplyFirstOk(insts, n - 1, st);
      ApplyInstOk(insts[n - 1], ApplyFirst(insts, n - 1, st));
    }
  }

  /** The signed values of a `bits`-wide operand. */
  predicate SignedValue(bits: nat, a: int) {
    -(Pow2(bits) as int) <= 2 * a < Pow2(bits)
  }

  /** An 8-bit -1 becomes 255, which the interval of -1 does not have. */
  lemma ZExtMisses(r: nat)
    ensures var st, s, ext := Reachable(map[r := Singleton(-1)]), map[r := -1], Cast(ZExt, 8, Reg(r));
            Models(st, s) && Evaluates(ext, s, 255) && !Has(EvalRValue(ext, st), 255)
  {
    assert Pow2(3) == 8 && Pow2(6) == 64;
    assert Denotes(Reg(r), map[r := -1], -1) && ZeroExtended(8, -1) == 255;
  }

  /**
   Keeping the interval through a zero extension is sound if and only if the interval holds no
   negative operand value, or already reaches the largest extended value.
   */
  lemma ZExtKeepsExactly(i: Interval, bits: nat)
    requires bits >= 1
    ensures (forall a :: SignedValue(bits, a) && Has(i, a) ==> Has(i, ZeroExtended(bits, a))) <==>
            (Meet(i, MakeRange(-(Pow2(bits - 1) as int), -1)).Bottom? || Le(Fin(Pow2(bits) - 1), i.hi))
  {
    PowPositive(bits - 1);
    assert Pow2(bits) == 2 * Pow2(bits - 1);
    var negative := Meet(i, MakeRange(-(Pow2(bits - 1) as int), -1));
    if negative.Range? && !Le(Fin(Pow2(bits) - 1), i.hi) {
      var w := negative.hi.n;
      MeetExact(i, MakeRange(-(Pow2(bits - 1) as int), -1), w);
      assert SignedValue(bits, w) && Has(i, w) && !Has(i, ZeroExtended(bits, w));
    }
  }

  lemma {:induction false} PowPositive(n: nat)
    ensures Pow2(n) >= 1
  {
    if n > 0 {
      PowPositive(n - 1);
    }
  }

  // ------------------------------------------------- guards are sound

  /** Every definition of `r` lies on every path to the end of block `y`. */
  ghost predicate DefsDominate(f: Function, cfg: Cfg, r: nat, y: nat) {
    forall d: nat, k: nat :: DefAt(f, d, k, r) ==> Dominates(cfg.g, cfg.entry, d, y)
  }

  lemma ReadsDominate(f: Function, cfg: Cfg, x: nat, j: nat, y: nat, r: nat)
    requires StrictSsa(f, cfg) && RecordAt(f, x, j) && Reads(f.blocks[x].insts[j], r)
    requires Dominates(cfg.g, cfg.entry, x, y)
    ensures DefsDominate(f, cfg, r, y)
  {
    forall d: nat, k: nat | DefAt(f, d, k, r) ensures Dominates(cfg.g, cfg.entry, d, y) {
      assert Precedes(cfg, d, k, x, j + 1);
      hide Dominates;
      if d != x {
        DominatesTrans(cfg.g, cfg.entry, d, x, y);
      }
    }
  }

  /** Meeting along the copy chain keeps every store in which the copies are equal. */
  lemma {:induction false} RefineRegSound(f: Function, cfg: Cfg, y: nat, st: State, s: Store, reg: nat, iv: Interval,
                                          copies: map<nat, nat>, n: nat)
    requires StrictSsa(f, cfg) && AllRecords(f, cfg, y, s) && IsCopyMap(f, copies)
    requires Models(st, s) && Has(iv, Val(s, reg)) && DefsDominate(f, cfg, reg, y)
    ensures Models(RefineReg(st, reg, iv, copies, n), s)
    decreases n
  {
    if n > 0 {
      ModelsGet(st, s, reg);
      MeetExact(Get(st, reg), iv, Val(s, reg));
      PutModels(st, s, reg, Meet(Get(st, reg), iv));
      if reg in copies && copies[reg] != reg {
        CopyEqual(f, cfg, y, s, reg, copies);
        hide Models, Has, IsCopyMap, StrictSsa, AllRecords, DefsDominate;
        RefineRegSound(f, cfg, y, Put(st, reg, Meet(Get(st, reg), iv)), s, copies[reg], iv, copies, n - 1);
      }
    }
  }

  lemma CopyEqual(f: Function, cfg: Cfg, y: nat, s: Store, reg: nat, copies: map<nat, nat>)
    requires StrictSsa(f, cfg) && AllRecords(f, cfg, y, s) && IsCopyMap(f, copies)
    requires reg in copies && DefsDominate(f, cfg, reg, y)
    ensures Val(s, copies[reg]) == Val(s, reg) && DefsDominate(f, cfg, copies[reg], y)
  {
    var x: nat, j: nat :| CopyAt(f, x, j, reg, copies[reg]);
    assert DefAt(f, x, j + 1, reg);
    assert RecordAt(f, x, j) && Dominates(cfg.g, cfg.entry, x, y);
    assert RecordHolds(f.blocks[x].insts[j], s);
    ReadsDominate(f, cfg, x, j, y, copies[reg]);
  }

  lemma GuardsSound(op: CmpOp, li: Interval, ri: Interval, a: int, b: int)
    requires IntervalOk(li) && IntervalOk(ri) && Has(li, a) && Has(ri, b) && Truth(op, a, b)
    requires InI128(a) && InI128(b)
    ensures LeftGuard(op, ri).Some? ==> Has(Meet(li, LeftGuard(op, ri).value), a)
    ensures RightGuard(op, li).Some? ==> Has(Meet(ri, RightGuard(op, li).value), b)
  {
    UpperSound(ri, a, b);
    LowerSound(ri, a, b);
    UpperSound(li, b, a);
    LowerSound(li, b, a);
    if LeftGuard(op, ri).Some? {
      MeetExact(li, LeftGuard(op, ri).value, a);
      MeetExact(ri, RightGuard(op, li).value, b);
    }
    hide Has, Meet, AsUpper, AsLower, IntervalOk;
  }

  /** A side whose value is not known to fit 128 bits is never a register, so it is not refined. */
  lemma RefineSideSound(f: Function, cfg: Cfg, y: nat, st: State, s: Store, side: Operand, iv: Interval,
                        guard: Option<Interval>, copies: map<nat, nat>)
    requires StrictSsa(f, cfg) && AllRecords(f, cfg, y, s) && IsCopyMap(f, copies) && Models(st, s)
    requires side.Reg? ==> DefsDominate(f, cfg, side.r, y)
    requires side.Reg? && guard.Some? ==> Has(Meet(iv, guard.value), Val(s, side.r))
    ensures Models(RefineSide(st, side, iv, guard, copies), s)
  {
    if side.Reg? && guard.Some? {
      RefineRegSound(f, cfg, y, st, s, side.r, Meet(iv, guard.value), copies, COPY_LIMIT);
    }
  }

  lemma OperandFits(op: Operand, st: State, s: Store, a: int)
    requires StoreSmall(s) && OperandSmall(op) && Denotes(op, s, a)
    ensures InI128(a) || (EvalOperand(op, st) == Top && !op.Reg?)
  {
  }

  /** Facing an unknown constant, a guard leaves its other side as wide as it was. */
  lemma TopGuards(op: CmpOp, li: Interval, a: int)
    requires Has(li, a) && LeftGuard(op, Top).Some?
    ensures Has(Meet(li, LeftGuard(op, Top).value), a) && Has(Meet(li, RightGuard(op, Top).value), a)
  {
    MeetExact(li, LeftGuard(op, Top).value, a);
    MeetExact(li, RightGuard(op, Top).value, a);
  }

  lemma BothSides(op: CmpOp, st: State, s: Store, lhs: Operand, rhs: Operand, a: int, b: int)
    requires StateOk(st) && Models(st, s) && StoreSmall(s) && OperandSmall(lhs) && OperandSmall(rhs)
    requires Denotes(lhs, s, a) && Denotes(rhs, s, b) && Truth(op, a, b)
    ensures var li, ri := EvalOperand(lhs, st), EvalOperand(rhs, st);
            && (lhs.Reg? && LeftGuard(op, ri).Some? ==> Has(Meet(li, LeftGuard(op, ri).value), a))
            && (rhs.Reg? && RightGuard(op, li).Some? ==> Has(Meet(ri, RightGuard(op, li).value), b))
  {
    var li, ri := EvalOperand(lhs, st), EvalOperand(rhs, st);
    EvalOperandSound(lhs, st, s, a);
    EvalOperandSound(rhs, st, s, b);
    EvalOperandOk(lhs, st);
    EvalOperandOk(rhs, st);
    OperandFits(lhs, st, s, a);
    OperandFits(rhs, st, s, b);
    hide Has, Meet, AsUpper, AsLower, IntervalOk, Models, StateOk, StoreSmall, EvalOperand, Truth;
    if InI128(a) && InI128(b) {
      GuardsSound(op, li, ri, a, b);
    } else {
      if lhs.Reg? && LeftGuard(op, ri).Some? {
        TopGuards(op, li, a);
      }
      if rhs.Reg? && RightGuard(op, li).Some? {
        TopGuards(op, ri, b);
      }
    }
  }

  /** Asserting a comparison that holds keeps the store. */
  lemma RefineByCmpSound(f: Function, cfg: Cfg, y: nat, x: nat, j: nat, st: State, s: Store,
                         negate: bool, copies: map<nat, nat>)
    requires StrictSsa(f, cfg) && AllRecords(f, cfg, y, s) && IsCopyMap(f, copies) && StoreSmall(s)
    requires StateOk(st) && Models(st, s) && Dominates(cfg.g, cfg.entry, x, y)
    requires RecordAt(f, x, j) && f.blocks[x].insts[j].value.Cmp? && InstSmall(f.blocks[x].insts[j])
    requires (Val(s, f.blocks[x].insts[j].dst) != 0) == !negate
    ensures var cmp := f.blocks[x].insts[j].value;
            Models(RefineByCmp(st, cmp.cop, cmp.lhs, cmp.rhs, negate, copies), s)
  {
    var inst := f.blocks[x].insts[j];
    var cmp := inst.value;
    var op := if negate then Negate(cmp.cop) else cmp.cop;
    assert RecordHolds(inst, s);
    var a, b :| Denotes(cmp.lhs, s, a) && Denotes(cmp.rhs, s, b) &&
                Val(s, inst.dst) == (if Truth(cmp.cop, a, b) then 1 else 0);
    NegateExact(cmp.cop, a, b);
    BothSides(op, st, s, cmp.lhs, cmp.rhs, a, b);
    if cmp.lhs.Reg? {
      assert Reads(inst, cmp.lhs.r);
      ReadsDominate(f, cfg, x, j, y, cmp.lhs.r);
    }
    if cmp.rhs.Reg? {
      assert Reads(inst, cmp.rhs.r);
      ReadsDominate(f, cfg, x, j, y, cmp.rhs.r);
    }
    hide StrictSsa, AllRecords, IsCopyMap, Models, Has, Meet, DefsDominate, Dominates, LeftGuard, RightGuard;
    var li, ri := EvalOperand(cmp.lhs, st), EvalOperand(cmp.rhs, st);
    RefineSideSound(f, cfg, y, st, s, cmp.lhs, li, LeftGuard(op, ri), copies);
    RefineSideSound(f, cfg, y, RefineSide(st, cmp.lhs, li, LeftGuard(op, ri), copies), s,
                    cmp.rhs, ri, RightGuard(op, li), copies);
  }

  /** The guard that control has just passed keeps the store. */
  lemma GuardedSound(f: Function, cfg: Cfg, v: Visit, to: Block, s': Store, st: State,
                     cmps: map<nat, RValue>, copies: map<nat, nat>)
    requires StrictSsa(f, cfg) && IsCmpMap(f, cmps) && IsCopyMap(f, copies) && ConstantsSmall(f)
    requires Ir.Finished(f, v) && AllRecords(f, cfg, v.node, Final(v)) && StoreSmall(Final(v))
    requires StateOk(st) && Models(st, Final(v)) && Passes(f.blocks[v.node], Final(v), to, s')
    ensures Models(Guarded(f.blocks[v.node], to.id, st, cmps, copies), Final(v))
  {
    var b := f.blocks[v.node];
    if Guarded(b, to.id, st, cmps, copies) != st {
      var c := b.term.cond.r;
      var x: nat, j: nat :| CmpAt(f, x, j, c, cmps[c]);
      assert DefAt(f, x, j + 1, c) && RecordAt(f, x, j);
      assert Dominates(cfg.g, cfg.entry, x, v.node);
      hide StrictSsa, AllRecords, IsCopyMap, IsCmpMap, Models, Dominates, StoreSmall, StateOk;
      RefineByCmpSound(f, cfg, v.node, x, j, st, Final(v), b.term.elseBlk == to.id, copies);
    }
  }

  // ------------------------------------------------- binding is sound

  /** After `n` parameters, every register that is not waiting for its argument is right for the new store. */
  lemma {:induction false} BindFirstSound(params: seq<nat>, args: seq<Operand>, n: nat, exit: State, s: Store,
                                          s': Store)
    requires n <= |params| && Models(exit, s) && Binds(params, args, s, s')
    ensures BindFirst(params, args, n, exit, exit).Reachable?
    ensures forall r: nat :: r !in params[n..] || r in params[..n] ==>
              Has(Get(BindFirst(params, args, n, exit, exit), r), Val(s', r))
  {
    if n == 0 {
      forall r: nat | r !in params[0..] ensures Has(Get(exit, r), Val(s', r)) {
        assert r !in params;
        ModelsGet(exit, s, r);
      }
    } else {
      BindFirstSound(params, args, n - 1, exit, s, s');
      var p := params[n - 1];
      var before := BindFirst(params, args, n - 1, exit, exit);
      if n - 1 < |args| {
        EvalOperandSound(args[n - 1], exit, s, Val(s', p));
      }
      forall r: nat | r !in params[n..] || r in params[..n]
        ensures Has(Get(BindFirst(params, args, n, exit, exit), r), Val(s', r))
      {
        if r != p {
          assert params[n - 1..] == [p] + params[n..];
          assert params[..n] == params[..n - 1] + [p];
        }
      }
    }
  }

  lemma BindSound(params: seq<nat>, args: seq<Operand>, exit: State, s: Store, s': Store)
    requires Models(exit, s) && Binds(params, args, s, s')
    ensures Models(BindFirst(params, args, |params|, exit, exit), s')
  {
    BindFirstSound(params, args, |params|, exit, s, s');
    var st := BindFirst(params, args, |params|, exit, exit);
    forall r: nat | r in st.regs ensures Has(st.regs[r], Val(s', r)) {
      assert r !in params[|params|..];
      assert Has(Get(st, r), Val(s', r));
    }
  }

  lemma {:induction false} BindListsAbove(params: seq<nat>, lists: seq<seq<Operand>>, n: nat, k: nat, exit: State)
    requires k < n <= |lists|
    ensures LeqS(BindFirst(params, lists[k], |params|, exit, exit), BindLists(params, lists, n, exit))
  {
    hide LeqS, JoinS, BindFirst;
    var one := BindFirst(params, lists[n - 1], |params|, exit, exit);
    var rest := BindLists(params, lists, n - 1, exit);
    JoinAbove(rest, one);
    if k < n - 1 {
      BindListsAbove(params, lists, n - 1, k, exit);
      LeqTrans(BindFirst(params, lists[k], |params|, exit, exit), rest, JoinS(rest, one));
    }
  }

  lemma EdgeArgs(b: Block, s: Store, to: Block, s': Store) returns (k: nat)
    requires Passes(b, s, to, s') && !b.term.Switch?
    ensures k < |MatchingArgs(b.term, to.id)| && Binds(to.params, MatchingArgs(b.term, to.id)[k], s, s')
  {
    if b.term.CondBr? && !(b.term.thenBlk == to.id && Binds(to.params, b.term.thenArgs, s, s')) {
      k := |MatchingArgs(b.term, to.id)| - 1;
    } else {
      k := 0;
    }
  }

  /** The edge contribution covers every store that control can carry over the edge. */
  lemma EdgeStateSound(f: Function, cfg: Cfg, v: Visit, to: Block, s': Store, st: State,
                       cmps: map<nat, RValue>, copies: map<nat, nat>)
    requires StrictSsa(f, cfg) && IsCmpMap(f, cmps) && IsCopyMap(f, copies) && ConstantsSmall(f)
    requires Ir.Finished(f, v) && AllRecords(f, cfg, v.node, Final(v)) && StoreSmall(Final(v))
    requires StateOk(st) && Models(st, Final(v)) && Passes(f.blocks[v.node], Final(v), to, s')
    ensures Models(EdgeState(f.blocks[v.node], to, st, cmps, copies), s')
  {
    GuardedSound(f, cfg, v, to, s', st, cmps, copies);
    hide StrictSsa, AllRecords, IsCopyMap, IsCmpMap, Models, StoreSmall, StateOk, Guarded, ConstantsSmall;
    var b := f.blocks[v.node];
    if !b.term.Switch? {
      var k := EdgeArgs(b, Final(v), to, s');
      var lists := MatchingArgs(b.term, to.id);
      var refined := Guarded(b, to.id, st, cmps, copies);
      hide Passes, MatchingArgs, Binds;
      BindSound(to.params, lists[k], refined, Final(v), s');
      BindListsAbove(to.params, lists, |lists|, k, refined);
      LeqModels(BindFirst(to.params, lists[k], |to.params|, refined, refined),
                BindLists(to.params, lists, |lists|, refined), s');
    }
  }
}
