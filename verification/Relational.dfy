/**
 The relational analysis (crates/absint/src/relational.rs): affine transfer
 functions, guard refinement and edge binding on zones.

 Every step is shown to keep a store inside the zone. For guards and for edge
 binding it is shown exactly when it does. Running the analysis and the theorem
 about whole runs are in `RelationalSoundness`.
 */
module Relational {
  import opened Wrappers
  import opened Ir
  import opened Ssa
  import opened Zones

  // -------------------------------------------------------- tracked registers

  /** The tracked registers in zone order; register `regs[i]` is zone node `i + 1`. */
  datatype Index = Index(regs: seq<nat>, at: map<nat, nat>)

  ghost predicate IndexOk(ix: Index) {
    && (forall r: nat :: r in ix.at ==> 0 < ix.at[r] <= |ix.regs| && ix.regs[ix.at[r] - 1] == r)
    && (forall i: nat :: i < |ix.regs| ==> ix.regs[i] in ix.at && ix.at[ix.regs[i]] == i + 1)
  }

  const MAX_VARS: nat := 32

  /** Register `r` is a block parameter or an instruction result. */
  ghost predicate DefinedIn(f: Function, r: nat) {
    exists x: nat, i: nat :: DefAt(f, x, i, r)
  }

  method Track(ix: Index, r: nat) returns (out: Index)
    requires IndexOk(ix)
    ensures IndexOk(out) && out.at.Keys == ix.at.Keys + {r}
  {
    if r in ix.at {
      out := ix;
    } else {
      out := Index(ix.regs + [r], ix.at[r := |ix.regs| + 1]);
    }
  }

  ghost function ParamDefs(params: seq<nat>, n: nat): set<nat>
    requires n <= |params|
  {
    if n == 0 then {} else ParamDefs(params, n - 1) + {params[n - 1]}
  }

  ghost function InstDefs(insts: seq<Inst>, n: nat): set<nat>
    requires n <= |insts|
  {
    if n == 0 then {}
    else InstDefs(insts, n - 1) + (match DefinedReg(insts[n - 1]) case Some(r) => {r} case None => {})
  }

  /** The registers defined in the first `x` blocks. */
  ghost function Defs(f: Function, x: nat): set<nat>
    requires x <= |f.blocks|
  {
    if x == 0 then {}
    else
      var b := f.blocks[x - 1];
      Defs(f, x - 1) + ParamDefs(b.params, |b.params|) + InstDefs(b.insts, |b.insts|)
  }

  lemma {:induction false} ParamDefsHas(params: seq<nat>, n: nat, r: nat)
    requires n <= |params|
    ensures r in ParamDefs(params, n) <==> r in params[..n]
  {
    if n > 0 {
      ParamDefsHas(params, n - 1, r);
      assert params[..n] == params[..n - 1] + [params[n - 1]];
    }
  }

  lemma {:induction false} InstDefsHas(insts: seq<Inst>, n: nat, r: nat)
    requires n <= |insts|
    ensures r in InstDefs(insts, n) <==> exists j: nat :: j < n && DefinedReg(insts[j]) == Some(r)
  {
    if n > 0 {
      InstDefsHas(insts, n - 1, r);
    }
  }

  lemma {:induction false} DefsHas(f: Function, x: nat, r: nat)
    requires x <= |f.blocks|
    ensures r in Defs(f, x) <==> exists y: nat, i: nat :: y < x && DefAt(f, y, i, r)
  {
    if x > 0 {
      var b := f.blocks[x - 1];
      DefsHas(f, x - 1, r);
      ParamDefsHas(b.params, |b.params|, r);
      InstDefsHas(b.insts, |b.insts|, r);
      assert b.params[..|b.params|] == b.params;
      if r in ParamDefs(b.params, |b.params|) {
        assert DefAt(f, x - 1, 0, r);
      }
      if r in InstDefs(b.insts, |b.insts|) {
        var j: nat :| j < |b.insts| && DefinedReg(b.insts[j]) == Some(r);
        assert DefAt(f, x - 1, j + 1, r);
      }
      if exists y: nat, i: nat :: y < x && DefAt(f, y, i, r) {
        var y: nat, i: nat :| y < x && DefAt(f, y, i, r);
        if y == x - 1 && i > 0 {
          assert DefinedReg(b.insts[i - 1]) == Some(r);
        }
      }
    }
  }

  /** The registers the function defines. */
  ghost predicate Collected(f: Function, d: set<nat>) {
    forall r: nat :: r in d <==> DefinedIn(f, r)
  }

  lemma DefsCollected(f: Function)
    ensures Collected(f, Defs(f, |f.blocks|))
  {
    forall r: nat ensures r in Defs(f, |f.blocks|) <==> DefinedIn(f, r) {
      DefsHas(f, |f.blocks|, r);
      assert DefinedIn(f, r) <==> exists y: nat, i: nat :: y < |f.blocks| && DefAt(f, y, i, r);
    }
  }

  /** Every register of an index has one node. */
  lemma {:induction false} KeysCounted(ix: Index, n: nat)
    requires IndexOk(ix) && n <= |ix.regs|
    ensures |set i: nat | i < n :: ix.regs[i]| == n
    ensures (set i: nat | i < |ix.regs| :: ix.regs[i]) == ix.at.Keys
  {
    if n > 0 {
      KeysCounted(ix, n - 1);
      var less, all := (set i: nat | i < n - 1 :: ix.regs[i]), (set i: nat | i < n :: ix.regs[i]);
      assert all == less + {ix.regs[n - 1]};
    }
  }

  /** Track every defined register, or none at all when there are more than thirty-two. */
  method BuildIndex(f: Function) returns (ix: Index)
    ensures IndexOk(ix) && |ix.regs| <= MAX_VARS
    ensures ix.regs == [] || forall r: nat :: r in ix.at <==> DefinedIn(f, r)
    ensures exists d: set<nat> :: Collected(f, d) && ix.at.Keys == if |d| <= 32 then d else {}
  {
    hide IndexOk, DefinedIn;
    ix := Index([], map[]);
    EmptyIndex();
    for x := 0 to |f.blocks|
      invariant IndexOk(ix) && ix.at.Keys == Defs(f, x)
    {
      var b := f.blocks[x];
      for i := 0 to |b.params|
        invariant IndexOk(ix) && ix.at.Keys == Defs(f, x) + ParamDefs(b.params, i)
      {
        ix := Track(ix, b.params[i]);
      }
      for i := 0 to |b.insts|
        invariant IndexOk(ix)
        invariant ix.at.Keys == Defs(f, x) + ParamDefs(b.params, |b.params|) + InstDefs(b.insts, i)
      {
        var d := DefinedReg(b.insts[i]);
        if d.Some? {
          ix := Track(ix, d.value);
        }
      }
    }
    DefsCollected(f);
    KeysCounted(ix, |ix.regs|);
    if |ix.regs| > MAX_VARS {
      ix := Index([], map[]);
    }
  }

  lemma EmptyIndex()
    ensures IndexOk(Index([], map[]))
  {
  }

  function Idx(ix: Index, r: nat): Option<nat> {
    if r in ix.at then Some(ix.at[r]) else None
  }

  /** The valuation of the zone nodes in a store. */
  function Vec(ix: Index, s: Store): (v: seq<int>)
    ensures |v| == |ix.regs| + 1
  {
    [0] + seq(|ix.regs|, i requires 0 <= i < |ix.regs| => Val(s, ix.regs[i]))
  }

  lemma VecNth(ix: Index, s: Store, i: nat)
    requires i <= |ix.regs|
    ensures Vec(ix, s)[i] == if i == 0 then 0 else Val(s, ix.regs[i - 1])
  {
  }

  lemma AtOk(ix: Index, r: nat)
    requires IndexOk(ix)
    ensures r in ix.at ==> 0 < ix.at[r] <= |ix.regs| && ix.regs[ix.at[r] - 1] == r
  {
  }

  lemma NodeOf(ix: Index, i: nat)
    requires IndexOk(ix) && i < |ix.regs|
    ensures ix.regs[i] in ix.at && ix.at[ix.regs[i]] == i + 1
  {
  }

  lemma VecAt(ix: Index, s: Store, r: nat)
    requires IndexOk(ix) && r in ix.at
    ensures 0 < ix.at[r] < |Vec(ix, s)| && Vec(ix, s)[ix.at[r]] == Val(s, r)
  {
    AtOk(ix, r);
    VecNth(ix, s, ix.at[r]);
  }

  /** Changing one register changes its node, if it has one. */
  lemma VecUpdate(ix: Index, s: Store, s': Store, r: nat)
    requires IndexOk(ix) && forall q: nat :: q != r ==> Val(s', q) == Val(s, q)
    ensures if r in ix.at then ix.at[r] < |Vec(ix, s)| && Vec(ix, s') == Vec(ix, s)[ix.at[r] := Val(s', r)]
            else Vec(ix, s') == Vec(ix, s)
  {
    hide IndexOk, Vec, Val;
    AtOk(ix, r);
    var u := if r in ix.at then Vec(ix, s)[ix.at[r] := Val(s', r)] else Vec(ix, s);
    forall i: nat | i < |u| ensures Vec(ix, s')[i] == u[i] {
      VecNth(ix, s, i);
      VecNth(ix, s', i);
      if i > 0 {
        NodeOf(ix, i - 1);
      }
    }
    assert Vec(ix, s') == u;
  }

  // ------------------------------------------------------ transfer functions

  /** Node `d` becomes node `s` plus `c`. */
  function SetAffine(z: Zone, d: nat, s: nat, c: int): (r: Zone)
    requires Shaped(z)
    ensures Shaped(r)
  {
    AddConstraint(AddConstraint(Forget(z, d), d, s, c), s, d, -c)
  }

  function ApplyZ(ix: Index, inst: Inst, z: Zone): (r: Zone)
    requires Shaped(z)
    ensures Shaped(r)
  {
    match DefinedReg(inst)
    case None => z
    case Some(dst) =>
      match Idx(ix, dst)
      case None => z
      case Some(di) =>
        match inst
        case Assign(_, Use(IntConst(c))) => SetAffine(z, di, 0, c)
        case Assign(_, Use(Reg(src))) => SetOrForget(ix, z, di, src, 0)
        case Assign(_, Bin(Add, Reg(a), IntConst(c))) => StepOrSet(ix, z, di, a, c)
        case Assign(_, Bin(Sub, Reg(a), IntConst(c))) => StepOrSet(ix, z, di, a, -c)
        case _ => Forget(z, di)
  }

  function SetOrForget(ix: Index, z: Zone, di: nat, src: nat, c: int): (r: Zone)
    requires Shaped(z)
    ensures Shaped(r)
  {
    match Idx(ix, src)
    case Some(si) => SetAffine(z, di, si, c)
    case None => Forget(z, di)
  }

  function StepOrSet(ix: Index, z: Zone, di: nat, a: nat, c: int): (r: Zone)
    requires Shaped(z)
    ensures Shaped(r)
  {
    if Idx(ix, a) == Some(di) then Translate(z, di, c) else SetOrForget(ix, z, di, a, c)
  }

  /** An operand as a zone node plus a constant. */
  function OperandZ(ix: Index, op: Operand): Option<(nat, int)> {
    match op
    case Reg(r) => if r in ix.at then Some((ix.at[r], 0)) else None
    case IntConst(c) => Some((0, c))
    case _ => None
  }

  /** Tighten with a comparison; unsigned predicates are read as signed ones. */
  function RefineZ(ix: Index, z: Zone, op: CmpOp, lhs: Operand, rhs: Operand): (r: Zone)
    requires Shaped(z)
    ensures Shaped(r)
  {
    match (OperandZ(ix, lhs), OperandZ(ix, rhs))
    case (Some((a, av)), Some((b, bv))) =>
      (match op
       case Sle => AddConstraint(z, a, b, bv - av)
       case Ule => AddConstraint(z, a, b, bv - av)
       case Slt => AddConstraint(z, a, b, bv - av - 1)
       case Ult => AddConstraint(z, a, b, bv - av - 1)
       case Sge => AddConstraint(z, b, a, av - bv)
       case Uge => AddConstraint(z, b, a, av - bv)
       case Sgt => AddConstraint(z, b, a, av - bv - 1)
       case Ugt => AddConstraint(z, b, a, av - bv - 1)
       case Eq => AddConstraint(AddConstraint(z, a, b, bv - av), b, a, av - bv)
       case Ne => z)
    case _ => z
  }

  function EdgeArgsOf(t: Terminator, to: nat): Option<seq<Operand>> {
    match t
    case Br(target, args) => if target == to then Some(args) else None
    case CondBr(_, thenBlk, thenArgs, elseBlk, elseArgs) =>
      if thenBlk == to then Some(thenArgs) else if elseBlk == to then Some(elseArgs) else None
    case _ => None
  }

  function BindOne(ix: Index, z: Zone, param: nat, arg: Option<Operand>): (r: Zone)
    requires Shaped(z)
    ensures Shaped(r)
  {
    match Idx(ix, param)
    case None => z
    case Some(pi) =>
      match arg
      case Some(Reg(r)) => SetOrForget(ix, z, pi, r, 0)
      case Some(IntConst(c)) => SetAffine(z, pi, 0, c)
      case _ => Forget(z, pi)
  }

  /** The first `n` parameters bound one after the other. */
  function BindZ(ix: Index, z: Zone, params: seq<nat>, args: seq<Operand>, n: nat): (r: Zone)
    requires Shaped(z) && n <= |params|
    ensures Shaped(r)
  {
    if n == 0 then z
    else BindOne(ix, BindZ(ix, z, params, args, n - 1), params[n - 1], if n - 1 < |args| then Some(args[n - 1])
                 else None)
  }

  function GuardZ(ix: Index, z: Zone, t: Terminator, to: nat, cmps: map<nat, RValue>): (r: Zone)
    requires Shaped(z)
    ensures Shaped(r)
  {
    if t.CondBr? && t.cond.Reg? && t.cond.r in cmps && cmps[t.cond.r].Cmp? then
      var cmp := cmps[t.cond.r];
      if to == t.thenBlk then RefineZ(ix, z, cmp.cop, cmp.lhs, cmp.rhs)
      else if to == t.elseBlk then RefineZ(ix, z, Negate(cmp.cop), cmp.lhs, cmp.rhs)
      else z
    else z
  }

  function EdgeZ(ix: Index, b: Block, to: Block, z: Zone, cmps: map<nat, RValue>): (r: Zone)
    requires Shaped(z)
    ensures Shaped(r)
  {
    var g := GuardZ(ix, z, b.term, to.id, cmps);
    match EdgeArgsOf(b.term, to.id)
    case Some(args) => BindZ(ix, g, to.params, args, |to.params|)
    case None => g
  }

  function ApplyAllZ(ix: Index, insts: seq<Inst>, n: nat, z: Zone): (r: Zone)
    requires n <= |insts| && Shaped(z)
    ensures Shaped(r)
  {
    if n == 0 then z else ApplyZ(ix, insts[n - 1], ApplyAllZ(ix, insts, n - 1, z))
  }

  // ----------------------------------------------------------- soundness

  ghost predicate SizedFor(ix: Index, z: Zone) {
    Sized(z, |ix.regs| + 1)
  }

  /** The zone holds in the store. */
  ghost predicate InZ(ix: Index, z: Zone, s: Store) {
    In(z, Vec(ix, s))
  }

  lemma SetAffineSound(z: Zone, d: nat, s: nat, c: int, v: seq<int>, x: int, n: nat)
    requires Sized(z, n) && 0 < d < n && s < n && s != d && In(z, v) && x == v[s] + c
    ensures In(SetAffine(z, d, s, c), v[d := x])
  {
    var w := v[d := x];
    ForgetSound(z, d, v, x, n);
    AddConstraintExact(Forget(z, d), d, s, c, n, w);
    AddConstraintSized(Forget(z, d), d, s, c, n);
    AddConstraintExact(AddConstraint(Forget(z, d), d, s, c), s, d, -c, n, w);
  }

  /** Copying a register onto itself keeps its value. */
  lemma SetSelfSound(z: Zone, d: nat, v: seq<int>, n: nat)
    requires Sized(z, n) && 0 < d < n && In(z, v)
    ensures In(SetAffine(z, d, d, 0), v)
  {
    ForgetSound(z, d, v, v[d], n);
    assert v[d := v[d]] == v;
    AddConstraintExact(Forget(z, d), d, d, 0, n, v);
    AddConstraintSized(Forget(z, d), d, d, 0, n);
    AddConstraintExact(AddConstraint(Forget(z, d), d, d, 0), d, d, 0, n, v);
  }

  lemma SetSized(z: Zone, d: nat, s: nat, c: int, n: nat)
    requires Sized(z, n)
    ensures Sized(SetAffine(z, d, s, c), n) && Sized(Forget(z, d), n) && Sized(Translate(z, d, c), n)
  {
    AddConstraintSized(Forget(z, d), d, s, c, n);
    AddConstraintSized(AddConstraint(Forget(z, d), d, s, c), s, d, -c, n);
  }

  /** Register `dst` receives `src + c`, everything else stays. */
  lemma SetOrForgetSound(ix: Index, z: Zone, s: Store, s': Store, dst: nat, src: nat, c: int)
    requires IndexOk(ix) && SizedFor(ix, z) && InZ(ix, z, s) && dst in ix.at
    requires forall q: nat :: q != dst ==> Val(s', q) == Val(s, q)
    requires Val(s', dst) == Val(s, src) + c && (src == dst ==> c == 0)
    ensures InZ(ix, SetOrForget(ix, z, ix.at[dst], src, c), s')
  {
    hide SetAffine, Forget, In, IndexOk, Vec, Val;
    var n := |ix.regs| + 1;
    var di := ix.at[dst];
    VecUpdate(ix, s, s', dst);
    VecAt(ix, s, dst);
    if src in ix.at {
      VecAt(ix, s, src);
      if src == dst {
        SetSelfSound(z, di, Vec(ix, s), n);
        assert Vec(ix, s)[di := Val(s', dst)] == Vec(ix, s);
      } else {
        DistinctNodes(ix, src, dst);
        SetAffineSound(z, di, ix.at[src], c, Vec(ix, s), Val(s', dst), n);
      }
    } else {
      ForgetSound(z, di, Vec(ix, s), Val(s', dst), n);
    }
  }

  lemma DistinctNodes(ix: Index, a: nat, b: nat)
    requires IndexOk(ix) && a in ix.at && b in ix.at && a != b
    ensures ix.at[a] != ix.at[b]
  {
    AtOk(ix, a);
    AtOk(ix, b);
  }

  lemma StepOrSetSound(ix: Index, z: Zone, s: Store, s': Store, dst: nat, a: nat, c: int)
    requires IndexOk(ix) && SizedFor(ix, z) && InZ(ix, z, s) && dst in ix.at
    requires forall q: nat :: q != dst ==> Val(s', q) == Val(s, q)
    requires Val(s', dst) == Val(s, a) + c
    ensures InZ(ix, StepOrSet(ix, z, ix.at[dst], a, c), s')
  {
    hide SetOrForget, Translate, In, IndexOk, Vec;
    var di := ix.at[dst];
    VecUpdate(ix, s, s', dst);
    VecAt(ix, s, dst);
    if a == dst {
      TranslateExact(z, di, c, |ix.regs| + 1, Vec(ix, s'));
      assert Vec(ix, s')[di := Vec(ix, s')[di] - c] == Vec(ix, s);
    } else {
      if a in ix.at {
        DistinctNodes(ix, a, dst);
      }
      SetOrForgetSound(ix, z, s, s', dst, a, c);
    }
  }

  lemma ForgetStoreSound(ix: Index, z: Zone, s: Store, s': Store, dst: nat)
    requires IndexOk(ix) && SizedFor(ix, z) && InZ(ix, z, s) && dst in ix.at
    requires forall q: nat :: q != dst ==> Val(s', q) == Val(s, q)
    ensures InZ(ix, Forget(z, ix.at[dst]), s')
  {
    hide Forget, In, IndexOk, Vec;
    VecUpdate(ix, s, s', dst);
    VecAt(ix, s, dst);
    ForgetSound(z, ix.at[dst], Vec(ix, s), Val(s', dst), |ix.regs| + 1);
  }

  lemma SetConstSound(ix: Index, z: Zone, s: Store, s': Store, dst: nat, c: int)
    requires IndexOk(ix) && SizedFor(ix, z) && InZ(ix, z, s) && dst in ix.at
    requires forall q: nat :: q != dst ==> Val(s', q) == Val(s, q)
    requires Val(s', dst) == c
    ensures InZ(ix, SetAffine(z, ix.at[dst], 0, c), s')
  {
    hide SetAffine, In, IndexOk, Vec;
    VecUpdate(ix, s, s', dst);
    VecAt(ix, s, dst);
    VecNth(ix, s, 0);
    SetAffineSound(z, ix.at[dst], 0, c, Vec(ix, s), c, |ix.regs| + 1);
  }

  lemma StepChanges(inst: Inst, s: Store, s': Store)
    requires Steps(inst, s, s')
    ensures forall q: nat :: DefinedReg(inst) != Some(q) ==> Val(s', q) == Val(s, q)
  {
  }

  /** One instruction keeps the zone true. */
  lemma ApplyZSound(ix: Index, inst: Inst, z: Zone, s: Store, s': Store)
    requires IndexOk(ix) && SizedFor(ix, z) && InZ(ix, z, s) && Steps(inst, s, s')
    ensures InZ(ix, ApplyZ(ix, inst, z), s')
  {
    hide SetAffine, StepOrSet, SetOrForget, Forget, In, IndexOk, Vec, Square;
    StepChanges(inst, s, s');
    match DefinedReg(inst) {
      case None =>
      case Some(dst) =>
        if dst in ix.at {
          match inst
          case Assign(_, Use(IntConst(c))) => SetConstSound(ix, z, s, s', dst, c);
          case Assign(_, Use(Reg(src))) => SetOrForgetSound(ix, z, s, s', dst, src, 0);
          case Assign(_, Bin(Add, Reg(a), IntConst(c))) => StepOrSetSound(ix, z, s, s', dst, a, c);
          case Assign(_, Bin(Sub, Reg(a), IntConst(c))) => StepOrSetSound(ix, z, s, s', dst, a, -c);
          case _ => ForgetStoreSound(ix, z, s, s', dst);
        } else {
          VecUpdate(ix, s, s', dst);
        }
    }
  }

  lemma SetOrForgetSized(ix: Index, z: Zone, di: nat, src: nat, c: int)
    requires SizedFor(ix, z)
    ensures SizedFor(ix, SetOrForget(ix, z, di, src, c)) && SizedFor(ix, StepOrSet(ix, z, di, src, c))
  {
    SetSized(z, di, if src in ix.at then ix.at[src] else 0, c, |ix.regs| + 1);
  }

  lemma ApplyZSized(ix: Index, inst: Inst, z: Zone)
    requires SizedFor(ix, z)
    ensures SizedFor(ix, ApplyZ(ix, inst, z))
  {
    hide SetOrForget, StepOrSet, SetAffine, Forget;
    var n := |ix.regs| + 1;
    match DefinedReg(inst) {
      case None =>
      case Some(dst) =>
        if dst in ix.at {
          var di := ix.at[dst];
          SetSized(z, di, 0, 0, n);
          match inst
          case Assign(_, Use(IntConst(c))) => SetSized(z, di, 0, c, n);
          case Assign(_, Use(Reg(src))) => SetOrForgetSized(ix, z, di, src, 0);
          case Assign(_, Bin(Add, Reg(a), IntConst(c))) => SetOrForgetSized(ix, z, di, a, c);
          case Assign(_, Bin(Sub, Reg(a), IntConst(c))) => SetOrForgetSized(ix, z, di, a, -c);
          case _ =>
        }
    }
  }

  // -------------------------------------------------------------- guards

  lemma OperandZSound(ix: Index, op: Operand, s: Store, a: int)
    requires IndexOk(ix) && Denotes(op, s, a) && OperandZ(ix, op).Some?
    ensures var (i, c) := OperandZ(ix, op).value; i < |Vec(ix, s)| && a == Vec(ix, s)[i] + c
  {
    hide IndexOk, Vec;
    if op.Reg? {
      VecAt(ix, s, op.r);
    } else {
      VecNth(ix, s, 0);
    }
  }

  lemma RefineZSized(ix: Index, z: Zone, op: CmpOp, lhs: Operand, rhs: Operand)
    requires SizedFor(ix, z)
    ensures SizedFor(ix, RefineZ(ix, z, op, lhs, rhs))
  {
    hide AddConstraint, Square;
    var n := |ix.regs| + 1;
    hide AddConstraint;
    forall y: Zone, a: nat, b: nat, c: int | Sized(y, n) ensures Sized(AddConstraint(y, a, b, c), n) {
      AddConstraintSized(y, a, b, c, n);
    }
  }

  /** A comparison that holds in the store keeps the store. */
  lemma RefineZSound(ix: Index, z: Zone, op: CmpOp, lhs: Operand, rhs: Operand, s: Store, a: int, b: int)
    requires IndexOk(ix) && SizedFor(ix, z) && InZ(ix, z, s)
    requires Denotes(lhs, s, a) && Denotes(rhs, s, b) && Truth(op, a, b) && OneSign(op, a, b)
    ensures InZ(ix, RefineZ(ix, z, op, lhs, rhs), s)
  {
    hide In, AddConstraint, IndexOk, Vec, Square;
    if OperandZ(ix, lhs).Some? && OperandZ(ix, rhs).Some? {
      OperandZSound(ix, lhs, s, a);
      OperandZSound(ix, rhs, s, b);
      var n := |ix.regs| + 1;
      var v := Vec(ix, s);
      var (i, av) := OperandZ(ix, lhs).value;
      var (j, bv) := OperandZ(ix, rhs).value;
      match op
      case Ne =>
      case Eq =>
        AddConstraintExact(z, i, j, bv - av, n, v);
        AddConstraintSized(z, i, j, bv - av, n);
        AddConstraintExact(AddConstraint(z, i, j, bv - av), j, i, av - bv, n, v);
      case _ =>
        AddConstraintExact(z, i, j, bv - av, n, v);
        AddConstraintExact(z, i, j, bv - av - 1, n, v);
        AddConstraintExact(z, j, i, av - bv, n, v);
        AddConstraintExact(z, j, i, av - bv - 1, n, v);
    }
  }

  /** Guards on tracked operands: `op` adds one difference bound, and the zone keeps just the stores that meet it. */
  lemma RefineBelow(ix: Index, z: Zone, op: CmpOp, lhs: Operand, rhs: Operand, s: Store, a: int, b: int)
    requires IndexOk(ix) && SizedFor(ix, z) && OperandZ(ix, lhs).Some? && OperandZ(ix, rhs).Some?
    requires Denotes(lhs, s, a) && Denotes(rhs, s, b)
    requires op == Slt || op == Sle || op == Ult || op == Ule
    ensures InZ(ix, RefineZ(ix, z, op, lhs, rhs), s) <==> InZ(ix, z, s) && Truth(SignedOf(op), a, b)
  {
    hide In, AddConstraint, IndexOk, Vec, Square, Closed;
    OperandZSound(ix, lhs, s, a);
    OperandZSound(ix, rhs, s, b);
    var (i, av) := OperandZ(ix, lhs).value;
    var (j, bv) := OperandZ(ix, rhs).value;
    AddConstraintExact(z, i, j, if op == Slt || op == Ult then bv - av - 1 else bv - av, |ix.regs| + 1, Vec(ix, s));
  }

  lemma RefineAbove(ix: Index, z: Zone, op: CmpOp, lhs: Operand, rhs: Operand, s: Store, a: int, b: int)
    requires IndexOk(ix) && SizedFor(ix, z) && OperandZ(ix, lhs).Some? && OperandZ(ix, rhs).Some?
    requires Denotes(lhs, s, a) && Denotes(rhs, s, b)
    requires op == Sgt || op == Sge || op == Ugt || op == Uge
    ensures InZ(ix, RefineZ(ix, z, op, lhs, rhs), s) <==> InZ(ix, z, s) && Truth(SignedOf(op), a, b)
  {
    hide In, AddConstraint, IndexOk, Vec, Square, Closed;
    OperandZSound(ix, lhs, s, a);
    OperandZSound(ix, rhs, s, b);
    var (i, av) := OperandZ(ix, lhs).value;
    var (j, bv) := OperandZ(ix, rhs).value;
    AddConstraintExact(z, j, i, if op == Sgt || op == Ugt then av - bv - 1 else av - bv, |ix.regs| + 1, Vec(ix, s));
  }

  lemma RefineEqual(ix: Index, z: Zone, lhs: Operand, rhs: Operand, s: Store, a: int, b: int)
    requires IndexOk(ix) && SizedFor(ix, z) && OperandZ(ix, lhs).Some? && OperandZ(ix, rhs).Some?
    requires Denotes(lhs, s, a) && Denotes(rhs, s, b)
    ensures InZ(ix, RefineZ(ix, z, Eq, lhs, rhs), s) <==> InZ(ix, z, s) && a == b
  {
    hide In, AddConstraint, IndexOk, Vec, Square, Closed;
    OperandZSound(ix, lhs, s, a);
    OperandZSound(ix, rhs, s, b);
    var (i, av) := OperandZ(ix, lhs).value;
    var (j, bv) := OperandZ(ix, rhs).value;
    var n := |ix.regs| + 1;
    AddConstraintExact(z, i, j, bv - av, n, Vec(ix, s));
    AddConstraintSized(z, i, j, bv - av, n);
    AddConstraintExact(AddConstraint(z, i, j, bv - av), j, i, av - bv, n, Vec(ix, s));
  }

  /** A guard on tracked operands cuts the zone to exactly the stores in which its signed reading holds. */
  lemma RefineZExact(ix: Index, z: Zone, op: CmpOp, lhs: Operand, rhs: Operand, s: Store, a: int, b: int)
    requires IndexOk(ix) && SizedFor(ix, z) && OperandZ(ix, lhs).Some? && OperandZ(ix, rhs).Some? && op != Ne
    requires Denotes(lhs, s, a) && Denotes(rhs, s, b)
    ensures InZ(ix, RefineZ(ix, z, op, lhs, rhs), s) <==> InZ(ix, z, s) && Truth(SignedOf(op), a, b)
  {
    hide InZ, RefineZ, IndexOk, Denotes, OperandZ, SizedFor;
    match op
    case Eq => RefineEqual(ix, z, lhs, rhs, s, a, b);
    case Slt => RefineBelow(ix, z, op, lhs, rhs, s, a, b);
    case Sle => RefineBelow(ix, z, op, lhs, rhs, s, a, b);
    case Ult => RefineBelow(ix, z, op, lhs, rhs, s, a, b);
    case Ule => RefineBelow(ix, z, op, lhs, rhs, s, a, b);
    case _ => RefineAbove(ix, z, op, lhs, rhs, s, a, b);
  }

  /**
   An unsigned guard keeps a store of the zone just when it holds there, if and
   only if the operands have one sign in it; otherwise it keeps the wrong side.
   */
  lemma UnsignedGuardExactly(ix: Index, z: Zone, op: CmpOp, lhs: Operand, rhs: Operand, s: Store, a: int, b: int)
    requires IndexOk(ix) && SizedFor(ix, z) && OperandZ(ix, lhs).Some? && OperandZ(ix, rhs).Some?
    requires Denotes(lhs, s, a) && Denotes(rhs, s, b) && IsUnsigned(op) && In64(a) && In64(b) && InZ(ix, z, s)
    ensures (InZ(ix, RefineZ(ix, z, op, lhs, rhs), s) <==> Truth(op, a, b)) <==> ((a < 0) <==> (b < 0))
  {
    RefineZExact(ix, z, op, lhs, rhs, s, a, b);
    UnsignedAgreesExactly(op, a, b);
    hide InZ, RefineZ, IndexOk, Denotes, OperandZ, SizedFor, Truth;
  }

  lemma TopHolds(n: nat, v: seq<int>)
    requires |v| == n + 1 && v[0] == 0
    ensures In(TopZone(n), v)
  {
  }

  /** Reading an unsigned guard as signed can cut a real store out: `-1 >= 0` unsigned holds. */
  lemma UnsignedGuardCuts()
    ensures var ix := Index([7], map[7 := 1]); var s: Store := map[7 := -1];
            && IndexOk(ix) && InZ(ix, TopZone(1), s) && Truth(Uge, Val(s, 7), 0)
            && !InZ(ix, RefineZ(ix, TopZone(1), Uge, Reg(7), IntConst(0)), s)
  {
    var ix := Index([7], map[7 := 1]);
    var s: Store := map[7 := -1];
    TopHolds(1, Vec(ix, s));
    UnsignedGuardExactly(ix, TopZone(1), Uge, Reg(7), IntConst(0), s, -1, 0);
    hide InZ, RefineZ, TopZone;
  }

  // ------------------------------------------------------------- binding

  predicate AllDistinct(params: seq<nat>) {
    forall i, j :: 0 <= i < j < |params| ==> params[i] != params[j]
  }

  /** An argument reads a parameter that the same edge binds before it only if that parameter is bound to itself. */
  predicate SafeOrder(params: seq<nat>, args: seq<Operand>) {
    forall i, j :: 0 <= i < j < |params| && j < |args| && args[j] == Reg(params[i]) ==> args[i] == Reg(params[i])
  }

  /** Binding one by one is as good as binding all at once. */
  predicate Independent(params: seq<nat>, args: seq<Operand>) {
    AllDistinct(params) && SafeOrder(params, args)
  }

  /** The store with the first `n` parameters already replaced. */
  function HalfBound(s: Store, s': Store, params: seq<nat>, n: nat): (h: Store)
    requires n <= |params|
  {
    if n == 0 then s else HalfBound(s, s', params, n - 1)[params[n - 1] := Val(s', params[n - 1])]
  }

  lemma {:induction false} HalfBoundVal(s: Store, s': Store, params: seq<nat>, n: nat, r: nat)
    requires n <= |params|
    ensures Val(HalfBound(s, s', params, n), r) == if r in params[..n] then Val(s', r) else Val(s, r)
  {
    if n > 0 {
      HalfBoundVal(s, s', params, n - 1, r);
      assert params[..n] == params[..n - 1] + [params[n - 1]];
    }
  }

  lemma BindOneSound(ix: Index, z: Zone, s: Store, s': Store, p: nat, arg: Option<Operand>)
    requires IndexOk(ix) && SizedFor(ix, z) && InZ(ix, z, s)
    requires forall q: nat :: q != p ==> Val(s', q) == Val(s, q)
    requires arg.Some? ==> Denotes(arg.value, s, Val(s', p))
    ensures InZ(ix, BindOne(ix, z, p, arg), s') && SizedFor(ix, BindOne(ix, z, p, arg))
  {
    hide SetAffine, SetOrForget, Forget, In, IndexOk, Square, Vec, Val;
    BindOneSized(ix, z, p, arg);
    if p in ix.at {
      match arg
      case Some(Reg(r)) => SetOrForgetSound(ix, z, s, s', p, r, 0);
      case Some(IntConst(c)) => SetConstSound(ix, z, s, s', p, c);
      case _ => ForgetStoreSound(ix, z, s, s', p);
    } else {
      VecUpdate(ix, s, s', p);
    }
  }

  lemma BindOneSized(ix: Index, z: Zone, p: nat, arg: Option<Operand>)
    requires SizedFor(ix, z)
    ensures SizedFor(ix, BindOne(ix, z, p, arg))
  {
    hide SetOrForget, SetAffine, Forget;
    if p in ix.at {
      var pi := ix.at[p];
      SetSized(z, pi, 0, 0, |ix.regs| + 1);
      match arg
      case Some(Reg(r)) => SetOrForgetSized(ix, z, pi, r, 0);
      case Some(IntConst(c)) => SetSized(z, pi, 0, c, |ix.regs| + 1);
      case _ =>
    }
  }

  /** An argument that reads an earlier parameter reads its old value. */
  lemma ReadsOld(params: seq<nat>, args: seq<Operand>, j: nat, s: Store, s': Store)
    requires j < |params| && j < |args| && args[j].Reg? && SafeOrder(params, args) && Binds(params, args, s, s')
    ensures args[j].r in params[..j] ==> Val(s', args[j].r) == Val(s, args[j].r)
  {
    if args[j].r in params[..j] {
      var i: nat :| i < j && params[i] == args[j].r;
      assert args[i] == Reg(params[i]);
      assert Denotes(args[i], s, Val(s', params[i]));
    }
  }

  /** Binding one by one is right for simultaneous assignment when the arguments are independent. */
  lemma {:induction false} BindZSound(ix: Index, z: Zone, params: seq<nat>, args: seq<Operand>, n: nat, s: Store,
                                      s': Store)
    requires IndexOk(ix) && SizedFor(ix, z) && InZ(ix, z, s) && n <= |params|
    requires Independent(params, args) && Binds(params, args, s, s')
    ensures InZ(ix, BindZ(ix, z, params, args, n), HalfBound(s, s', params, n))
    ensures SizedFor(ix, BindZ(ix, z, params, args, n))
  {
    hide InZ, IndexOk, Square, BindOne;
    if n > 0 {
      BindZSound(ix, z, params, args, n - 1, s, s');
      var h, h' := HalfBound(s, s', params, n - 1), HalfBound(s, s', params, n);
      var p := params[n - 1];
      var arg := if n - 1 < |args| then Some(args[n - 1]) else None;
      if arg.Some? && arg.value.Reg? {
        HalfBoundVal(s, s', params, n - 1, arg.value.r);
        ReadsOld(params, args, n - 1, s, s');
      }
      assert arg.Some? ==> Denotes(arg.value, h, Val(h', p));
      BindOneSound(ix, BindZ(ix, z, params, args, n - 1), h, h', p, arg);
    }
  }

  lemma VecOfBound(ix: Index, params: seq<nat>, args: seq<Operand>, s: Store, s': Store)
    requires Binds(params, args, s, s')
    ensures Vec(ix, HalfBound(s, s', params, |params|)) == Vec(ix, s')
  {
    var h := HalfBound(s, s', params, |params|);
    assert params[..|params|] == params;
    forall i: nat | i < |ix.regs| ensures Val(h, ix.regs[i]) == Val(s', ix.regs[i]) {
      HalfBoundVal(s, s', params, |params|, ix.regs[i]);
    }
    assert Vec(ix, h) == Vec(ix, s');
  }

  // ---------------------------------------------- when binding one by one goes wrong

  /** The zone says that node `b` is node `a` plus `c`. */
  ghost predicate Ties(z: Zone, a: nat, b: nat, c: int) {
    z.bottom || (Square(z.m) && a < |z.m| && b < |z.m| && BLe(At(z.m, a, b), Some(c)) && BLe(At(z.m, b, a), Some(-c)))
  }

  lemma TieMeans(z: Zone, a: nat, b: nat, c: int, v: seq<int>)
    requires Ties(z, a, b, c) && In(z, v)
    ensures a < |v| && b < |v| && v[b] == v[a] + c
  {
    assert Obeys(At(z.m, a, b), v[b] - v[a]) && Obeys(At(z.m, b, a), v[a] - v[b]);
  }

  /** Closing never loosens a bound. */
  lemma AddKeepsBound(z: Zone, x: nat, y: nat, c: int, i: nat, j: nat, n: nat)
    requires Sized(z, n) && !z.bottom && x < n && y < n && i < n && j < n
    ensures var r := AddConstraint(z, x, y, c);
            !r.bottom ==>
              Square(r.m) && |r.m| == n && BLe(At(r.m, i, j), At(Put(z.m, y, x, BMin(At(z.m, y, x), Some(c))), i, j))
  {
    var m := Put(z.m, y, x, BMin(At(z.m, y, x), Some(c)));
    RelaxKKeeps(m, |m|);
    hide RelaxK, Put;
  }

  lemma AddKeepsTie(z: Zone, x: nat, y: nat, c: int, a: nat, b: nat, e: int, n: nat)
    requires Sized(z, n) && Ties(z, a, b, e) && x < n && y < n
    ensures Ties(AddConstraint(z, x, y, c), a, b, e)
  {
    if !z.bottom {
      AddKeepsBound(z, x, y, c, a, b, n);
      AddKeepsBound(z, x, y, c, b, a, n);
      AddConstraintSized(z, x, y, c, n);
      hide AddConstraint;
    }
  }

  lemma ForgetKeepsTie(z: Zone, k: nat, a: nat, b: nat, e: int)
    requires Ties(z, a, b, e) && k != a && k != b
    ensures Ties(Forget(z, k), a, b, e)
  {
  }

  lemma SetKeepsTie(z: Zone, d: nat, s: nat, c: int, a: nat, b: nat, e: int, n: nat)
    requires Sized(z, n) && Ties(z, a, b, e) && d < n && s < n && d != a && d != b
    ensures Ties(SetAffine(z, d, s, c), a, b, e)
  {
    hide Ties, AddConstraint, Forget, Square;
    ForgetKeepsTie(z, d, a, b, e);
    ForgetSized(z, d, n);
    AddKeepsTie(Forget(z, d), d, s, c, a, b, e, n);
    AddConstraintSized(Forget(z, d), d, s, c, n);
    AddKeepsTie(AddConstraint(Forget(z, d), d, s, c), s, d, -c, a, b, e, n);
  }

  lemma ForgetSized(z: Zone, d: nat, n: nat)
    requires Sized(z, n)
    ensures Sized(Forget(z, d), n)
  {
  }

  /** Setting one node to another plus a constant says so. */
  lemma SetTies(z: Zone, d: nat, s: nat, c: int, n: nat)
    requires Sized(z, n) && d < n && s < n
    ensures Ties(SetAffine(z, d, s, c), s, d, c)
  {
    ForgetSized(z, d, n);
    var f := Forget(z, d);
    var g := AddConstraint(f, d, s, c);
    AddConstraintSized(f, d, s, c, n);
    hide AddConstraint, Forget, Square, Put;
    if !f.bottom && !g.bottom {
      AddConstraintSized(g, s, d, -c, n);
      AddKeepsBound(f, d, s, c, s, d, n);
      PutIsBelow(f.m, s, d, c);
      AddKeepsBound(g, s, d, -c, s, d, n);
      AddKeepsBound(g, s, d, -c, d, s, n);
      PutIsBelow(g.m, d, s, -c);
    } else if !f.bottom {
      EmptyStays(g, s, d, -c);
    } else {
      EmptyStays(f, d, s, c);
      EmptyStays(g, s, d, -c);
    }
  }

  lemma EmptyStays(z: Zone, a: nat, b: nat, c: int)
    requires z.bottom
    ensures AddConstraint(z, a, b, c).bottom
  {
  }

  lemma PutIsBelow(m: Matrix, y: nat, x: nat, c: int)
    requires Square(m) && x < |m| && y < |m|
    ensures var r := Put(m, y, x, BMin(At(m, y, x), Some(c)));
            BLe(At(r, y, x), Some(c)) && forall i: nat, j: nat :: i < |m| && j < |m| ==> BLe(At(r, i, j), At(m, i, j))
  {
  }

  lemma BindKeepsTie(ix: Index, z: Zone, p: nat, arg: Option<Operand>, a: nat, b: nat, e: int)
    requires IndexOk(ix) && SizedFor(ix, z) && Ties(z, a, b, e) && (p in ix.at ==> ix.at[p] != a && ix.at[p] != b)
    ensures Ties(BindOne(ix, z, p, arg), a, b, e)
  {
    AtOk(ix, p);
    hide Ties, SetAffine, Forget, IndexOk, Square;
    if p in ix.at {
      ForgetKeepsTie(z, ix.at[p], a, b, e);
      match arg
      case Some(Reg(r)) =>
        AtOk(ix, r);
        if r in ix.at {
          SetKeepsTie(z, ix.at[p], ix.at[r], 0, a, b, e, |ix.regs| + 1);
        }
      case Some(IntConst(c)) => SetKeepsTie(z, ix.at[p], 0, c, a, b, e, |ix.regs| + 1);
      case _ =>
    }
  }

  lemma NodesApart(ix: Index, a: nat, b: nat)
    requires IndexOk(ix) && a in ix.at && b in ix.at && a != b
    ensures ix.at[a] != ix.at[b]
  {
    AtOk(ix, a);
    AtOk(ix, b);
  }

  ghost predicate AllTracked(ix: Index, params: seq<nat>) {
    forall i :: 0 <= i < |params| ==> params[i] in ix.at
  }

  lemma BindTies(ix: Index, z: Zone, p: nat, q: nat)
    requires IndexOk(ix) && SizedFor(ix, z) && p in ix.at && q in ix.at
    ensures Ties(BindOne(ix, z, q, Some(Reg(p))), ix.at[p], ix.at[q], 0)
  {
    AtOk(ix, p);
    AtOk(ix, q);
    SetTies(z, ix.at[q], ix.at[p], 0, |ix.regs| + 1);
    hide Ties, SetAffine, Square, IndexOk;
  }

  /** Once parameter `j` is bound to parameter `i`, the zone takes them to be equal. */
  lemma {:induction false} BoundEqual(ix: Index, z: Zone, params: seq<nat>, args: seq<Operand>, i: nat, j: nat, n: nat)
    requires IndexOk(ix) && SizedFor(ix, z) && AllDistinct(params) && AllTracked(ix, params)
    requires i < j < n <= |params| && j < |args| && args[j] == Reg(params[i])
    ensures Ties(BindZ(ix, z, params, args, n), ix.at[params[i]], ix.at[params[j]], 0)
  {
    hide Ties, BindOne, IndexOk, Square;
    var a, b := ix.at[params[i]], ix.at[params[j]];
    var y := BindZ(ix, z, params, args, n - 1);
    BindZSized(ix, z, params, args, n - 1);
    if n - 1 == j {
      BindTies(ix, y, params[i], params[j]);
    } else {
      BoundEqual(ix, z, params, args, i, j, n - 1);
      NodesApart(ix, params[n - 1], params[i]);
      NodesApart(ix, params[n - 1], params[j]);
      BindKeepsTie(ix, y, params[n - 1], if n - 1 < |args| then Some(args[n - 1]) else None, a, b, 0);
    }
  }

  /** A value the argument may have. */
  function SomeValue(op: Operand, s: Store): (v: int)
    ensures Denotes(op, s, v)
  {
    match op
    case Reg(r) => Val(s, r)
    case IntConst(c) => c
    case NullConst => 0
    case OpaqueConst(_) => 0
  }

  function BoundStore(s: Store, params: seq<nat>, args: seq<Operand>, n: nat): Store
    requires n <= |params|
  {
    if n == 0 then s
    else BoundStore(s, params, args, n - 1)[params[n - 1] := if n - 1 < |args| then SomeValue(args[n - 1], s) else 0]
  }

  lemma {:induction false} BoundStoreVal(s: Store, params: seq<nat>, args: seq<Operand>, n: nat)
    requires n <= |params| && AllDistinct(params)
    ensures forall r: nat :: r !in params ==> Val(BoundStore(s, params, args, n), r) == Val(s, r)
    ensures forall k: nat :: k < n && k < |args| ==>
              Val(BoundStore(s, params, args, n), params[k]) == SomeValue(args[k], s)
  {
    if n > 0 {
      BoundStoreVal(s, params, args, n - 1);
      hide SomeValue;
    }
  }

  lemma BoundStoreBinds(s: Store, params: seq<nat>, args: seq<Operand>)
    requires AllDistinct(params)
    ensures Binds(params, args, s, BoundStore(s, params, args, |params|))
  {
    BoundStoreVal(s, params, args, |params|);
  }

  /** The edge may take `s` to a store that the zone after the edge does not have. */
  ghost predicate Loses(ix: Index, z: Zone, params: seq<nat>, args: seq<Operand>, s: Store, s': Store) {
    InZ(ix, z, s) && Binds(params, args, s, s') && !InZ(ix, BindZ(ix, z, params, args, |params|), s')
  }

  /** An argument reads an earlier parameter that has already got another value: that store is lost. */
  lemma OverwrittenLost(ix: Index, z: Zone, params: seq<nat>, args: seq<Operand>, i: nat, j: nat, s: Store, s': Store)
    requires IndexOk(ix) && SizedFor(ix, z) && AllDistinct(params) && AllTracked(ix, params)
    requires i < j < |params| && j < |args| && args[j] == Reg(params[i])
    requires InZ(ix, z, s) && Binds(params, args, s, s') && Val(s', params[i]) != Val(s, params[i])
    ensures Loses(ix, z, params, args, s, s')
  {
    BoundEqual(ix, z, params, args, i, j, |params|);
    assert Denotes(args[j], s, Val(s', params[j]));
    VecAt(ix, s', params[i]);
    VecAt(ix, s', params[j]);
    var r := BindZ(ix, z, params, args, |params|);
    hide BindZ, IndexOk, Ties, In, Square;
    if InZ(ix, r, s') {
      TieMeans(r, ix.at[params[i]], ix.at[params[j]], 0, Vec(ix, s'));
    }
  }

  /** A store in which binding parameter `i` changes it. */
  lemma SomethingLost(ix: Index, params: seq<nat>, args: seq<Operand>, i: nat, j: nat) returns (s: Store, s': Store)
    requires IndexOk(ix) && AllDistinct(params) && AllTracked(ix, params)
    requires i < j < |params| && j < |args| && args[j] == Reg(params[i]) && args[i] != Reg(params[i])
    ensures Loses(ix, TopZone(|ix.regs|), params, args, s, s')
  {
    var p := params[i];
    s := map[p := if args[i].IntConst? then args[i].v + 1 else 1];
    s' := BoundStore(s, params, args, |params|);
    BoundStoreBinds(s, params, args);
    BoundStoreVal(s, params, args, |params|);
    assert Val(s', p) == SomeValue(args[i], s);
    hide BoundStore, Binds;
    TopHolds(|ix.regs|, Vec(ix, s));
    OverwrittenLost(ix, TopZone(|ix.regs|), params, args, i, j, s, s');
  }

  /**
   For distinct tracked parameters: whatever the zone, binding one by one keeps
   every store that the edge may lead to, if and only if no argument reads a
   parameter that the same edge has already given another argument.
   */
  lemma BindingExactly(ix: Index, params: seq<nat>, args: seq<Operand>)
    requires IndexOk(ix) && AllDistinct(params) && AllTracked(ix, params)
    ensures SafeOrder(params, args) <==>
            forall z: Zone, s: Store, s': Store :: SizedFor(ix, z) ==> !Loses(ix, z, params, args, s, s')
  {
    if SafeOrder(params, args) {
      forall z: Zone, s: Store, s': Store | SizedFor(ix, z) ensures !Loses(ix, z, params, args, s, s') {
        SafeKeeps(ix, z, params, args, s, s');
      }
    } else {
      var i: nat, j: nat :| i < j < |params| && j < |args| && args[j] == Reg(params[i]) && args[i] != Reg(params[i]);
      var s, s' := SomethingLost(ix, params, args, i, j);
      assert SizedFor(ix, TopZone(|ix.regs|));
      hide Loses, SizedFor, TopZone, IndexOk;
    }
  }

  lemma SafeKeeps(ix: Index, z: Zone, params: seq<nat>, args: seq<Operand>, s: Store, s': Store)
    requires IndexOk(ix) && AllDistinct(params) && SafeOrder(params, args) && SizedFor(ix, z)
    ensures !Loses(ix, z, params, args, s, s')
  {
    hide IndexOk, BindZ, In, Square, Binds, AllDistinct, SafeOrder;
    if InZ(ix, z, s) && Binds(params, args, s, s') {
      BindZSound(ix, z, params, args, |params|, s, s');
      VecOfBound(ix, params, args, s, s');
    }
  }

  /** An edge that swaps two tracked parameters loses every store in which they differ. */
  lemma SequentialBindingMisses(ix: Index, z: Zone, x: nat, y: nat, s: Store, s': Store)
    requires IndexOk(ix) && x in ix.at && y in ix.at && x != y && SizedFor(ix, z) && InZ(ix, z, s)
    requires Binds([x, y], [Reg(y), Reg(x)], s, s') && Val(s, x) != Val(s, y)
    ensures !InZ(ix, BindZ(ix, z, [x, y], [Reg(y), Reg(x)], 2), s')
  {
    assert Denotes([Reg(y), Reg(x)][0], s, Val(s', [x, y][0]));
    OverwrittenLost(ix, z, [x, y], [Reg(y), Reg(x)], 0, 1, s, s');
  }

  lemma EdgeZSized(ix: Index, b: Block, to: Block, z: Zone, cmps: map<nat, RValue>)
    requires SizedFor(ix, z)
    ensures SizedFor(ix, GuardZ(ix, z, b.term, to.id, cmps)) && SizedFor(ix, EdgeZ(ix, b, to, z, cmps))
  {
    hide Square, RefineZ, BindZ;
    var g := GuardZ(ix, z, b.term, to.id, cmps);
    if b.term.CondBr? && b.term.cond.Reg? && b.term.cond.r in cmps && cmps[b.term.cond.r].Cmp? {
      var cmp := cmps[b.term.cond.r];
      RefineZSized(ix, z, cmp.cop, cmp.lhs, cmp.rhs);
      RefineZSized(ix, z, Negate(cmp.cop), cmp.lhs, cmp.rhs);
    }
    hide Square;
    if EdgeArgsOf(b.term, to.id).Some? {
      BindZSized(ix, g, to.params, EdgeArgsOf(b.term, to.id).value, |to.params|);
    }
  }

  lemma {:induction false} BindZSized(ix: Index, z: Zone, params: seq<nat>, args: seq<Operand>, n: nat)
    requires SizedFor(ix, z) && n <= |params|
    ensures SizedFor(ix, BindZ(ix, z, params, args, n))
  {
    if n > 0 {
      BindZSized(ix, z, params, args, n - 1);
      BindOneSized(ix, BindZ(ix, z, params, args, n - 1), params[n - 1],
                   if n - 1 < |args| then Some(args[n - 1]) else None);
    }
  }
}
