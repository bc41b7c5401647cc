/**
 What blocks and edges of a function do to a closed zone, exactly (crates/absint/src/relational.rs:101-233).
 */
module ZoneFlow {
  import opened Wrappers
  import opened Ir
  import opened Zones
  import opened Relational
  import opened ZoneImages
  import opened RelationalSoundness

  lemma CanonIn(z: Zone, v: seq<int>)
    ensures In(Canon(z), v) <==> In(z, v)
  {
  }

  /**
   The zone behind a block has exactly the valuations that runs through the block end in, if its
   instructions set their results to tracked registers or constants plus constants, or to anything.
   */
  lemma BlockExactly(f: Function, cfg: Cfg, ix: Index, u: nat, z: Zone, v: seq<int>)
    requires DistinctIds(f) && IsCfg(f, cfg) && u < |f.blocks| && IndexOk(ix) && SizedFor(ix, z) && Tight(z)
    requires !z.bottom && Imaged(ix, f.blocks[u].insts, |f.blocks[u].insts|)
    ensures In(BlockZ(f, cfg, ix, u, z), v) <==>
            exists ss: seq<Store> :: ChainEnds(ix, f.blocks[u].insts, |f.blocks[u].insts|, z, ss, v)
  {
    LookupNode(f, u);
    assert cfg.blocks[u] == f.blocks[u].id;
    var insts := f.blocks[u].insts;
    hide Lookup, DistinctIds, IsCfg, IndexOk, Tight, In, Imaged, ChainEnds, ApplyAllZ;
    BlockImage(ix, insts, |insts|, z, v);
    CanonIn(ApplyAllZ(ix, insts, |insts|, z), v);
  }

  // ------------------------------------------------------------ binding is assigning, one after the other

  /** Setting the parameters, written as instructions. */
  function Moves(params: seq<nat>, args: seq<Operand>): (insts: seq<Inst>)
    ensures |insts| == |params|
  {
    seq(|params|, i requires 0 <= i < |params| =>
      if i < |args| then Assign(params[i], Use(args[i])) else Define(params[i]))
  }

  lemma BindOneMoves(ix: Index, z: Zone, params: seq<nat>, args: seq<Operand>, i: nat)
    requires i < |params| && Shaped(z)
    ensures BindOne(ix, z, params[i], if i < |args| then Some(args[i]) else None) ==
            ApplyZ(ix, Moves(params, args)[i], z)
  {
  }

  lemma {:induction false} BindMoves(ix: Index, z: Zone, params: seq<nat>, args: seq<Operand>, n: nat)
    requires n <= |params| && Shaped(z)
    ensures BindZ(ix, z, params, args, n) == ApplyAllZ(ix, Moves(params, args), n, z)
  {
    if n > 0 {
      BindMoves(ix, z, params, args, n - 1);
      BindOneMoves(ix, BindZ(ix, z, params, args, n - 1), params, args, n - 1);
      hide BindOne, ApplyZ, Moves;
    }
  }

  // ------------------------------------------------------------ edges

  /** The edge is one side of a branch on a recorded comparison of what is tracked; `op` holds on that side. */
  ghost predicate Sided(ix: Index, b: Block, to: Block, cmps: map<nat, RValue>, op: CmpOp, lhs: Operand, rhs: Operand) {
    && b.term.CondBr? && b.term.cond.Reg? && b.term.thenBlk != b.term.elseBlk
    && b.term.cond.r in cmps && cmps[b.term.cond.r].Cmp?
    && cmps[b.term.cond.r].lhs == lhs && cmps[b.term.cond.r].rhs == rhs
    && OperandZ(ix, lhs).Some? && OperandZ(ix, rhs).Some? && op != Ne
    && ((to.id == b.term.thenBlk && op == cmps[b.term.cond.r].cop) ||
        (to.id == b.term.elseBlk && op == Negate(cmps[b.term.cond.r].cop)))
  }

  function SideArgs(t: Terminator, to: nat): seq<Operand> {
    if !t.CondBr? then [] else if to == t.thenBlk then t.thenArgs else t.elseArgs
  }

  /** The test, read as signed, is true in the store. */
  predicate TrueIn(op: CmpOp, lhs: Operand, rhs: Operand, s: Store) {
    Truth(SignedOf(op), SomeValue(lhs, s), SomeValue(rhs, s))
  }

  /** A run that starts in a store of the zone in which the test is true and sets the parameters. */
  ghost predicate Crosses(ix: Index, b: Block, to: Block, z: Zone, op: CmpOp, lhs: Operand, rhs: Operand,
                          ss: seq<Store>, v: seq<int>) {
    var moves := Moves(to.params, SideArgs(b.term, to.id));
    ChainEnds(ix, moves, |moves|, z, ss, v) && TrueIn(op, lhs, rhs, ss[0])
  }

  lemma AddKeepsTight(z: Zone, a: nat, b: nat, c: int, n: nat)
    requires Sized(z, n) && a < n && b < n
    ensures Tight(AddConstraint(z, a, b, c)) && Sized(AddConstraint(z, a, b, c), n)
  {
    hide AddConstraint, Tight, In;
    AddTight(z, a, b, c, n, seq(n, _ => 0));
  }

  /** A comparison other than equality adds one constraint. */
  lemma OneAdded(ix: Index, z: Zone, op: CmpOp, lhs: Operand, rhs: Operand) returns (a: nat, b: nat, c: int)
    requires Shaped(z) && OperandZ(ix, lhs).Some? && OperandZ(ix, rhs).Some? && op != Ne && op != Eq
    ensures RefineZ(ix, z, op, lhs, rhs) == AddConstraint(z, a, b, c)
    ensures {a, b} == {OperandZ(ix, lhs).value.0, OperandZ(ix, rhs).value.0}
  {
    var (l, lv) := OperandZ(ix, lhs).value;
    var (r, rv) := OperandZ(ix, rhs).value;
    hide OperandZ, AddConstraint;
    match op
    case Sle => a, b, c := l, r, rv - lv;
    case Ule => a, b, c := l, r, rv - lv;
    case Slt => a, b, c := l, r, rv - lv - 1;
    case Ult => a, b, c := l, r, rv - lv - 1;
    case Sge => a, b, c := r, l, lv - rv;
    case Uge => a, b, c := r, l, lv - rv;
    case _ => a, b, c := r, l, lv - rv - 1;
  }

  lemma RefineAdds(ix: Index, z: Zone, op: CmpOp, lhs: Operand, rhs: Operand, n: nat)
    requires Sized(z, n) && Shaped(z) && OperandZ(ix, lhs).Some? && OperandZ(ix, rhs).Some? && op != Ne
    requires OperandZ(ix, lhs).value.0 < n && OperandZ(ix, rhs).value.0 < n
    ensures Tight(RefineZ(ix, z, op, lhs, rhs)) && Sized(RefineZ(ix, z, op, lhs, rhs), n)
  {
    hide Tight, AddConstraint, Sized, OperandZ;
    if op == Eq {
      var (a, av) := OperandZ(ix, lhs).value;
      var (b, bv) := OperandZ(ix, rhs).value;
      AddKeepsTight(z, a, b, bv - av, n);
      AddKeepsTight(AddConstraint(z, a, b, bv - av), b, a, av - bv, n);
    } else {
      var a, b, c := OneAdded(ix, z, op, lhs, rhs);
      assert a in {a, b} && b in {a, b};
      hide RefineZ;
      AddKeepsTight(z, a, b, c, n);
    }
  }

  lemma RefineTight(ix: Index, z: Zone, op: CmpOp, lhs: Operand, rhs: Operand)
    requires IndexOk(ix) && SizedFor(ix, z) && Tight(z) && op != Ne
    requires OperandZ(ix, lhs).Some? && OperandZ(ix, rhs).Some?
    ensures Tight(RefineZ(ix, z, op, lhs, rhs)) && SizedFor(ix, RefineZ(ix, z, op, lhs, rhs))
  {
    OperandNode(ix, lhs);
    OperandNode(ix, rhs);
    hide Tight, RefineZ, IndexOk, OperandZ;
    RefineAdds(ix, z, op, lhs, rhs, |ix.regs| + 1);
  }

  lemma OperandNode(ix: Index, op: Operand)
    requires IndexOk(ix) && OperandZ(ix, op).Some?
    ensures OperandZ(ix, op).value.0 <= |ix.regs|
  {
    if op.Reg? {
      AtOk(ix, op.r);
    }
  }

  lemma GuardExact(ix: Index, b: Block, to: Block, z: Zone, cmps: map<nat, RValue>, op: CmpOp, lhs: Operand,
                   rhs: Operand,
                   s: Store)
    requires IndexOk(ix) && SizedFor(ix, z) && Sided(ix, b, to, cmps, op, lhs, rhs)
    ensures InZ(ix, GuardZ(ix, z, b.term, to.id, cmps), s) <==> InZ(ix, z, s) && TrueIn(op, lhs, rhs, s)
  {
    ValueDenotes(lhs, s);
    ValueDenotes(rhs, s);
    hide InZ, RefineZ, IndexOk, SizedFor, OperandZ, Truth;
    RefineZExact(ix, z, op, lhs, rhs, s, SomeValue(lhs, s), SomeValue(rhs, s));
  }

  lemma ValueDenotes(op: Operand, s: Store)
    ensures Denotes(op, s, SomeValue(op, s))
  {
  }

  lemma GuardTight(ix: Index, b: Block, to: Block, z: Zone, cmps: map<nat, RValue>, op: CmpOp, lhs: Operand,
                   rhs: Operand)
    requires IndexOk(ix) && SizedFor(ix, z) && Tight(z) && Sided(ix, b, to, cmps, op, lhs, rhs)
    ensures var g := GuardZ(ix, z, b.term, to.id, cmps); Tight(g) && SizedFor(ix, g) && Shaped(g)
    ensures EdgeZ(ix, b, to, z, cmps) ==
            BindZ(ix, GuardZ(ix, z, b.term, to.id, cmps), to.params, SideArgs(b.term, to.id), |to.params|)
  {
    RefineTight(ix, z, op, lhs, rhs);
    hide RefineZ, IndexOk, Tight, BindZ, Negate;
  }

  /**
   Behind an edge to one side of a branch on tracked operands the zone has
   exactly the valuations that come from a store of the zone before it in which
   the test is true, by setting the parameters one after the other.
   */
  lemma EdgeExactly(ix: Index, b: Block, to: Block, z: Zone, cmps: map<nat, RValue>, op: CmpOp, lhs: Operand,
                    rhs: Operand,
                    v: seq<int>)
    requires IndexOk(ix) && SizedFor(ix, z) && Tight(z) && Sided(ix, b, to, cmps, op, lhs, rhs)
    requires Imaged(ix, Moves(to.params, SideArgs(b.term, to.id)), |to.params|)
    ensures In(EdgeZ(ix, b, to, z, cmps), v) <==>
            exists ss: seq<Store> :: Crosses(ix, b, to, z, op, lhs, rhs, ss, v)
  {
    var g, moves := GuardZ(ix, z, b.term, to.id, cmps), Moves(to.params, SideArgs(b.term, to.id));
    GuardTight(ix, b, to, z, cmps, op, lhs, rhs);
    hide IndexOk, Tight, In, Imaged, Sided, GuardZ, EdgeZ, BindZ, ApplyAllZ, Moves, Chain, Vec, TrueIn;
    BindMoves(ix, g, to.params, SideArgs(b.term, to.id), |to.params|);
    BlockImage(ix, moves, |moves|, g, v);
    forall ss: seq<Store> ensures ChainEnds(ix, moves, |moves|, g, ss, v) <==>
        Crosses(ix, b, to, z, op, lhs, rhs, ss, v) {
      if ss != [] {
        GuardExact(ix, b, to, z, cmps, op, lhs, rhs, ss[0]);
      }
      ChainStarts(moves, |moves|, ss);
    }
  }

  lemma ChainStarts(insts: seq<Inst>, n: nat, ss: seq<Store>)
    ensures Chain(insts, n, ss) ==> ss != []
  {
  }

  /** And so does the edge transfer of the whole function. */
  lemma TransferExactly(f: Function, cfg: Cfg, ix: Index, from: nat, to: nat, z: Zone, cmps: map<nat, RValue>,
                        op: CmpOp,
                        lhs: Operand, rhs: Operand, v: seq<int>)
    requires DistinctIds(f) && IsCfg(f, cfg) && from < |f.blocks| && to < |f.blocks| && !z.bottom
    requires IndexOk(ix) && SizedFor(ix, z) && Tight(z) && Sided(ix, f.blocks[from], f.blocks[to], cmps, op, lhs, rhs)
    requires Imaged(ix, Moves(f.blocks[to].params, SideArgs(f.blocks[from].term, f.blocks[to].id)),
             |f.blocks[to].params|)
    ensures In(TransferEdgeZ(f, cfg, ix, from, to, z, cmps), v) <==>
            exists ss: seq<Store> :: Crosses(ix, f.blocks[from], f.blocks[to], z, op, lhs, rhs, ss, v)
  {
    LookupNode(f, from);
    LookupNode(f, to);
    assert cfg.blocks[from] == f.blocks[from].id && cfg.blocks[to] == f.blocks[to].id;
    hide Lookup, DistinctIds, IsCfg, IndexOk, Tight, In, Imaged, Sided, EdgeZ, Moves, Crosses;
    EdgeExactly(ix, f.blocks[from], f.blocks[to], z, cmps, op, lhs, rhs, v);
    CanonIn(EdgeZ(ix, f.blocks[from], f.blocks[to], z, cmps), v);
  }
}
