/**
 A branch whose two targets are one block: the zone analysis applies the guard
 and the arguments of the then side, while a run may come by either side
 (crates/absint/src/relational.rs:160-209).
 */
module SharedTargets {
  import opened Wrappers
  import opened Ir
  import opened Ssa
  import opened Zones
  import opened Relational
  import opened BranchSides

  // ------------------------------------------------------------ arguments

  /** Binding a parameter to such an argument says what it equals; any other argument only forgets it. */
  predicate Definite(ix: Index, params: seq<nat>, args: seq<Operand>, i: nat) {
    && i < |params| && i < |args| && params[i] in ix.at
    && (args[i].IntConst? || (args[i].Reg? && args[i].r in ix.at))
  }

  /** What the then side says of a tracked parameter is also true when the else side is taken. */
  ghost predicate SidesShared(ix: Index, cond: Operand, params: seq<nat>, thenArgs: seq<Operand>,
                              elseArgs: seq<Operand>) {
    forall i: nat :: Definite(ix, params, thenArgs, i) ==> SideAgrees(cond, false, elseArgs, i, thenArgs[i])
  }

  /** The arguments as far as binding them says something. */
  function Blur(ix: Index, params: seq<nat>, args: seq<Operand>): (r: seq<Operand>)
    ensures |r| == |params|
  {
    seq(|params|, i requires 0 <= i < |params| => if Definite(ix, params, args, i) then args[i] else OpaqueConst(0))
  }

  lemma BlurBinds(ix: Index, cond: Operand, params: seq<nat>, thenArgs: seq<Operand>, elseArgs: seq<Operand>,
                  s: Store, s': Store)
    requires SidesShared(ix, cond, params, thenArgs, elseArgs)
    requires MayTake(cond, s, false) && Binds(params, elseArgs, s, s')
    ensures Binds(params, Blur(ix, params, thenArgs), s, s')
  {
    hide SideAgrees, MayTake, Denotes;
    var args := Blur(ix, params, thenArgs);
    forall i: nat | i < |params| && i < |args| ensures Denotes(args[i], s, Val(s', params[i])) {
      if Definite(ix, params, thenArgs, i) {
        SideAgreed(cond, false, elseArgs, i, thenArgs[i], s, Val(s', params[i]));
      } else {
        OpaqueAny(args[i], s, Val(s', params[i]));
      }
    }
  }

  lemma OpaqueAny(op: Operand, s: Store, v: int)
    requires op.OpaqueConst?
    ensures Denotes(op, s, v)
  {
  }

  lemma BlurOne(ix: Index, z: Zone, params: seq<nat>, args: seq<Operand>, i: nat)
    requires Shaped(z) && i < |params|
    ensures BindOne(ix, z, params[i], Some(Blur(ix, params, args)[i])) ==
            BindOne(ix, z, params[i], if i < |args| then Some(args[i]) else None)
  {
    hide SetAffine, Forget;
  }

  lemma {:induction false} BlurSame(ix: Index, z: Zone, params: seq<nat>, args: seq<Operand>, n: nat)
    requires Shaped(z) && n <= |params|
    ensures BindZ(ix, z, params, Blur(ix, params, args), n) == BindZ(ix, z, params, args, n)
  {
    hide BindOne, Blur;
    if n > 0 {
      BlurSame(ix, z, params, args, n - 1);
      BlurOne(ix, BindZ(ix, z, params, args, n - 1), params, args, n - 1);
    }
  }

  lemma BlurIndependent(ix: Index, params: seq<nat>, args: seq<Operand>)
    requires Independent(params, args)
    ensures Independent(params, Blur(ix, params, args))
  {
    var blurred := Blur(ix, params, args);
    forall i, j | 0 <= i < j < |params| && j < |blurred| && blurred[j] == Reg(params[i])
      ensures blurred[i] == Reg(params[i])
    {
      assert Definite(ix, params, args, j);
      assert args[j] == Reg(params[i]);
      assert args[i] == Reg(params[i]);
    }
  }

  ghost predicate BothSides(b: Block, to: Block) {
    b.term.CondBr? && b.term.thenBlk == to.id == b.term.elseBlk
  }

  /** Binding one by one is right for the edge, by either side. */
  ghost predicate EdgeUsable(ix: Index, b: Block, to: Block) {
    && (EdgeArgsOf(b.term, to.id).Some? ==> Independent(to.params, EdgeArgsOf(b.term, to.id).value))
    && (BothSides(b, to) ==> SidesShared(ix, b.term.cond, to.params, b.term.thenArgs, b.term.elseArgs))
  }

  lemma EdgeBinds(ix: Index, b: Block, to: Block, s: Store, s': Store, args: seq<Operand>) returns (bound: seq<Operand>)
    requires Passes(b, s, to, s') && EdgeUsable(ix, b, to) && EdgeArgsOf(b.term, to.id) == Some(args)
    ensures Binds(to.params, bound, s, s') && Independent(to.params, bound)
    ensures bound == args || bound == Blur(ix, to.params, args)
  {
    hide SidesShared, Independent, MayTake;
    if Binds(to.params, args, s, s') {
      bound := args;
    } else {
      bound := Blur(ix, to.params, args);
      BlurBinds(ix, b.term.cond, to.params, args, b.term.elseArgs, s, s');
      BlurIndependent(ix, to.params, args);
    }
  }

  /** Binding the parameters keeps every store that the edge may lead to. */
  lemma EdgeBindSound(ix: Index, g: Zone, b: Block, to: Block, s: Store, s': Store, args: seq<Operand>)
    requires IndexOk(ix) && SizedFor(ix, g) && InZ(ix, g, s)
    requires Passes(b, s, to, s') && EdgeUsable(ix, b, to) && EdgeArgsOf(b.term, to.id) == Some(args)
    ensures InZ(ix, BindZ(ix, g, to.params, args, |to.params|), s')
  {
    hide IndexOk, BindZ, In, Square, Binds, Independent, Passes, EdgeUsable, Blur, Vec;
    var bound := EdgeBinds(ix, b, to, s, s', args);
    BlurSame(ix, g, to.params, args, |to.params|);
    BindZSound(ix, g, to.params, bound, |to.params|, s, s');
    VecOfBound(ix, to.params, bound, s, s');
  }

  // ------------------------------------------------------------ exactly when the arguments may be shared

  /** No argument reads a parameter that the edge binds. */
  predicate Aloof(params: seq<nat>, args: seq<Operand>) {
    forall i, j :: 0 <= i < |params| && 0 <= j < |args| ==> args[j] != Reg(params[i])
  }

  /** The zone node and the offset that a definite argument stands for. */
  function NodeOf(ix: Index, op: Operand): (nat, int) {
    match op
    case Reg(r) => (if r in ix.at then ix.at[r] else 0, 0)
    case IntConst(c) => (0, c)
    case _ => (0, 0)
  }

  lemma BindOneTies(ix: Index, z: Zone, params: seq<nat>, args: seq<Operand>, i: nat)
    requires IndexOk(ix) && SizedFor(ix, z) && Definite(ix, params, args, i)
    ensures var (a, c) := NodeOf(ix, args[i]);
            Ties(BindOne(ix, z, params[i], Some(args[i])), a, ix.at[params[i]], c)
  {
    AtOk(ix, params[i]);
    if args[i].Reg? {
      AtOk(ix, args[i].r);
    }
    hide Ties, Square, IndexOk;
    var (a, c) := NodeOf(ix, args[i]);
    SetTies(z, ix.at[params[i]], a, c, |ix.regs| + 1);
    hide SetAffine;
  }

  /** After binding, the zone ties each parameter to its definite argument. */
  lemma {:induction false} BoundTies(ix: Index, z: Zone, params: seq<nat>, args: seq<Operand>, i: nat, n: nat)
    requires IndexOk(ix) && SizedFor(ix, z) && AllDistinct(params) && AllTracked(ix, params) && Aloof(params, args)
    requires Definite(ix, params, args, i) && i < n <= |params|
    ensures var (a, c) := NodeOf(ix, args[i]);
            Ties(BindZ(ix, z, params, args, n), a, ix.at[params[i]], c)
  {
    hide Ties, BindOne, IndexOk, Square;
    var (a, c) := NodeOf(ix, args[i]);
    var y := BindZ(ix, z, params, args, n - 1);
    BindZSized(ix, z, params, args, n - 1);
    if n - 1 == i {
      BindOneTies(ix, y, params, args, i);
    } else {
      BoundTies(ix, z, params, args, i, n - 1);
      AtOk(ix, params[n - 1]);
      NodesApart(ix, params[n - 1], params[i]);
      if args[i].Reg? {
        NodesApart(ix, params[n - 1], args[i].r);
      }
      BindKeepsTie(ix, y, params[n - 1], if n - 1 < |args| then Some(args[n - 1]) else None, a, ix.at[params[i]], c);
    }
  }

  /** The else side may take `s` to a store that the zone bound with the then side's arguments does not have. */
  ghost predicate ElseLost(ix: Index, z: Zone, cond: Operand, params: seq<nat>, thenArgs: seq<Operand>,
                           elseArgs: seq<Operand>, s: Store, s': Store) {
    && InZ(ix, z, s) && MayTake(cond, s, false) && Binds(params, elseArgs, s, s')
    && !InZ(ix, BindZ(ix, z, params, thenArgs, |params|), s')
  }

  lemma SharedKeeps(ix: Index, z: Zone, cond: Operand, params: seq<nat>, thenArgs: seq<Operand>, elseArgs: seq<Operand>,
                    s: Store, s': Store)
    requires IndexOk(ix) && SizedFor(ix, z) && Independent(params, thenArgs)
    requires SidesShared(ix, cond, params, thenArgs, elseArgs)
    ensures !ElseLost(ix, z, cond, params, thenArgs, elseArgs, s, s')
  {
    hide IndexOk, BindZ, In, Square, Binds, Independent, Blur, Vec, MayTake, SidesShared;
    if InZ(ix, z, s) && MayTake(cond, s, false) && Binds(params, elseArgs, s, s') {
      BlurBinds(ix, cond, params, thenArgs, elseArgs, s, s');
      BlurIndependent(ix, params, thenArgs);
      BlurSame(ix, z, params, thenArgs, |params|);
      BindZSound(ix, z, params, Blur(ix, params, thenArgs), |params|, s, s');
      VecOfBound(ix, params, Blur(ix, params, thenArgs), s, s');
    }
  }

  lemma TiedValue(ix: Index, s: Store, s': Store, params: seq<nat>, args: seq<Operand>, i: nat)
    requires IndexOk(ix) && Definite(ix, params, args, i) && Aloof(params, args)
    requires forall r: nat :: r !in params ==> Val(s', r) == Val(s, r)
    ensures var (a, c) := NodeOf(ix, args[i]);
            && a < |Vec(ix, s')| && ix.at[params[i]] < |Vec(ix, s')|
            && (Vec(ix, s')[ix.at[params[i]]] == Vec(ix, s')[a] + c ==> Denotes(args[i], s, Val(s', params[i])))
  {
    VecAt(ix, s', params[i]);
    VecNth(ix, s', 0);
    if args[i].Reg? {
      VecAt(ix, s', args[i].r);
    }
    hide IndexOk, Vec;
  }

  lemma OtherValueLost(ix: Index, cond: Operand, params: seq<nat>, thenArgs: seq<Operand>, elseArgs: seq<Operand>,
                       i: nat)
    returns (s: Store, s': Store)
    requires IndexOk(ix) && AllDistinct(params) && AllTracked(ix, params) && Aloof(params, thenArgs)
    requires Definite(ix, params, thenArgs, i) && !SideAgrees(cond, false, elseArgs, i, thenArgs[i])
    ensures ElseLost(ix, TopZone(|ix.regs|), cond, params, thenArgs, elseArgs, s, s')
  {
    var v: int;
    s, v := SideApart(cond, false, elseArgs, i, thenArgs[i]);
    hide SideAgrees, MayTake, BindZ, In, Ties;
    s' := BindsWith(params, elseArgs, i, s, v);
    var z := TopZone(|ix.regs|);
    TopHolds(|ix.regs|, Vec(ix, s));
    BoundTies(ix, z, params, thenArgs, i, |params|);
    TiedValue(ix, s, s', params, thenArgs, i);
    hide *;
    LostByTie(ix, z, cond, params, thenArgs, elseArgs, i, s, s');
  }

  lemma LostByTie(ix: Index, z: Zone, cond: Operand, params: seq<nat>, thenArgs: seq<Operand>, elseArgs: seq<Operand>,
                  i: nat, s: Store, s': Store)
    requires InZ(ix, z, s) && MayTake(cond, s, false) && Binds(params, elseArgs, s, s') && Shaped(z)
    requires Definite(ix, params, thenArgs, i) && !Denotes(thenArgs[i], s, Val(s', params[i]))
    requires var (a, c) := NodeOf(ix, thenArgs[i]);
             && Ties(BindZ(ix, z, params, thenArgs, |params|), a, ix.at[params[i]], c)
             && a < |Vec(ix, s')| && ix.at[params[i]] < |Vec(ix, s')|
             && (Vec(ix, s')[ix.at[params[i]]] == Vec(ix, s')[a] + c ==> Denotes(thenArgs[i], s, Val(s', params[i])))
    ensures ElseLost(ix, z, cond, params, thenArgs, elseArgs, s, s')
  {
    hide Ties, In, MayTake, Binds, BindZ, Vec, NodeOf, Denotes;
    var r := BindZ(ix, z, params, thenArgs, |params|);
    if InZ(ix, r, s') {
      var (a, c) := NodeOf(ix, thenArgs[i]);
      TieMeans(r, a, ix.at[params[i]], c, Vec(ix, s'));
    }
  }

  /**
   For distinct tracked parameters that no argument reads: whatever the zone,
   binding them from the then side keeps every store that arrives by the else
   side, if and only if the two sides agree on each definite argument.
   */
  lemma SharedExactly(ix: Index, cond: Operand, params: seq<nat>, thenArgs: seq<Operand>, elseArgs: seq<Operand>)
    requires IndexOk(ix) && AllDistinct(params) && AllTracked(ix, params) && Aloof(params, thenArgs)
    ensures SidesShared(ix, cond, params, thenArgs, elseArgs) <==>
            forall z: Zone, s: Store, s': Store ::
              SizedFor(ix, z) ==> !ElseLost(ix, z, cond, params, thenArgs, elseArgs, s, s')
  {
    hide ElseLost, SideAgrees, SizedFor, IndexOk, AllTracked;
    if SidesShared(ix, cond, params, thenArgs, elseArgs) {
      forall z: Zone, s: Store, s': Store | SizedFor(ix, z)
        ensures !ElseLost(ix, z, cond, params, thenArgs, elseArgs, s, s')
      {
        SharedKeeps(ix, z, cond, params, thenArgs, elseArgs, s, s');
      }
    } else {
      var i: nat :| Definite(ix, params, thenArgs, i) && !SideAgrees(cond, false, elseArgs, i, thenArgs[i]);
      var s, s' := OtherValueLost(ix, cond, params, thenArgs, elseArgs, i);
      TopSized(ix);
    }
  }

  lemma TopSized(ix: Index)
    ensures SizedFor(ix, TopZone(|ix.regs|))
  {
  }

  // ------------------------------------------------------------ the guard

  /** The guard says nothing: an operand is not tracked, it is `!=`, or it holds of the two nodes anyway. */
  predicate GuardIdle(ix: Index, op: CmpOp, lhs: Operand, rhs: Operand) {
    || OperandZ(ix, lhs).None? || OperandZ(ix, rhs).None? || op == Ne
    || (OperandZ(ix, lhs).value.0 == OperandZ(ix, rhs).value.0 &&
        Truth(SignedOf(op), OperandZ(ix, lhs).value.1, OperandZ(ix, rhs).value.1))
  }

  lemma IdleKeeps(ix: Index, z: Zone, op: CmpOp, lhs: Operand, rhs: Operand, s: Store)
    requires IndexOk(ix) && SizedFor(ix, z) && GuardIdle(ix, op, lhs, rhs) && InZ(ix, z, s)
    ensures InZ(ix, RefineZ(ix, z, op, lhs, rhs), s)
  {
    if OperandZ(ix, lhs).Some? && OperandZ(ix, rhs).Some? && op != Ne {
      var a, b := SomeValue(lhs, s), SomeValue(rhs, s);
      OperandZSound(ix, lhs, s, a);
      OperandZSound(ix, rhs, s, b);
      hide InZ, RefineZ, IndexOk, Vec;
      RefineZExact(ix, z, op, lhs, rhs, s, a, b);
    }
  }

  /** A store in which a guard that is not idle fails as it is read. */
  function Failing(op: CmpOp, lhs: Operand, rhs: Operand): Store {
    if lhs.Reg? then
      var b := if rhs.IntConst? then rhs.v else 0;
      map[lhs.r := if op == Slt || op == Ult || op == Sle || op == Ule || op == Eq then b + 1 else b - 1]
    else if rhs.Reg? && lhs.IntConst? then
      map[rhs.r := if op == Slt || op == Ult || op == Sle || op == Ule || op == Eq then lhs.v - 1 else lhs.v + 1]
    else map[]
  }

  lemma FailingFails(ix: Index, op: CmpOp, lhs: Operand, rhs: Operand)
    requires IndexOk(ix) && !GuardIdle(ix, op, lhs, rhs)
    ensures var s := Failing(op, lhs, rhs); !Truth(SignedOf(op), SomeValue(lhs, s), SomeValue(rhs, s))
  {
    if lhs.Reg? && rhs.Reg? && lhs.r != rhs.r {
      NodesApart(ix, lhs.r, rhs.r);
    }
  }

  /** The store with the comparison's register set to what it records. */
  function Recording(c: nat, op: CmpOp, lhs: Operand, rhs: Operand, s: Store): Store {
    s[c := if Truth(op, SomeValue(lhs, s), SomeValue(rhs, s)) then 1 else 0]
  }

  ghost predicate GuardCuts(ix: Index, z: Zone, c: nat, op: CmpOp, lhs: Operand, rhs: Operand, s: Store) {
    InZ(ix, z, s) && RecordHolds(Assign(c, Cmp(op, lhs, rhs)), s) && !InZ(ix, RefineZ(ix, z, op, lhs, rhs), s)
  }

  lemma NotIdleCuts(ix: Index, c: nat, op: CmpOp, lhs: Operand, rhs: Operand) returns (s: Store)
    requires IndexOk(ix) && lhs != Reg(c) && rhs != Reg(c) && !GuardIdle(ix, op, lhs, rhs)
    ensures GuardCuts(ix, TopZone(|ix.regs|), c, op, lhs, rhs, s)
  {
    var f := Failing(op, lhs, rhs);
    FailingFails(ix, op, lhs, rhs);
    s := Recording(c, op, lhs, rhs, f);
    var a, b := SomeValue(lhs, f), SomeValue(rhs, f);
    assert Denotes(lhs, s, a) && Denotes(rhs, s, b);
    TopHolds(|ix.regs|, Vec(ix, s));
    RefineZExact(ix, TopZone(|ix.regs|), op, lhs, rhs, s, a, b);
    hide InZ, RefineZ, TopZone, Failing, Truth;
    assert Compared(op, lhs, rhs, s, Val(s, c));
  }

  /**
   A guard applied to both sides of its branch keeps every store that agrees with
   the recorded comparison, whatever the zone, if and only if it is idle.
   */
  lemma GuardSharedExactly(ix: Index, c: nat, op: CmpOp, lhs: Operand, rhs: Operand)
    requires IndexOk(ix) && lhs != Reg(c) && rhs != Reg(c)
    ensures GuardIdle(ix, op, lhs, rhs) <==>
            forall z: Zone, s: Store :: SizedFor(ix, z) ==> !GuardCuts(ix, z, c, op, lhs, rhs, s)
  {
    hide SizedFor, InZ, GuardIdle, RefineZ, IndexOk, RecordHolds;
    if GuardIdle(ix, op, lhs, rhs) {
      forall z: Zone, s: Store | SizedFor(ix, z) ensures !GuardCuts(ix, z, c, op, lhs, rhs, s) {
        if InZ(ix, z, s) {
          IdleKeeps(ix, z, op, lhs, rhs, s);
        }
      }
    } else {
      var s := NotIdleCuts(ix, c, op, lhs, rhs);
      TopSized(ix);
    }
  }

  /** Both sides lead to one block, with `x < y` recorded for the condition: a store in which it fails is cut out. */
  lemma BothSidesCut(ix: Index, to: Block, x: nat, y: nat, c: nat)
    requires IndexOk(ix) && x in ix.at && y in ix.at && x != y && c != x && c != y && to.params == []
    ensures var lt := Cmp(Slt, Reg(x), Reg(y));
            var b := Block(to.id + 1, [], [Assign(c, lt)], CondBr(Reg(c), to.id, [], to.id, []));
            && InZ(ix, TopZone(|ix.regs|), map[]) && RecordHolds(b.insts[0], map[]) && Passes(b, map[], to, map[])
            && !InZ(ix, EdgeZ(ix, b, to, TopZone(|ix.regs|), map[c := lt]), map[])
  {
    var s: Store := map[];
    var lt := Cmp(Slt, Reg(x), Reg(y));
    assert Denotes(Reg(x), s, 0) && Denotes(Reg(y), s, 0) && Denotes(Reg(c), s, 0);
    assert Compared(Slt, Reg(x), Reg(y), s, 0) && MayTake(Reg(c), s, false);
    TopHolds(|ix.regs|, Vec(ix, s));
    RefineZExact(ix, TopZone(|ix.regs|), Slt, Reg(x), Reg(y), s, 0, 0);
    hide InZ, RefineZ, TopZone, IndexOk;
  }
}
